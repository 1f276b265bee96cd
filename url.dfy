/**
 * Form encoding of query-string values, as `urllib.parse.quote_plus` writes
 * them (the encoding `django.utils.http.urlencode` applies) and as
 * `unquote_plus` reads them back, for ASCII text.
 */
module Url {
  import opened Text

  predicate IsAscii(c: char) { c as int < 128 }

  predicate AllAscii(s: string) { forall i :: 0 <= i < |s| ==> IsAscii(s[i]) }

  /** The characters `quote_plus` leaves alone: letters, digits and "_.-~". */
  predicate Unreserved(c: char)
  {
    'A' <= c <= 'Z' || 'a' <= c <= 'z' || '0' <= c <= '9' || c == '_' || c == '.' || c == '-' || c == '~'
  }

  function HexDigit(d: nat): (c: char)
    requires d < 16
  {
    if d < 10 then ('0' as int + d) as char else ('A' as int + d - 10) as char
  }

  function HexValue(c: char): Option<nat>
  {
    if '0' <= c <= '9' then Some(c as int - '0' as int)
    else if 'A' <= c <= 'F' then Some(c as int - 'A' as int + 10)
    else if 'a' <= c <= 'f' then Some(c as int - 'a' as int + 10)
    else None
  }

  lemma HexValueOfDigit(d: nat)
    requires d < 16
    ensures HexValue(HexDigit(d)) == Some(d)
  {
  }

  /** One character encoded: kept, a space as '+', anything else as "%XY" in upper-case hexadecimal. */
  function QuoteChar(c: char): string
    requires IsAscii(c)
  {
    if Unreserved(c) then [c]
    else if c == ' ' then "+"
    else ['%', HexDigit(c as int / 16), HexDigit(c as int % 16)]
  }

  function QuotePlus(s: string): string
    requires AllAscii(s)
    decreases |s|
  {
    if s == [] then [] else QuoteChar(s[0]) + QuotePlus(s[1..])
  }

  /** `unquote_plus`: '+' is a space, "%XY" the character of that code, anything else itself. */
  function UnquotePlus(s: string): string
    decreases |s|
  {
    if s == [] then []
    else if s[0] == '+' then " " + UnquotePlus(s[1..])
    else if s[0] == '%' && |s| >= 3 && HexValue(s[1]).Some? && HexValue(s[2]).Some? then
      [(16 * HexValue(s[1]).value + HexValue(s[2]).value) as char] + UnquotePlus(s[3..])
    else [s[0]] + UnquotePlus(s[1..])
  }

  lemma UnquoteQuoteChar(c: char, t: string)
    requires IsAscii(c)
    ensures UnquotePlus(QuoteChar(c) + t) == [c] + UnquotePlus(t)
  {
    var s := QuoteChar(c) + t;
    if Unreserved(c) {
      assert s[0] == c && s[1..] == t;
    } else if c == ' ' {
      assert s[0] == '+' && s[1..] == t;
    } else {
      HexValueOfDigit(c as int / 16);
      HexValueOfDigit(c as int % 16);
      assert s[0] == '%' && s[1] == HexDigit(c as int / 16) && s[2] == HexDigit(c as int % 16) && s[3..] == t;
    }
  }

  /** Decoding undoes encoding. */
  lemma {:induction false} UnquoteQuotePlus(s: string)
    requires AllAscii(s)
    ensures UnquotePlus(QuotePlus(s)) == s
    decreases |s|
  {
    if s != [] {
      assert AllAscii(s[1..]) by {
        forall i | 0 <= i < |s[1..]| ensures IsAscii(s[1..][i]) { assert s[1..][i] == s[i + 1]; }
      }
      UnquoteQuotePlus(s[1..]);
      UnquoteQuoteChar(s[0], QuotePlus(s[1..]));
      assert [s[0]] + s[1..] == s;
    }
  }

  lemma AsciiAppend(a: string, b: string)
    requires AllAscii(a) && AllAscii(b)
    ensures AllAscii(a + b)
  {
    forall i | 0 <= i < |a + b| ensures IsAscii((a + b)[i]) {
      if i < |a| { assert (a + b)[i] == a[i]; } else { assert (a + b)[i] == b[i - |a|]; }
    }
  }

  /** Encoding works character by character. */
  lemma {:induction false} QuotePlusAppend(a: string, b: string)
    requires AllAscii(a) && AllAscii(b)
    ensures AllAscii(a + b) && QuotePlus(a + b) == QuotePlus(a) + QuotePlus(b)
    decreases |a|
  {
    AsciiAppend(a, b);
    if a != [] {
      assert (a + b)[1..] == a[1..] + b;
      assert AllAscii(a[1..]) by {
        forall i | 0 <= i < |a[1..]| ensures IsAscii(a[1..][i]) { assert a[1..][i] == a[i + 1]; }
      }
      QuotePlusAppend(a[1..], b);
      assert (a + b)[0] == a[0];
      calc {
        QuotePlus(a + b);
        QuoteChar(a[0]) + QuotePlus(a[1..] + b);
        QuoteChar(a[0]) + (QuotePlus(a[1..]) + QuotePlus(b));
        (QuoteChar(a[0]) + QuotePlus(a[1..])) + QuotePlus(b);
      }
    } else {
      assert a + b == b;
    }
  }

  /** Text of letters, digits and "_.-~" is its own encoding. */
  lemma {:induction false} QuotePlusUnreserved(s: string)
    requires forall i :: 0 <= i < |s| ==> Unreserved(s[i])
    ensures AllAscii(s) && QuotePlus(s) == s
    decreases |s|
  {
    if s != [] {
      assert forall i :: 0 <= i < |s[1..]| ==> Unreserved(s[1..][i]) by {
        forall i | 0 <= i < |s[1..]| ensures Unreserved(s[1..][i]) { assert s[1..][i] == s[i + 1]; }
      }
      QuotePlusUnreserved(s[1..]);
      assert [s[0]] + s[1..] == s;
    }
  }

  /** '=' and '&', the two separators of a query string, are encoded. */
  lemma QuoteSeparators()
    ensures QuotePlus("=") == "%3D" && QuotePlus("&") == "%26"
  {
    assert "="[1..] == [] && "&"[1..] == [];
  }
}
