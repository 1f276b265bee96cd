/**
 * The file-extension validator of sales/validators.py: the extension is
 * what `os.path.splitext` (POSIX flavour) splits off the uploaded file's
 * name, and the file passes when that extension, lower-cased, is one of the
 * allowed ones.
 */
module Validators {
  import opened Text

  /**
   * `os.path.splitext`: the extension starts at the last '.' of the final
   * path component, provided some character of that component before it is
   * not a '.'; otherwise there is none.
   */
  function Splitext(p: string): (r: (string, string))
    ensures r.0 + r.1 == p
    ensures r.1 == [] || (r.1[0] == '.' && '/' !in r.1 && '.' !in r.1[1..])
  {
    var sepIndex := RFind(p, '/');
    var dotIndex := RFind(p, '.');
    if dotIndex > sepIndex && exists k :: sepIndex < k < dotIndex && p[k] != '.' then
      assert p[..dotIndex] + p[dotIndex..] == p;
      assert forall k :: 0 <= k < |p[dotIndex..]| ==> p[dotIndex..][k] == p[dotIndex + k];
      (p[..dotIndex], p[dotIndex..])
    else (p, "")
  }

  /** A '.' of the final component, with a character other than '.' before it in that component. */
  predicate HasExtension(p: string)
  {
    exists j, i :: RFind(p, '/') < j < i < |p| && p[j] != '.' && p[i] == '.'
  }

  /** A name has an extension exactly when its final component has a dot after something other than dots. */
  lemma SplitextFindsExtension(p: string)
    ensures Splitext(p).1 != [] <==> HasExtension(p)
  {
    var sepIndex := RFind(p, '/');
    var dotIndex := RFind(p, '.');
    if Splitext(p).1 != [] {
      var k :| sepIndex < k < dotIndex && p[k] != '.';
      assert RFind(p, '/') < k < dotIndex < |p| && p[k] != '.' && p[dotIndex] == '.';
    }
    if HasExtension(p) {
      var j, i :| sepIndex < j < i < |p| && p[j] != '.' && p[i] == '.';
      assert i <= dotIndex;
      assert sepIndex < j < dotIndex && p[j] != '.';
    }
  }

  /** What `inner` does: nothing, or the validation error. */
  datatype Verdict = Accepted | Rejected(message: string)

  function RejectionMessage(extensions: seq<string>): string
  {
    "Arquivo não suportado. Extensões válidas: " + Join(extensions, ", ")
  }

  /**
   * `validate_extension(extensions)(value)`, the closure applied to the
   * uploaded file's name. Only the file's side is lower-cased.
   */
  function ValidateExtension(extensions: seq<string>, name: string): (v: Verdict)
    ensures v.Rejected? ==> v.message == RejectionMessage(extensions)
  {
    if Lower(Splitext(name).1) in extensions then Accepted else Rejected(RejectionMessage(extensions))
  }

  /** Accepted exactly when the lower-cased extension is listed, and rejected with the list otherwise. */
  lemma ValidateExtensionSpec(extensions: seq<string>, name: string)
    ensures ValidateExtension(extensions, name).Accepted? <==>
      exists i :: 0 <= i < |extensions| && extensions[i] == Lower(Splitext(name).1)
    ensures ValidateExtension(extensions, name).Accepted? || ValidateExtension(extensions, name) == Rejected(RejectionMessage(extensions))
  {
    if Lower(Splitext(name).1) in extensions {
      var i :| 0 <= i < |extensions| && extensions[i] == Lower(Splitext(name).1);
    }
  }

  /** A name whose final component has no extension is accepted only if "" is listed. */
  lemma NoExtension(extensions: seq<string>, name: string)
    requires !HasExtension(name)
    ensures Splitext(name) == (name, "")
    ensures ValidateExtension(extensions, name).Accepted? <==> "" in extensions
  {
    SplitextFindsExtension(name);
    assert Lower("") == "";
  }

  /** The last `c` of `s` is at `i`. */
  lemma RFindAt(s: string, c: char, i: int)
    requires 0 <= i < |s| && s[i] == c && forall k :: i < k < |s| ==> s[k] != c
    ensures RFind(s, c) == i
  {
  }

  lemma RFindAbsent(s: string, c: char)
    requires c !in s
    ensures RFind(s, c) == -1
  {
  }

  /** A plain name and a plain suffix split at the dot between them. */
  lemma SplitextOfStem(stem: string, ext: string)
    requires stem != [] && '.' !in stem && '/' !in stem && '.' !in ext && '/' !in ext
    ensures Splitext(stem + "." + ext) == (stem, "." + ext)
  {
    var p := stem + "." + ext;
    assert forall k :: |stem| < k < |p| ==> p[k] == ext[k - |stem| - 1];
    assert forall k :: 0 <= k < |stem| ==> p[k] == stem[k];
    RFindAbsent(p, '/');
    RFindAt(p, '.', |stem|);
    assert p[0] != '.';
    assert p[..|stem|] == stem && p[|stem|..] == "." + ext;
  }

  /** Dots in front of a name without dots do not start an extension. */
  lemma SplitextOfLeadingDots(dots: string, name: string)
    requires dots != [] && (forall k :: 0 <= k < |dots| ==> dots[k] == '.') && '.' !in name && '/' !in name
    ensures Splitext(dots + name) == (dots + name, "")
  {
    var p := dots + name;
    assert forall k :: |dots| <= k < |p| ==> p[k] == name[k - |dots|];
    assert forall k :: 0 <= k < |dots| ==> p[k] == dots[k];
    RFindAbsent(p, '/');
    RFindAt(p, '.', |dots| - 1);
  }

  /** ".xlsx" has no extension, "report.xlsx" has ".xlsx". */
  lemma SplitextExamples()
    ensures Splitext(".xlsx") == (".xlsx", "")
    ensures Splitext("report.xlsx") == ("report", ".xlsx")
  {
    SplitextOfLeadingDots(".", "xlsx");
    assert "." + "xlsx" == ".xlsx";
    SplitextOfStem("report", "xlsx");
    assert "report" + "." + "xlsx" == "report.xlsx";
  }

  /** A plain name with a plain suffix is judged by the suffix, lower-cased, with its dot. */
  lemma ValidateStemExtension(extensions: seq<string>, stem: string, ext: string)
    requires stem != [] && '.' !in stem && '/' !in stem && '.' !in ext && '/' !in ext
    ensures ValidateExtension(extensions, stem + "." + ext).Accepted? <==> Lower("." + ext) in extensions
  {
    SplitextOfStem(stem, ext);
  }

  /** ".XLSX" and ".xlsx" both lower-case to ".xlsx". */
  lemma LowerXlsx()
    ensures Lower("." + "XLSX") == ".xlsx" && Lower("." + "xlsx") == ".xlsx"
  {
    assert "." + "XLSX" == ".XLSX" && "." + "xlsx" == ".xlsx";
    assert Lower(".XLSX")[1] == 'x' && Lower(".XLSX")[4] == 'x';
  }

  /** The case of the file's name does not matter: "<stem>.XLSX" passes when ".xlsx" is listed. */
  lemma UpperCaseNameAccepted(stem: string)
    requires stem != [] && '.' !in stem && '/' !in stem
    ensures ValidateExtension([".xlsx"], stem + "." + "XLSX") == Accepted
  {
    ValidateStemExtension([".xlsx"], stem, "XLSX");
    LowerXlsx();
  }

  /** The case of the list does: "<stem>.xlsx" fails when only ".XLSX" is listed. */
  lemma UpperCaseListRejects(stem: string)
    requires stem != [] && '.' !in stem && '/' !in stem
    ensures ValidateExtension([".XLSX"], stem + "." + "xlsx").Rejected?
  {
    ValidateStemExtension([".XLSX"], stem, "xlsx");
    LowerXlsx();
  }

  /** The list the sales model gives the validator, as the rejection message writes it. */
  lemma JoinSalesExtensions()
    ensures Join([".xls", ".xlsx", ".xlsm", ".csv"], ", ") == ".xls, .xlsx, .xlsm, .csv"
  {
  }
}
