/**
 * What `ParserSalesXlsx.as_data` and `get_row_dict` promise: all or
 * nothing, one record per data row in sheet order, each header name bound
 * to its converted cell, the sheet's own header row read for its width
 * only, and the records of the default header being sale records.
 */
module ParserLemmas {
  import opened Text
  import opened Models
  import opened Conversions
  import opened Parser
  import ConversionLemmas

  // ------------------------------------------------------ all or nothing

  /** Every row has the header's width, and every data row converts. */
  predicate WellFormed(header: seq<string>, rows: seq<Row>)
  {
    (forall i :: 0 <= i < |rows| ==> |rows[i]| == |header|) &&
    (forall i :: 1 <= i < |rows| ==> RowDict(header, rows[i]).Some?)
  }

  /** A row of the wrong width anywhere, the header row included, empties the result. */
  lemma ParseWidthMismatch(header: seq<string>, rows: seq<Row>, i: nat)
    requires i < |rows| && |rows[i]| != |header|
    ensures Parse(header, rows) == []
  {
    assert ParseUpTo(header, rows, i + 1).None?;
    ParseFailureSticks(header, rows, i + 1, |rows|);
  }

  /** A data row with a cell that fails its conversion empties the result: there are no partial lists. */
  lemma ParseRowFailure(header: seq<string>, rows: seq<Row>, i: nat)
    requires 1 <= i < |rows| && RowDict(header, rows[i]).None?
    ensures Parse(header, rows) == []
  {
    assert ParseUpTo(header, rows, i + 1).None? by {
      if ParseUpTo(header, rows, i).Some? && |rows[i]| == |header| {
        assert i != 0;
      }
    }
    ParseFailureSticks(header, rows, i + 1, |rows|);
  }

  lemma {:induction false} ParseUpToSucceeds(header: seq<string>, rows: seq<Row>, n: nat)
    requires n <= |rows| && WellFormed(header, rows)
    ensures ParseUpTo(header, rows, n).Some?
    ensures |ParseUpTo(header, rows, n).value| == if n == 0 then 0 else n - 1
    ensures forall k :: 0 <= k < |ParseUpTo(header, rows, n).value| ==>
      ParseUpTo(header, rows, n).value[k] == RowDict(header, rows[k + 1]).value
    decreases n
  {
    if n > 0 {
      ParseUpToSucceeds(header, rows, n - 1);
    }
  }

  /** A well-formed sheet gives one record per data row, in sheet order, each the row's dict. */
  lemma ParseSucceeds(header: seq<string>, rows: seq<Row>)
    requires WellFormed(header, rows)
    ensures |Parse(header, rows)| == if rows == [] then 0 else |rows| - 1
    ensures forall k :: 0 <= k < |Parse(header, rows)| ==>
      Parse(header, rows)[k] == RowDict(header, rows[k + 1]).value
  {
    ParseUpToSucceeds(header, rows, |rows|);
  }

  /** The converse: a sheet with any bad row parses to nothing. */
  lemma ParseFailsUnlessWellFormed(header: seq<string>, rows: seq<Row>)
    requires !WellFormed(header, rows)
    ensures Parse(header, rows) == []
  {
    if exists i :: 0 <= i < |rows| && |rows[i]| != |header| {
      var i :| 0 <= i < |rows| && |rows[i]| != |header|;
      ParseWidthMismatch(header, rows, i);
    } else {
      var i :| 1 <= i < |rows| && RowDict(header, rows[i]).None?;
      ParseRowFailure(header, rows, i);
    }
  }

  // ------------------------------------------------- the sheet's header row

  lemma {:induction false} ParseUpToSameWidths(header: seq<string>, first: Row, other: Row, rest: seq<Row>, n: nat)
    requires |first| == |other| && n <= 1 + |rest|
    ensures ParseUpTo(header, [first] + rest, n) == ParseUpTo(header, [other] + rest, n)
    decreases n
  {
    if n > 0 {
      ParseUpToSameWidths(header, first, other, rest, n - 1);
      var a, b := [first] + rest, [other] + rest;
      if n == 1 {
        assert |a[0]| == |b[0]|;
      } else {
        assert a[n - 1] == rest[n - 2] == b[n - 1];
      }
    }
  }

  /** Only the width of the sheet's own header row matters; its cells are never read. */
  lemma HeaderRowIgnored(header: seq<string>, first: Row, other: Row, rest: seq<Row>)
    requires |first| == |other|
    ensures Parse(header, [first] + rest) == Parse(header, [other] + rest)
  {
    ParseUpToSameWidths(header, first, other, rest, 1 + |rest|);
  }

  // ----------------------------------------------------------- one row

  /** The last column of the first `n` carrying the name `header[i]` is column `i`. */
  predicate LastWithName(header: seq<string>, i: int, n: int)
    requires 0 <= i < n <= |header|
  {
    forall j :: i < j < n ==> header[j] != header[i]
  }

  /** Each of the first `n` columns has a cell, and the cell converts under its column's name. */
  predicate ColumnsConvert(header: seq<string>, row: Row, n: nat)
    requires n <= |header|
  {
    forall i :: 0 <= i < n ==> i < |row| && Convert(header[i], row[i]).Some?
  }

  lemma {:induction false} RowDictUpToSucceeds(header: seq<string>, row: Row, n: nat)
    requires n <= |header|
    ensures RowDictUpTo(header, row, n).Some? <==> ColumnsConvert(header, row, n)
    decreases n
  {
    if n > 0 {
      RowDictUpToSucceeds(header, row, n - 1);
    }
  }

  lemma {:induction false} RowDictUpToKeys(header: seq<string>, row: Row, n: nat)
    requires n <= |header| && RowDictUpTo(header, row, n).Some?
    ensures forall k :: k in RowDictUpTo(header, row, n).value <==> k in header[..n]
    decreases n
  {
    if n > 0 {
      RowDictUpToKeys(header, row, n - 1);
      assert header[..n] == header[..n - 1] + [header[n - 1]];
    }
  }

  lemma {:induction false} RowDictUpToValues(header: seq<string>, row: Row, n: nat)
    requires n <= |header| && RowDictUpTo(header, row, n).Some?
    ensures forall i :: 0 <= i < n && LastWithName(header, i, n) ==>
      i < |row| && Convert(header[i], row[i]).Some? && header[i] in RowDictUpTo(header, row, n).value &&
      RowDictUpTo(header, row, n).value[header[i]] == Convert(header[i], row[i]).value
    decreases n
  {
    if n > 0 {
      var d0 := RowDictUpTo(header, row, n - 1).value;
      RowDictUpToValues(header, row, n - 1);
      assert n - 1 < |row|;
      var v := Convert(header[n - 1], row[n - 1]).value;
      var d := RowDictUpTo(header, row, n).value;
      assert d == d0[header[n - 1] := v];
      forall i | 0 <= i < n && LastWithName(header, i, n)
        ensures i < |row| && Convert(header[i], row[i]).Some?
        ensures header[i] in d && d[header[i]] == Convert(header[i], row[i]).value
      {
        if i < n - 1 {
          assert LastWithName(header, i, n - 1);
          assert header[i] != header[n - 1];
        }
      }
    }
  }

  /**
   * `get_row_dict` succeeds exactly when every column has a cell that
   * converts; then its keys are the header names and each name holds the
   * converted cell of the last column carrying it.
   */
  lemma RowDictSpec(header: seq<string>, row: Row)
    ensures RowDict(header, row).Some? <==> ColumnsConvert(header, row, |header|)
    ensures RowDict(header, row).Some? ==>
      forall k :: k in RowDict(header, row).value <==> k in header
    ensures RowDict(header, row).Some? ==>
      forall i :: 0 <= i < |header| && LastWithName(header, i, |header|) ==>
        i < |row| && Convert(header[i], row[i]).Some? && header[i] in RowDict(header, row).value &&
        RowDict(header, row).value[header[i]] == Convert(header[i], row[i]).value
  {
    RowDictUpToSucceeds(header, row, |header|);
    if RowDict(header, row).Some? {
      assert header[..|header|] == header;
      RowDictUpToKeys(header, row, |header|);
      RowDictUpToValues(header, row, |header|);
      forall k ensures k in RowDict(header, row).value <==> k in header {
        assert k in header <==> k in header[..|header|];
      }
    }
  }

  /** A column with no `parse_<name>` method keeps its cell as it is. */
  lemma RowDictPassesUnknownNames(header: seq<string>, row: Row, i: nat)
    requires i < |header| && LastWithName(header, i, |header|)
    requires ConversionFor(header[i]) == Unchanged
    requires RowDict(header, row).Some?
    ensures i < |row| && header[i] in RowDict(header, row).value
    ensures RowDict(header, row).value[header[i]] == CellValue(row[i])
  {
    RowDictSpec(header, row);
  }

  // --------------------------------------------------- the default header

  /** A record of the default header, as the import task reads it. */
  predicate IsSaleRecord(r: Record)
  {
    "product" in r && r["product"].StrValue? &&
    "category" in r && r["category"].StrValue? &&
    "sold" in r && r["sold"].IntValue? &&
    "cost" in r && r["cost"].MoneyValue? &&
    "total" in r && r["total"].MoneyValue?
  }

  /** The sale record of a five-cell row: product and category as text, sold as int, cost and total as money. */
  function SaleRecord(row: Row): Record
    requires |row| == 5 && ParseSold(row[2]).Some? && ParseCurrency(row[3]).Some? && ParseCurrency(row[4]).Some?
  {
    map["product" := StrValue(Stringify(row[0])), "category" := StrValue(Stringify(row[1])),
        "sold" := IntValue(ParseSold(row[2]).value), "cost" := MoneyValue(ParseCurrency(row[3]).value),
        "total" := MoneyValue(ParseCurrency(row[4]).value)]
  }

  /** Under the default header a row converts exactly when sold, cost and total do, and gives its sale record. */
  lemma RowDictDefaultHeader(row: Row)
    requires |row| == 5
    ensures RowDict(DefaultHeader, row).Some? <==>
      ParseSold(row[2]).Some? && ParseCurrency(row[3]).Some? && ParseCurrency(row[4]).Some?
    ensures RowDict(DefaultHeader, row).Some? ==>
      RowDict(DefaultHeader, row).value == SaleRecord(row) && IsSaleRecord(SaleRecord(row))
  {
    var h := DefaultHeader;
    assert ConversionFor(h[0]) == ToStr && ConversionFor(h[1]) == ToStr;
    assert ConversionFor(h[2]) == ToInt;
    assert ConversionFor(h[3]) == ToMoney && ConversionFor(h[4]) == ToMoney;
    var d2 := map["product" := StrValue(Stringify(row[0])), "category" := StrValue(Stringify(row[1]))];
    assert RowDictUpTo(h, row, 2) == Some(d2);
    if ParseSold(row[2]).None? {
      RowDictFailureSticks(h, row, 3, 5);
    } else if ParseCurrency(row[3]).None? {
      RowDictFailureSticks(h, row, 4, 5);
    } else if ParseCurrency(row[4]).None? {
      assert RowDictUpTo(h, row, 5).None?;
    } else {
      var d3 := d2["sold" := IntValue(ParseSold(row[2]).value)];
      assert RowDictUpTo(h, row, 3) == Some(d3);
      var d4 := d3["cost" := MoneyValue(ParseCurrency(row[3]).value)];
      assert RowDictUpTo(h, row, 4) == Some(d4);
      assert RowDictUpTo(h, row, 5) == Some(d4["total" := MoneyValue(ParseCurrency(row[4]).value)]);
    }
  }

  /** Every record the default parser returns is a sale record. */
  lemma DefaultParseGivesSales(rows: seq<Row>)
    ensures forall k :: 0 <= k < |Parse(DefaultHeader, rows)| ==> IsSaleRecord(Parse(DefaultHeader, rows)[k])
  {
    if WellFormed(DefaultHeader, rows) {
      ParseSucceeds(DefaultHeader, rows);
      forall k | 0 <= k < |Parse(DefaultHeader, rows)|
        ensures IsSaleRecord(Parse(DefaultHeader, rows)[k])
      {
        RowDictDefaultHeader(rows[k + 1]);
      }
    } else {
      ParseFailsUnlessWellFormed(DefaultHeader, rows);
    }
  }

  // ------------------------------------------------------------ examples

  /** The sheet of the parser's tests: its header row and two sales. */
  const HeaderRow: Row := [Str("Product"), Str("Category"), Str("Sold"), Str("Cost"), Str("Total")]
  const LowRow: Row := [Str("Product Low"), Str("Category A"), Str("9"), Str("R$ 4,70"), Str("R$ 47,30")]
  const HighRow: Row := [Str("Product High"), Str("Category B"), Str("5"), Str("R$ 3,20"), Str("R$ 107,50")]
  const SampleRows: seq<Row> := [HeaderRow, LowRow, HighRow]

  lemma ParseSoldSamples()
    ensures ParseSold(Str("9")) == Some(9) && ParseSold(Str("5")) == Some(5)
  {
    ConversionLemmas.ParseSoldReadsRendering(9);
    ConversionLemmas.ParseSoldReadsRendering(5);
  }

  const SaleLow: Record := map["product" := StrValue("Product Low"), "category" := StrValue("Category A"),
    "sold" := IntValue(9), "cost" := MoneyValue(Brl(470)), "total" := MoneyValue(Brl(4730))]

  const SaleHigh: Record := map["product" := StrValue("Product High"), "category" := StrValue("Category B"),
    "sold" := IntValue(5), "cost" := MoneyValue(Brl(320)), "total" := MoneyValue(Brl(10750))]

  /** A five-cell row of two texts, a count and two amounts gives the sale record of those values. */
  lemma RowDictOfSale(row: Row, product: string, category: string, sold: int, cost: Money, total: Money)
    requires |row| == 5 && row[0] == Str(product) && row[1] == Str(category)
    requires ParseSold(row[2]) == Some(sold) && ParseCurrency(row[3]) == Some(cost) && ParseCurrency(row[4]) == Some(total)
    ensures RowDict(DefaultHeader, row) == Some(map["product" := StrValue(product), "category" := StrValue(category),
      "sold" := IntValue(sold), "cost" := MoneyValue(cost), "total" := MoneyValue(total)])
  {
    RowDictDefaultHeader(row);
  }

  lemma SampleRowLow()
    ensures RowDict(DefaultHeader, LowRow) == Some(SaleLow)
  {
    assert ParseSold(LowRow[2]) == Some(9) by { ParseSoldSamples(); }
    assert ParseCurrency(LowRow[3]) == Some(Brl(470)) && ParseCurrency(LowRow[4]) == Some(Brl(4730)) by {
      ConversionLemmas.ParseCurrencySampleAmounts();
    }
    RowDictOfSale(LowRow, "Product Low", "Category A", 9, Brl(470), Brl(4730));
  }

  lemma SampleRowHigh()
    ensures RowDict(DefaultHeader, HighRow) == Some(SaleHigh)
  {
    assert ParseSold(HighRow[2]) == Some(5) by { ParseSoldSamples(); }
    assert ParseCurrency(HighRow[3]) == Some(Brl(320)) && ParseCurrency(HighRow[4]) == Some(Brl(10750)) by {
      ConversionLemmas.ParseCurrencySampleAmounts();
    }
    RowDictOfSale(HighRow, "Product High", "Category B", 5, Brl(320), Brl(10750));
  }

  /** A header row and two data rows give the two rows' dicts. */
  lemma ParseThreeRows(header: seq<string>, r0: Row, r1: Row, r2: Row, d1: Record, d2: Record)
    requires |r0| == |header| && |r1| == |header| && |r2| == |header|
    requires RowDict(header, r1) == Some(d1) && RowDict(header, r2) == Some(d2)
    ensures Parse(header, [r0, r1, r2]) == [d1, d2]
  {
    var rows := [r0, r1, r2];
    assert rows[0] == r0 && rows[1] == r1 && rows[2] == r2;
    assert ParseUpTo(header, rows, 1) == Some([]);
    assert [] + [d1] == [d1];
    assert ParseUpTo(header, rows, 2) == Some([d1]);
    assert [d1] + [d2] == [d1, d2];
  }

  /** The sample sheet gives its two sales, with the amounts in centavos. */
  lemma ParseSampleSheet()
    ensures Parse(DefaultHeader, SampleRows) == [SaleLow, SaleHigh]
  {
    SampleRowLow();
    SampleRowHigh();
    ParseThreeRows(DefaultHeader, HeaderRow, LowRow, HighRow, SaleLow, SaleHigh);
  }

  /** A sheet whose only row has three cells parses to nothing. */
  lemma ParseShortSheet()
    ensures Parse(DefaultHeader, [[Str("Product High"), Str("Category B"), Str("5")]]) == []
  {
    ParseWidthMismatch(DefaultHeader, [[Str("Product High"), Str("Category B"), Str("5")]], 0);
  }
}
