/**
 * The sales sheet parser of importer/parser.py. The workbook is given as its
 * rows of cells (reading the file is not part of the model); the first row
 * is the sheet's own header and is skipped, every other row becomes a record
 * that maps each header name to its converted cell. Any row of the wrong
 * width, and any cell that fails its conversion, makes the whole result empty.
 */
module Parser {
  import opened Text
  import opened Conversions

  type Row = seq<Cell>

  /** The dict `get_row_dict` builds, from header names to converted cells. */
  type Record = map<string, Value>

  const DefaultHeader: seq<string> := ["product", "category", "sold", "cost", "total"]

  /** `header if header else [...]`: a missing or empty header gives the default one. */
  function HeaderOrDefault(header: Option<seq<string>>): (h: seq<string>)
    ensures header.Some? && header.value != [] ==> h == header.value
    ensures header.None? || header.value == [] ==> h == DefaultHeader
    ensures |h| > 0
  {
    if header.Some? && header.value != [] then header.value else DefaultHeader
  }

  // ------------------------------------------------------- specification

  /**
   * The dict after the first `n` header names: each name is bound to the
   * conversion of the cell in its column, a later equal name overwriting an
   * earlier one. None stands for the exception a missing cell or a failed
   * conversion raises.
   */
  function RowDictUpTo(header: seq<string>, row: Row, n: nat): Option<Record>
    requires n <= |header|
    decreases n
  {
    if n == 0 then Some(map[])
    else
      match RowDictUpTo(header, row, n - 1)
      case None => None
      case Some(d) =>
        if n - 1 >= |row| then None
        else
          match Convert(header[n - 1], row[n - 1])
          case None => None
          case Some(v) => Some(d[header[n - 1] := v])
  }

  function RowDict(header: seq<string>, row: Row): Option<Record>
  {
    RowDictUpTo(header, row, |header|)
  }

  /** The records of the first `n` rows, or None once `as_data` has given up and returns []. */
  function ParseUpTo(header: seq<string>, rows: seq<Row>, n: nat): Option<seq<Record>>
    requires n <= |rows|
    decreases n
  {
    if n == 0 then Some([])
    else
      match ParseUpTo(header, rows, n - 1)
      case None => None
      case Some(data) =>
        if |rows[n - 1]| != |header| then None
        else if n - 1 == 0 then Some(data)
        else
          match RowDict(header, rows[n - 1])
          case None => None
          case Some(d) => Some(data + [d])
  }

  /** What `as_data` returns for the sheet `rows`. */
  function Parse(header: seq<string>, rows: seq<Row>): seq<Record>
  {
    match ParseUpTo(header, rows, |rows|)
    case None => []
    case Some(data) => data
  }

  // --------------------------------------------------------------- parser

  class ParserSalesXlsx {
    const filePath: string
    const header: seq<string>
    const maxColumns: nat

    predicate Valid()
    {
      maxColumns == |header| && |header| > 0
    }

    constructor (filePath: string, header: Option<seq<string>>)
      ensures Valid()
      ensures this.filePath == filePath
      ensures this.header == HeaderOrDefault(header)
      ensures maxColumns == |this.header|
    {
      this.filePath := filePath;
      this.header := HeaderOrDefault(header);
      maxColumns := |HeaderOrDefault(header)|;
    }

    /** `get_row_dict`: convert every column named in the header. */
    method GetRowDict(row: Row) returns (d: Option<Record>)
      ensures d == RowDict(header, row)
    {
      var acc: Record := map[];
      var i := 0;
      while i < |header|
        invariant 0 <= i <= |header|
        invariant RowDictUpTo(header, row, i) == Some(acc)
      {
        if i >= |row| {
          RowDictFailureSticks(header, row, i + 1, |header|);
          return None;
        }
        var v := Convert(header[i], row[i]);
        if v.None? {
          RowDictFailureSticks(header, row, i + 1, |header|);
          return None;
        }
        acc := acc[header[i] := v.value];
        i := i + 1;
      }
      d := Some(acc);
    }

    /** `as_data`, with the sheet's rows given in place of the workbook file. */
    method AsData(rows: seq<Row>) returns (data: seq<Record>)
      requires Valid()
      ensures data == Parse(header, rows)
    {
      data := [];
      var i := 0;
      while i < |rows|
        invariant 0 <= i <= |rows|
        invariant ParseUpTo(header, rows, i) == Some(data)
      {
        if |rows[i]| != maxColumns {
          ParseFailureSticks(header, rows, i + 1, |rows|);
          return [];
        }
        if i == 0 {
          i := i + 1;
          continue;
        }
        var d := GetRowDict(rows[i]);
        if d.None? {
          ParseFailureSticks(header, rows, i + 1, |rows|);
          return [];
        }
        data := data + [d.value];
        i := i + 1;
      }
    }
  }

  // ------------------------------------------------------ failure is final

  lemma {:induction false} RowDictFailureSticks(header: seq<string>, row: Row, n: nat, m: nat)
    requires n <= m <= |header|
    requires RowDictUpTo(header, row, n).None?
    ensures RowDictUpTo(header, row, m).None?
    decreases m - n
  {
    if n < m {
      RowDictFailureSticks(header, row, n, m - 1);
      assert RowDictUpTo(header, row, m - 1).None?;
    }
  }

  lemma {:induction false} ParseFailureSticks(header: seq<string>, rows: seq<Row>, n: nat, m: nat)
    requires n <= m <= |rows|
    requires ParseUpTo(header, rows, n).None?
    ensures ParseUpTo(header, rows, m).None?
    decreases m - n
  {
    if n < m {
      ParseFailureSticks(header, rows, n, m - 1);
      assert ParseUpTo(header, rows, m - 1).None?;
    }
  }
}
