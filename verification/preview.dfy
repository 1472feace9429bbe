/** Table previews of chat artifacts: spreadsheet column names, and the table a
    preview shows of the rows that were read. */
module ArtifactPreview {
  import opened Options

  const MAX_ROWS := 50
  const MAX_COLUMNS := 50

  predicate IsUpper(c: char) {
    'A' <= c <= 'Z'
  }

  predicate IsLetter(c: char) {
    IsUpper(c) || 'a' <= c <= 'z'
  }

  function ToUpper(c: char): char {
    if 'a' <= c <= 'z' then c - 'a' + 'A' else c
  }

  predicate AllUpper(s: string) {
    forall i :: 0 <= i < |s| ==> IsUpper(s[i])
  }

  /** Column names count A to Z as digits 1 to 26, so there is no zero digit. */
  function Digit(c: char): nat
    requires IsUpper(c)
  {
    (c - 'A') as int + 1
  }

  function Value(s: string): (n: nat)
    requires AllUpper(s)
    ensures n == 0 <==> s == ""
  {
    if s == "" then 0 else Value(s[..|s| - 1]) * 26 + Digit(s[|s| - 1])
  }

  /** The name whose value is `n`. */
  function Name(n: nat): (s: string)
    ensures AllUpper(s)
  {
    if n == 0 then "" else Name((n - 1) / 26) + ['A' + ((n - 1) % 26) as char]
  }

  lemma {:induction false} ValueOfName(n: nat)
    ensures Value(Name(n)) == n
  {
    if n > 0 {
      ValueOfName((n - 1) / 26);
      var s := Name(n);
      assert s[..|s| - 1] == Name((n - 1) / 26);
    }
  }

  lemma {:induction false} NameOfValue(s: string)
    requires AllUpper(s)
    ensures Name(Value(s)) == s
  {
    if s != "" {
      var init, d := s[..|s| - 1], Digit(s[|s| - 1]);
      NameOfValue(init);
      assert (Value(s) - 1) / 26 == Value(init) && (Value(s) - 1) % 26 == d - 1;
      assert s == init + [s[|s| - 1]];
    }
  }

  /** The names at the ends of the first lengths. */
  lemma FirstNames()
    ensures Name(1) == "A" && Name(26) == "Z" && Name(27) == "AA" && Name(702) == "ZZ" && Name(703) == "AAA"
  {
    assert Name(1) == Name(0) + "A" && Name(26) == Name(0) + "Z";
    assert Name(27) == Name(1) + "A" && Name(702) == Name(26) + "Z" && Name(703) == Name(27) + "A";
  }

  /** Every column number has exactly one name, and every name one number. */
  lemma NamesAreUnique(s: string, t: string)
    requires AllUpper(s) && AllUpper(t)
    ensures Value(s) == Value(t) <==> s == t
  {
    NameOfValue(s);
    NameOfValue(t);
  }

  function Pow26(k: nat): nat {
    if k == 0 then 1 else 26 * Pow26(k - 1)
  }

  /** Names of k letters stay below 26/25 of 26 to the power of k, so thirteen
      letters fit in 63 bits. */
  lemma {:induction false} ValueIsBounded(s: string)
    requires AllUpper(s)
    ensures 25 * Value(s) <= 26 * (Pow26(|s|) - 1)
  {
    if s != "" {
      ValueIsBounded(s[..|s| - 1]);
    }
  }

  lemma NameStep(n: nat, rest: string)
    ensures Name(n + 1) + rest == Name(n / 26) + (['A' + (n % 26) as char] + rest)
  {
    assert Name(n + 1) == Name(n / 26) + ['A' + (n % 26) as char];
  }

  method ColumnName(index: nat) returns (name: string)
    ensures AllUpper(name) && name != "" && Value(name) == index + 1
  {
    var n: nat := index + 1;
    name := "";
    while n > 0
      invariant AllUpper(name) && Name(n) + name == Name(index + 1)
    {
      n := n - 1;
      var letter := 'A' + (n % 26) as char;
      NameStep(n, name);
      name := [letter] + name;
      n := n / 26;
    }
    assert "" + name == name;
    ValueOfName(index + 1);
  }

  /** The letters a reference begins with, in upper case. */
  function Letters(reference: string): (s: string)
    ensures AllUpper(s)
  {
    if reference != "" && IsLetter(reference[0]) then [ToUpper(reference[0])] + Letters(reference[1..]) else ""
  }

  lemma {:induction false} LettersOf(s: string, rest: string)
    requires AllUpper(s) && (rest == "" || !IsLetter(rest[0]))
    ensures Letters(s + rest) == s
  {
    if s == "" {
      assert s + rest == rest;
    } else {
      LettersOf(s[1..], rest);
      assert (s + rest)[1..] == s[1..] + rest;
    }
  }

  lemma {:induction false} LettersSplit(reference: string, k: nat)
    requires k <= |reference| && forall i :: 0 <= i < k ==> IsLetter(reference[i])
    requires k == |reference| || !IsLetter(reference[k])
    ensures |Letters(reference)| == k
    ensures forall i :: 0 <= i < k ==> Letters(reference)[i] == ToUpper(reference[i])
  {
    if k > 0 {
      LettersSplit(reference[1..], k - 1);
    }
  }

  /** The leading letters count in either case. */
  lemma LettersExactly(s: string, rest: string)
    requires forall i :: 0 <= i < |s| ==> 'A' <= s[i] <= 'Z' || 'a' <= s[i] <= 'z'
    requires rest == "" || !('A' <= rest[0] <= 'Z' || 'a' <= rest[0] <= 'z')
    ensures |Letters(s + rest)| == |s|
    ensures forall i :: 0 <= i < |s| ==>
      Letters(s + rest)[i] == if 'a' <= s[i] <= 'z' then (s[i] as int - 32) as char else s[i]
  {
    LettersSplit(s + rest, |s|);
  }

  /** Reads the column of a cell reference such as "AB12", in either case. */
  method CellColumn(reference: string) returns (column: int, ok: bool)
    ensures ok <==> Letters(reference) != ""
    ensures column == if ok then Value(Letters(reference)) - 1 else 0
  {
    column := 0;
    var letters := 0;
    ghost var read := "";
    while letters < |reference|
      invariant 0 <= letters <= |reference| && |read| == letters && AllUpper(read)
      invariant forall i :: 0 <= i < letters ==> IsLetter(reference[i]) && read[i] == ToUpper(reference[i])
      invariant column == Value(read)
    {
      var c := ToUpper(reference[letters]);
      if !IsUpper(c) {
        break;
      }
      column := column * 26 + (c - 'A') as int + 1;
      assert (read + [c])[..|read|] == read;
      read := read + [c];
      letters := letters + 1;
    }
    LettersSplit(reference, letters);
    assert Letters(reference) == read;
    if letters == 0 {
      return 0, false;
    }
    return column - 1, true;
  }

  /** What `CellColumn` answers. */
  function Column(reference: string): int {
    if Letters(reference) == "" then 0 else Value(Letters(reference)) - 1
  }

  /** Reading back the name of a column, with any row number after it, gives the
      column; and naming the column that a name stands for gives the name. */
  lemma NameRoundTrip(n: nat, rest: string)
    requires rest == "" || !IsLetter(rest[0])
    ensures Letters(Name(n + 1) + rest) != "" && Column(Name(n + 1) + rest) == n
  {
    LettersOf(Name(n + 1), rest);
    ValueOfName(n + 1);
  }

  lemma ReferenceRoundTrip(s: string, rest: string)
    requires AllUpper(s) && s != "" && (rest == "" || !IsLetter(rest[0]))
    ensures Column(s + rest) >= 0 && Name(Column(s + rest) + 1) == s
  {
    LettersOf(s, rest);
    var column := Value(s) - 1;
    assert Column(s + rest) == column;
    NameOfValue(s);
  }

  type Row = seq<string>

  /** A table as it is shown. */
  datatype Preview = Preview(
    columns: seq<string>, rows: seq<Row>, rowNumbers: seq<int>, totalRows: int, exact: bool, truncatedRows: bool)

  function Max(a: nat, b: nat): nat {
    if a < b then b else a
  }

  function Min(a: nat, b: nat): nat {
    if a < b then a else b
  }

  function Widest(rows: seq<Row>): nat {
    if rows == [] then 0 else Max(Widest(rows[..|rows| - 1]), |rows[|rows| - 1]|)
  }

  /** The number of columns shown: the widest row read, and one at least. */
  function Width(rows: seq<Row>): nat {
    Max(Widest(rows), 1)
  }

  lemma {:induction false} WidestIsMost(rows: seq<Row>)
    ensures forall i :: 0 <= i < |rows| ==> |rows[i]| <= Widest(rows)
    ensures Widest(rows) == 0 || exists i :: 0 <= i < |rows| && |rows[i]| == Widest(rows)
  {
    if rows != [] {
      var k := |rows| - 1;
      WidestIsMost(rows[..k]);
      assert forall i :: 0 <= i < k ==> rows[..k][i] == rows[i];
    }
  }

  function Padded(row: Row, width: nat): Row
    requires |row| <= width
  {
    row + seq(width - |row|, _ => "")
  }

  /** Rows of which `count`, from `first` on, have been brought to one width. */
  function PaddedRange(rows: seq<Row>, first: nat, count: nat, width: nat): seq<Row>
    requires first + count <= |rows| && forall i :: 0 <= i < |rows| ==> |rows[i]| <= width
  {
    seq(|rows|, i requires 0 <= i < |rows| => if first <= i < first + count then Padded(rows[i], width) else rows[i])
  }

  /** `shown` are the rows read from `skipped` on, fifty at most, each with its own
      number and filled up with empty cells to the width. */
  predicate ShowsRows(read: seq<Row>, rowNumbers: seq<int>, skipped: nat, shown: seq<Row>, numbers: seq<int>,
          width: nat)
    requires |read| == |rowNumbers| && skipped <= |read|
  {
    && |shown| == |numbers| == Min(|read| - skipped, 50)
    && forall i :: 0 <= i < |shown| ==>
         numbers[i] == rowNumbers[skipped + i] && FilledUp(read[skipped + i], shown[i], width)
  }

  predicate FilledUp(row: Row, shown: Row, width: nat) {
    |shown| == width && row <= shown && forall c :: |row| <= c < width ==> shown[c] == ""
  }

  /** Every column is called by its number, counted from one. */
  predicate NumberedBy(columns: seq<string>) {
    forall i :: 0 <= i < |columns| ==> AllUpper(columns[i]) && Value(columns[i]) == i + 1
  }

  method WidthOf(rows: array<Row>) returns (width: nat)
    ensures width == Width(rows[..])
    ensures width >= 1 && forall i :: 0 <= i < rows.Length ==> |rows[i]| <= width
    ensures width == 1 || exists i :: 0 <= i < rows.Length && |rows[i]| == width
  {
    width := 0;
    for i := 0 to rows.Length
      invariant width == Widest(rows[..i])
    {
      assert rows[..i + 1][..i] == rows[..i];
      if |rows[i]| > width {
        width := |rows[i]|;
      }
    }
    assert rows[..rows.Length] == rows[..];
    WidestIsMost(rows[..]);
    assert forall i :: 0 <= i < rows.Length ==> rows[..][i] == rows[i];
    if width == 0 {
      width := 1;
    }
  }

  function Headings(width: nat): seq<string> {
    seq(width, i requires 0 <= i => Name(i + 1))
  }

  lemma NumberedColumns(width: nat)
    ensures NumberedBy(Headings(width))
  {
    forall i | 0 <= i < width ensures Value(Headings(width)[i]) == i + 1 {
      ValueOfName(i + 1);
    }
  }

  method ColumnNames(width: nat) returns (columns: seq<string>)
    ensures columns == Headings(width)
  {
    columns := [];
    for i := 0 to width
      invariant |columns| == i && forall j :: 0 <= j < i ==> columns[j] == Name(j + 1)
    {
      var name := ColumnName(i);
      NameOfValue(name);
      columns := columns + [name];
    }
  }

  method Pad(rows: array<Row>, first: nat, count: nat, width: nat)
    requires first + count <= rows.Length
    requires forall i :: 0 <= i < rows.Length ==> |rows[i]| <= width
    modifies rows
    ensures rows[..] == PaddedRange(old(rows[..]), first, count, width)
  {
    for i := first to first + count
      invariant forall j :: 0 <= j < rows.Length ==>
        rows[j] == if first <= j < i then Padded(old(rows[j]), width) else old(rows[j])
    {
      if |rows[i]| < width {
        rows[i] := rows[i] + seq(width - |rows[i]|, _ => "");
      } else {
        assert rows[i] + [] == rows[i];
      }
    }
  }

  /** How many of the rows read are shown, without the one the headings come from. */
  function Shown(read: nat, header: bool): nat
    requires header ==> read > 0
  {
    Min(if header then read - 1 else read, MAX_ROWS)
  }

  function First(header: bool): nat {
    if header then 1 else 0
  }

  function Counted(totalRows: int, header: bool): int {
    if header && totalRows > 0 then totalRows - 1 else totalRows
  }

  /** What the truncation flag means to a reader: there are rows that are not shown. */
  predicate RowsMissing(read: nat, totalRows: int, exact: bool, header: bool)
    requires header ==> read > 0
  {
    !exact || Counted(totalRows, header) > Shown(read, header)
  }

  predicate TruncationFlag(read: nat, totalRows: int, exact: bool, header: bool)
    requires header ==> read > 0
  {
    read > MAX_ROWS || RowsMissing(read, totalRows, exact, header)
  }

  /** What `FinalizeTable` cuts out of the padded rows are the rows it is to show. */
  lemma ShownRowsAreRead(rows: seq<Row>, rowNumbers: seq<int>, header: bool, width: nat)
    requires |rows| == |rowNumbers| && (header ==> |rows| > 0)
    requires forall j :: 0 <= j < |rows| ==> |rows[j]| <= width
    ensures
      var first, count := First(header), Shown(|rows|, header);
      ShowsRows(rows, rowNumbers, if header then 1 else 0,
        PaddedRange(rows, first, count, width)[first..first + count], rowNumbers[first..first + count], width)
  {
  }

  /** The table shown of the rows read. `heading` is what the header detection makes
      of the first row: the column names it takes from it, or none. The rows are
      padded where they lie. */
  method FinalizeTable(rows: array<Row>, rowNumbers: seq<int>, totalRows: int, exact: bool,
          heading: Option<seq<string>>) returns (p: Preview)
    requires rows.Length == |rowNumbers|
    requires heading.Some? ==> rows.Length >= 2 && |heading.value| == Width(rows[..])
    modifies rows
    ensures p.columns == if heading.Some? then heading.value else Headings(Width(old(rows[..])))
    ensures
      var header := heading.Some?;
      var first, count := First(header), Shown(rows.Length, header);
      && (forall i :: 0 <= i < rows.Length ==> |old(rows[..])[i]| <= |p.columns|)
      && rows[..] == PaddedRange(old(rows[..]), first, count, |p.columns|)
      && p.rows == rows[first..first + count] && p.rowNumbers == rowNumbers[first..first + count]
      && p.totalRows == Counted(totalRows, header) && p.exact == exact
      && (p.truncatedRows <==> TruncationFlag(rows.Length, totalRows, exact, header))
    // Without a heading the columns are named by their numbers.
    ensures heading.None? ==> NumberedBy(p.columns)
    // The rows shown are those read, behind the one the heading is taken from, padded.
    ensures ShowsRows(old(rows[..]), rowNumbers, if heading.Some? then 1 else 0, p.rows, p.rowNumbers, |p.columns|)
  {
    ghost var was := rows[..];
    var truncated := rows.Length > MAX_ROWS;
    var width := WidthOf(rows);
    WidestIsMost(was);
    var first, total := 0, totalRows;
    var columns;
    if heading.Some? {
      columns := heading.value;
      first := 1;
      if total > 0 {
        total := total - 1;
      }
    } else {
      columns := ColumnNames(width);
    }
    var count := rows.Length - first;
    if count > MAX_ROWS {
      count, truncated := MAX_ROWS, true;
    }
    assert forall i :: 0 <= i < rows.Length ==> |rows[i]| <= width by {
      assert forall i :: 0 <= i < rows.Length ==> was[i] == rows[i];
    }
    Pad(rows, first, count, width);
    ShownRowsAreRead(was, rowNumbers, heading.Some?, width);
    NumberedColumns(width);
    p := Preview(columns, rows[first..first + count], rowNumbers[first..first + count], total, exact,
                 truncated || !exact || total > count);
  }

  /** Of a source's records the first MAX_ROWS + 2 are read, and of each the first
      MAX_COLUMNS cells. */
  const READ_LIMIT := MAX_ROWS + 2

  function Cut(row: Row): Row {
    row[..Min(|row|, MAX_COLUMNS)]
  }

  /** The reading loop: what the table is made of, and how much was left out. */
  method Collect(records: seq<Row>)
    returns (rows: seq<Row>, rowNumbers: seq<int>, totalRows: nat, truncatedColumns: bool)
    ensures totalRows == |records| && |rows| == |rowNumbers| == Min(|records|, READ_LIMIT)
    ensures forall i :: 0 <= i < |rows| ==> rows[i] == Cut(records[i]) && rowNumbers[i] == i + 1
    ensures |rows| == Min(|records|, 52) && forall i :: 0 <= i < |rows| ==>
      rows[i] <= records[i] && |rows[i]| == Min(|records[i]|, 50)
    ensures truncatedColumns <==> exists i :: 0 <= i < |rows| && |records[i]| > MAX_COLUMNS
    ensures Width(rows) <= MAX_COLUMNS
  {
    rows, rowNumbers, totalRows, truncatedColumns := [], [], 0, false;
    while totalRows < |records|
      invariant 0 <= totalRows <= |records| && |rows| == |rowNumbers| == Min(totalRows, READ_LIMIT)
      invariant forall i :: 0 <= i < |rows| ==> rows[i] == Cut(records[i]) && rowNumbers[i] == i + 1
      invariant truncatedColumns <==> exists i :: 0 <= i < |rows| && |records[i]| > MAX_COLUMNS
    {
      var record := records[totalRows];
      totalRows := totalRows + 1;
      if |rows| < READ_LIMIT {
        rows := rows + [Cut(record)];
        rowNumbers := rowNumbers + [totalRows];
        truncatedColumns := truncatedColumns || |record| > MAX_COLUMNS;
      }
    }
    WidestIsMost(rows);
  }

  /** Of a source of `total` records the flag tells the truth except in one case: a
      heading followed by exactly fifty rows, all of them shown, is reported as
      truncated. */
  lemma FlagIsTruthfulExactly(total: nat, exact: bool, header: bool)
    requires header ==> total >= 2
    ensures
      var read := Min(total, READ_LIMIT);
      (TruncationFlag(read, total, exact, header) <==> RowsMissing(read, total, exact, header))
      <==> !(header && exact && total == MAX_ROWS + 1)
  {
  }

  lemma FullTableIsReportedTruncated()
    ensures TruncationFlag(51, 51, true, true) && !RowsMissing(51, 51, true, true) && Shown(51, true) == 50
  {
  }
}
