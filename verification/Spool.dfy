/** The spool's CSV: what it writes, what a reader of RFC 4180 section 2 gets back, and what the loader's reader
    does. */
module Spool {
  import opened Rows

  /** A value of a row. `Rendered` is a date, timestamp or decimal in its fixed textual form. */
  datatype Value = Null | Text(text: string) | Number(n: int) | Flag(b: bool) | Rendered(form: string)

  predicate Special(c: char) {
    c == '"' || c == ',' || c == '\n' || c == '\r'
  }

  predicate NeedsQuoting(s: string) {
    exists i :: 0 <= i < |s| && Special(s[i])
  }

  /** A rendered form is never empty and never needs quoting. */
  predicate WellFormed(v: Value) {
    v.Rendered? ==> v.form != "" && !NeedsQuoting(v.form)
  }

  function Digits(n: nat): (s: string)
    ensures s != "" && forall i :: 0 <= i < |s| ==> '0' <= s[i] <= '9'
  {
    if n < 10 then [('0' as int + n) as char] else Digits(n / 10) + [('0' as int + n % 10) as char]
  }

  function IntText(n: int): (s: string)
    ensures s != "" && !NeedsQuoting(s)
  {
    if n < 0 then "-" + Digits(-n) else Digits(n)
  }

  function NumberOf(s: string): int {
    if s == "" then 0 else 10 * NumberOf(s[..|s| - 1]) + (s[|s| - 1] as int - '0' as int)
  }

  lemma {:induction false} DigitsDetermineNumber(n: nat)
    ensures NumberOf(Digits(n)) == n
  {
    if n >= 10 {
      DigitsDetermineNumber(n / 10);
      var s := Digits(n);
      assert s[..|s| - 1] == Digits(n / 10);
    } else {
      assert Digits(n)[..0] == "";
    }
  }

  function Doubled(s: string): string {
    if s == "" then "" else (if s[0] == '"' then "\"\"" else [s[0]]) + Doubled(s[1..])
  }

  /** One field: null is empty, an empty string is a pair of quotes, and a special character forces quotes. */
  function FormatValue(v: Value): string {
    match v
    case Null => ""
    case Text(s) => if NeedsQuoting(s) then "\"" + Doubled(s) + "\"" else if s == "" then "\"\"" else s
    case Number(n) => IntText(n)
    case Flag(b) => if b then "t" else "f"
    case Rendered(s) => s
  }

  /** What a value is once it is text: nothing for null. */
  function Cell(v: Value): Option<string> {
    match v
    case Null => None
    case Text(s) => Some(s)
    case Number(n) => Some(IntText(n))
    case Flag(b) => Some(if b then "t" else "f")
    case Rendered(s) => Some(s)
  }

  function Joined(values: seq<Value>): string {
    if values == [] then ""
    else if |values| == 1 then FormatValue(values[0])
    else FormatValue(values[0]) + "," + Joined(values[1..])
  }

  function FormatRow(values: seq<Value>): string {
    Joined(values) + "\n"
  }

  function FormatRows(rows: seq<seq<Value>>): string {
    if rows == [] then "" else FormatRow(rows[0]) + FormatRows(rows[1..])
  }

  function Cells(values: seq<Value>): seq<Option<string>> {
    seq(|values|, i requires 0 <= i < |values| => Cell(values[i]))
  }

  function AllCells(rows: seq<seq<Value>>): seq<seq<Option<string>>> {
    seq(|rows|, i requires 0 <= i < |rows| => Cells(rows[i]))
  }

  // ---------------------------------------------------------------- the reader

  /** The text after an opening quote, and what follows the closing one. */
  function ReadQuoted(s: string): (r: (string, string))
    ensures |r.1| <= |s|
  {
    if s == "" then ("", "")
    else if s[0] != '"' then var r := ReadQuoted(s[1..]); ([s[0]] + r.0, r.1)
    else if |s| > 1 && s[1] == '"' then var r := ReadQuoted(s[2..]); ("\"" + r.0, r.1)
    else ("", s[1..])
  }

  function ReadPlain(s: string): (r: (string, string))
    ensures |r.1| <= |s| && (r.0 != "" ==> |r.1| < |s|)
  {
    if s == "" || s[0] == ',' || s[0] == '\n' || s[0] == '\r' then ("", s)
    else var r := ReadPlain(s[1..]); ([s[0]] + r.0, r.1)
  }

  function ReadField(s: string): (r: (Option<string>, string))
    ensures |r.1| <= |s|
  {
    if s != "" && s[0] == '"' then var q := ReadQuoted(s[1..]); (Some(q.0), q.1)
    else var p := ReadPlain(s); (if p.0 == "" then None else Some(p.0), p.1)
  }

  /** One record and the rest of the file, or nothing when the record is malformed. */
  function ReadRow(s: string): (r: Option<(seq<Option<string>>, string)>)
    ensures r.Some? ==> |r.value.1| <= |s| && (s != "" ==> |r.value.1| < |s|)
    decreases |s|
  {
    var (cell, rest) := ReadField(s);
    if rest == "" then Some(([cell], ""))
    else if rest[0] == ',' then
      var more := ReadRow(rest[1..]);
      if more.None? then None else Some(([cell] + more.value.0, more.value.1))
    else if rest[0] == '\n' then Some(([cell], rest[1..]))
    else if rest[0] == '\r' && |rest| > 1 && rest[1] == '\n' then Some(([cell], rest[2..]))
    else None
  }

  function ReadFile(s: string): Option<seq<seq<Option<string>>>>
    decreases |s|
  {
    if s == "" then Some([])
    else
      var row := ReadRow(s);
      if row.None? then None
      else
        var more := ReadFile(row.value.1);
        if more.None? then None else Some([row.value.0] + more.value)
  }

  // ---------------------------------------------------------------- round trip

  predicate Separator(tail: string) {
    tail != "" && (tail[0] == ',' || tail[0] == '\n')
  }

  lemma {:induction false} QuotedStep(c: char, s: string, rest: string)
    ensures ReadQuoted((if c == '"' then [c, c] else [c]) + rest) == ([c] + ReadQuoted(rest).0, ReadQuoted(rest).1)
  {
    if c == '"' {
      assert ([c, c] + rest)[2..] == rest;
    } else {
      assert ([c] + rest)[1..] == rest;
    }
  }

  lemma {:induction false} QuotedRoundTrip(s: string, tail: string)
    requires tail != "" && tail[0] == '"' && (|tail| > 1 ==> tail[1] != '"')
    ensures ReadQuoted(Doubled(s) + tail) == (s, tail[1..])
  {
    if s == "" {
      assert Doubled(s) + tail == tail;
    } else {
      QuotedRoundTrip(s[1..], tail);
      QuotedStep(s[0], s, Doubled(s[1..]) + tail);
      var head := if s[0] == '"' then [s[0], s[0]] else [s[0]];
      assert Doubled(s) + tail == head + (Doubled(s[1..]) + tail);
      assert s == [s[0]] + s[1..];
    }
  }

  lemma {:induction false} RestNeedsNoQuoting(s: string)
    requires !NeedsQuoting(s) && s != ""
    ensures !Special(s[0]) && !NeedsQuoting(s[1..])
  {
    assert forall i :: 0 <= i < |s[1..]| ==> s[1..][i] == s[i + 1];
  }

  lemma {:induction false} PlainRoundTrip(s: string, tail: string)
    requires !NeedsQuoting(s) && Separator(tail)
    ensures ReadPlain(s + tail) == (s, tail)
  {
    if s == "" {
      assert s + tail == tail;
    } else {
      RestNeedsNoQuoting(s);
      PlainRoundTrip(s[1..], tail);
      assert (s + tail)[1..] == s[1..] + tail;
      assert s == [s[0]] + s[1..];
    }
  }

  lemma {:induction false} QuotedField(text: string, tail: string)
    requires Separator(tail)
    ensures ReadField("\"" + Doubled(text) + "\"" + tail) == (Some(text), tail)
  {
    var closing := "\"" + tail;
    QuotedRoundTrip(text, closing);
    assert closing[1..] == tail;
    var s := "\"" + Doubled(text) + "\"" + tail;
    assert s[1..] == Doubled(text) + closing;
  }

  lemma {:induction false} PlainField(s: string, tail: string)
    requires !NeedsQuoting(s) && Separator(tail)
    ensures ReadField(s + tail) == (if s == "" then None else Some(s), tail)
  {
    PlainRoundTrip(s, tail);
    if s != "" {
      RestNeedsNoQuoting(s);
    }
  }

  /** A field reads back as the value written, null and the empty string apart. */
  lemma {:induction false} FieldRoundTrip(v: Value, tail: string)
    requires WellFormed(v) && Separator(tail)
    ensures ReadField(FormatValue(v) + tail) == (Cell(v), tail)
  {
    if v.Text? && (NeedsQuoting(v.text) || v.text == "") {
      QuotedField(v.text, tail);
      assert Doubled("") == "";
      assert FormatValue(v) == "\"" + Doubled(v.text) + "\"";
    } else {
      PlainField(FormatValue(v), tail);
    }
  }

  lemma {:induction false} LastField(s: string, cell: Option<string>, rest: string)
    requires rest != "" && rest[0] == '\n' && ReadField(s) == (cell, rest)
    ensures ReadRow(s) == Some(([cell], rest[1..]))
  {
  }

  lemma {:induction false} NextField(
    s: string, cell: Option<string>, rest: string, cells: seq<Option<string>>, tail: string)
    requires rest != "" && rest[0] == ',' && ReadField(s) == (cell, rest) && ReadRow(rest[1..]) == Some((cells, tail))
    ensures ReadRow(s) == Some(([cell] + cells, tail))
  {
  }

  lemma {:induction false} RowSplits(values: seq<Value>, tail: string)
    requires values != []
    ensures |values| == 1 ==> FormatRow(values) + tail == FormatValue(values[0]) + (['\n'] + tail)
    ensures |values| > 1 ==>
              FormatRow(values) + tail == FormatValue(values[0]) + ([','] + (FormatRow(values[1..]) + tail))
  {
  }

  /** A field in front of a row that reads back reads back with it. */
  lemma {:induction false} FieldThenRow(v: Value, more: string, cells: seq<Option<string>>, tail: string)
    requires WellFormed(v) && ReadRow(more) == Some((cells, tail))
    ensures ReadRow(FormatValue(v) + ([','] + more)) == Some(([Cell(v)] + cells, tail))
  {
    var rest := [','] + more;
    FieldRoundTrip(v, rest);
    assert rest[1..] == more;
    NextField(FormatValue(v) + rest, Cell(v), rest, cells, tail);
  }

  lemma {:induction false} FieldEndsRow(v: Value, tail: string)
    requires WellFormed(v)
    ensures ReadRow(FormatValue(v) + (['\n'] + tail)) == Some(([Cell(v)], tail))
  {
    var rest := ['\n'] + tail;
    FieldRoundTrip(v, rest);
    assert rest[1..] == tail;
    LastField(FormatValue(v) + rest, Cell(v), rest);
  }

  lemma {:induction false} CellsSplit(values: seq<Value>)
    requires values != []
    ensures Cells(values) == [Cell(values[0])] + Cells(values[1..])
    ensures |values| == 1 ==> Cells(values) == [Cell(values[0])]
  {
  }

  /** One row reads back exactly, whatever follows it. */
  lemma {:induction false} RowRoundTrip(values: seq<Value>, tail: string)
    requires values != [] && forall i :: 0 <= i < |values| ==> WellFormed(values[i])
    ensures ReadRow(FormatRow(values) + tail) == Some((Cells(values), tail))
    decreases |values|
  {
    RowSplits(values, tail);
    CellsSplit(values);
    if |values| == 1 {
      FieldEndsRow(values[0], tail);
    } else {
      RowRoundTrip(values[1..], tail);
      FieldThenRow(values[0], FormatRow(values[1..]) + tail, Cells(values[1..]), tail);
    }
  }

  /** Reading back any spooled file yields exactly the rows written. */
  lemma {:induction false} FileRoundTrip(rows: seq<seq<Value>>)
    requires forall r :: 0 <= r < |rows| ==> rows[r] != []
    requires forall r, i :: 0 <= r < |rows| && 0 <= i < |rows[r]| ==> WellFormed(rows[r][i])
    ensures ReadFile(FormatRows(rows)) == Some(AllCells(rows))
  {
    if rows != [] {
      RowRoundTrip(rows[0], FormatRows(rows[1..]));
      FileRoundTrip(rows[1..]);
      AllCellsSplit(rows);
    } else {
      assert AllCells(rows) == [];
    }
  }

  lemma {:induction false} AllCellsSplit(rows: seq<seq<Value>>)
    requires rows != []
    ensures AllCells(rows) == [Cells(rows[0])] + AllCells(rows[1..])
  {
    forall r | 0 <= r < |rows|
      ensures AllCells(rows)[r] == ([Cells(rows[0])] + AllCells(rows[1..]))[r]
    {
      if r > 0 {
        assert rows[1..][r - 1] == rows[r];
      }
    }
  }

  // ---------------------------------------------------------------- what a column makes of a cell

  /** The whole number a text of digits stands for, a minus in front of it making it negative. */
  function IntOf(s: string): int {
    if s != "" && s[0] == '-' then -NumberOf(s[1..]) else NumberOf(s)
  }

  lemma {:induction false} TextDeterminesNumber(n: int)
    ensures IntOf(IntText(n)) == n
  {
    if n < 0 {
      DigitsDetermineNumber(-n);
      assert IntText(n)[1..] == Digits(-n);
    } else {
      DigitsDetermineNumber(n);
    }
  }

  /** The type of a column, as the database reads its cells. */
  datatype Kind = OfText | OfNumbers | OfFlags | OfForms

  /** The value a column of the type takes from a cell: nothing is null, and a flag is t or f. */
  function Taken(kind: Kind, cell: Option<string>): Option<Value> {
    if cell.None? then Some(Null)
    else
      match kind
      case OfText => Some(Text(cell.value))
      case OfNumbers => Some(Number(IntOf(cell.value)))
      case OfFlags =>
        if cell.value == "t" then Some(Flag(true)) else if cell.value == "f" then Some(Flag(false)) else None
      case OfForms => Some(Rendered(cell.value))
  }

  predicate Holds(kind: Kind, v: Value) {
    v.Null? || (v.Text? && kind == OfText) || (v.Number? && kind == OfNumbers) || (v.Flag? && kind == OfFlags)
    || (v.Rendered? && kind == OfForms)
  }

  /** A column takes back the value that was written. */
  lemma {:induction false} ValueIsTakenBack(kind: Kind, v: Value)
    requires Holds(kind, v)
    ensures Taken(kind, Cell(v)) == Some(v)
  {
    if v.Number? {
      TextDeterminesNumber(v.n);
    }
  }

  /** Every row of a table holds a value of its column's type, or null. */
  ghost predicate Fills(kinds: seq<Kind>, rows: seq<seq<Value>>) {
    forall r :: 0 <= r < |rows| ==>
      |rows[r]| == |kinds|
      && forall i :: 0 <= i < |kinds| ==> Holds(kinds[i], rows[r][i]) && WellFormed(rows[r][i])
  }

  /** A table read back from its spooled file, column by column, is the table that was written: every number, flag and
      text, and every null. */
  lemma {:induction false} TableRoundTrip(kinds: seq<Kind>, rows: seq<seq<Value>>)
    requires kinds != [] && Fills(kinds, rows)
    ensures ReadFile(FormatRows(rows)).Some? && |ReadFile(FormatRows(rows)).value| == |rows|
    ensures forall r :: 0 <= r < |rows| ==> |ReadFile(FormatRows(rows)).value[r]| == |kinds|
    ensures forall r, i :: 0 <= r < |rows| && 0 <= i < |kinds| ==>
              Taken(kinds[i], ReadFile(FormatRows(rows)).value[r][i]) == Some(rows[r][i])
  {
    FileRoundTrip(rows);
    forall r, i | 0 <= r < |rows| && 0 <= i < |kinds|
      ensures Taken(kinds[i], AllCells(rows)[r][i]) == Some(rows[r][i])
    {
      ValueIsTakenBack(kinds[i], rows[r][i]);
    }
  }

  /** A true flag is written t and a false one f. */
  lemma {:induction false} FlagReadsBack(b: bool, tail: string)
    requires Separator(tail)
    ensures ReadField(FormatValue(Flag(b)) + tail) == (Some(if b then "t" else "f"), tail)
  {
    FieldRoundTrip(Flag(b), tail);
  }

  // ---------------------------------------------------------------- the loader's reader

  /** Opening a file for reading as text turns every CR, alone or before LF, into LF. */
  function Translated(s: string): string {
    if s == "" then ""
    else if s[0] != '\r' then [s[0]] + Translated(s[1..])
    else if |s| > 1 && s[1] == '\n' then "\n" + Translated(s[2..])
    else "\n" + Translated(s[1..])
  }

  predicate HasCR(s: string) {
    '\r' in s
  }

  lemma {:induction false} TranslationRemovesCR(s: string)
    ensures !HasCR(Translated(s))
    decreases |s|
  {
    if s != "" {
      TranslationRemovesCR(s[1..]);
      if |s| > 1 {
        TranslationRemovesCR(s[2..]);
      }
    }
  }

  lemma {:induction false} TranslationKeepsRest(s: string)
    requires !HasCR(s)
    ensures Translated(s) == s
  {
    if s != "" {
      TranslationKeepsRest(s[1..]);
      assert s == [s[0]] + s[1..];
    }
  }

  lemma {:induction false} QuotedHasNoNewCR(s: string)
    requires !HasCR(s)
    ensures !HasCR(ReadQuoted(s).0) && !HasCR(ReadQuoted(s).1)
    decreases |s|
  {
    if s != "" {
      QuotedHasNoNewCR(s[1..]);
      if |s| > 1 {
        QuotedHasNoNewCR(s[2..]);
      }
    }
  }

  lemma {:induction false} PlainHasNoNewCR(s: string)
    requires !HasCR(s)
    ensures !HasCR(ReadPlain(s).0) && !HasCR(ReadPlain(s).1)
  {
    if s != "" {
      PlainHasNoNewCR(s[1..]);
    }
  }

  predicate CellHasCR(cell: Option<string>) {
    cell.Some? && HasCR(cell.value)
  }

  lemma {:induction false} RowHasNoNewCR(s: string)
    requires !HasCR(s) && ReadRow(s).Some?
    ensures !HasCR(ReadRow(s).value.1)
    ensures forall i :: 0 <= i < |ReadRow(s).value.0| ==> !CellHasCR(ReadRow(s).value.0[i])
    decreases |s|
  {
    if s != "" && s[0] == '"' {
      QuotedHasNoNewCR(s[1..]);
    }
    PlainHasNoNewCR(s);
    var (cell, rest) := ReadField(s);
    if rest != "" && rest[0] == ',' {
      RowHasNoNewCR(rest[1..]);
    }
  }

  lemma {:induction false} FileHasNoNewCR(s: string)
    requires !HasCR(s) && ReadFile(s).Some?
    ensures forall r, i :: 0 <= r < |ReadFile(s).value| && 0 <= i < |ReadFile(s).value[r]| ==>
              !CellHasCR(ReadFile(s).value[r][i])
    decreases |s|
  {
    if s != "" {
      RowHasNoNewCR(s);
      FileHasNoNewCR(ReadRow(s).value.1);
    }
  }

  lemma {:induction false} ValueWritesNoCR(v: Value)
    requires WellFormed(v) && !CellHasCR(Cell(v))
    ensures !HasCR(FormatValue(v))
  {
    if v.Text? {
      DoublingAddsNoCR(v.text);
    } else if v.Rendered? || v.Number? {
      assert HasCR(FormatValue(v)) ==> NeedsQuoting(FormatValue(v));
    }
  }

  lemma {:induction false} DoublingAddsNoCR(s: string)
    requires !HasCR(s)
    ensures !HasCR(Doubled(s))
  {
    if s != "" {
      DoublingAddsNoCR(s[1..]);
    }
  }

  lemma {:induction false} RowWritesNoCR(values: seq<Value>)
    requires forall i :: 0 <= i < |values| ==> WellFormed(values[i]) && !CellHasCR(Cell(values[i]))
    ensures !HasCR(Joined(values))
  {
    if values != [] {
      ValueWritesNoCR(values[0]);
      RowWritesNoCR(values[1..]);
    }
  }

  predicate CarriesCR(rows: seq<seq<Value>>) {
    exists r, i :: 0 <= r < |rows| && 0 <= i < |rows[r]| && CellHasCR(Cell(rows[r][i]))
  }

  lemma {:induction false} RestCarriesNoCR(rows: seq<seq<Value>>)
    requires rows != [] && !CarriesCR(rows)
    ensures !CarriesCR(rows[1..]) && forall i :: 0 <= i < |rows[0]| ==> !CellHasCR(Cell(rows[0][i]))
  {
    assert forall r :: 0 <= r < |rows[1..]| ==> rows[1..][r] == rows[r + 1];
  }

  lemma {:induction false} FileWritesNoCR(rows: seq<seq<Value>>)
    requires forall r, i :: 0 <= r < |rows| && 0 <= i < |rows[r]| ==> WellFormed(rows[r][i])
    requires !CarriesCR(rows)
    ensures !HasCR(FormatRows(rows))
  {
    if rows != [] {
      RestCarriesNoCR(rows);
      RowWritesNoCR(rows[0]);
      FileWritesNoCR(rows[1..]);
    }
  }

  lemma {:induction false} CarryingCellsDiffer(rows: seq<seq<Value>>, cells: seq<seq<Option<string>>>)
    requires CarriesCR(rows)
    requires forall r, i :: 0 <= r < |cells| && 0 <= i < |cells[r]| ==> !CellHasCR(cells[r][i])
    ensures cells != AllCells(rows)
  {
    var r, i :| 0 <= r < |rows| && 0 <= i < |rows[r]| && CellHasCR(Cell(rows[r][i]));
    assert CellHasCR(AllCells(rows)[r][i]);
  }

  /** Through the loader, which opens the spool as text, the rows arrive as written exactly when no value carries a
      carriage return; one that does is silently changed. */
  lemma {:induction false} LoadedRoundTripExactlyWithoutCR(rows: seq<seq<Value>>)
    requires forall r :: 0 <= r < |rows| ==> rows[r] != []
    requires forall r, i :: 0 <= r < |rows| && 0 <= i < |rows[r]| ==> WellFormed(rows[r][i])
    ensures ReadFile(Translated(FormatRows(rows))) == Some(AllCells(rows)) <==> !CarriesCR(rows)
  {
    var file := FormatRows(rows);
    if !CarriesCR(rows) {
      FileWritesNoCR(rows);
      TranslationKeepsRest(file);
      FileRoundTrip(rows);
    } else if ReadFile(Translated(file)).Some? {
      TranslationRemovesCR(file);
      FileHasNoNewCR(Translated(file));
      CarryingCellsDiffer(rows, ReadFile(Translated(file)).value);
    }
  }

  /** The append point for one table. */
  class TableSpool {
    const columns: nat
    var content: string
    var rows: nat
    ghost var written: seq<seq<Value>>

    constructor (width: nat)
      requires width > 0
      ensures Valid() && columns == width && rows == 0 && written == []
    {
      columns := width;
      content, rows, written := "", 0, [];
    }

    ghost predicate Valid()
      reads this
    {
      && columns > 0 && rows == |written| && content == FormatRows(written)
      && forall r :: 0 <= r < |written| ==> |written[r]| == columns
    }

    /** Appends one row, or refuses a row of the wrong width and writes nothing. */
    method Write(values: seq<Value>) returns (r: Result<()>)
      requires Valid()
      modifies this
      ensures Valid() && (r.Ok? <==> |values| == columns)
      ensures written == if r.Ok? then old(written) + [values] else old(written)
    {
      if |values| != columns {
        return Refused("wrong number of values");
      }
      FormatRowsAppend(written, values);
      content := content + FormatRow(values);
      rows := rows + 1;
      written := written + [values];
      return Ok(());
    }
  }

  lemma {:induction false} FormatRowsAppend(rows: seq<seq<Value>>, row: seq<Value>)
    ensures FormatRows(rows + [row]) == FormatRows(rows) + FormatRow(row)
  {
    if rows == [] {
      assert rows + [row] == [row];
    } else {
      FormatRowsAppend(rows[1..], row);
      assert (rows + [row])[1..] == rows[1..] + [row];
    }
  }
}
