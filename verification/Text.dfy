/** Lines of text as bufio.Scanner delivers them, and the csv rows the benchmark writes. */
module Text {
  import opened Prelude
  import opened Decimal

  /** Longest line, newline excluded, that fits the 64 KiB buffer of a default bufio.Scanner with its newline. */
  const MAX_LINE: nat := 65535

  /** Position of the first newline, or the length of the text. */
  function LineEnd(text: string): (n: nat)
    ensures n <= |text|
    ensures n < |text| ==> text[n] == '\n'
    ensures forall k :: 0 <= k < n ==> text[k] != '\n'
  {
    if text == "" || text[0] == '\n' then 0 else 1 + LineEnd(text[1..])
  }

  function DropCarriageReturn(line: string): string {
    if line != "" && line[|line| - 1] == '\r' then line[..|line| - 1] else line
  }

  /**
   * The tokens of a bufio.Scanner that splits on lines. A final line needs no newline, a trailing carriage return
   * is dropped, and a line that does not fit the buffer ends the scan early without any sign of it in the tokens.
   */
  function Scan(text: string): (lines: seq<string>)
    decreases |text|
  {
    if text == "" then []
    else
      var n := LineEnd(text);
      if n > MAX_LINE then []
      else
        [DropCarriageReturn(text[..n])] + (if n < |text| then Scan(text[n + 1..]) else [])
  }

  function Unlines(lines: seq<string>): string {
    if lines == [] then "" else Unlines(lines[..|lines| - 1]) + lines[|lines| - 1] + "\n"
  }

  predicate Plain(line: string) {
    && |line| <= MAX_LINE
    && (forall k :: 0 <= k < |line| ==> line[k] != '\n')
    && (line != "" ==> line[|line| - 1] != '\r')
  }

  lemma {:induction false} UnlinesAppend(a: seq<string>, b: seq<string>)
    ensures Unlines(a + b) == Unlines(a) + Unlines(b)
  {
    if b == [] {
      assert a + b == a;
    } else {
      var n := |b| - 1;
      UnlinesAppend(a, b[..n]);
      assert (a + b)[..|a + b| - 1] == a + b[..n];
      assert Unlines(a + b) == (Unlines(a) + Unlines(b[..n])) + b[n] + "\n";
      assert Unlines(a + b) == Unlines(a) + (Unlines(b[..n]) + b[n] + "\n");
    }
  }

  lemma UnlinesAdd(lines: seq<string>, line: string)
    ensures Unlines(lines + [line]) == Unlines(lines) + (line + "\n")
  {
    assert (lines + [line])[..|lines|] == lines;
    var text := Unlines(lines);
    assert (text + line) + "\n" == text + (line + "\n");
  }

  lemma UnlinesOne(line: string)
    ensures Unlines([line]) == line + "\n"
  {
    assert [line][..0] == [];
    assert Unlines([line][..0]) == "";
    assert "" + line + "\n" == line + "\n";
  }

  lemma LineEndAt(text: string, n: nat)
    requires n < |text| && text[n] == '\n'
    requires forall k :: 0 <= k < n ==> text[k] != '\n'
    ensures LineEnd(text) == n
  {
  }

  lemma ScanLine(line: string, rest: string)
    requires Plain(line)
    ensures Scan(line + "\n" + rest) == [line] + Scan(rest)
  {
    var text := line + "\n" + rest;
    LineEndAt(text, |line|);
    assert text[..|line|] == line;
    assert text[|line| + 1..] == rest;
  }

  /** A line without its carriage return, if it ends with one. */
  predicate IsToken(line: string, token: string) {
    line == token + "\r" || (line == token && (line == "" || line[|line| - 1] != '\r'))
  }

  /**
   * What comes of any first line: a token without its carriage return and then the rest, or nothing from there on when
   * the line is longer than 65535 characters; and a last line without a newline is a line too, unless it is empty.
   */
  lemma ScanExactly(line: string, rest: string)
    requires '\n' !in line
    ensures |line| > 65535 ==> Scan(line + "\n" + rest) == [] && Scan(line) == []
    ensures |line| <= 65535 ==>
      && Scan(line + "\n" + rest) != [] && IsToken(line, Scan(line + "\n" + rest)[0])
      && Scan(line + "\n" + rest)[1..] == Scan(rest)
    ensures 0 < |line| <= 65535 ==> |Scan(line)| == 1 && IsToken(line, Scan(line)[0])
  {
    var text := line + "\n" + rest;
    LineEndAt(text, |line|);
    assert text[..|line|] == line && text[|line| + 1..] == rest;
    LineEndNone(line);
    assert line[..|line|] == line;
    TokenOf(line);
  }

  lemma TokenOf(line: string)
    ensures IsToken(line, DropCarriageReturn(line))
  {
    if line != "" && line[|line| - 1] == '\r' {
      assert line == line[..|line| - 1] + "\r";
    }
  }

  lemma LineEndNone(line: string)
    requires '\n' !in line
    ensures LineEnd(line) == |line|
  {
  }

  /** Scanning gives back exactly the lines that were written, one newline after each. */
  lemma {:induction false} ScanUnlines(lines: seq<string>)
    requires forall l :: l in lines ==> Plain(l)
    ensures Scan(Unlines(lines)) == lines
  {
    if lines != [] {
      assert lines == [lines[0]] + lines[1..];
      UnlinesAppend([lines[0]], lines[1..]);
      UnlinesOne(lines[0]);
      ScanLine(lines[0], Unlines(lines[1..]));
      ScanUnlines(lines[1..]);
    }
  }

  // ----- Columns by name -----

  /** The first position with the given name. */
  function Position(titles: seq<string>, name: string): (r: Option<nat>)
    ensures r.Some? ==> r.value < |titles| && titles[r.value] == name
  {
    if titles == [] then None
    else if titles[0] == name then Some(0)
    else
      match Position(titles[1..], name)
      case None => None
      case Some(k) => Some(k + 1)
  }

  /** What a row has in the column with the given name. */
  function Cell(titles: seq<string>, row: seq<string>, name: string): Option<string> {
    match Position(titles, name)
    case None => None
    case Some(k) => if k < |row| then Some(row[k]) else None
  }

  // ----- Rows of a measurement file -----

  datatype Row = Row(tProducer: int64, tConsumer: int64)

  function RowLine(r: Row): string {
    FormatInt(r.tProducer) + "," + FormatInt(r.tConsumer)
  }

  function RowLines(rows: seq<Row>): (lines: seq<string>)
    ensures |lines| == |rows|
    ensures forall i :: 0 <= i < |rows| ==> lines[i] == RowLine(rows[i])
  {
    seq(|rows|, i requires 0 <= i < |rows| => RowLine(rows[i]))
  }

  /** Position of the first comma, or the length of the line. */
  function CommaAt(line: string): (n: nat)
    ensures n <= |line|
    ensures n < |line| ==> line[n] == ','
    ensures forall k :: 0 <= k < n ==> line[k] != ','
  {
    if line == "" || line[0] == ',' then 0 else 1 + CommaAt(line[1..])
  }

  lemma CommaAfter(p: string, rest: string)
    requires ',' !in p
    ensures CommaAt(p + "," + rest) == |p|
  {
    var line := p + "," + rest;
    assert line[|p|] == ',';
    assert forall k :: 0 <= k < |p| ==> line[k] == p[k];
  }

  lemma NoComma(x: int)
    ensures ',' !in FormatInt(x) && '\n' !in FormatInt(x) && '\r' !in FormatInt(x)
  {
  }

  /** Reads a csv row of two integers. */
  function ParseRow(line: string): Option<Row> {
    var n := CommaAt(line);
    if n == |line| then None else
      match (ParseInt(line[..n]), ParseInt(line[n + 1..]))
      case (Some(p), Some(c)) => Some(Row(p, c))
      case _ => None
  }

  lemma ParseRowLine(r: Row)
    ensures ParseRow(RowLine(r)) == Some(r)
  {
    var p, c := FormatInt(r.tProducer), FormatInt(r.tConsumer);
    NoComma(r.tProducer);
    CommaAfter(p, c);
    assert (p + "," + c)[..|p|] == p && (p + "," + c)[|p| + 1..] == c;
    ParseFormat(r.tProducer);
    ParseFormat(r.tConsumer);
  }

  lemma RowLinePlain(r: Row)
    ensures Plain(RowLine(r))
  {
    Int64Length(r.tProducer);
    Int64Length(r.tConsumer);
  }

  function RowsText(rows: seq<Row>): string {
    Unlines(RowLines(rows))
  }

  lemma RowsTextAppend(rows: seq<Row>, r: Row)
    ensures RowsText(rows + [r]) == RowsText(rows) + RowLine(r) + "\n"
  {
    var lines := RowLines(rows + [r]);
    assert lines[..|lines| - 1] == RowLines(rows);
  }

  lemma ScanRowsText(rows: seq<Row>)
    ensures Scan(RowsText(rows)) == RowLines(rows)
  {
    forall l | l in RowLines(rows)
      ensures Plain(l)
    {
      var i :| 0 <= i < |rows| && l == RowLine(rows[i]);
      RowLinePlain(rows[i]);
    }
    ScanUnlines(RowLines(rows));
  }
}
