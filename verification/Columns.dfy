/** Reading a csv file by the names of its columns, as the analysis does. */
module Columns {
  import opened Prelude
  import opened Decimal
  import opened Text
  import opened FileSystem
  import opened Buffering
  import opened Merging
  import BufferLog

  function Unblank(s: string): string { if s != "" && s[0] == ' ' then Unblank(s[1..]) else s }

  /** The parts between the commas, without the blanks that follow a comma. */
  function Fields(line: string): seq<string>
    decreases |line|
  {
    var n := CommaAt(line);
    if n == |line| then [line]
    else
      UnblankShorter(line[n + 1..]);
      [line[..n]] + Fields(Unblank(line[n + 1..]))
  }

  lemma UnblankShorter(s: string)
    ensures |Unblank(s)| <= |s|
  {
  }

  function NumberIn(title: string, line: string, name: string): Option<int64> {
    match Cell(Fields(title), Fields(line), name)
    case None => None
    case Some(s) => ParseInt(s)
  }

  /** When a message was sent and when it was received, as a line of the file says. */
  datatype Sample = Sample(sent: Option<int64>, received: Option<int64>)

  function SampleOf(title: string, line: string): Sample {
    Sample(NumberIn(title, line, "tProducer"), NumberIn(title, line, "tConsumer"))
  }

  /** One reading for each line but the first, which has the names of the columns. */
  function ReadLines<T>(lines: seq<string>, f: (string, string) -> T): seq<T> {
    if lines == [] then []
    else seq(|lines| - 1, i requires 0 <= i < |lines| - 1 => f(lines[0], lines[i + 1]))
  }

  function Read<T>(text: string, f: (string, string) -> T): seq<T> { ReadLines(Scan(text), f) }

  function Samples(text: string): seq<Sample> { Read(text, SampleOf) }

  lemma ReadEach<T>(title: string, lines: seq<string>, f: (string, string) -> T, ts: seq<T>)
    requires |lines| == |ts| && forall i :: 0 <= i < |lines| ==> f(title, lines[i]) == ts[i]
    ensures ReadLines([title] + lines, f) == ts
  {
  }

  lemma ScanTitled(title: string, lines: seq<string>)
    requires Plain(title) && forall i :: 0 <= i < |lines| ==> Plain(lines[i])
    ensures Scan(Unlines([title] + lines)) == [title] + lines
  {
    ScanUnlines([title] + lines);
  }

  lemma ReadUnlines<T>(title: string, lines: seq<string>, f: (string, string) -> T, ts: seq<T>)
    requires Plain(title) && forall i :: 0 <= i < |lines| ==> Plain(lines[i])
    requires |lines| == |ts| && forall i :: 0 <= i < |lines| ==> f(title, lines[i]) == ts[i]
    ensures Read(Unlines([title] + lines), f) == ts
  {
    ScanTitled(title, lines);
    ReadEach(title, lines, f, ts);
  }

  function SampleOfRow(r: Row): Sample { Sample(Some(r.tProducer), Some(r.tConsumer)) }

  function SamplesOfRows(rows: seq<Row>): seq<Sample> {
    seq(|rows|, i requires 0 <= i < |rows| => SampleOfRow(rows[i]))
  }

  lemma TwoFields(p: string, blanks: string, c: string)
    requires ',' !in p && ',' !in c && Unblank(blanks + c) == c
    ensures Fields(p + "," + (blanks + c)) == [p, c]
  {
    var rest := blanks + c;
    CommaAfter(p, rest);
    assert (p + "," + rest)[..|p|] == p && (p + "," + rest)[|p| + 1..] == rest;
    assert CommaAt(c) == |c|;
  }

  lemma NumberStarts(x: int)
    ensures FormatInt(x)[0] != ' ' && FormatInt(x)[0] != 't'
  {
  }

  lemma HeaderIs()
    ensures HEADER == "tProducer" + "," + ("" + "tConsumer")
    ensures TITLES == "tProducer" + "," + (" " + "tConsumer")
  {
  }

  lemma NoBlank(s: string)
    requires s != "" && s[0] != ' '
    ensures Unblank("" + s) == s && Unblank(" " + s) == s
  {
    assert "" + s == s && (" " + s)[1..] == s;
  }

  lemma HeaderFields()
    ensures Fields(HEADER) == ["tProducer", "tConsumer"] && Fields(TITLES) == ["tProducer", "tConsumer"]
  {
    NoBlank("tConsumer");
    TwoFields("tProducer", "", "tConsumer");
    TwoFields("tProducer", " ", "tConsumer");
    HeaderIs();
  }

  lemma ReadRow(title: string, line: string, p: int64, c: int64)
    requires Fields(title) == ["tProducer", "tConsumer"] && Fields(line) == [FormatInt(p), FormatInt(c)]
    ensures SampleOf(title, line) == Sample(Some(p), Some(c))
  {
    ParseFormat(p);
    ParseFormat(c);
    assert Position(["tProducer", "tConsumer"], "tProducer") == Some(0);
    assert ["tProducer", "tConsumer"][1..] == ["tConsumer"];
    assert Position(["tConsumer"], "tConsumer") == Some(0);
    assert Position(["tProducer", "tConsumer"], "tConsumer") == Some(1);
  }

  /** Under the header of the merged file, a row says which number is the producer's clock and which the consumer's. */
  lemma RowByName(r: Row)
    ensures SampleOf(HEADER, RowLine(r)) == SampleOfRow(r)
  {
    var p, c := FormatInt(r.tProducer), FormatInt(r.tConsumer);
    NoComma(r.tProducer);
    NoComma(r.tConsumer);
    NumberStarts(r.tConsumer);
    NoBlank(c);
    TwoFields(p, "", c);
    assert "" + c == c;
    HeaderFields();
    ReadRow(HEADER, RowLine(r), r.tProducer, r.tConsumer);
  }

  lemma DumpRowByName(r: Row)
    ensures SampleOf(TITLES, DumpLine(r)) == SampleOfRow(r)
  {
    var p, c := FormatInt(r.tProducer), FormatInt(r.tConsumer);
    NoComma(r.tProducer);
    NoComma(r.tConsumer);
    NumberStarts(r.tConsumer);
    NoBlank(c);
    TwoFields(p, " ", c);
    assert DumpLine(r) == p + "," + (" " + c);
    HeaderFields();
    ReadRow(TITLES, DumpLine(r), r.tProducer, r.tConsumer);
  }

  lemma HeaderIsPlain()
    ensures Plain(HEADER) && Plain(TITLES)
  {
    assert |HEADER| == 19 && '\n' !in HEADER;
    assert |TITLES| == 20 && '\n' !in TITLES;
  }

  /** A merged file of rows says, by the names of its columns, what the rows say. */
  lemma MergedByName(disk: Disk, dir: string, entries: seq<Entry>, rows: seq<Row>)
    requires MergedLines(disk, dir, entries) == RowLines(rows)
    ensures Samples(MergedText(disk, dir, entries)) == SamplesOfRows(rows)
  {
    RowsByName(rows);
  }

  lemma DumpTitles(ms: seq<Row>)
    ensures TITLES !in DumpLines(ms)
  {
    forall i | 0 <= i < |ms|
      ensures DumpLines(ms)[i] != TITLES
    {
      NumberStarts(ms[i].tProducer);
      assert DumpLines(ms)[i][0] == FormatInt(ms[i].tProducer)[0];
    }
  }

  /** A dump in the data directory contributes the lines of its measurements to the merge, without their titles. */
  lemma DumpContributes(disk: Disk, dir: string, name: string, ms: seq<Row>)
    requires Path(dir, name) in disk.files && disk.files[Path(dir, name)] == DumpText(ms) && !IsDotfile(name)
    ensures var lines, rows := LinesOf(disk, dir, Entry(name, false)), UntilZero(ms);
      && |lines| == |rows|
      && forall i :: 0 <= i < |rows| ==> lines[i] == FormatInt(rows[i].tProducer) + ", " + FormatInt(rows[i].tConsumer)
  {
    KeptOfDump(UntilZero(ms));
  }

  lemma KeptOfDump(rows: seq<Row>)
    ensures Kept(Scan(Unlines([TITLES] + DumpLines(rows)))) == DumpLines(rows)
  {
    BufferLog.DumpLinesPlain(rows);
    BufferLog.ScanTitled(DumpLines(rows));
    DumpTitles(rows);
    KeptAll(DumpLines(rows));
    KeptTitled(DumpLines(rows));
  }

  lemma {:induction false} KeptTitled(lines: seq<string>)
    ensures Kept([TITLES] + lines) == Kept(lines)
  {
    var all := [TITLES] + lines;
    if lines == [] {
      assert all[..0] == [] && Kept(all[..0]) == [];
    } else {
      var n := |lines| - 1;
      KeptTitled(lines[..n]);
      assert all[..n + 1] == [TITLES] + lines[..n];
    }
  }

  lemma RowsByName(rows: seq<Row>)
    ensures Samples(Unlines([HEADER] + RowLines(rows))) == SamplesOfRows(rows)
  {
    HeaderIsPlain();
    forall i | 0 <= i < |rows|
      ensures Plain(RowLines(rows)[i]) && SampleOf(HEADER, RowLines(rows)[i]) == SamplesOfRows(rows)[i]
    {
      RowLinePlain(rows[i]);
      RowByName(rows[i]);
    }
    ReadUnlines(HEADER, RowLines(rows), SampleOf, SamplesOfRows(rows));
  }

  /** A buffer dump says the same of the measurements in it. */
  lemma DumpByName(ms: seq<Row>)
    ensures Samples(DumpText(ms)) == SamplesOfRows(UntilZero(ms))
  {
    var rows := UntilZero(ms);
    HeaderIsPlain();
    forall i | 0 <= i < |rows|
      ensures Plain(DumpLines(rows)[i]) && SampleOf(TITLES, DumpLines(rows)[i]) == SamplesOfRows(rows)[i]
    {
      BufferLog.DumpLinePlain(rows[i]);
      DumpRowByName(rows[i]);
    }
    ReadUnlines(TITLES, DumpLines(rows), SampleOf, SamplesOfRows(rows));
  }
}
