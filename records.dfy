/**
 * What a mapper computes over a whole stream of lines, stated without the
 * line-by-line state machine: the stream is cut into records at its header
 * lines, and each record's occurrence count is added to its identifier's sum.
 * `CensusIsTallyOfRecords` proves the mapper of module `Mapping` computes
 * exactly this.
 */
module RecordStream {
  import opened Wrappers
  import opened Matching
  import opened Combining
  import opened Mapping

  /** One record: the identifier its header named (none before any header) and its text. */
  datatype Record = Record(id: Option<string>, text: string)

  /** Every header line names a record (its `substring` does not throw). */
  predicate WellFormed(lines: seq<string>) {
    forall i :: 0 <= i < |lines| && IsHeader(lines[i]) ==> HeaderName(lines[i]).Some?
  }

  /** The lines joined with no separator. */
  function Concat(lines: seq<string>): string {
    if lines == [] then [] else lines[0] + Concat(lines[1..])
  }

  /** The number of data lines before the first header. */
  function DataPrefix(lines: seq<string>): (k: nat)
    ensures k <= |lines|
    ensures forall i :: 0 <= i < k ==> !IsHeader(lines[i])
    ensures k < |lines| ==> IsHeader(lines[k])
  {
    if lines == [] || IsHeader(lines[0]) then 0 else 1 + DataPrefix(lines[1..])
  }

  /** The number of header lines. */
  function HeaderCount(lines: seq<string>): nat {
    if lines == [] then 0 else (if IsHeader(lines[0]) then 1 else 0) + HeaderCount(lines[1..])
  }

  lemma WellFormedSuffix(lines: seq<string>, k: nat)
    requires WellFormed(lines) && k <= |lines|
    ensures WellFormed(lines[k..])
  {
    forall i | 0 <= i < |lines| - k && IsHeader(lines[k..][i])
      ensures HeaderName(lines[k..][i]).Some?
    {
      assert lines[k..][i] == lines[k + i];
    }
  }

  /**
   * The records of `lines` when the record `name` has just been opened: its
   * text is the data lines up to the next header, and each later header
   * opens the next record.
   */
  function Blocks(name: string, lines: seq<string>): (recs: seq<Record>)
    requires WellFormed(lines)
    decreases |lines|
    ensures |recs| == 1 + HeaderCount(lines)
    ensures recs[0] == Record(Some(name), Concat(lines[..DataPrefix(lines)]))
    ensures forall j :: 0 <= j < |recs| ==> recs[j].id.Some?
  {
    var k := DataPrefix(lines);
    HeaderCountSplit(lines, k);
    NoHeaders(lines[..k]);
    if k == |lines| then
      [Record(Some(name), Concat(lines[..k]))]
    else
      WellFormedSuffix(lines, k + 1);
      assert lines[k..] == [lines[k]] + lines[k + 1..];
      [Record(Some(name), Concat(lines[..k]))] + Blocks(HeaderName(lines[k]).value, lines[k + 1..])
  }

  /**
   * The records of a whole stream.  Data lines before the first header
   * belong to no record; a stream without any header is one record with no
   * identifier, because `finish` counts it all the same.
   */
  function Records(lines: seq<string>): (recs: seq<Record>)
    requires WellFormed(lines)
    ensures |recs| == if HeaderCount(lines) == 0 then 1 else HeaderCount(lines)
  {
    var k := DataPrefix(lines);
    HeaderCountSplit(lines, k);
    NoHeaders(lines[..k]);
    if k == |lines| then
      [Record(None, Concat(lines))]
    else
      WellFormedSuffix(lines, k + 1);
      assert lines[k..] == [lines[k]] + lines[k + 1..];
      Blocks(HeaderName(lines[k]).value, lines[k + 1..])
  }

  /** An open record followed by data lines only is a single record holding all of them. */
  lemma BlocksOfData(name: string, d: seq<string>)
    requires forall i :: 0 <= i < |d| ==> !IsHeader(d[i])
    ensures WellFormed(d) && Blocks(name, d) == [Record(Some(name), Concat(d))]
  {
    NoHeaders(d);
    assert d[..DataPrefix(d)] == d;
  }

  /** A header after the open record's data lines closes that record and opens the one it names. */
  lemma BlocksAtHeader(name: string, d: seq<string>, h: string, rest: seq<string>)
    requires forall i :: 0 <= i < |d| ==> !IsHeader(d[i])
    requires IsHeader(h) && HeaderName(h).Some? && WellFormed(rest)
    ensures WellFormed(d + [h] + rest)
    ensures Blocks(name, d + [h] + rest) == [Record(Some(name), Concat(d))] + Blocks(HeaderName(h).value, rest)
  {
    var lines := d + [h] + rest;
    forall i | 0 <= i < |lines| && IsHeader(lines[i]) ensures HeaderName(lines[i]).Some? {
      if i > |d| {
        assert lines[i] == rest[i - |d| - 1];
      }
    }
    assert lines[|d|] == h;
    assert DataPrefix(lines) == |d|;
    assert lines[..|d|] == d && lines[|d| + 1..] == rest;
  }

  /** A stream that starts with a header has exactly the records that header opens. */
  lemma RecordsAtHeader(h: string, rest: seq<string>)
    requires IsHeader(h) && HeaderName(h).Some? && WellFormed(rest)
    ensures WellFormed([h] + rest)
    ensures Records([h] + rest) == Blocks(HeaderName(h).value, rest)
  {
    var lines := [h] + rest;
    forall i | 0 <= i < |lines| && IsHeader(lines[i]) ensures HeaderName(lines[i]).Some? {
      if i > 0 {
        assert lines[i] == rest[i - 1];
      }
    }
    assert lines[1..] == rest;
  }

  /** An open record, then one header, each followed by data lines only, make exactly two records. */
  lemma TwoBlocks(n1: string, d1: seq<string>, h2: string, d2: seq<string>)
    requires IsHeader(h2) && HeaderName(h2).Some?
    requires forall i :: 0 <= i < |d1| ==> !IsHeader(d1[i])
    requires forall i :: 0 <= i < |d2| ==> !IsHeader(d2[i])
    ensures WellFormed(d1 + [h2] + d2)
    ensures Blocks(n1, d1 + [h2] + d2) == [Record(Some(n1), Concat(d1)), Record(HeaderName(h2), Concat(d2))]
  {
    BlocksOfData(HeaderName(h2).value, d2);
    BlocksAtHeader(n1, d1, h2, d2);
  }

  /** Two headers, each followed by data lines only, make exactly two records. */
  lemma TwoRecords(h1: string, d1: seq<string>, h2: string, d2: seq<string>)
    requires IsHeader(h1) && HeaderName(h1).Some? && IsHeader(h2) && HeaderName(h2).Some?
    requires forall i :: 0 <= i < |d1| ==> !IsHeader(d1[i])
    requires forall i :: 0 <= i < |d2| ==> !IsHeader(d2[i])
    ensures WellFormed([h1] + (d1 + [h2] + d2))
    ensures Records([h1] + (d1 + [h2] + d2)) == [Record(HeaderName(h1), Concat(d1)), Record(HeaderName(h2), Concat(d2))]
  {
    TwoBlocks(HeaderName(h1).value, d1, h2, d2);
    RecordsAtHeader(h1, d1 + [h2] + d2);
  }

  lemma {:induction false} HeaderCountSplit(lines: seq<string>, k: nat)
    requires k <= |lines|
    ensures HeaderCount(lines) == HeaderCount(lines[..k]) + HeaderCount(lines[k..])
  {
    if k > 0 {
      HeaderCountSplit(lines[1..], k - 1);
      assert lines[1..][..k - 1] == lines[..k][1..];
      assert lines[1..][k - 1..] == lines[k..];
    } else {
      assert lines[k..] == lines;
    }
  }

  lemma {:induction false} NoHeaders(lines: seq<string>)
    requires forall i :: 0 <= i < |lines| ==> !IsHeader(lines[i])
    ensures HeaderCount(lines) == 0
  {
    if lines != [] {
      NoHeaders(lines[1..]);
    }
  }

  /** Adding each record's occurrence count, in order, to its identifier's sum. */
  function Tally(q: string, recs: seq<Record>, s: Sums): Sums
    decreases |recs|
  {
    if recs == [] then s
    else Tally(q, recs[1..], AddCount(s, recs[0].id, CountOverlapping(recs[0].text, q)))
  }

  /** The total occurrence count of the records with identifier `k`. */
  function Total(q: string, recs: seq<Record>, k: Key): nat
    decreases |recs|
  {
    if recs == [] then 0
    else (if recs[0].id == k then CountOverlapping(recs[0].text, q) else 0) + Total(q, recs[1..], k)
  }

  /**
   * Each identifier's final sum is its starting sum plus the occurrences in
   * its own records, and an identifier is present only when it had a sum
   * before or at least one occurrence.
   */
  lemma {:induction false} TallyGet(q: string, recs: seq<Record>, s: Sums, k: Key)
    ensures Get(Tally(q, recs, s), k) == Get(s, k) + Total(q, recs, k)
    ensures k in Tally(q, recs, s) <==> k in s || Total(q, recs, k) > 0
    decreases |recs|
  {
    if recs != [] {
      TallyGet(q, recs[1..], AddCount(s, recs[0].id, CountOverlapping(recs[0].text, q)), k);
    }
  }

  /** Data lines do not change the open record's identifier, only its buffer. */
  lemma {:induction false} DataRun(q: string, st: MapperState, lines: seq<string>)
    requires forall i :: 0 <= i < |lines| ==> !IsHeader(lines[i])
    ensures Run(q, st, lines) == Done(st.(buffer := st.buffer + Concat(lines)))
    decreases |lines|
  {
    if lines == [] {
      assert st.buffer + [] == st.buffer;
    } else {
      var next := st.(buffer := st.buffer + lines[0]);
      assert Run(q, st, lines) == Run(q, next, lines[1..]);
      forall i | 0 <= i < |lines[1..]| ensures !IsHeader(lines[1..][i]) {
        assert lines[1..][i] == lines[i + 1];
      }
      DataRun(q, next, lines[1..]);
      AppendAssoc(st.buffer, lines[0], Concat(lines[1..]));
    }
  }

  lemma AppendAssoc(a: string, b: string, c: string)
    ensures a + b + c == a + (b + c)
  {
  }

  /** Running two streams one after the other is running their concatenation. */
  lemma {:induction false} RunAppend(q: string, st: MapperState, a: seq<string>, b: seq<string>)
    ensures Run(q, st, a + b) == match Run(q, st, a)
      case Done(s) => Run(q, s, b)
      case Threw(s) => Threw(s)
    decreases |a|
  {
    if a == [] {
      assert a + b == b;
    } else {
      assert (a + b)[0] == a[0];
      assert (a + b)[1..] == a[1..] + b;
      match Step(q, st, a[0])
      case Threw(s) =>
      case Done(s) => RunAppend(q, s, a[1..], b);
    }
  }

  /** A header line for which `substring` throws stops the run. */
  lemma {:induction false} MalformedStops(q: string, st: MapperState, lines: seq<string>)
    requires !WellFormed(lines)
    ensures Run(q, st, lines).Threw?
    decreases |lines|
  {
    var i :| 0 <= i < |lines| && IsHeader(lines[i]) && HeaderName(lines[i]).None?;
    if i > 0 {
      match Step(q, st, lines[0])
      case Threw(s) =>
      case Done(s) =>
        assert lines[1..][i - 1] == lines[i];
        MalformedStops(q, s, lines[1..]);
    }
  }

  /** The data lines ahead of the first header only fill the buffer; the run goes on from that header. */
  lemma DataThenRest(q: string, st: MapperState, lines: seq<string>)
    ensures Run(q, st, lines) ==
      Run(q, st.(buffer := st.buffer + Concat(lines[..DataPrefix(lines)])), lines[DataPrefix(lines)..])
  {
    var k := DataPrefix(lines);
    assert lines == lines[..k] + lines[k..];
    RunAppend(q, st, lines[..k], lines[k..]);
    DataRun(q, st, lines[..k]);
  }

  /** A run that starts at a line that returns normally goes on from the state that line leaves. */
  lemma RunFrom(q: string, st: MapperState, lines: seq<string>, k: nat)
    requires k < |lines| && Step(q, st, lines[k]).Done?
    ensures Run(q, st, lines[k..]) == Run(q, Step(q, st, lines[k]).st, lines[k + 1..])
  {
    assert lines[k..][0] == lines[k] && lines[k..][1..] == lines[k + 1..];
  }

  /** From an open record `name` with an empty buffer, the mapper tallies `Blocks(name, lines)`. */
  lemma {:induction false} OpenRecordTally(q: string, name: string, s: Sums, lines: seq<string>)
    requires |q| > 0 && WellFormed(lines)
    ensures var r := Run(q, MapperState(Some(name), [], s), lines);
      r.Done? && Finalize(q, r.st).Done? && Finalize(q, r.st).st.sums == Tally(q, Blocks(name, lines), s)
    decreases |lines|
  {
    var k := DataPrefix(lines);
    var text := Concat(lines[..k]);
    DataThenRest(q, MapperState(Some(name), [], s), lines);
    assert [] + text == text;
    var open := MapperState(Some(name), text, s);
    var s' := AddCount(s, Some(name), CountOverlapping(text, q));
    var recs := Blocks(name, lines);
    if k == |lines| {
      assert lines[k..] == [];
      assert recs == [Record(Some(name), text)];
      assert Tally(q, recs, s) == Tally(q, [], s');
    } else {
      WellFormedSuffix(lines, k + 1);
      var next := HeaderName(lines[k]).value;
      assert Step(q, open, lines[k]) == Done(MapperState(Some(next), [], s'));
      RunFrom(q, open, lines, k);
      OpenRecordTally(q, next, s', lines[k + 1..]);
      assert recs[1..] == Blocks(next, lines[k + 1..]);
    }
  }

  /** With a header in the stream, the first one opens the first record and the leading data is dropped. */
  lemma FirstHeaderTally(q: string, lines: seq<string>)
    requires |q| > 0 && WellFormed(lines) && DataPrefix(lines) < |lines|
    ensures Census(q, lines).Done? && Census(q, lines).st.sums == Tally(q, Records(lines), map[])
  {
    var k := DataPrefix(lines);
    var text := Concat(lines[..k]);
    DataThenRest(q, Init, lines);
    assert [] + text == text;
    var open := MapperState(None, text, map[]);
    WellFormedSuffix(lines, k + 1);
    var name := HeaderName(lines[k]).value;
    assert Step(q, open, lines[k]) == Done(MapperState(Some(name), [], map[]));
    RunFrom(q, open, lines, k);
    OpenRecordTally(q, name, map[], lines[k + 1..]);
  }

  /**
   * The mapper over a whole stream returns normally exactly when the query is
   * non-empty and every header names a record, and its combiner then holds
   * the tally of the stream's records: each record counted exactly once.
   */
  lemma CensusIsTallyOfRecords(q: string, lines: seq<string>)
    ensures Census(q, lines).Done? <==> |q| > 0 && WellFormed(lines)
    ensures |q| > 0 && WellFormed(lines) ==> Census(q, lines).st.sums == Tally(q, Records(lines), map[])
  {
    if !WellFormed(lines) {
      MalformedStops(q, Init, lines);
    } else if |q| > 0 {
      if DataPrefix(lines) == |lines| {
        NoHeaderCountsUnderNull(q, lines);
        var s' := AddCount(map[], None, CountOverlapping(Concat(lines), q));
        assert Records(lines) == [Record(None, Concat(lines))];
        assert Tally(q, Records(lines), map[]) == Tally(q, [], s');
      } else {
        FirstHeaderTally(q, lines);
      }
    }
  }

  /** The sum each identifier ends with is the occurrence total of its records. */
  lemma CensusPerIdentifier(q: string, lines: seq<string>, k: Key)
    requires |q| > 0 && WellFormed(lines)
    ensures Census(q, lines).Done?
    ensures Get(Census(q, lines).st.sums, k) == Total(q, Records(lines), k)
    ensures k in Census(q, lines).st.sums <==> Total(q, Records(lines), k) > 0
  {
    CensusIsTallyOfRecords(q, lines);
    TallyGet(q, Records(lines), map[], k);
  }

  /** Data lines ahead of the first header change nothing: the first header discards them. */
  lemma OrphanDataIgnored(q: string, data: seq<string>, lines: seq<string>)
    requires forall i :: 0 <= i < |data| ==> !IsHeader(data[i])
    requires |lines| > 0 && IsHeader(lines[0]) && HeaderName(lines[0]).Some?
    ensures Census(q, data + lines) == Census(q, lines)
  {
    RunAppend(q, Init, data, lines);
    DataRun(q, Init, data);
    var open := Init.(buffer := [] + Concat(data));
    assert Step(q, open, lines[0]) == Step(q, Init, lines[0]);
  }

  /** Without any header, everything read is counted under the null identifier at `finish`. */
  lemma NoHeaderCountsUnderNull(q: string, lines: seq<string>)
    requires |q| > 0 && forall i :: 0 <= i < |lines| ==> !IsHeader(lines[i])
    ensures Census(q, lines) == Done(MapperState(None, Concat(lines), AddCount(map[], None, CountOverlapping(Concat(lines), q))))
  {
    var st := MapperState(None, Concat(lines), map[]);
    NoHeaderRun(q, lines);
    assert Finalize(q, st) == Done(st.(sums := AddCount(map[], None, CountOverlapping(Concat(lines), q))));
  }

  lemma NoHeaderRun(q: string, lines: seq<string>)
    requires forall i :: 0 <= i < |lines| ==> !IsHeader(lines[i])
    ensures Run(q, Init, lines) == Done(MapperState(None, Concat(lines), map[]))
  {
    DataRun(q, Init, lines);
    assert [] + Concat(lines) == Concat(lines);
  }
}

/** The documented scenarios, as the code behaves. */
module StreamExamples {
  import opened Wrappers
  import opened Matching
  import opened Mapping
  import opened RecordStream

  lemma FirstHeader(line: string)
    requires line == ">seq1 desc"
    ensures IsHeader(line) && HeaderName(line) == Some("seq1")
  {
    assert line[0] == '>' && line[5] == ' ';
    assert forall i :: 0 <= i < 5 ==> line[i] != ' ';
    HeaderNameAt(line, 5);
    assert line[1..5] == "seq1";
  }

  lemma SecondHeader(line: string)
    requires line == ">seq2 x"
    ensures IsHeader(line) && HeaderName(line) == Some("seq2")
  {
    assert line[0] == '>';
    HeaderNameAt(line, 5);
    assert line[1..5] == "seq2";
  }

  /**
   * Wrapped data lines are joined into one text per record, and each record
   * is counted under its own identifier when the next header or `finish`
   * closes it.
   */
  lemma CountsInFirstRecord(text: string)
    requires text == "AAAA" + "CC"
    ensures CountOverlapping(text, "A") == 4
  {
    assert MatchesAt(text, "A", 0) && MatchesAt(text, "A", 1) && MatchesAt(text, "A", 2) && MatchesAt(text, "A", 3);
    assert |text| == 6 && text[4] == 'C' && text[5] == 'C';
    assert text[4..5] != "A" && text[5..6] != "A";
    assert CountIn(text, "A", 0, 4) == 4;
    assert CountIn(text, "A", 0, 7) == 4;
  }

  lemma CountsInSecondRecord(text: string)
    requires text == "GG"
    ensures CountOverlapping(text, "A") == 0
  {
    assert text[0] == 'G' && text[1] == 'G';
    assert text[0..1] != "A" && text[1..2] != "A";
    assert CountIn(text, "A", 0, 3) == 0;
  }

  lemma FirstHeaderStep(lines: seq<string>)
    requires lines == [">seq1 desc", "AAAA", "CC", ">seq2 x", "GG"]
    ensures Step("A", Init, lines[0]) == Done(MapperState(Some("seq1"), [], map[]))
  {
    FirstHeader(lines[0]);
  }

  lemma FirstRecordSteps(lines: seq<string>)
    requires lines == [">seq1 desc", "AAAA", "CC", ">seq2 x", "GG"]
    ensures Step("A", MapperState(Some("seq1"), [], map[]), lines[1]) == Done(MapperState(Some("seq1"), lines[1], map[]))
    ensures Step("A", MapperState(Some("seq1"), lines[1], map[]), lines[2]) ==
      Done(MapperState(Some("seq1"), lines[1] + lines[2], map[]))
  {
    assert '>' !in lines[1] && '>' !in lines[2];
    assert [] + lines[1] == lines[1];
  }

  lemma SecondHeaderStep(lines: seq<string>)
    requires lines == [">seq1 desc", "AAAA", "CC", ">seq2 x", "GG"]
    ensures Step("A", MapperState(Some("seq1"), lines[1] + lines[2], map[]), lines[3]) ==
      Done(MapperState(Some("seq2"), [], map[Some("seq1") := 4]))
  {
    SecondHeader(lines[3]);
    CountsInFirstRecord(lines[1] + lines[2]);
  }

  lemma SecondRecordSteps(lines: seq<string>)
    requires lines == [">seq1 desc", "AAAA", "CC", ">seq2 x", "GG"]
    ensures Step("A", MapperState(Some("seq2"), [], map[Some("seq1") := 4]), lines[4]) ==
      Done(MapperState(Some("seq2"), lines[4], map[Some("seq1") := 4]))
    ensures Finalize("A", MapperState(Some("seq2"), lines[4], map[Some("seq1") := 4])) ==
      Done(MapperState(Some("seq2"), lines[4], map[Some("seq1") := 4]))
  {
    CountsInSecondRecord(lines[4]);
    assert '>' !in lines[4];
    assert [] + lines[4] == lines[4];
  }

  /**
   * Wrapped data lines are joined into one text per record; each record is
   * counted under its own identifier when the next header or `finish`
   * closes it, and an identifier without occurrences never appears.
   */
  lemma TwoRecordsExample(lines: seq<string>)
    requires lines == [">seq1 desc", "AAAA", "CC", ">seq2 x", "GG"]
    ensures WellFormed(lines)
    ensures Records(lines) == [Record(Some("seq1"), "AAAACC"), Record(Some("seq2"), "GG")]
    ensures Census("A", lines) == Done(MapperState(Some("seq2"), "GG", map[Some("seq1") := 4]))
  {
    TwoRecordsParse(lines);
    TwoRecordsCensus(lines);
    Joined(lines[1], lines[2]);
  }

  lemma Joined(a: string, b: string)
    requires a == "AAAA" && b == "CC"
    ensures a + b == "AAAACC"
  {
    assert |a + b| == 6;
    assert forall i :: 0 <= i < 6 ==> (a + b)[i] == "AAAACC"[i];
  }

  /** The mapper's run over the two-record stream, line by line. */
  lemma TwoRecordsCensus(lines: seq<string>)
    requires lines == [">seq1 desc", "AAAA", "CC", ">seq2 x", "GG"]
    ensures Census("A", lines) == Done(MapperState(Some("seq2"), "GG", map[Some("seq1") := 4]))
  {
    FirstHeaderStep(lines);
    FirstRecordSteps(lines);
    SecondHeaderStep(lines);
    SecondRecordSteps(lines);
    var s1 := map[Some("seq1") := 4];
    var st5 := MapperState(Some("seq2"), lines[4], s1);
    assert Run("A", st5, lines[5..]) == Done(st5);
    assert Run("A", MapperState(Some("seq2"), [], s1), lines[4..]) == Done(st5);
    assert Run("A", MapperState(Some("seq1"), lines[1] + lines[2], map[]), lines[3..]) == Done(st5);
    assert Run("A", MapperState(Some("seq1"), lines[1], map[]), lines[2..]) == Done(st5);
    assert Run("A", MapperState(Some("seq1"), [], map[]), lines[1..]) == Done(st5);
  }

  /** The records the two-record stream is cut into. */
  lemma TwoRecordsParse(lines: seq<string>)
    requires lines == [">seq1 desc", "AAAA", "CC", ">seq2 x", "GG"]
    ensures WellFormed(lines)
    ensures Records(lines) == [Record(Some("seq1"), lines[1] + lines[2]), Record(Some("seq2"), lines[4])]
  {
    FirstHeader(lines[0]);
    SecondHeader(lines[3]);
    DataLines(lines);
    FiveLines(lines);
  }

  /** Five lines cut as header, two data lines, header, one data line. */
  lemma FiveLines(lines: seq<string>)
    requires |lines| == 5
    requires IsHeader(lines[0]) && HeaderName(lines[0]).Some? && IsHeader(lines[3]) && HeaderName(lines[3]).Some?
    requires !IsHeader(lines[1]) && !IsHeader(lines[2]) && !IsHeader(lines[4])
    ensures WellFormed(lines)
    ensures Records(lines) ==
      [Record(HeaderName(lines[0]), lines[1] + lines[2]), Record(HeaderName(lines[3]), lines[4])]
  {
    var d1, d2 := [lines[1], lines[2]], [lines[4]];
    assert Concat(d2) == lines[4] by { assert d2[1..] == []; }
    assert Concat(d1) == lines[1] + lines[2] by {
      assert d1[1..] == [lines[2]] && d1[1..][1..] == [];
    }
    assert lines == [lines[0]] + (d1 + [lines[3]] + d2);
    TwoRecords(lines[0], d1, lines[3], d2);
  }

  lemma DataLines(lines: seq<string>)
    requires lines == [">seq1 desc", "AAAA", "CC", ">seq2 x", "GG"]
    ensures !IsHeader(lines[1]) && !IsHeader(lines[2]) && !IsHeader(lines[4])
  {
    assert '>' !in lines[1] && '>' !in lines[2] && '>' !in lines[4];
  }

  /** One worker's partial result: "AA" occurs three times, overlapping, in "AAAA". */
  lemma OverlappingRecordExample()
    ensures Census("AA", [">x a", "AAAA"]) == Done(MapperState(Some("x"), "AAAA", map[Some("x") := 3]))
  {
    var header := ">x a";
    assert header[0] == '>';
    HeaderNameAt(header, 2);
    assert header[1..2] == "x";
    assert Step("AA", Init, header) == Done(MapperState(Some("x"), [], map[]));
    assert !IsHeader("AAAA");
    assert Step("AA", MapperState(Some("x"), [], map[]), "AAAA") == Done(MapperState(Some("x"), "AAAA", map[]));
    OverlapExamples();
  }

  /** A header without a space throws in `substring`, so the mapper stops. */
  lemma HeaderWithoutSpaceThrows(q: string)
    ensures Census(q, ["AAAA", ">seq1", "CC"]).Threw?
  {
    var lines := ["AAAA", ">seq1", "CC"];
    assert lines[1][0] == '>';
    assert ' ' !in lines[1];
    CensusIsTallyOfRecords(q, lines);
  }

  /** The marker need not lead the line: index 0 is dropped whatever it holds. */
  lemma MarkerAnywhereExample(line: string)
    requires line == "AC>GT x"
    ensures IsHeader(line) && HeaderName(line) == Some("C>GT")
  {
    assert line[2] == '>';
    assert forall i :: 0 <= i < 5 ==> line[i] != ' ';
    HeaderNameAt(line, 5);
    assert line[1..5] == "C>GT";
  }
}
