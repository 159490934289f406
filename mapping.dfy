/**
 * The per-mapper record parser and counter (`MyMapper`).
 *
 * The mapper receives the lines of its input one at a time.  A line that
 * contains `>` anywhere is a header: it first closes the open record, which
 * is counted, and then opens a new record named by the characters from index
 * 1 up to the first space.  Any other line is appended to the open record's
 * text.  `finish` counts the last open record.
 *
 * `Step`, `Run` and `Finalize` are the pure meaning of these calls; the class
 * `Mapper` performs them in place and is proved to agree with them.  A Java
 * exception is the outcome `Threw`, which carries the state left behind:
 * counts already added to the combiner stay added.
 */
module Mapping {
  import opened Wrappers
  import opened Matching
  import opened Combining

  /** `inValue.contains(">")`: the marker may stand anywhere in the line. */
  predicate IsHeader(line: string) {
    '>' in line
  }

  /** `String.indexOf`: the first index of `c` in `s`, or -1 when there is none. */
  function IndexOf(s: string, c: char): (r: int)
    ensures -1 <= r < |s|
    ensures r == -1 <==> c !in s
    ensures r >= 0 ==> s[r] == c && c !in s[..r]
  {
    if |s| == 0 then -1
    else if s[0] == c then 0
    else
      var i := IndexOf(s[1..], c);
      if i == -1 then -1 else i + 1
  }

  /** `String.contains` is `indexOf(s) >= 0`: a header is a line in which `indexOf(">")` finds the marker. */
  lemma HeaderIsIndexOf(line: string)
    ensures IsHeader(line) <==> IndexOf(line, '>') >= 0
  {
  }

  /**
   * `inValue.substring(1, inValue.indexOf(" "))`: the name a header opens,
   * or `None` where `substring` throws, namely when the line has no space or
   * its first space is at index 0.  Index 0 is skipped whatever it holds.
   */
  function HeaderName(line: string): (r: Option<string>)
    ensures r.Some? <==> ' ' in line && line[0] != ' '
    ensures r.Some? ==> 1 + |r.value| < |line| && line[1..1 + |r.value|] == r.value
    ensures r.Some? ==> line[1 + |r.value|] == ' ' && ' ' !in r.value
  {
    var i := IndexOf(line, ' ');
    if i < 1 then None else Some(line[1..i])
  }

  /** The name a header opens, given where its first space is. */
  lemma HeaderNameAt(line: string, k: nat)
    requires 1 <= k < |line| && line[k] == ' '
    requires forall i :: 0 <= i < k ==> line[i] != ' '
    ensures HeaderName(line) == Some(line[1..k])
  {
  }

  /** The mapper's fields together with the combiner's sums. */
  datatype MapperState = MapperState(id: Option<string>, buffer: string, sums: Sums)

  /** A call that returned normally, or one that threw, with the state it left. */
  datatype Outcome = Done(st: MapperState) | Threw(st: MapperState)

  /** The outcome a method reports by its `ok` flag. */
  function Reached(ok: bool, st: MapperState): Outcome {
    if ok then Done(st) else Threw(st)
  }

  /** The state `start` leaves: no record open, an empty buffer, an empty combiner. */
  const Init := MapperState(None, [], map[])

  /**
   * `performPatternMatch`: adds one per occurrence of `q` in the buffer to
   * the open identifier's sum; an empty query throws once every position has
   * been counted.
   */
  function PatternMatch(q: string, st: MapperState): (r: Outcome)
    ensures r.Threw? <==> |q| == 0
    ensures r.st.id == st.id && r.st.buffer == st.buffer
    ensures Get(r.st.sums, st.id) == Get(st.sums, st.id) + CountOverlapping(st.buffer, q)
    ensures forall k :: k != st.id ==> Get(r.st.sums, k) == Get(st.sums, k)
    ensures NoZeroSums(st.sums) ==> NoZeroSums(r.st.sums)
  {
    var counted := st.(sums := AddCount(st.sums, st.id, CountOverlapping(st.buffer, q)));
    if |q| > 0 then Done(counted) else Threw(counted)
  }

  /** `map` applied to one line. */
  function Step(q: string, st: MapperState, line: string): (r: Outcome)
    ensures !IsHeader(line) ==> r == Done(MapperState(st.id, st.buffer + line, st.sums))
    ensures r.Threw? <==> IsHeader(line) && ((st.id.Some? && |q| == 0) || HeaderName(line).None?)
    ensures IsHeader(line) && r.Done? ==> r.st.id == HeaderName(line) && r.st.buffer == []
    ensures forall k :: k != st.id ==> Get(r.st.sums, k) == Get(st.sums, k)
    ensures Get(st.sums, st.id) <= Get(r.st.sums, st.id)
    ensures NoZeroSums(st.sums) ==> NoZeroSums(r.st.sums)
  {
    if !IsHeader(line) then Done(st.(buffer := st.buffer + line))
    else
      var closed := if st.id.Some? then PatternMatch(q, st) else Done(st);
      if closed.Threw? then closed
      else match HeaderName(line)
        case None => Threw(closed.st)
        case Some(name) => Done(MapperState(Some(name), [], closed.st.sums))
  }

  /** `map` applied to each line in turn; an exception ends the run. */
  function Run(q: string, st: MapperState, lines: seq<string>): (r: Outcome)
    decreases |lines|
    ensures forall k :: Get(st.sums, k) <= Get(r.st.sums, k)
    ensures NoZeroSums(st.sums) ==> NoZeroSums(r.st.sums)
  {
    if lines == [] then Done(st)
    else match Step(q, st, lines[0])
      case Threw(s) => Threw(s)
      case Done(s) => Run(q, s, lines[1..])
  }

  /** Only a header line can throw: data lines always return normally. */
  lemma {:induction false} ThrowsOnlyAtHeader(q: string, st: MapperState, lines: seq<string>)
    requires Run(q, st, lines).Threw?
    ensures exists i :: 0 <= i < |lines| && IsHeader(lines[i])
    decreases |lines|
  {
    match Step(q, st, lines[0])
    case Threw(s) =>
      assert IsHeader(lines[0]);
    case Done(s) =>
      ThrowsOnlyAtHeader(q, s, lines[1..]);
      var i :| 0 <= i < |lines[1..]| && IsHeader(lines[1..][i]);
      assert lines[i + 1] == lines[1..][i];
  }

  /** `finish`: the open record is counted whether or not a header was ever read. */
  function Finalize(q: string, st: MapperState): (r: Outcome)
    ensures r.Threw? <==> |q| == 0
    ensures Get(r.st.sums, st.id) == Get(st.sums, st.id) + CountOverlapping(st.buffer, q)
  {
    PatternMatch(q, st)
  }

  /** One mapper over a whole stream of lines: `start`, `map` per line, `finish`. */
  function Census(q: string, lines: seq<string>): (r: Outcome)
    ensures |q| == 0 ==> r.Threw?
    ensures NoZeroSums(r.st.sums)
  {
    match Run(q, Init, lines)
    case Threw(s) => Threw(s)
    case Done(s) => Finalize(q, s)
  }

  /** A data line is appended verbatim to the buffer and touches nothing else. */
  lemma DataLineAppends(q: string, st: MapperState, line: string)
    requires '>' !in line
    ensures Step(q, st, line) == Done(MapperState(st.id, st.buffer + line, st.sums))
  {
  }

  /**
   * A well-formed header counts the open record, if one is open, under its
   * identifier and opens the named record with an empty buffer.
   */
  lemma HeaderOpensRecord(q: string, st: MapperState, line: string)
    requires '>' in line && ' ' in line && line[0] != ' ' && (|q| > 0 || st.id.None?)
    ensures var r := Step(q, st, line);
      r.Done? && r.st.id == HeaderName(line) && r.st.buffer == [] &&
      r.st.sums == if st.id.Some? then AddCount(st.sums, st.id, CountOverlapping(st.buffer, q)) else st.sums
  {
  }

  /**
   * A header without a usable space throws, after the open record (if any)
   * has been counted; identifier and buffer are left as they were.
   */
  lemma MalformedHeaderThrows(q: string, st: MapperState, line: string)
    requires '>' in line && (' ' !in line || line[0] == ' ')
    ensures var r := Step(q, st, line);
      r.Threw? && r.st.id == st.id && r.st.buffer == st.buffer &&
      r.st.sums == if st.id.Some? then AddCount(st.sums, st.id, CountOverlapping(st.buffer, q)) else st.sums
  {
  }

  /** One match found by the loop of `performPatternMatch` is one more `add(id, ONE)`. */
  lemma CountOneMatch(m: Sums, key: Key, text: string, q: string, from: nat, p: nat)
    requires Find(text, q, from) == Match(p)
    ensures p <= |text| && (p == |text| ==> |q| == 0)
    ensures var before := AddCount(m, key, CountIn(text, q, 0, from));
      before[key := Get(before, key) + One] == AddCount(m, key, CountIn(text, q, 0, p + 1))
  {
    FoundOneMore(text, q, from, p);
    AddOneMore(m, key, CountIn(text, q, 0, from));
  }

  /** When the loop of `performPatternMatch` finds nothing more, every match has been counted. */
  lemma NothingLeft(text: string, q: string, from: nat)
    requires Find(text, q, from) == NoMatch
    ensures |q| > 0 && CountIn(text, q, 0, from) == CountOverlapping(text, q)
  {
    assert |q| == 0 ==> MatchesAt(text, q, from);
    NoneLeft(text, q, from);
  }

  /** `MyMapper`: the fields it updates in place across calls of `map`. */
  class Mapper {
    const query: string
    var id: Option<string>
    var buffer: string

    /** Field initialisers plus `start`. */
    constructor (query: string)
      ensures this.query == query && id == None && buffer == []
    {
      this.query := query;
      id := None;
      buffer := [];
    }

    function State(c: Combiner): MapperState
      reads this, c
    {
      MapperState(id, buffer, c.sums)
    }

    /** `map(inKey, inValue, combiner)` for the line `line`. */
    method Map(line: string, c: Combiner) returns (ok: bool)
      modifies this, c
      ensures Reached(ok, State(c)) == Step(query, old(State(c)), line)
    {
      if '>' in line {
        if id.Some? {
          ok := PerformPatternMatch(c);
          if !ok {
            return;
          }
        }
        var space := IndexOf(line, ' ');
        if space < 1 {
          ok := false;
          return;
        }
        id := Some(line[1..space]);
        buffer := [];
        ok := true;
      } else {
        buffer := buffer + line;
        ok := true;
      }
    }

    /** `finish(combiner)`. */
    method Finish(c: Combiner) returns (ok: bool)
      modifies c
      ensures Reached(ok, State(c)) == Finalize(query, old(State(c)))
    {
      ok := PerformPatternMatch(c);
    }

    /**
     * `performPatternMatch(combiner)`: the search restarts one position after
     * the start of each match, so overlapping occurrences all count.
     */
    method PerformPatternMatch(c: Combiner) returns (ok: bool)
      modifies c
      ensures c.sums == AddCount(old(c.sums), id, CountOverlapping(buffer, query))
      ensures ok <==> |query| > 0
    {
      var text, key, q := buffer, id, query;
      var index: nat := 0;
      while true
        invariant index <= |text| + 1
        invariant index == |text| + 1 ==> |q| == 0
        invariant c.sums == AddCount(old(c.sums), key, CountIn(text, q, 0, index))
        decreases |text| + 1 - index
      {
        match Find(text, q, index)
        case OutOfBounds =>
          ok := false;
          return;
        case NoMatch =>
          NothingLeft(text, q, index);
          ok := true;
          return;
        case Match(p) =>
          CountOneMatch(old(c.sums), key, text, q, index, p);
          c.Add(key, One);
          index := p + 1;
      }
    }
  }
}
