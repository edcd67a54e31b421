/** Laws of the status parser over arbitrary text: lookahead finds exactly the rows without
    children, every accepted row is considered once, and parsing is compositional. */
module StatusLaws {
  import opened Types
  import opened Text
  import opened Status

  // ----- Looking one row ahead -----

  /** The nearest earlier shallower row of j is i. */
  ghost predicate IsParent(depths: seq<nat>, i: nat, j: nat) {
    && i < j < |depths|
    && depths[i] < depths[j]
    && forall m | i < m < j :: depths[m] >= depths[j]
  }

  /** For any sequence of depths, the next row is deeper exactly when the row has a child. */
  lemma LookaheadFindsChildren(depths: seq<nat>, i: nat)
    requires i < |depths|
    ensures (i + 1 < |depths| && depths[i + 1] > depths[i]) <==> exists j: nat :: IsParent(depths, i, j)
  {
    if i + 1 < |depths| && depths[i + 1] > depths[i] {
      assert IsParent(depths, i, i + 1);
    }
    if exists j: nat :: IsParent(depths, i, j) {
      var j: nat :| IsParent(depths, i, j);
      assert j == i + 1 || depths[i + 1] >= depths[j];
    }
  }

  function Depths(rows: seq<Row>): seq<nat> {
    seq(|rows|, i requires 0 <= i < |rows| => rows[i].leaf.depth)
  }

  /** Flush's test: not the pool row, and the next row is not deeper. */
  predicate Kept(rows: seq<Row>, i: nat)
    requires i < |rows|
  {
    !rows[i].isRoot && !(i + 1 < |rows| && rows[i + 1].leaf.depth > rows[i].leaf.depth)
  }

  /** The indices of the rows that Flush keeps, counted from a starting index. */
  function KeptFrom(rows: seq<Row>, from: nat): seq<nat>
    requires from <= |rows|
    decreases |rows| - from
  {
    if from == |rows| then []
    else (if Kept(rows, from) then [from] else []) + KeptFrom(rows, from + 1)
  }

  function Pick(rows: seq<Row>, idx: seq<nat>): seq<Leaf>
    requires forall i | i in idx :: i < |rows|
  {
    seq(|idx|, k requires 0 <= k < |idx| => assert idx[k] in idx; Reported(rows[idx[k]].leaf))
  }

  lemma {:induction false} KeptAscending(rows: seq<Row>, from: nat)
    requires from <= |rows|
    ensures forall i | i in KeptFrom(rows, from) :: from <= i < |rows|
    ensures forall a, b | 0 <= a < b < |KeptFrom(rows, from)| :: KeptFrom(rows, from)[a] < KeptFrom(rows, from)[b]
    ensures forall i | from <= i < |rows| :: i in KeptFrom(rows, from) <==> Kept(rows, i)
    decreases |rows| - from
  {
    hide Kept;
    if from < |rows| {
      KeptAscending(rows, from + 1);
      var rest := KeptFrom(rows, from + 1);
      forall b | 0 <= b < |rest| ensures rest[b] > from { assert rest[b] in rest; }
      assert from !in rest;
    }
  }

  lemma {:induction false} FlushPicks(rows: seq<Row>, from: nat)
    requires from <= |rows|
    ensures forall i | i in KeptFrom(rows, from) :: i < |rows|
    ensures Flush(rows[from..]) == Pick(rows, KeptFrom(rows, from))
    decreases |rows| - from
  {
    hide Flush;
    KeptAscending(rows, from);
    FlushFrom(rows, from);
    if from < |rows| {
      FlushPicks(rows, from + 1);
      KeptAscending(rows, from + 1);
    }
  }

  /** Flushing reports, in order and once each, exactly the rows that are not the pool row and
      have no child under the nearest-earlier-shallower-row relation. */
  lemma FlushReportsTheChildless(rows: seq<Row>)
    ensures var kept := KeptFrom(rows, 0);
            && (forall i | i in kept :: i < |rows|)
            && (forall a, b | 0 <= a < b < |kept| :: kept[a] < kept[b])
            && (forall i | 0 <= i < |rows| ::
                  i in kept <==> !rows[i].isRoot && !exists j: nat :: IsParent(Depths(rows), i, j))
            && Flush(rows) == Pick(rows, kept)
  {
    KeptAscending(rows, 0);
    FlushPicks(rows, 0);
    assert rows[0..] == rows;
    forall i | 0 <= i < |rows|
      ensures i in KeptFrom(rows, 0) <==> !rows[i].isRoot && !exists j: nat :: IsParent(Depths(rows), i, j)
    {
      LookaheadFindsChildren(Depths(rows), i);
      assert Depths(rows)[i] == rows[i].leaf.depth;
      assert i + 1 < |rows| ==> Depths(rows)[i + 1] == rows[i + 1].leaf.depth;
    }
  }

  // ----- Scanning in pieces -----

  lemma {:induction false} ScanConcat(st: State, a: seq<string>, b: seq<string>, withUPath: bool)
    ensures Scan(st, a + b, withUPath) ==
            match Scan(st, a, withUPath)
            case Err(code) => Err(code)
            case Ok(mid) => Scan(mid, b, withUPath)
    decreases a
  {
    hide Classify, StripCR, Step;
    if a == [] {
      assert a + b == b;
    } else {
      assert (a + b)[0] == a[0] && (a + b)[1..] == a[1..] + b;
      var next := Step(st, StripCR(a[0]), withUPath);
      if |a[0]| < MAX_LINE && next.Ok? {
        ScanConcat(next.value, a[1..], b, withUPath);
      }
    }
  }

  /** Leaves already collected are carried along untouched. */
  function Prepend(done: seq<Leaf>, st: State): State {
    st.(all := done + st.all)
  }

  lemma StepPrepend(done: seq<Leaf>, st: State, line: string, withUPath: bool)
    ensures Step(Prepend(done, st), line, withUPath) ==
            match Step(st, line, withUPath)
            case Err(code) => Err(code)
            case Ok(next) => Ok(Prepend(done, next))
  {
    hide Classify, Flush, LeadingWidth;
    assert done + (st.all + Flush(st.rows)) == done + st.all + Flush(st.rows);
  }

  lemma {:induction false} ScanPrepend(done: seq<Leaf>, st: State, lines: seq<string>, withUPath: bool)
    ensures Scan(Prepend(done, st), lines, withUPath) ==
            match Scan(st, lines, withUPath)
            case Err(code) => Err(code)
            case Ok(end) => Ok(Prepend(done, end))
    decreases lines
  {
    hide Step, StripCR;
    if lines != [] && |lines[0]| < MAX_LINE {
      StepPrepend(done, st, StripCR(lines[0]), withUPath);
      var next := Step(st, StripCR(lines[0]), withUPath);
      if next.Ok? { ScanPrepend(done, next.value, lines[1..], withUPath); }
    }
  }

  /** A pool line forgets everything but the leaves, which it completes. */
  lemma PoolLineResets(st: State, line: string, withUPath: bool)
    requires Classify(line).PoolLine?
    ensures Step(st, line, withUPath) ==
            Ok(Prepend(Flushed(st).all, Step(INITIAL, line, withUPath).value))
  {
    hide Classify;
    assert Flushed(INITIAL).all == [];
    assert Flushed(st).all + [] == Flushed(st).all;
  }

  /** Text that starts with a pool line scans the same from any state. */
  lemma ScanFromPoolLine(st: State, lines: seq<string>, withUPath: bool)
    requires lines != [] && |lines[0]| < MAX_LINE && Classify(StripCR(lines[0])).PoolLine?
    ensures Scan(st, lines, withUPath) ==
            match Scan(INITIAL, lines, withUPath)
            case Err(code) => Err(code)
            case Ok(end) => Ok(Prepend(Flushed(st).all, end))
  {
    var line := StripCR(lines[0]);
    PoolLineResets(st, line, withUPath);
    PoolLineResets(INITIAL, line, withUPath);
    var first := Step(INITIAL, line, withUPath).value;
    ScanPrepend(Flushed(st).all, first, lines[1..], withUPath);
  }

  lemma NoPoolsSuffix(a: string, b: string)
    requires NoPools(b)
    ensures NoPools(a + b)
  {
    ToLowerConcat(a, b);
    ContainsPrefixed(ToLower(a), ToLower(b), "no pools available");
  }

  /** If a ends at a line boundary and b begins with a pool line, and both parse, then the
      whole parses to the leaves of a followed by the leaves of b. */
  lemma ParseIsCompositional(a: string, b: string, withUPath: bool)
    requires EndsLine(a) && Lines(b) != [] && Classify(StripCR(Lines(b)[0])).PoolLine?
    requires Parse(a, withUPath).Ok? && Parse(b, withUPath).Ok?
    ensures Parse(a + b, withUPath) == Ok(Parse(a, withUPath).value + Parse(b, withUPath).value)
  {
    hide Classify, StripCR, Step, Flush, TrimSpace, NoPools, Lines, EndsLine;
    LinesConcat(a, b);
    ScanConcat(INITIAL, Lines(a), Lines(b), withUPath);
    var mid := Scan(INITIAL, Lines(a), withUPath).value;
    ScanFromPoolLine(mid, Lines(b), withUPath);
    var end := Scan(INITIAL, Lines(b), withUPath).value;
    assert Scan(INITIAL, Lines(a + b), withUPath) == Ok(Prepend(Flushed(mid).all, end));
    assert Flushed(mid).all + (end.all + Flush(end.rows)) == Flushed(mid).all + end.all + Flush(end.rows);
    PoolLineIsNotBlank(b);
    ConcludePrepended(a, b, end, Flushed(mid).all);
  }

  lemma PoolLineIsNotBlank(b: string)
    requires Lines(b) != [] && Classify(StripCR(Lines(b)[0])).PoolLine?
    ensures TrimSpace(b) != ""
  {
    var line := StripCR(Lines(b)[0]);
    TrimSpaceEmpty(b);
    TrimSpaceEmpty(line);
    StripCRIsPrefix(Lines(b)[0]);
    assert Lines(b)[0] <= b;
    assert Blank(b) ==> Blank(line);
  }

  lemma ConcludePrepended(a: string, b: string, end: State, done: seq<Leaf>)
    requires Conclude(end, b).Ok?
    requires end.pool == "" ==> TrimSpace(b) != ""
    ensures Conclude(Prepend(done, end), a + b) == Ok(done + Flushed(end).all)
  {
    hide Flush;
    if end.pool == "" {
      NoPoolsSuffix(a, b);
    }
    assert done + (end.all + Flush(end.rows)) == done + end.all + Flush(end.rows);
  }

  // ----- Every accepted row is flushed exactly once -----

  /** The rows a scan accepts, in order, whatever happens to them afterwards. */
  function Accepted(st: State, lines: seq<string>, withUPath: bool): seq<Row>
    requires Scan(st, lines, withUPath).Ok?
    decreases lines
  {
    if lines == [] then []
    else
      var line := StripCR(lines[0]);
      var next := Step(st, line, withUPath).value;
      (if st.inConfig && st.headerSeen && Classify(line).VdevLine? then
         VdevHasFields(line);
         [MakeRow(st.pool, st.role, Classify(line).fields, Classify(line).errors, LeadingWidth(line), withUPath)]
       else [])
      + Accepted(next, lines[1..], withUPath)
  }

  /** The batches that are flushed: at every pool line, at every errors line and at the end. */
  function Batches(st: State, lines: seq<string>, withUPath: bool): seq<seq<Row>>
    requires Scan(st, lines, withUPath).Ok?
    decreases lines
  {
    if lines == [] then [st.rows]
    else
      var kind := Classify(StripCR(lines[0]));
      var rest := Batches(Step(st, StripCR(lines[0]), withUPath).value, lines[1..], withUPath);
      if kind.PoolLine? || kind.ErrorsLine? then [st.rows] + rest else rest
  }

  function Flatten<T>(s: seq<seq<T>>): seq<T> {
    if s == [] then [] else s[0] + Flatten(s[1..])
  }

  function FlushEach(s: seq<seq<Row>>): seq<Leaf> {
    if s == [] then [] else Flush(s[0]) + FlushEach(s[1..])
  }

  lemma StepRows(st: State, line: string, withUPath: bool)
    requires Step(st, line, withUPath).Ok?
    ensures var next, kind := Step(st, line, withUPath).value, Classify(line);
            && (kind.PoolLine? || kind.ErrorsLine? ==> next.rows == [] && next.all == st.all + Flush(st.rows))
            && (!kind.PoolLine? && !kind.ErrorsLine? ==> next.all == st.all)
            && (st.inConfig && st.headerSeen && kind.VdevLine? ==>
                  |kind.fields| >= 5 &&
                  next.rows == st.rows
                    + [MakeRow(st.pool, st.role, kind.fields, kind.errors, LeadingWidth(line), withUPath)])
            && (!kind.PoolLine? && !kind.ErrorsLine? && !(st.inConfig && st.headerSeen && kind.VdevLine?) ==>
                  next.rows == st.rows)
  {
  }

  lemma {:induction false} BatchesHoldAccepted(st: State, lines: seq<string>, withUPath: bool)
    requires Scan(st, lines, withUPath).Ok?
    ensures Flatten(Batches(st, lines, withUPath)) == st.rows + Accepted(st, lines, withUPath)
    decreases lines
  {
    hide Classify, Step, Flush, StripCR, LeadingWidth, MakeRow;
    if lines == [] {
    } else {
      var line := StripCR(lines[0]);
      var next, kind := Step(st, line, withUPath).value, Classify(line);
      StepRows(st, line, withUPath);
      BatchesHoldAccepted(next, lines[1..], withUPath);
      var later := Accepted(next, lines[1..], withUPath);
      if kind.PoolLine? || kind.ErrorsLine? {
        assert Accepted(st, lines, withUPath) == later;
      } else if st.inConfig && st.headerSeen && kind.VdevLine? {
        var row := MakeRow(st.pool, st.role, kind.fields, kind.errors, LeadingWidth(line), withUPath);
        assert Accepted(st, lines, withUPath) == [row] + later;
        assert st.rows + [row] + later == st.rows + ([row] + later);
      } else {
        assert Accepted(st, lines, withUPath) == later;
      }
    }
  }

  lemma {:induction false} BatchesGiveLeaves(st: State, lines: seq<string>, withUPath: bool)
    requires Scan(st, lines, withUPath).Ok?
    ensures Flushed(Scan(st, lines, withUPath).value).all == st.all + FlushEach(Batches(st, lines, withUPath))
    decreases lines
  {
    hide Classify, Step, Flush, StripCR, LeadingWidth, MakeRow;
    if lines == [] {
    } else {
      var line := StripCR(lines[0]);
      var next, kind := Step(st, line, withUPath).value, Classify(line);
      StepRows(st, line, withUPath);
      BatchesGiveLeaves(next, lines[1..], withUPath);
      if kind.PoolLine? || kind.ErrorsLine? {
        var rest := Batches(next, lines[1..], withUPath);
        assert st.all + Flush(st.rows) + FlushEach(rest) == st.all + (Flush(st.rows) + FlushEach(rest));
      }
    }
  }

  /** The flushed batches hold every accepted row exactly once and in order, and the leaves of
      the whole parse are those of the batches. */
  lemma RowsFlushedOnce(text: string, withUPath: bool)
    requires Parse(text, withUPath).Ok?
    ensures var batches := Batches(INITIAL, Lines(text), withUPath);
            && Flatten(batches) == Accepted(INITIAL, Lines(text), withUPath)
            && Parse(text, withUPath) == Ok(FlushEach(batches))
  {
    hide Step, Flush, Lines, NoPools, TrimSpace;
    BatchesHoldAccepted(INITIAL, Lines(text), withUPath);
    BatchesGiveLeaves(INITIAL, Lines(text), withUPath);
    var leaves := FlushEach(Batches(INITIAL, Lines(text), withUPath));
    assert [] + leaves == leaves;
  }

  // ----- When a report is rejected -----

  /** Whether a config section is open after these lines: its heading was the last line that
      opens or closes one. */
  predicate InConfig(lines: seq<string>) {
    lines != [] &&
    match Classify(StripCR(lines[|lines| - 1]))
    case ConfigLine => true
    case PoolLine(_) => false
    case ErrorsLine => false
    case _ => InConfig(lines[..|lines| - 1])
  }

  /** Whether a header row was met in a config section of the current pool. */
  predicate HeaderSeen(lines: seq<string>) {
    lines != [] &&
    match Classify(StripCR(lines[|lines| - 1]))
    case PoolLine(_) => false
    case HeaderLine => InConfig(lines[..|lines| - 1]) || HeaderSeen(lines[..|lines| - 1])
    case _ => HeaderSeen(lines[..|lines| - 1])
  }

  /** The name on the last pool line. */
  function LastPool(lines: seq<string>): string {
    if lines == [] then ""
    else
      match Classify(StripCR(lines[|lines| - 1]))
      case PoolLine(name) => name
      case _ => LastPool(lines[..|lines| - 1])
  }

  /** The role of the last section heading met in an open config section of the current pool. */
  function LastRole(lines: seq<string>): string {
    if lines == [] then "data"
    else
      var prefix := lines[..|lines| - 1];
      match Classify(StripCR(lines[|lines| - 1]))
      case PoolLine(_) => "data"
      case RoleLine(role) => if InConfig(prefix) && HeaderSeen(prefix) then role else LastRole(prefix)
      case _ => LastRole(prefix)
  }

  /** A line no report may have: too long, or a vdev row whose counters are not numbers. */
  predicate BadLine(lines: seq<string>, n: nat)
    requires n < |lines|
  {
    || |lines[n]| >= MAX_LINE
    || (Classify(StripCR(lines[n])).BadCounters? && InConfig(lines[..n]) && HeaderSeen(lines[..n]))
  }

  ghost predicate HasBadLine(lines: seq<string>) {
    exists n: nat :: n < |lines| && BadLine(lines, n)
  }

  lemma ScanLast(lines: seq<string>, line: string, withUPath: bool)
    ensures Scan(INITIAL, lines + [line], withUPath) ==
            match Scan(INITIAL, lines, withUPath)
            case Err(code) => Err(code)
            case Ok(mid) => if |line| >= MAX_LINE then Err(Malformed) else Step(mid, StripCR(line), withUPath)
  {
    hide Step, StripCR;
    ScanConcat(INITIAL, lines, [line], withUPath);
    if Scan(INITIAL, lines, withUPath).Ok? {
      assert [line][1..] == [];
    }
  }

  /** Scanning fails exactly on a bad line, and otherwise knows the pool and whether it is inside
      an open config section. */
  lemma {:induction false} ScanFailsIff(lines: seq<string>, withUPath: bool)
    ensures var end := Scan(INITIAL, lines, withUPath);
            && (end.Err? <==> HasBadLine(lines))
            && (end.Err? ==> end.code == Malformed)
            && (end.Ok? ==> && end.value.inConfig == InConfig(lines)
                            && end.value.headerSeen == HeaderSeen(lines) && end.value.pool == LastPool(lines)
                            && end.value.role == LastRole(lines))
    decreases |lines|
  {
    hide Classify, StripCR, Flush, LeadingWidth, MakeRow, MAX_LINE;
    if lines != [] {
      var last := |lines| - 1;
      var prefix, line := lines[..last], lines[last];
      assert lines == prefix + [line];
      ScanFailsIff(prefix, withUPath);
      ScanLast(prefix, line, withUPath);
      forall n: nat | n < last ensures BadLine(prefix, n) == BadLine(lines, n) {
        assert prefix[..n] == lines[..n];
      }
      if Classify(StripCR(line)).VdevLine? { VdevHasFields(StripCR(line)); }
      assert BadLine(lines, last) <==>
             (|line| >= MAX_LINE || (Classify(StripCR(line)).BadCounters? && InConfig(prefix) && HeaderSeen(prefix)));
    }
  }

  /** A report is rejected, always as malformed, if and only if some line is too long or, inside an
      open config section, has counters that are not numbers; or if it is not blank, names no pool
      and does not say that there are none. */
  lemma ParseFailsIff(text: string, withUPath: bool)
    ensures Parse(text, withUPath).Err? <==>
            HasBadLine(Lines(text)) || (LastPool(Lines(text)) == "" && !Blank(text) && !NoPools(text))
    ensures Parse(text, withUPath).Err? ==> Parse(text, withUPath).code == Malformed
  {
    hide Scan, Lines, NoPools, HasBadLine, LastPool, TrimSpace, Flush;
    ScanFailsIff(Lines(text), withUPath);
    TrimSpaceEmpty(text);
    var end := Scan(INITIAL, Lines(text), withUPath);
    if end.Err? {
      assert Parse(text, withUPath) == Err(end.code);
    } else {
      assert Parse(text, withUPath) == Conclude(end.value, text);
      assert Conclude(end.value, text).Err? <==> end.value.pool == "" && !Blank(text) && !NoPools(text);
    }
  }

  const NO_POOLS := "no pools available"

  /** The words that excuse an empty report stand at position i, in upper or lower case. */
  predicate SaysNoPoolsAt(text: string, i: nat) {
    i + |NO_POOLS| <= |text| && forall k | 0 <= k < |NO_POOLS| :: SameLetter(text[i + k], NO_POOLS[k])
  }

  lemma NoPoolsIff(text: string)
    ensures NoPools(text) <==> exists i: nat :: SaysNoPoolsAt(text, i)
  {
    var lower := ToLower(text);
    forall i: nat ensures OccursAt(lower, i, NO_POOLS) <==> SaysNoPoolsAt(text, i) {
      if i + |NO_POOLS| <= |text| {
        var part := lower[i..i + |NO_POOLS|];
        forall k | 0 <= k < |NO_POOLS|
          ensures part[k] == LowerChar(text[i + k])
          ensures part[k] == NO_POOLS[k] <==> SameLetter(text[i + k], NO_POOLS[k])
        {
          LowerIsSameLetter(text[i + k], NO_POOLS[k]);
        }
        assert part == NO_POOLS <==> forall k | 0 <= k < |NO_POOLS| :: part[k] == NO_POOLS[k];
      }
    }
    forall i: nat | SaysNoPoolsAt(text, i) ensures NoPools(text) {
      assert OccursAt(lower, i, NO_POOLS);
    }
    if NoPools(text) {
      var i :| 0 <= i <= |lower| && OccursAt(lower, i, NO_POOLS);
      assert SaysNoPoolsAt(text, i);
    }
  }

  // ----- Indentation -----

  /** The width of an indentation counts its blanks once and its tabs eight times. */
  lemma {:induction false} WidthOfIndent(indent: string, rest: string)
    requires forall i | 0 <= i < |indent| :: indent[i] == ' ' || indent[i] == '\t'
    requires rest == "" || (rest[0] != ' ' && rest[0] != '\t')
    ensures LeadingWidth(indent + rest) == Count(indent, ' ') + 8 * Count(indent, '\t')
    decreases |indent|
  {
    if indent == "" {
      assert indent + rest == rest;
    } else {
      assert (indent + rest)[1..] == indent[1..] + rest;
      WidthOfIndent(indent[1..], rest);
    }
  }

  // ----- Words of a report -----

  /** The section headings and the roles they stand for, and the states a vdev row can show. */
  lemma ReportWords(word: string)
    ensures RoleHeading(word) == Some("log") <==> word == "logs"
    ensures RoleHeading(word) == Some("cache") <==> word == "cache"
    ensures RoleHeading(word) == Some("spare") <==> word == "spares"
    ensures RoleHeading(word) == Some("special") <==> word == "special"
    ensures RoleHeading(word) == Some("dedup") <==> word == "dedup"
    ensures RoleHeading(word).Some? <==> word in {"logs", "cache", "spares", "special", "dedup"}
    ensures IsState(word) <==> word == "ONLINE" || word == "DEGRADED" || word == "FAULTED" || word == "OFFLINE"
                               || word == "REMOVED" || word == "UNAVAIL" || word == "AVAIL" || word == "INUSE"
    ensures MAX_LINE == 4194304
  {
  }

  /** The words that make a line a heading of some kind, once the white space around it is gone. */
  predicate IsHeading(t: string) {
    || "pool:" <= t || "errors:" <= t || t == "" || ("NAME" <= t && Contains(t, "STATE"))
    || t in {"config:", "logs", "cache", "spares", "special", "dedup"}
  }

  /** What makes a line count as which kind: its words without the white space around them; a line
      that is no heading is a vdev row if its second word is a state, and a good one only if the
      next three are numbers. */
  lemma LineKinds(line: string) returns (p: string, t: string, q: string)
    ensures line == p + t + q && Blank(p) && Blank(q)
    ensures t != "" ==> !IsSpace(t[0]) && !IsSpace(t[|t| - 1])
    ensures Classify(line).PoolLine? <==> "pool:" <= t
    ensures Classify(line).PoolLine? ==> Classify(line).name == TrimSpace(t[5..])
    ensures Classify(line).ConfigLine? <==> t == "config:"
    ensures Classify(line).ErrorsLine? <==> "errors:" <= t
    ensures Classify(line).BlankLine? <==> t == ""
    ensures Classify(line).HeaderLine? <==> "NAME" <= t && Contains(t, "STATE")
    ensures Classify(line).RoleLine? <==> t in {"logs", "cache", "spares", "special", "dedup"}
    ensures Classify(line).RoleLine? ==> RoleHeading(t) == Some(Classify(line).role)
    ensures Classify(line).VdevLine? || Classify(line).BadCounters? <==>
            !IsHeading(t) && |Fields(t)| >= 5 && IsState(Fields(t)[1])
    ensures Classify(line).BadCounters? ==>
              exists k :: 2 <= k <= 4 && ParseUint(Fields(t)[k]).None?
    ensures Classify(line).VdevLine? ==>
              var f, errors := Classify(line).fields, Classify(line).errors;
              && f == Fields(t)
              && ParseUint(f[2]) == Some(errors.read) && ParseUint(f[3]) == Some(errors.write)
              && ParseUint(f[4]) == Some(errors.checksum)
  {
    hide TrimSpace, Fields, Contains, ParseUint, RoleHeading;
    p, q := TrimSpaceParts(line);
    t := TrimSpace(line);
    ReportWords(t);
    if Classify(line).BadCounters? {
      var f := Fields(t);
      var k := if ParseUint(f[2]).None? then 2 else if ParseUint(f[3]).None? then 3 else 4;
      assert ParseUint(f[k]).None?;
    }
  }

  /** A reported leaf differs from its row only where the row shows no path, or has no name. */
  lemma ReportedIs(leaf: Leaf)
    ensures Reported(leaf) == leaf.(path := Reported(leaf).path, name := Reported(leaf).name)
    ensures Reported(leaf).path == (if leaf.path == "-" then "" else leaf.path)
    ensures Reported(leaf).name == (if leaf.name != "" then leaf.name else BaseName(Reported(leaf).path))
  {
  }
}
