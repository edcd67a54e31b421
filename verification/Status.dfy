/** The zpool status parser: a line-driven scan that buffers the rows of one block and
    recovers the leaf vdevs by looking one row ahead. */
module Status {
  import opened Types
  import opened Text

  datatype Leaf = Leaf(pool: string, guid: string, name: string, path: string, role: string,
                       state: Health, errors: ErrorCounters, depth: nat)

  datatype Row = Row(leaf: Leaf, isRoot: bool)

  /** A scanned line must be shorter than the scanner's largest buffer, 4 MiB. */
  const MAX_LINE: nat := 4 * 1024 * 1024

  // ----- One line -----

  datatype Kind =
    | PoolLine(name: string)
    | ConfigLine
    | ErrorsLine
    | BlankLine
    | HeaderLine
    | RoleLine(role: string)
    | VdevLine(fields: seq<string>, errors: ErrorCounters)
    | BadCounters
    | OtherLine

  function RoleHeading(value: string): Option<string> {
    if value == "logs" then Some("log")
    else if value == "cache" then Some("cache")
    else if value == "spares" then Some("spare")
    else if value == "special" then Some("special")
    else if value == "dedup" then Some("dedup")
    else None
  }

  predicate IsState(value: string) {
    value in {"ONLINE", "DEGRADED", "FAULTED", "OFFLINE", "REMOVED", "UNAVAIL", "AVAIL", "INUSE"}
  }

  /** What a line says; what it does depends on the scan state, in Step. */
  function Classify(line: string): Kind {
    var t := TrimSpace(line);
    if "pool:" <= t then PoolLine(TrimSpace(t[5..]))
    else if t == "config:" then ConfigLine
    else if "errors:" <= t then ErrorsLine
    else if t == "" then BlankLine
    else if "NAME" <= t && Contains(t, "STATE") then HeaderLine
    else if RoleHeading(t).Some? then RoleLine(RoleHeading(t).value)
    else ClassifyFields(Fields(t))
  }

  function ClassifyFields(f: seq<string>): Kind {
    if |f| < 5 || !IsState(f[1]) then OtherLine
    else
      var read, write, checksum := ParseUint(f[2]), ParseUint(f[3]), ParseUint(f[4]);
      if read.None? || write.None? || checksum.None? then BadCounters
      else VdevLine(f, ErrorCounters(read.value, write.value, checksum.value))
  }

  /** Indentation in columns; a tab counts for eight. */
  function LeadingWidth(s: string): nat {
    if s != "" && s[0] == ' ' then 1 + LeadingWidth(s[1..])
    else if s != "" && s[0] == '\t' then 8 + LeadingWidth(s[1..])
    else 0
  }

  function MakeRow(pool: string, role: string, f: seq<string>, errors: ErrorCounters, depth: nat, withUPath: bool): Row
    requires |f| >= 5
  {
    var name := f[0];
    var guid := if withUPath then name else "";
    var path := if !withUPath then name else if |f| >= 6 then f[|f| - 1] else "";
    Row(Leaf(pool, guid, name, path, role, f[1], errors, depth), name == pool)
  }

  // ----- The scan -----

  datatype State = State(pool: string, role: string, inConfig: bool, headerSeen: bool,
                         rows: seq<Row>, all: seq<Leaf>)

  const INITIAL := State("", "data", false, false, [], [])

  /** The last element of a slash-separated path, as filepath.Base gives it. */
  function BaseName(path: string): string {
    if path == "" then "."
    else
      var p := DropSlashes(path);
      if p == "" then "/" else AfterSlash(p)
  }

  function DropSlashes(p: string): string {
    if p != "" && p[|p| - 1] == '/' then DropSlashes(p[..|p| - 1]) else p
  }

  function AfterSlash(p: string): string {
    if p == "" || p[|p| - 1] == '/' then "" else AfterSlash(p[..|p| - 1]) + [p[|p| - 1]]
  }

  /** The leaf reported for a row: "-" is no path, and a missing name is taken from the path. */
  function Reported(leaf: Leaf): Leaf {
    var l := if leaf.path == "-" then leaf.(path := "") else leaf;
    if l.name == "" then l.(name := BaseName(l.path)) else l
  }

  /** The rows that are neither the pool itself nor followed by a deeper row. */
  function Flush(rows: seq<Row>): seq<Leaf> {
    if rows == [] then []
    else
      var keep := !rows[0].isRoot && !(|rows| > 1 && rows[1].leaf.depth > rows[0].leaf.depth);
      (if keep then [Reported(rows[0].leaf)] else []) + Flush(rows[1..])
  }

  /** Looking one row ahead, seen from any row of a sequence. */
  lemma FlushFrom(rows: seq<Row>, i: nat)
    requires i <= |rows|
    ensures i == |rows| ==> Flush(rows[i..]) == []
    ensures i < |rows| ==>
              var keep := !rows[i].isRoot && !(i + 1 < |rows| && rows[i + 1].leaf.depth > rows[i].leaf.depth);
              Flush(rows[i..]) == (if keep then [Reported(rows[i].leaf)] else []) + Flush(rows[i + 1..])
  {
  }

  function Flushed(st: State): State {
    st.(rows := [], all := st.all + Flush(st.rows))
  }

  function Step(st: State, line: string, withUPath: bool): Result<State> {
    match Classify(line)
    case PoolLine(name) => Ok(Flushed(st).(pool := name, role := "data", inConfig := false, headerSeen := false))
    case ConfigLine => Ok(st.(inConfig := true))
    case ErrorsLine => Ok(Flushed(st).(inConfig := false))
    case BlankLine => Ok(st)
    case HeaderLine => Ok(if st.inConfig then st.(headerSeen := true) else st)
    case RoleLine(role) => Ok(if st.inConfig && st.headerSeen then st.(role := role) else st)
    case OtherLine => Ok(st)
    case BadCounters => if st.inConfig && st.headerSeen then Err(Malformed) else Ok(st)
    case VdevLine(f, errors) =>
      VdevHasFields(line);
      if st.inConfig && st.headerSeen
      then Ok(st.(rows := st.rows + [MakeRow(st.pool, st.role, f, errors, LeadingWidth(line), withUPath)]))
      else Ok(st)
  }

  lemma VdevHasFields(line: string)
    requires Classify(line).VdevLine?
    ensures |Classify(line).fields| >= 5
  {
  }

  /** All lines in order; an over-long line or bad counters end the parse. */
  function Scan(st: State, lines: seq<string>, withUPath: bool): Result<State>
    decreases lines
  {
    if lines == [] then Ok(st)
    else if |lines[0]| >= MAX_LINE then Err(Malformed)
    else
      match Step(st, StripCR(lines[0]), withUPath)
      case Err(code) => Err(code)
      case Ok(next) => Scan(next, lines[1..], withUPath)
  }

  predicate NoPools(text: string) {
    Contains(ToLower(text), "no pools available")
  }

  function Conclude(st: State, text: string): Result<seq<Leaf>> {
    if st.pool == "" && TrimSpace(text) != "" && !NoPools(text) then Err(Malformed)
    else Ok(Flushed(st).all)
  }

  /** What ParseStatus computes. */
  function Parse(text: string, withUPath: bool): Result<seq<Leaf>> {
    match Scan(INITIAL, Lines(text), withUPath)
    case Err(code) => Err(code)
    case Ok(st) => Conclude(st, text)
  }

  // ----- The parser as it runs -----

  method LeadingColumns(line: string) returns (width: nat)
    ensures width == LeadingWidth(line)
  {
    width := 0;
    var i := 0;
    assert line[0..] == line;
    while i < |line|
      invariant 0 <= i <= |line|
      invariant width + LeadingWidth(line[i..]) == LeadingWidth(line)
    {
      assert line[i..][1..] == line[i + 1..];
      if line[i] == ' ' {
        width := width + 1;
      } else if line[i] == '\t' {
        width := width + 8;
      } else {
        return;
      }
      i := i + 1;
    }
  }

  method FlushRows(rows: seq<Row>, all: seq<Leaf>) returns (grown: seq<Leaf>)
    ensures grown == all + Flush(rows)
  {
    hide Flush, BaseName;
    grown := all;
    var i := 0;
    FlushFrom(rows, |rows|);
    assert rows[0..] == rows;
    while i < |rows|
      invariant 0 <= i <= |rows|
      invariant grown + Flush(rows[i..]) == all + Flush(rows)
    {
      FlushFrom(rows, i);
      ghost var before := grown;
      if !rows[i].isRoot && !(i + 1 < |rows| && rows[i + 1].leaf.depth > rows[i].leaf.depth) {
        var leaf := rows[i].leaf;
        if leaf.path == "-" { leaf := leaf.(path := ""); }
        if leaf.name == "" { leaf := leaf.(name := BaseName(leaf.path)); }
        grown := grown + [leaf];
        assert before + ([leaf] + Flush(rows[i + 1..])) == grown + Flush(rows[i + 1..]);
      } else {
        assert [] + Flush(rows[i + 1..]) == Flush(rows[i + 1..]);
      }
      i := i + 1;
    }
  }

  method ParseStatus(text: string, withUPath: bool) returns (result: Result<seq<Leaf>>)
    ensures result == Parse(text, withUPath)
  {
    hide Classify, TrimSpace, Fields, LeadingWidth, Flush, NoPools, StripCR, ParseUint;
    var all: seq<Leaf>, rows: seq<Row> := [], [];
    var pool, role := "", "data";
    var inConfig, headerSeen := false, false;
    var rest := text;
    while rest != ""
      invariant Scan(INITIAL, Lines(text), withUPath)
             == Scan(State(pool, role, inConfig, headerSeen, rows, all), Lines(rest), withUPath)
      decreases |rest|
    {
      var n := LineLength(rest);
      var raw := rest[..n];
      assert Lines(rest)[0] == raw;
      assert Lines(rest)[1..] == if n == |rest| then [] else Lines(rest[n + 1..]);
      rest := if n == |rest| then "" else rest[n + 1..];
      if |raw| >= MAX_LINE { return Err(Malformed); }
      var failed;
      pool, role, inConfig, headerSeen, rows, all, failed :=
        ParseLine(StripCR(raw), withUPath, pool, role, inConfig, headerSeen, rows, all);
      if failed { return Err(Malformed); }
    }
    all := FlushRows(rows, all);
    if pool == "" && TrimSpace(text) != "" && !NoPools(text) {
      return Err(Malformed);
    }
    return Ok(all);
  }

  /** The body of the scanning loop, with the loop's variables. */
  method ParseLine(line: string, withUPath: bool, pool: string, role: string, inConfig: bool, headerSeen: bool,
                   rows: seq<Row>, all: seq<Leaf>)
      returns (pool': string, role': string, inConfig': bool, headerSeen': bool,
               rows': seq<Row>, all': seq<Leaf>, failed: bool)
    ensures Step(State(pool, role, inConfig, headerSeen, rows, all), line, withUPath)
         == if failed then Err(Malformed) else Ok(State(pool', role', inConfig', headerSeen', rows', all'))
  {
    hide TrimSpace, Fields, LeadingWidth, Flush, Contains, ParseUint;
    pool', role', inConfig', headerSeen', rows', all', failed := pool, role, inConfig, headerSeen, rows, all, false;
    var trimmed := TrimSpace(line);
    if "pool:" <= trimmed {
      all' := FlushRows(rows, all);
      pool' := TrimSpace(trimmed[5..]);
      role', inConfig', headerSeen', rows' := "data", false, false, [];
      return;
    }
    if trimmed == "config:" {
      inConfig' := true;
      return;
    }
    if "errors:" <= trimmed {
      all' := FlushRows(rows, all);
      inConfig', rows' := false, [];
      return;
    }
    if !inConfig || trimmed == "" { return; }
    if "NAME" <= trimmed && Contains(trimmed, "STATE") {
      headerSeen' := true;
      return;
    }
    if !headerSeen { return; }
    var mapped := RoleHeading(trimmed);
    if mapped.Some? {
      role' := mapped.value;
      return;
    }
    var fields := Fields(trimmed);
    if |fields| < 5 || !IsState(fields[1]) { return; }
    var readErrors, writeErrors, checksumErrors := ParseUint(fields[2]), ParseUint(fields[3]), ParseUint(fields[4]);
    if readErrors.None? || writeErrors.None? || checksumErrors.None? {
      failed := true;
      return;
    }
    var name, path, guid := fields[0], "", "";
    if withUPath {
      guid := name;
      if |fields| >= 6 { path := fields[|fields| - 1]; }
    } else {
      path := name;
    }
    var depth := LeadingColumns(line);
    rows' := rows + [Row(Leaf(pool, guid, name, path, role, fields[1],
                              ErrorCounters(readErrors.value, writeErrors.value, checksumErrors.value), depth),
                         name == pool)];
  }
}
