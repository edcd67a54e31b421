/** Printing any list of pools the way zpool does and parsing the text gives back exactly
    the leaves of the vdev trees, in order, with everything said about them. */
module RoundTrip {
  import opened Types
  import opened Text
  import opened Status
  import opened StatusLaws

  // ----- Topologies and how they are printed -----

  /** One vdev as printed: the first column, state and counters, any further words such as an
      annotation and the upath column, the white space between all of them, and how much deeper
      its children are indented. */
  datatype Node = Node(name: string, state: string, read: nat, write: nat, checksum: nat,
                       extras: seq<string>, gaps: seq<string>, step: nat)

  /** A row of sibling vdevs with their subtrees, of any depth and width. */
  datatype Forest = Empty | Tree(node: Node, children: Forest, siblings: Forest)

  /** A role section: its heading, lines without counters such as those of spares, and its
      devices, indented by top beyond the margin. */
  datatype Section = Section(heading: string, remarks: seq<string>, top: nat, devices: Forest)

  /** One pool block. The lines before "config:" and after the errors line are arbitrary text. */
  datatype Pool = Pool(name: string, preamble: seq<string>, header: string, margin: string,
                       root: Node, top: nat, data: Forest, sections: seq<Section>,
                       errors: string, epilogue: seq<string>)

  function Spaces(n: nat): string {
    seq(n, _ => ' ')
  }

  predicate Gap(s: string) {
    forall i | 0 <= i < |s| :: s[i] == ' ' || s[i] == '\t'
  }

  function Cells(n: Node): seq<string> {
    [n.name, n.state, Decimal(n.read), Decimal(n.write), Decimal(n.checksum)] + n.extras
  }

  function Joined(cells: seq<string>, gaps: seq<string>): string
    requires |cells| > 0 && |gaps| == |cells| - 1
  {
    if |cells| == 1 then cells[0] else cells[0] + (gaps[0] + Joined(cells[1..], gaps[1..]))
  }

  /** The parser takes a row for the header if it starts with NAME and has STATE in it, which
      only the name or a word after the counters can bring in. */
  predicate LooksLikeHeader(n: Node) {
    "NAME" <= n.name
    && (Contains(n.name, "STATE") || exists i | 0 <= i < |n.extras| :: Contains(n.extras[i], "STATE"))
  }

  predicate PrintableNode(n: Node) {
    && Word(n.name) && !("pool:" <= n.name) && !("errors:" <= n.name)
    && IsState(n.state)
    && n.read < UINT64_LIMIT && n.write < UINT64_LIMIT && n.checksum < UINT64_LIMIT
    && (forall i | 0 <= i < |n.extras| :: Word(n.extras[i]))
    && |n.gaps| == |Cells(n)| - 1
    && (forall i | 0 <= i < |n.gaps| :: n.gaps[i] != "" && Gap(n.gaps[i]))
    && !LooksLikeHeader(n)
    && n.step > 0
  }

  predicate Printable(f: Forest) {
    match f
    case Empty => true
    case Tree(n, children, siblings) =>
      PrintableNode(n) && Printable(children) && Printable(siblings)
  }

  function RowText(indent: string, n: Node): string
    requires |n.gaps| == |Cells(n)| - 1
  {
    indent + Joined(Cells(n), n.gaps)
  }

  function ForestLines(f: Forest, margin: string, d: nat): seq<string>
    requires Printable(f)
  {
    match f
    case Empty => []
    case Tree(n, children, siblings) =>
      [RowText(margin + Spaces(d), n)] + ForestLines(children, margin, d + n.step) + ForestLines(siblings, margin, d)
  }

  function SectionLines(s: seq<Section>, margin: string): seq<string>
    requires forall i | 0 <= i < |s| :: Printable(s[i].devices)
  {
    if s == [] then []
    else [margin + s[0].heading] + s[0].remarks + ForestLines(s[0].devices, margin, s[0].top)
         + SectionLines(s[1..], margin)
  }

  /** No section is indented deeper than the one before it, nor than top. */
  predicate Descending(s: seq<Section>, top: nat) {
    (s != [] ==> s[0].top <= top) && forall i | 0 < i < |s| :: NoDeeper(s, i)
  }

  predicate NoDeeper(s: seq<Section>, i: nat)
    requires 0 < i < |s|
  {
    s[i].top <= s[i - 1].top
  }

  lemma DescendingTail(s: seq<Section>, top: nat)
    requires s != [] && Descending(s, top)
    ensures Descending(s[1..], s[0].top)
  {
    assert |s| > 1 ==> NoDeeper(s, 1);
    assert forall i | 0 < i < |s[1..]| :: NoDeeper(s[1..], i) == NoDeeper(s, i + 1);
  }

  /** A line that does not open or close a config section. */
  predicate Prose(line: string) {
    var kind := Classify(StripCR(line));
    !kind.PoolLine? && !kind.ConfigLine? && !kind.ErrorsLine?
  }

  /** A line that shows no vdev with counters, like that of a spare. */
  predicate Remark(line: string) {
    var kind := Classify(StripCR(line));
    kind.OtherLine? || kind.BlankLine? || kind.BadCounters?
  }

  predicate Remarks(lines: seq<string>) {
    forall i | 0 <= i < |lines| :: Remark(lines[i]) && OneLine(lines[i])
  }

  /** No line looks like a vdev with counters that are no numbers. */
  predicate CleanLines(lines: seq<string>) {
    forall i | 0 <= i < |lines| :: !Classify(StripCR(lines[i])).BadCounters?
  }

  predicate CleanSections(s: seq<Section>) {
    forall i | 0 <= i < |s| :: CleanLines(s[i].remarks)
  }

  predicate CleanPools(pools: seq<Pool>) {
    forall i | 0 <= i < |pools| :: CleanSections(pools[i].sections)
  }

  predicate GoodSections(s: seq<Section>) {
    forall i | 0 <= i < |s| ::
      RoleHeading(s[i].heading).Some? && Remarks(s[i].remarks) && Printable(s[i].devices)
  }

  predicate PrintablePool(p: Pool) {
    && Word(p.name) && PrintableNode(p.root) && p.root.name == p.name
    && Gap(p.margin)
    && Classify(StripCR(p.header)).HeaderLine? && OneLine(p.header)
    && (forall i | 0 <= i < |p.preamble| :: Prose(p.preamble[i]) && OneLine(p.preamble[i]))
    && (forall i | 0 <= i < |p.epilogue| :: Prose(p.epilogue[i]) && OneLine(p.epilogue[i]))
    && Classify(StripCR(p.errors)).ErrorsLine? && OneLine(p.errors)
    && Printable(p.data) && GoodSections(p.sections) && Descending(p.sections, p.top)
  }

  function Opening(p: Pool): seq<string> {
    ["  pool: " + p.name] + p.preamble + ["config:", "", p.header]
  }

  function Closing(p: Pool): seq<string> {
    ["", p.errors] + p.epilogue
  }

  function ConfigLines(p: Pool): seq<string>
    requires PrintablePool(p)
  {
    [RowText(p.margin, p.root)] + ForestLines(p.data, p.margin, p.top)
    + SectionLines(p.sections, p.margin)
  }

  function PoolLines(p: Pool): seq<string>
    requires PrintablePool(p)
  {
    Opening(p) + ConfigLines(p) + Closing(p)
  }

  function AllLines(pools: seq<Pool>): seq<string>
    requires forall i | 0 <= i < |pools| :: PrintablePool(pools[i])
  {
    if pools == [] then [] else PoolLines(pools[0]) + AllLines(pools[1..])
  }

  // ----- The leaves of a topology -----

  /** What the parser should report for a leaf node. With a upath column, the path is the last
      word of the row, if there is one after the counters. */
  function LeafOf(n: Node, pool: string, role: string, depth: nat, withUPath: bool): Leaf {
    var path := if !withUPath then n.name else if n.extras == [] then "" else n.extras[|n.extras| - 1];
    Leaf(pool, if withUPath then n.name else "", n.name, if path == "-" then "" else path, role,
         n.state, ErrorCounters(n.read, n.write, n.checksum), depth)
  }

  /** The childless nodes in preorder. A vdev printed under the pool's own name cannot be told
      from the pool row and is not reported. */
  function ForestLeaves(f: Forest, pool: string, role: string, depth: nat, withUPath: bool): seq<Leaf> {
    match f
    case Empty => []
    case Tree(n, children, siblings) =>
      (if children.Empty? then (if n.name == pool then [] else [LeafOf(n, pool, role, depth, withUPath)])
       else ForestLeaves(children, pool, role, depth + n.step, withUPath))
      + ForestLeaves(siblings, pool, role, depth, withUPath)
  }

  function SectionLeaves(s: seq<Section>, pool: string, width: nat, withUPath: bool): seq<Leaf>
    requires forall i | 0 <= i < |s| :: RoleHeading(s[i].heading).Some?
  {
    if s == [] then []
    else ForestLeaves(s[0].devices, pool, RoleHeading(s[0].heading).value, width + s[0].top, withUPath)
         + SectionLeaves(s[1..], pool, width, withUPath)
  }

  function PoolLeaves(p: Pool, withUPath: bool): seq<Leaf>
    requires PrintablePool(p)
  {
    var width := LeadingWidth(p.margin);
    ForestLeaves(p.data, p.name, "data", width + p.top, withUPath) + SectionLeaves(p.sections, p.name, width, withUPath)
  }

  function AllLeaves(pools: seq<Pool>, withUPath: bool): seq<Leaf>
    requires forall i | 0 <= i < |pools| :: PrintablePool(pools[i])
  {
    if pools == [] then [] else PoolLeaves(pools[0], withUPath) + AllLeaves(pools[1..], withUPath)
  }

  // ----- One printed row -----

  lemma GapIsBlank(s: string)
    requires Gap(s)
    ensures Blank(s) && OneLine(s)
  {
  }

  predicate GoodCells(cells: seq<string>, gaps: seq<string>) {
    && |cells| > 0 && |gaps| == |cells| - 1
    && (forall i | 0 <= i < |cells| :: Word(cells[i]))
    && (forall i | 0 <= i < |gaps| :: gaps[i] != "" && Gap(gaps[i]))
  }

  lemma StateIsWord(s: string)
    requires IsState(s)
    ensures Word(s)
  {
  }

  lemma CellsGood(n: Node)
    requires PrintableNode(n)
    ensures GoodCells(Cells(n), n.gaps)
  {
    hide Decimal;
    StateIsWord(n.state);
    DecimalRoundTrip(n.read);
    DecimalRoundTrip(n.write);
    DecimalRoundTrip(n.checksum);
  }

  lemma {:induction false} JoinedShape(cells: seq<string>, gaps: seq<string>)
    requires GoodCells(cells, gaps)
    ensures var t := Joined(cells, gaps);
            t != "" && !IsSpace(t[0]) && !IsSpace(t[|t| - 1]) && OneLine(t)
    decreases |cells|
  {
    assert Word(cells[0]);
    if |cells| > 1 {
      GapIsBlank(gaps[0]);
      JoinedShape(cells[1..], gaps[1..]);
    }
  }

  lemma {:induction false} FieldsOfJoined(cells: seq<string>, gaps: seq<string>)
    requires GoodCells(cells, gaps)
    ensures Fields(Joined(cells, gaps)) == cells
    decreases |cells|
  {
    hide Fields, Gap, Blank, IsSpace;
    if |cells| == 1 {
      FieldsTakeWord(cells[0], "");
      assert cells[0] + "" == cells[0];
      FieldsEmpty();
    } else {
      var rest := Joined(cells[1..], gaps[1..]);
      GapIsBlank(gaps[0]);
      FieldsOfJoined(cells[1..], gaps[1..]);
      FieldsSkipBlank(gaps[0], rest);
      FieldsTakeWord(cells[0], gaps[0] + rest);
    }
  }

  lemma JoinedStart(n: Node)
    requires PrintableNode(n)
    ensures var t := Joined(Cells(n), n.gaps);
            n.name <= t && |t| > |n.name| && IsSpace(t[|n.name|])
  {
  }

  /** A word that occurs in a row occurs in one of its cells. */
  lemma {:induction false} OccursInCell(cells: seq<string>, gaps: seq<string>, word: string)
    requires GoodCells(cells, gaps) && Word(word) && Contains(Joined(cells, gaps), word)
    ensures exists i | 0 <= i < |cells| :: Contains(cells[i], word)
    decreases |cells|
  {
    if |cells| > 1 {
      var rest := Joined(cells[1..], gaps[1..]);
      GapIsBlank(gaps[0]);
      OccursInPart(cells[0], gaps[0], rest, word);
      if Contains(rest, word) {
        OccursInCell(cells[1..], gaps[1..], word);
        var i :| 0 <= i < |cells[1..]| && Contains(cells[1..][i], word);
        assert cells[i + 1] == cells[1..][i];
      }
    }
  }

  lemma OccursInPart(a: string, gap: string, b: string, word: string)
    requires Blank(gap) && gap != "" && Word(word) && Contains(a + (gap + b), word)
    ensures Contains(a, word) || Contains(b, word)
  {
    var t := a + (gap + b);
    var i :| 0 <= i <= |t| && OccursAt(t, i, word);
    assert forall k | i <= k < i + |word| :: t[k] == t[i..i + |word|][k - i];
    assert forall k | i <= k < i + |word| :: !IsSpace(t[k]);
    assert forall k | |a| <= k < |a| + |gap| :: IsSpace(t[k]);
    assert IsSpace(t[|a|]) && !IsSpace(t[i]);
    assert i + |word| <= |a| || i >= |a| + |gap|;
    if i + |word| <= |a| {
      assert a[i..i + |word|] == t[i..i + |word|];
      assert OccursAt(a, i, word);
    } else {
      var j := i - |a| - |gap|;
      assert t[|a| + |gap|..] == b;
      assert b[j..j + |word|] == t[i..i + |word|];
      assert OccursAt(b, j, word);
    }
  }

  lemma NoStateInState(s: string)
    requires IsState(s) || Digits(s)
    ensures !Contains(s, "STATE")
  {
    forall i: nat ensures !OccursAt(s, i, "STATE") {
      if i + 5 <= |s| {
        assert s[i..i + 5][0] == s[i];
        assert s[i] != 'S';
        assert "STATE"[0] == 'S';
      }
    }
  }

  lemma HeaderWords(n: Node)
    requires PrintableNode(n) && "NAME" <= n.name
    ensures !Contains(Joined(Cells(n), n.gaps), "STATE")
  {
    hide Joined, Contains, Decimal, IsState, Gap;
    CellsGood(n);
    SpecialWords();
    NoStateInState(n.state);
    DecimalRoundTrip(n.read);
    DecimalRoundTrip(n.write);
    DecimalRoundTrip(n.checksum);
    NoStateInState(Decimal(n.read));
    NoStateInState(Decimal(n.write));
    NoStateInState(Decimal(n.checksum));
    forall i | 0 <= i < |Cells(n)| ensures !Contains(Cells(n)[i], "STATE") {
      if i >= 5 { assert Cells(n)[i] == n.extras[i - 5]; }
    }
    if Contains(Joined(Cells(n), n.gaps), "STATE") {
      OccursInCell(Cells(n), n.gaps, "STATE");
    }
  }

  /** A row is none of the special lines, whatever its name is made of. */
  lemma RowIsNothingElse(n: Node)
    requires PrintableNode(n)
    ensures var t := Joined(Cells(n), n.gaps);
            && !("pool:" <= t) && t != "config:" && !("errors:" <= t)
            && !("NAME" <= t && Contains(t, "STATE")) && RoleHeading(t).None?
  {
    JoinedStart(n);
    var t := Joined(Cells(n), n.gaps);
    if "NAME" <= n.name { HeaderWords(n); }
    hide Joined, Cells, Word, Contains;
    SpecialWords();
  }

  lemma SpecialWords()
    ensures Word("pool:") && Word("errors:") && Word("NAME") && Word("config:") && Word("STATE")
    ensures Word("logs") && Word("cache") && Word("spares") && Word("special") && Word("dedup")
  {
  }

  lemma {:induction false} WidthOf(indent: string, body: string)
    requires Gap(indent) && (body == "" || !IsSpace(body[0]))
    ensures LeadingWidth(indent + body) == LeadingWidth(indent)
  {
    if indent == "" {
      assert indent + body == body;
    } else {
      assert (indent + body)[1..] == indent[1..] + body;
      WidthOf(indent[1..], body);
    }
  }

  lemma {:induction false} WidthOfSpaces(margin: string, d: nat)
    requires Gap(margin)
    ensures LeadingWidth(margin + Spaces(d)) == LeadingWidth(margin) + d
    ensures Gap(margin + Spaces(d))
    decreases |margin| + d
  {
    if margin != "" {
      assert (margin + Spaces(d))[1..] == margin[1..] + Spaces(d);
      WidthOfSpaces(margin[1..], d);
    } else if d > 0 {
      assert margin + Spaces(d) == Spaces(d);
      assert Spaces(d)[1..] == Spaces(d - 1) == "" + Spaces(d - 1);
      WidthOfSpaces("", d - 1);
    } else {
      assert margin + Spaces(d) == "";
    }
  }

  /** A printed row is read back as a row, column by column. */
  lemma RowReadBack(indent: string, n: Node)
    requires Gap(indent) && PrintableNode(n)
    ensures var line := RowText(indent, n);
            && OneLine(line) && StripCR(line) == line
            && LeadingWidth(line) == LeadingWidth(indent)
            && Classify(line) == VdevLine(Cells(n), ErrorCounters(n.read, n.write, n.checksum))
  {
    hide StripCR, Classify, Fields, TrimSpace, LeadingWidth, Joined, Decimal, Contains;
    var t := Joined(Cells(n), n.gaps);
    CellsGood(n);
    JoinedShape(Cells(n), n.gaps);
    FieldsOfJoined(Cells(n), n.gaps);
    GapIsBlank(indent);
    TrimBlank(indent, t);
    WidthOf(indent, t);
    RowIsNothingElse(n);
    ClassifyRow(indent + t, t, n);
    assert (indent + t)[|indent + t| - 1] == t[|t| - 1];
    NothingToStrip(indent + t);
  }

  lemma NothingToStrip(s: string)
    requires s == "" || !IsSpace(s[|s| - 1])
    ensures StripCR(s) == s
  {
  }

  lemma ClassifyRow(line: string, t: string, n: Node)
    requires TrimSpace(line) == t && t != "" && PrintableNode(n) && Fields(t) == Cells(n)
    requires !("pool:" <= t) && t != "config:" && !("errors:" <= t)
    requires !("NAME" <= t && Contains(t, "STATE")) && RoleHeading(t).None?
    ensures Classify(line) == VdevLine(Cells(n), ErrorCounters(n.read, n.write, n.checksum))
  {
    hide TrimSpace, Fields, Decimal, RoleHeading, Contains, Word, Gap;
    DecimalRoundTrip(n.read);
    DecimalRoundTrip(n.write);
    DecimalRoundTrip(n.checksum);
  }

  // ----- Printed trees -----

  function NodeRow(n: Node, pool: string, role: string, depth: nat, withUPath: bool): Row {
    MakeRow(pool, role, Cells(n), ErrorCounters(n.read, n.write, n.checksum), depth, withUPath)
  }

  function ForestRows(f: Forest, pool: string, role: string, depth: nat, withUPath: bool): seq<Row> {
    match f
    case Empty => []
    case Tree(n, children, siblings) =>
      [NodeRow(n, pool, role, depth, withUPath)]
      + ForestRows(children, pool, role, depth + n.step, withUPath)
      + ForestRows(siblings, pool, role, depth, withUPath)
  }

  predicate Short(lines: seq<string>) {
    forall i | 0 <= i < |lines| :: |lines[i]| < MAX_LINE
  }

  predicate Open(st: State) {
    st.inConfig && st.headerSeen
  }

  lemma ScanOne(st: State, line: string, withUPath: bool)
    requires |line| < MAX_LINE
    ensures Scan(st, [line], withUPath) == Step(st, StripCR(line), withUPath)
  {
  }

  lemma ScanRow(st: State, margin: string, d: nat, n: Node, withUPath: bool)
    requires Open(st) && Gap(margin) && PrintableNode(n) && |RowText(margin + Spaces(d), n)| < MAX_LINE
    ensures Scan(st, [RowText(margin + Spaces(d), n)], withUPath) ==
            Ok(st.(rows := st.rows + [NodeRow(n, st.pool, st.role, LeadingWidth(margin) + d, withUPath)]))
  {
    hide Classify, StripCR, LeadingWidth, RowText, MakeRow, Cells, Gap;
    WidthOfSpaces(margin, d);
    RowReadBack(margin + Spaces(d), n);
    ScanOne(st, RowText(margin + Spaces(d), n), withUPath);
  }

  lemma ShortParts(a: seq<string>, b: seq<string>)
    requires Short(a + b)
    ensures Short(a) && Short(b)
  {
    forall i | 0 <= i < |a| ensures |a[i]| < MAX_LINE { assert (a + b)[i] == a[i]; }
    forall i | 0 <= i < |b| ensures |b[i]| < MAX_LINE { assert (a + b)[|a| + i] == b[i]; }
  }

  /** Scanning in two parts when the first one goes well. */
  lemma ScanThen(st: State, a: seq<string>, mid: State, b: seq<string>, withUPath: bool)
    requires Scan(st, a, withUPath) == Ok(mid)
    ensures Scan(st, a + b, withUPath) == Scan(mid, b, withUPath)
  {
    ScanConcat(st, a, b, withUPath);
  }

  function WithRows(st: State, rows: seq<Row>): State {
    st.(rows := st.rows + rows)
  }

  lemma WithRowsTwice(st: State, a: seq<Row>, b: seq<Row>)
    ensures WithRows(WithRows(st, a), b) == WithRows(st, a + b)
  {
  }

  /** Scanning a printed forest appends its rows in preorder. */
  lemma {:induction false} ScanForest(st: State, f: Forest, margin: string, d: nat, withUPath: bool)
    requires Open(st) && Gap(margin) && Printable(f) && Short(ForestLines(f, margin, d))
    ensures Scan(st, ForestLines(f, margin, d), withUPath) ==
            Ok(WithRows(st, ForestRows(f, st.pool, st.role, LeadingWidth(margin) + d, withUPath)))
    decreases f
  {
    hide Scan, NodeRow, RowText, Gap, LeadingWidth, Spaces, Word, IsState, Cells;
    match f
    case Empty =>
      ScanNothing(st, withUPath);
    case Tree(n, children, siblings) =>
      var depth := LeadingWidth(margin) + d;
      var row := [RowText(margin + Spaces(d), n)];
      var below := ForestLines(children, margin, d + n.step);
      var beside := ForestLines(siblings, margin, d);
      ShortParts(row + below, beside);
      ShortParts(row, below);
      assert |row[0]| < MAX_LINE;
      ScanRow(st, margin, d, n, withUPath);
      var r1 := [NodeRow(n, st.pool, st.role, depth, withUPath)];
      var st1 := WithRows(st, r1);
      ScanForest(st1, children, margin, d + n.step, withUPath);
      var r2 := ForestRows(children, st.pool, st.role, depth + n.step, withUPath);
      WithRowsTwice(st, r1, r2);
      var st2 := WithRows(st, r1 + r2);
      ScanForest(st2, siblings, margin, d, withUPath);
      var r3 := ForestRows(siblings, st.pool, st.role, depth, withUPath);
      WithRowsTwice(st, r1 + r2, r3);
      ScanThen(st, row, st1, below, withUPath);
      ScanThen(st, row + below, st2, beside, withUPath);
  }

  lemma ScanNothing(st: State, withUPath: bool)
    ensures Scan(st, [], withUPath) == Ok(WithRows(st, []))
  {
    assert st.rows + [] == st.rows;
  }

  // ----- Flushing a tree -----

  predicate NotDeeper(rows: seq<Row>, depth: nat) {
    rows == [] || rows[0].leaf.depth <= depth
  }

  lemma NodeRowIsLeaf(n: Node, pool: string, role: string, depth: nat, withUPath: bool)
    requires PrintableNode(n)
    ensures var row := NodeRow(n, pool, role, depth, withUPath);
            && (row.isRoot <==> n.name == pool) && row.leaf.depth == depth
            && Reported(row.leaf) == LeafOf(n, pool, role, depth, withUPath)
  {
  }

  lemma ForestRowsHead(f: Forest, pool: string, role: string, depth: nat, withUPath: bool, rest: seq<Row>)
    requires NotDeeper(rest, depth)
    ensures NotDeeper(ForestRows(f, pool, role, depth, withUPath) + rest, depth)
    ensures f.Tree? ==>
              var rows := ForestRows(f, pool, role, depth, withUPath);
              rows != [] && rows[0].leaf.depth == depth
  {
  }

  lemma FlushCons(row: Row, rest: seq<Row>)
    ensures Flush([row] + rest) ==
            (if !row.isRoot && !(rest != [] && rest[0].leaf.depth > row.leaf.depth) then [Reported(row.leaf)] else [])
            + Flush(rest)
  {
  }

  /** One row of lookahead recovers exactly the leaves of the tree, in preorder, as long as
      what follows the tree is no deeper than the tree itself. */
  lemma {:induction false} FlushForest(f: Forest, pool: string, role: string, depth: nat, withUPath: bool,
                                       rest: seq<Row>)
    requires Printable(f) && NotDeeper(rest, depth)
    ensures Flush(ForestRows(f, pool, role, depth, withUPath) + rest) ==
            ForestLeaves(f, pool, role, depth, withUPath) + Flush(rest)
    decreases f
  {
    hide Flush, NodeRow, LeafOf, Reported, ForestRows, ForestLeaves;
    ForestUnfolds(f, pool, role, depth, withUPath);
    match f
    case Empty =>
      assert [] + rest == rest;
      assert [] + Flush(rest) == Flush(rest);
    case Tree(n, children, siblings) =>
      var row := NodeRow(n, pool, role, depth, withUPath);
      var below := ForestRows(children, pool, role, depth + n.step, withUPath);
      var beside := ForestRows(siblings, pool, role, depth, withUPath);
      var after := beside + rest;
      NodeRowIsLeaf(n, pool, role, depth, withUPath);
      ForestRowsHead(siblings, pool, role, depth, withUPath, rest);
      ForestRowsHead(children, pool, role, depth + n.step, withUPath, after);
      FlushForest(siblings, pool, role, depth, withUPath, rest);
      FlushForest(children, pool, role, depth + n.step, withUPath, after);
      FlushTreeShape(row, below, beside, rest);
      FlushCons(row, below + after);
      var l2 := ForestLeaves(siblings, pool, role, depth, withUPath);
      if children.Empty? {
        ForestUnfolds(children, pool, role, depth + n.step, withUPath);
        FlushLeafCase(row, below, after, l2, rest);
      } else {
        FlushInnerCase(row, below, after, ForestLeaves(children, pool, role, depth + n.step, withUPath), l2, rest);
      }
  }

  lemma ForestUnfolds(f: Forest, pool: string, role: string, depth: nat, withUPath: bool)
    ensures f.Empty? ==>
              ForestRows(f, pool, role, depth, withUPath) == [] && ForestLeaves(f, pool, role, depth, withUPath) == []
    ensures f.Tree? ==>
              && ForestRows(f, pool, role, depth, withUPath) ==
                 [NodeRow(f.node, pool, role, depth, withUPath)]
                 + ForestRows(f.children, pool, role, depth + f.node.step, withUPath)
                 + ForestRows(f.siblings, pool, role, depth, withUPath)
              && ForestLeaves(f, pool, role, depth, withUPath) ==
                 (if f.children.Tree? then ForestLeaves(f.children, pool, role, depth + f.node.step, withUPath)
                  else if f.node.name == pool then [] else [LeafOf(f.node, pool, role, depth, withUPath)])
                 + ForestLeaves(f.siblings, pool, role, depth, withUPath)
  {
    hide NodeRow, LeafOf;
  }

  lemma FlushTreeShape(row: Row, below: seq<Row>, beside: seq<Row>, rest: seq<Row>)
    ensures [row] + below + beside + rest == [row] + (below + (beside + rest))
  {
  }

  lemma FlushLeafCase(row: Row, below: seq<Row>, after: seq<Row>, l2: seq<Leaf>, rest: seq<Row>)
    requires below == [] && NotDeeper(after, row.leaf.depth)
    requires Flush(after) == l2 + Flush(rest)
    ensures Flush([row] + (below + after)) == (if row.isRoot then [] else [Reported(row.leaf)]) + l2 + Flush(rest)
  {
    hide Flush, Reported;
    assert below + after == after;
    FlushCons(row, after);
    var head := if row.isRoot then [] else [Reported(row.leaf)];
    assert head + (l2 + Flush(rest)) == head + l2 + Flush(rest);
  }

  lemma FlushInnerCase(row: Row, below: seq<Row>, after: seq<Row>, l1: seq<Leaf>, l2: seq<Leaf>, rest: seq<Row>)
    requires below != [] && below[0].leaf.depth > row.leaf.depth
    requires Flush(below + after) == l1 + Flush(after) && Flush(after) == l2 + Flush(rest)
    ensures Flush([row] + (below + after)) == l1 + l2 + Flush(rest)
  {
    hide Flush, Reported;
    FlushCons(row, below + after);
    assert (below + after)[0] == below[0];
    assert l1 + (l2 + Flush(rest)) == l1 + l2 + Flush(rest);
  }

  // ----- Printed pools -----

  lemma {:induction false} ScanProse(st: State, lines: seq<string>, withUPath: bool)
    requires !st.inConfig && Short(lines) && forall i | 0 <= i < |lines| :: Prose(lines[i])
    ensures Scan(st, lines, withUPath) == Ok(st)
    decreases lines
  {
    if lines != [] {
      hide Classify, StripCR;
      assert Prose(lines[0]);
      ScanProse(st, lines[1..], withUPath);
    }
  }

  lemma PoolLineReadBack(name: string)
    requires Word(name)
    ensures var line := "  pool: " + name;
            StripCR(line) == line && Classify(line) == PoolLine(name) && OneLine(line)
  {
    hide TrimSpace, StripCR, Fields, Contains, RoleHeading;
    var line := "  pool: " + name;
    var t := "pool: " + name;
    assert line == "  " + t;
    assert t[|t| - 1] == name[|name| - 1];
    TrimBlank("  ", t);
    assert t[5..] == " " + name;
    TrimBlank(" ", name);
    NothingToStrip(line);
  }

  lemma ConfigReadBack()
    ensures StripCR("config:") == "config:" && Classify("config:") == ConfigLine
  {
  }

  lemma BlankReadBack()
    ensures StripCR("") == "" && Classify("") == BlankLine
  {
  }

  lemma HeadingIsPlain(h: string)
    requires RoleHeading(h).Some?
    ensures h != "" && !IsSpace(h[0]) && !IsSpace(h[|h| - 1]) && OneLine(h)
    ensures !("pool:" <= h) && h != "config:" && !("errors:" <= h) && !("NAME" <= h)
  {
  }

  lemma HeadingReadBack(margin: string, heading: string)
    requires Gap(margin) && RoleHeading(heading).Some?
    ensures var line := margin + heading;
            StripCR(line) == line && Classify(line) == RoleLine(RoleHeading(heading).value) && OneLine(line)
  {
    hide TrimSpace, RoleHeading, StripCR, Fields, Contains, Gap;
    GapIsBlank(margin);
    HeadingIsPlain(heading);
    TrimBlank(margin, heading);
    var line := margin + heading;
    assert line[|line| - 1] == heading[|heading| - 1];
    NothingToStrip(line);
  }

  lemma HeaderText(gap: string, columns: string)
    ensures var t := "NAME" + (gap + ("STATE" + columns));
            && "NAME" <= t && Contains(t, "STATE")
            && t[0] == 'N' && t[|t| - 1] == if columns == "" then 'E' else columns[|columns| - 1]
  {
    var inner := "STATE" + columns;
    assert OccursAt(inner, 0, "STATE");
    ContainsPrefixed(gap, inner, "STATE");
    ContainsPrefixed("NAME", gap + inner, "STATE");
    assert (gap + inner)[|gap + inner| - 1] == inner[|inner| - 1];
  }

  /** The header row zpool prints is recognised, whatever columns follow STATE. */
  lemma HeaderReadBack(margin: string, gap: string, columns: string)
    requires Gap(margin) && (columns == "" || !IsSpace(columns[|columns| - 1]))
    ensures Classify(StripCR(margin + ("NAME" + (gap + ("STATE" + columns))))).HeaderLine?
  {
    HeaderText(gap, columns);
    HeaderOf(margin, "NAME" + (gap + ("STATE" + columns)));
  }

  lemma HeaderOf(margin: string, t: string)
    requires Gap(margin) && t != "" && t[0] == 'N' && !IsSpace(t[|t| - 1])
    requires "NAME" <= t && Contains(t, "STATE")
    ensures Classify(StripCR(margin + t)).HeaderLine?
  {
    hide Contains, StripCR, TrimSpace;
    GapIsBlank(margin);
    TrimBlank(margin, t);
    assert (margin + t)[|margin + t| - 1] == t[|t| - 1];
    NothingToStrip(margin + t);
  }

  function SectionRows(s: seq<Section>, pool: string, width: nat, withUPath: bool): seq<Row>
    requires forall i | 0 <= i < |s| :: RoleHeading(s[i].heading).Some?
  {
    if s == [] then []
    else ForestRows(s[0].devices, pool, RoleHeading(s[0].heading).value, width + s[0].top, withUPath)
         + SectionRows(s[1..], pool, width, withUPath)
  }

  function LastRole(role: string, s: seq<Section>): string
    requires forall i | 0 <= i < |s| :: RoleHeading(s[i].heading).Some?
    decreases s
  {
    if s == [] then role else LastRole(RoleHeading(s[0].heading).value, s[1..])
  }

  lemma ScanHeading(st: State, margin: string, heading: string, withUPath: bool)
    requires Open(st) && Gap(margin) && RoleHeading(heading).Some? && |margin + heading| < MAX_LINE
    ensures Scan(st, [margin + heading], withUPath) == Ok(st.(role := RoleHeading(heading).value))
  {
    hide Classify, StripCR, RoleHeading;
    HeadingReadBack(margin, heading);
    ScanOne(st, margin + heading, withUPath);
  }

  lemma ScanThenFails(st: State, a: seq<string>, b: seq<string>, withUPath: bool)
    requires Scan(st, a, withUPath) == Err(Malformed)
    ensures Scan(st, a + b, withUPath) == Err(Malformed)
  {
    ScanConcat(st, a, b, withUPath);
  }

  /** Inside an open config section, remarks are passed over unless one has bad counters. */
  lemma {:induction false} ScanRemarks(st: State, lines: seq<string>, withUPath: bool)
    requires Open(st) && Remarks(lines) && Short(lines)
    ensures Scan(st, lines, withUPath) == if CleanLines(lines) then Ok(st) else Err(Malformed)
    decreases lines
  {
    if lines != [] {
      hide Classify, StripCR, CleanLines, Scan, Step, Remark;
      CleanLinesTail(lines);
      assert lines == [lines[0]] + lines[1..];
      ScanOne(st, lines[0], withUPath);
      if Classify(StripCR(lines[0])).BadCounters? {
        ScanThenFails(st, [lines[0]], lines[1..], withUPath);
      } else {
        ScanThen(st, [lines[0]], st, lines[1..], withUPath);
        ScanRemarks(st, lines[1..], withUPath);
      }
    } else {
      ScanNothing(st, withUPath);
      assert WithRows(st, []) == st;
    }
  }

  lemma CleanLinesTail(lines: seq<string>)
    requires lines != []
    ensures CleanLines(lines) <==> !Classify(StripCR(lines[0])).BadCounters? && CleanLines(lines[1..])
  {
    hide Classify, StripCR;
    assert forall i | 1 <= i < |lines| :: lines[i] == lines[1..][i - 1];
  }

  lemma CleanTail(s: seq<Section>)
    requires s != []
    ensures CleanSections(s) <==> CleanLines(s[0].remarks) && CleanSections(s[1..])
  {
    hide CleanLines;
    assert forall i | 1 <= i < |s| :: s[i] == s[1..][i - 1];
  }

  lemma {:induction false} ScanSections(st: State, s: seq<Section>, margin: string, withUPath: bool)
    requires Open(st) && Gap(margin) && GoodSections(s) && Short(SectionLines(s, margin))
    ensures Scan(st, SectionLines(s, margin), withUPath) ==
            if !CleanSections(s) then Err(Malformed)
            else Ok(WithRows(st, SectionRows(s, st.pool, LeadingWidth(margin), withUPath))
                    .(role := LastRole(st.role, s)))
    decreases |s|
  {
    hide Scan, Printable, Gap, RoleHeading, LeadingWidth, Remarks, ForestLines, ForestRows, CleanLines, CleanSections;
    if s == [] {
      ScanNothing(st, withUPath);
      NothingUnclean();
    } else {
      var depth := LeadingWidth(margin) + s[0].top;
      var head := [margin + s[0].heading];
      var body := ForestLines(s[0].devices, margin, s[0].top);
      var tail := SectionLines(s[1..], margin);
      ShortParts(head + s[0].remarks + body, tail);
      ShortParts(head + s[0].remarks, body);
      ShortParts(head, s[0].remarks);
      assert |head[0]| < MAX_LINE;
      var role := RoleHeading(s[0].heading).value;
      ScanHeading(st, margin, s[0].heading, withUPath);
      var st1 := st.(role := role);
      CleanTail(s);
      ScanRemarks(st1, s[0].remarks, withUPath);
      ScanThen(st, head, st1, s[0].remarks, withUPath);
      if !CleanLines(s[0].remarks) {
        ScanThenFails(st, head + s[0].remarks, body, withUPath);
        ScanThenFails(st, head + s[0].remarks + body, tail, withUPath);
      } else {
        ScanForest(st1, s[0].devices, margin, s[0].top, withUPath);
        var r1 := ForestRows(s[0].devices, st.pool, role, depth, withUPath);
        var st2 := WithRows(st1, r1);
        ScanSections(st2, s[1..], margin, withUPath);
        WithRowsTwice(st1, r1, SectionRows(s[1..], st.pool, LeadingWidth(margin), withUPath));
        ScanThen(st, head + s[0].remarks, st1, body, withUPath);
        ScanThen(st, head + s[0].remarks + body, st2, tail, withUPath);
      }
    }
  }

  lemma NothingUnclean()
    ensures CleanSections([]) && CleanPools([])
  {
  }

  lemma {:induction false} SectionRowsHead(s: seq<Section>, pool: string, width: nat, top: nat, withUPath: bool)
    requires GoodSections(s) && Descending(s, top)
    ensures NotDeeper(SectionRows(s, pool, width, withUPath), width + top)
    decreases |s|
  {
    if s != [] {
      DescendingTail(s, top);
      SectionRowsHead(s[1..], pool, width, s[0].top, withUPath);
      ForestRowsHead(s[0].devices, pool, RoleHeading(s[0].heading).value, width + s[0].top, withUPath,
                     SectionRows(s[1..], pool, width, withUPath));
    }
  }

  lemma FlushNothing()
    ensures Flush([]) == []
  {
  }

  lemma {:induction false} FlushSections(s: seq<Section>, pool: string, width: nat, top: nat, withUPath: bool)
    requires GoodSections(s) && Descending(s, top)
    ensures Flush(SectionRows(s, pool, width, withUPath)) == SectionLeaves(s, pool, width, withUPath)
    decreases |s|
  {
    hide RoleHeading, Flush, ForestRows, ForestLeaves, Printable, Remarks, NotDeeper;
    if s == [] {
      FlushNothing();
    } else {
      DescendingTail(s, top);
      FlushSections(s[1..], pool, width, s[0].top, withUPath);
      SectionRowsHead(s[1..], pool, width, s[0].top, withUPath);
      FlushForest(s[0].devices, pool, RoleHeading(s[0].heading).value, width + s[0].top, withUPath,
                  SectionRows(s[1..], pool, width, withUPath));
    }
  }

  /** The state at the end of a printed pool block, seen from the state before it. */
  function AfterPool(st: State, p: Pool, withUPath: bool): State
    requires PrintablePool(p)
  {
    State(p.name, LastRole("data", p.sections), false, true, [], Flushed(st).all + PoolLeaves(p, withUPath))
  }

  function Opened(st: State, p: Pool): State {
    State(p.name, "data", true, true, [], Flushed(st).all)
  }

  lemma ScanOpening(st: State, p: Pool, withUPath: bool)
    requires PrintablePool(p) && Short(Opening(p))
    ensures Scan(st, Opening(p), withUPath) == Ok(Opened(st, p))
  {
    hide Classify, StripCR, Flush, PrintableNode, Printable, RoleHeading, Gap;
    var first, config := ["  pool: " + p.name], ["config:", "", p.header];
    ShortParts(first + p.preamble, config);
    ShortParts(first, p.preamble);
    assert |first[0]| < MAX_LINE && |config[2]| < MAX_LINE;
    PoolLineReadBack(p.name);
    ScanOne(st, first[0], withUPath);
    var closed := State(p.name, "data", false, false, [], Flushed(st).all);
    ScanProse(closed, p.preamble, withUPath);
    ScanThen(st, first, closed, p.preamble, withUPath);
    ScanThen(st, first + p.preamble, closed, config, withUPath);
    ScanConfig(closed, p.header, withUPath);
  }

  lemma ScanConfig(st: State, header: string, withUPath: bool)
    requires Classify(StripCR(header)).HeaderLine? && |header| < MAX_LINE
    ensures Scan(st, ["config:", "", header], withUPath) == Ok(st.(inConfig := true, headerSeen := true))
  {
    hide Classify, StripCR, Flush;
    ConfigReadBack();
    BlankReadBack();
    var inside := st.(inConfig := true);
    ScanOne(st, "config:", withUPath);
    ScanOne(inside, "", withUPath);
    ScanOne(inside, header, withUPath);
    ScanThen(st, ["config:"], inside, [""], withUPath);
    ScanThen(st, ["config:"] + [""], inside, [header], withUPath);
    assert ["config:"] + [""] + [header] == ["config:", "", header];
  }

  lemma ScanConfigLines(st: State, p: Pool, withUPath: bool)
    requires PrintablePool(p) && Open(st) && st.pool == p.name && st.role == "data" && st.rows == []
    requires Short(ConfigLines(p))
    ensures var depth := LeadingWidth(p.margin) + p.top;
            Scan(st, ConfigLines(p), withUPath) ==
            if !CleanSections(p.sections) then Err(Malformed)
            else
              Ok(WithRows(st, [NodeRow(p.root, p.name, "data", LeadingWidth(p.margin), withUPath)]
                              + ForestRows(p.data, p.name, "data", depth, withUPath)
                              + SectionRows(p.sections, p.name, LeadingWidth(p.margin), withUPath))
                 .(role := LastRole("data", p.sections)))
  {
    hide Scan, Classify, StripCR, Printable, RoleHeading, LeadingWidth, NodeRow, Gap, ForestLines, SectionLines,
         ForestRows, SectionRows, LastRole, CleanSections;
    var depth := LeadingWidth(p.margin) + p.top;
    var root := [RowText(p.margin, p.root)];
    var data := ForestLines(p.data, p.margin, p.top);
    var sections := SectionLines(p.sections, p.margin);
    ShortParts(root + data, sections);
    ShortParts(root, data);
    assert |root[0]| < MAX_LINE;
    assert p.margin + Spaces(0) == p.margin;
    ScanRow(st, p.margin, 0, p.root, withUPath);
    var r1 := [NodeRow(p.root, p.name, "data", LeadingWidth(p.margin), withUPath)];
    var st1 := WithRows(st, r1);
    ScanForest(st1, p.data, p.margin, p.top, withUPath);
    var r2 := ForestRows(p.data, p.name, "data", depth, withUPath);
    var st2 := WithRows(st, r1 + r2);
    WithRowsTwice(st, r1, r2);
    ScanSections(st2, p.sections, p.margin, withUPath);
    WithRowsTwice(st, r1 + r2, SectionRows(p.sections, p.name, LeadingWidth(p.margin), withUPath));
    ScanThen(st, root, st1, data, withUPath);
    ScanThen(st, root + data, st2, sections, withUPath);
  }

  lemma RootRow(root: Node, pool: string, depth: nat, withUPath: bool)
    requires root.name == pool
    ensures NodeRow(root, pool, "data", depth, withUPath).isRoot
  {
  }

  function PoolRows(p: Pool, withUPath: bool): seq<Row>
    requires PrintablePool(p)
  {
    var depth := LeadingWidth(p.margin) + p.top;
    [NodeRow(p.root, p.name, "data", LeadingWidth(p.margin), withUPath)]
    + ForestRows(p.data, p.name, "data", depth, withUPath)
    + SectionRows(p.sections, p.name, LeadingWidth(p.margin), withUPath)
  }

  lemma FlushPoolRows(root: Row, data: seq<Row>, sections: seq<Row>, l1: seq<Leaf>, l2: seq<Leaf>)
    requires root.isRoot && Flush(data + sections) == l1 + Flush(sections) && Flush(sections) == l2
    ensures Flush([root] + data + sections) == l1 + l2
  {
    hide Flush;
    FlushCons(root, data + sections);
    assert [root] + data + sections == [root] + (data + sections);
  }

  lemma FlushPool(p: Pool, withUPath: bool)
    requires PrintablePool(p)
    ensures Flush(PoolRows(p, withUPath)) == PoolLeaves(p, withUPath)
  {
    hide Flush, Classify, StripCR, LeadingWidth, RoleHeading, Printable, Gap, NodeRow, PrintableNode, Word, Prose;
    var depth := LeadingWidth(p.margin) + p.top;
    var root := NodeRow(p.root, p.name, "data", LeadingWidth(p.margin), withUPath);
    var data := ForestRows(p.data, p.name, "data", depth, withUPath);
    var sections := SectionRows(p.sections, p.name, LeadingWidth(p.margin), withUPath);
    RootRow(p.root, p.name, LeadingWidth(p.margin), withUPath);
    SectionRowsHead(p.sections, p.name, LeadingWidth(p.margin), p.top, withUPath);
    FlushForest(p.data, p.name, "data", depth, withUPath, sections);
    FlushSections(p.sections, p.name, LeadingWidth(p.margin), p.top, withUPath);
    FlushPoolRows(root, data, sections, ForestLeaves(p.data, p.name, "data", depth, withUPath),
                  SectionLeaves(p.sections, p.name, LeadingWidth(p.margin), withUPath));
  }

  lemma ScanClosing(st: State, p: Pool, withUPath: bool)
    requires Short(Closing(p)) && Classify(StripCR(p.errors)).ErrorsLine?
    requires forall i | 0 <= i < |p.epilogue| :: Prose(p.epilogue[i])
    ensures Scan(st, Closing(p), withUPath) == Ok(Flushed(st).(inConfig := false))
  {
    var before, epilogue := ["", p.errors], p.epilogue;
    ShortParts(before, epilogue);
    hide Classify, StripCR, Flush;
    BlankReadBack();
    assert |before[1]| < MAX_LINE;
    var closed := Flushed(st).(inConfig := false);
    ScanOne(st, "", withUPath);
    ScanOne(st, p.errors, withUPath);
    ScanThen(st, [""], st, [p.errors], withUPath);
    assert [""] + [p.errors] == before;
    ScanProse(closed, epilogue, withUPath);
    ScanThen(st, before, closed, epilogue, withUPath);
  }

  /** A printed block adds exactly the leaves of its pool, from whatever state it is met, unless
      it has a line with bad counters, which ends the whole scan. */
  lemma ScanPool(st: State, p: Pool, withUPath: bool)
    requires PrintablePool(p) && Short(PoolLines(p))
    ensures Scan(st, PoolLines(p), withUPath) ==
            if CleanSections(p.sections) then Ok(AfterPool(st, p, withUPath)) else Err(Malformed)
  {
    hide Scan, Classify, StripCR, Flush, PrintableNode, Printable, RoleHeading, Gap, ConfigLines, Opening, Closing,
         LeadingWidth, NodeRow, CleanSections;
    ShortParts(Opening(p) + ConfigLines(p), Closing(p));
    ShortParts(Opening(p), ConfigLines(p));
    var begun := Opened(st, p);
    ScanOpening(st, p, withUPath);
    ScanConfigLines(begun, p, withUPath);
    ScanThen(st, Opening(p), begun, ConfigLines(p), withUPath);
    if !CleanSections(p.sections) {
      ScanThenFails(st, Opening(p) + ConfigLines(p), Closing(p), withUPath);
    } else {
      FlushPool(p, withUPath);
      var full := WithRows(begun, PoolRows(p, withUPath)).(role := LastRole("data", p.sections));
      assert full.rows == PoolRows(p, withUPath);
      ScanClosing(full, p, withUPath);
      ScanThen(st, Opening(p) + ConfigLines(p), full, Closing(p), withUPath);
    }
  }

  // ----- Printed reports -----

  predicate PrintablePools(pools: seq<Pool>) {
    (forall i | 0 <= i < |pools| :: PrintablePool(pools[i])) && Short(AllLines(pools))
  }

  lemma CleanPoolsTail(pools: seq<Pool>)
    requires pools != []
    ensures CleanPools(pools) <==> CleanSections(pools[0].sections) && CleanPools(pools[1..])
  {
    hide CleanSections;
    assert forall i | 1 <= i < |pools| :: pools[i] == pools[1..][i - 1];
  }

  lemma {:induction false} ScanPools(st: State, pools: seq<Pool>, withUPath: bool)
    requires PrintablePools(pools) && st.rows == []
    ensures var end := Scan(st, AllLines(pools), withUPath);
            if !CleanPools(pools) then end == Err(Malformed)
            else
              && end.Ok? && Flushed(end.value).all == st.all + AllLeaves(pools, withUPath)
              && end.value.pool == (if pools == [] then st.pool else pools[|pools| - 1].name)
    decreases |pools|
  {
    hide Scan, PrintablePool, PoolLines, PoolLeaves, LastRole, MAX_LINE, CleanSections, CleanPools;
    assert Flush([]) == [];
    if pools == [] {
      ScanNothing(st, withUPath);
      NothingUnclean();
      assert st.all + [] == st.all;
    } else {
      var p, rest := pools[0], pools[1..];
      ShortParts(PoolLines(p), AllLines(rest));
      CleanPoolsTail(pools);
      ScanPool(st, p, withUPath);
      if !CleanSections(p.sections) {
        ScanThenFails(st, PoolLines(p), AllLines(rest), withUPath);
      } else {
        var next := AfterPool(st, p, withUPath);
        assert Flushed(st).all == st.all;
        ScanPools(next, rest, withUPath);
        ScanThen(st, PoolLines(p), next, AllLines(rest), withUPath);
        assert st.all + (PoolLeaves(p, withUPath) + AllLeaves(rest, withUPath))
            == st.all + PoolLeaves(p, withUPath) + AllLeaves(rest, withUPath);
      }
    }
  }

  predicate OneLineEach(lines: seq<string>) {
    forall i | 0 <= i < |lines| :: OneLine(lines[i])
  }

  lemma OneLineConcat(a: seq<string>, b: seq<string>)
    requires OneLineEach(a) && OneLineEach(b)
    ensures OneLineEach(a + b)
  {
  }

  lemma RowOneLine(margin: string, d: nat, n: Node)
    requires Gap(margin) && PrintableNode(n)
    ensures OneLineEach([RowText(margin + Spaces(d), n)])
  {
    hide Gap, Spaces, OneLine, Joined;
    WidthOfSpaces(margin, d);
    RowReadBack(margin + Spaces(d), n);
  }

  lemma {:induction false} ForestOneLine(f: Forest, margin: string, d: nat)
    requires Gap(margin) && Printable(f)
    ensures OneLineEach(ForestLines(f, margin, d))
    decreases f
  {
    hide Gap, OneLine, Spaces, Joined, Word, IsState, Cells;
    match f
    case Empty =>
    case Tree(n, children, siblings) =>
      RowOneLine(margin, d, n);
      ForestOneLine(children, margin, d + n.step);
      ForestOneLine(siblings, margin, d);
      OneLineConcat([RowText(margin + Spaces(d), n)], ForestLines(children, margin, d + n.step));
      OneLineConcat([RowText(margin + Spaces(d), n)] + ForestLines(children, margin, d + n.step),
                    ForestLines(siblings, margin, d));
  }

  lemma {:induction false} SectionsOneLine(s: seq<Section>, margin: string)
    requires Gap(margin) && GoodSections(s)
    ensures OneLineEach(SectionLines(s, margin))
    decreases |s|
  {
    hide OneLine, Gap, Printable, RoleHeading, Classify, StripCR, ForestLines, Remark;
    if s != [] {
      var head, body := [margin + s[0].heading], ForestLines(s[0].devices, margin, s[0].top);
      HeadingReadBack(margin, s[0].heading);
      ForestOneLine(s[0].devices, margin, s[0].top);
      SectionsOneLine(s[1..], margin);
      OneLineConcat(head, s[0].remarks);
      OneLineConcat(head + s[0].remarks, body);
      OneLineConcat(head + s[0].remarks + body, SectionLines(s[1..], margin));
    }
  }

  lemma ConfigOneLine(p: Pool)
    requires PrintablePool(p)
    ensures OneLineEach(ConfigLines(p))
  {
    hide OneLine, Gap, Printable, RoleHeading, Prose, Classify, StripCR, Joined, Word, IsState, Cells;
    RowReadBack(p.margin, p.root);
    ForestOneLine(p.data, p.margin, p.top);
    SectionsOneLine(p.sections, p.margin);
    var root := [RowText(p.margin, p.root)];
    OneLineConcat(root, ForestLines(p.data, p.margin, p.top));
    OneLineConcat(root + ForestLines(p.data, p.margin, p.top), SectionLines(p.sections, p.margin));
  }

  lemma FixedOneLine()
    ensures OneLine("config:") && OneLine("")
  {
  }

  lemma OpeningOneLine(p: Pool)
    requires PrintablePool(p)
    ensures OneLineEach(Opening(p))
  {
    hide OneLine, Gap, PrintableNode, Printable, RoleHeading, Prose, Classify, StripCR, Word;
    PoolLineReadBack(p.name);
    FixedOneLine();
    OneLineConcat(["  pool: " + p.name], p.preamble);
    OneLineConcat(["  pool: " + p.name] + p.preamble, ["config:", "", p.header]);
  }

  lemma ClosingOneLine(p: Pool)
    requires PrintablePool(p)
    ensures OneLineEach(Closing(p))
  {
    hide OneLine, Gap, PrintableNode, Printable, RoleHeading, Prose, Classify, StripCR, Word;
    FixedOneLine();
    OneLineConcat(["", p.errors], p.epilogue);
  }

  lemma PoolOneLine(p: Pool)
    requires PrintablePool(p)
    ensures OneLineEach(PoolLines(p))
  {
    hide PrintablePool, Opening, ConfigLines, Closing, OneLine;
    OpeningOneLine(p);
    ConfigOneLine(p);
    ClosingOneLine(p);
    OneLineConcat(Opening(p), ConfigLines(p));
    OneLineConcat(Opening(p) + ConfigLines(p), Closing(p));
  }

  lemma {:induction false} PoolsOneLine(pools: seq<Pool>)
    requires forall i | 0 <= i < |pools| :: PrintablePool(pools[i])
    ensures OneLineEach(AllLines(pools))
  {
    hide PrintablePool, PoolLines, OneLine;
    if pools != [] {
      PoolOneLine(pools[0]);
      PoolsOneLine(pools[1..]);
      OneLineConcat(PoolLines(pools[0]), AllLines(pools[1..]));
    }
  }

  /** Round trip: whatever the pools, however deep and wide their vdev trees, and whatever
      prose surrounds the config sections, parsing the printed report yields exactly the leaf
      vdevs in preorder, each with its pool, GUID, name, path, role, state, counters and depth, if
      and only if no line in it has bad counters; otherwise the whole report is rejected. */
  lemma ParsePrinted(pools: seq<Pool>, withUPath: bool)
    requires PrintablePools(pools)
    ensures Parse(Unlines(AllLines(pools)), withUPath) ==
            if CleanPools(pools) then Ok(AllLeaves(pools, withUPath)) else Err(Malformed)
  {
    hide CleanPools;
    var lines := AllLines(pools);
    PoolsOneLine(pools);
    LinesUnlines(lines);
    ScanPools(INITIAL, pools, withUPath);
    assert [] + AllLeaves(pools, withUPath) == AllLeaves(pools, withUPath);
    if pools == [] {
      assert Unlines(lines) == "";
    } else {
      assert PrintablePool(pools[|pools| - 1]);
    }
  }

  /** The line of a spare: name and state, and for a spare in use the words "currently in use". */
  function SpareCells(name: string, inUse: bool): seq<string> {
    if inUse then [name, "INUSE", "currently", "in", "use"] else [name, "AVAIL"]
  }

  /** The line of an idle spare is passed over; that of a spare in use has words where the parser
      expects counters. */
  lemma SpareLines(indent: string, name: string, inUse: bool, gaps: seq<string>)
    requires Gap(indent) && GoodCells(SpareCells(name, inUse), gaps)
    requires !("pool:" <= name) && !("errors:" <= name) && !("NAME" <= name)
    ensures var line := indent + Joined(SpareCells(name, inUse), gaps);
            && OneLine(line)
            && Classify(StripCR(line)) == if inUse then BadCounters else OtherLine
  {
    hide TrimSpace, Fields, StripCR, RoleHeading, Contains;
    var cells := SpareCells(name, inUse);
    var t := Joined(cells, gaps);
    JoinedShape(cells, gaps);
    FieldsOfJoined(cells, gaps);
    GapIsBlank(indent);
    TrimBlank(indent, t);
    SpareIsNothingElse(name, inUse, gaps);
    assert (indent + t)[|indent + t| - 1] == t[|t| - 1];
    NothingToStrip(indent + t);
    assert !Digit("currently"[0]);
  }

  lemma SpareIsNothingElse(name: string, inUse: bool, gaps: seq<string>)
    requires GoodCells(SpareCells(name, inUse), gaps)
    requires !("pool:" <= name) && !("errors:" <= name) && !("NAME" <= name)
    ensures var t := Joined(SpareCells(name, inUse), gaps);
            !("pool:" <= t) && t != "config:" && !("errors:" <= t) && !("NAME" <= t) && RoleHeading(t).None?
  {
    var cells := SpareCells(name, inUse);
    var t := Joined(cells, gaps);
    assert cells[0] == name && Word(name);
    assert t == name + (gaps[0] + Joined(cells[1..], gaps[1..]));
    assert t[|name|] == gaps[0][0];
    hide Joined, Word;
    SpecialWords();
  }

  ghost predicate IsSpareInUse(line: string) {
    exists indent, name, gaps ::
      && Gap(indent) && GoodCells(SpareCells(name, true), gaps)
      && !("pool:" <= name) && !("errors:" <= name) && !("NAME" <= name)
      && line == indent + Joined(SpareCells(name, true), gaps)
  }

  ghost predicate HasSpareInUse(s: Section) {
    exists line :: line in s.remarks && IsSpareInUse(line)
  }

  /** One spare in use anywhere makes the parser reject the report of all pools. */
  lemma SpareInUseRejects(pools: seq<Pool>, withUPath: bool, i: nat, k: nat)
    requires PrintablePools(pools) && i < |pools| && k < |pools[i].sections| && HasSpareInUse(pools[i].sections[k])
    ensures Parse(Unlines(AllLines(pools)), withUPath) == Err(Malformed)
  {
    hide PrintablePool, Parse, Unlines, AllLines, Classify, StripCR, Joined, Gap, Word;
    var lines := pools[i].sections[k].remarks;
    var line :| line in lines && IsSpareInUse(line);
    var indent, name, gaps :|
      && Gap(indent) && GoodCells(SpareCells(name, true), gaps)
      && !("pool:" <= name) && !("errors:" <= name) && !("NAME" <= name)
      && line == indent + Joined(SpareCells(name, true), gaps);
    SpareLines(indent, name, true, gaps);
    var m :| 0 <= m < |lines| && lines[m] == line;
    assert !CleanLines(lines);
    assert !CleanSections(pools[i].sections);
    ParsePrinted(pools, withUPath);
  }

  /** A missing vdev that is printed with an annotation and without a upath column is printable,
      and is reported under the path in the annotation. */
  lemma AnnotationTakenForPath(guid: string, pool: string, role: string, depth: nat)
    requires Digits(guid)
    ensures var n := Node(guid, "UNAVAIL", 0, 0, 0, ["was", "/dev/sdb1"], ["  ", "  ", "  ", "  ", "  ", "  "], 2);
            PrintableNode(n) && LeafOf(n, pool, role, depth, true).path == "/dev/sdb1"
  {
    hide Decimal, Contains;
    assert Digit(guid[0]);
    assert forall i | 0 <= i < |guid| :: Digit(guid[i]);
    assert Word("was") && Word("/dev/sdb1");
  }
}
