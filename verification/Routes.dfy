/** The two ways to discover leaf vdevs, one command with GUIDs and paths or two commands
    merged, and their agreement on every topology. */
module Routes {
  import opened Types
  import opened Text
  import opened Status
  import opened RoundTrip

  // ----- Merging two snapshots -----

  predicate SamePlace(g: Leaf, p: Leaf) {
    g.pool == p.pool && g.role == p.role && g.state == p.state && g.errors == p.errors && g.depth == p.depth
  }

  function MergeLeaf(g: Leaf, p: Leaf): Leaf {
    p.(guid := g.name,
       path := if p.path == "-" || !("/" <= p.path) then "" else p.path,
       name := if p.name == "" then g.name else p.name)
  }

  /** Succeeds exactly when the snapshots have the same length and agree, place by place, on
      everything both of them show; any visible change between them is rejected. */
  method MergeSnapshots(guidLeaves: seq<Leaf>, pathLeaves: seq<Leaf>) returns (result: Result<seq<Leaf>>)
    ensures result.Ok? <==> |guidLeaves| == |pathLeaves|
                            && forall i | 0 <= i < |guidLeaves| ::
                                 var g, p := guidLeaves[i], pathLeaves[i];
                                 && g.pool == p.pool && g.role == p.role && g.state == p.state
                                 && g.errors == p.errors && g.depth == p.depth
    ensures result.Ok? ==> |result.value| == |guidLeaves|
                           && forall i | 0 <= i < |guidLeaves| ::
                                var g, p, m := guidLeaves[i], pathLeaves[i], result.value[i];
                                && m == p.(guid := g.name, path := m.path, name := m.name)
                                && m.path == (if "/" <= p.path then p.path else "")
                                && m.name == (if p.name == "" then g.name else p.name)
    ensures result.Err? ==> result.code == Ambiguous
    ensures result == Merge(guidLeaves, pathLeaves)
  {
    if |guidLeaves| != |pathLeaves| { return Err(Ambiguous); }
    var merged: seq<Leaf> := [];
    for i := 0 to |guidLeaves|
      invariant |merged| == i
      invariant forall k | 0 <= k < i :: SamePlace(guidLeaves[k], pathLeaves[k])
      invariant forall k | 0 <= k < i :: merged[k] == MergeLeaf(guidLeaves[k], pathLeaves[k])
    {
      var g, p := guidLeaves[i], pathLeaves[i];
      if g.pool != p.pool || g.role != p.role || g.state != p.state || g.errors != p.errors || g.depth != p.depth {
        return Err(Ambiguous);
      }
      var leaf := p;
      leaf := leaf.(guid := g.name);
      if leaf.path == "-" || !("/" <= leaf.path) { leaf := leaf.(path := ""); }
      if leaf.name == "" { leaf := leaf.(name := g.name); }
      merged := merged + [leaf];
    }
    forall i | 0 <= i < |guidLeaves|
      ensures merged[i].path == if "/" <= pathLeaves[i].path then pathLeaves[i].path else ""
    {
      assert "/" <= pathLeaves[i].path ==> pathLeaves[i].path[0] == '/' && pathLeaves[i].path != "-";
    }
    assert merged == seq(|guidLeaves|, i requires 0 <= i < |guidLeaves| => MergeLeaf(guidLeaves[i], pathLeaves[i]));
    return Ok(merged);
  }

  function Merge(g: seq<Leaf>, p: seq<Leaf>): Result<seq<Leaf>> {
    if |g| == |p| && (forall i | 0 <= i < |g| :: SamePlace(g[i], p[i]))
    then Ok(seq(|g|, i requires 0 <= i < |g| => MergeLeaf(g[i], p[i])))
    else Err(Ambiguous)
  }

  // ----- Choosing the route -----

  /** What a command printed, and how it failed if it did. */
  datatype Output = Output(stdout: string, stderr: string, error: Option<ErrorCode>)

  predicate SaysNoPools(o: Output) {
    NoPools(o.stdout + o.stderr)
  }

  /** Provider.Discover: one command if it works, otherwise two and a merge. */
  function Discover(preferred: Output, guid: Output, path: Output): Result<seq<Leaf>> {
    if preferred.error.None? && Parse(preferred.stdout, true).Ok? then Parse(preferred.stdout, true)
    else if SaysNoPools(preferred) then Ok([])
    else if guid.error.Some? then if SaysNoPools(guid) then Ok([]) else Err(guid.error.value)
    else if path.error.Some? then Err(path.error.value)
    else
      match Parse(guid.stdout, false)
      case Err(code) => Err(code)
      case Ok(g) =>
        match Parse(path.stdout, false)
        case Err(code) => Err(code)
        case Ok(p) => Merge(g, p)
  }

  // ----- One topology, three reports -----

  datatype View = Preferred | GuidOnly | PathOnly

  /** What a report prints after a vdev's counters, apart from the upath column, and the white
      space between the columns. */
  datatype Look = Look(notes: seq<string>, gaps: seq<string>)

  /** A vdev with its GUID, its upath column if one is printed, and what the path report shows. */
  datatype Vdev = Vdev(guid: string, upath: Option<string>, shown: string, state: string,
                       read: nat, write: nat, checksum: nat, step: nat,
                       preferred: Look, guidOnly: Look, pathOnly: Look)

  datatype Topology = NoVdev | Vdevs(vdev: Vdev, children: Topology, siblings: Topology)

  /** A role section; the lines without counters may differ from report to report. */
  datatype RoleSection = RoleSection(heading: string, top: nat, devices: Topology, preferred: seq<string>,
                                     guidOnly: seq<string>, pathOnly: seq<string>)

  /** The text around a config section, which may differ from report to report. */
  datatype Surroundings = Surroundings(preamble: seq<string>, header: string, errors: string, epilogue: seq<string>)

  datatype ZPool = ZPool(name: string, margin: string, root: Vdev, top: nat, data: Topology,
                         sections: seq<RoleSection>,
                         preferred: Surroundings, guidOnly: Surroundings, pathOnly: Surroundings)

  function LookIn(v: Vdev, view: View): Look {
    match view
    case Preferred => v.preferred
    case GuidOnly => v.guidOnly
    case PathOnly => v.pathOnly
  }

  function NodeIn(v: Vdev, view: View, name: string): Node {
    Node(name, v.state, v.read, v.write, v.checksum,
         LookIn(v, view).notes + (if view.Preferred? && v.upath.Some? then [v.upath.value] else []),
         LookIn(v, view).gaps, v.step)
  }

  function NameIn(v: Vdev, view: View): string {
    if view.PathOnly? then v.shown else v.guid
  }

  function ForestIn(t: Topology, view: View): Forest {
    match t
    case NoVdev => Empty
    case Vdevs(v, children, siblings) =>
      Tree(NodeIn(v, view, NameIn(v, view)), ForestIn(children, view), ForestIn(siblings, view))
  }

  function RemarksIn(s: RoleSection, view: View): seq<string> {
    match view
    case Preferred => s.preferred
    case GuidOnly => s.guidOnly
    case PathOnly => s.pathOnly
  }

  function SectionIn(s: RoleSection, view: View): Section {
    Section(s.heading, RemarksIn(s, view), s.top, ForestIn(s.devices, view))
  }

  function SectionsIn(s: seq<RoleSection>, view: View): seq<Section> {
    seq(|s|, i requires 0 <= i < |s| => SectionIn(s[i], view))
  }

  function PoolIn(z: ZPool, view: View): Pool {
    var text := match view case Preferred => z.preferred case GuidOnly => z.guidOnly case PathOnly => z.pathOnly;
    Pool(z.name, text.preamble, text.header, z.margin, NodeIn(z.root, view, z.name), z.top,
         ForestIn(z.data, view), SectionsIn(z.sections, view), text.errors, text.epilogue)
  }

  function PoolsIn(zs: seq<ZPool>, view: View): seq<Pool> {
    seq(|zs|, i requires 0 <= i < |zs| => PoolIn(zs[i], view))
  }

  /** No vdev is named like its pool in any report. */
  predicate Distinguished(t: Topology, pool: string) {
    match t
    case NoVdev => true
    case Vdevs(v, children, siblings) =>
      v.guid != pool && v.shown != pool && Distinguished(children, pool) && Distinguished(siblings, pool)
  }

  predicate DistinguishedPools(zs: seq<ZPool>) {
    forall i | 0 <= i < |zs| ::
      && Distinguished(zs[i].data, zs[i].name)
      && forall k | 0 <= k < |zs[i].sections| :: Distinguished(zs[i].sections[k].devices, zs[i].name)
  }

  /** The last word the preferred report prints for a vdev, "-" when nothing follows the counters. */
  function LastWord(v: Vdev): string {
    if v.upath.Some? then v.upath.value
    else if v.preferred.notes == [] then "-"
    else v.preferred.notes[|v.preferred.notes| - 1]
  }

  /** That word is the path the path report shows, or "-" when it shows no absolute path. */
  predicate SamePath(v: Vdev) {
    LastWord(v) == if "/" <= v.shown then v.shown else "-"
  }

  predicate SamePaths(t: Topology) {
    match t
    case NoVdev => true
    case Vdevs(v, children, siblings) =>
      (if children.NoVdev? then SamePath(v) else SamePaths(children)) && SamePaths(siblings)
  }

  predicate SamePathsInSections(s: seq<RoleSection>) {
    forall k | 0 <= k < |s| :: SamePaths(s[k].devices)
  }

  predicate SamePathsInPools(zs: seq<ZPool>) {
    forall i | 0 <= i < |zs| :: SamePaths(zs[i].data) && SamePathsInSections(zs[i].sections)
  }

  // ----- Leaf-for-leaf agreement -----

  /** u is what the preferred report gives, g and p what the other two give for the same leaf:
      all but the path surely agrees. */
  predicate Matches(u: Leaf, g: Leaf, p: Leaf) {
    SamePlace(g, p) && SamePlace(u, p) && g.name == u.guid && p.name != ""
  }

  predicate PathsMatch(u: Leaf, g: Leaf, p: Leaf) {
    MergeLeaf(g, p).path == u.path
  }

  ghost predicate AllMatch(u: seq<Leaf>, g: seq<Leaf>, p: seq<Leaf>) {
    |u| == |g| == |p| && forall i | 0 <= i < |u| :: Matches(u[i], g[i], p[i])
  }

  ghost predicate AllPathsMatch(u: seq<Leaf>, g: seq<Leaf>, p: seq<Leaf>)
    requires AllMatch(u, g, p)
  {
    forall i | 0 <= i < |u| :: PathsMatch(u[i], g[i], p[i])
  }

  lemma AllMatchConcat(u: seq<Leaf>, g: seq<Leaf>, p: seq<Leaf>, u': seq<Leaf>, g': seq<Leaf>, p': seq<Leaf>)
    requires AllMatch(u, g, p) && AllMatch(u', g', p')
    ensures AllMatch(u + u', g + g', p + p')
    ensures AllPathsMatch(u + u', g + g', p + p') <==> AllPathsMatch(u, g, p) && AllPathsMatch(u', g', p')
  {
    hide Matches, PathsMatch;
    assert forall i | 0 <= i < |u| :: (u + u')[i] == u[i] && (g + g')[i] == g[i] && (p + p')[i] == p[i];
    forall i | 0 <= i < |u'| && AllPathsMatch(u + u', g + g', p + p') ensures PathsMatch(u'[i], g'[i], p'[i]) {
      assert (u + u')[|u| + i] == u'[i] && (g + g')[|u| + i] == g'[i] && (p + p')[|u| + i] == p'[i];
    }
  }

  lemma NoneMatch()
    ensures AllMatch([], [], []) && AllPathsMatch([], [], [])
  {
  }

  lemma OneMatches(u: Leaf, g: Leaf, p: Leaf)
    requires Matches(u, g, p)
    ensures AllMatch([u], [g], [p])
    ensures AllPathsMatch([u], [g], [p]) <==> PathsMatch(u, g, p)
  {
    assert [u][0] == u;
  }

  lemma LeafMatches(v: Vdev, pool: string, role: string, depth: nat)
    requires PrintableNode(NodeIn(v, PathOnly, v.shown)) && PrintableNode(NodeIn(v, Preferred, v.guid))
    ensures var u := LeafOf(NodeIn(v, Preferred, v.guid), pool, role, depth, true);
            var g := LeafOf(NodeIn(v, GuidOnly, v.guid), pool, role, depth, false);
            var p := LeafOf(NodeIn(v, PathOnly, v.shown), pool, role, depth, false);
            Matches(u, g, p) && (PathsMatch(u, g, p) <==> SamePath(v))
  {
    hide PrintableNode, LeafOf, SamePath;
    WordsAreWords(NodeIn(v, Preferred, v.guid));
    WordsAreWords(NodeIn(v, PathOnly, v.shown));
    LeafParts(NodeIn(v, Preferred, v.guid), pool, role, depth, true);
    LeafParts(NodeIn(v, GuidOnly, v.guid), pool, role, depth, false);
    LeafParts(NodeIn(v, PathOnly, v.shown), pool, role, depth, false);
    PathsAgree(v);
    assert "/" <= v.shown ==> v.shown[0] == '/' && v.shown != "-";
    assert !("/" <= "");
  }

  lemma WordsAreWords(n: Node)
    requires PrintableNode(n)
    ensures n.name != "" && forall i | 0 <= i < |n.extras| :: n.extras[i] != ""
  {
    hide IsState, Gap, Cells, Joined, Contains;
    forall i | 0 <= i < |n.extras| ensures n.extras[i] != "" { assert Word(n.extras[i]); }
  }

  lemma LeafParts(n: Node, pool: string, role: string, depth: nat, withUPath: bool)
    ensures var l := LeafOf(n, pool, role, depth, withUPath);
            && l.pool == pool && l.role == role && l.depth == depth && l.state == n.state && l.name == n.name
            && l.errors == ErrorCounters(n.read, n.write, n.checksum)
            && l.guid == (if withUPath then n.name else "")
            && l.path == PathOf(if !withUPath then n.name else if n.extras == [] then "" else n.extras[|n.extras| - 1])
  {
  }

  function PathOf(column: string): string {
    if column == "-" then "" else column
  }

  /** The paths agree if and only if the last word is the path shown, or "-" for none. */
  lemma PathsAgree(v: Vdev)
    requires forall i | 0 <= i < |NodeIn(v, Preferred, v.guid).extras| :: NodeIn(v, Preferred, v.guid).extras[i] != ""
    ensures var extras := NodeIn(v, Preferred, v.guid).extras;
            (PathOf(if extras == [] then "" else extras[|extras| - 1]) == (if "/" <= v.shown then v.shown else ""))
            <==> SamePath(v)
  {
    var extras := NodeIn(v, Preferred, v.guid).extras;
    var shown := v.shown;
    assert extras != [] ==> LastWord(v) == extras[|extras| - 1] && LastWord(v) != "";
    assert extras == [] ==> LastWord(v) == "-";
    assert "/" <= shown ==> shown[0] == '/' && shown != "-" && shown != "";
  }

  lemma LeavesUnfold(t: Topology, view: View, pool: string, role: string, depth: nat, withUPath: bool)
    ensures var leaves := ForestLeaves(ForestIn(t, view), pool, role, depth, withUPath);
            && (t.NoVdev? ==> leaves == [])
            && (t.Vdevs? ==>
                  leaves == (if t.children.Vdevs?
                             then ForestLeaves(ForestIn(t.children, view), pool, role, depth + t.vdev.step, withUPath)
                             else if NameIn(t.vdev, view) == pool then []
                             else [LeafOf(NodeIn(t.vdev, view, NameIn(t.vdev, view)), pool, role, depth, withUPath)])
                            + ForestLeaves(ForestIn(t.siblings, view), pool, role, depth, withUPath))
  {
  }

  lemma {:induction false} ForestMatches(t: Topology, pool: string, role: string, depth: nat)
    requires Distinguished(t, pool) && Printable(ForestIn(t, PathOnly)) && Printable(ForestIn(t, Preferred))
    ensures var u := ForestLeaves(ForestIn(t, Preferred), pool, role, depth, true);
            var g := ForestLeaves(ForestIn(t, GuidOnly), pool, role, depth, false);
            var p := ForestLeaves(ForestIn(t, PathOnly), pool, role, depth, false);
            AllMatch(u, g, p) && (AllPathsMatch(u, g, p) <==> SamePaths(t))
    decreases t
  {
    hide LeafOf, Matches, PathsMatch, AllMatch, AllPathsMatch, SamePath, IsState, Gap, Cells, NodeIn, ForestLeaves,
         PrintableNode;
    LeavesUnfold(t, Preferred, pool, role, depth, true);
    LeavesUnfold(t, GuidOnly, pool, role, depth, false);
    LeavesUnfold(t, PathOnly, pool, role, depth, false);
    if t.NoVdev? {
      NoneMatch();
    } else {
      var v := t.vdev;
      var u' := ForestLeaves(ForestIn(t.siblings, Preferred), pool, role, depth, true);
      var g' := ForestLeaves(ForestIn(t.siblings, GuidOnly), pool, role, depth, false);
      var p' := ForestLeaves(ForestIn(t.siblings, PathOnly), pool, role, depth, false);
      ForestMatches(t.siblings, pool, role, depth);
      if t.children.NoVdev? {
        LeafMatches(v, pool, role, depth);
        var u := LeafOf(NodeIn(v, Preferred, v.guid), pool, role, depth, true);
        var g := LeafOf(NodeIn(v, GuidOnly, v.guid), pool, role, depth, false);
        var p := LeafOf(NodeIn(v, PathOnly, v.shown), pool, role, depth, false);
        OneMatches(u, g, p);
        AllMatchConcat([u], [g], [p], u', g', p');
      } else {
        ForestMatches(t.children, pool, role, depth + v.step);
        AllMatchConcat(ForestLeaves(ForestIn(t.children, Preferred), pool, role, depth + v.step, true),
                       ForestLeaves(ForestIn(t.children, GuidOnly), pool, role, depth + v.step, false),
                       ForestLeaves(ForestIn(t.children, PathOnly), pool, role, depth + v.step, false), u', g', p');
      }
    }
  }

  predicate Headed(s: seq<RoleSection>) {
    forall i | 0 <= i < |s| :: RoleHeading(s[i].heading).Some?
  }

  lemma {:induction false} SectionsMatch(s: seq<RoleSection>, pool: string, width: nat)
    requires Headed(s)
    requires forall i | 0 <= i < |s| ::
               && Distinguished(s[i].devices, pool)
               && Printable(ForestIn(s[i].devices, PathOnly)) && Printable(ForestIn(s[i].devices, Preferred))
    ensures var u := SectionLeaves(SectionsIn(s, Preferred), pool, width, true);
            var g := SectionLeaves(SectionsIn(s, GuidOnly), pool, width, false);
            var p := SectionLeaves(SectionsIn(s, PathOnly), pool, width, false);
            AllMatch(u, g, p) && (AllPathsMatch(u, g, p) <==> SamePathsInSections(s))
    decreases |s|
  {
    hide Matches, PathsMatch, AllMatch, AllPathsMatch, RoleHeading, SamePaths, ForestLeaves, ForestIn, Printable,
         Distinguished;
    if s == [] {
      NoneMatch();
    } else {
      var role, depth := RoleHeading(s[0].heading).value, width + s[0].top;
      SectionsTail(s, Preferred);
      SectionsTail(s, GuidOnly);
      SectionsTail(s, PathOnly);
      ForestMatches(s[0].devices, pool, role, depth);
      SectionsMatch(s[1..], pool, width);
      AllMatchConcat(ForestLeaves(ForestIn(s[0].devices, Preferred), pool, role, depth, true),
                     ForestLeaves(ForestIn(s[0].devices, GuidOnly), pool, role, depth, false),
                     ForestLeaves(ForestIn(s[0].devices, PathOnly), pool, role, depth, false),
                     SectionLeaves(SectionsIn(s[1..], Preferred), pool, width, true),
                     SectionLeaves(SectionsIn(s[1..], GuidOnly), pool, width, false),
                     SectionLeaves(SectionsIn(s[1..], PathOnly), pool, width, false));
    }
  }

  lemma SectionsTail(s: seq<RoleSection>, view: View)
    requires s != []
    ensures SectionsIn(s, view)[1..] == SectionsIn(s[1..], view)
    ensures SectionsIn(s, view)[0] == SectionIn(s[0], view)
  {
  }

  ghost predicate AllPrintableInEachView(zs: seq<ZPool>) {
    forall view: View :: PrintablePools(PoolsIn(zs, view))
  }

  ghost predicate PrintableInEachView(z: ZPool) {
    forall view: View :: PrintablePool(PoolIn(z, view))
  }

  lemma PoolParts(z: ZPool, view: View)
    requires PrintablePool(PoolIn(z, view))
    ensures Printable(ForestIn(z.data, view)) && Headed(z.sections)
    ensures forall i | 0 <= i < |z.sections| :: Printable(ForestIn(z.sections[i].devices, view))
  {
    hide PrintableNode, Printable, RoleHeading, Prose, Word, Gap, Classify, StripCR, ForestIn, NodeIn, Remarks;
    var sections := PoolIn(z, view).sections;
    assert GoodSections(sections);
    forall i | 0 <= i < |z.sections|
      ensures RoleHeading(z.sections[i].heading).Some? && Printable(ForestIn(z.sections[i].devices, view))
    {
      assert sections[i] == SectionIn(z.sections[i], view);
    }
  }

  lemma PoolMatches(z: ZPool)
    requires PrintableInEachView(z) && Distinguished(z.data, z.name)
    requires forall k | 0 <= k < |z.sections| :: Distinguished(z.sections[k].devices, z.name)
    ensures var u := PoolLeaves(PoolIn(z, Preferred), true);
            var g := PoolLeaves(PoolIn(z, GuidOnly), false);
            var p := PoolLeaves(PoolIn(z, PathOnly), false);
            AllMatch(u, g, p) && (AllPathsMatch(u, g, p) <==> SamePaths(z.data) && SamePathsInSections(z.sections))
  {
    hide Matches, PathsMatch, AllMatch, AllPathsMatch, RoleHeading, Printable, Distinguished, LeadingWidth,
         PrintablePool, ForestIn, ForestLeaves, SectionLeaves, NodeIn, SamePaths, SamePathsInSections;
    var width := LeadingWidth(z.margin);
    PoolParts(z, Preferred);
    PoolParts(z, PathOnly);
    ForestMatches(z.data, z.name, "data", width + z.top);
    SectionsMatch(z.sections, z.name, width);
    AllMatchConcat(ForestLeaves(ForestIn(z.data, Preferred), z.name, "data", width + z.top, true),
                   ForestLeaves(ForestIn(z.data, GuidOnly), z.name, "data", width + z.top, false),
                   ForestLeaves(ForestIn(z.data, PathOnly), z.name, "data", width + z.top, false),
                   SectionLeaves(SectionsIn(z.sections, Preferred), z.name, width, true),
                   SectionLeaves(SectionsIn(z.sections, GuidOnly), z.name, width, false),
                   SectionLeaves(SectionsIn(z.sections, PathOnly), z.name, width, false));
  }

  lemma {:induction false} PoolsMatch(zs: seq<ZPool>)
    requires (forall i | 0 <= i < |zs| :: PrintableInEachView(zs[i])) && DistinguishedPools(zs)
    ensures forall i | 0 <= i < |zs| :: PrintablePool(PoolsIn(zs, Preferred)[i])
              && PrintablePool(PoolsIn(zs, GuidOnly)[i]) && PrintablePool(PoolsIn(zs, PathOnly)[i])
    ensures var u := AllLeaves(PoolsIn(zs, Preferred), true);
            var g := AllLeaves(PoolsIn(zs, GuidOnly), false);
            var p := AllLeaves(PoolsIn(zs, PathOnly), false);
            AllMatch(u, g, p) && (AllPathsMatch(u, g, p) <==> SamePathsInPools(zs))
    decreases |zs|
  {
    hide Matches, PathsMatch, AllMatch, AllPathsMatch, PrintablePool, PoolLeaves, Distinguished, PoolIn, SamePaths,
         SamePathsInSections;
    if zs == [] {
      NoneMatch();
    } else {
      PoolMatches(zs[0]);
      PoolsMatch(zs[1..]);
      assert PoolsIn(zs, Preferred)[1..] == PoolsIn(zs[1..], Preferred);
      assert PoolsIn(zs, GuidOnly)[1..] == PoolsIn(zs[1..], GuidOnly);
      assert PoolsIn(zs, PathOnly)[1..] == PoolsIn(zs[1..], PathOnly);
      AllMatchConcat(PoolLeaves(PoolIn(zs[0], Preferred), true), PoolLeaves(PoolIn(zs[0], GuidOnly), false),
                     PoolLeaves(PoolIn(zs[0], PathOnly), false),
                     AllLeaves(PoolsIn(zs[1..], Preferred), true), AllLeaves(PoolsIn(zs[1..], GuidOnly), false),
                     AllLeaves(PoolsIn(zs[1..], PathOnly), false));
    }
  }

  /** Equal in everything but the display name and the path. */
  predicate SameVdev(a: Leaf, b: Leaf) {
    SamePlace(a, b) && a.guid == b.guid
  }

  function Report(zs: seq<ZPool>, view: View): string
    requires forall i | 0 <= i < |zs| :: PrintablePool(PoolsIn(zs, view)[i])
  {
    Unlines(AllLines(PoolsIn(zs, view)))
  }

  /** The routes agree: when the single command is unusable and the two fallback commands print
      the same topology, discovery succeeds with, leaf for leaf, the pool, GUID, role, state,
      counters and depth the single command would have given; and with the same paths if and
      only if the last word it prints for every leaf is the path shown, or "-" for none. Each
      report is rejected if and only if it has a line with bad counters. */
  lemma FallbackAgrees(zs: seq<ZPool>, preferred: Output, guidStderr: string, pathStderr: string)
    requires AllPrintableInEachView(zs) && DistinguishedPools(zs)
    requires (preferred.error.Some? || Parse(preferred.stdout, true).Err?) && !SaysNoPools(preferred)
    ensures var guid := Output(Report(zs, GuidOnly), guidStderr, None);
            var path := Output(Report(zs, PathOnly), pathStderr, None);
            var found := Discover(preferred, guid, path);
            var expected := Parse(Report(zs, Preferred), true);
            && (found.Ok? <==> CleanPools(PoolsIn(zs, GuidOnly)) && CleanPools(PoolsIn(zs, PathOnly)))
            && (expected.Ok? <==> CleanPools(PoolsIn(zs, Preferred)))
            && (found.Err? ==> found.code == Malformed)
            && (found.Ok? && expected.Ok? ==>
                  && |found.value| == |expected.value|
                  && (forall i | 0 <= i < |found.value| :: SameVdev(found.value[i], expected.value[i]))
                  && ((forall i | 0 <= i < |found.value| :: found.value[i].path == expected.value[i].path)
                      <==> SamePathsInPools(zs)))
  {
    hide Matches, PrintablePool, PoolLeaves, Distinguished, Unlines, AllLines, NoPools, Parse, AllLeaves,
         PathsMatch, SamePathsInPools, PoolIn, CleanPools;
    ParsePrinted(PoolsIn(zs, Preferred), true);
    ParsePrinted(PoolsIn(zs, GuidOnly), false);
    ParsePrinted(PoolsIn(zs, PathOnly), false);
    forall i, view: View | 0 <= i < |zs| ensures PrintablePool(PoolIn(zs[i], view)) {
      assert PrintablePools(PoolsIn(zs, view));
      assert PrintablePool(PoolsIn(zs, view)[i]);
    }
    PoolsMatch(zs);
    MergeMatching(AllLeaves(PoolsIn(zs, Preferred), true), AllLeaves(PoolsIn(zs, GuidOnly), false),
                  AllLeaves(PoolsIn(zs, PathOnly), false));
  }

  /** The normal route: when the single command succeeds and prints a clean report, discovery gives
      exactly its leaves, whatever the other two commands would have said. */
  lemma PreferredIsReported(zs: seq<ZPool>, preferred: Output, guid: Output, path: Output)
    requires PrintablePools(PoolsIn(zs, Preferred)) && CleanPools(PoolsIn(zs, Preferred))
    requires preferred.error.None?
    ensures preferred.stdout == Report(zs, Preferred) ==>
              Discover(preferred, guid, path) == Ok(AllLeaves(PoolsIn(zs, Preferred), true))
  {
    hide PrintablePool, CleanPools, PoolIn, Parse, Unlines, AllLines, AllLeaves, NoPools;
    ParsePrinted(PoolsIn(zs, Preferred), true);
  }

  /** How discovery ends, in the order in which the commands are asked: the parse of the preferred
      report if there is one; no leaves if it, or a failing GUID command, says that there are no
      pools; the error of the GUID or the path command if one fails; and otherwise the rejection of
      the first of their reports that does not parse, or the merge of both. */
  lemma DiscoverEndings(preferred: Output, guid: Output, path: Output)
    ensures var found := Discover(preferred, guid, path);
            var usable := preferred.error.None? && Parse(preferred.stdout, true).Ok?;
            var g, p := Parse(guid.stdout, false), Parse(path.stdout, false);
            && (usable ==> found == Parse(preferred.stdout, true))
            && (!usable && NoPools(preferred.stdout + preferred.stderr) ==> found == Ok([]))
            && (!usable && !NoPools(preferred.stdout + preferred.stderr) ==>
                  && (guid.error.Some? && NoPools(guid.stdout + guid.stderr) ==> found == Ok([]))
                  && (guid.error.Some? && !NoPools(guid.stdout + guid.stderr) ==> found == Err(guid.error.value))
                  && (guid.error.None? && path.error.Some? ==> found == Err(path.error.value))
                  && (guid.error.None? && path.error.None? ==>
                        && (g.Err? ==> found == Err(g.code))
                        && (g.Ok? && p.Err? ==> found == Err(p.code))
                        && (g.Ok? && p.Ok? ==> found == Merge(g.value, p.value))))
  {
    hide Parse, NoPools;
  }

  lemma MergeMatching(u: seq<Leaf>, g: seq<Leaf>, p: seq<Leaf>)
    requires AllMatch(u, g, p)
    ensures Merge(g, p).Ok? && |Merge(g, p).value| == |u|
    ensures forall i | 0 <= i < |u| :: SameVdev(Merge(g, p).value[i], u[i])
    ensures (forall i | 0 <= i < |u| :: Merge(g, p).value[i].path == u[i].path) <==> AllPathsMatch(u, g, p)
  {
    forall i | 0 <= i < |u| ensures SamePlace(g[i], p[i]) && SameVdev(MergeLeaf(g[i], p[i]), u[i]) {
      assert Matches(u[i], g[i], p[i]);
    }
    var m := Merge(g, p).value;
    assert forall i | 0 <= i < |u| :: (m[i].path == u[i].path) == PathsMatch(u[i], g[i], p[i]);
  }
}
