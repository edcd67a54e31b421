/** Two ways lsblk can present the same devices: children nested inside their parent, or one
    flat list in which every child names its parent. Lookup and climb cannot tell them apart. */
module Layout {
  import opened Types
  import opened Status
  import opened Block

  /** The devices of a forest as a list, each child naming its parent in PKNAME. */
  function Flatten(t: Devices, parentName: Option<string>): seq<Device> {
    match t
    case NoDevice => []
    case Nested(d, children, siblings) =>
      [Renamed(d, parentName)] + Flatten(children, Some(d.kname)) + Flatten(siblings, parentName)
  }

  function Renamed(d: Device, parentName: Option<string>): Device {
    if parentName.Some? then d.(pkname := parentName.value) else d
  }

  function AsSiblings(devices: seq<Device>): Devices {
    if devices == [] then NoDevice else Nested(devices[0], NoDevice, AsSiblings(devices[1..]))
  }

  function FlatLayout(t: Devices): Devices {
    AsSiblings(Flatten(t, None))
  }

  predicate Named(d: Device, base: string) {
    (d.name != "" && BaseName(d.name) == base) || (d.kname != "" && BaseName(d.kname) == base)
  }

  /** Every device has a kernel name, and no other device goes by it. */
  ghost predicate UniqueNames(nodes: seq<Device>) {
    forall i: nat, j: nat :: i < |nodes| && j < |nodes| && Named(nodes[j], BaseName(nodes[i].kname)) ==> i == j
  }

  ghost predicate AllNamed(nodes: seq<Device>) {
    forall i | 0 <= i < |nodes| :: nodes[i].kname != ""
  }

  // ----- A flat list is indexed without parents -----

  lemma {:induction false} AsSiblingsLaws(devices: seq<Device>, start: nat)
    ensures Preorder(AsSiblings(devices)) == devices
    ensures Parents(AsSiblings(devices), start, None) == map[]
    decreases |devices|
  {
    if devices != [] {
      AsSiblingsLaws(devices[1..], start + 1);
      var t := AsSiblings(devices);
      NestedPreorder(t);
      NestedParents(t, start, None);
      assert devices == [devices[0]] + [] + devices[1..];
    }
  }

  // ----- What the nesting of a forest says about each device -----

  /** A nested child as a flat list shows it, naming its parent; any other device unchanged. */
  function Shown(nodes: seq<Device>, parents: map<nat, nat>, k: nat): Device
    requires k < |nodes|
  {
    if k in parents && parents[k] < |nodes| then nodes[k].(pkname := nodes[parents[k]].kname) else nodes[k]
  }

  /** The flat list shows the devices from start on, and every parent precedes its child. */
  ghost predicate Agrees(nodes: seq<Device>, flat: seq<Device>, parents: map<nat, nat>, start: nat) {
    && start + |flat| <= |nodes|
    && (forall k | k in parents :: start <= k < start + |flat| && parents[k] < k)
    && forall k: nat | start <= k < start + |flat| :: flat[k - start] == Shown(nodes, parents, k)
  }

  lemma AgreesJoin(nodes: seq<Device>, a: seq<Device>, b: seq<Device>, m: map<nat, nat>, n: map<nat, nat>, start: nat)
    requires Agrees(nodes, a, m, start) && Agrees(nodes, b, n, start + |a|)
    ensures Agrees(nodes, a + b, m + n, start)
  {
    forall k: nat | start <= k < start + |a + b|
      ensures (a + b)[k - start] == Shown(nodes, m + n, k)
    {
      if k < start + |a| {
        assert k !in n;
        assert a[k - start] == Shown(nodes, m, k);
      } else {
        assert k !in m;
        assert b[k - (start + |a|)] == Shown(nodes, n, k);
      }
    }
  }

  lemma AgreesOne(nodes: seq<Device>, start: nat, parent: Option<nat>, parentName: Option<string>)
    requires start < |nodes|
    requires parent.Some? ==> parent.value < start && parentName == Some(nodes[parent.value].kname)
    requires parent.None? ==> parentName.None?
    ensures Agrees(nodes, [Renamed(nodes[start], parentName)], Own(start, parent), start)
  {
  }

  predicate Holds<T(==)>(nodes: seq<T>, start: nat, part: seq<T>) {
    start + |part| <= |nodes| && nodes[start..start + |part|] == part
  }

  lemma {:induction false} FlattenAgrees(nodes: seq<Device>, t: Devices, start: nat,
                                         parent: Option<nat>, parentName: Option<string>)
    requires Holds(nodes, start, Preorder(t))
    requires parent.Some? ==> parent.value < start && parentName == Some(nodes[parent.value].kname)
    requires parent.None? ==> parentName.None?
    ensures |Flatten(t, parentName)| == |Preorder(t)|
    ensures Agrees(nodes, Flatten(t, parentName), Parents(t, start, parent), start)
    decreases t
  {
    hide Agrees, Preorder, Parents, Own, Renamed, Flatten, Shown, Holds;
    match t
    case NoDevice =>
      AgreesNothing(nodes, start, parent, parentName);
    case Nested(d, children, siblings) =>
      var c, s := Preorder(children), Preorder(siblings);
      NestedPreorder(t);
      Sections(nodes, start, d, c, s);
      FlattenAgrees(nodes, children, start + 1, Some(start), Some(d.kname));
      FlattenAgrees(nodes, siblings, start + 1 + |c|, parent, parentName);
      AgreesOne(nodes, start, parent, parentName);
      FlattenNested(t, parentName);
      NestedParents(t, start, parent);
      AgreesInThree(nodes, [Renamed(d, parentName)], Flatten(children, Some(d.kname)), Flatten(siblings, parentName),
                    Own(start, parent), Parents(children, start + 1, Some(start)),
                    Parents(siblings, start + 1 + |c|, parent), start);
  }

  lemma AgreesNothing(nodes: seq<Device>, start: nat, parent: Option<nat>, parentName: Option<string>)
    requires Holds(nodes, start, Preorder(NoDevice))
    ensures |Flatten(NoDevice, parentName)| == |Preorder(NoDevice)|
    ensures Agrees(nodes, Flatten(NoDevice, parentName), Parents(NoDevice, start, parent), start)
  {
  }

  lemma AgreesInThree(nodes: seq<Device>, a: seq<Device>, b: seq<Device>, c: seq<Device>,
                      k: map<nat, nat>, m: map<nat, nat>, n: map<nat, nat>, start: nat)
    requires Agrees(nodes, a, k, start) && Agrees(nodes, b, m, start + |a|) && Agrees(nodes, c, n, start + |a| + |b|)
    ensures Agrees(nodes, a + b + c, k + m + n, start)
  {
    hide Agrees;
    AgreesJoin(nodes, a, b, k, m, start);
    AgreesJoin(nodes, a + b, c, k + m, n, start);
  }

  lemma Sections<T>(nodes: seq<T>, start: nat, d: T, c: seq<T>, s: seq<T>)
    requires Holds(nodes, start, [d] + c + s)
    ensures start < |nodes| && nodes[start] == d
    ensures Holds(nodes, start + 1, c) && Holds(nodes, start + 1 + |c|, s)
  {
    var all := [d] + c + s;
    assert nodes[start] == all[0];
    assert all[1..1 + |c|] == c;
    assert all[1 + |c|..] == s;
    SliceOfSlice(nodes, start, all, 1, 1 + |c|);
    SliceOfSlice(nodes, start, all, 1 + |c|, |all|);
  }

  lemma SliceOfSlice<T>(nodes: seq<T>, start: nat, all: seq<T>, lo: nat, hi: nat)
    requires Holds(nodes, start, all) && lo <= hi <= |all|
    ensures nodes[start + lo..start + hi] == all[lo..hi]
  {
    var part, whole := nodes[start + lo..start + hi], nodes[start..start + |all|];
    forall k: nat | k < hi - lo ensures part[k] == all[lo..hi][k] {
      assert part[k] == nodes[start + lo + k] == whole[lo + k];
    }
  }

  lemma FlattenNested(t: Devices, parentName: Option<string>)
    requires t.Nested?
    ensures Flatten(t, parentName) ==
            [Renamed(t.device, parentName)] + Flatten(t.children, Some(t.device.kname))
            + Flatten(t.siblings, parentName)
  {
  }

  /** The forest as a whole: positions agree, and parents come before their children. */
  lemma ForestAgrees(t: Devices)
    ensures |Flatten(t, None)| == |Preorder(t)|
    ensures Agrees(Preorder(t), Flatten(t, None), Parents(t, 0, None), 0)
  {
    hide Agrees, Preorder, Parents, Flatten;
    assert Preorder(t)[0..0 + |Preorder(t)|] == Preorder(t);
    FlattenAgrees(Preorder(t), t, 0, None, None);
  }

  // ----- Lookup depends on names and paths alone -----

  ghost predicate SameButParentName(a: seq<Device>, b: seq<Device>) {
    |a| == |b| && forall i | 0 <= i < |a| :: b[i] == a[i].(pkname := b[i].pkname)
  }

  lemma {:induction false} SameIndexes(a: seq<Device>, b: seq<Device>)
    requires SameButParentName(a, b)
    ensures NameIndex(a) == NameIndex(b) && PathIndex(a) == PathIndex(b)
    decreases |a|
  {
    if a != [] {
      hide BaseName;
      SameIndexes(a[..|a| - 1], b[..|b| - 1]);
    }
  }

  lemma {:induction false} NameBounds(nodes: seq<Device>)
    ensures forall k | k in NameIndex(nodes) :: NameIndex(nodes)[k] < |nodes| && Named(nodes[NameIndex(nodes)[k]], k)
    ensures forall k | k in PathIndex(nodes) ::
              k != "" && PathIndex(nodes)[k] < |nodes| && nodes[PathIndex(nodes)[k]].path == k
    decreases |nodes|
  {
    if nodes != [] {
      hide BaseName;
      NameBounds(nodes[..|nodes| - 1]);
    }
  }

  /** Where several devices share a name or a path, the last one listed is found. */
  lemma {:induction false} LastIsFound(nodes: seq<Device>, i: nat)
    requires i < |nodes|
    ensures forall k | k in NameIndex(nodes) && Named(nodes[i], k) :: i <= NameIndex(nodes)[k]
    ensures nodes[i].path in PathIndex(nodes) ==> i <= PathIndex(nodes)[nodes[i].path]
    decreases |nodes|
  {
    hide BaseName;
    var last := |nodes| - 1;
    NameBounds(nodes);
    if i < last {
      LastIsFound(nodes[..last], i);
      forall k | Named(nodes[i], k) ensures k in NameIndex(nodes[..last]) { NameFound(nodes[..last], i, k); }
      if nodes[i].path != "" { PathFound(nodes[..last], i); }
    }
  }

  lemma {:induction false} NameFound(nodes: seq<Device>, i: nat, base: string)
    requires i < |nodes| && Named(nodes[i], base)
    ensures base in NameIndex(nodes)
    decreases |nodes|
  {
    hide BaseName;
    if i < |nodes| - 1 { NameFound(nodes[..|nodes| - 1], i, base); }
  }

  lemma {:induction false} PathFound(nodes: seq<Device>, i: nat)
    requires i < |nodes| && nodes[i].path != ""
    ensures nodes[i].path in PathIndex(nodes)
    decreases |nodes|
  {
    if i < |nodes| - 1 { PathFound(nodes[..|nodes| - 1], i); }
  }

  /** With unique names, a kernel name leads back to its device. */
  lemma NameLeadsBack(nodes: seq<Device>, i: nat)
    requires UniqueNames(nodes) && AllNamed(nodes) && i < |nodes|
    ensures BaseName(nodes[i].kname) in NameIndex(nodes) && NameIndex(nodes)[BaseName(nodes[i].kname)] == i
  {
    hide BaseName, NameIndex, PathIndex;
    NameFound(nodes, i, BaseName(nodes[i].kname));
    NameBounds(nodes);
  }

  // ----- The two layouts -----

  /** An index never points outside its devices, so every lookup yields a device. */
  lemma IndexIsSound(t: Devices)
    ensures Sound(IndexOf(t))
    ensures forall i | i in IndexOf(t).parentOf :: IndexOf(t).parentOf[i] < i < |IndexOf(t).nodes|
    ensures forall path | Find(IndexOf(t), path).Some? ::
              var i := Find(IndexOf(t), path).value;
              i < |IndexOf(t).nodes| && (IndexOf(t).nodes[i].path == path || Named(IndexOf(t).nodes[i], BaseName(path)))
  {
    hide BaseName, NameIndex, PathIndex, Preorder, Parents, Named;
    NameBounds(Preorder(t));
    ForestAgrees(t);
  }

  /** A device answers to its path and to its base names. */
  predicate AnswersTo(d: Device, path: string) {
    (d.path == path && path != "") || Named(d, BaseName(path))
  }

  /** A lookup finds nothing if and only if no device answers to the path. */
  lemma FindsNothingIff(t: Devices, path: string)
    ensures Find(IndexOf(t), path).None? <==> forall d | d in Preorder(t) :: !AnswersTo(d, path)
  {
    hide BaseName, NameIndex, PathIndex, Preorder, Parents, Named;
    var nodes := Preorder(t);
    NameBounds(nodes);
    if path in PathIndex(nodes) {
      var d := nodes[PathIndex(nodes)[path]];
      assert d in nodes && AnswersTo(d, path);
    } else if BaseName(path) in NameIndex(nodes) {
      var d := nodes[NameIndex(nodes)[BaseName(path)]];
      assert d in nodes && AnswersTo(d, path);
    }
    forall d | d in nodes && AnswersTo(d, path)
      ensures path in PathIndex(nodes) || BaseName(path) in NameIndex(nodes)
    {
      var i :| 0 <= i < |nodes| && nodes[i] == d;
      if d.path == path && path != "" { PathFound(nodes, i); } else { NameFound(nodes, i, BaseName(path)); }
    }
  }

  lemma FlattenKeeps(t: Devices)
    ensures SameButParentName(Preorder(t), Flatten(t, None))
  {
    hide Preorder, Parents, Flatten;
    ForestAgrees(t);
    var nodes, flat := Preorder(t), Flatten(t, None);
    forall i: nat | i < |nodes| ensures flat[i] == nodes[i].(pkname := flat[i].pkname) {
      assert flat[i - 0] == Shown(nodes, Parents(t, 0, None), i);
    }
  }

  lemma FlatIndex(t: Devices)
    ensures var x, y := IndexOf(t), IndexOf(FlatLayout(t));
            && SameButParentName(x.nodes, y.nodes)
            && y == x.(nodes := Flatten(t, None), parentOf := map[])
  {
    hide BaseName, NameIndex, PathIndex, Preorder, Parents, Flatten, AsSiblings, SameButParentName;
    FlattenKeeps(t);
    AsSiblingsLaws(Flatten(t, None), 0);
    SameIndexes(Preorder(t), Flatten(t, None));
  }

  lemma SameStep(t: Devices, i: nat)
    requires UniqueNames(Preorder(t)) && AllNamed(Preorder(t)) && i < |Preorder(t)|
    ensures i < |IndexOf(FlatLayout(t)).nodes| && Next(IndexOf(FlatLayout(t)), i) == Next(IndexOf(t), i)
  {
    hide BaseName, NameIndex, PathIndex, Preorder, Parents, Flatten, FlatLayout;
    FlatIndex(t);
    ForestAgrees(t);
    var x := IndexOf(t);
    assert Flatten(t, None)[i - 0] == Shown(x.nodes, x.parentOf, i);
    if i in x.parentOf { NameLeadsBack(x.nodes, x.parentOf[i]); }
  }

  lemma {:induction false} SameClimb(x: Index, y: Index, i: nat, n: nat)
    requires |x.nodes| == |y.nodes| && i < |x.nodes|
    requires forall j: nat | j < |x.nodes| :: Next(x, j) == Next(y, j)
    ensures HaltsIn(x, i, n) <==> HaltsIn(y, i, n)
    ensures HaltsIn(x, i, n) ==> End(x, i, n) == End(y, i, n)
    decreases n
  {
    if Next(x, i).Some? && n > 0 && Next(x, i).value < |x.nodes| {
      SameClimb(x, y, Next(x, i).value, n - 1);
    }
  }

  /** Nested and flat listings of uniquely named devices are looked up alike, and every climb
      halts in the same number of steps at the same device, with the same identity. */
  lemma LayoutDoesNotMatter(t: Devices)
    requires UniqueNames(Preorder(t)) && AllNamed(Preorder(t))
    ensures var x, y := IndexOf(t), IndexOf(FlatLayout(t));
            && SameButParentName(x.nodes, y.nodes)
            && (forall path :: Find(y, path) == Find(x, path))
            && (forall i: nat, n: nat | i < |x.nodes| ::
                  && (HaltsIn(y, i, n) <==> HaltsIn(x, i, n))
                  && (HaltsIn(x, i, n) ==> End(y, i, n) == End(x, i, n)))
  {
    hide BaseName, NameIndex, PathIndex, Preorder, Parents, FlatLayout;
    var x, y := IndexOf(t), IndexOf(FlatLayout(t));
    FlatIndex(t);
    forall i: nat | i < |x.nodes| ensures Next(x, i) == Next(y, i) { SameStep(t, i); }
    forall i: nat, n: nat | i < |x.nodes|
      ensures HaltsIn(y, i, n) <==> HaltsIn(x, i, n)
      ensures HaltsIn(x, i, n) ==> End(y, i, n) == End(x, i, n)
    {
      SameClimb(x, y, i, n);
    }
  }

  /** Parents precede children, so only a top-level partition that names a parent can keep a
      climb from ending: without one, every climb from position i ends within i steps. */
  lemma ForestClimbsHalt(t: Devices, i: nat)
    requires i < |Preorder(t)|
    requires forall j: nat | j < |Preorder(t)| && j !in Parents(t, 0, None) ::
               Preorder(t)[j].kind != "part" || Preorder(t)[j].pkname == ""
    ensures HaltsIn(IndexOf(t), i, i)
  {
    hide BaseName, NameIndex, PathIndex, Preorder, Parents;
    IndexIsSound(t);
    var x := IndexOf(t);
    RankedHalts(x, j => j, i);
  }

  // ----- The order of a listing -----

  ghost predicate UniquePaths(nodes: seq<Device>) {
    forall i: nat, j: nat ::
      i < |nodes| && j < |nodes| && nodes[i].path == nodes[j].path && nodes[i].path != "" ==> i == j
  }

  /** No two devices go by one name. */
  ghost predicate UniqueInAllNames(nodes: seq<Device>) {
    forall i: nat, j: nat, base ::
      i < |nodes| && j < |nodes| && Named(nodes[i], base) && Named(nodes[j], base) ==> i == j
  }

  /** With unique paths, looking a device up by its path finds that device. */
  lemma PathLeadsBack(t: Devices, i: nat)
    requires UniquePaths(Preorder(t)) && i < |Preorder(t)| && Preorder(t)[i].path != ""
    ensures Find(IndexOf(t), Preorder(t)[i].path) == Some(i)
  {
    hide BaseName, NameIndex, PathIndex, Preorder;
    PathFound(Preorder(t), i);
    NameBounds(Preorder(t));
  }

  /** The list b is the list a in another order: what is at i in a is at p[i] in b. */
  ghost predicate Reorders(p: seq<nat>, a: seq<Device>, b: seq<Device>) {
    && |p| == |a| == |b|
    && (forall i | 0 <= i < |p| :: p[i] < |b| && b[p[i]] == a[i])
    && (forall k: nat | k < |b| :: k in p)
  }

  function Moved(p: seq<nat>, i: Option<nat>): Option<nat> {
    if i.Some? && i.value < |p| then Some(p[i.value]) else None
  }

  lemma FlatIndexOf(a: seq<Device>)
    ensures IndexOf(AsSiblings(a)) == Index(a, PathIndex(a), NameIndex(a), map[])
  {
    hide PathIndex, NameIndex, Preorder, Parents, AsSiblings;
    AsSiblingsLaws(a, 0);
  }

  lemma NameMoves(a: seq<Device>, b: seq<Device>, p: seq<nat>, base: string)
    requires Reorders(p, a, b) && UniqueInAllNames(a)
    ensures base in NameIndex(b) <==> base in NameIndex(a)
    ensures base in NameIndex(a) ==> NameIndex(a)[base] < |p| && NameIndex(b)[base] == p[NameIndex(a)[base]]
  {
    hide BaseName, NameIndex, PathIndex, Named;
    NameBounds(a);
    NameBounds(b);
    if base in NameIndex(a) { NameFound(b, p[NameIndex(a)[base]], base); }
    if base in NameIndex(b) {
      assert NameIndex(b)[base] in p;
      var i :| 0 <= i < |p| && p[i] == NameIndex(b)[base];
      NameFound(a, i, base);
    }
  }

  lemma PathMoves(a: seq<Device>, b: seq<Device>, p: seq<nat>, path: string)
    requires Reorders(p, a, b) && UniquePaths(a)
    ensures path in PathIndex(b) <==> path in PathIndex(a)
    ensures path in PathIndex(a) ==> PathIndex(a)[path] < |p| && PathIndex(b)[path] == p[PathIndex(a)[path]]
  {
    hide BaseName, NameIndex, PathIndex, Named;
    NameBounds(a);
    NameBounds(b);
    if path in PathIndex(a) { PathFound(b, p[PathIndex(a)[path]]); }
    if path in PathIndex(b) {
      assert PathIndex(b)[path] in p;
      var i :| 0 <= i < |p| && p[i] == PathIndex(b)[path];
      PathFound(a, i);
    }
  }

  lemma StepMoves(a: seq<Device>, b: seq<Device>, p: seq<nat>, i: nat)
    requires Reorders(p, a, b) && UniqueInAllNames(a) && i < |a|
    ensures IndexOf(AsSiblings(a)).nodes == a && IndexOf(AsSiblings(b)).nodes == b
    ensures Next(IndexOf(AsSiblings(b)), p[i]) == Moved(p, Next(IndexOf(AsSiblings(a)), i))
    ensures Next(IndexOf(AsSiblings(a)), i).Some? ==> Next(IndexOf(AsSiblings(a)), i).value < |a|
  {
    hide BaseName, NameIndex, PathIndex, UniqueInAllNames, AsSiblings, IndexOf;
    FlatIndexOf(a);
    FlatIndexOf(b);
    NameMoves(a, b, p, BaseName(a[i].pkname));
  }

  /** Each step of y is the step of x, moved by p. */
  ghost predicate StepsMove(x: Index, y: Index, p: seq<nat>) {
    && |p| == |x.nodes| == |y.nodes|
    && (forall j | 0 <= j < |p| :: p[j] < |p|)
    && forall j: nat | j < |p| ::
         Next(y, p[j]) == Moved(p, Next(x, j)) && (Next(x, j).Some? ==> Next(x, j).value < |p|)
  }

  lemma {:induction false} ClimbMoves(x: Index, y: Index, p: seq<nat>, i: nat, n: nat)
    requires StepsMove(x, y, p) && i < |p|
    ensures HaltsIn(y, p[i], n) <==> HaltsIn(x, i, n)
    ensures HaltsIn(x, i, n) ==> End(y, p[i], n) == p[End(x, i, n)]
    decreases n
  {
    if Next(x, i).Some? && n > 0 { ClimbMoves(x, y, p, Next(x, i).value, n - 1); }
  }

  /** The order in which uniquely named devices are listed does not matter: every path finds
      the same device, and every climb ends at the same device after as many steps. */
  lemma OrderDoesNotMatter(a: seq<Device>, b: seq<Device>, p: seq<nat>)
    requires Reorders(p, a, b) && UniqueInAllNames(a) && UniquePaths(a)
    ensures var x, y := IndexOf(AsSiblings(a)), IndexOf(AsSiblings(b));
            && |x.nodes| == |y.nodes| == |p|
            && (forall path :: Find(y, path) == Moved(p, Find(x, path)))
            && (forall i: nat, n: nat | i < |p| ::
                  && (HaltsIn(y, p[i], n) <==> HaltsIn(x, i, n))
                  && (HaltsIn(x, i, n) ==> End(y, p[i], n) == p[End(x, i, n)]))
  {
    hide BaseName, NameIndex, PathIndex, UniqueInAllNames, UniquePaths, AsSiblings, IndexOf;
    var x, y := IndexOf(AsSiblings(a)), IndexOf(AsSiblings(b));
    FlatIndexOf(a);
    FlatIndexOf(b);
    forall path ensures Find(y, path) == Moved(p, Find(x, path)) {
      PathMoves(a, b, p, path);
      NameMoves(a, b, p, BaseName(path));
    }
    forall j: nat | j < |p|
      ensures Next(y, p[j]) == Moved(p, Next(x, j)) && (Next(x, j).Some? ==> Next(x, j).value < |p|)
    {
      StepMoves(a, b, p, j);
    }
    assert StepsMove(x, y, p);
    forall i: nat, n: nat | i < |p|
      ensures HaltsIn(y, p[i], n) <==> HaltsIn(x, i, n)
      ensures HaltsIn(x, i, n) ==> End(y, p[i], n) == p[End(x, i, n)]
    {
      ClimbMoves(x, y, p, i, n);
    }
  }
}
