/** The block-device index: nested lsblk output, lookup by path or name, and the climb from
    a partition to its physical disk. Paths are taken to be clean already. */
module Block {
  import opened Types
  import opened Status

  datatype Device = Device(name: string, kname: string, path: string, kind: string, pkname: string,
                           serial: string, wwn: string, model: string)

  /** Devices with their nested children, as lsblk lists them. */
  datatype Devices = NoDevice | Nested(device: Device, children: Devices, siblings: Devices)

  /** A node is named by its position in the order of discovery. */
  datatype Index = Index(nodes: seq<Device>, byPath: map<string, nat>, byName: map<string, nat>,
                         parentOf: map<nat, nat>)

  // ----- What indexing computes -----

  function Preorder(t: Devices): seq<Device> {
    match t
    case NoDevice => []
    case Nested(d, children, siblings) => [d] + Preorder(children) + Preorder(siblings)
  }

  /** The nested parent of every node, counting nodes from start. */
  function Parents(t: Devices, start: nat, parent: Option<nat>): map<nat, nat> {
    match t
    case NoDevice => map[]
    case Nested(d, children, siblings) =>
      Own(start, parent)
      + Parents(children, start + 1, Some(start))
      + Parents(siblings, start + 1 + |Preorder(children)|, parent)
  }

  /** The entry of a node itself: a top-level node has none. */
  function Own(start: nat, parent: Option<nat>): map<nat, nat> {
    if parent.Some? then map[start := parent.value] else map[]
  }

  /** Later devices override earlier ones of the same base name. */
  function NameIndex(nodes: seq<Device>): map<string, nat> {
    if nodes == [] then map[]
    else
      var n := |nodes| - 1;
      WithName(WithName(NameIndex(nodes[..n]), nodes[n].name, n), nodes[n].kname, n)
  }

  function WithName(m: map<string, nat>, name: string, n: nat): map<string, nat> {
    if name == "" then m else m[BaseName(name) := n]
  }

  function PathIndex(nodes: seq<Device>): map<string, nat> {
    if nodes == [] then map[]
    else
      var n := |nodes| - 1;
      if nodes[n].path == "" then PathIndex(nodes[..n]) else PathIndex(nodes[..n])[nodes[n].path := n]
  }

  function IndexOf(t: Devices): Index {
    Index(Preorder(t), PathIndex(Preorder(t)), NameIndex(Preorder(t)), Parents(t, 0, None))
  }

  function Find(x: Index, path: string): Option<nat> {
    if path in x.byPath then Some(x.byPath[path])
    else if BaseName(path) in x.byName then Some(x.byName[BaseName(path)])
    else None
  }

  /** One step of the climb: a partition's nested parent, else the device its PKNAME names. */
  function Next(x: Index, i: nat): Option<nat>
    requires i < |x.nodes|
  {
    if x.nodes[i].kind != "part" then None
    else if i in x.parentOf then Some(x.parentOf[i])
    else if x.nodes[i].pkname != "" && BaseName(x.nodes[i].pkname) in x.byName
    then Some(x.byName[BaseName(x.nodes[i].pkname)])
    else None
  }

  ghost predicate Sound(x: Index) {
    && (forall k | k in x.byPath :: x.byPath[k] < |x.nodes|)
    && (forall k | k in x.byName :: x.byName[k] < |x.nodes|)
    && (forall i | i in x.parentOf :: x.parentOf[i] < |x.nodes|)
  }

  // ----- The climb -----

  predicate HaltsIn(x: Index, i: nat, n: nat)
    requires i < |x.nodes|
    decreases n
  {
    Next(x, i).None? || (n > 0 && Next(x, i).value < |x.nodes| && HaltsIn(x, Next(x, i).value, n - 1))
  }

  ghost predicate Halts(x: Index, i: nat)
    requires i < |x.nodes|
  {
    exists n: nat :: HaltsIn(x, i, n)
  }

  /** Where a climb that halts ends. */
  function End(x: Index, i: nat, n: nat): (e: nat)
    requires i < |x.nodes| && HaltsIn(x, i, n)
    ensures e < |x.nodes| && Next(x, e).None?
    decreases n
  {
    if Next(x, i).None? then i else End(x, Next(x, i).value, n - 1)
  }

  lemma {:induction false} EndUnique(x: Index, i: nat, n: nat, m: nat)
    requires i < |x.nodes| && HaltsIn(x, i, n) && HaltsIn(x, i, m)
    ensures End(x, i, n) == End(x, i, m)
    decreases n
  {
    if Next(x, i).Some? { EndUnique(x, Next(x, i).value, n - 1, m - 1); }
  }

  /** The least number of steps after which the climb halts. */
  lemma {:induction false} LeastSteps(x: Index, i: nat, n: nat) returns (m: nat)
    requires i < |x.nodes| && HaltsIn(x, i, n)
    ensures m <= n && HaltsIn(x, i, m) && (m > 0 ==> !HaltsIn(x, i, m - 1))
  {
    if n == 0 || !HaltsIn(x, i, n - 1) { m := n; } else { m := LeastSteps(x, i, n - 1); }
  }

  lemma {:induction false} HaltsLater(x: Index, i: nat, n: nat, m: nat)
    requires i < |x.nodes| && HaltsIn(x, i, n) && n <= m
    ensures HaltsIn(x, i, m)
    decreases n
  {
    if Next(x, i).Some? { HaltsLater(x, Next(x, i).value, n - 1, m - 1); }
  }

  /** The nodes passed on the way; they all differ when n is the least number of steps. */
  lemma {:induction false} PathSize(x: Index, i: nat, n: nat) returns (passed: set<nat>)
    requires Sound(x) && i < |x.nodes| && HaltsIn(x, i, n) && (n > 0 ==> !HaltsIn(x, i, n - 1))
    ensures |passed| == n + 1
    ensures forall j | j in passed :: j < |x.nodes| && HaltsIn(x, j, n)
    decreases n
  {
    if n == 0 {
      passed := {i};
    } else {
      var next := Next(x, i).value;
      var rest := PathSize(x, next, n - 1);
      assert i !in rest;
      passed := rest + {i};
      forall j | j in passed ensures j < |x.nodes| && HaltsIn(x, j, n) {
        if j != i { HaltsLater(x, j, n - 1, n); }
      }
    }
  }

  lemma {:induction false} SmallSet(s: set<nat>, bound: nat)
    requires forall j | j in s :: j < bound
    ensures |s| <= bound
    decreases bound
  {
    if bound > 0 {
      var smaller := s - {bound - 1};
      SmallSet(smaller, bound - 1);
      assert bound - 1 in s ==> s == smaller + {bound - 1};
      assert bound - 1 !in s ==> s == smaller;
    } else {
      assert s == {};
    }
  }

  /** The exact condition for the climb to terminate, which a caller can evaluate: it halts if
      and only if it halts within as many steps as there are devices. */
  lemma HaltsIffWithinSize(x: Index, i: nat)
    requires Sound(x) && i < |x.nodes|
    ensures Halts(x, i) <==> HaltsIn(x, i, |x.nodes|)
  {
    if Halts(x, i) {
      var n: nat :| HaltsIn(x, i, n);
      var m := LeastSteps(x, i, n);
      var passed := PathSize(x, i, m);
      SmallSet(passed, |x.nodes|);
      HaltsLater(x, i, m, |x.nodes|);
    }
  }

  /** Every step of a climb lowers the rank. */
  ghost predicate Falls(x: Index, rank: nat -> nat) {
    forall j: nat | j < |x.nodes| && Next(x, j).Some? :: rank(Next(x, j).value) < rank(j)
  }

  /** Acyclicity in the form of a rank that every step lowers is enough. */
  lemma {:induction false} RankedHalts(x: Index, rank: nat -> nat, i: nat)
    requires Sound(x) && i < |x.nodes|
    requires Falls(x, rank)
    ensures HaltsIn(x, i, rank(i))
    decreases rank(i)
  {
    if Next(x, i).Some? {
      var j := Next(x, i).value;
      RankedHalts(x, rank, j);
      HaltsLater(x, j, rank(j), rank(i) - 1);
    }
  }

  /** How many steps a climb takes. */
  function Steps(x: Index, i: nat, n: nat): nat
    requires i < |x.nodes| && HaltsIn(x, i, n)
    decreases n
  {
    if Next(x, i).None? then 0 else 1 + Steps(x, Next(x, i).value, n - 1)
  }

  lemma {:induction false} StepsUnique(x: Index, i: nat, n: nat, m: nat)
    requires i < |x.nodes| && HaltsIn(x, i, n) && HaltsIn(x, i, m)
    ensures Steps(x, i, n) == Steps(x, i, m)
    decreases n
  {
    if Next(x, i).Some? { StepsUnique(x, Next(x, i).value, n - 1, m - 1); }
  }

  /** All climbs end if and only if there is a rank that every step lowers: acyclicity. */
  lemma AllHaltIffRanked(x: Index)
    requires Sound(x)
    ensures (forall i: nat | i < |x.nodes| :: Halts(x, i)) <==> exists rank: nat -> nat :: Falls(x, rank)
  {
    var size := |x.nodes|;
    if forall i: nat | i < size :: Halts(x, i) {
      forall i: nat | i < size ensures HaltsIn(x, i, size) { HaltsIffWithinSize(x, i); }
      var rank := (i: nat) => if i < size && HaltsIn(x, i, size) then Steps(x, i, size) else 0;
      forall j: nat | j < size && Next(x, j).Some? ensures rank(Next(x, j).value) < rank(j) {
        assert HaltsIn(x, j, size) && HaltsIn(x, Next(x, j).value, size);
        StepsUnique(x, Next(x, j).value, size, size - 1);
      }
      assert Falls(x, rank);
    }
    if rank: nat -> nat :| Falls(x, rank) {
      forall i: nat | i < size ensures Halts(x, i) { RankedHalts(x, rank, i); }
    }
  }

  /** Nothing in the code prevents a cycle: a top-level partition whose PKNAME is its own name
      is climbed from forever. */
  lemma SelfNamedPartitionNeverHalts()
    ensures exists t: Devices :: Preorder(t) != [] && Sound(IndexOf(t)) && !Halts(IndexOf(t), 0)
  {
    var d := Device("sda1", "sda1", "/dev/sda1", "part", "sda1", "", "", "");
    var t := Nested(d, NoDevice, NoDevice);
    assert Preorder(t) == [d];
    assert [d][..0] == [];
    assert NameIndex([d]) == map[BaseName("sda1") := 0];
    assert PathIndex([d]) == map["/dev/sda1" := 0];
    var x := IndexOf(t);
    assert Next(x, 0) == Some(0);
    forall n: nat ensures !HaltsIn(x, 0, n) { LoopsForever(x, 0, n); }
  }

  lemma {:induction false} LoopsForever(x: Index, i: nat, n: nat)
    requires i < |x.nodes| && Next(x, i) == Some(i)
    ensures !HaltsIn(x, i, n)
    decreases n
  {
    if n > 0 { LoopsForever(x, i, n - 1); }
  }

  // ----- The index as it is built and used -----

  lemma IndexSnoc(nodes: seq<Device>, d: Device)
    ensures var n := |nodes|;
            && NameIndex(nodes + [d]) == WithName(WithName(NameIndex(nodes), d.name, n), d.kname, n)
            && PathIndex(nodes + [d]) == if d.path == "" then PathIndex(nodes) else PathIndex(nodes)[d.path := n]
  {
    hide BaseName;
    assert (nodes + [d])[..|nodes|] == nodes;
  }

  lemma AddedNothing(nodes: seq<Device>, parentOf: map<nat, nat>, parent: Option<nat>)
    ensures nodes + Preorder(NoDevice) == nodes
    ensures parentOf + Parents(NoDevice, |nodes|, parent) == parentOf
  {
  }

  lemma NestedPreorder(t: Devices)
    requires t.Nested?
    ensures Preorder(t) == [t.device] + Preorder(t.children) + Preorder(t.siblings)
  {
  }

  lemma NestedParents(t: Devices, start: nat, parent: Option<nat>)
    requires t.Nested?
    ensures Parents(t, start, parent) ==
            Own(start, parent) + Parents(t.children, start + 1, Some(start))
            + Parents(t.siblings, start + 1 + |Preorder(t.children)|, parent)
  {
  }

  /** Adding a node, then its children, then its siblings adds the whole tree. */
  lemma AddedNested(nodes: seq<Device>, parentOf: map<nat, nat>, t: Devices, parent: Option<nat>)
    requires t.Nested?
    ensures var n := |nodes|;
            && nodes + [t.device] + Preorder(t.children) + Preorder(t.siblings) == nodes + Preorder(t)
            && |nodes + [t.device] + Preorder(t.children)| == n + 1 + |Preorder(t.children)|
            && parentOf + Own(n, parent) + Parents(t.children, n + 1, Some(n))
               + Parents(t.siblings, n + 1 + |Preorder(t.children)|, parent)
               == parentOf + Parents(t, n, parent)
  {
    hide Preorder, Parents, Own;
    var n := |nodes|;
    NestedPreorder(t);
    NestedParents(t, n, parent);
  }

  class BlockIndex {
    var nodes: seq<Device>
    var byPath: map<string, nat>
    var byName: map<string, nat>
    var parentOf: map<nat, nat>

    constructor ()
      ensures Value() == Index([], map[], map[], map[])
    {
      nodes, byPath, byName, parentOf := [], map[], map[], map[];
    }

    function Value(): Index
      reads this
    {
      Index(nodes, byPath, byName, parentOf)
    }

    method Register(device: Device, parent: Option<nat>) returns (node: nat)
      requires byPath == PathIndex(nodes) && byName == NameIndex(nodes)
      modifies this
      ensures node == |old(nodes)| && nodes == old(nodes) + [device]
      ensures byPath == PathIndex(nodes) && byName == NameIndex(nodes)
      ensures parentOf == old(parentOf) + Own(node, parent)
    {
      hide NameIndex, PathIndex, BaseName;
      IndexSnoc(nodes, device);
      node := |nodes|;
      if device.path != "" { byPath := byPath[device.path := node]; }
      byName := WithName(byName, device.name, node);
      byName := WithName(byName, device.kname, node);
      assert parent.None? ==> parentOf + Own(node, parent) == parentOf;
      if parent.Some? { parentOf := parentOf[node := parent.value]; }
      nodes := nodes + [device];
    }

    method Add(t: Devices, parent: Option<nat>)
      requires byPath == PathIndex(nodes) && byName == NameIndex(nodes)
      modifies this
      ensures nodes == old(nodes) + Preorder(t)
      ensures byPath == PathIndex(nodes) && byName == NameIndex(nodes)
      ensures parentOf == old(parentOf) + Parents(t, |old(nodes)|, parent)
      decreases t
    {
      hide NameIndex, PathIndex, Preorder, Parents, Own;
      match t
      case NoDevice =>
        AddedNothing(nodes, parentOf, parent);
      case Nested(device, children, siblings) =>
        var node := Register(device, parent);
        Add(children, Some(node));
        Add(siblings, parent);
        AddedNested(old(nodes), old(parentOf), t, parent);
    }

    /** The climb, for a node from which it terminates: it ends at the first ancestor that is no
        partition, or at a partition none of whose parents is known. */
    method Physical(node: nat) returns (current: nat)
      requires node < |nodes| && Sound(Value()) && Halts(Value(), node)
      ensures current < |nodes| && HaltsIn(Value(), node, |nodes|) && current == End(Value(), node, |nodes|)
      ensures nodes[current].kind != "part" ||
              (current !in parentOf && (nodes[current].pkname == "" || BaseName(nodes[current].pkname) !in byName))
    {
      HaltsIffWithinSize(Value(), node);
      ghost var left: nat := |nodes|;
      current := node;
      while nodes[current].kind == "part"
        invariant current < |nodes| && HaltsIn(Value(), current, left)
        invariant End(Value(), current, left) == End(Value(), node, |nodes|)
        decreases left
      {
        if current in parentOf {
          current := parentOf[current];
        } else if nodes[current].pkname != "" && BaseName(nodes[current].pkname) in byName {
          current := byName[BaseName(nodes[current].pkname)];
        } else {
          break;
        }
        left := left - 1;
      }
    }
  }

  lemma NoNames()
    ensures NameIndex([]) == map[] && PathIndex([]) == map[]
  {
  }

  method ParseDevices(t: Devices) returns (index: BlockIndex)
    ensures fresh(index) && index.Value() == IndexOf(t)
  {
    hide Preorder, Parents, NameIndex, PathIndex;
    index := new BlockIndex();
    NoNames();
    index.Add(t, None);
    assert [] + Preorder(t) == Preorder(t);
    assert map[] + Parents(t, 0, None) == Parents(t, 0, None);
  }
}
