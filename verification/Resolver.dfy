/** From a path to the identity of a physical disk: the device index, the climb, and udev as a
    second source. This is where the join of leaves to identities gets its identities. */
module Resolver {
  import opened Types
  import opened Text
  import opened Status
  import opened Enclosure
  import opened Inventory
  import opened Block
  import opened Layout

  /** What udev says about a device: its properties or an error. */
  datatype Answer = NoAnswer(code: ErrorCode) | Properties(values: map<string, string>)

  /** One path to resolve: where its symbolic links lead, if that could be found out, and what
      udev would say about the disk behind it. */
  datatype Query = Query(path: string, target: Option<string>, answer: Answer)

  function Sought(q: Query): string {
    if q.target.Some? && q.target.value != "" then q.target.value else q.path
  }

  /** The path of a device, or a path made from its name. */
  function DevicePath(d: Device): string {
    var p, n, k := TrimSpace(d.path), TrimSpace(d.name), TrimSpace(d.kname);
    if p != "" then Rooted(p) else if n != "" then Rooted(n) else if k != "" then Rooted(k) else ""
  }

  function Rooted(value: string): string {
    if "/" <= value then value else "/dev/" + BaseName(value)
  }

  function Property(values: map<string, string>, key: string): string {
    if key in values then values[key] else ""
  }

  function FirstValue(values: map<string, string>, keys: seq<string>): string {
    if keys == [] then ""
    else if TrimSpace(Property(values, keys[0])) != "" then Property(values, keys[0])
    else FirstValue(values, keys[1..])
  }

  const SERIAL_KEYS := ["ID_SCSI_SERIAL", "ID_SERIAL_SHORT", "SCSI_IDENT_SERIAL", "ID_SERIAL"]
  const WWN_KEYS := ["ID_WWN_WITH_EXTENSION", "ID_WWN"]
  const MODEL_KEYS := ["ID_MODEL", "ID_SCSI_MODEL"]

  /** What lsblk says about a device and the physical disk under it. */
  function Reported(device: Device, disk: Device): Identity {
    Identity(DevicePath(device), DevicePath(disk), NormalizeIdentity(disk.serial), NormalizeWWN(disk.wwn),
             TrimSpace(disk.model))
  }

  predicate Incomplete(id: Identity) {
    id.serial == "" || id.wwn == "" || id.model == ""
  }

  /** The missing parts, and only those, come from udev. */
  function Completed(id: Identity, values: map<string, string>): Identity {
    id.(serial := if id.serial == "" then NormalizeIdentity(FirstValue(values, SERIAL_KEYS)) else id.serial,
        wwn := if id.wwn == "" then NormalizeWWN(FirstValue(values, WWN_KEYS)) else id.wwn,
        model := if id.model == "" then TrimSpace(FirstValue(values, MODEL_KEYS)) else id.model)
  }

  function Consult(id: Identity, answer: Answer): (Identity, seq<Diagnostic>) {
    if !Incomplete(id) then (id, [])
    else if id.parentDevice == "" then (id, [Diagnostic(NotFound, "udevadm")])
    else
      match answer
      case NoAnswer(code) => (id, [Diagnostic(code, "udevadm")])
      case Properties(values) => (Completed(id, values), [])
  }

  /** The climb from what the query finds ends. */
  predicate Climbs(x: Index, q: Query) {
    var node := Find(x, Sought(q));
    node.Some? ==> node.value < |x.nodes| && HaltsIn(x, node.value, |x.nodes|)
  }

  /** The device a query finds and the physical disk under it. */
  function Behind(x: Index, q: Query): Option<(Device, Device)>
    requires Climbs(x, q)
  {
    match Find(x, Sought(q))
    case None => None
    case Some(node) => Some((x.nodes[node], x.nodes[End(x, node, |x.nodes|)]))
  }

  function IdentityOf(x: Index, q: Query): (Option<Identity>, seq<Diagnostic>)
    requires Climbs(x, q)
  {
    match Behind(x, q)
    case None => (None, [Diagnostic(NotFound, "lsblk")])
    case Some((device, disk)) =>
      var (id, diagnostics) := Consult(Reported(device, disk), q.answer);
      (Some(id), diagnostics)
  }

  /** All queries in order: a later one overrides the identity of the same path and adds to its
      diagnostics. */
  function Identities(x: Index, queries: seq<Query>): map<string, Identity>
    requires forall q | q in queries :: Climbs(x, q)
  {
    if queries == [] then map[]
    else
      var q := queries[|queries| - 1];
      var before := Identities(x, queries[..|queries| - 1]);
      match IdentityOf(x, q).0
      case None => before
      case Some(id) => before[q.path := id]
  }

  function Troubles(x: Index, queries: seq<Query>): map<string, seq<Diagnostic>>
    requires forall q | q in queries :: Climbs(x, q)
  {
    if queries == [] then map[]
    else
      var q := queries[|queries| - 1];
      Noted(Troubles(x, queries[..|queries| - 1]), q.path, IdentityOf(x, q).1)
  }

  function Noted(m: map<string, seq<Diagnostic>>, path: string, more: seq<Diagnostic>): map<string, seq<Diagnostic>> {
    if more == [] then m else m[path := (if path in m then m[path] else []) + more]
  }

  /** The loop over the paths, on an index as it was built. */
  method Resolve(index: BlockIndex, queries: seq<Query>) returns (resolution: Resolution)
    requires Sound(index.Value()) && forall q | q in queries :: Climbs(index.Value(), q)
    ensures resolution == Resolved(Identities(index.Value(), queries), Troubles(index.Value(), queries))
  {
    hide NormalizeIdentity, NormalizeWWN, TrimSpace, FirstValue, DevicePath, HaltsIn, End, Next, BaseName;
    var identities: map<string, Identity>, diagnostics: map<string, seq<Diagnostic>> := map[], map[];
    for i := 0 to |queries|
      invariant identities == Identities(index.Value(), queries[..i])
      invariant diagnostics == Troubles(index.Value(), queries[..i])
    {
      var q := queries[i];
      assert queries[..i + 1][..i] == queries[..i];
      var id, more := ResolveOne(index, q);
      if id.Some? { identities := identities[q.path := id.value]; }
      diagnostics := Noted(diagnostics, q.path, more);
    }
    assert queries[..|queries|] == queries;
    resolution := Resolved(identities, diagnostics);
  }

  method ResolveOne(index: BlockIndex, q: Query) returns (id: Option<Identity>, diagnostics: seq<Diagnostic>)
    requires Sound(index.Value()) && Climbs(index.Value(), q)
    ensures (id, diagnostics) == IdentityOf(index.Value(), q)
  {
    hide NormalizeIdentity, NormalizeWWN, TrimSpace, FirstValue, DevicePath, HaltsIn, End, Next, BaseName;
    var found := Find(index.Value(), Sought(q));
    if found.None? { return None, [Diagnostic(NotFound, "lsblk")]; }
    var node := found.value;
    var physical := index.Physical(node);
    var device, disk := index.nodes[node], index.nodes[physical];
    var identity := Identity(DevicePath(device), DevicePath(disk), NormalizeIdentity(disk.serial),
                             NormalizeWWN(disk.wwn), TrimSpace(disk.model));
    diagnostics := [];
    if identity.serial == "" || identity.wwn == "" || identity.model == "" {
      if identity.parentDevice == "" {
        diagnostics := [Diagnostic(NotFound, "udevadm")];
      } else if q.answer.NoAnswer? {
        diagnostics := [Diagnostic(q.answer.code, "udevadm")];
      } else {
        var values, known := q.answer.values, identity;
        if known.serial == "" {
          identity := identity.(serial := NormalizeIdentity(FirstValue(values, SERIAL_KEYS)));
        }
        if known.wwn == "" {
          identity := identity.(wwn := NormalizeWWN(FirstValue(values, WWN_KEYS)));
        }
        if known.model == "" {
          identity := identity.(model := TrimSpace(FirstValue(values, MODEL_KEYS)));
        }
      }
    }
    id := Some(identity);
  }

  // ----- Which device a path stands for -----

  /** A path stands for the device its symbolic link leads to, and for the device that has the path
      itself if the link could not be followed; its identity is that device's path, and what lsblk
      says about the disk at the end of that device's climb. */
  lemma LinkIsFollowed(t: Devices, q: Query, i: nat)
    requires UniquePaths(Preorder(t)) && i < |Preorder(t)| && Preorder(t)[i].path != ""
    requires q.target == Some(Preorder(t)[i].path)
             || ((q.target == None || q.target == Some("")) && q.path == Preorder(t)[i].path)
    requires HaltsIn(IndexOf(t), i, |IndexOf(t).nodes|)
    ensures Climbs(IndexOf(t), q)
    ensures var device := Preorder(t)[i];
            var disk := Preorder(t)[End(IndexOf(t), i, |IndexOf(t).nodes|)];
            var (id, _) := IdentityOf(IndexOf(t), q);
            && Behind(IndexOf(t), q) == Some((device, disk))
            && id.Some? && id.value.device == DevicePath(device) && id.value.parentDevice == DevicePath(disk)
            && (NormalizeIdentity(disk.serial) != "" ==> id.value.serial == NormalizeIdentity(disk.serial))
            && (NormalizeWWN(disk.wwn) != "" ==> id.value.wwn == NormalizeWWN(disk.wwn))
            && (TrimSpace(disk.model) != "" ==> id.value.model == TrimSpace(disk.model))
  {
    hide NormalizeIdentity, NormalizeWWN, TrimSpace, FirstValue, DevicePath, HaltsIn, End, Preorder, Find,
         UniquePaths, BaseName;
    PathLeadsBack(t, i);
  }

  /** A path nobody answers to, once its link is followed, is reported as not found by lsblk. */
  lemma UnknownIsReported(t: Devices, q: Query)
    requires forall d | d in Preorder(t) ::
               !AnswersTo(d, if q.target.Some? && q.target.value != "" then q.target.value else q.path)
    ensures Climbs(IndexOf(t), q) && IdentityOf(IndexOf(t), q) == (None, [Diagnostic(NotFound, "lsblk")])
  {
    hide AnswersTo, Preorder, Find, BaseName;
    FindsNothingIff(t, Sought(q));
  }

  /** The path of a device as lsblk gives it is kept; a bare name stands for an entry of /dev. */
  lemma DevicePathIs(d: Device)
    ensures "/" <= TrimSpace(d.path) ==> DevicePath(d) == TrimSpace(d.path)
    ensures TrimSpace(d.path) == "" && "/" <= TrimSpace(d.name) ==> DevicePath(d) == TrimSpace(d.name)
    ensures TrimSpace(d.path) == "" && TrimSpace(d.name) != "" && !("/" <= TrimSpace(d.name)) ==>
              DevicePath(d) == "/dev/" + BaseName(TrimSpace(d.name))
    ensures TrimSpace(d.path) == "" && TrimSpace(d.name) == "" && "/" <= TrimSpace(d.kname) ==>
              DevicePath(d) == TrimSpace(d.kname)
    ensures DevicePath(d) == "" <==>
            TrimSpace(d.path) == "" && TrimSpace(d.name) == "" && TrimSpace(d.kname) == ""
  {
    hide TrimSpace, BaseName;
  }

  // ----- What udev adds -----

  /** The value of the first property that is not blank. */
  lemma {:induction false} FirstValueIs(values: map<string, string>, keys: seq<string>)
    ensures FirstValue(values, keys) == "" <==>
            forall k | 0 <= k < |keys| :: keys[k] !in values || Blank(values[keys[k]])
    ensures forall k | 0 <= k < |keys| && keys[k] in values && !Blank(values[keys[k]])
              && (forall j | 0 <= j < k :: keys[j] !in values || Blank(values[keys[j]])) ::
              FirstValue(values, keys) == values[keys[k]]
    decreases |keys|
  {
    hide TrimSpace;
    if keys != [] {
      FirstValueIs(values, keys[1..]);
      TrimSpaceEmpty(Property(values, keys[0]));
      TrimSpaceEmpty("");
      assert forall k | 0 < k < |keys| :: keys[k] == keys[1..][k - 1];
    }
  }

  /** udev fills in what lsblk does not say, and nothing else: the serial number from the first of
      ID_SCSI_SERIAL, ID_SERIAL_SHORT, SCSI_IDENT_SERIAL and ID_SERIAL that is not blank, the WWN
      from ID_WWN_WITH_EXTENSION or ID_WWN, the model from ID_MODEL or ID_SCSI_MODEL; it is asked
      only if something is missing, and a missing answer is reported. */
  lemma UdevFillsIn(x: Index, q: Query)
    requires Climbs(x, q) && Behind(x, q).Some?
    ensures var disk := Behind(x, q).value.1;
            var s, w, m := NormalizeIdentity(disk.serial), NormalizeWWN(disk.wwn), TrimSpace(disk.model);
            var (id, notes) := IdentityOf(x, q);
            && id.Some?
            && (s != "" && w != "" && m != "" ==>
                  id.value.serial == s && id.value.wwn == w && id.value.model == m && notes == [])
            && (s == "" || w == "" || m == "" ==>
                  if DevicePath(disk) == "" then
                    notes == [Diagnostic(NotFound, "udevadm")]
                    && id.value.serial == s && id.value.wwn == w && id.value.model == m
                  else
                    match q.answer
                    case NoAnswer(code) =>
                      notes == [Diagnostic(code, "udevadm")]
                      && id.value.serial == s && id.value.wwn == w && id.value.model == m
                    case Properties(values) =>
                      && notes == []
                      && id.value.serial == (if s != "" then s else NormalizeIdentity(FirstValue(values,
                           ["ID_SCSI_SERIAL", "ID_SERIAL_SHORT", "SCSI_IDENT_SERIAL", "ID_SERIAL"])))
                      && id.value.wwn == (if w != "" then w
                                          else NormalizeWWN(FirstValue(values, ["ID_WWN_WITH_EXTENSION", "ID_WWN"])))
                      && id.value.model == (if m != "" then m
                                            else TrimSpace(FirstValue(values, ["ID_MODEL", "ID_SCSI_MODEL"]))))
  {
    hide NormalizeIdentity, NormalizeWWN, TrimSpace, FirstValue, DevicePath, Behind, Climbs;
  }

  // ----- What a resolved identity is worth -----

  /** Paths of one physical disk, such as its partitions, agree in the parent device, in all that
      lsblk says about the disk, and, if udev answers alike, in everything but their own device. */
  lemma OneDiskOneIdentity(x: Index, q: Query, r: Query)
    requires Climbs(x, q) && Climbs(x, r) && Behind(x, q).Some? && Behind(x, r).Some?
    requires Behind(x, q).value.1 == Behind(x, r).value.1
    ensures var disk := Behind(x, q).value.1;
            var a, b := IdentityOf(x, q), IdentityOf(x, r);
            && a.0.Some? && b.0.Some? && a.0.value.parentDevice == b.0.value.parentDevice == DevicePath(disk)
            && (NormalizeIdentity(disk.serial) != "" ==>
                  a.0.value.serial == b.0.value.serial == NormalizeIdentity(disk.serial))
            && (NormalizeWWN(disk.wwn) != "" ==> a.0.value.wwn == b.0.value.wwn == NormalizeWWN(disk.wwn))
            && (TrimSpace(disk.model) != "" ==> a.0.value.model == b.0.value.model == TrimSpace(disk.model))
            && (q.answer == r.answer ==> a.0.value == b.0.value.(device := a.0.value.device) && a.1 == b.1)
  {
    hide NormalizeIdentity, NormalizeWWN, TrimSpace, FirstValue, DevicePath, Behind, Climbs;
  }

  /** Every path resolves to the same identity with the same diagnostics whether lsblk nests
      the devices or lists them flat. */
  lemma ResolvingIgnoresLayout(t: Devices, q: Query)
    requires UniqueNames(Preorder(t)) && AllNamed(Preorder(t))
    ensures Climbs(IndexOf(t), q) <==> Climbs(IndexOf(FlatLayout(t)), q)
    ensures Climbs(IndexOf(t), q) ==> IdentityOf(IndexOf(FlatLayout(t)), q) == IdentityOf(IndexOf(t), q)
  {
    hide NormalizeIdentity, NormalizeWWN, TrimSpace, FirstValue, HaltsIn, End, Find, IndexOf, BaseName, UniqueNames,
         AllNamed, Preorder;
    LayoutDoesNotMatter(t);
    var x, y := IndexOf(t), IndexOf(FlatLayout(t));
    if Climbs(x, q) && Find(x, Sought(q)).Some? {
      var node := Find(x, Sought(q)).value;
      var end := End(x, node, |x.nodes|);
      assert y.nodes[node] == x.nodes[node].(pkname := y.nodes[node].pkname);
      assert y.nodes[end] == x.nodes[end].(pkname := y.nodes[end].pkname);
    }
  }

  /** The identity a query gives its path, as long as no later query names the same path. */
  lemma {:induction false} IdentityKept(x: Index, queries: seq<Query>, i: nat)
    requires i < |queries| && forall q | q in queries :: Climbs(x, q)
    requires forall j | i < j < |queries| :: queries[j].path != queries[i].path
    requires IdentityOf(x, queries[i]).0.Some?
    ensures queries[i].path in Identities(x, queries)
    ensures Identities(x, queries)[queries[i].path] == IdentityOf(x, queries[i]).0.value
    decreases |queries|
  {
    hide IdentityOf, Climbs;
    if i < |queries| - 1 {
      IdentityKept(x, queries[..|queries| - 1], i);
    }
  }

  /** The diagnostics of a path that is queried once are those of its query. */
  lemma {:induction false} TroublesKept(x: Index, queries: seq<Query>, i: nat)
    requires i < |queries| && forall q | q in queries :: Climbs(x, q)
    requires forall j | 0 <= j < |queries| && j != i :: queries[j].path != queries[i].path
    ensures var notes, m := IdentityOf(x, queries[i]).1, Troubles(x, queries);
            (notes != [] <==> queries[i].path in m) && (notes != [] ==> m[queries[i].path] == notes)
    decreases |queries|
  {
    hide IdentityOf, Climbs;
    var last := |queries| - 1;
    if i < last {
      TroublesKept(x, queries[..last], i);
    } else {
      NoTroubles(x, queries[..last], queries[i].path);
    }
  }

  lemma {:induction false} NoTroubles(x: Index, queries: seq<Query>, path: string)
    requires forall q | q in queries :: Climbs(x, q) && q.path != path
    ensures path !in Troubles(x, queries)
  {
    hide IdentityOf, Climbs;
    if queries != [] {
      assert queries[|queries| - 1] in queries;
      NoTroubles(x, queries[..|queries| - 1], path);
    }
  }

  /** Queries of the same path add up their diagnostics in order. */
  lemma TroublesAddUp(x: Index, queries: seq<Query>, q: Query)
    requires forall r | r in queries + [q] :: Climbs(x, r)
    ensures (forall r | r in queries :: Climbs(x, r)) && Climbs(x, q)
    ensures var before, after := Troubles(x, queries), Troubles(x, queries + [q]);
            var notes := IdentityOf(x, q).1;
            && (forall p | p != q.path :: (p in after <==> p in before) && (p in after ==> after[p] == before[p]))
            && (notes != [] ==>
                  q.path in after && after[q.path] == (if q.path in before then before[q.path] else []) + notes)
            && (notes == [] ==> after == before)
  {
    hide IdentityOf, Climbs;
    assert (queries + [q])[..|queries + [q]| - 1] == queries;
    assert q in queries + [q];
    assert forall r | r in queries :: r in queries + [q];
  }

  lemma UpperPlain(s: string)
    requires Plain(s)
    ensures Plain(ToUpper(s)) && SameText(s, ToUpper(s)) && NormalizeIdentity(s) == ToUpper(s)
  {
    CoreOfPlain(s);
    if s != "" {
      assert ToUpper(s)[0] == UpperChar(s[0]) && ToUpper(s)[|s| - 1] == UpperChar(s[|s| - 1]);
    }
    assert forall i | 0 <= i < |s| :: SameLetter(s[i], ToUpper(s)[i]);
  }

  lemma SameTextThrough(a: string, b: string, c: string)
    requires SameText(a, b) && SameText(b, c)
    ensures SameText(a, c)
  {
    UpperIsSameText(a, b);
    UpperIsSameText(b, c);
    UpperIsSameText(a, c);
  }

  /** The serial number of a physical device is found again behind its normal form. */
  lemma SerialSurvives(serial: string, slot: string)
    requires Plain(serial) && SameSerial(NormalizeIdentity(serial), slot)
    ensures SameSerial(serial, slot)
  {
    hide TrimSpace, TrimNul, SameText, ToUpper;
    UpperPlain(serial);
    CoreOfPlain(serial);
    CoreOfPlain(ToUpper(serial));
    SameTextThrough(serial, ToUpper(serial), Core(slot));
    UpperKeepsLength(serial);
  }

  /** From leaf to slot: a disk whose physical device reports a serial number gets a bay only
      from a slot that carries the serial number the disk was given for it; if that of the device
      has no padding, the slot carries this very number up to case and padding. */
  lemma BayOfPhysicalDisk(x: Index, queries: seq<Query>, i: nat, leaf: Leaf, backends: seq<Backend>)
    requires i < |queries| && forall q | q in queries :: Climbs(x, q)
    requires forall j | i < j < |queries| :: queries[j].path != queries[i].path
    requires queries[i].path == leaf.path && Behind(x, queries[i]).Some?
    requires NormalizeIdentity(Behind(x, queries[i]).value.1.serial) != ""
    ensures var serial := Behind(x, queries[i]).value.1.serial;
            var d := DiskOf(leaf, Resolved(Identities(x, queries), Troubles(x, queries)));
            && d.serial == NormalizeIdentity(serial) && d.parentDevice == DevicePath(Behind(x, queries[i]).value.1)
            && (Plain(serial) ==> SameText(serial, d.serial))
            && (VisitAll(d, backends).bay.Some? && Core(d.serial) != "" ==>
                  exists b, s :: b in backends && b.Listing? && s in b.slots
                                 && VisitAll(d, backends).bay == Some(s.bay) && SameSerial(d.serial, s.serial)
                                 && (Plain(serial) ==> SameSerial(serial, s.serial)))
            && (Plain(serial) ==> Core(d.serial) != "")
  {
    hide NormalizeIdentity, NormalizeWWN, TrimSpace, TrimNul, FirstValue, DevicePath, Behind, Climbs, VisitAll,
         BaseName, Identities, Troubles, SameText, ToUpper, Plain, Bare, Core;
    IdentityKept(x, queries, i);
    var serial := Behind(x, queries[i]).value.1.serial;
    var d := DiskOf(leaf, Resolved(Identities(x, queries), Troubles(x, queries)));
    assert d.serial == NormalizeIdentity(serial);
    if Plain(serial) {
      UpperPlain(serial);
      CoreOfPlain(ToUpper(serial));
    }
    if VisitAll(d, backends).bay.Some? && Core(d.serial) != "" {
      NoIdentityNoBay(d, backends);
      forall s: Slot | Plain(serial) && SameSerial(d.serial, s.serial) ensures SameSerial(serial, s.serial) {
        SerialSurvives(serial, s.serial);
      }
    }
  }
}
