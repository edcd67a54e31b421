/** Joining ZFS leaves to Linux block identity, and the whole discovery pipeline. */
module Inventory {
  import opened Types
  import opened Text
  import opened Status
  import opened Convergence
  import EngineSpec
  import opened Enclosure

  datatype Identity = Identity(device: string, parentDevice: string, serial: string, wwn: string, model: string)

  /** What resolving the paths gave: identities and diagnostics by path, or an error. */
  datatype Resolution =
    | Unresolved(code: ErrorCode)
    | Resolved(identities: map<string, Identity>, diagnostics: map<string, seq<Diagnostic>>)

  function FirstNonEmpty(a: string, b: string): string {
    if a != "" then a else b
  }

  /** Identities are asked for only when some leaf has a path; an error gives none. */
  function Consulted(leaves: seq<Leaf>, r: Resolution): Resolution {
    if r.Resolved? && exists i | 0 <= i < |leaves| :: leaves[i].path != "" then r else Resolved(map[], map[])
  }

  function DiskOf(leaf: Leaf, r: Resolution): Disk
    requires r.Resolved?
  {
    var plain := Disk(leaf.pool, leaf.guid, leaf.name, leaf.role, leaf.state, leaf.path, "", "", "", "",
                      leaf.errors, None, []);
    var known := if leaf.path in r.identities then
        var id := r.identities[leaf.path];
        plain.(devicePath := FirstNonEmpty(id.device, leaf.path), parentDevice := id.parentDevice,
               serial := id.serial, wwn := id.wwn, model := id.model)
      else plain;
    var noted := known.(diagnostics := if leaf.path in r.diagnostics then r.diagnostics[leaf.path] else []);
    if noted.name == "" then noted.(name := BaseName(FirstNonEmpty(noted.devicePath, noted.guid))) else noted
  }

  /** What a disk owes to its leaf and to the identities that were found: everything the leaf says,
      and of the identity of its path the serial number, WWN, model, parent and device. */
  predicate Carries(d: Disk, leaf: Leaf, identities: map<string, Identity>) {
    && d.pool == leaf.pool && d.guid == leaf.guid && d.role == leaf.role && d.state == leaf.state
    && d.errors == leaf.errors && (leaf.name != "" ==> d.name == leaf.name)
    && (leaf.name == "" && d.devicePath != "" ==> d.name == BaseName(d.devicePath))
    && (leaf.name == "" && d.devicePath == "" ==> d.name == BaseName(leaf.guid))
    && (leaf.path in identities ==>
          var id := identities[leaf.path];
          && d.serial == id.serial && d.wwn == id.wwn && d.model == id.model && d.parentDevice == id.parentDevice
          && (id.device != "" ==> d.devicePath == id.device) && (id.device == "" ==> d.devicePath == leaf.path))
    && (leaf.path !in identities ==>
          d.serial == "" && d.wwn == "" && d.model == "" && d.parentDevice == "" && d.devicePath == leaf.path)
  }

  lemma DiskOfCarries(leaf: Leaf, r: Resolution)
    requires r.Resolved?
    ensures Carries(DiskOf(leaf, r), leaf, r.identities) && DiskOf(leaf, r).bay.None?
    ensures DiskOf(leaf, r).diagnostics == if leaf.path in r.diagnostics then r.diagnostics[leaf.path] else []
  {
    hide BaseName;
  }

  ghost predicate SomePath(leaves: seq<Leaf>) {
    exists i | 0 <= i < |leaves| :: leaves[i].path != ""
  }

  /** The non-empty paths, which are the ones to resolve, in order. */
  method PathsOf(leaves: seq<Leaf>) returns (paths: seq<string>)
    ensures forall p :: p in paths <==> p != "" && exists i | 0 <= i < |leaves| :: leaves[i].path == p
  {
    paths := [];
    for i := 0 to |leaves|
      invariant forall p :: p in paths <==> p != "" && exists k | 0 <= k < i :: leaves[k].path == p
    {
      if leaves[i].path != "" { paths := paths + [leaves[i].path]; }
    }
  }

  /** One disk per leaf, in order, carrying the leaf's pool, GUID, role, state and counters,
      no bay yet, and an identity only if one was resolved for the leaf's own path. */
  method Join(leaves: seq<Leaf>, resolution: Resolution) returns (disks: seq<Disk>, diagnostics: seq<Diagnostic>)
    ensures |disks| == |leaves|
    ensures forall i | 0 <= i < |leaves| :: disks[i] == DiskOf(leaves[i], Consulted(leaves, resolution))
    ensures forall i | 0 <= i < |leaves| ::
              && disks[i].bay.None?
              && Carries(disks[i], leaves[i],
                         if resolution.Resolved? && SomePath(leaves) then resolution.identities else map[])
    ensures resolution.Resolved? && SomePath(leaves) ==> forall i | 0 <= i < |leaves| ::
              disks[i].diagnostics ==
              if leaves[i].path in resolution.diagnostics then resolution.diagnostics[leaves[i].path] else []
    ensures diagnostics ==
            if resolution.Unresolved? && SomePath(leaves) then [Diagnostic(resolution.code, "linux")] else []
  {
    hide DiskOf, Carries;
    disks, diagnostics := [], [];
    var paths := PathsOf(leaves);
    var tables := Resolved(map[], map[]);
    if |paths| > 0 {
      assert paths[0] in paths;
      if resolution.Unresolved? {
        diagnostics := diagnostics + [Diagnostic(resolution.code, "linux")];
      } else {
        tables := resolution;
      }
    } else {
      forall i | 0 <= i < |leaves| ensures leaves[i].path == "" {
        assert leaves[i].path !in paths;
      }
    }
    for i := 0 to |leaves|
      invariant |disks| == i
      invariant forall k | 0 <= k < i :: disks[k] == DiskOf(leaves[k], tables)
    {
      var disk := JoinOne(leaves[i], tables);
      disks := disks + [disk];
    }
    forall i | 0 <= i < |leaves|
      ensures disks[i].bay.None? && Carries(disks[i], leaves[i], tables.identities)
      ensures disks[i].diagnostics ==
              if leaves[i].path in tables.diagnostics then tables.diagnostics[leaves[i].path] else []
    {
      DiskOfCarries(leaves[i], tables);
    }
  }

  method JoinOne(leaf: Leaf, tables: Resolution) returns (disk: Disk)
    requires tables.Resolved?
    ensures disk == DiskOf(leaf, tables)
  {
    disk := Disk(leaf.pool, leaf.guid, leaf.name, leaf.role, leaf.state, leaf.path, "", "", "", "",
                 leaf.errors, None, []);
    if leaf.path in tables.identities {
      var id := tables.identities[leaf.path];
      disk := disk.(devicePath := FirstNonEmpty(id.device, leaf.path));
      disk := disk.(parentDevice := id.parentDevice, serial := id.serial, wwn := id.wwn, model := id.model);
    }
    if leaf.path in tables.diagnostics {
      disk := disk.(diagnostics := disk.diagnostics + tables.diagnostics[leaf.path]);
    }
    if disk.name == "" { disk := disk.(name := BaseName(FirstNonEmpty(disk.devicePath, disk.guid))); }
  }

  lemma VisitAllKeeps(d: Disk, backends: seq<Backend>)
    ensures var r := VisitAll(d, backends);
            r == d.(bay := r.bay, diagnostics := r.diagnostics)
  {
  }

  /** The pipeline that feeds automation: leaf by leaf, in order, the GUID, pool and state stay
      those of the leaf, so distinct leaf GUIDs give the distinct disk GUIDs reconciliation
      needs; a disk carries all that its leaf and the identity of its path say; it has a bay only if
      it has an identity; and if the identity of its path has a sole slot in the first working
      backend that has one, it has the bay of that slot. */
  method Discover(leaves: seq<Leaf>, resolution: Resolution, backends: seq<Backend>) returns (disks: seq<Disk>)
    ensures |disks| == |leaves|
    ensures forall i | 0 <= i < |leaves| ::
              Carries(disks[i], leaves[i],
                      if resolution.Resolved? && SomePath(leaves) then resolution.identities else map[])
    ensures (forall i, j | 0 <= i < j < |leaves| :: leaves[i].guid != leaves[j].guid) ==> DistinctGuids(disks)
    ensures forall i | 0 <= i < |leaves| :: Placed(DiskOf(leaves[i], Consulted(leaves, resolution)), backends, disks[i])
    ensures forall i | 0 <= i < |leaves| && disks[i].bay.Some? ::
              Core(disks[i].serial) != "" || Bare(Core(disks[i].wwn)) != ""
    ensures resolution.Resolved? ==> forall k, n: nat, i: nat |
              && 0 <= k < |leaves| && leaves[k].path != "" && leaves[k].path in resolution.identities
              && FirstSole(resolution.identities[leaves[k].path].serial, resolution.identities[leaves[k].path].wwn,
                           backends, n, i) ::
              disks[k].bay == Some(backends[n].slots[i].bay)
  {
    hide DiskOf, Placed, VisitAll, Core, Bare, SameText, SoleSlot;
    var joined, _ := Join(leaves, resolution);
    var mapped, _ := Map(joined, backends);
    disks := mapped[..];
    forall i | 0 <= i < |leaves|
      ensures disks[i] == joined[i].(bay := disks[i].bay, diagnostics := disks[i].diagnostics)
      ensures disks[i].bay.Some? ==> Core(disks[i].serial) != "" || Bare(Core(disks[i].wwn)) != ""
    {
      VisitAllKeeps(joined[i], backends);
      if disks[i].bay.Some? { NoIdentityNoBay(joined[i], backends); }
    }
    forall k, n: nat, i: nat | 0 <= k < |leaves| && FirstSole(joined[k].serial, joined[k].wwn, backends, n, i)
      ensures disks[k].bay == Some(backends[n].slots[i].bay)
    {
      FirstSoleGivesBay(joined[k], backends, n, i);
    }
  }

  /** Every state that calls for an action is one that the status parser reports, and the states
      it reports that call for none are those of a disk out of service on purpose and of spares. */
  lemma ActionableStates(s: Health)
    ensures EngineSpec.ActionFor(s).Some? ==> IsState(s)
    ensures IsState(s) && EngineSpec.ActionFor(s).None? <==> s in {"OFFLINE", "AVAIL", "INUSE"}
  {
  }
}
