/** What handling an event and what a reconciliation achieve, for the vdevs they act on and for
    all others, and that a second reconciliation has nothing to do. */
module Convergence {
  import opened Types
  import opened Order
  import opened EngineSpec
  import opened Promises
  import opened Provenance

  predicate DistinctGuids(disks: seq<Disk>) {
    forall i, j | 0 <= i < j < |disks| :: disks[i].guid != disks[j].guid
  }

  /** The managed LEDs of one vdev. */
  function Own(m: map<string, ManagedLED>, guid: string): map<string, ManagedLED> {
    map k | k in m && m[k].guid == guid :: m[k]
  }

  /** What a reconciliation owes a disk: a faulted one owns its target bay, an online one
      owns nothing. */
  predicate Settled(data: Data, d: Disk) {
    && (IsFaulted(d.state) ==>
          var target := TargetBay(data, d.guid, Some(d));
          target.Some? && target.value.0.Key() in Own(data.managed, d.guid))
    && (IsOnline(d.state) ==> Own(data.managed, d.guid) == map[])
  }

  /** What becomes of a disk's LEDs, exactly: a faulted one gains its target bay and keeps the
      bays it had, an online one loses all, any other keeps what it had. */
  predicate SettledFrom(start: Data, end: Data, d: Disk) {
    if IsFaulted(d.state) then GainsTarget(start, end, d.pool, d.guid, Some(d))
    else if IsOnline(d.state) then Own(end.managed, d.guid) == map[]
    else Own(end.managed, d.guid) == Own(start.managed, d.guid)
  }

  /** The LEDs of a vdev are those it had and, unless it had it already, the one of its target. */
  predicate GainsTarget(start: Data, end: Data, pool: string, guid: string, disk: Option<Disk>) {
    var target, before := TargetBay(start, guid, disk), Own(start.managed, guid);
    && target.Some?
    && var bay := target.value.0;
       Own(end.managed, guid) ==
       if bay.Key() in before then before else before[bay.Key() := ManagedLED(pool, guid, bay)]
  }

  ghost predicate OthersKept(start: Data, end: Data, guid: string) {
    forall g | g != guid :: Own(end.managed, g) == Own(start.managed, g)
  }

  lemma {:induction false} ClearRemoves(data: Data, keys: seq<string>, fate: Fate)
    requires Sorted(keys) && forall k | k in keys :: k in data.managed
    requires Clear(data, keys, fate, false).status == Done
    ensures Clear(data, keys, fate, false).data.managed == data.managed - (set k | k in keys)
    decreases |keys|
  {
    if keys == [] {
      assert (set k | k in keys) == {};
    } else {
      ForgetKeepsRest(data, keys);
      ClearRemoves(Forget(data, keys[0]), keys[1..], fate.Later(1));
      assert keys == [keys[0]] + keys[1..];
      assert (set k | k in keys) == {keys[0]} + (set k | k in keys[1..]);
    }
  }

  /** Clearing a vdev's LEDs, in every ending, touches the entries of no other vdev. */
  lemma OffKeepsOthers(data: Data, guid: string, fate: Fate)
    ensures OthersKept(data, ApplyOff(data, guid, fate, false).data, guid)
    ensures forall c | c in ApplyOff(data, guid, fate, false).calls ::
              c.action == Off && IsOwnedBay(data.managed, guid, c.bay)
  {
    var keys := Listing(OwnedKeys(data, guid));
    ClearTargets(data, keys, fate, false);
    assert forall k :: k in keys ==> k in OwnedKeys(data, guid);
  }

  lemma OffSettles(data: Data, guid: string, fate: Fate)
    requires ApplyOff(data, guid, fate, false).status == Done
    ensures Own(ApplyOff(data, guid, fate, false).data.managed, guid) == map[]
  {
    var keys := Listing(OwnedKeys(data, guid));
    ClearRemoves(data, keys, fate);
    assert (set k | k in keys) == OwnedKeys(data, guid);
  }

  lemma OnKeepsOthers(data: Data, pool: string, guid: string, disk: Option<Disk>, fate: Fate)
    ensures OthersKept(data, ApplyOn(data, pool, guid, disk, fate, false).data, guid)
  {
    hide Bay.Key, TargetBay;
  }

  /** Lighting that ends well leaves the vdev owning its target bay and what it owned before. */
  lemma OnSettles(data: Data, pool: string, guid: string, disk: Option<Disk>, fate: Fate)
    requires ApplyOn(data, pool, guid, disk, fate, false).status == Done
    ensures GainsTarget(data, ApplyOn(data, pool, guid, disk, fate, false).data, pool, guid, disk)
  {
    hide Bay.Key, TargetBay;
    var end := ApplyOn(data, pool, guid, disk, fate, false).data;
    var key := TargetBay(data, guid, disk).value.0.Key();
    if key in data.managed {
      assert key in Own(data.managed, guid);
    } else {
      assert end.managed[key].guid == guid;
    }
  }

  lemma ActionSettles(data: Data, d: Disk, action: Action, fate: Fate)
    requires Asks(d.state, action)
    requires ApplyAction(data, d.pool, d.guid, Some(d), action, fate, false).status == Done
    ensures var r := ApplyAction(data, d.pool, d.guid, Some(d), action, fate, false);
            SettledFrom(data, r.data, d) && OthersKept(data, r.data, d.guid)
  {
    hide OthersKept, GainsTarget, ApplyOn, ApplyOff;
    if action == Off {
      OffSettles(data, d.guid, fate);
      OffKeepsOthers(data, d.guid, fate);
    } else {
      OnSettles(data, d.pool, d.guid, Some(d), fate);
      OnKeepsOthers(data, d.pool, d.guid, Some(d), fate);
    }
  }

  predicate ActsOn(disks: seq<Disk>, guid: string) {
    exists d | d in disks :: d.guid == guid && (IsFaulted(d.state) || IsOnline(d.state))
  }

  lemma {:induction false} ReconcileKeepsOthers(data: Data, disks: seq<Disk>, fate: Fate, guid: string)
    requires ReconcileDisks(data, disks, fate, false).status == Done && !ActsOn(disks, guid)
    ensures Own(ReconcileDisks(data, disks, fate, false).data.managed, guid) == Own(data.managed, guid)
    decreases |disks|
  {
    if disks != [] {
      var d := disks[0];
      assert d in disks;
      assert !ActsOn(disks[1..], guid);
      match ActionFor(d.state)
      case None => ReconcileKeepsOthers(data, disks[1..], fate, guid);
      case Some(action) =>
        ActionSettles(data, d, action, fate);
        var first := ApplyAction(data, d.pool, d.guid, Some(d), action, fate, false);
        ReconcileKeepsOthers(first.data, disks[1..], fate.Later(|first.calls|), guid);
    }
  }

  /** Owning what it should, seen from any states with the same cache and the same own LEDs. */
  lemma SettledCarries(start: Data, start': Data, end: Data, end': Data, d: Disk)
    requires SettledFrom(start, end, d) && start'.mappings == start.mappings
    requires Own(start'.managed, d.guid) == Own(start.managed, d.guid)
    requires Own(end'.managed, d.guid) == Own(end.managed, d.guid)
    ensures SettledFrom(start', end', d)
  {
    hide Bay.Key;
    assert TargetBay(start', d.guid, Some(d)) == TargetBay(start, d.guid, Some(d));
  }

  lemma {:induction false} ReconcileSettles(data: Data, disks: seq<Disk>, fate: Fate)
    requires ReconcileDisks(data, disks, fate, false).status == Done && DistinctGuids(disks)
    ensures forall i | 0 <= i < |disks| :: SettledFrom(data, ReconcileDisks(data, disks, fate, false).data, disks[i])
    decreases |disks|
  {
    hide SettledFrom, Own;
    if disks != [] {
      var d := disks[0];
      var rest := disks[1..];
      var end := ReconcileDisks(data, disks, fate, false).data;
      match ActionFor(d.state)
      case None =>
        ReconcileSettles(data, rest, fate);
        ReconcileKeepsOthers(data, rest, fate, d.guid);
        IdleSettled(data, end, d);
        forall i | 0 <= i < |disks| ensures SettledFrom(data, end, disks[i]) {
          if i > 0 { assert disks[i] == rest[i - 1]; }
        }
      case Some(action) =>
        var first := ApplyAction(data, d.pool, d.guid, Some(d), action, fate, false);
        var later := fate.Later(|first.calls|);
        ActionSettles(data, d, action, fate);
        ActionFrame(data, d.pool, d.guid, Some(d), action, fate, false);
        ReconcileSettles(first.data, rest, later);
        ReconcileKeepsOthers(first.data, rest, later, d.guid);
        SettledCarries(data, data, first.data, end, d);
        forall i | 0 <= i < |disks| ensures SettledFrom(data, end, disks[i]) {
          if i > 0 {
            assert disks[i] == rest[i - 1];
            assert disks[i].guid != d.guid;
            SettledCarries(first.data, data, end, end, disks[i]);
          }
        }
    }
  }

  lemma IdleSettled(start: Data, end: Data, d: Disk)
    requires !IsFaulted(d.state) && !IsOnline(d.state) && Own(end.managed, d.guid) == Own(start.managed, d.guid)
    ensures SettledFrom(start, end, d)
  {
  }

  /** With distinct GUIDs, a reconciliation that succeeds gives every faulted disk its target bay
      and takes nothing from it, leaves every online disk without any, and does not touch the
      LEDs of any GUID it has no faulted or online disk for. */
  lemma ReconcileConverges(data: Data, disks: seq<Disk>, fate: Fate)
    requires DistinctGuids(disks) && Exec(data, Reconcile(disks), fate, false).status == Done
    ensures var start, end := Refreshed(data, Reconcile(disks)), Exec(data, Reconcile(disks), fate, false).data;
            && (forall i | 0 <= i < |disks| :: SettledFrom(start, end, disks[i]))
            && (forall guid | !ActsOn(disks, guid) :: Own(end.managed, guid) == Own(data.managed, guid))
  {
    hide Own, SettledFrom;
    var start := Refreshed(data, Reconcile(disks));
    ReconcileSettles(start, disks, fate);
    forall guid | !ActsOn(disks, guid)
      ensures Own(Exec(data, Reconcile(disks), fate, false).data.managed, guid) == Own(data.managed, guid)
    {
      ReconcileKeepsOthers(start, disks, fate, guid);
    }
  }

  /** A faulted disk ends up owning exactly its target bay if and only if it owned no other bay
      before. */
  lemma OwnsOnlyTargetIff(data: Data, disks: seq<Disk>, fate: Fate, i: nat)
    requires DistinctGuids(disks) && Exec(data, Reconcile(disks), fate, false).status == Done
    requires i < |disks| && IsFaulted(disks[i].state)
    ensures var target := TargetBay(Refreshed(data, Reconcile(disks)), disks[i].guid, Some(disks[i]));
            && target.Some?
            && var owned := Own(Exec(data, Reconcile(disks), fate, false).data.managed, disks[i].guid).Keys;
               (owned == {target.value.0.Key()}
                <==> Own(data.managed, disks[i].guid).Keys <= {target.value.0.Key()})
  {
    hide Bay.Key, TargetBay, Exec, Own;
    ReconcileConverges(data, disks, fate);
    var start, end := Refreshed(data, Reconcile(disks)), Exec(data, Reconcile(disks), fate, false).data;
    assert SettledFrom(start, end, disks[i]);
    assert Own(start.managed, disks[i].guid) == Own(data.managed, disks[i].guid);
  }

  /** The condition can fail: a faulted disk that was lit in one bay and is then found in
      another ends up owning both. */
  lemma MovedDiskOwnsBoth(d: Disk, before: Bay, data: Data)
    requires IsFaulted(d.state) && HasBay(d) && d.bay.value.Key() != before.Key()
    requires data == NEW_DATA.(managed := map[before.Key() := ManagedLED(d.pool, d.guid, before)])
    ensures var r := Exec(data, Reconcile([d]), Smooth, false);
            && r.status == Done && r.calls == [Call(d.bay.value, On, true)]
            && Own(r.data.managed, d.guid).Keys == {before.Key(), d.bay.value.Key()}
  {
    hide Bay.Key, Refresh;
    var start := Refreshed(data, Reconcile([d]));
    var first := ApplyOn(start, d.pool, d.guid, Some(d), Smooth, false);
    assert first.calls == [Call(d.bay.value, On, true)];
    assert [d][1..] == [];
    assert ReconcileDisks(first.data, [d][1..], Smooth.Later(1), false) == Run(Done, first.data, [], [], false);
    assert ReconcileDisks(start, [d], Smooth, false) == Join(first, Run(Done, first.data, [], [], false));
  }

  /** Owning the target bay means owning it after the pass as before it. */
  lemma SettledFromSettles(start: Data, end: Data, d: Disk)
    requires SettledFrom(start, end, d) && end.mappings == start.mappings
    ensures Settled(end, d)
  {
    hide Bay.Key;
    assert TargetBay(end, d.guid, Some(d)) == TargetBay(start, d.guid, Some(d));
  }

  lemma {:induction false} SettledNeedsNothing(data: Data, disks: seq<Disk>, fate: Fate)
    requires forall i | 0 <= i < |disks| :: Settled(data, disks[i])
    ensures var r := ReconcileDisks(data, disks, fate, false);
            r.status == Done && r.data == data && r.calls == [] && r.ops == []
    decreases |disks|
  {
    hide Bay.Key;
    if disks != [] {
      var d := disks[0];
      assert Settled(data, d);
      assert fate.Later(0) == fate;
      forall i | 0 <= i < |disks[1..]| ensures Settled(data, disks[1..][i]) {
        assert disks[1..][i] == disks[i + 1];
      }
      SettledNeedsNothing(data, disks[1..], fate);
      if ActionFor(d.state) == Some(Off) {
        assert OwnedKeys(data, d.guid) == {} by {
          forall k | k in OwnedKeys(data, d.guid) ensures k in Own(data.managed, d.guid) { }
        }
        EmptyListing(OwnedKeys(data, d.guid));
      }
    }
  }

  lemma RefreshTwice(m: map<string, Mapping>, disks: seq<Disk>)
    ensures Refresh(Refresh(m, disks), disks) == Refresh(m, disks)
  {
    var once := Refresh(m, disks);
    var twice := Refresh(once, disks);
    forall guid ensures (guid in twice <==> guid in once) && (guid in once ==> twice[guid] == once[guid]) {
      var v := if guid in m then Some(m[guid]) else None;
      RefreshSees(m, disks, guid, v);
      var w := if Seen(disks, guid).Some? then Seen(disks, guid) else v;
      RefreshSees(once, disks, guid, w);
    }
  }

  /** Reconciling again from the same snapshot makes no locate call, reports no operation and
      leaves the state as it is, whatever the environment holds ready. */
  lemma ReconcileIsIdempotent(data: Data, disks: seq<Disk>, fate: Fate, fate': Fate)
    requires DistinctGuids(disks) && Exec(data, Reconcile(disks), fate, false).status == Done
    ensures var end := Exec(data, Reconcile(disks), fate, false).data;
            var again := Exec(end, Reconcile(disks), fate', false);
            again.status == Done && again.data == end && again.calls == [] && again.ops == []
  {
    var start := Refreshed(data, Reconcile(disks));
    var end := Exec(data, Reconcile(disks), fate, false).data;
    ReconcileConverges(data, disks, fate);
    ReconcileFrame(start, disks, fate, false);
    forall i | 0 <= i < |disks| ensures Settled(end, disks[i]) {
      SettledFromSettles(start, end, disks[i]);
    }
    RefreshTwice(data.mappings, disks);
    assert Refreshed(end, Reconcile(disks)) == end;
    SettledNeedsNothing(end, disks, fate');
  }

  // ----- Handling one event -----

  /** What is due on an event: the current state of the vdev decides, and what the event's own
      state called for only when the snapshot does not list the vdev. */
  predicate IsDue(event: Event, eventAction: Action, disks: seq<Disk>, action: Action) {
    match FindDisk(disks, event.guid)
    case None => action == eventAction
    case Some(d) => Asks(d.state, action)
  }

  /** What handling an event leaves, exactly: the vdev gains its target bay, or loses all its
      bays, or keeps what it had, and every other vdev keeps what it had. */
  ghost predicate Handled(start: Data, end: Data, event: Event, eventAction: Action, disks: seq<Disk>) {
    && OthersKept(start, end, event.guid)
    && if IsDue(event, eventAction, disks, On) then
         GainsTarget(start, end, event.pool, event.guid, FindDisk(disks, event.guid))
       else if IsDue(event, eventAction, disks, Off) then Own(end.managed, event.guid) == map[]
       else Own(end.managed, event.guid) == Own(start.managed, event.guid)
  }

  /** The target bay cannot be lit: unknown, or owned by another vdev. */
  function Refusal(data: Data, guid: string, disk: Option<Disk>): Option<ErrorCode> {
    var target := TargetBay(data, guid, disk);
    if target.None? then Some(NotFound)
    else if target.value.0.Key() in data.managed && data.managed[target.value.0.Key()].guid != guid then Some(Ambiguous)
    else None
  }

  lemma ActionAchieves(data: Data, pool: string, guid: string, disk: Option<Disk>, action: Action, fate: Fate)
    ensures var r := ApplyAction(data, pool, guid, disk, action, fate, false);
            && OthersKept(data, r.data, guid)
            && (action == On && r.status == Done ==> GainsTarget(data, r.data, pool, guid, disk))
            && (action == Off && r.status == Done ==> Own(r.data.managed, guid) == map[])
            && (action == Off ==> forall c | c in r.calls :: c.action == Off && IsOwnedBay(data.managed, guid, c.bay))
            && (action == On ==> forall c | c in r.calls ::
                  c.action == On && TargetBay(data, guid, disk).Some? && c.bay == TargetBay(data, guid, disk).value.0)
            && (fate == Smooth ==>
                  r.status == if action == On && Refusal(data, guid, disk).Some?
                              then Refused(Refusal(data, guid, disk).value) else Done)
  {
    hide Bay.Key, OthersKept, GainsTarget, IsOwnedBay, Own, TargetBay;
    if action == Off {
      OffKeepsOthers(data, guid, fate);
      SmoothClears(data, Listing(OwnedKeys(data, guid)));
      if ApplyOff(data, guid, fate, false).status == Done { OffSettles(data, guid, fate); }
    } else {
      OnKeepsOthers(data, pool, guid, disk, fate);
      if ApplyOn(data, pool, guid, disk, fate, false).status == Done { OnSettles(data, pool, guid, disk, fate); }
    }
  }

  lemma {:induction false} SmoothClears(data: Data, keys: seq<string>)
    requires Sorted(keys) && forall k | k in keys :: k in data.managed
    ensures Clear(data, keys, Smooth, false).status == Done
    decreases |keys|
  {
    if keys != [] {
      ForgetKeepsRest(data, keys);
      SmoothClears(Forget(data, keys[0]), keys[1..]);
    }
  }

  /** What handling an event that is no duplicate achieves. On success the vdev owns its target
      bay besides what it owned, or nothing, or what it owned, as its current state asks. In every
      ending the entries of all other vdevs stay, and every call goes to the target bay or to a bay
      this vdev owned. When no call fails, it is refused exactly when it asks to light a bay that is
      unknown or owned by another vdev. */
  lemma HandleSettles(data: Data, event: Event, eventAction: Action, disks: seq<Disk>, fate: Fate)
    requires !Duplicate(data, event)
    ensures var job := Handle(event, eventAction, disks);
            var start, r := Refreshed(data, job), Exec(data, job, fate, false);
            var disk := FindDisk(disks, event.guid);
            && OthersKept(data, r.data, event.guid)
            && (r.status == Done ==> Handled(start, r.data, event, eventAction, disks))
            && (!IsDue(event, eventAction, disks, On) && !IsDue(event, eventAction, disks, Off) ==>
                  r.status == Done && r.calls == [])
            && (forall c | c in r.calls ::
                  IsDue(event, eventAction, disks, c.action) &&
                  match c.action
                  case On => var t := TargetBay(start, event.guid, disk); t.Some? && c.bay == t.value.0
                  case Off => IsOwnedBay(data.managed, event.guid, c.bay))
            && (fate == Smooth ==>
                  r.status == if IsDue(event, eventAction, disks, On) && Refusal(start, event.guid, disk).Some?
                              then Refused(Refusal(start, event.guid, disk).value) else Done)
  {
    hide ApplyAction, FindDisk, Fingerprint, Refresh, Bay.Key, IsOwnedBay, TargetBay, Refusal, ActionFor, IsDue,
         GainsTarget, OthersKept;
    var start := Refreshed(data, Handle(event, eventAction, disks));
    var disk := FindDisk(disks, event.guid);
    DueIff(event, eventAction, disks);
    var due := if disk.Some? then ActionFor(disk.value.state) else Some(eventAction);
    var r := HandleEvent(start, event, eventAction, disks, fate, false);
    OnlyLEDsMatter(data, start, r.data, r.data, event.pool, event.guid, disk);
    if due.Some? {
      ActionAchieves(start, event.pool, event.guid, disk, due.value, fate);
      var end := ApplyAction(start, event.pool, event.guid, disk, due.value, fate, false).data;
      OnlyLEDsMatter(start, start, end, r.data, event.pool, event.guid, disk);
    } else {
      OnlyLEDsMatter(start, start, start, r.data, event.pool, event.guid, disk);
    }
  }

  /** Who keeps and who gains is a matter of the recorded LEDs alone. */
  lemma OnlyLEDsMatter(a: Data, b: Data, end: Data, end': Data, pool: string, guid: string, disk: Option<Disk>)
    requires a.managed == b.managed && end.managed == end'.managed
    ensures OthersKept(a, end, guid) == OthersKept(b, end', guid)
    ensures GainsTarget(b, end, pool, guid, disk) == GainsTarget(b, end', pool, guid, disk)
    ensures OthersKept(a, b, guid)
  {
    hide TargetBay;
  }

  /** What is due is what the code works out from the state of the disk it finds. */
  lemma DueIff(event: Event, eventAction: Action, disks: seq<Disk>)
    ensures var disk := FindDisk(disks, event.guid);
            var due := if disk.Some? then ActionFor(disk.value.state) else Some(eventAction);
            forall action :: IsDue(event, eventAction, disks, action) <==> due == Some(action)
  {
    hide FindDisk;
    var disk := FindDisk(disks, event.guid);
    if disk.Some? { ActionWords(disk.value.state); }
  }

  /** Handling a duplicate succeeds and does nothing but refresh the bay cache. */
  lemma DuplicateDoesNothing(data: Data, event: Event, eventAction: Action, disks: seq<Disk>, fate: Fate)
    requires Duplicate(data, event)
    ensures var job := Handle(event, eventAction, disks);
            var r := Exec(data, job, fate, false);
            r.status == Done && r.calls == [] && r.data == Refreshed(data, job)
  {
  }

  // ----- Cleaning up -----

  /** A cleanup that ends well leaves no managed LED. */
  lemma CleanupClears(data: Data, fate: Fate)
    requires Exec(data, Cleanup, fate, false).status == Done
    ensures Exec(data, Cleanup, fate, false).data.managed == map[]
  {
    var start := Refreshed(data, Cleanup);
    var keys := Listing(start.managed.Keys);
    ClearRemoves(start, keys, fate);
    assert (set k | k in keys) == start.managed.Keys;
  }
}
