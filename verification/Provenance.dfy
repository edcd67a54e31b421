/** Where remembered bays come from, and why calls are made. */
module Provenance {
  import opened Types
  import opened Order
  import opened EngineSpec
  import opened Promises
  import opened Ledger
  import opened History

  // ----- What callbacks may change besides the managed LEDs -----

  lemma {:induction false} ClearFrame(data: Data, keys: seq<string>, fate: Fate, dry: bool)
    requires Sorted(keys) && forall k | k in keys :: k in data.managed
    ensures Clear(data, keys, fate, dry).data.mappings == data.mappings
    ensures Clear(data, keys, fate, dry).data.lastEvents == data.lastEvents
    decreases |keys|
  {
    if keys != [] && dry {
      ClearFrame(data, keys[1..], fate, dry);
    } else if keys != [] {
      ForgetKeepsRest(data, keys);
      ClearFrame(Forget(data, keys[0]), keys[1..], fate.Later(1), dry);
    }
  }

  lemma ActionFrame(data: Data, pool: string, guid: string, disk: Option<Disk>,
                    action: Action, fate: Fate, dry: bool)
    ensures ApplyAction(data, pool, guid, disk, action, fate, dry).data.mappings == data.mappings
    ensures ApplyAction(data, pool, guid, disk, action, fate, dry).data.lastEvents == data.lastEvents
  {
    hide Bay.Key;
    if action == Off {
      ClearFrame(data, Listing(OwnedKeys(data, guid)), fate, dry);
    }
  }

  lemma {:induction false} ReconcileFrame(data: Data, disks: seq<Disk>, fate: Fate, dry: bool)
    ensures ReconcileDisks(data, disks, fate, dry).data.mappings == data.mappings
    ensures ReconcileDisks(data, disks, fate, dry).data.lastEvents == data.lastEvents
    decreases |disks|
  {
    if disks != [] {
      var d := disks[0];
      match ActionFor(d.state)
      case None => ReconcileFrame(data, disks[1..], fate, dry);
      case Some(action) =>
        ActionFrame(data, d.pool, d.guid, Some(d), action, fate, dry);
        var first := ApplyAction(data, d.pool, d.guid, Some(d), action, fate, dry);
        if first.status == Done {
          ReconcileFrame(first.data, disks[1..], fate.Later(|first.calls|), dry);
        }
    }
  }

  lemma HandleFrame(data: Data, event: Event, eventAction: Action, disks: seq<Disk>, fate: Fate, dry: bool)
    ensures var r := HandleEvent(data, event, eventAction, disks, fate, dry);
            && r.data.mappings == data.mappings
            && (r.data.lastEvents == data.lastEvents
                || (r.status == Done && r.data.lastEvents == Mark(data, event, dry).lastEvents))
  {
    hide ApplyAction, FindDisk, Fingerprint;
    var disk := FindDisk(disks, event.guid);
    if !Duplicate(data, event) && !(disk.Some? && ActionFor(disk.value.state).None?) {
      var action := if disk.Some? then ActionFor(disk.value.state).value else eventAction;
      ActionFrame(data, event.pool, event.guid, disk, action, fate, dry);
    }
  }

  /** A callback writes its snapshot into the bay cache and touches it no further; it marks
      at most its own event. */
  lemma ExecFrame(data: Data, job: Job, fate: Fate, dry: bool)
    ensures var r := Exec(data, job, fate, dry);
            && r.data.mappings == Refresh(data.mappings, Snapshot(job))
            && (r.data.lastEvents == data.lastEvents
                || (job.Handle? && r.status == Done && r.data.lastEvents == Mark(data, job.event, dry).lastEvents))
  {
    hide Clear, ReconcileDisks, HandleEvent, Refresh, Fingerprint;
    var start := Refreshed(data, job);
    match job
    case Handle(event, eventAction, disks) => HandleFrame(start, event, eventAction, disks, fate, dry);
    case Reconcile(disks) => ReconcileFrame(start, disks, fate, dry);
    case Cleanup => ClearFrame(start, Listing(start.managed.Keys), fate, dry);
  }

  // ----- Words -----

  /** A state calls for On if and only if it is DEGRADED, FAULTED, UNAVAIL or REMOVED, and for Off
      if and only if it is ONLINE. */
  lemma ActionWords(h: Health)
    ensures ActionFor(h) == Some(On) <==> IsFaulted(h)
    ensures ActionFor(h) == Some(Off) <==> IsOnline(h)
    ensures ActionFor(h).None? <==> !IsFaulted(h) && !IsOnline(h)
  {
  }

  /** A bay has a name if and only if none of its parts is missing. */
  lemma NamedIffComplete(b: Bay)
    ensures b.ID() != "" <==> IsComplete(b)
  {
  }

  /** The bay to light: the disk's own if it is complete, else the remembered one filed under the
      GUID if that is complete, else none. */
  lemma TargetBayIs(data: Data, guid: string, disk: Option<Disk>)
    ensures disk.Some? && HasBay(disk.value) ==> TargetBay(data, guid, disk) == Some((disk.value.bay.value, false))
    ensures !(disk.Some? && HasBay(disk.value)) && IsRemembered(data.mappings, guid) ==>
              TargetBay(data, guid, disk) == Some((data.mappings[guid].bay, true))
    ensures !(disk.Some? && HasBay(disk.value)) && !IsRemembered(data.mappings, guid) ==>
              TargetBay(data, guid, disk) == None
  {
    hide Bay.ID;
    if disk.Some? && disk.value.bay.Some? { NamedIffComplete(disk.value.bay.value); }
    if guid in data.mappings { NamedIffComplete(data.mappings[guid].bay); }
  }

  predicate IsRemembered(m: map<string, Mapping>, guid: string) {
    guid in m && m[guid].guid == guid && IsComplete(m[guid].bay)
  }

  // ----- Bay cache provenance -----

  /** What a snapshot says about the bay of a GUID: its last disk with a complete bay and an
      identity. */
  function Seen(disks: seq<Disk>, guid: string): Option<Mapping> {
    if disks == [] then None
    else
      var d := disks[|disks| - 1];
      if d.guid == guid && IsIdentified(d) then Some(Mapping(d.pool, d.guid, d.serial, d.wwn, d.bay.value))
      else Seen(disks[..|disks| - 1], guid)
  }

  predicate Holds(m: map<string, Mapping>, guid: string, v: Option<Mapping>) {
    match v
    case None => guid !in m
    case Some(x) => guid in m && m[guid] == x
  }

  lemma {:induction false} RefreshSees(m: map<string, Mapping>, disks: seq<Disk>, guid: string, v: Option<Mapping>)
    requires Holds(m, guid, v)
    ensures Holds(Refresh(m, disks), guid, if Seen(disks, guid).Some? then Seen(disks, guid) else v)
  {
    if disks != [] { RefreshSees(m, disks[..|disks| - 1], guid, v); }
  }

  /** After seeing a snapshot, a GUID has a remembered bay if and only if it had one before or some
      disk of the snapshot has this GUID, a complete bay, and a serial number or a WWN; in that case
      the last such disk gives the entry. */
  lemma RefreshIff(m: map<string, Mapping>, disks: seq<Disk>, guid: string)
    ensures guid in Refresh(m, disks) <==>
            guid in m || exists i :: 0 <= i < |disks| && disks[i].guid == guid && IsIdentified(disks[i])
    ensures forall i | 0 <= i < |disks| && disks[i].guid == guid && IsIdentified(disks[i])
              && (forall j | i < j < |disks| :: disks[j].guid != guid || !IsIdentified(disks[j])) ::
              guid in Refresh(m, disks) &&
              var d := disks[i];
              Refresh(m, disks)[guid] == Mapping(d.pool, d.guid, d.serial, d.wwn, d.bay.value)
    ensures (forall i | 0 <= i < |disks| :: disks[i].guid != guid || !IsIdentified(disks[i])) && guid in m ==>
              Refresh(m, disks)[guid] == m[guid]
  {
    hide IsIdentified, Refresh;
    RefreshSees(m, disks, guid, if guid in m then Some(m[guid]) else None);
    SeenIsLast(disks, guid);
  }

  lemma {:induction false} SeenIsLast(disks: seq<Disk>, guid: string)
    ensures Seen(disks, guid).Some? <==>
            exists i :: 0 <= i < |disks| && disks[i].guid == guid && IsIdentified(disks[i])
    ensures forall i | 0 <= i < |disks| && disks[i].guid == guid && IsIdentified(disks[i])
              && (forall j | i < j < |disks| :: disks[j].guid != guid || !IsIdentified(disks[j])) ::
              var d := disks[i];
              Seen(disks, guid) == Some(Mapping(d.pool, d.guid, d.serial, d.wwn, d.bay.value))
  {
    if disks != [] {
      var n := |disks| - 1;
      SeenIsLast(disks[..n], guid);
      assert forall i | 0 <= i < n :: disks[..n][i] == disks[i];
    }
  }

  /** The latest published snapshot in which this GUID was verified, since the state file
      was last lost. */
  ghost function LastVerified(h: seq<Entry>, guid: string): Option<Mapping> {
    if h == [] then None
    else
      var prefix, e := h[..|h| - 1], h[|h| - 1];
      var before := Replay(prefix);
      match e
      case Damage(_) => LastVerified(prefix, guid)
      case Quarantine => if before.file.Garbled? then None else LastVerified(prefix, guid)
      case Attempt(job, fate, published) =>
        if !before.file.Garbled? && published && Exec(Base(before.file), job, fate, false).status == Done
           && Seen(Snapshot(job), guid).Some?
        then Seen(Snapshot(job), guid)
        else LastVerified(prefix, guid)
  }

  /** Along every history, the cached bay of a GUID is the one it carried in the latest
      published snapshot that verified it, and nothing else is cached. */
  lemma {:induction false} CacheProvenance(h: seq<Entry>, guid: string)
    requires !Replay(h).file.Garbled?
    ensures Holds(Base(Replay(h).file).mappings, guid, LastVerified(h, guid))
  {
    if h != [] {
      var prefix, e := h[..|h| - 1], h[|h| - 1];
      var before := Replay(prefix);
      if !before.file.Garbled? {
        CacheProvenance(prefix, guid);
        if e.Attempt? {
          ExecFrame(Base(before.file), e.job, e.fate, false);
          RefreshSees(Base(before.file).mappings, Snapshot(e.job), guid, LastVerified(prefix, guid));
        }
      }
    }
  }

  // ----- Every call has a reason -----

  /** The job has a vdev with this GUID whose health calls for this action. */
  ghost predicate Reported(job: Job, guid: string, action: Action) {
    match job
    case Handle(event, eventAction, disks) =>
      guid == event.guid &&
      (match FindDisk(disks, guid)
       case None => action == eventAction
       case Some(d) => Asks(d.state, action))
    case Reconcile(disks) => exists d | d in disks :: d.guid == guid && Asks(d.state, action)
    case Cleanup => action == Off
  }

  predicate IsLiveBay(disks: seq<Disk>, guid: string, bay: Bay) {
    exists d | d in disks :: d.guid == guid && InBay(d, bay)
  }

  predicate IsCachedBay(m: map<string, Mapping>, guid: string, bay: Bay) {
    guid in m && m[guid].guid == guid && m[guid].bay == bay
  }

  /** The state records this bay as lit for this vdev. */
  ghost predicate IsOwnedBay(managed: map<string, ManagedLED>, guid: string, bay: Bay) {
    exists k :: k in managed && managed[k].guid == guid && managed[k].bay == bay
  }

  /** The job lights this bay for this vdev: it is reported faulted, and the bay is its live
      one or its remembered one. */
  ghost predicate LitFor(start: Data, job: Job, guid: string, bay: Bay) {
    Reported(job, guid, On) && (IsLiveBay(Snapshot(job), guid, bay) || IsCachedBay(start.mappings, guid, bay))
  }

  /** Why a job may issue a call, seen from the state it starts with. On: the vdev is reported
      faulted and the bay is its live or remembered one. Off: the bay is one the state records,
      and unless the job is a cleanup, it records it for a vdev reported online. A snapshot
      that lists one GUID both as faulted and as online can also clear what it has just lit. */
  ghost predicate Reasoned(start: Data, job: Job, c: Call) {
    match c.action
    case On => exists guid :: LitFor(start, job, guid, c.bay)
    case Off =>
      exists guid :: Reported(job, guid, Off)
                     && (IsOwnedBay(start.managed, guid, c.bay) || (job.Reconcile? && LitFor(start, job, guid, c.bay)))
  }

  /** Every LED recorded so far was recorded at the start or lit by the job for its vdev. */
  ghost predicate Accounted(start: Data, job: Job, now: Data) {
    now.mappings == start.mappings
    && forall k | k in now.managed ::
         || IsOwnedBay(start.managed, now.managed[k].guid, now.managed[k].bay)
         || (job.Reconcile? && LitFor(start, job, now.managed[k].guid, now.managed[k].bay))
  }

  /** Clearing switches off the bays of the listed keys and nothing else, in every ending. */
  lemma {:induction false} ClearTargets(data: Data, keys: seq<string>, fate: Fate, dry: bool)
    requires Sorted(keys) && forall k | k in keys :: k in data.managed
    ensures var r := Clear(data, keys, fate, dry);
            && (forall c | c in r.calls :: c.action == Off && exists k :: k in keys && data.managed[k].bay == c.bay)
            && r.data.managed.Keys <= data.managed.Keys
            && (forall k | k in data.managed && (k in r.data.managed || k !in keys) ::
                  k in r.data.managed && r.data.managed[k] == data.managed[k])
    decreases |keys|
  {
    if keys != [] && dry {
      ClearTargets(data, keys[1..], fate, dry);
    } else if keys != [] {
      ForgetKeepsRest(data, keys);
      ClearTargets(Forget(data, keys[0]), keys[1..], fate.Later(1), dry);
      assert keys[0] in keys;
    }
  }

  lemma {:induction false} FindDiskFinds(disks: seq<Disk>, guid: string)
    ensures FindDisk(disks, guid).Some? ==>
              FindDisk(disks, guid).value in disks && FindDisk(disks, guid).value.guid == guid
    ensures FindDisk(disks, guid).None? ==> forall d | d in disks :: d.guid != guid
  {
    if disks != [] && disks[0].guid != guid {
      FindDiskFinds(disks[1..], guid);
      assert disks == [disks[0]] + disks[1..];
    }
  }

  lemma OffReasoned(start: Data, job: Job, data: Data, guid: string, fate: Fate, dry: bool)
    requires Reported(job, guid, Off) && Accounted(start, job, data)
    ensures var r := ApplyOff(data, guid, fate, dry);
            Accounted(start, job, r.data) && forall c | c in r.calls :: Reasoned(start, job, c)
  {
    hide LitFor, IsOwnedBay, Reported;
    var keys := Listing(OwnedKeys(data, guid));
    ClearTargets(data, keys, fate, dry);
    ClearFrame(data, keys, fate, dry);
    forall c | c in ApplyOff(data, guid, fate, dry).calls ensures Reasoned(start, job, c) {
      var k :| k in keys && data.managed[k].bay == c.bay;
      assert k in OwnedKeys(data, guid);
    }
  }

  lemma OnReasoned(start: Data, job: Job, data: Data, pool: string, guid: string, disk: Option<Disk>,
                   fate: Fate, dry: bool)
    requires Reported(job, guid, On) && data.mappings == start.mappings
    requires disk.Some? ==> disk.value in Snapshot(job) && disk.value.guid == guid
    ensures var r := ApplyOn(data, pool, guid, disk, fate, dry);
            forall c | c in r.calls :: LitFor(start, job, guid, c.bay) && c.action == On
    ensures job.Reconcile? && Accounted(start, job, data) ==>
              Accounted(start, job, ApplyOn(data, pool, guid, disk, fate, dry).data)
  {
    hide Bay.Key, IsOwnedBay, Reported;
    var target := TargetBay(data, guid, disk);
    if target.Some? {
      var bay := target.value.0;
      if disk.Some? && HasBay(disk.value) {
        assert IsLiveBay(Snapshot(job), guid, bay);
      }
      assert LitFor(start, job, guid, bay);
      hide LitFor;
    }
  }

  lemma ActionReasoned(start: Data, job: Job, data: Data, pool: string, guid: string, disk: Option<Disk>,
                       action: Action, fate: Fate, dry: bool)
    requires Reported(job, guid, action) && Accounted(start, job, data)
    requires disk.Some? ==> disk.value in Snapshot(job) && disk.value.guid == guid
    ensures var r := ApplyAction(data, pool, guid, disk, action, fate, dry);
            && (forall c | c in r.calls :: Reasoned(start, job, c))
            && (job.Reconcile? ==> Accounted(start, job, r.data))
  {
    hide LitFor, Accounted, Reported, ApplyOn, ApplyOff, IsOwnedBay;
    if action == Off {
      OffReasoned(start, job, data, guid, fate, dry);
    } else {
      AccountedFrame(start, job, data);
      OnReasoned(start, job, data, pool, guid, disk, fate, dry);
    }
  }

  lemma AccountedFrame(start: Data, job: Job, data: Data)
    requires Accounted(start, job, data)
    ensures data.mappings == start.mappings
  {
  }

  lemma {:induction false} ReconcileReasoned(start: Data, job: Job, data: Data, disks: seq<Disk>, fate: Fate, dry: bool)
    requires job.Reconcile? && (forall d | d in disks :: d in job.disks) && Accounted(start, job, data)
    ensures forall c | c in ReconcileDisks(data, disks, fate, dry).calls :: Reasoned(start, job, c)
    decreases |disks|
  {
    hide Accounted, Reasoned;
    if disks != [] {
      var d := disks[0];
      assert d in disks;
      match ActionFor(d.state)
      case None => ReconcileReasoned(start, job, data, disks[1..], fate, dry);
      case Some(action) =>
        assert Reported(job, d.guid, action);
        ActionReasoned(start, job, data, d.pool, d.guid, Some(d), action, fate, dry);
        var first := ApplyAction(data, d.pool, d.guid, Some(d), action, fate, dry);
        if first.status == Done {
          ReconcileReasoned(start, job, first.data, disks[1..], fate.Later(|first.calls|), dry);
        }
    }
  }

  lemma HandleReasoned(start: Data, job: Job, fate: Fate, dry: bool)
    requires job.Handle?
    ensures forall c | c in HandleEvent(start, job.event, job.eventAction, job.disks, fate, dry).calls ::
              Reasoned(start, job, c)
  {
    hide Accounted, Reasoned, ApplyAction, FindDisk, Fingerprint;
    var event := job.event;
    var disk := FindDisk(job.disks, event.guid);
    FindDiskFinds(job.disks, event.guid);
    AccountedAtStart(start, job);
    if !Duplicate(start, event) && !(disk.Some? && ActionFor(disk.value.state).None?) {
      var action := if disk.Some? then ActionFor(disk.value.state).value else job.eventAction;
      ActionReasoned(start, job, start, event.pool, event.guid, disk, action, fate, dry);
    }
  }

  lemma AccountedAtStart(start: Data, job: Job)
    ensures Accounted(start, job, start)
  {
  }

  lemma CleanupReasoned(start: Data, fate: Fate, dry: bool)
    ensures forall c | c in CleanupAll(start, fate, dry).calls :: Reasoned(start, Cleanup, c)
  {
    var keys := Listing(start.managed.Keys);
    ClearTargets(start, keys, fate, dry);
    forall c | c in CleanupAll(start, fate, dry).calls ensures Reasoned(start, Cleanup, c) {
      var k :| k in keys && start.managed[k].bay == c.bay;
      assert IsOwnedBay(start.managed, start.managed[k].guid, c.bay);
      assert Reported(Cleanup, start.managed[k].guid, Off);
    }
  }

  /** Every call of every job has its reason in the snapshot and the state it started from. */
  lemma ExecReasoned(data: Data, job: Job, fate: Fate, dry: bool)
    ensures forall c | c in Exec(data, job, fate, dry).calls :: Reasoned(Refreshed(data, job), job, c)
  {
    hide Reasoned, Accounted, HandleEvent, ReconcileDisks, CleanupAll, Refresh;
    var start := Refreshed(data, job);
    match job
    case Handle(_, _, _) => HandleReasoned(start, job, fate, dry);
    case Reconcile(disks) =>
      AccountedAtStart(start, job);
      ReconcileReasoned(start, job, start, disks, fate, dry);
    case Cleanup => CleanupReasoned(start, fate, dry);
  }

  /** With distinct GUIDs nothing lit in a pass is cleared in it: an Off outside a cleanup is
      for a bay the state recorded, before the job, for a vdev the job reports online. */
  lemma OffIsOwned(data: Data, job: Job, fate: Fate, dry: bool, c: Call)
    requires forall i, j | 0 <= i < j < |Snapshot(job)| :: Snapshot(job)[i].guid != Snapshot(job)[j].guid
    requires c in Exec(data, job, fate, dry).calls && c.action == Off
    ensures exists guid :: Reported(job, guid, Off) && IsOwnedBay(data.managed, guid, c.bay)
  {
    hide IsOwnedBay, Exec, Refresh;
    ExecReasoned(data, job, fate, dry);
    var start := Refreshed(data, job);
    assert Reasoned(start, job, c);
  }

  /** The bay remembered for a GUID while a job runs: verified by the job's own snapshot, or
      by the latest published one before it. */
  ghost function Remembered(h: seq<Entry>, job: Job, guid: string): Option<Mapping> {
    if Seen(Snapshot(job), guid).Some? then Seen(Snapshot(job), guid) else LastVerified(h, guid)
  }

  /** After any history, whatever a job lights is the live bay of a vdev reported faulted or
      exactly the last bay verified for it. */
  lemma OnProvenance(h: seq<Entry>, job: Job, fate: Fate, c: Call)
    requires !Replay(h).file.Garbled?
    requires c in Exec(Base(Replay(h).file), job, fate, false).calls && c.action == On
    ensures exists guid :: Reported(job, guid, On) &&
              (IsLiveBay(Snapshot(job), guid, c.bay)
               || (Remembered(h, job, guid).Some? && Remembered(h, job, guid).value.bay == c.bay))
  {
    var base := Base(Replay(h).file);
    var m := Refresh(base.mappings, Snapshot(job));
    ExecReasoned(base, job, fate, false);
    var guid :| LitFor(Refreshed(base, job), job, guid, c.bay);
    CacheProvenance(h, guid);
    RefreshSees(base.mappings, Snapshot(job), guid, LastVerified(h, guid));
  }

  lemma {:induction false} SeenIsVerified(disks: seq<Disk>, guid: string)
    ensures Seen(disks, guid).Some? ==>
              exists d :: d in disks && IsIdentified(d) && d.guid == guid
                          && Seen(disks, guid) == Some(Mapping(d.pool, d.guid, d.serial, d.wwn, d.bay.value))
  {
    hide Bay.ID;
    if disks != [] {
      var d := disks[|disks| - 1];
      assert disks == disks[..|disks| - 1] + [d];
      SeenIsVerified(disks[..|disks| - 1], guid);
    }
  }

  lemma {:induction false} RememberedIsComplete(h: seq<Entry>, guid: string)
    ensures LastVerified(h, guid).Some? ==>
              var m := LastVerified(h, guid).value;
              m.guid == guid != "" && IsComplete(m.bay) && (m.serial != "" || m.wwn != "")
  {
    hide Bay.ID, Exec, Replay;
    if h != [] {
      RememberedIsComplete(h[..|h| - 1], guid);
      var e := h[|h| - 1];
      if e.Attempt? { SeenIsVerified(Snapshot(e.job), guid); }
    }
  }

  /** After any history, every cached bay is complete, is filed under its own GUID and was seen
      with a serial number or a WWN. */
  lemma CacheIsComplete(h: seq<Entry>, guid: string)
    requires !Replay(h).file.Garbled? && guid in Base(Replay(h).file).mappings
    ensures var m := Base(Replay(h).file).mappings[guid];
            m.guid == guid != "" && IsComplete(m.bay) && (m.serial != "" || m.wwn != "")
  {
    hide Bay.ID, Replay;
    CacheProvenance(h, guid);
    RememberedIsComplete(h, guid);
  }

  /** After any history, the bay a job aims at for a vdev is the disk's live bay if it has one, and
      otherwise exactly the last bay verified for the vdev, if there is one. */
  lemma TargetProvenance(h: seq<Entry>, job: Job, guid: string, disk: Option<Disk>)
    requires !Replay(h).file.Garbled?
    ensures TargetBay(Refreshed(Base(Replay(h).file), job), guid, disk) ==
            if disk.Some? && HasBay(disk.value) then Some((disk.value.bay.value, false))
            else if Remembered(h, job, guid).Some? then Some((Remembered(h, job, guid).value.bay, true))
            else None
  {
    hide Bay.ID, Replay;
    var base := Base(Replay(h).file);
    CacheProvenance(h, guid);
    RefreshSees(base.mappings, Snapshot(job), guid, LastVerified(h, guid));
    RememberedIsComplete(h, guid);
    SeenIsVerified(Snapshot(job), guid);
    if disk.Some? && disk.value.bay.Some? { NamedIffComplete(disk.value.bay.value); }
    if Remembered(h, job, guid).Some? { NamedIffComplete(Remembered(h, job, guid).value.bay); }
  }

  /** A bay that was seen is used: after a published snapshot whose last disk with this GUID, a
      complete bay and an identity sits in a bay, and as long as no later published snapshot has
      such a disk and the file is not lost, a job whose own snapshot has none and that knows no live
      bay of the vdev aims at exactly that bay. */
  lemma SeenBayIsUsed(h: seq<Entry>, i: nat, guid: string, job: Job, disk: Option<Disk>)
    requires i < |h| && h[i].Attempt? && h[i].published && !Replay(h[..i]).file.Garbled?
    requires Exec(Base(Replay(h[..i]).file), h[i].job, h[i].fate, false).status == Done
    requires Seen(Snapshot(h[i].job), guid).Some?
    requires forall m | i < m < |h| ::
               && !(h[m] == Quarantine && Replay(h[..m]).file.Garbled?)
               && (h[m].Attempt? ==> Seen(Snapshot(h[m].job), guid).None? || !h[m].published)
    requires !Replay(h).file.Garbled? && Seen(Snapshot(job), guid).None?
    requires disk.Some? ==> !HasBay(disk.value)
    ensures TargetBay(Refreshed(Base(Replay(h).file), job), guid, disk) ==
            Some((Seen(Snapshot(h[i].job), guid).value.bay, true))
  {
    hide Replay, Exec, Seen, TargetBay, Refresh;
    LastVerifiedStays(h, i, guid);
    TargetProvenance(h, job, guid, disk);
  }

  lemma {:induction false} LastVerifiedStays(h: seq<Entry>, i: nat, guid: string)
    requires i < |h| && h[i].Attempt? && h[i].published && !Replay(h[..i]).file.Garbled?
    requires Exec(Base(Replay(h[..i]).file), h[i].job, h[i].fate, false).status == Done
    requires Seen(Snapshot(h[i].job), guid).Some?
    requires forall m | i < m < |h| ::
               && !(h[m] == Quarantine && Replay(h[..m]).file.Garbled?)
               && (h[m].Attempt? ==> Seen(Snapshot(h[m].job), guid).None? || !h[m].published)
    ensures LastVerified(h, guid) == Seen(Snapshot(h[i].job), guid)
    decreases |h|
  {
    hide Replay, Exec, Seen;
    var last := |h| - 1;
    if i < last {
      assert forall m | 0 <= m < last :: h[..last][m] == h[m] && h[..last][..m] == h[..m];
      LastVerifiedStays(h[..last], i, guid);
    }
  }
}
