/** What one callback of the automation engine computes: from the loaded state,
    the request and the hardware's fate, to the edited state, the locate calls
    issued, the reported operations and the way it ended.

    A failing locate call ends the callback, so the environment has only one choice to
    make: which call fails, or before which call the process dies. That is a Fate. */
module EngineSpec {
  import opened Types
  import opened Order
  import Text

  datatype Mapping = Mapping(pool: string, guid: string, serial: string, wwn: string, bay: Bay)

  datatype ManagedLED = ManagedLED(pool: string, guid: string, bay: Bay)

  /** The persisted state. */
  datatype Data = Data(mappings: map<string, Mapping>, managed: map<string, ManagedLED>,
                       lastEvents: map<string, string>)

  const NEW_DATA := Data(map[], map[], map[])

  datatype Event = Event(id: string, subclass: string, pool: string, guid: string,
                         state: Health, vdevType: string)

  /** A callback together with everything it has captured. Disks are the snapshot
      discovered before the lock was taken; for Reconcile they are already sorted. */
  datatype Job =
    | Handle(event: Event, eventAction: Action, disks: seq<Disk>)
    | Reconcile(disks: seq<Disk>)
    | Cleanup

  /** One locate call and whether it reported success. */
  datatype Call = Call(bay: Bay, action: Action, ok: bool)

  datatype Operation = Operation(guid: string, bay: Bay, action: Action, applied: bool, usedCache: bool)

  /** The environment's choice: no trouble, the n-th locate call fails, or the process
      dies just before the n-th locate call (counting from zero). */
  datatype Fate = Smooth | FailAt(n: nat) | DieAt(n: nat)
  {
    /** What remains of this fate once some calls have succeeded. */
    function Later(calls: nat): Fate {
      match this
      case Smooth => Smooth
      case FailAt(k) => if k < calls then Smooth else FailAt(k - calls)
      case DieAt(k) => if k < calls then Smooth else DieAt(k - calls)
    }
  }

  /** Finished, refused by the engine itself, stopped by a failing locate call, or cut short. */
  datatype Status = Done | Refused(code: ErrorCode) | LocateFailed | Died

  datatype Run = Run(status: Status, data: Data, calls: seq<Call>, ops: seq<Operation>, ignored: bool)

  // ----- Event guard and deduplication key -----

  function Validate(e: Event): Option<ErrorCode> {
    if e.vdevType == "" then Some(Malformed)
    else if e.vdevType != "disk" then None
    else if e.pool == "" then Some(Malformed)
    else if !Text.Digits(e.guid) then Some(Malformed)
    else if e.state == "" then Some(Malformed)
    else None
  }

  function Fingerprint(e: Event): string {
    if e.id == "" then "" else e.subclass + ":" + e.id
  }

  // ----- Small decisions -----

  function ActionFor(h: Health): Option<Action> {
    if h == "DEGRADED" || h == "FAULTED" || h == "UNAVAIL" || h == "REMOVED" then Some(On)
    else if h == "ONLINE" then Some(Off)
    else None
  }

  /** The first disk of the snapshot with this GUID. */
  function FindDisk(disks: seq<Disk>, guid: string): Option<Disk> {
    if disks == [] then None
    else if disks[0].guid == guid then Some(disks[0])
    else FindDisk(disks[1..], guid)
  }

  predicate HasLiveBay(d: Disk) {
    d.bay.Some? && d.bay.value.ID() != ""
  }

  /** A disk whose bay may be remembered: live bay, GUID and some identity. */
  predicate Verified(d: Disk) {
    d.guid != "" && HasLiveBay(d) && (d.serial != "" || d.wwn != "")
  }

  function MappingOf(d: Disk): Mapping
    requires d.bay.Some?
  {
    Mapping(d.pool, d.guid, d.serial, d.wwn, d.bay.value)
  }

  /** The bay cache after seeing a snapshot; a later disk overrides an earlier one. */
  function Refresh(m: map<string, Mapping>, disks: seq<Disk>): map<string, Mapping> {
    if disks == [] then m
    else
      var before := Refresh(m, disks[..|disks| - 1]);
      var d := disks[|disks| - 1];
      if Verified(d) then before[d.guid := MappingOf(d)] else before
  }

  /** The bay to light for a vdev, and whether it came from the cache. */
  function TargetBay(data: Data, guid: string, disk: Option<Disk>): Option<(Bay, bool)> {
    if disk.Some? && HasLiveBay(disk.value) then Some((disk.value.bay.value, false))
    else if guid in data.mappings && data.mappings[guid].guid == guid && data.mappings[guid].bay.ID() != ""
    then Some((data.mappings[guid].bay, true))
    else None
  }

  /** The keys a vdev owns. */
  function OwnedKeys(data: Data, guid: string): set<string> {
    set k | k in data.managed && data.managed[k].guid == guid
  }

  // ----- The callbacks -----

  /** A run seen together with the calls and operations that came before it. */
  function Onto(calls: seq<Call>, ops: seq<Operation>, r: Run): Run {
    r.(calls := calls + r.calls, ops := ops + r.ops)
  }

  lemma OntoOnto(calls: seq<Call>, ops: seq<Operation>, calls': seq<Call>, ops': seq<Operation>, r: Run)
    ensures Onto(calls, ops, Onto(calls', ops', r)) == Onto(calls + calls', ops + ops', r)
  {
  }

  /** Switch off the listed keys in order, forgetting each one once its LED is off. */
  ghost function Clear(data: Data, keys: seq<string>, fate: Fate, dry: bool): (r: Run)
    requires Sorted(keys) && forall k | k in keys :: k in data.managed
    decreases |keys|
  {
    if keys == [] then Run(Done, data, [], [], false)
    else
      var led := data.managed[keys[0]];
      if dry then
        var rest := Clear(data, keys[1..], fate, dry);
        Onto([], [Operation(led.guid, led.bay, Off, false, false)], rest)
      else if fate == DieAt(0) then Run(Died, data, [], [], false)
      else if fate == FailAt(0) then Run(LocateFailed, data, [Call(led.bay, Off, false)], [], false)
      else
        ForgetKeepsRest(data, keys);
        var rest := Clear(Forget(data, keys[0]), keys[1..], fate.Later(1), dry);
        Onto([Call(led.bay, Off, true)], [Operation(led.guid, led.bay, Off, true, false)], rest)
  }

  function Forget(data: Data, key: string): Data {
    data.(managed := data.managed - {key})
  }

  lemma ForgetKeepsRest(data: Data, keys: seq<string>)
    requires keys != [] && Sorted(keys) && forall k | k in keys :: k in data.managed
    ensures forall k | k in keys[1..] :: k in Forget(data, keys[0]).managed
  {
    forall k | k in keys[1..] ensures k != keys[0] {
      var i :| 0 <= i < |keys[1..]| && keys[1..][i] == k;
      assert k == keys[i + 1];
      Trichotomy(keys[0], k);
    }
  }

  ghost function ApplyOff(data: Data, guid: string, fate: Fate, dry: bool): (r: Run)
  {
    var keys := Listing(OwnedKeys(data, guid));
    var r := Clear(data, keys, fate, dry);
    r.(ignored := keys == [])
  }

  ghost function ApplyOn(data: Data, pool: string, guid: string, disk: Option<Disk>,
                         fate: Fate, dry: bool): (r: Run)
  {
    match TargetBay(data, guid, disk)
    case None => Run(Refused(NotFound), data, [], [], false)
    case Some((bay, cached)) =>
      var key := bay.Key();
      if key in data.managed then
        if data.managed[key].guid != guid then Run(Refused(Ambiguous), data, [], [], false)
        else Run(Done, data, [], [], true)
      else if dry then Run(Done, data, [], [Operation(guid, bay, On, false, cached)], false)
      else if fate == DieAt(0) then Run(Died, data, [], [], false)
      else if fate == FailAt(0) then Run(LocateFailed, data, [Call(bay, On, false)], [], false)
      else
        Run(Done, data.(managed := data.managed[key := ManagedLED(pool, guid, bay)]),
            [Call(bay, On, true)], [Operation(guid, bay, On, true, cached)], false)
  }

  ghost function ApplyAction(data: Data, pool: string, guid: string, disk: Option<Disk>,
                             action: Action, fate: Fate, dry: bool): (r: Run)
  {
    if action == Off then ApplyOff(data, guid, fate, dry)
    else ApplyOn(data, pool, guid, disk, fate, dry)
  }

  /** Runs that follow one another: the second starts where the first stopped. */
  function Join(first: Run, second: Run): Run {
    Run(second.status, second.data, first.calls + second.calls, first.ops + second.ops,
        first.ignored || second.ignored)
  }

  ghost function ReconcileDisks(data: Data, disks: seq<Disk>, fate: Fate, dry: bool): (r: Run)
    decreases |disks|
  {
    if disks == [] then Run(Done, data, [], [], false)
    else
      var d := disks[0];
      match ActionFor(d.state)
      case None => ReconcileDisks(data, disks[1..], fate, dry)
      case Some(action) =>
        var first := ApplyAction(data, d.pool, d.guid, Some(d), action, fate, dry);
        if first.status != Done then first
        else Join(first, ReconcileDisks(first.data, disks[1..], fate.Later(|first.calls|), dry))
  }

  function Mark(data: Data, event: Event, dry: bool): Data {
    if Fingerprint(event) != "" && !dry
    then data.(lastEvents := data.lastEvents[event.guid := Fingerprint(event)])
    else data
  }

  predicate Duplicate(data: Data, event: Event) {
    Fingerprint(event) != "" && event.guid in data.lastEvents && data.lastEvents[event.guid] == Fingerprint(event)
  }

  ghost function HandleEvent(data: Data, event: Event, eventAction: Action, disks: seq<Disk>,
                             fate: Fate, dry: bool): (r: Run)
  {
    if Duplicate(data, event) then Run(Done, data, [], [], true)
    else
      var disk := FindDisk(disks, event.guid);
      if disk.Some? && ActionFor(disk.value.state).None? then Run(Done, Mark(data, event, dry), [], [], true)
      else
        var action := if disk.Some? then ActionFor(disk.value.state).value else eventAction;
        var r := ApplyAction(data, event.pool, event.guid, disk, action, fate, dry);
        if r.status == Done then r.(data := Mark(r.data, event, dry)) else r
  }

  ghost function CleanupAll(data: Data, fate: Fate, dry: bool): (r: Run)
  {
    var keys := Listing(data.managed.Keys);
    var r := Clear(data, keys, fate, dry);
    r.(ignored := keys == [])
  }

  /** The snapshot a callback writes into the bay cache before anything else. */
  function Snapshot(job: Job): seq<Disk> {
    match job
    case Handle(_, _, disks) => disks
    case Reconcile(disks) => disks
    case Cleanup => []
  }

  function Refreshed(data: Data, job: Job): Data {
    data.(mappings := Refresh(data.mappings, Snapshot(job)))
  }

  /** One callback, from the state that was loaded. */
  ghost function Exec(data: Data, job: Job, fate: Fate, dry: bool): (r: Run)
  {
    var start := Refreshed(data, job);
    match job
    case Handle(event, eventAction, disks) => HandleEvent(start, event, eventAction, disks, fate, dry)
    case Reconcile(disks) => ReconcileDisks(start, disks, fate, dry)
    case Cleanup => CleanupAll(start, fate, dry)
  }
}
