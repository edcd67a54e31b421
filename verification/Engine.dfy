/** The automation engine as it runs: a transaction edits its copy of the state and its
    result in place, LED by LED, and each method is proved to do what EngineSpec says. */
module Engine {
  import opened Types
  import opened Order
  import opened EngineSpec
  import opened DryRun
  import opened Convergence

  datatype Reply = Succeeded | Failed | Crashed

  /** The enclosure service: it carries out locate calls until its fate strikes. */
  class Enclosures {
    var fate: Fate
    var calls: seq<Call>

    constructor (fate: Fate)
      ensures this.fate == fate && calls == []
    {
      this.fate := fate;
      calls := [];
    }

    method Locate(bay: Bay, action: Action) returns (reply: Reply)
      modifies this
      ensures old(fate) == DieAt(0) ==> reply == Crashed && calls == old(calls) && fate == old(fate)
      ensures old(fate) == FailAt(0) ==>
                reply == Failed && calls == old(calls) + [Call(bay, action, false)] && fate == old(fate)
      ensures old(fate) != DieAt(0) && old(fate) != FailAt(0) ==>
                reply == Succeeded && calls == old(calls) + [Call(bay, action, true)] && fate == old(fate).Later(1)
    {
      if fate == DieAt(0) { return Crashed; }
      if fate == FailAt(0) {
        calls := calls + [Call(bay, action, false)];
        return Failed;
      }
      calls := calls + [Call(bay, action, true)];
      fate := fate.Later(1);
      return Succeeded;
    }
  }

  function StatusOf(reply: Reply): Status {
    match reply
    case Succeeded => Done
    case Failed => LocateFailed
    case Crashed => Died
  }

  /** The state a callback edits, with the result it reports. */
  class Transaction {
    var mappings: map<string, Mapping>
    var managed: map<string, ManagedLED>
    var lastEvents: map<string, string>
    var operations: seq<Operation>
    var ignored: bool
    const enclosures: Enclosures
    const dryRun: bool

    constructor (data: Data, enclosures: Enclosures, dryRun: bool)
      ensures Value() == data && operations == [] && !ignored
      ensures this.enclosures == enclosures && this.dryRun == dryRun
    {
      mappings, managed, lastEvents := data.mappings, data.managed, data.lastEvents;
      operations, ignored := [], false;
      this.enclosures := enclosures;
      this.dryRun := dryRun;
    }

    function Value(): Data
      reads this
    {
      Data(mappings, managed, lastEvents)
    }

    /** The transaction and the hardware have moved as run r says. */
    twostate predicate Performed(r: Run, status: Status)
      reads this, enclosures
    {
      && status == r.status && Value() == r.data
      && operations == old(operations) + r.ops
      && ignored == (old(ignored) || r.ignored)
      && enclosures.calls == old(enclosures.calls) + r.calls
      && (r.status == Done && !dryRun ==> enclosures.fate == old(enclosures.fate).Later(|r.calls|))
      && (dryRun ==> enclosures.fate == old(enclosures.fate))
    }

    method RefreshMappings(disks: seq<Disk>)
      modifies this`mappings
      ensures mappings == Refresh(old(mappings), disks)
    {
      for i := 0 to |disks|
        invariant mappings == Refresh(old(mappings), disks[..i])
      {
        var disk := disks[i];
        assert disks[..i + 1][..i] == disks[..i];
        if disk.guid == "" || disk.bay.None? || disk.bay.value.ID() == "" || (disk.serial == "" && disk.wwn == "") {
          continue;
        }
        mappings := mappings[disk.guid := Mapping(disk.pool, disk.guid, disk.serial, disk.wwn, disk.bay.value)];
      }
      assert disks[..|disks|] == disks;
    }

    /** One turn of the loop below. */
    method ClearKey(key: string) returns (status: Status)
      requires key in managed
      modifies this`managed, this`operations, enclosures
      ensures var led := old(managed)[key];
              var f := old(enclosures.fate);
              if !dryRun && f == DieAt(0) then
                status == Died && enclosures.calls == old(enclosures.calls)
                && managed == old(managed) && operations == old(operations)
              else if !dryRun && f == FailAt(0) then
                status == LocateFailed && enclosures.calls == old(enclosures.calls) + [Call(led.bay, Off, false)]
                && managed == old(managed) && operations == old(operations)
              else
                && status == Done
                && operations == old(operations) + [Operation(led.guid, led.bay, Off, !dryRun, false)]
                && enclosures.fate == (if dryRun then f else f.Later(1))
                && enclosures.calls == old(enclosures.calls) + (if dryRun then [] else [Call(led.bay, Off, true)])
                && managed == (if dryRun then old(managed) else old(managed) - {key})
    {
      var led := managed[key];
      if !dryRun {
        var reply := enclosures.Locate(led.bay, Off);
        if reply != Succeeded {
          return StatusOf(reply);
        }
        managed := managed - {key};
      }
      operations := operations + [Operation(led.guid, led.bay, Off, !dryRun, false)];
      status := Done;
    }

    /** The loop shared by the Off branch of an action and by Cleanup. */
    method ClearKeys(keys: seq<string>) returns (status: Status)
      requires Sorted(keys) && forall k | k in keys :: k in managed
      modifies this`managed, this`operations, enclosures
      ensures Performed(Clear(old(Value()), keys, old(enclosures.fate), dryRun), status)
    {
      hide Clear, Sorted;
      ghost var whole := Onto(enclosures.calls, operations, Clear(Value(), keys, enclosures.fate, dryRun));
      ghost var calls: nat := 0;
      var i := 0;
      assert keys[i..] == keys;
      while i < |keys|
        invariant 0 <= i <= |keys|
        invariant Sorted(keys[i..]) && forall k | k in keys[i..] :: k in managed
        invariant mappings == old(mappings) && lastEvents == old(lastEvents) && ignored == old(ignored)
        invariant whole == Onto(enclosures.calls, operations, Clear(Value(), keys[i..], enclosures.fate, dryRun))
        invariant |enclosures.calls| == |old(enclosures.calls)| + calls
        invariant enclosures.fate == if dryRun then old(enclosures.fate) else old(enclosures.fate).Later(calls)
      {
        assert keys[i..][0] == keys[i] && keys[i..][1..] == keys[i + 1..];
        ClearStep(Value(), keys[i..], enclosures.fate, dryRun);
        ghost var before, reported, operation :=
          enclosures.calls, operations, Operation(managed[keys[i]].guid, managed[keys[i]].bay, Off, !dryRun, false);
        status := ClearKey(keys[i]);
        if status != Done { return; }
        i := i + 1;
        calls := calls + if dryRun then 0 else 1;
        OntoOnto(before, reported, if dryRun then [] else [Call(operation.bay, Off, true)], [operation],
                 Clear(Value(), keys[i..], enclosures.fate, dryRun));
      }
      assert keys[i..] == [];
      ClearNone(Value(), enclosures.fate, dryRun);
      status := Done;
    }

    method SwitchOff(guid: string) returns (status: Status)
      modifies this, enclosures
      ensures Performed(ApplyOff(old(Value()), guid, old(enclosures.fate), dryRun), status)
    {
      var keys := SortedKeys(set k | k in managed && managed[k].guid == guid);
      assert keys == Listing(OwnedKeys(Value(), guid));
      status := ClearKeys(keys);
      if status != Done { return; }
      if |keys| == 0 {
        ignored := true;
      }
    }

    method SwitchOn(pool: string, guid: string, disk: Option<Disk>) returns (status: Status)
      modifies this, enclosures
      ensures Performed(ApplyOn(old(Value()), pool, guid, disk, old(enclosures.fate), dryRun), status)
    {
      hide Bay.Key;
      var target := TargetBay(Value(), guid, disk);
      if target.None? {
        return Refused(NotFound);
      }
      var (bay, usedCache) := target.value;
      var key := bay.Key();
      if key in managed {
        if managed[key].guid != guid {
          return Refused(Ambiguous);
        }
        ignored := true;
        return Done;
      }
      if !dryRun {
        var reply := enclosures.Locate(bay, On);
        if reply != Succeeded {
          return StatusOf(reply);
        }
        managed := managed[key := ManagedLED(pool, guid, bay)];
      }
      operations := operations + [Operation(guid, bay, On, !dryRun, usedCache)];
      status := Done;
    }

    method Apply(pool: string, guid: string, disk: Option<Disk>, action: Action) returns (status: Status)
      modifies this, enclosures
      ensures Performed(ApplyAction(old(Value()), pool, guid, disk, action, old(enclosures.fate), dryRun), status)
    {
      if action == Off {
        status := SwitchOff(guid);
      } else {
        status := SwitchOn(pool, guid, disk);
      }
    }

    /** A real callback that succeeds, and is no duplicate, leaves the vdev owning what its state
        asks for and all other vdevs owning what they owned. */
    method HandleCallback(event: Event, eventAction: Action, disks: seq<Disk>) returns (status: Status)
      modifies this, enclosures
      ensures Performed(Exec(old(Value()), Handle(event, eventAction, disks), old(enclosures.fate), dryRun), status)
      ensures !dryRun && status == Done && !Duplicate(old(Value()), event) ==>
                Handled(Refreshed(old(Value()), Handle(event, eventAction, disks)), Value(), event, eventAction, disks)
    {
      hide Exec, Handled;
      if !dryRun && !Duplicate(Value(), event) {
        HandleSettles(Value(), event, eventAction, disks, enclosures.fate);
      }
      status := HandleSteps(event, eventAction, disks);
    }

    method HandleSteps(event: Event, eventAction: Action, disks: seq<Disk>) returns (status: Status)
      modifies this, enclosures
      ensures Performed(Exec(old(Value()), Handle(event, eventAction, disks), old(enclosures.fate), dryRun), status)
    {
      RefreshMappings(disks);
      var fingerprint := Fingerprint(event);
      if fingerprint != "" && event.guid in lastEvents && lastEvents[event.guid] == fingerprint {
        ignored := true;
        return Done;
      }
      var disk := LookUp(disks, event.guid);
      var action := eventAction;
      if disk.Some? {
        var current := ActionFor(disk.value.state);
        if current.None? {
          ignored := true;
          MarkEvent(event);
          return Done;
        }
        action := current.value;
      }
      status := Apply(event.pool, event.guid, disk, action);
      if status != Done { return; }
      MarkEvent(event);
    }

    method MarkEvent(event: Event)
      modifies this`lastEvents
      ensures Value() == Mark(old(Value()), event, dryRun)
    {
      if Fingerprint(event) != "" && !dryRun {
        lastEvents := lastEvents[event.guid := Fingerprint(event)];
      }
    }

    method ReconcileCallback(disks: seq<Disk>) returns (status: Status)
      modifies this, enclosures
      ensures Performed(Exec(old(Value()), Reconcile(disks), old(enclosures.fate), dryRun), status)
    {
      RefreshMappings(disks);
      status := ReconcileLoop(disks);
    }

    method ReconcileLoop(disks: seq<Disk>) returns (status: Status)
      modifies this, enclosures
      ensures Performed(ReconcileDisks(old(Value()), disks, old(enclosures.fate), dryRun), status)
    {
      hide ReconcileDisks, ApplyAction;
      ghost var start := Run(Done, Value(), enclosures.calls, operations, ignored);
      ghost var whole := Join(start, ReconcileDisks(Value(), disks, enclosures.fate, dryRun));
      ghost var calls: nat := 0;
      assert disks[0..] == disks;
      var index := 0;
      while index < |disks|
        invariant 0 <= index <= |disks|
        invariant whole == Join(Run(Done, Value(), enclosures.calls, operations, ignored),
                                ReconcileDisks(Value(), disks[index..], enclosures.fate, dryRun))
        invariant |enclosures.calls| == |old(enclosures.calls)| + calls
        invariant dryRun ==> enclosures.fate == old(enclosures.fate)
        invariant !dryRun ==> enclosures.fate == old(enclosures.fate).Later(calls)
      {
        var disk := disks[index];
        assert disks[index..][0] == disk && disks[index..][1..] == disks[index + 1..];
        ReconcileStep(Value(), disks[index..], enclosures.fate, dryRun);
        var action := ActionFor(disk.state);
        index := index + 1;
        if action.None? {
          continue;
        }
        ghost var before := Run(Done, Value(), enclosures.calls, operations, ignored);
        ghost var first :=
          ApplyAction(Value(), disk.pool, disk.guid, Some(disk), action.value, enclosures.fate, dryRun);
        DryFate(Value(), disk.pool, disk.guid, Some(disk), action.value, enclosures.fate);
        status := Apply(disk.pool, disk.guid, Some(disk), action.value);
        if status != Done {
          return;
        }
        calls := calls + |first.calls|;
        JoinJoin(before, first, ReconcileDisks(Value(), disks[index..], enclosures.fate, dryRun));
      }
      assert disks[index..] == [];
      ReconcileNone(Value(), enclosures.fate, dryRun);
      status := Done;
    }

    method CleanupCallback() returns (status: Status)
      modifies this, enclosures
      ensures Performed(Exec(old(Value()), Cleanup, old(enclosures.fate), dryRun), status)
    {
      var keys := SortedKeys(managed.Keys);
      status := ClearKeys(keys);
      if status != Done { return; }
      if |keys| == 0 {
        ignored := true;
      }
    }

    method Callback(job: Job) returns (status: Status)
      modifies this, enclosures
      ensures Performed(Exec(old(Value()), job, old(enclosures.fate), dryRun), status)
    {
      match job
      case Handle(event, eventAction, disks) => status := HandleCallback(event, eventAction, disks);
      case Reconcile(disks) => status := ReconcileCallback(disks);
      case Cleanup => status := CleanupCallback();
    }
  }

  method LookUp(disks: seq<Disk>, guid: string) returns (disk: Option<Disk>)
    ensures disk == FindDisk(disks, guid)
    ensures disk.None? ==> forall j | 0 <= j < |disks| :: disks[j].guid != guid
    ensures disk.Some? ==> exists i :: 0 <= i < |disks| && disks[i] == disk.value && disk.value.guid == guid
                                       && forall j | 0 <= j < i :: disks[j].guid != guid
  {
    var index := 0;
    assert disks[0..] == disks;
    while index < |disks|
      invariant 0 <= index <= |disks|
      invariant FindDisk(disks, guid) == FindDisk(disks[index..], guid)
      invariant forall j | 0 <= j < index :: disks[j].guid != guid
    {
      assert disks[index..][1..] == disks[index + 1..];
      if disks[index].guid == guid {
        return Some(disks[index]);
      }
      index := index + 1;
    }
    disk := None;
  }

  lemma ReconcileNone(data: Data, fate: Fate, dry: bool)
    ensures ReconcileDisks(data, [], fate, dry) == Run(Done, data, [], [], false)
  {
  }

  lemma ReconcileStep(data: Data, disks: seq<Disk>, fate: Fate, dry: bool)
    requires disks != []
    ensures var d := disks[0];
            ReconcileDisks(data, disks, fate, dry) ==
            match ActionFor(d.state)
            case None => ReconcileDisks(data, disks[1..], fate, dry)
            case Some(action) =>
              var first := ApplyAction(data, d.pool, d.guid, Some(d), action, fate, dry);
              if first.status != Done then first
              else Join(first, ReconcileDisks(first.data, disks[1..], fate.Later(|first.calls|), dry))
  {
  }

  lemma JoinJoin(a: Run, b: Run, c: Run)
    ensures Join(a, Join(b, c)) == Join(Join(a, b), c)
  {
  }

  lemma DryFate(data: Data, pool: string, guid: string, disk: Option<Disk>, action: Action, fate: Fate)
    ensures ApplyAction(data, pool, guid, disk, action, fate, true).calls == []
    ensures fate.Later(0) == fate
  {
    ActionDry(data, pool, guid, disk, action, fate);
  }

  lemma ClearNone(data: Data, fate: Fate, dry: bool)
    ensures Sorted([]) && Clear(data, [], fate, dry) == Run(Done, data, [], [], false)
  {
  }

  /** One turn of the clearing loop, in the terms the loop needs. */
  lemma ClearStep(data: Data, keys: seq<string>, fate: Fate, dry: bool)
    requires keys != [] && Sorted(keys) && forall k | k in keys :: k in data.managed
    ensures var next := if dry then data else Forget(data, keys[0]);
            var led := data.managed[keys[0]];
            && Sorted(keys[1..]) && (forall k | k in keys[1..] :: k in next.managed)
            && Clear(data, keys, fate, dry) ==
                 if !dry && fate == DieAt(0) then Run(Died, data, [], [], false)
                 else if !dry && fate == FailAt(0) then Run(LocateFailed, data, [Call(led.bay, Off, false)], [], false)
                 else Onto(if dry then [] else [Call(led.bay, Off, true)],
                           [Operation(led.guid, led.bay, Off, !dry, false)],
                           Clear(next, keys[1..], if dry then fate else fate.Later(1), dry))
  {
    ForgetKeepsRest(data, keys);
    assert forall k | k in keys[1..] :: k in keys;
  }
}
