/** The ownership ledger: which bay each recorded key stands for, and how a sequence
    of locate calls moves it. Every callback is shown to issue only legal calls and to
    leave the recorded LEDs exactly where its calls moved the ledger. */
module Ledger {
  import opened Types
  import opened Order
  import opened EngineSpec

  type Owned = map<string, Bay>

  function Bays(managed: map<string, ManagedLED>): Owned {
    map k | k in managed :: managed[k].bay
  }

  ghost predicate WellKeyed(data: Data) {
    forall k | k in data.managed :: data.managed[k].bay.Key() == k
  }

  function Post(own: Owned, c: Call): Owned {
    if !c.ok then own
    else if c.action == On then own[c.bay.Key() := c.bay]
    else own - {c.bay.Key()}
  }

  function After(own: Owned, calls: seq<Call>): Owned
    decreases calls
  {
    if calls == [] then own else After(Post(own, calls[0]), calls[1..])
  }

  /** On is for bays nobody owns, Off is for the very bay that is owned. */
  predicate Permitted(own: Owned, c: Call) {
    var key := c.bay.Key();
    if c.action == On then key !in own else key in own && own[key] == c.bay
  }

  predicate Legal(own: Owned, calls: seq<Call>)
    decreases calls
  {
    calls == [] || (Permitted(own, calls[0]) && Legal(Post(own, calls[0]), calls[1..]))
  }

  lemma {:induction false} LegalConcat(own: Owned, a: seq<Call>, b: seq<Call>)
    requires Legal(own, a) && Legal(After(own, a), b)
    ensures Legal(own, a + b)
    ensures After(own, a + b) == After(After(own, a), b)
    decreases a
  {
    hide Bay.Key;
    if a == [] {
      assert a + b == b;
    } else {
      LegalConcat(Post(own, a[0]), a[1..], b);
      assert (a + b)[1..] == a[1..] + b;
    }
  }

  /** What a run does to the ledger it started from. */
  ghost predicate Accounts(data: Data, r: Run) {
    && Legal(Bays(data.managed), r.calls)
    && Bays(r.data.managed) == After(Bays(data.managed), r.calls)
    && WellKeyed(r.data)
  }

  lemma {:induction false} ClearAccounts(data: Data, keys: seq<string>, fate: Fate, dry: bool)
    requires Sorted(keys) && forall k | k in keys :: k in data.managed
    requires WellKeyed(data)
    ensures Accounts(data, Clear(data, keys, fate, dry))
    decreases |keys|
  {
    hide Bay.Key;
    if keys != [] && dry {
      ClearAccounts(data, keys[1..], fate, dry);
      var rest := Clear(data, keys[1..], fate, dry);
      assert [] + rest.calls == rest.calls;
    } else if keys != [] && fate == FailAt(0) {
      var call := Call(data.managed[keys[0]].bay, Off, false);
      assert Legal(Post(Bays(data.managed), call), [call][1..]);
      assert After(Post(Bays(data.managed), call), [call][1..]) == Bays(data.managed);
    } else if keys != [] && fate != DieAt(0) {
      ForgetKeepsRest(data, keys);
      var next := Forget(data, keys[0]);
      ClearAccounts(next, keys[1..], fate.Later(1), dry);
      var call := Call(data.managed[keys[0]].bay, Off, true);
      assert Bays(next.managed) == Post(Bays(data.managed), call);
      var rest := Clear(next, keys[1..], fate.Later(1), dry);
      assert ([call] + rest.calls)[1..] == rest.calls;
    }
  }

  lemma ActionAccounts(data: Data, pool: string, guid: string, disk: Option<Disk>,
                       action: Action, fate: Fate, dry: bool)
    requires WellKeyed(data)
    ensures Accounts(data, ApplyAction(data, pool, guid, disk, action, fate, dry))
  {
    if action == Off {
      ClearAccounts(data, Listing(OwnedKeys(data, guid)), fate, dry);
    } else {
      OnAccounts(data, pool, guid, disk, fate, dry);
    }
  }

  lemma OnAccounts(data: Data, pool: string, guid: string, disk: Option<Disk>,
                   fate: Fate, dry: bool)
    requires WellKeyed(data)
    ensures Accounts(data, ApplyOn(data, pool, guid, disk, fate, dry))
  {
    hide Bay.Key;
    var r := ApplyOn(data, pool, guid, disk, fate, dry);
    if r.calls != [] {
      assert |r.calls| == 1;
      assert r.calls[1..] == [];
      assert Bays(r.data.managed) == Post(Bays(data.managed), r.calls[0]);
      assert After(Post(Bays(data.managed), r.calls[0]), []) == Post(Bays(data.managed), r.calls[0]);
      assert Legal(Post(Bays(data.managed), r.calls[0]), []);
    }
  }

  lemma JoinAccounts(data: Data, first: Run, second: Run)
    requires Accounts(data, first) && Accounts(first.data, second)
    ensures Accounts(data, Join(first, second))
  {
    LegalConcat(Bays(data.managed), first.calls, second.calls);
  }

  lemma {:induction false} ReconcileAccounts(data: Data, disks: seq<Disk>, fate: Fate, dry: bool)
    requires WellKeyed(data)
    ensures Accounts(data, ReconcileDisks(data, disks, fate, dry))
    decreases |disks|
  {
    if disks != [] {
      var d := disks[0];
      match ActionFor(d.state)
      case None =>
        ReconcileAccounts(data, disks[1..], fate, dry);
      case Some(action) =>
        ActionAccounts(data, d.pool, d.guid, Some(d), action, fate, dry);
        var first := ApplyAction(data, d.pool, d.guid, Some(d), action, fate, dry);
        if first.status == Done {
          ReconcileAccounts(first.data, disks[1..], fate.Later(|first.calls|), dry);
          JoinAccounts(data, first, ReconcileDisks(first.data, disks[1..], fate.Later(|first.calls|), dry));
        }
    }
  }

  lemma HandleAccounts(data: Data, event: Event, eventAction: Action, disks: seq<Disk>, fate: Fate, dry: bool)
    requires WellKeyed(data)
    ensures Accounts(data, HandleEvent(data, event, eventAction, disks, fate, dry))
  {
    hide Bay.Key, ApplyAction, FindDisk;
    var disk := FindDisk(disks, event.guid);
    if !Duplicate(data, event) && !(disk.Some? && ActionFor(disk.value.state).None?) {
      var action := if disk.Some? then ActionFor(disk.value.state).value else eventAction;
      ActionAccounts(data, event.pool, event.guid, disk, action, fate, dry);
    }
  }

  /** Whatever the hardware fate, a callback issues only legal calls, and the LEDs it
      records afterwards are exactly those its successful calls left owned. */
  lemma ExecAccounts(data: Data, job: Job, fate: Fate, dry: bool)
    requires WellKeyed(data)
    ensures Accounts(data, Exec(data, job, fate, dry))
  {
    hide Bay.Key, Clear, ReconcileDisks, HandleEvent, Refresh, Legal, After;
    var start := Refreshed(data, job);
    match job
    case Handle(event, eventAction, disks) =>
      HandleAccounts(start, event, eventAction, disks, fate, dry);
    case Reconcile(disks) =>
      ReconcileAccounts(start, disks, fate, dry);
    case Cleanup =>
      ClearAccounts(start, Listing(start.managed.Keys), fate, dry);
  }
}
