/** No LED is ever switched off that automation did not switch on. */
module Safety {
  import opened Types
  import opened EngineSpec
  import opened Ledger
  import opened History

  /** Every Off call follows a successful On call for exactly the same bay. */
  ghost predicate OffsJustified(t: seq<Call>) {
    forall i | 0 <= i < |t| && t[i].action == Off :: Call(t[i].bay, On, true) in t[..i]
  }

  ghost predicate Witnessed(own: Owned, t: seq<Call>) {
    forall k | k in own :: Call(own[k], On, true) in t
  }

  lemma {:induction false} LegalCallsJustified(t: seq<Call>, own: Owned, calls: seq<Call>)
    requires OffsJustified(t) && Witnessed(own, t) && Legal(own, calls)
    ensures OffsJustified(t + calls) && Witnessed(After(own, calls), t + calls)
    decreases calls
  {
    hide Bay.Key;
    if calls == [] {
      assert t + calls == t;
    } else {
      var c := calls[0];
      var t' := t + [c];
      forall i | 0 <= i < |t'| && t'[i].action == Off ensures Call(t'[i].bay, On, true) in t'[..i] {
        assert t'[..i] == t[..i];
      }
      assert t' + calls[1..] == t + calls;
      LegalCallsJustified(t', Post(own, c), calls[1..]);
    }
  }

  /** Over any history of runs, failures, crashes, lost writes and corrupt state files,
      each Off targets a bay that an earlier successful On targeted; and every LED the state
      file claims has such an On behind it. */
  lemma {:induction false} OwnershipSafety(h: seq<Entry>)
    ensures OffsJustified(Replay(h).trace)
    ensures Witnessed(Bays(Base(Replay(h).file).managed), Replay(h).trace)
  {
    if h != [] {
      var prefix, e := h[..|h| - 1], h[|h| - 1];
      OwnershipSafety(prefix);
      var before := Replay(prefix);
      if e.Attempt? && !before.file.Garbled? {
        ReplayWellKeyed(prefix);
        var base := Base(before.file);
        var r := Exec(base, e.job, e.fate, false);
        ExecAccounts(base, e.job, e.fate, false);
        LegalCallsJustified(before.trace, Bays(base.managed), r.calls);
      }
    }
  }
}
