/** The state store as it runs: lock, load, set a corrupt file aside, run the callback,
    write a temporary file and rename it over the old one. Any system call may fail and
    the process may die before any of them. */
module StateStore {
  import opened Types
  import opened EngineSpec
  import opened Engine
  import opened History

  datatype SysCall =
    | TakeLock | ReadFile | MoveAside
    | Create | Secure | Encode | SyncFile | Close | Replace | SyncDirectory

  /** The first thing that goes wrong outside the callback, if anything does. */
  datatype Trouble = Calm | Breaks(at: SysCall) | Dies(before: SysCall)

  datatype End = Success | Error | Death

  datatype Temporary = NoFile | Partial | Complete(data: Data)

  function EndOf(t: Trouble): End {
    if t.Dies? then Death else Error
  }

  predicate Strikes(t: Trouble, c: SysCall) {
    t == Breaks(c) || t == Dies(c)
  }

  class Store {
    var file: File
    var backups: seq<string>
    var temporary: Temporary
    var locked: bool
    const enclosures: Enclosures

    constructor (file: File, enclosures: Enclosures)
      ensures this.file == file && backups == [] && temporary == NoFile && !locked && this.enclosures == enclosures
    {
      this.file, backups, temporary, locked := file, [], NoFile, false;
      this.enclosures := enclosures;
    }

    function Persisted(): Site
      reads this, enclosures
    {
      Site(file, backups, enclosures.calls)
    }

    /** The new content is complete in a temporary file before it takes the old one's place:
        the file is replaced whole or not at all, and an error reported after the rename
        leaves the new content in place. */
    method WriteUnlocked(data: Data, trouble: Trouble) returns (end: End, ghost replaced: bool)
      modifies this`file, this`temporary
      ensures file == if replaced then Valid(data) else old(file)
      ensures replaced <==> Replaces(trouble)
      ensures end == if IsWriteStep(trouble) then EndOf(trouble) else Success
      ensures end != Death ==> temporary == NoFile
    {
      temporary, replaced := NoFile, false;
      if Strikes(trouble, Create) { end := EndOf(trouble); return; }
      temporary := Partial;
      if Strikes(trouble, Secure) { end := Discard(trouble); return; }
      if Strikes(trouble, Encode) { end := Discard(trouble); return; }
      temporary := Complete(data);
      if Strikes(trouble, SyncFile) { end := Discard(trouble); return; }
      if Strikes(trouble, Close) { end := Discard(trouble); return; }
      if Strikes(trouble, Replace) { end := Discard(trouble); return; }
      file, temporary, replaced := Valid(temporary.data), NoFile, true;
      if Strikes(trouble, SyncDirectory) { end := EndOf(trouble); return; }
      end := Success;
    }

    /** An error removes the temporary file on the way out; a dead process cannot. */
    method Discard(trouble: Trouble) returns (end: End)
      modifies this`temporary
      ensures end == EndOf(trouble)
      ensures temporary == if trouble.Dies? then old(temporary) else NoFile
    {
      if !trouble.Dies? { temporary := NoFile; }
      end := EndOf(trouble);
    }

    /** One locked transaction. What it does to the file, the preserved files and the LEDs is
        exactly its episode, whatever fails or wherever the process dies. */
    method Update(job: Job, trouble: Trouble) returns (recovered: bool, end: End, ghost h: seq<Entry>)
      requires !locked
      modifies this, enclosures
      ensures !locked
      ensures h == Episode(old(file), job, old(enclosures.fate), trouble)
      ensures Persisted() == AdvanceAll(old(Persisted()), h)
      ensures end == EndOfUpdate(old(file), job, old(enclosures.fate), trouble)
      ensures recovered <==> old(file).Garbled? && !Blocked(trouble, true)
    {
      hide Exec, AdvanceAll;
      recovered, h := false, [];
      if Strikes(trouble, TakeLock) {
        AdvanceNone(Persisted());
        end := EndOf(trouble);
        return;
      }
      locked := true;
      recovered, end, h := UpdateLocked(job, trouble);
      locked := false;
    }

    method UpdateLocked(job: Job, trouble: Trouble) returns (recovered: bool, end: End, ghost h: seq<Entry>)
      requires !Strikes(trouble, TakeLock)
      modifies this, enclosures
      ensures h == Episode(old(file), job, old(enclosures.fate), trouble)
      ensures Persisted() == AdvanceAll(old(Persisted()), h)
      ensures end == EndOfUpdate(old(file), job, old(enclosures.fate), trouble)
      ensures recovered <==> old(file).Garbled? && !Blocked(trouble, true)
    {
      hide Exec, AdvanceAll, Base;
      ghost var before := Persisted();
      recovered, h := false, [];
      AdvanceNone(before);
      if Strikes(trouble, ReadFile) { end := EndOf(trouble); return; }
      SameStart(file);
      if file.Garbled? {
        end := QuarantineUnlocked(trouble);
        if end != Success { return; }
        recovered, h := true, [Quarantine];
        AdvanceLast(before, [], Quarantine);
        assert [] + [Quarantine] == [Quarantine];
      }
      ghost var attempt;
      end, attempt := Transact(job, trouble);
      AdvanceLast(before, h, attempt);
      h := h + [attempt];
    }

    /** The corrupt content is kept under a backup name and the state path is left empty, unless
        the rename fails, which leaves everything as it was; a file that has vanished needs no
        backup. */
    method QuarantineUnlocked(trouble: Trouble) returns (end: End)
      requires !file.Valid?
      modifies this`file, this`backups
      ensures end == if old(file).Garbled? && Strikes(trouble, MoveAside) then EndOf(trouble) else Success
      ensures file == if old(file).Garbled? && Strikes(trouble, MoveAside) then old(file) else Missing
      ensures backups == if file == old(file) then old(backups) else old(backups) + [old(file).content]
    {
      if file.Missing? { return Success; }
      if Strikes(trouble, MoveAside) { return EndOf(trouble); }
      backups := backups + [file.content];
      file := Missing;
      end := Success;
    }

    /** The callback and the write that follows it, on a file that can be read. */
    method Transact(job: Job, trouble: Trouble) returns (end: End, ghost attempt: Entry)
      requires !file.Garbled? && !Blocked(trouble, false)
      modifies this, enclosures
      ensures attempt == AttemptOf(old(file), job, old(enclosures.fate), trouble)
      ensures Persisted() == Advance(old(Persisted()), attempt)
      ensures end == EndOfCallback(old(file), job, old(enclosures.fate), trouble)
    {
      hide Exec;
      attempt := AttemptOf(file, job, enclosures.fate, trouble);
      var data := new Transaction(Base(file), enclosures, false);
      var status := data.Callback(job);
      if status != Done {
        end := if status == Died then Death else Error;
        return;
      }
      ghost var replaced;
      end, replaced := WriteUnlocked(data.Value(), trouble);
    }

    /** A dry run works on a private copy and leaves file and LEDs alone. */
    method DryRun(job: Job, trouble: Trouble) returns (operations: seq<Operation>, end: End)
      ensures end == Success <==>
                !Strikes(trouble, TakeLock) && !Strikes(trouble, ReadFile) && !file.Garbled?
                && Exec(Base(file), job, Smooth, true).status == Done
      ensures operations == if end == Success then Exec(Base(file), job, Smooth, true).ops else []
    {
      operations := [];
      if Strikes(trouble, TakeLock) || Strikes(trouble, ReadFile) { return [], EndOf(trouble); }
      if file.Garbled? { return [], Error; }
      var hardware := new Enclosures(Smooth);
      var data := new Transaction(Base(file), hardware, true);
      var status := data.Callback(job);
      if status != Done { return [], Error; }
      return data.operations, Success;
    }
  }

  /** The trouble comes at one of these calls, as an error or as the end of the process. */
  predicate HitsOneOf(t: Trouble, calls: set<SysCall>) {
    (t.Breaks? && t.at in calls) || (t.Dies? && t.before in calls)
  }

  /** Trouble that ends an update before its callback. */
  predicate Blocked(t: Trouble, garbled: bool) {
    Strikes(t, TakeLock) || Strikes(t, ReadFile) || (garbled && Strikes(t, MoveAside))
  }

  predicate IsWriteStep(t: Trouble) {
    || Strikes(t, Create) || Strikes(t, Secure) || Strikes(t, Encode) || Strikes(t, SyncFile)
    || Strikes(t, Close) || Strikes(t, Replace) || Strikes(t, SyncDirectory)
  }

  /** The rename is the last step but one. */
  predicate Replaces(t: Trouble) {
    !IsWriteStep(t) || Strikes(t, SyncDirectory)
  }

  ghost function AttemptOf(before: File, job: Job, fate: Fate, trouble: Trouble): Entry {
    Attempt(job, fate, Exec(Base(before), job, fate, false).status == Done && Replaces(trouble))
  }

  /** The history of one update: a quarantine if and only if the file was found corrupt, then
      one attempt of the job. */
  ghost function Episode(before: File, job: Job, fate: Fate, trouble: Trouble): seq<Entry> {
    if Blocked(trouble, before.Garbled?) then []
    else (if before.Garbled? then [Quarantine] else []) + [AttemptOf(before, job, fate, trouble)]
  }

  ghost function EndOfCallback(before: File, job: Job, fate: Fate, trouble: Trouble): End {
    match Exec(Base(before), job, fate, false).status
    case Done => if IsWriteStep(trouble) then EndOf(trouble) else Success
    case Died => Death
    case _ => Error
  }

  ghost function EndOfUpdate(before: File, job: Job, fate: Fate, trouble: Trouble): End {
    if Blocked(trouble, before.Garbled?) then EndOf(trouble) else EndOfCallback(before, job, fate, trouble)
  }

  /** Crash atomicity: wherever an update is cut, the state path holds the complete old
      content, the complete new state, or nothing with the corrupt content preserved; a
      callback that did not succeed publishes nothing; success means published; and an error
      can leave the new state in place only if it came from syncing the directory. */
  lemma CrashAtomicity(s: Site, job: Job, fate: Fate, trouble: Trouble)
    ensures var s' := AdvanceAll(s, Episode(s.file, job, fate, trouble));
            var r := Exec(Base(s.file), job, fate, false);
            var end := EndOfUpdate(s.file, job, fate, trouble);
            var garbled := s.file.Garbled?;
            var early := HitsOneOf(trouble, {TakeLock, ReadFile}) || (garbled && HitsOneOf(trouble, {MoveAside}));
            var late := HitsOneOf(trouble, {Create, Secure, Encode, SyncFile, Close, Replace});
            var after := HitsOneOf(trouble, {SyncDirectory});
            var published := r.status == Done && !early && !late;
            var aside := garbled && !HitsOneOf(trouble, {TakeLock, ReadFile, MoveAside});
            && s'.file == (if published then Valid(r.data) else if aside then Missing else s.file)
            && s'.backups == s.backups + (if aside then [s.file.content] else [])
            && s'.trace == s.trace + (if early then [] else r.calls)
            && (end == Success <==> published && !after)
            && (end == Death <==> if early || (r.status == Done && (late || after)) then trouble.Dies?
                                  else r.status == Died)
  {
    hide Exec, AdvanceAll;
    AdvanceNone(s);
    SameStart(s.file);
    if !Blocked(trouble, s.file.Garbled?) {
      var attempt := AttemptOf(s.file, job, fate, trouble);
      if s.file.Garbled? {
        AdvanceLast(s, [], Quarantine);
        AdvanceLast(s, [Quarantine], attempt);
        assert [] + [Quarantine] == [Quarantine];
      } else {
        AdvanceLast(s, [], attempt);
        assert [] + [attempt] == [attempt];
      }
    }
  }

  lemma AdvanceNone(s: Site)
    ensures AdvanceAll(s, []) == s
  {
  }

  /** An absent or corrupt file is started over from the same state. */
  lemma SameStart(f: File)
    ensures f.Garbled? ==> Base(f) == Base(Missing)
  {
  }
}
