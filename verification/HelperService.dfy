/**
 * The helper's mutation engine: every change goes through locks, the journal, the configuration of an instance, the
 * map of suspended peers, the policies and the instance records, and may fail or die at any of these steps.
 */
module HelperService {
  import opened Text
  import opened ConfigLines
  import opened ConfigDocument
  import opened AddressPool
  import opened HelperJournal
  import opened HelperLocks
  import opened HelperPeers
  import opened HelperModel
  import opened HelperPolicy
  import opened HelperPass
  import opened HelperCreate
  import ClientConfig

  /** How a call ends. */
  datatype Reply =
    | Died | Repeat(result: string) | Changed(fingerprint: string) | Created(address: string, config: string)
    | Projected(policies: seq<Policy>) | Refusal(code: Code)

  /** Using the journal's lock in between leaves a process as it was. */
  lemma NothingLoaded(before: Local, after: Local)
    requires Steady(before) && JournalLock !in before.held && before.wanted.None?
    requires after.wanted.None? && after.held == before.held + {JournalLock} - {JournalLock}
    requires after.loaded == Unguarded(before.loaded + {(JournalFile, Own)}, JournalLock)
    requires after.stale == before.stale
    ensures after == before
  {
    assert forall x :: x in before.loaded ==> Guard(x.0) in before.held;
    assert after.held == before.held;
    assert after.loaded == before.loaded;
  }

  /** Between reading the journal and releasing its lock nothing becomes stale. */
  lemma JournalUse(l: Local)
    requires Steady(l) && JournalLock !in l.held && l.wanted.None?
    ensures var r := Next(l.(held := l.held + {JournalLock}), Load(JournalFile, Own));
      && r.stale == l.stale && r.loaded == l.loaded + {(JournalFile, Own)}
      && Next(r, Store(JournalFile, Own)) == r && Unguarded(r.stale, JournalLock) == l.stale
  {
    var r := Next(l.(held := l.held + {JournalLock}), Load(JournalFile, Own));
    assert forall x :: x in l.loaded ==> Guard(x.0) != JournalLock;
    assert r.stale == l.stale;
    assert Next(r, Store(JournalFile, Own)).stale == r.stale;
    assert Unguarded(r.stale, JournalLock) == l.stale;
  }

  lemma LastReleased(l: Local, k: Lock)
    requires Steady(l) && l.wanted.None? && l.held == {k}
    ensures Next(l, Release(k)) == IDLE
  {
    var next := Next(l, Release(k));
    assert forall x :: x in l.loaded ==> Guard(x.0) == k;
    assert next.held == {} && next.loaded == {} && next.stale == {};
  }

  /** Writing the only copy of a file changes nothing about the process. */
  lemma OnlyCopy(l: Local, c: Cell)
    requires Steady(l) && (c, Own) in l.loaded && c != PoliciesFile
    ensures (c, Own) !in l.stale && Next(l, Store(c, Own)) == l
  {
    assert Next(l, Store(c, Own)).stale == l.stale;
  }

  class Service {
    // Which texts are IPv6 prefixes and IPv6 addresses.
    const v6: string -> bool
    const v6Host: string -> bool
    const log: Journal
    var configs: map<string, string>
    var instances: map<string, Instance>
    var suspended: map<string, SuspendedPeer>
    var policies: seq<Policy>

    // What this process has done about locks and shared files, and where that leaves it.
    ghost var local: Local
    ghost var trace: seq<Event>

    ghost function Files(): World
      reads this
    {
      World(configs, suspended)
    }

    /** The process has kept to the lock discipline so far. */
    ghost predicate Lawful()
      reads this
    {
      Obeys(trace) && After(trace) == local && Steady(local)
    }

    ghost predicate Valid()
      reads this, log
    {
      log.Valid() && Lawful() && WorldOk(Files())
    }

    constructor (v6: string -> bool, v6Host: string -> bool, log: Journal, configs: map<string, string>,
      instances: map<string, Instance>)
      requires log.Valid()
      ensures Valid() && this.log == log && this.v6 == v6 && this.v6Host == v6Host && local == IDLE
      ensures this.configs == configs && this.instances == instances && suspended == map[] && policies == []
    {
      this.v6, this.v6Host, this.log := v6, v6Host, log;
      this.configs, this.instances, suspended, policies := configs, instances, map[], [];
      local, trace := IDLE, [];
    }

    // Steps ------------------------------------------------------------------------------------------------

    ghost method Do(e: Event)
      requires Lawful() && Allowed(local, e)
      modifies this`local, this`trace
      ensures Lawful() && local == Next(old(local), e)
    {
      hide Obeys, After;
      ObeysStep(trace, e);
      SteadyStep(local, e);
      trace := trace + [e];
      local := Next(local, e);
    }

    /** A step that changes no file of the helper. */
    method Attempt() returns (a: Access)
      requires Lawful()
      modifies this`local, this`trace
      ensures Lawful() && local == if a.Crashed? then IDLE else old(local)
      ensures !log.faults ==> a.Done?
    {
      a := *;
      if !log.faults { a := Done; }
      if a.Crashed? { Do(Die); }
    }

    /** A step of a call in which these are to fail, if nothing worse happens. */
    method Try(fails: set<Stage>, at: Stage) returns (a: Access)
      requires Lawful()
      modifies this`local, this`trace
      ensures Lawful() && local == if a.Crashed? then IDLE else old(local)
      ensures !log.faults ==> a == if at in fails then Failing else Done
    {
      a := Attempt();
      if a.Done? && at in fails { a := Failing; }
    }

    method Take(k: Lock, fails: set<Stage>, at: Stage) returns (a: Access)
      requires Lawful() && Allowed(local, Want(k))
      modifies this`local, this`trace
      ensures Lawful()
      ensures local ==
        match a case Crashed => IDLE case Failing => old(local) case Done => old(local).(held := old(local.held) + {k})
      ensures !log.faults ==> a == if at in fails then Failing else Done
    {
      a := Try(fails, at);
      if a.Done? {
        Do(Want(k));
        Do(Acquire(k));
      }
    }

    method Unlock(k: Lock)
      requires Lawful() && Allowed(local, Release(k))
      modifies this`local, this`trace
      ensures Lawful() && local == Next(old(local), Release(k))
    {
      Do(Release(k));
    }

    /** The only lock a process holds. */
    method UnlockLast(k: Lock)
      requires Lawful() && local.wanted.None? && local.held == {k}
      modifies this`local, this`trace
      ensures Lawful() && local == IDLE
    {
      hide Obeys, After;
      LastReleased(local, k);
      Do(Release(k));
    }

    /** BeginJournal under the journal's lock, and what it means for the request. */
    method Begin(op: string, action: Action, parameters: string, fails: set<Stage>) returns (a: Access, d: Decision)
      requires Lawful() && log.Valid() && Allowed(local, Want(JournalLock))
      modifies this`local, this`trace, log`records, log`history
      ensures Lawful() && log.Valid() && local == if a.Crashed? then IDLE else old(local)
      ensures a.Done? ==> d == Decide(Last(old(log.records), op), action, parameters)
      ensures a.Failing? ==> d == Refused(StateWriteFailed)
      ensures if a.Done? && d.Execute? then
          log.history == old(log.history) + [Record(op, action, parameters, Started, "", StateWriteFailed)]
          && log.records == old(log.records) + [Record(op, action, parameters, Started, "", StateWriteFailed)]
        else log.history == old(log.history) && log.records == old(log.records)
      ensures !log.faults ==> a == if AtBegin in fails then Failing else Done
    {
      hide Journal.Valid, Decide, Obeys, After;
      a := Take(JournalLock, fails, AtBegin);
      if !a.Done? { return a, Refused(StateWriteFailed); }
      JournalUse(old(local));
      Do(Load(JournalFile, Own));
      a, d := log.Replay(op, action, parameters);
      if a.Crashed? {
        Do(Die);
        return;
      }
      if a.Done? && d.Execute? { Do(Store(JournalFile, Own)); }
      Unlock(JournalLock);
      NothingLoaded(old(local), local);
    }

    /** AddJournal under the journal's lock. */
    method Note(record: Record, fails: set<Stage>, at: Stage) returns (a: Access)
      requires Lawful() && log.Valid() && Allowed(local, Want(JournalLock)) && !record.status.Started?
      modifies this`local, this`trace, log`records, log`history
      ensures Lawful() && log.Valid() && local == if a.Crashed? then IDLE else old(local)
      ensures log.history == old(log.history) || log.history == old(log.history) + [record]
      ensures log.records == old(log.records) || log.records == Suffix(old(log.records) + [record], KEPT)
      ensures a.Done? ==> log.history == old(log.history) + [record]
      ensures !log.faults ==> a == if at in fails then Failing else Done
    {
      hide Journal.Valid, Obeys, After;
      a := Take(JournalLock, fails, at);
      if !a.Done? { return; }
      JournalUse(old(local));
      Do(Load(JournalFile, Own));
      a := log.AddJournal(record);
      if a.Crashed? {
        Do(Die);
        return;
      }
      if a.Done? { Do(Store(JournalFile, Own)); }
      Unlock(JournalLock);
      NothingLoaded(old(local), local);
    }

    // Files ------------------------------------------------------------------------------------------------

    method ReadConfig(i: string, fails: set<Stage>) returns (a: Access, text: string)
      requires Lawful() && Allowed(local, Load(ConfigFile(i), Own))
      modifies this`local, this`trace
      ensures Lawful()
      ensures local ==
        match a case Crashed => IDLE case Failing => old(local) case Done => Next(old(local), Load(ConfigFile(i), Own))
      ensures a.Done? ==> i in configs && text == configs[i]
      ensures !log.faults ==> (a.Done? <==> i in configs && AtConfigRead !in fails) && !a.Crashed?
    {
      a := Try(fails, AtConfigRead);
      text := "";
      if !a.Done? { return; }
      if i !in configs { return Failing, text; }
      Do(Load(ConfigFile(i), Own));
      text := configs[i];
    }

    /** The snapshot of a configuration is a file named after the operation, whose id must be a safe name. */
    method Snapshot(op: string, fails: set<Stage>) returns (a: Access)
      requires Lawful()
      modifies this`local, this`trace
      ensures Lawful() && local == if a.Crashed? then IDLE else old(local)
      ensures a.Done? ==> SafeId(op)
      ensures !log.faults ==> a == if SafeId(op) && AtSnapshot !in fails then Done else Failing
    {
      hide SafeId;
      if !SafeId(op) { return Failing; }
      a := Try(fails, AtSnapshot);
    }

    /**
     * The runtime's transaction: it replaces the file and checks the running interface against it, or leaves the
     * original; a process that dies in it leaves one of the two.
     */
    method Apply(i: string, op: string, updated: string, key: string, shouldExist: bool, fails: set<Stage>)
      returns (a: Access)
      requires Lawful() && Allowed(local, Store(ConfigFile(i), Own)) && i in configs
      modifies this`local, this`trace, this`configs
      ensures Lawful() && local == if a.Crashed? then IDLE else old(local)
      ensures a.Done? ==> configs == old(configs)[i := updated]
      ensures a.Failing? ==> configs == old(configs)
      ensures configs == old(configs) || configs == old(configs)[i := updated]
      ensures !log.faults ==>
        && !a.Crashed?
        && (a.Done? <==> SafeId(op) && AtApply !in fails && Holds(Parsed(updated).sections, key) == shouldExist)
    {
      hide Parsed, Holds, SafeId;
      if !SafeId(op) { return Failing; }
      OnlyCopy(local, ConfigFile(i));
      a := if AtApply in fails then Failing else Done;
      if log.faults { a := *; }
      if a.Done? && Holds(Parsed(updated).sections, key) != shouldExist { a := Failing; }
      var replaced: bool := *;
      if a.Done? || (a.Crashed? && replaced) {
        Do(Store(ConfigFile(i), Own));
        configs := configs[i := updated];
      }
      if a.Crashed? { Do(Die); }
    }

    method SaveSuspended(next: map<string, SuspendedPeer>, fails: set<Stage>, at: Stage) returns (a: Access)
      requires Lawful() && Allowed(local, Store(SuspendedFile, Own))
      modifies this`local, this`trace, this`suspended
      ensures Lawful() && local == if a.Crashed? then IDLE else old(local)
      ensures suspended == if a.Done? then next else old(suspended)
      ensures !log.faults ==> a == if at in fails then Failing else Done
    {
      a := Try(fails, at);
      if a.Done? {
        OnlyCopy(local, SuspendedFile);
        Do(Store(SuspendedFile, Own));
        suspended := next;
      }
    }

    method SavePolicies(next: seq<Policy>, t: Copy, fails: set<Stage>) returns (a: Access)
      requires Lawful() && Allowed(local, Store(PoliciesFile, t))
      modifies this`local, this`trace, this`policies
      ensures Lawful()
      ensures local ==
        match a case Crashed => IDLE case Failing => old(local) case Done => Next(old(local), Store(PoliciesFile, t))
      ensures policies == if a.Done? then next else old(policies)
      ensures !log.faults ==> a == if AtPoliciesWrite in fails then Failing else Done
    {
      a := Try(fails, AtPoliciesWrite);
      if a.Done? {
        Do(Store(PoliciesFile, t));
        policies := next;
      }
    }

    method Read(c: Cell, t: Copy, fails: set<Stage>, at: Stage) returns (a: Access)
      requires Lawful() && Allowed(local, Load(c, t))
      modifies this`local, this`trace
      ensures Lawful()
      ensures local ==
        match a case Crashed => IDLE case Failing => old(local) case Done => Next(old(local), Load(c, t))
      ensures !log.faults ==> a == if at in fails then Failing else Done
    {
      a := Try(fails, at);
      if a.Done? { Do(Load(c, t)); }
    }

    /** The instance record with the fingerprint of the file as it now is. */
    method UpdateInstance(i: string, fingerprint: string, fails: set<Stage>) returns (a: Access)
      requires Lawful() && i in instances
      modifies this`local, this`trace, this`instances
      ensures Lawful() && local == if a.Crashed? then IDLE else old(local)
      ensures instances == if a.Done? then Stamped(old(instances), i, fingerprint) else old(instances)
      ensures !log.faults ==> a == if AtInstanceWrite in fails then Failing else Done
    {
      a := Try(fails, AtInstanceWrite);
      if a.Done? { instances := Stamped(instances, i, fingerprint); }
    }

    // Disable, enable, revoke --------------------------------------------------------------------------------

    /** Under the instance's lock: a call may change files only by going through the states of the change. */
    ghost predicate Holding(i: string)
      reads this
    {
      local.wanted.None? && local.held == {PoliciesLock, InstanceLock(i)}
    }

    /** The document of the configuration that was read, changed; a disable has also put the peer aside. */
    method Edit(m: Mutation, original: string, fails: set<Stage>) returns (a: Access, code: Code, updated: string)
      requires Valid() && Holding(m.instance) && IsMutation(m.action)
      requires m.instance in configs && configs[m.instance] == original
      modifies this`local, this`trace, this`suspended
      ensures Valid() && (a.Crashed? ==> local == IDLE)
        && (!a.Crashed? ==> Holding(m.instance) && old(local.loaded) <= local.loaded)
      ensures a.Done? ==>
        && (SuspendedFile, Own) in local.loaded
        && Possible(old(Files()), m) && updated == EditedText(old(Files()), m)
        && Files() == (if m.action.Disable? then WithStored(old(Files()), m) else old(Files()))
      ensures !a.Done? ==> Files() == old(Files())
      ensures !log.faults ==>
        && !a.Crashed?
        && (a.Done? <==>
          Possible(old(Files()), m) && AtSuspendedRead !in fails && (m.action.Disable? ==> AtSuspendedWrite !in fails))
    {
      hide Journal.Valid, Obeys, After, Parses, Parsed, PrintDoc, FindPeer, Restorable, SoundSection, HasKey,
        SectionLines, Group, Flat, Sound, Without, StoredOk, Steady, IsHeader;
      a, code, updated := Failing, AdapterReadOnly, "";
      ghost var w := Files();
      var parsed := Document.Parse(original);
      if parsed.None? { return; }
      var document := parsed.value;
      a := Read(SuspendedFile, Own, fails, AtSuspendedRead);
      if !a.Done? { return a, StateReadFailed, ""; }
      if m.action.Disable? {
        var section := document.RemovePeer(m.publicKey);
        FoundInside(Parsed(original).sections, m.publicKey);
        if section.None? { return Failing, PeerNotFound, ""; }
        var entry := SuspendedPeer(m.instance, m.publicKey, section.value);
        EditedParses(w, m);
        a := SaveSuspended(suspended[m.connection := entry], fails, AtSuspendedWrite);
        if !a.Done? { return a, StateWriteFailed, ""; }
      } else if m.action.Enable? {
        if m.connection !in suspended || suspended[m.connection].instance != m.instance
          || suspended[m.connection].publicKey != m.publicKey {
          return Failing, SuspendedStateNotFound, "";
        }
        var ok := document.RestorePeer(suspended[m.connection].section);
        if !ok { return Failing, ConfigConflict, ""; }
      } else {
        var index := document.FindIndex(m.publicKey);
        FoundInside(Parsed(original).sections, m.publicKey);
        if index >= 0 {
          var section := document.RemovePeer(m.publicKey);
        } else if m.connection !in suspended {
          return Failing, PeerNotFound, "";
        }
      }
      updated := document.Bytes();
      a := Done;
    }

    method NextPolicies(m: Mutation) returns (next: seq<Policy>)
      requires IsMutation(m.action)
      ensures next == PoliciesAfter(m, policies) && PolicyChange(m, policies, next)
    {
      hide PolicyAfter, PolicyChange;
      PoliciesChange(m, policies);
      next := [];
      for i := 0 to |policies|
        invariant next + PoliciesAfter(m, policies[i..]) == PoliciesAfter(m, policies)
      {
        assert policies[i..][0] == policies[i] && policies[i..][1..] == policies[i + 1..];
        var policy := policies[i];
        if policy.connection == m.connection && m.action.Revoke? { continue; }
        next := next + [PolicyAfter(m, policy)];
      }
    }

    /** The configuration is replaced; if that fails, a disable takes its entry back. */
    method Replace(op: string, m: Mutation, ghost w: World, original: string, updated: string, fails: set<Stage>)
      returns (a: Access)
      requires Valid() && Holding(m.instance) && (SuspendedFile, Own) in local.loaded
        && (ConfigFile(m.instance), Own) in local.loaded
      requires Possible(w, m) && WorldOk(w) && updated == EditedText(w, m) && original == w.configs[m.instance]
      requires Files() == if m.action.Disable? then WithStored(w, m) else w
      modifies this`local, this`trace, this`suspended, this`configs
      ensures Valid() && local == if a.Crashed? then IDLE else old(local)
      ensures Passes(w, m, Files())
      ensures a.Done? ==> Files() == WithText(old(Files()), m, updated)
      ensures !log.faults ==>
        && !a.Crashed?
        && (a.Done? <==> (Applied(w, m) ==> SafeId(op) && AtApply !in fails && Verifies(w, m)))
        && (a.Failing? && m.action.Disable? ==>
          Files() == if AtUndo in fails then WithStored(w, m) else WithoutStored(w, m.connection))
    {
      hide Journal.Valid, Obeys, After, Parses, Parsed, Edited, EditedText, Holds, StoredOk, PutAside, SafeId;
      assert w.configs[m.instance := w.configs[m.instance]] == w.configs;
      a := Done;
      if m.action != Revoke || original != updated {
        a := Apply(m.instance, op, updated, m.publicKey, m.action.Enable?, fails);
        PassesOk(w, m, Files());
        if a.Failing? && m.action.Disable? {
          assert w.suspended[m.connection := PutAside(w, m)] - {m.connection} == w.suspended - {m.connection};
          var undone := SaveSuspended(suspended - {m.connection}, fails, AtUndo);
          PassesOk(w, m, Files());
          if undone.Crashed? { a := Crashed; }
        }
      } else {
        PassesOk(w, m, Files());
      }
    }

    /** What is left once the configuration is in place: the entry, the policies, the instance record. */
    method Settle(m: Mutation, ghost w: World, updated: string, fails: set<Stage>) returns (r: Reply)
      requires Valid() && Holding(m.instance) && (SuspendedFile, Own) in local.loaded && m.instance in instances
      requires IsMutation(m.action)
      requires Possible(w, m) && WorldOk(w) && updated == EditedText(w, m)
      requires Files() == WithText(if m.action.Disable? then WithStored(w, m) else w, m, updated)
      modifies this`local, this`trace, this`suspended, this`policies, this`instances
      ensures Valid() && (r.Died? ==> local == IDLE)
        && (!r.Died? ==> Holding(m.instance) && old(local.loaded) <= local.loaded)
      ensures Passes(w, m, Files()) && (r.Died? || r.Changed? || r.Refusal?)
      ensures r.Changed? ==>
        && Files() == Final(w, m) && policies == PoliciesAfter(m, old(policies))
        && PolicyChange(m, old(policies), policies)
        && instances == Stamped(old(instances), m.instance, updated) && r.fingerprint == updated
      ensures policies == old(policies) || Followed(m, w, Files(), old(policies), policies)
      ensures instances == old(instances) || instances == Stamped(old(instances), m.instance, updated)
      ensures !log.faults ==>
        && !r.Died?
        && (r.Changed? <==>
          fails !! {AtPoliciesRead, AtPoliciesWrite, AtInstanceWrite} && (m.action.Disable? || AtCleanup !in fails))
      ensures !log.faults && m.action.Disable? ==>
        && Files() == Final(w, m)
        && policies ==
          (if fails !! {AtPoliciesRead, AtPoliciesWrite} then PoliciesAfter(m, old(policies)) else old(policies))
        && instances == (if r.Changed? then Stamped(old(instances), m.instance, updated) else old(instances))
    {
      hide Journal.Valid, Obeys, After, Parses, Parsed, Edited, EditedText, StoredOk, PutAside, Possible,
        PoliciesAfter, PolicyChange;
      PassesOk(w, m, Files());
      if !m.action.Disable? {
        var a := SaveSuspended(suspended - {m.connection}, fails, AtCleanup);
        if a.Crashed? { return Died; }
        if a.Failing? { return Refusal(StateWriteFailed); }
        PassesOk(w, m, Files());
      }
      r := Follow(m, updated, fails);
    }

    /** The policies and the instance's record follow a change that is in place. */
    method Follow(m: Mutation, updated: string, fails: set<Stage>) returns (r: Reply)
      requires Valid() && Holding(m.instance) && m.instance in instances && IsMutation(m.action)
      modifies this`local, this`trace, this`policies, this`instances
      ensures Valid() && (r.Died? ==> local == IDLE)
      ensures (!r.Died? ==> Holding(m.instance) && old(local.loaded) <= local.loaded)
        && (r.Died? || r.Changed? || r.Refusal?)
      ensures r.Changed? ==> PolicyChange(m, old(policies), policies) && r.fingerprint == updated
      ensures policies == old(policies) || policies == PoliciesAfter(m, old(policies))
      ensures instances == old(instances) || instances == Stamped(old(instances), m.instance, updated)
      ensures r.Changed? ==>
        policies == PoliciesAfter(m, old(policies)) && instances == Stamped(old(instances), m.instance, updated)
      ensures !log.faults ==>
        && !r.Died? && (r.Changed? <==> fails !! {AtPoliciesRead, AtPoliciesWrite, AtInstanceWrite})
        && (fails !! {AtPoliciesRead, AtPoliciesWrite} ==> policies == PoliciesAfter(m, old(policies)))
        && (!(fails !! {AtPoliciesRead, AtPoliciesWrite}) ==> policies == old(policies))
        && (!r.Changed? ==> instances == old(instances))
    {
      hide Journal.Valid, Obeys, After, WorldOk, PoliciesAfter, PolicyChange;
      var a := Read(PoliciesFile, Own, fails, AtPoliciesRead);
      if a.Crashed? { return Died; }
      if a.Failing? { return Refusal(StateReadFailed); }
      var next := NextPolicies(m);
      a := SavePolicies(next, Own, fails);
      if a.Crashed? { return Died; }
      if a.Failing? { return Refusal(StateWriteFailed); }
      a := UpdateInstance(m.instance, updated, fails);
      if a.Crashed? { return Died; }
      if a.Failing? { return Refusal(StateWriteFailed); }
      a := Attempt();
      if a.Crashed? { return Died; }
      return Changed(updated);
    }

    /** Wherever a call stops: its files are at a state of its change, and a success has completed it. */
    twostate predicate Under(m: Mutation, r: Reply)
      reads this
    {
      && Passes(old(Files()), m, Files()) && SameButStamps(old(instances), instances)
      && (policies == old(policies) || Followed(m, old(Files()), Files(), old(policies), policies))
      && (r.Changed? ==>
        Completed(m, old(Files()), Files(), old(policies), policies, old(instances), instances, r.fingerprint))
    }

    /** What a call comes to when exactly these of its steps fail, on files that accept it or do not. */
    twostate predicate Exactly(m: Mutation, fails: set<Stage>, accepted: bool, r: Reply, done: bool)
      requires accepted ==> Possible(old(Files()), m)
      reads this
    {
      && !r.Died?
      && (fails == NONE ==> (r.Changed? <==> accepted))
      && (fails == NONE && !r.Changed? && !Unverified(old(Files()), m) ==> Same())
      && (m.action.Disable? && !Unverified(old(Files()), m) ==>
        && (r.Changed? <==> accepted && done)
        && Disabled(fails, m, accepted, old(Files()), Files(), old(policies), policies, old(instances), instances))
    }

    twostate predicate Same()
      reads this
    {
      Files() == old(Files()) && policies == old(policies) && instances == old(instances)
    }

    /** Everything under the instance's lock. */
    method Locked(op: string, m: Mutation, fails: set<Stage>) returns (r: Reply)
      requires Valid() && Holding(m.instance) && IsMutation(m.action) && m.instance in instances
      modifies this`local, this`trace, this`configs, this`suspended, this`policies, this`instances
      ensures Valid() && (r.Died? ==> local == IDLE)
        && (!r.Died? ==> Holding(m.instance) && old(local.loaded) <= local.loaded)
      ensures (r.Died? || r.Changed? || r.Refusal?) && Under(m, r) && (!log.faults ==> !r.Died?)
      ensures !log.faults && fails !! {AtBegin, AtInstance, AtInstanceLock} ==>
        Exactly(m, fails, SafeId(op) && Accepts(old(Files()), m), r, Stamps(fails))
    {
      hide Journal.Valid, Obeys, After, Parses, Parsed, Edited, EditedText, StoredOk, PutAside, PoliciesAfter,
        PolicyChange, Verifies, Final, SameButStamps, SafeId, Passes, Followed, Completed;
      PassesSelf(Files(), m);
      SameStamps(instances);
      var a, original := ReadConfig(m.instance, fails);
      if a.Crashed? { return Died; }
      if a.Failing? { return Refusal(ConfigReadFailed); }
      if original != m.expected { return Refusal(FingerprintConflict); }
      a := Snapshot(op, fails);
      if a.Crashed? { return Died; }
      if a.Failing? { return Refusal(SnapshotFailed); }
      r := EditAndCarry(op, m, fails);
    }

    /** The change of a configuration that was read and found as expected. */
    method EditAndCarry(op: string, m: Mutation, fails: set<Stage>) returns (r: Reply)
      requires Valid() && Holding(m.instance) && IsMutation(m.action) && m.instance in instances
      requires (ConfigFile(m.instance), Own) in local.loaded
      requires m.instance in configs && configs[m.instance] == m.expected
      modifies this`local, this`trace, this`configs, this`suspended, this`policies, this`instances
      ensures Valid() && (r.Died? ==> local == IDLE)
        && (!r.Died? ==> Holding(m.instance) && old(local.loaded) <= local.loaded)
      ensures (r.Died? || r.Changed? || r.Refusal?) && Under(m, r) && (!log.faults ==> !r.Died?)
      ensures !log.faults && fails !! {AtBegin, AtInstance, AtInstanceLock, AtConfigRead, AtSnapshot} && SafeId(op) ==>
        Exactly(m, fails, Accepts(old(Files()), m), r, Stamps(fails))
    {
      hide Journal.Valid, Obeys, After, Parses, Parsed, Edited, EditedText, StoredOk, PutAside, PoliciesAfter,
        PolicyChange, Verifies, Final, SameButStamps, SafeId;
      ghost var w := Files();
      SameStamps(instances);
      var a, code, updated := Edit(m, m.expected, fails);
      if a.Done? || a.Failing? { if Possible(w, m) && m.action.Disable? { PassesOk(w, m, WithStored(w, m)); } }
      if a.Crashed? { return Died; }
      if a.Failing? { return Refusal(code); }
      r := Carry(op, m, w, m.expected, updated, fails);
    }

    /** The edited document takes effect, and everything that follows from it. */
    method Carry(op: string, m: Mutation, ghost w: World, original: string, updated: string, fails: set<Stage>)
      returns (r: Reply)
      requires Valid() && Holding(m.instance) && IsMutation(m.action) && m.instance in instances
      requires (SuspendedFile, Own) in local.loaded && (ConfigFile(m.instance), Own) in local.loaded
      requires Possible(w, m) && WorldOk(w) && updated == EditedText(w, m)
        && original == w.configs[m.instance] == m.expected
      requires Files() == if m.action.Disable? then WithStored(w, m) else w
      modifies this`local, this`trace, this`configs, this`suspended, this`policies, this`instances
      ensures Valid() && (r.Died? ==> local == IDLE)
      ensures (!r.Died? ==> Holding(m.instance) && old(local.loaded) <= local.loaded)
        && (r.Died? || r.Changed? || r.Refusal?)
      ensures Passes(w, m, Files()) && SameButStamps(old(instances), instances)
      ensures policies == old(policies) || Followed(m, w, Files(), old(policies), policies)
      ensures r.Changed? ==> Completed(m, w, Files(), old(policies), policies, old(instances), instances, r.fingerprint)
      ensures !log.faults ==> !r.Died?
      ensures !log.faults && fails == NONE ==>
        if Applied(w, m) ==> SafeId(op) && Verifies(w, m) then r.Changed?
        else !r.Changed? && policies == old(policies) && instances == old(instances)
      ensures !log.faults && m.action.Disable? && SafeId(op) && Verifies(w, m) && Arrives(fails) ==>
        && (r.Changed? <==> Stamps(fails))
        && Disabled(fails, m, true, w, Files(), old(policies), policies, old(instances), instances)
    {
      hide Journal.Valid, Obeys, After, Parses, Parsed, Edited, EditedText, StoredOk, PutAside, Possible,
        PoliciesAfter, PolicyChange, Final, Verifies, SafeId, SameButStamps, Passes, WithText, WithStored,
        WithoutStored;
      SameStamps(instances);
      StampedSame(old(instances), m.instance, updated);
      var a := Replace(op, m, w, original, updated, fails);
      if a.Crashed? { return Died; }
      if a.Failing? { return Refusal(MutationRolledBack); }
      r := Settle(m, w, updated, fails);
    }

    /** applyPeerMutation: the instance's lock around it. */
    method ApplyPeerMutation(op: string, m: Mutation, fails: set<Stage>) returns (r: Reply)
      requires Valid() && OnlyPolicies() && IsMutation(m.action) && m.instance in instances
      modifies this`local, this`trace, this`configs, this`suspended, this`policies, this`instances
      ensures Valid() && (r.Died? ==> local == IDLE)
        && (!r.Died? ==> OnlyPolicies() && old(local.loaded) <= local.loaded)
      ensures (r.Died? || r.Changed? || r.Refusal?) && Under(m, r) && (!log.faults ==> !r.Died?)
      ensures !log.faults && fails !! {AtBegin, AtInstance} ==>
        Exactly(m, fails, SafeId(op) && Accepts(old(Files()), m), r, Stamps(fails))
    {
      hide Journal.Valid, Obeys, After, Passes, Accepts, Unverified, PoliciesAfter, PolicyChange, WorldOk,
        Completed, SameButStamps, SafeId, Final, Stamped, EditedText, Followed;
      PassesSelf(Files(), m);
      SameStamps(instances);
      FitsPossible(instances, Files(), op, m);
      assert forall x :: x in local.loaded ==> Guard(x.0) == PoliciesLock;
      var a := Take(InstanceLock(m.instance), fails, AtInstanceLock);
      if a.Crashed? { return Died; }
      if a.Failing? { return Refusal(LockFailed); }
      r := Locked(op, m, fails);
      if !r.Died? { Unlock(InstanceLock(m.instance)); }
    }

    ghost predicate OnlyPolicies()
      reads this
    {
      local.wanted.None? && local.held == {PoliciesLock}
    }

    /** Which locks a call leaves behind: those it was called with, or none if it died. */
    ghost predicate Left(r: Reply, held: set<Lock>)
      reads this
    {
      if r.Died? then local == IDLE else local.wanted.None? && local.held == held
    }

    /** The journal of a finished call: its own records at most, and what was fresh stays fresh. */
    twostate predicate Logged(op: string)
      reads log
    {
      && old(log.history) <= log.history
      && (forall i :: |old(log.history)| <= i < |log.history| ==> log.history[i].op == op)
      && (forall o :: o != op && Last(old(log.records), o).None? ==> Last(log.records, o).None?)
    }

    /** The deferred record of a failure, whose own failure is ignored. */
    method Fail(op: string, action: Action, parameters: string, connection: string, code: Code) returns (r: Reply)
      requires Valid() && Allowed(local, Want(JournalLock))
      modifies this`local, this`trace, log`records, log`history
      ensures Valid() && (r == Refusal(code) || r.Died?) && local == if r.Died? then IDLE else old(local)
      ensures Logged(op)
      ensures !log.faults ==> !r.Died?
    {
      hide Journal.Valid, Obeys, After, WorldOk, Last, Suffix;
      var record := Record(op, action, parameters, Status.Failed, connection, code);
      ghost var records := log.records;
      var a := Note(record, NONE, AtFailureRecord);
      FreshKept(records, record);
      return if a.Crashed? then Died else Refusal(code);
    }

    /** The part of a mutation after its operation has begun. */
    method Executing(op: string, parameters: string, m: Mutation, policyLockHeld: bool, fails: set<Stage>)
      returns (r: Reply)
      requires Valid() && IsMutation(m.action)
      requires local.wanted.None? && local.held == if policyLockHeld then {PoliciesLock} else {}
      modifies this`local, this`trace, this`configs, this`suspended, this`policies, this`instances
      modifies log`records, log`history
      ensures Valid() && Left(r, old(local.held)) && (!r.Died? ==> old(local.loaded) <= local.loaded)
      ensures Logged(op) && (r.Died? || r.Changed? || r.Refusal?) && Under(m, r)
      ensures !log.faults ==> !r.Died?
      ensures !log.faults && AtBegin !in fails && (policyLockHeld || AtPolicyLock !in fails) ==>
        Exactly(m, fails, Fits(old(instances), old(Files()), op, m), r, Completes(fails))
    {
      hide Journal.Valid, Obeys, After, Passes, Fits, Unverified, PoliciesAfter, PolicyChange, WorldOk, Completed,
        Suffix, Last, SameButStamps, Disabled, Followed;
      PassesSelf(Files(), m);
      SameStamps(instances);
      if !policyLockHeld {
        var a := Take(PoliciesLock, fails, AtPolicyLock);
        if a.Crashed? { return Died; }
        if a.Failing? {
          r := Fail(op, m.action, parameters, m.connection, LockFailed);
          return;
        }
      }
      r := UnderPolicies(op, parameters, m, fails);
      if r.Died? { return; }
      if !policyLockHeld { Unlock(PoliciesLock); }
      if r.Refusal? { r := Fail(op, m.action, parameters, m.connection, r.code); }
    }

    /** The part of a mutation under the policies' lock. */
    method UnderPolicies(op: string, parameters: string, m: Mutation, fails: set<Stage>) returns (r: Reply)
      requires Valid() && OnlyPolicies() && IsMutation(m.action)
      modifies this`local, this`trace, this`configs, this`suspended, this`policies, this`instances
      modifies log`records, log`history
      ensures Valid() && Left(r, {PoliciesLock}) && (!r.Died? ==> old(local.loaded) <= local.loaded)
      ensures Logged(op) && (r.Died? || r.Changed? || r.Refusal?) && Under(m, r)
      ensures !log.faults ==> !r.Died?
      ensures !log.faults && AtBegin !in fails ==>
        Exactly(m, fails, Fits(old(instances), old(Files()), op, m), r, Completes(fails))
    {
      hide Journal.Valid, Obeys, After, Passes, Accepts, Unverified, PoliciesAfter, PolicyChange, WorldOk, Suffix,
        Completed, Last, SameButStamps, SafeId, Final, Stamped, EditedText, Followed;
      PassesSelf(Files(), m);
      SameStamps(instances);
      var a := Try(fails, AtInstance);
      if a.Crashed? { return Died; }
      if a.Failing? || m.instance !in instances { return Refusal(InstanceNotFound); }
      if !instances[m.instance].canSuspend { return Refusal(AdapterReadOnly); }
      r := ApplyPeerMutation(op, m, fails);
      if !r.Changed? { return; }
      var record := Record(op, m.action, parameters, Succeeded, m.connection, StateWriteFailed);
      ghost var records := log.records;
      a := Note(record, fails, AtSuccessRecord);
      FreshKept(records, record);
      if a.Crashed? { return Died; }
      if a.Failing? { return Refusal(StateWriteFailed); }
    }

    method Mutate(op: string, parameters: string, m: Mutation, policyLockHeld: bool, fails: set<Stage>)
      returns (r: Reply)
      requires Valid() && IsMutation(m.action)
      requires local.wanted.None? && local.held == if policyLockHeld then {PoliciesLock} else {}
      modifies this`local, this`trace, this`configs, this`suspended, this`policies, this`instances
      modifies log`records, log`history
      ensures Valid() && Left(r, old(local.held)) && (!r.Died? ==> old(local.loaded) <= local.loaded)
      ensures Logged(op) && Under(m, r)
      // An operation that has a record changes nothing any more, and is answered from that record.
      ensures Last(old(log.records), op).Some? ==> Same() && log.history == old(log.history)
      ensures r.Repeat? ==> Decide(Last(old(log.records), op), m.action, parameters) == Repeated(r.result)
      ensures !ValidMutation(m) ==> r == Refusal(InvalidRequest) && Same() && log.history == old(log.history)
      // When nothing but these steps fails, a new operation comes exactly to this.
      ensures !log.faults ==> !r.Died?
      ensures !log.faults && old(Last(log.records, op).None?) && (policyLockHeld || AtPolicyLock !in fails) ==>
        !r.Repeat?
          && Exactly(m, fails, ValidMutation(m) && Fits(old(instances), old(Files()), op, m), r, Completes(fails))
    {
      hide Journal.Valid, Obeys, After, Passes, Fits, Unverified, PoliciesAfter, PolicyChange, WorldOk, Completed,
        ValidMutation, Suffix, SameButStamps, Followed, Final, Stamped, EditedText;
      PassesSelf(Files(), m);
      SameStamps(instances);
      FitsPossible(instances, Files(), op, m);
      if !ValidMutation(m) { return Refusal(InvalidRequest); }
      ghost var before := log.records;
      var a, d := Begin(op, m.action, parameters, fails);
      if a.Crashed? { return Died; }
      DecideExecutes(Last(before, op), m.action, parameters);
      if d.Refused? { return Refusal(d.code); }
      if d.Repeated? { return Repeat(d.result); }
      FreshKeptBegin(before, Record(op, m.action, parameters, Started, "", StateWriteFailed));
      r := Executing(op, parameters, m, policyLockHeld, fails);
    }

    // Create ---------------------------------------------------------------------------------------------------

    /** The transient document addresses are allocated against: active peers first, then the others of the instance. */
    method Reserve(i: string) returns (reserved: Option<seq<Section>>)
      requires i in configs && Parses(configs[i]) && WorldOk(Files())
      ensures reserved.Some? ==> Reserves(Files(), i, reserved.value)
      ensures Orderly(v6, Files()) ==> reserved.Some?
    {
      hide Parses, Parsed, WorldOk, Restorable, PeersOf, ReservesBut, Kept, PeersIn, Named;
      ghost var w := Files();
      var parsed := Document.Parse(configs[i]);
      var document := parsed.value;
      var peers := document.Peers();
      var rest := suspended.Keys;
      ReserveStart(w, i);
      while rest != {}
        invariant rest <= suspended.Keys && ReservesBut(w, i, document.sections, rest)
        modifies document
        decreases |rest|
      {
        var c :| c in rest;
        var entry := suspended[c];
        if entry.instance != i || exists p :: p in peers && p.publicKey == entry.publicKey {
          ReserveSkip(w, i, document.sections, rest, c);
        } else {
          ReserveMore(w, i, document.sections, rest, c);
          if Kept(PeersIn(v6, w)) && Named(w) { ReserveFits(v6, w, i, document.sections, rest, c); }
          var ok := document.RestorePeer(entry.section);
          if !ok { return None; }
        }
        rest := rest - {c};
      }
      return Some(document.sections);
    }

    /** A free address for a creation, or the one it asks for. */
    method Assign(c: Creation, reserved: seq<Section>) returns (address: Option<string>, ghost n: uint64)
      requires ValidCreation(v6, v6Host, c)
      ensures address.Some? ==> Assigned(v6, reserved, c, n) && address.value == AddressText(n)
      ensures address.Some? <==> Assignable(v6, reserved, c.address)
    {
      hide PoolIn, Free, CanonicalCidr, AddressText, LeastFree, Available, Exhausted, ClientConfig.ValidHost;
      n := 0;
      if c.address == [] {
        address := AllocateIPv4AddressCIDR(v6, reserved);
        if address.Some? {
          n :| n < SPACE_END && LeastFree(PoolIn(v6, reserved).value, n) && address.value == AddressText(n);
          LeastIsFree(PoolIn(v6, reserved).value, n);
          FreeIsLeft(PoolIn(v6, reserved).value, n);
        }
      } else {
        var ok := ValidateAvailableIPv4AddressCIDR(v6, reserved, c.address);
        address := if ok then Some(c.address) else None;
        if ok { n := HostCidr(v6, reserved, c.address); }
      }
    }

    /** The address a creation is given, if the document to choose it in can be built. */
    method Choose(c: Creation) returns (address: Option<string>, ghost n: uint64)
      requires ValidCreation(v6, v6Host, c) && WorldOk(Files()) && c.instance in configs && Parses(configs[c.instance])
      ensures address.Some? ==> Given(v6, Files(), c, n) && n < SPACE_END && address.value == AddressText(n)
      ensures Orderly(v6, Files()) ==> (address.Some? <==> HasAddress(v6, Files(), c))
    {
      hide Parses, WorldOk, Kept, PeersIn, Named, Reserves, Given, Assigned, Assignable, AddressText, CanonicalCidr,
        SafeId, ClientConfig.ValidHost;
      n := 0;
      var reserved := Reserve(c.instance);
      if reserved.None? { return None, n; }
      address, n := Assign(c, reserved.value);
      forall k ensures Assigned(v6, reserved.value, c, k) <==> Given(v6, Files(), c, k)
        ensures Given(v6, Files(), c, k) ==> Assignable(v6, reserved.value, c.address)
      {
        AssignedIsGiven(v6, Files(), reserved.value, c, k);
      }
      if address.Some? { AssignedBelow(v6, reserved.value, c, n); }
    }

    /** The new configuration and its client's, for a configuration that was read and parsed. */
    method Issue(c: Creation, document: Document, keyPair: Option<(string, string)>)
      returns (refusal: Option<Code>, updated: string, client: string, address: string, ghost n: uint64)
      requires ValidCreation(v6, v6Host, c) && WorldOk(Files())
      requires c.instance in configs && configs[c.instance] == c.expected && c.instance in instances
      requires Parses(c.expected) && document.Value() == Parsed(c.expected)
      modifies document
      ensures refusal.None? ==> keyPair.Some? && Issued(c, keyPair.value, updated, client, address, n)
      ensures Orderly(v6, Files()) ==> (refusal.None? <==> Suits(v6, Files(), instances[c.instance].server, c, keyPair))
    {
      hide Parses, Parsed, Given, HasAddress, Writable, AddressText, WorldOk, Kept, PeersIn, Named, ValidCreation,
        Issued;
      refusal, updated, client, address := Some(AddressPoolUnavailable), "", "", "";
      var chosen;
      chosen, n := Choose(c);
      if chosen.None? { return; }
      address := chosen.value;
      refusal, updated, client := Write(c, document, keyPair, address, n);
    }

    /** What a creation has written: one more peer with this key and address, and the client's side of it. */
    ghost predicate Issued(c: Creation, keyPair: (string, string), updated: string, client: string, address: string,
      n: uint64)
      reads this
    {
      && n < SPACE_END && address == AddressText(n) && c.instance in instances
      && Parses(c.expected) && FindPeer(Parsed(c.expected).sections, keyPair.1).None? && NoBreak(keyPair.1)
      && Issues(v6, Files(), c, keyPair.1, n, World(configs[c.instance := updated], suspended))
      && ClientFor(instances[c.instance].server, keyPair.0, address, c.host, client)
      && updated == IssuedText(c.expected, keyPair.1, n, c.name)
    }

    method Write(c: Creation, document: Document, keyPair: Option<(string, string)>, address: string, ghost n: uint64)
      returns (refusal: Option<Code>, updated: string, client: string)
      requires ValidCreation(v6, v6Host, c) && n < SPACE_END && Given(v6, Files(), c, n) && address == AddressText(n)
      requires c.instance in configs && configs[c.instance] == c.expected && c.instance in instances
      requires Parses(c.expected) && document.Value() == Parsed(c.expected)
      modifies document
      ensures refusal.None? <==> Writable(instances[c.instance].server, c, keyPair)
      ensures refusal.None? ==> keyPair.Some? && Issued(c, keyPair.value, updated, client, address, n)
    {
      hide Parses, Parsed, PrintDoc, Given, AddressText, FindPeer, Added, Issues, ClientFor, NoBreak, CanonicalCidr,
        SafeId, ClientConfig.ValidHost, ClientConfig.ValidKey;
      refusal, updated, client := Some(KeyGenerationFailed), "", "";
      if keyPair.None? { return; }
      refusal := Some(ConfigConflict);
      ClipAddress(n);
      var ok := document.AddPeer(keyPair.value.1, address, c.name);
      if !ok { return; }
      IssuesOk(v6, Files(), c, keyPair.value.1, n);
      refusal := Some(ClientTemplateUnavailable);
      ghost var keys;
      var text;
      text, keys := ClientConfig.BuildClientConfig(v6Host, instances[c.instance].server, keyPair.value.0, address,
        c.host);
      if text.None? { return; }
      ClientWritten(instances[c.instance].server, keys, keyPair.value.0, address, c.host);
      updated := document.Bytes();
      client, refusal := text.value, None;
    }

    /** The instance record and the journal of a creation that is in place. */
    method Finish(op: string, parameters: string, c: Creation, updated: string) returns (r: Reply)
      requires Valid() && c.instance in instances && local.wanted.None? && local.held == {InstanceLock(c.instance)}
      modifies this`local, this`trace, this`instances, log`records, log`history
      ensures Valid() && Left(r, {InstanceLock(c.instance)}) && Logged(op)
      ensures r.Died? || r == Refusal(StateWriteFailed)
        || (r == Changed(updated) && instances == Stamped(old(instances), c.instance, updated))
      ensures !log.faults ==> r.Changed?
    {
      hide Journal.Valid, Obeys, After, WorldOk, Last, Suffix;
      var a := UpdateInstance(c.instance, updated, NONE);
      if a.Crashed? { return Died; }
      if a.Failing? { return Refusal(StateWriteFailed); }
      var record := Record(op, Create, parameters, Succeeded, c.connection, StateWriteFailed);
      ghost var records := log.records;
      a := Note(record, NONE, AtSuccessRecord);
      FreshKept(records, record);
      if a.Crashed? { return Died; }
      if a.Failing? { return Refusal(StateWriteFailed); }
      a := Attempt();
      if a.Crashed? { return Died; }
      return Changed(updated);
    }

    /** Everything a creation does under the instance's lock. */
    method CreateLocked(op: string, parameters: string, c: Creation, keyPair: Option<(string, string)>)
      returns (r: Reply)
      requires Valid() && ValidCreation(v6, v6Host, c) && c.instance in instances
      requires local.wanted.None? && local.held == {InstanceLock(c.instance)}
      modifies this`local, this`trace, this`configs, this`instances, log`records, log`history
      ensures Valid() && Left(r, {InstanceLock(c.instance)}) && Logged(op) && (r.Died? || r.Created? || r.Refusal?)
      ensures IssuedOrSame(v6, old(Files()), Files(), c, keyPair)
      ensures r.Created? ==> IssuedTo(v6, old(Files()), Files(), c, keyPair, old(instances), r.address, r.config)
      ensures !log.faults && old(instances)[c.instance].canCreate && Orderly(v6, old(Files())) ==>
        (r.Created? <==> Issuable(v6, op, old(Files()), old(instances), c, keyPair))
    {
      hide Journal.Valid, Obeys, After, Parses, Parsed, WorldOk, Issues, ClientFor, ValidCreation, AddressText,
        Last, Suffix, Holds, IssuedOrSame, IssuedTo, Suits, IssuedText, Orderly, Given;
      SameIsSame(v6, Files(), c, keyPair);
      var a, original := ReadConfig(c.instance, NONE);
      if a.Crashed? { r := Died; return; }
      if a.Failing? { r := Refusal(ConfigReadFailed); return; }
      if original != c.expected { r := Refusal(FingerprintConflict); return; }
      a := Snapshot(op, NONE);
      if a.Crashed? { r := Died; return; }
      if a.Failing? { r := Refusal(SnapshotFailed); return; }
      var parsed := Document.Parse(original);
      if parsed.None? { r := Refusal(AdapterReadOnly); return; }
      a := Attempt();
      if a.Crashed? { r := Died; return; }
      if a.Failing? { r := Refusal(StateReadFailed); return; }
      r := CreateParsed(op, parameters, c, keyPair, parsed.value);
    }

    /** A creation in a configuration that was read and parsed. */
    method CreateParsed(op: string, parameters: string, c: Creation, keyPair: Option<(string, string)>,
      document: Document)
      returns (r: Reply)
      requires Valid() && ValidCreation(v6, v6Host, c) && c.instance in instances
      requires local.wanted.None? && local.held == {InstanceLock(c.instance)}
        && (ConfigFile(c.instance), Own) in local.loaded
      requires c.instance in configs && configs[c.instance] == c.expected && Parses(c.expected)
        && document.Value() == Parsed(c.expected)
      modifies this`local, this`trace, this`configs, this`instances, log`records, log`history, document
      ensures Valid() && Left(r, {InstanceLock(c.instance)}) && Logged(op) && (r.Died? || r.Created? || r.Refusal?)
      ensures IssuedOrSame(v6, old(Files()), Files(), c, keyPair)
      ensures r.Created? ==> IssuedTo(v6, old(Files()), Files(), c, keyPair, old(instances), r.address, r.config)
      ensures !log.faults && SafeId(op) && Orderly(v6, old(Files())) ==>
        (r.Created? <==>
          Suits(v6, old(Files()), old(instances)[c.instance].server, c, keyPair)
            && Clip(keyPair.value.1) == keyPair.value.1)
    {
      hide Journal.Valid, Obeys, After, Parses, Parsed, WorldOk, Last, SafeId, CanonicalCidr,
        ClientConfig.ValidHost, Suffix, Holds, IssuedOrSame, IssuedTo, Suits, Clip, Orderly, Issued;
      SameIsSame(v6, Files(), c, keyPair);
      var refusal, updated, client, address;
      ghost var n;
      refusal, updated, client, address, n := Issue(c, document, keyPair);
      if refusal.Some? { r := Refusal(refusal.value); return; }
      IssuedMeans(c, keyPair, updated, client, address, n);
      var a := Apply(c.instance, op, updated, keyPair.value.1, true, NONE);
      if a.Crashed? { r := Died; return; }
      if a.Failing? { r := Refusal(MutationRolledBack); return; }
      r := Finish(op, parameters, c, updated);
      if r.Changed? { r := Created(address, client); }
    }

    lemma IssuedMeans(c: Creation, keyPair: Option<(string, string)>, updated: string, client: string,
      address: string, n: uint64)
      requires WorldOk(Files()) && keyPair.Some? && Issued(c, keyPair.value, updated, client, address, n)
        && NoBreak(c.name)
      ensures var now := World(configs[c.instance := updated], suspended);
        && WorldOk(now) && IssuedOrSame(v6, Files(), now, c, keyPair)
        && IssuedTo(v6, Files(), now, c, keyPair, instances, address, client)
      ensures Holds(Parsed(updated).sections, keyPair.value.1) <==> Clip(keyPair.value.1) == keyPair.value.1
    {
      hide Parses, Parsed, WorldOk, Issues, ClientFor, AddressText, Holds, IssuedOrSame, IssuedTo, FindPeer,
        IssuedText, Clip, NoBreak;
      IssuedFacts(v6, Files(), World(configs[c.instance := updated], suspended), c, keyPair, instances, address,
        client, n);
      IssuedHolds(c, keyPair.value.1, n, updated);
    }

    /** A creation after its operation has begun. */
    method CreateExecuting(op: string, parameters: string, c: Creation, keyPair: Option<(string, string)>)
      returns (r: Reply)
      requires Valid() && local == IDLE && ValidCreation(v6, v6Host, c)
      modifies this`local, this`trace, this`configs, this`instances, log`records, log`history
      ensures Valid() && local == IDLE && Logged(op) && (r.Died? || r.Created? || r.Refusal?)
      ensures IssuedOrSame(v6, old(Files()), Files(), c, keyPair)
      ensures r.Created? ==> IssuedTo(v6, old(Files()), Files(), c, keyPair, old(instances), r.address, r.config)
      ensures !log.faults && Orderly(v6, old(Files())) ==>
        (r.Created? <==> Issuable(v6, op, old(Files()), old(instances), c, keyPair))
    {
      hide Journal.Valid, Obeys, After, WorldOk, ValidCreation, Last, Suffix, IssuedOrSame, IssuedTo, Kept, PeersIn,
        Named;
      SameIsSame(v6, Files(), c, keyPair);
      var a := Attempt();
      if a.Crashed? { r := Died; return; }
      if a.Failing? || c.instance !in instances { r := Refusal(InstanceNotFound); return; }
      if !instances[c.instance].canCreate { r := Refusal(AdapterReadOnly); return; }
      a := Take(InstanceLock(c.instance), NONE, AtInstanceLock);
      if a.Crashed? { r := Died; return; }
      if a.Failing? { r := Refusal(LockFailed); return; }
      r := CreateLocked(op, parameters, c, keyPair);
      if !r.Died? { UnlockLast(InstanceLock(c.instance)); }
    }

    method CreateConnection(op: string, parameters: string, c: Creation, keyPair: Option<(string, string)>)
      returns (r: Reply)
      requires Valid() && local == IDLE
      modifies this`local, this`trace, this`configs, this`instances, log`records, log`history
      ensures Valid() && local == IDLE && Logged(op)
      ensures IssuedOrSame(v6, old(Files()), Files(), c, keyPair)
      ensures !(1 <= |c.name| <= 120 && 1 <= |c.connection| <= 128) ==>
        r == Refusal(InvalidRequest) && Files() == old(Files())
      ensures r.Created? ==> IssuedTo(v6, old(Files()), Files(), c, keyPair, old(instances), r.address, r.config)
      // When nothing fails, a new operation is carried out exactly if all this holds.
      ensures !log.faults && Orderly(v6, old(Files())) && Last(old(log.records), op).None? ==>
        ValidCreation(v6, v6Host, c) ==>
        (r.Created? <==> Issuable(v6, op, old(Files()), old(instances), c, keyPair))
      // An operation that has a record changes nothing any more, and never returns a configuration.
      ensures Last(old(log.records), op).Some? ==>
        Files() == old(Files()) && instances == old(instances) && log.history == old(log.history) && !r.Created?
    {
      hide Journal.Valid, Obeys, After, WorldOk, ValidCreation, Last, Suffix, IssuedOrSame, IssuedTo, Kept, PeersIn,
        Named;
      SameIsSame(v6, Files(), c, keyPair);
      CreationSizes(v6, v6Host, c);
      if !ValidCreation(v6, v6Host, c) { r := Refusal(InvalidRequest); return; }
      ghost var before := log.records;
      var a, d := Begin(op, Create, parameters, NONE);
      if a.Crashed? { r := Died; return; }
      DecideExecutes(Last(before, op), Create, parameters);
      if d.Refused? { r := Refusal(d.code); return; }
      if d.Repeated? { r := Repeat(d.result); return; }
      FreshKeptBegin(before, Record(op, Create, parameters, Started, "", StateWriteFailed));
      r := CreateExecuting(op, parameters, c, keyPair);
      if r.Refusal? { r := Fail(op, Create, parameters, c.connection, r.code); }
    }

    // Policies -------------------------------------------------------------------------------------------------

    /** One policy of an enforcement pass: counted, and if it is due, its peer disabled under the same policy lock. */
    method EnforceOne(p: Policy, now: int, minute: string, readings: map<string, Readings>, fails: set<Stage>)
      returns (q: Policy, died: bool, checked: Checked)
      requires Valid() && OnlyPolicies()
      modifies this`local, this`trace, this`configs, this`suspended, this`policies, this`instances
      modifies log`records, log`history
      ensures Valid() && Left(if died then Died else Changed(""), {PoliciesLock})
      ensures Logged(EnforceId(p.connection, minute)) && (!died ==> old(local.loaded) <= local.loaded)
      ensures Passes(old(Files()), DisableFor(p, Recorded(old(instances), p.instance)), Files())
      ensures old(Named(Files())) ==> Named(Files())
      ensures !log.faults && old(Kept(PeersIn(v6, Files()))) ==>
        Last(old(log.records), EnforceId(p.connection, minute)).None? ==>
        && !died && Dealt(p, now, minute, readings, fails, q, checked)
        && (fails == NONE && CanCut(Scene(old(Files()), old(instances), readings, now, minute), p) ==>
          Judged(p, readings[p.instance], now, q))
    {
      hide Journal.Valid, Obeys, After, WorldOk, Kept, PeersIn, Account, Reason, Passes, Final, Completed, Accepts,
        Disabled, Cuts, CanCut, Judged, Unverified, Last, Decide, Possible, SameButStamps, Holds, Parses, Parsed,
        SafeId, PoliciesAfter, EnforceId, Fits, ValidMutation, Followed, Stamped, EditedText, Completes, Named;
      var m := DisableFor(p, Recorded(instances, p.instance));
      ghost var sc := Scene(Files(), instances, readings, now, minute);
      if CanCut(sc, p) { EnforcedIsJudged(sc, p); }
      PassesSelf(Files(), m);
      NotDisabled(fails, m, Files(), policies, instances);
      q, died, checked := p, false, Spared;
      if !p.status.Active? {
        NotCounted(sc, p, fails);
        return;
      }
      checked := Missed;
      var a := Try(fails, AtLookup);
      if a.Crashed? { died := true; return; }
      if a.Failing? || p.instance !in instances {
        if !log.faults { NotCounted(sc, p, fails); }
        return;
      }
      a := Try(fails, AtStatistics);
      if a.Crashed? { died := true; return; }
      if a.Failing? || p.instance !in readings {
        if !log.faults { NotCounted(sc, p, fails); }
        return;
      }
      q := Account(p, readings[p.instance]);
      var reason := Reason(q, now);
      if reason.None? {
        checked := Spared;
        CutsIsDue(sc, p);
        return;
      }
      if Kept(PeersIn(v6, Files())) { CutsFits(v6, sc, p); }
      var op := EnforceId(p.connection, minute);
      DecideExecutes(Last(log.records, op), Disable, Parameters(m));
      var r := Mutate(op, Parameters(m), m, true, fails);
      NamedAfter(sc.files, m, Files());
      if r.Died? { died := true; return; }
      if r.Changed? || r.Repeat? {
        q := q.(status := reason.value);
        checked := CutOff;
      }
    }

    /** What the pass does for one policy when exactly these steps fail. */
    twostate predicate Dealt(p: Policy, now: int, minute: string, readings: map<string, Readings>, fails: set<Stage>,
      q: Policy, checked: Checked)
      reads this
    {
      var sc := Scene(old(Files()), old(instances), readings, now, minute);
      var m := DisableFor(p, Recorded(old(instances), p.instance));
      var goes := Cuts(sc, p) && AtLookup !in fails && AtStatistics !in fails;
      && q == Enforced(sc, p, fails, goes) && checked == CheckedAs(sc, p, fails, goes)
      && (goes ==> Possible(old(Files()), m))
      && Disabled(fails, m, goes, old(Files()), Files(), old(policies), policies, old(instances), instances)
    }

    /** One enforcement pass over all policies. */
    method Enforce(now: int, minute: string, readings: map<string, Readings>, fails: Fails)
      returns (r: Pass, ghost overwritten: seq<Policy>)
      requires Valid() && local == IDLE
      modifies this`local, this`trace, this`configs, this`suspended, this`policies, this`instances
      modifies log`records, log`history
      ensures Valid() && local == IDLE
      // Whatever fails, and wherever the process dies: no peer is lost, and peers stay apart.
      ensures InPlace(v6, old(Files()), old(policies)) ==>
        Kept(PeersIn(v6, Files())) && Conserved(old(PeersIn(v6, Files())), PeersIn(v6, Files()), iset{})
      ensures old(Named(Files())) ==> Named(Files())
      // For any failing steps, the pass is exact.
      ensures !log.faults && Undisturbed(v6, old(Files()), old(policies), old(log.records), minute) ==>
        Passed(Scene(old(Files()), old(instances), readings, now, minute), fails, old(policies), r, overwritten)
      ensures !log.faults && Undisturbed(v6, old(Files()), old(policies), old(log.records), minute) ==>
        fails == map[] ==>
        AsDue(Scene(old(Files()), old(instances), readings, now, minute), old(policies))
    {
      hide Journal.Valid, Lawful, WorldOk, Kept, PeersIn, Moved, Distinct, Fresh, CutsOf, TriedOf, InOrder,
        Conserved, SoFar, Named, InPlace, Going, EnforcedAll, FiledAll, TallyAll, StaleAfter, Records, CanCut,
        Judged;
      ghost var w0, sc, all := Files(), Scene(Files(), instances, readings, now, minute), policies;
      overwritten := policies;
      InPlaceStart(v6, w0, policies);
      var a := OpenList();
      if !a.Done? { r := if a.Crashed? then PassDied else PassFailed; return; }
      ghost var exact := !log.faults && Undisturbed(v6, w0, all, log.records, minute);
      ghost var pass := PassOf(sc, fails, all, InPlace(v6, w0, all), exact);
      GoingStart(pass);
      var list, count, died := GoThrough(pass, now, minute, readings, fails);
      if died { r := PassDied; return; }
      overwritten := policies;
      a := CloseList(list);
      r := match a case Crashed => PassDied case Failing => PassFailed case Done => Finished(|list|, count);
      if exact && fails == map[] {
        InPlaceDistinct(v6, w0, all);
        PassedAsDue(sc, all, r, overwritten);
      }
    }

    /** The policies' lock, and the list read under it. */
    method OpenList() returns (a: Access)
      requires Valid() && local == IDLE
      modifies this`local, this`trace
      ensures Valid() && if a.Done? then OnlyPolicies() && (PoliciesFile, Listed) in local.loaded else local == IDLE
      ensures !log.faults ==> a.Done?
    {
      hide Journal.Valid, Obeys, After, WorldOk;
      a := Take(PoliciesLock, NONE, AtPolicyLock);
      if !a.Done? { return; }
      a := Read(PoliciesFile, Listed, NONE, AtPoliciesRead);
      if a.Failing? { UnlockLast(PoliciesLock); }
    }

    /** The list written, and the lock freed. */
    method CloseList(list: seq<Policy>) returns (a: Access)
      requires Valid() && OnlyPolicies() && (PoliciesFile, Listed) in local.loaded
      modifies this`local, this`trace, this`policies
      ensures Valid() && local == IDLE && policies == (if a.Done? then list else old(policies))
        && (!log.faults ==> a.Done?)
    {
      hide Journal.Valid, Obeys, After, WorldOk;
      a := SavePolicies(list, Listed, NONE);
      if !a.Crashed? { UnlockLast(PoliciesLock); }
    }

    lemma GoingStart(pass: PassOf)
      requires pass.sc.files == Files() && pass.sc.instances == instances && pass.all == policies
      requires pass.inPlace == InPlace(v6, Files(), policies)
      requires pass.exact == (!log.faults && Undisturbed(v6, Files(), policies, log.records, pass.sc.minute))
      ensures Going(pass, 0, policies, Tally(0, 0))
    {
      hide Kept, PeersIn, AllPaired, Distinct, Fresh, SoFar, InOrder, Named;
      SoFarStart(pass.sc, pass.fails, pass.all);
      assert pass.all[0..] == pass.all;
      if pass.inPlace { InOrderStart(v6, Files(), policies); }
    }

    /** The pass through its list. */
    method GoThrough(ghost pass: PassOf, now: int, minute: string, readings: map<string, Readings>, fails: Fails)
      returns (list: seq<Policy>, count: Tally, died: bool)
      requires Valid() && OnlyPolicies() && (PoliciesFile, Listed) in local.loaded
      requires policies == pass.all && Going(pass, 0, policies, Tally(0, 0))
      requires pass.sc.now == now && pass.sc.minute == minute && pass.sc.readings == readings && pass.fails == fails
      modifies this`local, this`trace, this`configs, this`suspended, this`policies, this`instances
      modifies log`records, log`history
      ensures Valid() && (died ==> local == IDLE)
      ensures !died ==> OnlyPolicies() && (PoliciesFile, Listed) in local.loaded && |list| == |pass.all|
      ensures pass.inPlace ==>
        Kept(PeersIn(v6, Files())) && Conserved(PeersIn(v6, pass.sc.files), PeersIn(v6, Files()), iset{})
      ensures Named(pass.sc.files) ==> Named(Files())
      ensures pass.exact ==>
        && !died && count == TallyAll(pass.sc, pass.fails, pass.all)
        && Moved(pass.sc.files, Files(), CutsOf(pass.sc, pass.fails, pass.all), TriedOf(pass.sc, pass.fails, pass.all))
        && Records(pass.sc, Files(), instances, StaleAfter(pass.sc, pass.fails, pass.all))
        && list == EnforcedAll(pass.sc, pass.fails, pass.all) && policies == FiledAll(pass.sc, pass.fails, pass.all)
    {
      hide Journal.Valid, Obeys, After, WorldOk, Kept, PeersIn, Moved, Distinct, Fresh, CutsOf, TriedOf, InOrder,
        Records, Conserved, SoFar, Named, EnforcedAll, FiledAll, TallyAll, StaleAfter;
      list, count, died := policies, Tally(0, 0), false;
      for k := 0 to |list|
        invariant Valid() && OnlyPolicies() && (PoliciesFile, Listed) in local.loaded && !died
        invariant |list| == |pass.all| && Going(pass, k, list, count)
      {
        list, count, died := PassStep(pass, k, list, count, now, minute, readings, fails);
        if died { return; }
      }
      GoneThrough(pass, list, count);
    }

    /** A finished pass: its files, what its calls had left of the policies' file, its list and its counts. */
    ghost predicate Passed(sc: Scene, fails: Fails, all: seq<Policy>, r: Pass, overwritten: seq<Policy>)
      reads this
    {
      && r == Finished(|all|, TallyAll(sc, fails, all))
      && Moved(sc.files, Files(), CutsOf(sc, fails, all), TriedOf(sc, fails, all))
      && Records(sc, Files(), instances, StaleAfter(sc, fails, all))
      && policies == EnforcedAll(sc, fails, all) && overwritten == FiledAll(sc, fails, all)
    }

    /** Every peer that could be cut off is gone exactly if its policy has come to its limit or its date. */
    ghost predicate AsDue(sc: Scene, all: seq<Policy>)
      reads this
    {
      && |policies| == |all|
      && forall k :: 0 <= k < |all| && CanCut(sc, all[k]) ==>
           && Judged(all[k], sc.readings[all[k].instance], sc.now, policies[k])
           && all[k].instance in configs
           && (Holds(Sections(Files(), all[k].instance), all[k].publicKey) <==> policies[k].status.Active?)
    }

    lemma PassedAsDue(sc: Scene, all: seq<Policy>, r: Pass, overwritten: seq<Policy>)
      requires Distinct(all) && Passed(sc, map[], all, r, overwritten)
      ensures AsDue(sc, all)
    {
      hide Judged, Moved, CutsOf, TriedOf, EnforcedAll, FiledAll, Distinct, StaleAfter, Records, Holds, Parsed,
        Parses, ValidMutation, SafeId, EnforceId;
      forall k | 0 <= k < |all| && CanCut(sc, all[k])
        ensures Judged(all[k], sc.readings[all[k].instance], sc.now, policies[k]) && all[k].instance in configs
        ensures Holds(Sections(Files(), all[k].instance), all[k].publicKey) <==> policies[k].status.Active?
      {
        CalmJudged(sc, all, Files(), k);
      }
    }

    /** The state of a pass before its k-th policy. */
    ghost predicate Going(pass: PassOf, k: nat, list: seq<Policy>, count: Tally)
      reads this, log
    {
      && k <= |pass.all| == |list| && list[k..] == pass.all[k..] && (Named(pass.sc.files) ==> Named(Files()))
      && (pass.inPlace ==> Distinct(pass.all) && InOrder(v6, pass.sc.files, Files(), pass.all[k..]))
      && (pass.exact ==>
        && pass.inPlace && !log.faults && Fresh(log.records, pass.all[k..], pass.sc.minute)
        && SoFar(pass.sc, pass.fails, pass.all, k, Files(), instances, policies, list, count))
    }

    method PassStep(ghost pass: PassOf, k: nat, list: seq<Policy>, count: Tally, now: int, minute: string,
      readings: map<string, Readings>, fails: Fails)
      returns (next: seq<Policy>, more: Tally, died: bool)
      requires Valid() && OnlyPolicies() && (PoliciesFile, Listed) in local.loaded
      requires k < |list| && Going(pass, k, list, count)
      requires pass.sc.now == now && pass.sc.minute == minute && pass.sc.readings == readings && pass.fails == fails
      modifies this`local, this`trace, this`configs, this`suspended, this`policies, this`instances
      modifies log`records, log`history
      ensures Valid() && (died ==> local == IDLE)
      ensures !died ==>
        OnlyPolicies() && (PoliciesFile, Listed) in local.loaded && |next| == |list| && Going(pass, k + 1, next, more)
      ensures pass.inPlace ==>
        Kept(PeersIn(v6, Files())) && Conserved(PeersIn(v6, pass.sc.files), PeersIn(v6, Files()), iset{})
      ensures pass.exact ==> !died
      ensures Named(pass.sc.files) ==> Named(Files())
    {
      hide Journal.Valid, Obeys, After, WorldOk, Kept, PeersIn, Passes, Final, Possible, Cuts, Enforced, Moved,
        Distinct, Fresh, InOrder, AllPaired, Conserved, Last, EnforceId, CheckedAs, SoFar, Disabled, Named;
      assert list[k] == list[k..][0] == pass.all[k];
      ghost var w, inst, records, file := Files(), instances, log.records, policies;
      ghost var m := DisableFor(list[k], Recorded(instances, list[k].instance));
      InOrderFacts(v6, pass.sc.files, w, pass.all[k..]);
      if pass.exact { FreshFirst(records, pass.all, k, minute); }
      var q, checked;
      q, died, checked := EnforceOne(list[k], now, minute, readings, FailsOf(fails, list[k]));
      if pass.inPlace {
        InOrderStep(v6, pass.sc.files, w, pass.all, k, m, Files());
        InOrderFacts(v6, pass.sc.files, Files(), pass.all[k + 1..]);
      }
      next, more := list[k := q], Counting(count, checked);
      if died { return; }
      if pass.exact {
        ghost var now_ := SceneNow(pass.sc, w, inst);
        SoFarStep(v6, pass.sc, fails, pass.all, k, w, inst, file, list, count, m, Files(), instances, policies,
          Goes(now_, fails, {}, list[k]));
        FreshStep(records, log.records, pass.all, k, minute);
      }
    }

    lemma GoneThrough(pass: PassOf, list: seq<Policy>, count: Tally)
      requires |list| == |pass.all| && Going(pass, |pass.all|, list, count)
      ensures pass.inPlace ==>
        Kept(PeersIn(v6, Files())) && Conserved(PeersIn(v6, pass.sc.files), PeersIn(v6, Files()), iset{})
      ensures pass.exact ==>
        && count == TallyAll(pass.sc, pass.fails, pass.all)
        && Moved(pass.sc.files, Files(), CutsOf(pass.sc, pass.fails, pass.all), TriedOf(pass.sc, pass.fails, pass.all))
        && Records(pass.sc, Files(), instances, StaleAfter(pass.sc, pass.fails, pass.all))
        && list == EnforcedAll(pass.sc, pass.fails, pass.all) && policies == FiledAll(pass.sc, pass.fails, pass.all)
    {
      hide Kept, PeersIn, Moved, CutsOf, TriedOf, Records, Conserved, InOrder, Distinct, EnforcedAll, FiledAll,
        StaleAfter, TallyAll;
      InOrderFacts(v6, pass.sc.files, Files(), pass.all[|pass.all|..]);
      assert pass.all[..|pass.all|] == pass.all && pass.all[|pass.all|..] == [];
    }

    /**
     * The list overwrites what a call has saved: the record of the instance, or of the success, cannot be written after
     * the policies were. The call is refused; the file said suspended, the pass writes active, and the peer is gone.
     */
    method PassReverts(now: int, minute: string, readings: map<string, Readings>, k: nat, at: Stage)
      returns (r: Pass, ghost overwritten: seq<Policy>)
      requires Valid() && local == IDLE && !log.faults && Undisturbed(v6, Files(), policies, log.records, minute)
        && k < |policies|
      requires Cuts(Scene(Files(), instances, readings, now, minute), policies[k])
      requires at == AtInstanceWrite || at == AtSuccessRecord
      modifies this`local, this`trace, this`configs, this`suspended, this`policies, this`instances
      modifies log`records, log`history
      ensures Valid() && local == IDLE && r.Finished? && |policies| == |overwritten| == |old(policies)|
      ensures overwritten[k].status.Suspended? && policies[k].status.Active?
      ensures CutUnder(Files(), old(policies)[k])
    {
      hide Journal.Valid, Obeys, After, WorldOk, Kept, PeersIn, Moved, CutsOf, TriedOf, EnforcedAll, FiledAll,
        TallyAll, Cuts, InPlace, Fresh, CutUnder, Records, StaleAfter, Distinct;
      ghost var sc, all := Scene(Files(), instances, readings, now, minute), policies;
      var fails: Fails := map[policies[k].connection := {at}];
      InPlaceDistinct(v6, Files(), policies);
      OneFailing(sc, all, k, at);
      r, overwritten := Enforce(now, minute, readings, fails);
      PassByPolicy(sc, fails, all, Files(), k);
    }

    method Projection(inputs: seq<PolicyInput>) returns (next: Option<seq<Policy>>)
      ensures next.Some? ==> next.value == ProjectAll(policies, inputs)
      ensures next.Some? <==> forall i :: i in inputs ==> ValidInput(i)
    {
      hide Project, ValidInput;
      var list: seq<Policy> := [];
      for k := 0 to |inputs|
        invariant |list| == k && forall j :: 0 <= j < k ==> list[j] == Project(policies, inputs[j])
        invariant forall j :: 0 <= j < k ==> ValidInput(inputs[j])
      {
        if !ValidInput(inputs[k]) {
          assert inputs[k] in inputs;
          return None;
        }
        list := list + [Project(policies, inputs[k])];
      }
      return Some(list);
    }

    /** The projection after its operation has begun, or for a repeat, under the policies' lock. */
    method Projecting(op: string, parameters: string, inputs: seq<PolicyInput>, repeated: bool) returns (r: Reply)
      requires Valid() && local == IDLE
      modifies this`local, this`trace, this`policies, log`records, log`history
      ensures Valid() && local == IDLE && Logged(op) && (r.Died? || r.Projected? || r.Refusal?)
      ensures policies == old(policies) || (!repeated && policies == ProjectAll(old(policies), inputs))
      ensures r.Projected? ==> r.policies == policies && (!repeated ==> policies == ProjectAll(old(policies), inputs))
      ensures r.Projected? && !repeated ==> forall i :: i in inputs ==> ValidInput(i)
      ensures repeated ==> log.history == old(log.history) && log.records == old(log.records)
    {
      hide Journal.Valid, Obeys, After, WorldOk, Last, Suffix, Project, ValidInput, ProjectAll, StoredOk;
      var a := Take(PoliciesLock, NONE, AtPolicyLock);
      if a.Crashed? { return Died; }
      if a.Failing? { return Refusal(LockFailed); }
      a := Read(PoliciesFile, Own, NONE, AtPoliciesRead);
      if a.Crashed? { return Died; }
      if a.Failing? {
        UnlockLast(PoliciesLock);
        return Refusal(StateReadFailed);
      }
      if repeated {
        UnlockLast(PoliciesLock);
        return Projected(policies);
      }
      var next := Projection(inputs);
      if next.None? {
        UnlockLast(PoliciesLock);
        return Refusal(InvalidRequest);
      }
      a := SavePolicies(next.value, Own, NONE);
      if a.Crashed? { return Died; }
      if a.Done? {
        var record := Record(op, ApplyPolicy, parameters, Succeeded, "", StateWriteFailed);
        ghost var records := log.records;
        a := Note(record, NONE, AtSuccessRecord);
        FreshKept(records, record);
        if a.Crashed? { return Died; }
      }
      UnlockLast(PoliciesLock);
      if a.Failing? { return Refusal(StateWriteFailed); }
      return Projected(policies);
    }

    method ProjectPolicies(op: string, parameters: string, inputs: seq<PolicyInput>) returns (r: Reply)
      requires Valid() && local == IDLE
      modifies this`local, this`trace, this`policies, log`records, log`history
      ensures Valid() && local == IDLE && Logged(op)
      ensures policies == old(policies) || policies == ProjectAll(old(policies), inputs)
      ensures r.Projected? ==>
        r.policies == policies && (Last(old(log.records), op).None? ==> policies == ProjectAll(old(policies), inputs))
      ensures r.Projected? && Last(old(log.records), op).None? ==> TakesOverAll(old(policies), inputs, policies)
      ensures r.Projected? && Last(old(log.records), op).None? ==> |inputs| <= 10_000 && forall i :: i in inputs ==>
        1 <= |i.connection| <= 128 && 1 <= |i.instance| <= 128 && |i.publicKey| == 44 && 1 <= |i.epoch| <= 160
      ensures Last(old(log.records), op).Some? ==> policies == old(policies) && log.history == old(log.history)
    {
      hide Journal.Valid, Obeys, After, WorldOk, Last, Suffix, Project, ProjectAll, TakesOverAll, ValidInput,
        Decide;
      ProjectAllTakesOver(policies, inputs);
      InputSizes(inputs);
      if |inputs| > 10_000 { return Refusal(InvalidRequest); }
      ghost var before := log.records;
      var a, d := Begin(op, ApplyPolicy, parameters, NONE);
      if a.Crashed? { return Died; }
      DecideExecutes(Last(before, op), ApplyPolicy, parameters);
      if d.Refused? { return Refusal(d.code); }
      FreshKeptBegin(before, Record(op, ApplyPolicy, parameters, Started, "", StateWriteFailed));
      r := Projecting(op, parameters, inputs, d.Repeated?);
      if r.Refusal? && !d.Repeated? { r := Fail(op, ApplyPolicy, parameters, "", r.code); }
    }

    // Whole runs -----------------------------------------------------------------------------------------------

    /** This id, and no other, stands for this peer among those put aside. */
    predicate PairedNow(connection: string, instance: string, key: string)
      reads this
    {
      forall c :: c in suspended ==>
        (c == connection <==> suspended[c].instance == instance && suspended[c].publicKey == key)
    }

    lemma PairedIs(connection: string, instance: string, key: string)
      ensures PairedNow(connection, instance, key) <==> Paired(PeersIn(v6, Files()), connection, instance, key)
    {
      hide Parses, Parsed, FaceOf;
      var p := PeersIn(v6, Files());
      assert forall c :: c in suspended <==> c in p.stored;
      assert forall c :: c in suspended ==>
        p.stored[c].instance == suspended[c].instance && p.stored[c].key == suspended[c].publicKey;
    }

    predicate DistinctNow()
      reads this
    {
      && (forall p :: p in policies ==> PairedNow(p.connection, p.instance, p.publicKey))
      && forall j, k :: 0 <= j < k < |policies| ==>
           policies[j].connection != policies[k].connection &&
           !(policies[j].instance == policies[k].instance && policies[j].publicKey == policies[k].publicKey)
    }

    predicate NewKey(i: string, key: string)
      reads this
    {
      Clip(key) == key && forall c :: c in suspended && suspended[c].instance == i ==> suspended[c].publicKey != key
    }

    /** One call of a run, made if ids and keys are paired and generated keys are new; it may fail or die anywhere. */
    method Serve(call: Call)
      requires Valid() && local == IDLE && Kept(PeersIn(v6, Files()))
      modifies this`local, this`trace, this`configs, this`suspended, this`policies, this`instances, log`records,
        log`history
      ensures Valid() && local == IDLE && Kept(PeersIn(v6, Files()))
      ensures Conserved(old(PeersIn(v6, Files())), PeersIn(v6, Files()), Revoked(call))
      ensures old(Named(Files())) ==> Named(Files())
    {
      hide Journal.Valid, Obeys, After, WorldOk, Kept, PeersIn, Passes, Conserved, Paired, Last, IssuedTo, Has,
        Named, ValidMutation;
      ghost var w := Files();
      ConservedSame(PeersIn(v6, w), Revoked(call));
      match call {
        case Mutating(op, parameters, m, fails) =>
          if IsMutation(m.action) && PairedNow(m.connection, m.instance, m.publicKey) {
            PairedIs(m.connection, m.instance, m.publicKey);
            var r := Mutate(op, parameters, m, false, fails);
            NamedAfter(w, m, Files());
            MutationSafe(v6, w, m, Files());
          }
        case Creating(op, parameters, c, keyPair) =>
          if keyPair.Some? ==> NewKey(c.instance, keyPair.value.1) {
            var r := CreateConnection(op, parameters, c, keyPair);
            CreationSafe(v6, w, c, keyPair, Files());
            NamedIssued(v6, w, Files(), c, keyPair);
          }
        case Projecting(op, parameters, inputs) =>
          var r := ProjectPolicies(op, parameters, inputs);
        case Enforcing(now, minute, readings, failing) =>
          if DistinctNow() {
            forall p | p in policies ensures Paired(PeersIn(v6, w), p.connection, p.instance, p.publicKey) {
              PairedIs(p.connection, p.instance, p.publicKey);
            }
            var r;
            ghost var overwritten;
            r, overwritten := Enforce(now, minute, readings, failing);
          }
      }
    }

    /**
     * Any calls in any order, each of which may fail or die at any step: the peers of every instance always differ in
     * keys and addresses, and no peer is ever lost but those that were revoked.
     */
    method Run(calls: seq<Call>)
      requires Valid() && local == IDLE && Kept(PeersIn(v6, Files()))
      modifies this`local, this`trace, this`configs, this`suspended, this`policies, this`instances, log`records,
        log`history
      ensures Valid() && local == IDLE && Kept(PeersIn(v6, Files()))
      ensures Conserved(old(PeersIn(v6, Files())), PeersIn(v6, Files()), RevokedBy(calls))
      ensures old(Named(Files())) ==> Named(Files())
    {
      hide Journal.Valid, Obeys, After, WorldOk, Kept, PeersIn, Conserved, Revoked, Named;
      ghost var start := PeersIn(v6, Files());
      ConservedSame(start, RevokedBy(calls[..0]));
      for k := 0 to |calls|
        invariant Valid() && local == IDLE && Kept(PeersIn(v6, Files())) && (old(Named(Files())) ==> Named(Files()))
        invariant Conserved(start, PeersIn(v6, Files()), RevokedBy(calls[..k]))
      {
        ghost var before := PeersIn(v6, Files());
        Serve(calls[k]);
        ConservedTransitive(start, before, PeersIn(v6, Files()), RevokedBy(calls[..k]), Revoked(calls[k]));
        assert calls[..k + 1][..k] == calls[..k];
      }
      assert calls[..|calls|] == calls;
    }
  }

  /** A call to the helper, or its enforcement timer. */
  datatype Call =
    | Mutating(op: string, parameters: string, m: Mutation, fails: set<Stage>)
    | Creating(op: string, parameters: string, c: Creation, keyPair: Option<(string, string)>)
    | Projecting(op: string, parameters: string, inputs: seq<PolicyInput>)
    | Enforcing(now: int, minute: string, readings: map<string, Readings>, failing: Fails)

  /** The peer a call may take. */
  ghost function Revoked(call: Call): iset<(string, string)> {
    if call.Mutating? && call.m.action.Revoke? then iset{(call.m.instance, call.m.publicKey)} else iset{}
  }

  ghost function RevokedBy(calls: seq<Call>): iset<(string, string)> {
    if calls == [] then iset{} else RevokedBy(calls[..|calls| - 1]) + Revoked(calls[|calls| - 1])
  }

  lemma ConservedSame(p: Peers, gone: iset<(string, string)>)
    ensures Conserved(p, p, gone)
  {
    hide Has;
  }

  lemma ConservedMore(p: Peers, q: Peers, gone: iset<(string, string)>, more: iset<(string, string)>)
    requires Conserved(p, q, gone) && gone <= more
    ensures Conserved(p, q, more)
  {
    hide Has;
  }

  lemma MutationSafe(v6: string -> bool, w: World, m: Mutation, now: World)
    requires WorldOk(w) && Passes(w, m, now) && Kept(PeersIn(v6, w))
      && Paired(PeersIn(v6, w), m.connection, m.instance, m.publicKey)
    ensures Kept(PeersIn(v6, now))
    ensures Conserved(PeersIn(v6, w), PeersIn(v6, now),
      if m.action.Revoke? then iset{(m.instance, m.publicKey)} else iset{})
  {
    hide Kept, PeersIn, Passes, Paired, WorldOk, Gone, Conserved;
    PairedOverwritesItself(v6, w, m);
    MutationConserves(v6, w, m, now);
    MutationKeeps(v6, w, m, now);
    GoneIsOne(v6, w, m);
    var taken: iset<(string, string)> := if m.action.Revoke? then iset{(m.instance, m.publicKey)} else iset{};
    ConservedMore(PeersIn(v6, w), PeersIn(v6, now), Gone(w, m), taken);
  }

  lemma CreationSafe(v6: string -> bool, w: World, c: Creation, keyPair: Option<(string, string)>, now: World)
    requires WorldOk(w) && IssuedOrSame(v6, w, now, c, keyPair) && Kept(PeersIn(v6, w))
    requires keyPair.Some? ==> Clip(keyPair.value.1) == keyPair.value.1 && FreshKey(w, c.instance, keyPair.value.1)
    ensures Kept(PeersIn(v6, now)) && Conserved(PeersIn(v6, w), PeersIn(v6, now), iset{})
  {
    hide Kept, PeersIn, Issues, Conserved, Clip, WorldOk, FreshKey;
    ConservedSame(PeersIn(v6, w), iset{});
    if now != w {
      var n :| Issues(v6, w, c, keyPair.value.1, n, now);
      IssuedSafely(v6, w, c, keyPair.value.1, n, now);
    }
  }

  /** What a pass started from, and whether its peers are in order and it is exact. */
  datatype PassOf = PassOf(sc: Scene, fails: Fails, all: seq<Policy>, inPlace: bool, exact: bool)

  /** How a pass ends: it died, it could not lock, read or save, or it went through every policy. */
  datatype Pass = PassDied | PassFailed | Finished(checked: int, count: Tally)

  /** No entry without a key is ever put aside. */
  lemma NamedAfter(w: World, m: Mutation, now: World)
    requires Passes(w, m, now) && (!ValidMutation(m) ==> now == w)
    ensures Named(w) ==> Named(now)
  {
    if now != w && Named(w) {
      hide Passes, ValidMutation;
      KeyNamed(m);
      if m.action.Disable? {
        PassesSuspended(w, m, now);
      } else {
        PassesFewer(w, m, now);
      }
    }
  }

  lemma PassesFewer(w: World, m: Mutation, now: World)
    requires Passes(w, m, now) && !m.action.Disable?
    ensures forall c :: c in now.suspended ==> c in w.suspended && now.suspended[c] == w.suspended[c]
  {
    hide Possible, EditedText;
  }

  lemma KeyNamed(m: Mutation)
    requires ValidMutation(m)
    ensures m.publicKey != []
  {
    hide SafeId;
  }

  lemma NamedIssued(v6: string -> bool, w: World, now: World, c: Creation, keyPair: Option<(string, string)>)
    requires IssuedOrSame(v6, w, now, c, keyPair)
    ensures Named(w) ==> Named(now)
  {
    hide Parses, Parsed, Given, IssuedText, Holds;
  }

  /** Peers apart, each connection and peer with one policy, and ids paired with what is put aside. */
  ghost predicate InPlace(v6: string -> bool, w: World, policies: seq<Policy>) {
    Kept(PeersIn(v6, w)) && AllPaired(v6, w, policies) && Distinct(policies)
  }

  /** The same, and no id of this minute is used before. */
  ghost predicate Undisturbed(v6: string -> bool, w: World, policies: seq<Policy>, records: seq<Record>,
    minute: string)
  {
    InPlace(v6, w, policies) && Fresh(records, policies, minute)
  }

  lemma InPlaceDistinct(v6: string -> bool, w: World, policies: seq<Policy>)
    ensures InPlace(v6, w, policies) ==> Distinct(policies)
  {
    hide Kept, PeersIn, AllPaired, Distinct;
  }

  lemma InPlaceStart(v6: string -> bool, w: World, policies: seq<Policy>)
    ensures InPlace(v6, w, policies) ==>
      Kept(PeersIn(v6, w)) && Conserved(PeersIn(v6, w), PeersIn(v6, w), iset{})
  {
    hide Kept, PeersIn, AllPaired, Distinct, Conserved;
    ConservedSame(PeersIn(v6, w), iset{});
  }

  lemma NotDisabled(fails: set<Stage>, m: Mutation, w: World, policies: seq<Policy>, instances: map<string, Instance>)
    ensures Disabled(fails, m, false, w, w, policies, policies, instances, instances)
  {
  }

  lemma NotCounted(sc: Scene, p: Policy, fails: set<Stage>)
    requires !Counted(sc, p, fails)
    ensures Enforced(sc, p, fails, false) == p
    ensures !(Cuts(sc, p) && AtLookup !in fails && AtStatistics !in fails)
    ensures CheckedAs(sc, p, fails, false) == if p.status.Active? then Missed else Spared
  {
    hide Account, Reason, Holds, Parses, Parsed, ValidMutation, SafeId, EnforceId;
  }

  /** A due policy's disable fits exactly if the pass can cut its peer off. */
  lemma CutsFits(v6: string -> bool, sc: Scene, p: Policy)
    requires WorldOk(sc.files) && Kept(PeersIn(v6, sc.files))
    requires Counted(sc, p, NONE) && Reason(Account(p, sc.readings[p.instance]), sc.now).Some?
    ensures var m := DisableFor(p, Recorded(sc.instances, p.instance));
      && (Cuts(sc, p) <==> ValidMutation(m) && Fits(sc.instances, sc.files, EnforceId(p.connection, sc.minute), m))
      && !Unverified(sc.files, m) && (Cuts(sc, p) ==> Possible(sc.files, m))
  {
    hide WorldOk, Kept, PeersIn, Parses, Parsed, Holds, Possible, Verifies, Account, Reason, SafeId, EnforceId;
    var m := DisableFor(p, Recorded(sc.instances, p.instance));
    assert ValidMutation(m) <==> ValidMutation(DisableFor(p, ""));
    if p.instance in sc.files.configs ==> m.expected == sc.files.configs[p.instance] {
      DisableAccepted(v6, sc.files, m);
    }
  }

  lemma FreshFirst(records: seq<Record>, all: seq<Policy>, k: nat, minute: string)
    requires k < |all| && Fresh(records, all[k..], minute)
    ensures Last(records, EnforceId(all[k].connection, minute)).None?
  {
    hide Last, EnforceId;
    assert all[k..][0] == all[k] && all[k] in all[k..];
  }

  /** With one failing step of one policy, its own call is as it would have been. */
  lemma OneFailing(sc: Scene, all: seq<Policy>, k: nat, at: Stage)
    requires Distinct(all) && k < |all| && Cuts(sc, all[k])
    requires at == AtInstanceWrite || at == AtSuccessRecord
    ensures GoesAt(sc, map[all[k].connection := {at}], all, k)
  {
    hide Cuts, StaleAfter;
    OthersStamp(sc, all, k, k, at);
  }

  lemma {:induction false} OthersStamp(sc: Scene, all: seq<Policy>, k: nat, n: nat, at: Stage)
    requires Distinct(all) && n <= k < |all|
    ensures StaleAfter(sc, map[all[k].connection := {at}], all[..n]) == {}
  {
    hide Cuts, GoesAt;
    if n > 0 {
      OthersStamp(sc, all, k, n - 1, at);
      assert all[..n][..n - 1] == all[..n - 1];
      assert all[n - 1].connection != all[k].connection;
    }
  }

  lemma InOrderFacts(v6: string -> bool, before: World, now: World, rest: seq<Policy>)
    ensures InOrder(v6, before, now, rest) ==>
      Kept(PeersIn(v6, now)) && Conserved(PeersIn(v6, before), PeersIn(v6, now), iset{})
  {
    hide Kept, PeersIn, Conserved;
  }

  lemma SameStamps(instances: map<string, Instance>)
    ensures SameButStamps(instances, instances)
  {
  }

  lemma StampedSame(instances: map<string, Instance>, i: string, fingerprint: string)
    ensures SameButStamps(instances, Stamped(instances, i, fingerprint)) && SameButStamps(instances, instances)
  {
  }

  function Recorded(instances: map<string, Instance>, i: string): string {
    if i in instances then instances[i].fingerprint else ""
  }

  function Parameters(m: Mutation): string {
    m.instance + " " + m.expected + " " + m.connection + " " + m.publicKey
  }

  lemma CreationSizes(v6: string -> bool, v6Host: string -> bool, c: Creation)
    ensures ValidCreation(v6, v6Host, c) ==> 1 <= |c.name| <= 120 && 1 <= |c.connection| <= 128
  {
    hide CanonicalCidr, ClientConfig.ValidHost, NoBreak;
  }

  lemma InputSizes(inputs: seq<PolicyInput>)
    ensures forall i :: i in inputs && ValidInput(i) ==>
      1 <= |i.connection| <= 128 && 1 <= |i.instance| <= 128 && |i.publicKey| == 44 && 1 <= |i.epoch| <= 160
  {
  }

  predicate Buildable(server: ClientConfig.Server) {
    server.udpPort >= 1 && ClientConfig.ValidKey(server.publicKey)
  }

  ghost predicate HasAddress(v6: string -> bool, w: World, c: Creation) {
    exists n :: Given(v6, w, c, n)
  }

  predicate Writable(server: ClientConfig.Server, c: Creation, keyPair: Option<(string, string)>) {
    && keyPair.Some? && FindPeer(Parsed(c.expected).sections, keyPair.value.1).None? && NoBreak(keyPair.value.1)
    && Buildable(server)
  }

  /** An address to give, a new key, and a server a client can be configured for. */
  ghost predicate Suits(v6: string -> bool, w: World, server: ClientConfig.Server, c: Creation,
    keyPair: Option<(string, string)>)
  {
    HasAddress(v6, w, c) && Writable(server, c, keyPair)
  }

  /** The instance may create, and its configuration is the expected one. */
  predicate Ready(w: World, instances: map<string, Instance>, c: Creation) {
    && c.instance in instances && instances[c.instance].canCreate
    && c.instance in w.configs && w.configs[c.instance] == c.expected && Parses(c.expected)
  }

  /** Everything a creation needs; the key must also read as it is written. */
  ghost predicate Issuable(v6: string -> bool, op: string, w: World, instances: map<string, Instance>, c: Creation,
    keyPair: Option<(string, string)>)
  {
    && SafeId(op) && Ready(w, instances, c)
    && Suits(v6, w, instances[c.instance].server, c, keyPair) && Clip(keyPair.value.1) == keyPair.value.1
  }

  /** The runtime finds the new key in the new configuration exactly if it reads as it is written. */
  lemma IssuedHolds(c: Creation, key: string, n: uint64, updated: string)
    requires Parses(c.expected) && FindPeer(Parsed(c.expected).sections, key).None? && NoBreak(key) && n < SPACE_END
    requires NoBreak(c.name) && updated == IssuedText(c.expected, key, n, c.name)
    ensures Holds(Parsed(updated).sections, key) <==> Clip(key) == key
  {
    hide Parses, Parsed, PrintDoc, Added, Holds, FindPeer, AddressText, Clip;
    ClipAddress(n);
    FindPeerHolds(Parsed(c.expected).sections, key);
    AddedKeys(c.expected, key, AddressText(n), c.name, key);
  }

  lemma FreeIsLeft(p: Pool, n: uint64)
    requires Free(p, n)
    ensures !Exhausted(p)
  {
  }

  lemma AssignedBelow(v6: string -> bool, reserved: seq<Section>, c: Creation, n: uint64)
    requires Assigned(v6, reserved, c, n)
    ensures n < SPACE_END
  {
  }

  /** What an operation asks of the instance's record and of the files. */
  ghost predicate Fits(instances: map<string, Instance>, w: World, op: string, m: Mutation) {
    m.instance in instances && instances[m.instance].canSuspend && SafeId(op) && Accepts(w, m)
  }

  lemma FitsPossible(instances: map<string, Instance>, w: World, op: string, m: Mutation)
    ensures Fits(instances, w, op, m) ==> Possible(w, m)
  {
    hide Possible, SafeId, Applied, Verifies;
  }

  /** The files are untouched, or hold the new peer. */
  ghost predicate IssuedOrSame(v6: string -> bool, w: World, now: World, c: Creation,
    keyPair: Option<(string, string)>)
  {
    now == w || (keyPair.Some? && exists n :: Issues(v6, w, c, keyPair.value.1, n, now))
  }

  /** They hold it, and the answer is the client's side of it. */
  ghost predicate IssuedTo(v6: string -> bool, w: World, now: World, c: Creation, keyPair: Option<(string, string)>,
    instances: map<string, Instance>, address: string, config: string)
  {
    && keyPair.Some? && c.instance in instances
    && ClientFor(instances[c.instance].server, keyPair.value.0, address, c.host, config)
    && exists n :: n < SPACE_END && address == AddressText(n) && Issues(v6, w, c, keyPair.value.1, n, now)
  }

  lemma SameIsSame(v6: string -> bool, w: World, c: Creation, keyPair: Option<(string, string)>)
    ensures IssuedOrSame(v6, w, w, c, keyPair)
  {
  }

  lemma IssuedFacts(v6: string -> bool, w: World, now: World, c: Creation, keyPair: Option<(string, string)>,
    instances: map<string, Instance>, address: string, config: string, n: uint64)
    requires WorldOk(w) && keyPair.Some? && n < SPACE_END && address == AddressText(n)
      && Issues(v6, w, c, keyPair.value.1, n, now)
    requires c.instance in instances
      && ClientFor(instances[c.instance].server, keyPair.value.0, address, c.host, config)
    ensures WorldOk(now) && IssuedOrSame(v6, w, now, c, keyPair)
      && IssuedTo(v6, w, now, c, keyPair, instances, address, config)
  {
    hide StoredOk, Parses, Parsed, Holds, ClientFor, AddressText;
  }

  /** The client's configuration is the one the helper writes for this key, address and host. */
  ghost predicate ClientFor(server: ClientConfig.Server, privateKey: string, address: string, host: string,
    text: string)
  {
    exists keys :: ClientConfig.SortedKeys(keys, server) &&
      text == ClientConfig.ClientText(server, keys, privateKey, address, ClientConfig.HostPort(host, server.udpPort))
  }

  lemma ClientWritten(server: ClientConfig.Server, keys: seq<string>, privateKey: string, address: string, host: string)
    requires ClientConfig.SortedKeys(keys, server)
    ensures ClientFor(server, privateKey, address, host,
      ClientConfig.ClientText(server, keys, privateKey, address, ClientConfig.HostPort(host, server.udpPort)))
  {
    hide ClientConfig.ClientText, ClientConfig.HostPort;
  }

  lemma LeastIsFree(p: Pool, n: uint64)
    requires LeastFree(p, n)
    ensures Free(p, n)
  {
  }

  /** The policies follow a change, once it is complete in the other files. */
  ghost predicate Followed(m: Mutation, w: World, now: World, policies: seq<Policy>, policiesNow: seq<Policy>) {
    Possible(w, m) && now == Final(w, m) && policiesNow == PoliciesAfter(m, policies)
  }

  /** The change is complete in every file. */
  ghost predicate Completed(m: Mutation, w: World, now: World, policies: seq<Policy>, policiesNow: seq<Policy>,
    instances: map<string, Instance>, instancesNow: map<string, Instance>, fingerprint: string)
  {
    && Possible(w, m) && w.configs[m.instance] == m.expected
    && now == Final(w, m)
    && policiesNow == PoliciesAfter(m, policies) && PolicyChange(m, policies, policiesNow)
    && fingerprint == EditedText(w, m) && instancesNow == Stamped(instances, m.instance, fingerprint)
  }

  /**
   * The runtime would refuse the new configuration: it still names a peer that should be gone, or does not name one
   * that should be there.
   */
  predicate Unverified(w: World, m: Mutation) {
    Possible(w, m) && w.configs[m.instance] == m.expected && Applied(w, m) && !Verifies(w, m)
  }

  lemma PassesSelf(w: World, m: Mutation)
    ensures Passes(w, m, w)
  {
  }

  lemma DecideExecutes(latest: Option<Record>, action: Action, parameters: string)
    ensures Decide(latest, action, parameters).Execute? <==> latest.None?
  {
  }

  lemma FreshKept(records: seq<Record>, r: Record)
    ensures forall o :: o != r.op && Last(records, o).None? ==> Last(Suffix(records + [r], KEPT), o).None?
  {
    hide Last;
    var next := Suffix(records + [r], KEPT);
    forall o | o != r.op && Last(records, o).None? ensures Last(next, o).None? {
      LastNone(records, o);
      LastNone(next, o);
      assert forall x :: x in next ==> x in records + [r];
    }
  }

  lemma FreshKeptBegin(records: seq<Record>, r: Record)
    ensures forall o :: o != r.op && Last(records, o).None? ==> Last(records + [r], o).None?
  {
    hide Last;
    forall o | o != r.op && Last(records, o).None? ensures Last(records + [r], o).None? {
      LastNone(records, o);
      LastNone(records + [r], o);
    }
  }

  lemma PassesOk(w: World, m: Mutation, now: World)
    requires WorldOk(w) && Possible(w, m)
    requires || now == w || now == Final(w, m)
             || (m.action.Disable? && (now == WithStored(w, m) || now == WithoutStored(w, m.connection)))
             || (!m.action.Disable? && now == WithText(w, m, EditedText(w, m)))
    ensures Passes(w, m, now) && WorldOk(now)
  {
    hide Possible, WorldOk, Final;
    MutationOk(w, m, now);
  }


  lemma FoundInside(sections: seq<Section>, key: string)
    ensures FindPeer(sections, key).Some? ==> FindPeer(sections, key).value < |sections|
  {
    hide HasKey, FindPeer;
    FindPeerIs(sections, key);
  }
}
