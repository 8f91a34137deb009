/**
 * The relay's transaction engine: a write-ahead journal around every mutation of the configuration,
 * the unit, the route list and the service. A process may die before any step; a step may fail.
 */
module RelayEngine {
  import opened Text
  import opened RelayRoutes
  import opened RelayTable

  datatype Snapshot = Snapshot(
    config: File<string>, unit: File<UnitText>, routes: File<RoutesText>, active: bool, enabled: bool)
  {
    predicate Installed() {
      unit.Present? && config.Present?
    }
  }

  function FingerprintOf(s: Snapshot): Fingerprint {
    Fingerprint(s.config, s.unit, s.routes)
  }

  datatype Status = Status(installed: bool, active: bool, fingerprint: Fingerprint, routes: seq<Route>)

  datatype JournalState = Pending | Succeeded | Failed

  /** The request is stored by its digest; the digest is taken to be injective. */
  datatype Journal = Journal(
    action: Action, params: Params, state: JournalState, before: Snapshot, result: Option<Status>, error: Code)

  /** One step of the process: it took effect, it failed without effect, or the process died before it. */
  datatype Step = Done | Failing | Crashed

  datatype Outcome = Died | Reply(status: Status) | Failure(code: Code)

  /** An operation that was recorded as succeeded, with the list and the files it left behind. */
  datatype Commit = Commit(op: string, action: Action, params: Params, routes: seq<Route>, fingerprint: Fingerprint)

  // What the commits say about the host ------------------------------------------------------------

  ghost function Replay(commits: seq<Commit>): Table {
    if commits == [] then map[]
    else
      var last := commits[|commits| - 1];
      TableStep(last.action, last.params, Replay(commits[..|commits| - 1]))
  }

  /** The host is as the last commit left it: nothing but the relay has edited its files. */
  ghost predicate Managed(s: Snapshot, commits: seq<Commit>) {
    && StoredRoutes(s.routes).Some?
    && var routes := StoredRoutes(s.routes).value;
    && WellFormed(routes)
    && TableOf(routes) == Replay(commits)
    && (commits != [] ==>
         && routes == commits[|commits| - 1].routes && s.routes == Present(Encoded(routes))
         && FingerprintOf(s) == commits[|commits| - 1].fingerprint)
    && if commits == [] || commits[|commits| - 1].action.Uninstall?
       then s.config.Absent? && s.unit.Absent? && routes == []
       else s.config == Present(Render(routes).value) && s.unit == Present(ServiceUnit)
  }

  ghost predicate Distinct(ops: seq<string>) {
    forall i, j :: 0 <= i < j < |ops| ==> ops[i] != ops[j]
  }

  /** A journal directory after some recovery: pending entries may have become rolled back, nothing else. */
  ghost predicate RolledBack(before: map<string, Journal>, after: map<string, Journal>) {
    && after.Keys == before.Keys
    && forall op :: op in before ==>
         after[op] == before[op] ||
         (before[op].state.Pending? && after[op] == before[op].(state := Failed, error := Interrupted))
  }

  /** No entry is pending. */
  predicate Quiet(journal: map<string, Journal>) {
    forall p :: p in journal ==> !journal[p].state.Pending?
  }

  /** At most one entry is pending, and it holds the settled host. */
  ghost predicate OnePending(journal: map<string, Journal>, settled: Snapshot) {
    && (forall p, q :: p in journal && q in journal && journal[p].state.Pending? && journal[q].state.Pending? ==>
      p == q)
    && (forall p :: p in journal && journal[p].state.Pending? ==> journal[p].before == settled)
  }

  ghost predicate Committed(commits: seq<Commit>, op: string) {
    exists i :: 0 <= i < |commits| && commits[i].op == op
  }

  ghost predicate Recorded(journal: map<string, Journal>, c: Commit) {
    && c.op in journal
    && var j := journal[c.op];
    && j.state.Succeeded? && j.action == c.action && j.params == c.params
    && j.result.Some? && j.result.value.routes == c.routes && j.result.value.fingerprint == c.fingerprint
    && StoredRoutes(j.result.value.fingerprint.routes) == Some(c.routes)
    && WellFormed(c.routes)
  }

  ghost predicate ProperEntry(op: string, j: Journal, commits: seq<Commit>) {
    && !j.action.StatusQuery?
    && ValidRequest(Request(j.action, op, j.params))
    && (j.state.Failed? ==> j.error in {ApplyFailed, Interrupted})
    && (j.state.Succeeded? <==> Committed(commits, op))
  }

  /** The journal, the commits and the operations applied agree: each operation applies and commits at most once. */
  ghost predicate Ledger(journal: map<string, Journal>, commits: seq<Commit>, applied: seq<string>) {
    && Distinct(applied)
    && (forall op :: op in journal <==> op in applied)
    && (forall op :: op in journal ==> ProperEntry(op, journal[op], commits))
    && (forall i, j :: 0 <= i < j < |commits| ==> commits[i].op != commits[j].op)
    && (forall i :: 0 <= i < |commits| ==> Recorded(journal, commits[i]))
  }

  lemma LedgerBegin(journal: map<string, Journal>, commits: seq<Commit>, applied: seq<string>, op: string, j: Journal)
    requires Ledger(journal, commits, applied) && op !in journal
    requires j.state.Pending? && !j.action.StatusQuery? && ValidRequest(Request(j.action, op, j.params))
    ensures Ledger(journal[op := j], commits, applied + [op])
  {
    forall i | 0 <= i < |commits| ensures commits[i].op != op {
      assert Recorded(journal, commits[i]);
    }
    var next := journal[op := j];
    forall i | 0 <= i < |commits| ensures Recorded(next, commits[i]) {
      assert Recorded(journal, commits[i]);
    }
    forall p | p in next ensures ProperEntry(p, next[p], commits) {
      if p != op { assert ProperEntry(p, journal[p], commits); }
    }
  }

  lemma LedgerFail(journal: map<string, Journal>, commits: seq<Commit>, applied: seq<string>, op: string, error: Code)
    requires Ledger(journal, commits, applied) && op in journal && journal[op].state.Pending?
    requires error in {ApplyFailed, Interrupted}
    ensures Ledger(journal[op := journal[op].(state := Failed, error := error)], commits, applied)
  {
    var next := journal[op := journal[op].(state := Failed, error := error)];
    assert ProperEntry(op, journal[op], commits);
    forall i | 0 <= i < |commits| ensures Recorded(next, commits[i]) {
      assert Recorded(journal, commits[i]);
    }
    forall p | p in next ensures ProperEntry(p, next[p], commits) {
      assert ProperEntry(p, journal[p], commits);
    }
  }

  lemma LedgerCommit(journal: map<string, Journal>, commits: seq<Commit>, applied: seq<string>, op: string,
    result: Status)
    requires Ledger(journal, commits, applied) && op in journal && journal[op].state.Pending?
    requires StoredRoutes(result.fingerprint.routes) == Some(result.routes) && WellFormed(result.routes)
    ensures Ledger(
      journal[op := journal[op].(state := Succeeded, result := Some(result))],
      commits + [Commit(op, journal[op].action, journal[op].params, result.routes, result.fingerprint)], applied)
  {
    var j := journal[op];
    var next := journal[op := j.(state := Succeeded, result := Some(result))];
    var more := commits + [Commit(op, j.action, j.params, result.routes, result.fingerprint)];
    assert ProperEntry(op, j, commits);
    forall i | 0 <= i < |more| ensures Recorded(next, more[i]) {
      if i < |commits| {
        assert Recorded(journal, commits[i]);
        assert Committed(commits, commits[i].op);
      }
    }
    forall p | p in next ensures ProperEntry(p, next[p], more) {
      assert ProperEntry(p, journal[p], commits);
      if p == op { assert more[|commits|].op == op; }
      if Committed(commits, p) {
        var i :| 0 <= i < |commits| && commits[i].op == p;
        assert more[i].op == p;
      }
    }
  }

  predicate Definite(code: Code) {
    code !in {StateFailed, RollbackFailed}
  }

  /** What status reports about a captured host, if its route list can be read and rendered. */
  function StatusOf(s: Snapshot, verified: bool): Option<Status> {
    var stored := StoredRoutes(s.routes);
    if stored.None? || !WellFormed(stored.value) then None
    else Some(Status(s.Installed(), s.active && verified, FingerprintOf(s), stored.value))
  }

  /** The files after an operation left this list. */
  ghost predicate Installed(s: Snapshot, action: Action, routes: seq<Route>) {
    && s.routes == Present(Encoded(routes))
    && s.config == (if action.Uninstall? || Render(routes).None? then Absent else Present(Render(routes).value))
    && s.unit == (if action.Uninstall? then Absent else Present(ServiceUnit))
    && s.active == !action.Uninstall?
  }

  /** What the answer says of the service: after an install or a change it has been seen running from its files. */
  predicate Reports(status: Status, action: Action) {
    status.installed == !action.Uninstall? && (!action.Uninstall? ==> status.active)
  }

  /** A host on which a request is carried out when nothing goes wrong. */
  ghost predicate Acceptable(s: Snapshot, request: Request) {
    && Some(FingerprintOf(s)) == request.params.expected
    && StoredRoutes(s.routes).Some? && WellFormed(StoredRoutes(s.routes).value)
    && (request.action in {Apply, Disable, Remove} ==> s.Installed())
    && Target(request.action, request.params, StoredRoutes(s.routes).value).Ok?
    && WellFormed(Target(request.action, request.params, StoredRoutes(s.routes).value).value)
  }

  /** Rolling back writes everything of a snapshot; only an active service without its files stays down. */
  function Restored(before: Snapshot): Snapshot {
    before.(active := before.active && before.Installed())
  }

  lemma RestoresExactly(before: Snapshot)
    ensures Restored(before) == before <==> (before.active ==> before.Installed())
  {
  }

  /** A change written over a managed host leaves a managed host with one more commit. */
  lemma ManagedStep(before: Snapshot, after: Snapshot, commits: seq<Commit>, c: Commit)
    requires Managed(before, commits)
    requires Target(c.action, c.params, StoredRoutes(before.routes).value) == Ok(c.routes) && WellFormed(c.routes)
    requires after.routes == Present(Encoded(c.routes)) && FingerprintOf(after) == c.fingerprint
    requires after.config == if c.action.Uninstall? then Absent else Present(Render(c.routes).value)
    requires after.unit == if c.action.Uninstall? then Absent else Present(ServiceUnit)
    ensures Managed(after, commits + [c])
  {
    hide Replay, WellFormed, Render, TableStep, TableOf;
    TargetTable(c.action, c.params, StoredRoutes(before.routes).value);
    ReplaySnoc(commits, c);
  }

  lemma ReplaySnoc(commits: seq<Commit>, c: Commit)
    ensures Replay(commits + [c]) == TableStep(c.action, c.params, Replay(commits))
  {
    hide TableStep;
    var more := commits + [c];
    assert more[..|more| - 1] == commits;
  }

  lemma ManagedStatus(s: Snapshot, commits: seq<Commit>, verified: bool)
    requires Managed(s, commits)
    ensures StatusOf(s, verified).Some?
  {
  }

  ghost predicate Requested(requests: seq<Request>, c: Commit) {
    Request(c.action, c.op, c.params) in requests
  }

  lemma RolledBackFacts(before: map<string, Journal>, after: map<string, Journal>)
    requires RolledBack(before, after)
    ensures after.Keys == before.Keys
    ensures forall op :: op in before ==> after[op].action == before[op].action && after[op].params == before[op].params
    ensures forall op :: op in before && !before[op].state.Pending? ==> after[op] == before[op]
    ensures forall op :: op in before && after[op].state.Succeeded? ==> after[op] == before[op]
  {
  }

  lemma EntryFacts(journal: map<string, Journal>, commits: seq<Commit>, applied: seq<string>, op: string)
    requires Ledger(journal, commits, applied) && op in journal
    ensures journal[op].state.Failed? ==> journal[op].error in {ApplyFailed, Interrupted}
    ensures journal[op].state.Succeeded? ==> journal[op].result.Some?
  {
    assert ProperEntry(op, journal[op], commits);
    if journal[op].state.Succeeded? {
      var i :| 0 <= i < |commits| && commits[i].op == op;
      assert Recorded(journal, commits[i]);
    }
  }

  lemma RolledBackStep(first: map<string, Journal>, before: map<string, Journal>, path: string, after: map<string,
    Journal>)
    requires RolledBack(first, before) && path in before
    requires after == before || (before[path].state.Pending?
      && after == before[path := before[path].(state := Failed, error := Interrupted)])
    ensures RolledBack(first, after)
  {
  }

  class RelayService {
    // Owned files, the service, the journal directory, and whether another process holds the lock.
    var config: File<string>
    var unit: File<UnitText>
    var routes: File<RoutesText>
    var active: bool
    var enabled: bool
    var journal: map<string, Journal>
    var locked: bool
    // The environment: when false, no step fails and no process dies.
    var faults: bool

    // The host as of the last commit (or outside change while nothing was pending), the commits so far,
    // the operations that began to apply, and whether anything else edited the owned files.
    ghost var settled: Snapshot
    ghost var commits: seq<Commit>
    ghost var applied: seq<string>
    ghost var edited: bool

    ghost predicate Valid()
      reads this
    {
      && Ledger(journal, commits, applied)
      && OnePending(journal, settled)
      && (Quiet(journal) ==> Captured() == settled)
      && (settled.active ==> settled.Installed())
      && (!edited ==> Managed(settled, commits))
    }

    ghost function Captured(): Snapshot
      reads this
    {
      Snapshot(config, unit, routes, active, enabled)
    }

    /** A host on which the relay was never installed. */
    constructor (enabled: bool)
      ensures Valid() && !locked && Quiet(journal) && commits == [] && applied == [] && !edited && journal == map[]
    {
      config, unit, routes, active, this.enabled := Absent, Absent, Absent, false, enabled;
      journal, locked, faults := map[], false, true;
      settled := Snapshot(Absent, Absent, Absent, false, enabled);
      commits, applied, edited := [], [], false;
    }

    // Steps ----------------------------------------------------------------------------------------

    /** A step that only reads, or writes outside the owned files. */
    method Attempt() returns (o: Step)
      ensures !faults ==> o.Done?
    {
      o := *;
      if !faults { o := Done; }
    }

    method WriteConfig(data: File<string>) returns (o: Step)
      modifies this`config
      ensures config == if o.Done? then data else old(config)
      ensures !faults ==> o.Done?
    {
      o := Attempt();
      if o.Done? { config := data; }
    }

    method WriteUnit(data: File<UnitText>) returns (o: Step)
      modifies this`unit
      ensures unit == if o.Done? then data else old(unit)
      ensures !faults ==> o.Done?
    {
      o := Attempt();
      if o.Done? { unit := data; }
    }

    method WriteRoutes(data: File<RoutesText>) returns (o: Step)
      modifies this`routes
      ensures routes == if o.Done? then data else old(routes)
      ensures !faults ==> o.Done?
    {
      o := Attempt();
      if o.Done? { routes := data; }
    }

    method SaveJournal(op: string, j: Journal) returns (o: Step)
      modifies this`journal
      ensures journal == if o.Done? then old(journal)[op := j] else old(journal)
      ensures !faults ==> o.Done?
    {
      o := Attempt();
      if o.Done? { journal := journal[op := j]; }
    }

    /** Starting enables and activates; stopping only guarantees that the service is down. */
    method Transition(installed: bool, previouslyActive: bool) returns (o: Step)
      modifies this`active, this`enabled
      ensures o.Done? ==> active == installed && (installed ==> enabled)
      ensures !faults ==> o.Done?
    {
      o := Attempt();
      active, enabled := *, *;
      if o.Done? {
        active := installed;
        if installed { enabled := true; }
      }
    }

    method SetEnabled(value: bool) returns (o: Step)
      modifies this`enabled
      ensures o.Done? ==> enabled == value
      ensures !faults ==> o.Done?
    {
      o := Attempt();
      enabled := *;
      if o.Done? { enabled := value; }
    }

    // Recovery -------------------------------------------------------------------------------------

    method Rollback(before: Snapshot) returns (o: Step)
      modifies this`config, this`unit, this`routes, this`active, this`enabled
      ensures o.Done? ==> Captured() == Restored(before)
      ensures !faults ==> o.Done?
    {
      o := Transition(false, false);
      if !o.Done? { return; }
      o := WriteConfig(before.config);
      if !o.Done? { return; }
      o := WriteUnit(before.unit);
      if !o.Done? { return; }
      o := WriteRoutes(before.routes);
      if !o.Done? { return; }
      o := Attempt();
      if !o.Done? { return; }
      if before.unit.Present? && before.config.Present? && before.active {
        o := Transition(true, false);
        if !o.Done? { return; }
      }
      o := SetEnabled(before.enabled);
    }

    /** One entry of the journal directory: if it is pending, go back to its snapshot and mark it. */
    method RecoverEntry(path: string) returns (o: Step)
      requires Valid() && path in journal
      modifies this`config, this`unit, this`routes, this`active, this`enabled, this`journal
      ensures Valid()
      ensures journal == old(journal) || (old(journal[path].state.Pending?)
        && journal == old(journal)[path := old(journal)[path].(state := Failed, error := Interrupted)])
      ensures o.Done? ==> !journal[path].state.Pending?
      ensures old(!journal[path].state.Pending?) ==> Captured() == old(Captured()) && journal == old(journal)
      ensures !faults ==> o.Done?
    {
      hide Managed, Ledger;
      o := Attempt();
      if !o.Done? { return; }
      var j := journal[path];
      if j.state.Pending? {
        o := Rollback(j.before);
        if !o.Done? { return; }
        LedgerFail(journal, commits, applied, path, Interrupted);
        o := SaveJournal(path, j.(state := Failed, error := Interrupted));
      }
    }

    /**
     * Roll back every pending entry, in whatever order the directory lists them. However often this is
     * interrupted, the snapshot to go back to survives; once it completes the host is exactly as settled.
     */
    method Recover() returns (o: Step)
      requires Valid()
      modifies this`config, this`unit, this`routes, this`active, this`enabled, this`journal
      ensures Valid()
      ensures o.Done? ==> Quiet(journal) && Captured() == settled
      ensures RolledBack(old(journal), journal)
      ensures old(Quiet(journal)) ==> Captured() == old(Captured()) && journal == old(journal)
      ensures !faults ==> o.Done?
    {
      hide Managed, Ledger, OnePending;
      var rest := journal.Keys;
      while rest != {}
        invariant Valid()
        invariant rest <= journal.Keys
        invariant forall p :: p in journal && p !in rest ==> !journal[p].state.Pending?
        invariant RolledBack(old(journal), journal)
        invariant old(Quiet(journal)) ==> Captured() == old(Captured()) && journal == old(journal)
        decreases |rest|
      {
        var path :| path in rest;
        rest := rest - {path};
        ghost var before := journal;
        o := RecoverEntry(path);
        RolledBackStep(old(journal), before, path, journal);
        if !o.Done? { return; }
      }
      o := Attempt();
    }

    /** capture and status; a read may fail, and so may the check of the listening sockets. */
    method ReadStatus() returns (o: Step, status: Option<Status>, verified: bool)
      ensures o.Done? ==> status == StatusOf(Captured(), verified) && (!faults ==> verified)
      ensures o.Done? && status.Some? ==> (status.value.active <==> active && verified)
      ensures !faults ==> o.Done?
    {
      o := Attempt();
      status := None;
      var check: bool := *;
      if !faults { check := true; }
      verified := check;
      if !o.Done? { return; }
      status := StatusOf(Snapshot(config, unit, routes, active, enabled), check);
    }

    // Mutation -------------------------------------------------------------------------------------

    /** The change itself, after the journal entry is written: files, then the service. */
    method Change(op: string, installed: bool, configText: string, next: seq<Route>, wasActive: bool) returns (o: Step)
      requires Valid() && op in journal && journal[op].state.Pending?
      modifies this`config, this`unit, this`routes, this`active, this`enabled
      ensures Valid()
      ensures o.Done? ==>
        && config == (if installed then Present(configText) else Absent)
        && unit == (if installed then Present(ServiceUnit) else Absent)
        && routes == Present(Encoded(next))
        && active == installed
      ensures !faults ==> o.Done?
    {
      hide Managed, Ledger;
      assert !Quiet(journal);
      if !installed {
        o := Transition(false, false);
        if !o.Done? { return; }
        o := WriteConfig(Absent);
        if !o.Done? { return; }
        o := WriteUnit(Absent);
        if !o.Done? { return; }
      } else {
        o := Attempt();
        if !o.Done? { return; }
        o := WriteConfig(Present(configText));
        if !o.Done? { return; }
        o := WriteUnit(Present(ServiceUnit));
        if !o.Done? { return; }
      }
      o := WriteRoutes(Present(Encoded(next)));
      if !o.Done? { return; }
      if installed {
        o := Transition(true, wasActive);
      } else {
        o := Attempt();
      }
    }

    /** The entry that makes a change recoverable. */
    method Begin(request: Request, before: Snapshot) returns (o: Step)
      requires Valid() && Quiet(journal) && before == Captured()
      requires request.op !in journal && ValidRequest(request) && !request.action.StatusQuery?
      modifies this`journal, this`applied
      ensures Valid()
      ensures o.Done? ==>
        && applied == old(applied) + [request.op]
        && journal ==
          old(journal)[request.op := Journal(request.action, request.params, Pending, settled, None, ApplyFailed)]
      ensures !o.Done? ==> applied == old(applied) && journal == old(journal)
      ensures !faults ==> o.Done?
    {
      hide Managed, Ledger;
      var j := Journal(request.action, request.params, Pending, before, None, ApplyFailed);
      LedgerBegin(journal, commits, applied, request.op, j);
      o := SaveJournal(request.op, j);
      if o.Done? { applied := applied + [request.op]; }
    }

    /** Undo a change that failed, and record the failure. */
    method Abort(op: string) returns (out: Outcome)
      requires Valid() && op in journal && journal[op].state.Pending?
      modifies this`config, this`unit, this`routes, this`active, this`enabled, this`journal
      ensures Valid()
      ensures out.Died? || out.Failure?
      ensures journal == old(journal)
        || journal == old(journal)[op := old(journal)[op].(state := Failed, error := ApplyFailed)]
      ensures out.Failure? && Definite(out.code) ==>
        out.code.ApplyFailed? && journal[op].state.Failed? && Quiet(journal)
      ensures out.Failure? ==> out.code in {ApplyFailed, StateFailed, RollbackFailed}
    {
      hide Managed, Ledger;
      var j := journal[op];
      var o := Rollback(j.before);
      if o.Crashed? { return Died; }
      if o.Failing? { return Failure(RollbackFailed); }
      LedgerFail(journal, commits, applied, op, ApplyFailed);
      o := SaveJournal(op, j.(state := Failed, error := ApplyFailed));
      if o.Crashed? { return Died; }
      if o.Failing? { return Failure(StateFailed); }
      return Failure(ApplyFailed);
    }

    /** The point of no return: the entry says succeeded, and the host is what status has just reported. */
    method Finish(op: string, result: Status, ghost target: seq<Route>) returns (o: Step)
      requires Valid() && op in journal && journal[op].state.Pending?
      requires result.routes == target && FingerprintOf(Captured()) == result.fingerprint
      requires routes == Present(Encoded(target)) && WellFormed(target)
      requires active ==> Captured().Installed()
      requires !edited ==>
        Managed(Captured(), commits + [Commit(op, journal[op].action, journal[op].params, target, result.fingerprint)])
      modifies this`journal, this`settled, this`commits
      ensures Valid()
      ensures o.Done? ==>
        && settled == Captured()
        && commits ==
          old(commits) + [Commit(op, old(journal)[op].action, old(journal)[op].params, target, result.fingerprint)]
        && journal == old(journal)[op := old(journal)[op].(state := Succeeded, result := Some(result))]
      ensures !o.Done? ==> settled == old(settled) && commits == old(commits) && journal == old(journal)
      ensures !faults ==> o.Done?
    {
      hide Managed, Ledger;
      var j := journal[op];
      LedgerCommit(journal, commits, applied, op, result);
      o := SaveJournal(op, j.(state := Succeeded, result := Some(result)));
      if o.Done? {
        settled := Captured();
        commits := commits + [Commit(op, j.action, j.params, target, result.fingerprint)];
      }
    }

    /** What is decided before anything is written: the new list and its configuration, or a refusal. */
    method Prepare(request: Request) returns (early: Option<Outcome>, configText: string, target: seq<Route>)
      requires ValidRequest(request) && !request.action.StatusQuery?
      // The caller has seen these three files: otherwise, and only otherwise, this is refused as a conflict.
      ensures request.params.expected != Some(Fingerprint(config, unit, routes)) ==> early.Some?
      ensures !faults ==>
        (early == Some(Failure(FingerprintConflict)) <==>
          request.params.expected != Some(Fingerprint(config, unit, routes)))
      ensures early.None? ==>
        && StoredRoutes(routes).Some?
        && Target(request.action, request.params, StoredRoutes(routes).value) == Ok(target)
        && WellFormed(target) && Render(target) == Some(configText)
      ensures early.Some? ==> !early.value.Reply?
      ensures early.Some? && early.value.Failure? ==>
        early.value.code in
        {StateFailed, FingerprintConflict, NotInstalled, RouteNotFound, RouteConflict, ValidationFailed}
      ensures !faults && early.Some? ==> early.value.Failure?
      ensures !faults ==> (early.None? <==> Acceptable(Captured(), request))
      ensures !faults && StatusOf(Captured(), true).Some? && early.Some? ==> Definite(early.value.code)
    {
      hide ValidRoute, UniqueIds, UniquePorts, RenderWith, Target;
      configText, target := "", [];
      var o := Attempt();
      if o.Crashed? { return Some(Died), configText, target; }
      if o.Failing? { return Some(Failure(StateFailed)), configText, target; }
      if FingerprintOf(Snapshot(config, unit, routes, active, enabled)) != request.params.expected.value {
        return Some(Failure(FingerprintConflict)), configText, target;
      }
      var current, verified;
      o, current, verified := ReadStatus();
      if o.Crashed? { return Some(Died), configText, target; }
      if o.Failing? || current.None? { return Some(Failure(StateFailed)), configText, target; }
      if request.action in {Apply, Disable, Remove} && !current.value.installed {
        return Some(Failure(NotInstalled)), configText, target;
      }
      var computed := ComputeTarget(request.action, request.params, current.value.routes);
      TargetError(request.action, request.params, current.value.routes);
      if computed.Err? { return Some(Failure(computed.error)), configText, target; }
      target := computed.value;
      var rendered := RenderConfig(NGINX, target);
      RenderAccepts(target);
      if rendered.None? { return Some(Failure(RouteConflict)), configText, target; }
      configText := rendered.value;
      if request.action != Uninstall {
        o := Attempt();
        if o.Crashed? { return Some(Died), configText, target; }
        if o.Failing? { return Some(Failure(StateFailed)), configText, target; }
        o := Attempt();
        if o.Crashed? { return Some(Died), configText, target; }
        if o.Failing? { return Some(Failure(ValidationFailed)), configText, target; }
      }
      return None, configText, target;
    }

    /** The status after a change must be what the change was for; then the host may be committed. */
    method Verify(request: Request, ghost before: Snapshot, installed: bool, configText: string, target: seq<Route>)
      returns (o: Step, result: Option<Status>)
      requires WellFormed(target) && Some(configText) == Render(target) && installed == (request.action != Uninstall)
      requires config == (if installed then Present(configText) else Absent)
      requires unit == (if installed then Present(ServiceUnit) else Absent)
      requires routes == Present(Encoded(target)) && active == installed
      requires !edited ==> Managed(before, commits)
      requires StoredRoutes(before.routes).Some?
      requires Target(request.action, request.params, StoredRoutes(before.routes).value) == Ok(target)
      ensures o.Done? && result.Some? ==>
        && result.value.routes == target && FingerprintOf(Captured()) == result.value.fingerprint
        && Installed(Captured(), request.action, target) && Captured().Installed() == installed
        && Reports(result.value, request.action)
        && (!edited ==>
          Managed(Captured(), commits +
            [Commit(request.op, request.action, request.params, target, result.value.fingerprint)]))
      ensures !faults ==> o.Done? && result.Some?
    {
      hide Managed, Target, WellFormed, Render;
      var verified;
      o, result, verified := ReadStatus();
      if !(o.Done? && result.Some? && result.value.installed == installed && (installed ==> result.value.active)) {
        result := None;
      } else if !edited {
        ManagedStep(before, Captured(), commits,
          Commit(request.op, request.action, request.params, target, result.value.fingerprint));
      }
    }

    /** Journal, change, verify, commit; or journal, change, roll back. */
    method Execute(request: Request, before: Snapshot, installed: bool, configText: string, target: seq<Route>)
      returns (out: Outcome)
      requires Valid() && Quiet(journal) && before == Captured() == settled
      requires ValidRequest(request) && !request.action.StatusQuery? && request.op !in journal
      requires StoredRoutes(settled.routes).Some?
      requires Target(request.action, request.params, StoredRoutes(settled.routes).value) == Ok(target)
      requires WellFormed(target) && Some(configText) == Render(target)
      requires installed == (request.action != Uninstall)
      modifies this`config, this`unit, this`routes, this`active, this`enabled, this`journal
      modifies this`settled, this`commits, this`applied
      ensures Valid()
      ensures !out.Reply? ==> commits == old(commits) && settled == old(settled)
      ensures out.Reply? ==>
        && out.status.routes == target
        && commits ==
          old(commits) + [Commit(request.op, request.action, request.params, target, out.status.fingerprint)]
        && settled == Captured() && FingerprintOf(settled) == out.status.fingerprint
        && Installed(settled, request.action, target) && Reports(out.status, request.action)
        && request.op in journal && journal[request.op].state.Succeeded?
        && journal[request.op].result == Some(out.status)
      ensures applied == old(applied) || applied == old(applied) + [request.op]
      ensures forall op :: op in old(journal) ==> op in journal && journal[op] == old(journal)[op]
      ensures forall op :: op in journal ==> op in old(journal) || op == request.op
      ensures request.op in journal ==>
        journal[request.op].action == request.action && journal[request.op].params == request.params
      ensures out.Failure? && Definite(out.code) ==>
        Quiet(journal) && (request.op in journal ==> journal[request.op].state.Failed?)
      ensures out.Failure? ==> out.code in {StateFailed, RollbackFailed, ApplyFailed}
      ensures !faults ==> out.Reply?
    {
      hide Ledger, Managed, OnePending, Target, WellFormed, Render, ValidRequest, Quiet, StatusOf;
      var o := Begin(request, before);
      if o.Crashed? { return Died; }
      if o.Failing? { return Failure(StateFailed); }
      o := Change(request.op, installed, configText, target, before.active);
      if o.Crashed? { return Died; }
      if o.Done? {
        var result;
        o, result := Verify(request, before, installed, configText, target);
        if o.Crashed? { return Died; }
        if o.Done? && result.Some? {
          o := Finish(request.op, result.value, target);
          if o.Crashed? { return Died; }
          if o.Done? { return Reply(result.value); }
        }
      }
      out := Abort(request.op);
    }

    /** A mutation under a new operation id, on a host that recovery has just brought back to settled. */
    method Mutate(request: Request) returns (out: Outcome)
      requires Valid() && Quiet(journal) && Captured() == settled
      requires ValidRequest(request) && !request.action.StatusQuery? && request.op !in journal
      modifies this`config, this`unit, this`routes, this`active, this`enabled, this`journal
      modifies this`settled, this`commits, this`applied
      ensures Valid()
      ensures !out.Reply? ==> commits == old(commits) && settled == old(settled)
      ensures out.Reply? ==>
        && request.params.expected == Some(Fingerprint(old(config), old(unit), old(routes)))
        && StoredRoutes(old(settled).routes).Some?
        && Target(request.action, request.params, StoredRoutes(old(settled).routes).value) == Ok(out.status.routes)
        && commits ==
          old(commits) + [Commit(request.op, request.action, request.params, out.status.routes, out.status.fingerprint)]
        && settled == Captured() && FingerprintOf(settled) == out.status.fingerprint
        && Installed(settled, request.action, out.status.routes) && Reports(out.status, request.action)
        && request.op in journal && journal[request.op].state.Succeeded?
        && journal[request.op].result == Some(out.status)
      ensures request.params.expected != Some(Fingerprint(old(config), old(unit), old(routes))) ==>
        !out.Reply? && Untouched()
      ensures !faults ==>
        (out == Failure(FingerprintConflict) <==>
          request.params.expected != Some(Fingerprint(old(config), old(unit), old(routes))))
      ensures applied == old(applied) || applied == old(applied) + [request.op]
      ensures forall op :: op in old(journal) ==> op in journal && journal[op] == old(journal)[op]
      ensures forall op :: op in journal ==> op in old(journal) || op == request.op
      ensures request.op in journal ==>
        journal[request.op].action == request.action && journal[request.op].params == request.params
      ensures out.Failure? && Definite(out.code) ==>
        Quiet(journal) && (request.op in journal ==> journal[request.op].state.Failed?)
      ensures out.Failure? ==> out.code !in {InvalidRequest, Busy, RecoveryRequired, IdempotencyConflict}
      ensures !faults ==> !out.Died? && (out.Reply? <==> Acceptable(old(settled), request))
      ensures !faults && !edited && out.Failure? ==> Definite(out.code)
    {
      hide Ledger, OnePending, Target, WellFormed, Render, ValidRequest, Managed, Acceptable;
      if !edited { ManagedStatus(Captured(), commits, true); }
      var early, configText, target := Prepare(request);
      if early.Some? { return early.value; }
      var before := Snapshot(config, unit, routes, active, enabled);
      out := Execute(request, before, request.action != Uninstall, configText, target);
    }

    // Requests -------------------------------------------------------------------------------------

    /** A status that says of the three files and the service what they are. */
    ghost predicate Describes(status: Status)
      reads this
    {
      && status.fingerprint == Fingerprint(config, unit, routes) && StoredRoutes(routes) == Some(status.routes)
      && (status.installed <==> unit.Present? && config.Present?) && (status.active ==> active)
      && (!faults ==> status.active == active)
    }

    /** status: refuses while an entry is pending, and never writes. */
    method Query() returns (out: Outcome)
      requires Valid()
      ensures out.Failure? ==> out.code in {StateFailed, RecoveryRequired}
      ensures out.Failure? && out.code.RecoveryRequired? ==> !Quiet(journal)
      ensures out.Reply? ==> Quiet(journal) && Describes(out.status)
      ensures out.Reply? ==> exists verified :: Some(out.status) == StatusOf(Captured(), verified)
      ensures !faults ==> !out.Died?
      ensures !faults && Quiet(journal) && StatusOf(Captured(), true).Some? ==>
        out == Reply(StatusOf(Captured(), true).value)
    {
      hide Ledger, OnePending, Managed, WellFormed;
      var rest := journal.Keys;
      while rest != {}
        invariant rest <= journal.Keys
        invariant forall p :: p in journal && p !in rest ==> !journal[p].state.Pending?
        decreases |rest|
      {
        var path :| path in rest;
        rest := rest - {path};
        var o := Attempt();
        if o.Crashed? { return Died; }
        if o.Failing? { return Failure(StateFailed); }
        if journal[path].state.Pending? { return Failure(RecoveryRequired); }
      }
      var o, status, verified := ReadStatus();
      if o.Crashed? { return Died; }
      if o.Failing? || status.None? { return Failure(StateFailed); }
      return Reply(status.value);
    }

    /** The request that wrote an entry, and no other, may be answered from it. */
    ghost predicate Answers(request: Request)
      reads this
    {
      request.op in journal && journal[request.op].action == request.action
        && journal[request.op].params == request.params
    }

    /** Nothing was written: neither the files and the service nor the journal. */
    twostate predicate Untouched()
      reads this
    {
      Captured() == old(Captured()) && journal == old(journal)
        && settled == old(settled) && commits == old(commits) && applied == old(applied)
    }

    /** The caller knows the three files as they were when nothing was pending. */
    ghost predicate Foreseen(request: Request)
      reads this
    {
      request.params.expected == Some(Fingerprint(settled.config, settled.unit, settled.routes))
    }

    method Handle(request: Request) returns (out: Outcome)
      requires Valid()
      modifies this`config, this`unit, this`routes, this`active, this`enabled, this`journal
      modifies this`settled, this`commits, this`applied
      ensures Valid()
      // Refused, busy and reading calls touch nothing.
      ensures !ValidRequest(request) || request.action.StatusQuery? || locked ==>
        Untouched()
      ensures !ValidRequest(request) <==> out == Failure(InvalidRequest)
      ensures out != Failure(InvalidRequest) && request.action.Apply? ==>
        var r := request.params.route; r.Some? && IsUuidV7(r.value.id) && 1024 <= r.value.listenPort <= 65535
      ensures out != Failure(InvalidRequest) && request.action in {Disable, Remove} ==>
        request.params.routeId.Some? && IsUuidV7(request.params.routeId.value)
      ensures out == Failure(Busy) ==> locked
      ensures locked ==> !out.Reply?
      // A repeat of a succeeded request returns the recorded result and touches nothing.
      ensures old(Quiet(journal)) && old(Answers(request)) ==>
        Untouched()
      ensures out.Reply? && !request.action.StatusQuery? && old(request.op in journal) ==>
        old(Answers(request)) && old(journal)[request.op].result == Some(out.status)
        && settled == old(settled) && commits == old(commits)
      // A new request of a caller who does not know the present files is refused, and writes nothing.
      ensures old(Quiet(journal) && request.op !in journal && !Foreseen(request)) && !request.action.StatusQuery? ==>
        !out.Reply? && Untouched()
      ensures !faults && !locked && ValidRequest(request) && !request.action.StatusQuery? ==>
        old(request.op !in journal) ==>
        (out == Failure(FingerprintConflict) <==> !old(Foreseen(request)))
      // The only other way to succeed is the one transaction that extends the history.
      ensures out.Reply? && !request.action.StatusQuery? && old(request.op !in journal) ==>
        && old(Foreseen(request))
        && StoredRoutes(old(settled).routes).Some?
        && Target(request.action, request.params, StoredRoutes(old(settled).routes).value) == Ok(out.status.routes)
        && commits ==
          old(commits) + [Commit(request.op, request.action, request.params, out.status.routes, out.status.fingerprint)]
        && settled == Captured() && FingerprintOf(settled) == out.status.fingerprint
        && Installed(settled, request.action, out.status.routes) && Reports(out.status, request.action)
      ensures out.Reply? && !request.action.StatusQuery? ==>
        Quiet(journal) && Answers(request) && journal[request.op].state.Succeeded?
          && journal[request.op].result == Some(out.status)
      ensures out.Reply? && request.action.StatusQuery? ==>
        && Quiet(journal) && Describes(out.status)
        && exists verified :: Some(out.status) == StatusOf(Captured(), verified)
      ensures !out.Reply? ==> settled == old(settled) && commits == old(commits)
      // No entry is ever lost or rewritten, except a pending one that is rolled back.
      ensures forall op :: op in old(journal) && !old(journal)[op].state.Pending? ==>
        op in journal && journal[op] == old(journal)[op]
      ensures forall op :: op in old(journal) ==>
        op in journal && journal[op].action == old(journal)[op].action && journal[op].params == old(journal)[op].params
      ensures forall op :: op in journal ==> op in old(journal) || (op == request.op && Answers(request))
      ensures applied == old(applied) || (old(request.op !in journal) && applied == old(applied) + [request.op])
      // A definite refusal of this very request means that it has left nothing behind.
      ensures out.Failure? && Definite(out.code) ==>
        out.code !in {InvalidRequest, Busy, IdempotencyConflict, RecoveryRequired} ==>
        Quiet(journal) && Captured() == settled && (request.op in journal ==> journal[request.op].state.Failed?)
      ensures out == Failure(IdempotencyConflict) ==> request.op in journal && !Answers(request)
      ensures out == Failure(RecoveryRequired) ==> request.action.StatusQuery? && !Quiet(journal)
      ensures out.Failure? && request.action.StatusQuery? ==>
        out.code in {InvalidRequest, StateFailed, Busy, RecoveryRequired}
      ensures !faults ==> !out.Died?
      ensures !faults && !edited && !locked && !request.action.StatusQuery? ==> out.Reply? || Definite(out.code)
      // When nothing goes wrong, a new request succeeds exactly on a host that fits it.
      ensures !faults && !locked && ValidRequest(request) && !request.action.StatusQuery? ==>
        old(request.op !in journal) ==>
        (out.Reply? <==> Acceptable(old(settled), request))
      ensures !faults && !locked && request.action.StatusQuery? && ValidRequest(request) && Quiet(journal) ==>
        StatusOf(Captured(), true).Some? ==>
        out == Reply(StatusOf(Captured(), true).value)
    {
      hide Ledger, OnePending, Managed, ValidRequest, WellFormed, Target, Render, RolledBack, Acceptable, StatusOf;
      if !ValidRequest(request) { return Failure(InvalidRequest); }
      RequestNeeds(request);
      var o := Attempt();
      if o.Crashed? { return Died; }
      if o.Failing? { return Failure(StateFailed); }
      if locked { return Failure(Busy); }
      if request.action.StatusQuery? {
        out := Query();
      } else {
        out := Transact(request);
      }
    }

    /** A valid mutating request, under the lock: recovery first, then the recorded answer or the transaction. */
    method Transact(request: Request) returns (out: Outcome)
      requires Valid() && ValidRequest(request) && !request.action.StatusQuery?
      modifies this`config, this`unit, this`routes, this`active, this`enabled, this`journal
      modifies this`settled, this`commits, this`applied
      ensures Valid()
      ensures out.Failure? ==> out.code !in {InvalidRequest, Busy, RecoveryRequired}
      ensures old(Quiet(journal)) && old(Answers(request)) ==>
        Untouched()
      ensures out.Reply? && old(request.op in journal) ==>
        old(Answers(request)) && old(journal)[request.op].result == Some(out.status)
        && settled == old(settled) && commits == old(commits)
      ensures old(Quiet(journal) && request.op !in journal && !Foreseen(request)) ==> !out.Reply? && Untouched()
      ensures !faults && old(request.op !in journal) ==>
        (out == Failure(FingerprintConflict) <==> !old(Foreseen(request)))
      ensures out.Reply? && old(request.op !in journal) ==>
        && old(Foreseen(request))
        && StoredRoutes(old(settled).routes).Some?
        && Target(request.action, request.params, StoredRoutes(old(settled).routes).value) == Ok(out.status.routes)
        && commits ==
          old(commits) + [Commit(request.op, request.action, request.params, out.status.routes, out.status.fingerprint)]
        && settled == Captured() && FingerprintOf(settled) == out.status.fingerprint
        && Installed(settled, request.action, out.status.routes) && Reports(out.status, request.action)
      ensures out.Reply? ==>
        Quiet(journal) && Answers(request) && journal[request.op].state.Succeeded?
          && journal[request.op].result == Some(out.status)
      ensures !out.Reply? ==> settled == old(settled) && commits == old(commits)
      ensures forall op :: op in old(journal) && !old(journal)[op].state.Pending? ==>
        op in journal && journal[op] == old(journal)[op]
      ensures forall op :: op in old(journal) ==>
        op in journal && journal[op].action == old(journal)[op].action && journal[op].params == old(journal)[op].params
      ensures forall op :: op in journal ==> op in old(journal) || (op == request.op && Answers(request))
      ensures applied == old(applied) || (old(request.op !in journal) && applied == old(applied) + [request.op])
      ensures out.Failure? && Definite(out.code) && !out.code.IdempotencyConflict? ==>
        Quiet(journal) && Captured() == settled && (request.op in journal ==> journal[request.op].state.Failed?)
      ensures out == Failure(IdempotencyConflict) ==> request.op in journal && !Answers(request)
      ensures !faults ==> !out.Died?
      ensures !faults && !edited ==> out.Reply? || Definite(out.code)
      ensures !faults && old(request.op !in journal) ==> (out.Reply? <==> Acceptable(old(settled), request))
    {
      hide Ledger, OnePending, Managed, ValidRequest, WellFormed, Target, Render, RolledBack, Acceptable;
      var o := Recover();
      RolledBackFacts(old(journal), journal);
      if o.Crashed? { return Died; }
      if o.Failing? { return Failure(RollbackFailed); }
      o := Attempt();
      if o.Crashed? { return Died; }
      if o.Failing? { return Failure(StateFailed); }
      if request.op in journal {
        var j := journal[request.op];
        EntryFacts(journal, commits, applied, request.op);
        if j.action != request.action || j.params != request.params { return Failure(IdempotencyConflict); }
        if j.state.Succeeded? && j.result.Some? { return Reply(j.result.value); }
        return Failure(j.error);
      }
      out := Mutate(request);
    }

    /** Another process of the relay takes or frees the lock. */
    method SetLock(held: bool)
      requires Valid()
      modifies this`locked
      ensures Valid() && locked == held
    {
      locked := held;
    }

    lemma LedgerHolds()
      requires Valid()
      ensures Ledger(journal, commits, applied)
    {
    }

    // The environment ------------------------------------------------------------------------------

    /** The service stops, starts or changes its boot setting by itself; it runs only from its files. */
    method Drift(newActive: bool, newEnabled: bool)
      requires Valid() && (newActive ==> Captured().Installed())
      modifies this`active, this`enabled, this`settled
      ensures Valid() && active == newActive && enabled == newEnabled
      ensures settled == if Quiet(journal) then Captured() else old(settled)
    {
      hide Ledger, WellFormed, Render;
      active, enabled := newActive, newEnabled;
      if Quiet(journal) { settled := Captured(); }
    }

    /** Somebody else edits the owned files while no transaction is pending. */
    method OutsideEdit(newConfig: File<string>, newUnit: File<UnitText>, newRoutes: File<RoutesText>)
      requires Valid() && Quiet(journal)
      requires active ==> newUnit.Present? && newConfig.Present?
      modifies this`config, this`unit, this`routes, this`settled, this`edited
      ensures Valid() && edited && settled == Captured()
      ensures config == newConfig && unit == newUnit && routes == newRoutes
    {
      hide Ledger;
      config, unit, routes := newConfig, newUnit, newRoutes;
      settled, edited := Captured(), true;
    }

    /**
     * Somebody edits any of the three files after a caller has read their fingerprint. Whatever the caller then asks
     * for under a new operation id, the edit stays as it is and nothing begins; without a fault and another holder of
     * the lock the answer is that the fingerprint is out of date.
     */
    method StaleRequest(newConfig: File<string>, newUnit: File<UnitText>, newRoutes: File<RoutesText>, request: Request)
      returns (out: Outcome)
      requires Valid() && Quiet(journal)
      requires active ==> newUnit.Present? && newConfig.Present?
      requires newConfig != config || newUnit != unit || newRoutes != routes
      requires ValidRequest(request) && !request.action.StatusQuery? && request.op !in journal
      requires request.params.expected == Some(Fingerprint(config, unit, routes))
      modifies this`config, this`unit, this`routes, this`active, this`enabled, this`journal
      modifies this`settled, this`commits, this`applied, this`edited
      ensures Valid() && !out.Reply?
      ensures config == newConfig && unit == newUnit && routes == newRoutes
      ensures active == old(active) && enabled == old(enabled)
      ensures journal == old(journal) && commits == old(commits) && applied == old(applied)
      ensures !faults && !locked ==> out == Failure(FingerprintConflict)
    {
      hide Ledger, OnePending, Managed, ValidRequest, WellFormed;
      OutsideEdit(newConfig, newUnit, newRoutes);
      out := Handle(request);
    }

    // Whole runs -----------------------------------------------------------------------------------

    /**
     * Any requests in any order, each of which may fail or die at any step, with the service drifting in
     * between: the history only grows, and every entry it gains is one of the requests, once.
     */
    method Run(requests: seq<Request>)
      requires Valid()
      modifies this`config, this`unit, this`routes, this`active, this`enabled, this`journal
      modifies this`settled, this`commits, this`applied
      ensures Valid()
      ensures old(commits) <= commits
      ensures forall i :: |old(commits)| <= i < |commits| ==> Requested(requests, commits[i])
      ensures forall i, j :: 0 <= i < j < |commits| ==> commits[i].op != commits[j].op
      ensures Distinct(applied) && old(applied) <= applied
    {
      hide OnePending, Managed, WellFormed, Render, ValidRequest, Target, Recorded, ProperEntry, Installed,
        StatusOf;
      for k := 0 to |requests|
        invariant Valid()
        invariant old(commits) <= commits && old(applied) <= applied
        invariant forall i :: |old(commits)| <= i < |commits| ==> Requested(requests, commits[i])
      {
        ghost var soFar := commits;
        var out := Handle(requests[k]);
        if commits != soFar {
          assert Requested(requests, commits[|soFar|]) by {
            assert requests[k] == Request(commits[|soFar|].action, commits[|soFar|].op, commits[|soFar|].params);
          }
        }
        var newActive: bool, newEnabled: bool := *, *;
        if newActive ==> unit.Present? && config.Present? { Drift(newActive, newEnabled); }
      }
    }

    /**
     * In every settled state without outside edits the stored table is the replayed history, and is what is
     * installed.
     */
    lemma SettledTable()
      requires Valid() && Quiet(journal) && !edited
      ensures StoredRoutes(routes).Some? && WellFormed(StoredRoutes(routes).value)
      ensures TableOf(StoredRoutes(routes).value) == Replay(commits)
      ensures unit.Present? <==> config.Present?
      ensures config.Present? ==>
        config == Present(Render(StoredRoutes(routes).value).value) && unit == Present(ServiceUnit)
      ensures config.Absent? ==> Replay(commits) == map[]
    {
      hide Ledger, OnePending, Render, WellFormed;
      assert Captured() == settled;
      if config.Absent? {
        TableEqual([], map[]);
      }
    }
  }
}
