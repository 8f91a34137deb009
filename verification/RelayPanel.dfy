/**
 * The Panel's side of the relay protocol: operations recorded in its database, replayed with the same
 * operation id over a network that loses requests and answers, until the relay's answer settles them.
 */
module RelayPanel {
  import opened Text
  import opened Order
  import opened RelayRoutes
  import opened RelayTable
  import opened RelayEngine
  import opened PanelPlan

  /** What reaches the Panel of a call: nothing, a status, or an error code. */
  datatype Answer = Lost | Got(status: Status) | Rejected(code: Code)

  /** How a request to the Panel ends: the stored record, an exception, or the death of the process. */
  datatype Response = Record(operation: Operation) | Thrown(reason: Error) | PanelDied

  datatype Health = NeverChecked | Ready | Offline | Uninstalled

  /** What becomes of one call: lost on the way, answered in vain, left running, or answered. */
  datatype Fate = RequestLost | AnswerLost | Abandoned | Delivered

  /**
   * What may happen while the Panel waits: the request left running ends; the service drifts; files are edited;
   * another caller's status call takes the relay's lock, or frees it; other relays gain or lose routes.
   */
  datatype Move =
    | Ends
    | Drifts(active: bool, enabled: bool)
    | Edits(config: File<string>, unit: File<UnitText>, routes: File<RoutesText>)
    | CallStarts
    | CallEnds
    | Reroutes(elsewhere: set<string>)

  /** The two calls of an attempt to settle an operation, and what happens between them. */
  datatype Net = Net(first: Fate, meanwhile: seq<Move>, second: Fate)

  const CALM := Net(Delivered, [], Delivered)

  predicate Still(moves: seq<Move>) {
    forall k :: 0 <= k < |moves| ==> moves[k].Drifts?
  }

  predicate IsCalm(net: Net) {
    net.first.Delivered? && Still(net.meanwhile) && net.second.Delivered?
  }

  /** A status call of somebody else has the lock when the second call arrives. */
  predicate Blocks(net: Net) {
    && net.first.Delivered? && net.second.Delivered?
    && LocksAtLast(net.meanwhile)
  }

  predicate LocksAtLast(moves: seq<Move>) {
    moves != [] && moves[|moves| - 1].CallStarts? && Still(moves[..|moves| - 1])
  }

  /** What may happen to a Panel. */
  datatype Event =
    | Request(id: string, action: Action, body: Body, discovery: Discovery, queryId: string, net: Net)
    | Replay(id: string, queryId: string, net: Net)
    | Check(queryId: string, fate: Fate)
    | Elsewhere(move: Move)

  predicate QueryOk(queryId: string) {
    ValidRequest(RelayTable.Request(StatusQuery, queryId, Params(None, None, None)))
  }

  /** Errors after which the operation is taken to have failed for good. */
  predicate IsDefinite(e: Error) {
    e.Remote? && Definite(e.code)
  }

  // What the two databases say about each other -----------------------------------------------------

  /** A stored operation is a proper request, and its rows are what the request makes of the expected routes. */
  ghost predicate OpOk(id: string, o: Operation) {
    && !o.action.StatusQuery?
    && ValidRequest(RelayTable.Request(o.action, id, o.params))
    && LocalOk(o.routes)
    && o.params.expected.Some?
    && StoredRoutes(o.params.expected.value.routes).Some?
    && TableOf(Wire(o.routes)) ==
      TableStep(o.action, o.params, TableOf(StoredRoutes(o.params.expected.value.routes).value))
  }

  /** Every mutating request the relay has seen is one of ours. */
  ghost predicate Accounted(ops: map<string, Operation>, journal: map<string, Journal>) {
    forall id :: id in journal ==>
      id in ops && journal[id].action == ops[id].action && journal[id].params == ops[id].params
  }

  /** Whatever the relay committed has the routes stored with the operation. */
  ghost predicate Agreed(ops: map<string, Operation>, commits: seq<Commit>) {
    forall i :: 0 <= i < |commits| ==>
      commits[i].op in ops && TableOf(commits[i].routes) == TableOf(Wire(ops[commits[i].op].routes))
  }

  ghost predicate OneUnsettled(ops: map<string, Operation>) {
    forall a, b :: a in ops && b in ops && ops[a].Unsettled() && ops[b].Unsettled() ==> a == b
  }

  /** The Panel's successes, in order: all of them committed by the relay. */
  ghost predicate Successes(ops: map<string, Operation>, successes: seq<string>, commits: seq<Commit>) {
    && Distinct(successes)
    && (forall id :: id in successes <==> id in ops && ops[id].status.Succeeded?)
    && (forall id :: id in successes ==> Committed(commits, id))
  }

  ghost function CommitOps(commits: seq<Commit>): seq<string> {
    seq(|commits|, i requires 0 <= i < |commits| => commits[i].op)
  }

  /** Nothing of this operation is on the relay, and nothing will be. */
  ghost predicate LeftNothing(id: string, journal: map<string, Journal>, commits: seq<Commit>,
    inFlight: Option<RelayTable.Request>)
  {
    && !Committed(commits, id)
    && (id in journal ==> journal[id].state.Failed?)
    && (inFlight.Some? ==> inFlight.value.op != id || inFlight.value.action.StatusQuery?)
  }

  /** As long as no call was answered busy: failures left nothing, and the relay is at most one operation ahead. */
  ghost predicate Clean(ops: map<string, Operation>, successes: seq<string>,
    journal: map<string, Journal>, commits: seq<Commit>, inFlight: Option<RelayTable.Request>)
  {
    && (forall id :: id in ops && ops[id].status.Failed? ==> LeftNothing(id, journal, commits, inFlight))
    && (CommitOps(commits) == successes || exists u ::
      u in ops && ops[u].Unsettled() && CommitOps(commits) == successes + [u])
    && (inFlight.Some? && !inFlight.value.action.StatusQuery? ==>
      inFlight.value.op in ops && ops[inFlight.value.op].Unsettled())
  }

  ghost predicate InFlightOk(ops: map<string, Operation>, inFlight: Option<RelayTable.Request>) {
    inFlight.Some? ==>
      && ValidRequest(inFlight.value)
      && (inFlight.value.action.StatusQuery? || OursExactly(ops, inFlight.value))
  }

  ghost predicate OursExactly(ops: map<string, Operation>, r: RelayTable.Request) {
    r.op in ops && r == RelayTable.Request(ops[r.op].action, r.op, ops[r.op].params)
  }

  /** The local rows are those of the last operation that succeeded. */
  ghost predicate LocalTable(ops: map<string, Operation>, successes: seq<string>, rows: seq<LocalRoute>) {
    if successes == [] then rows == []
    else successes[|successes| - 1] in ops && rows == ops[successes[|successes| - 1]].routes
  }

  /** A known fingerprint is one whose route list has the local table. */
  ghost predicate Known(fingerprint: Option<Fingerprint>, rows: seq<LocalRoute>) {
    fingerprint.Some? ==>
      && StoredRoutes(fingerprint.value.routes).Some?
      && WellFormed(StoredRoutes(fingerprint.value.routes).value)
      && TableOf(StoredRoutes(fingerprint.value.routes).value) == TableOf(Wire(rows))
  }

  /** Settling an operation changes its status and error, and nothing else of it. */
  predicate SameRequest(o: Operation, was: Operation) {
    o == was.(status := o.status, error := o.error)
  }

  function RequestOf(id: string, o: Operation): RelayTable.Request {
    RelayTable.Request(o.action, id, o.params)
  }

  /** A relay that has committed this request, or will when it gets it: it does not know it, and its state fits it. */
  ghost predicate Takes(journal: map<string, Journal>, commits: seq<Commit>, settled: Snapshot, q: RelayTable.Request) {
    Committed(commits, q.op) || (q.op !in journal && Acceptable(settled, q))
  }

  /** Some row belongs to an instance that another relay routes: the table holds every instance once. */
  predicate Clash(routes: seq<LocalRoute>, elsewhere: set<string>) {
    exists k :: 0 <= k < |routes| && routes[k].instance in elsewhere
  }

  /** How an attempt ends that nothing disturbs: all of it is decided by the state it starts from. */
  predicate SettledAs(o: Operation, takes: bool, clash: bool) {
    && (o.status.Failed? <==> !takes)
    && (o.status.Succeeded? <==> takes && |o.routes| <= 100 && !clash)
    && (o.Unsettled() <==> takes && (|o.routes| > 100 || clash))
  }

  // How the relay's history may grow ------------------------------------------------------------------

  /** One more commit of u, from a host that matched the expected fingerprint. */
  lemma AgreedStep(ops: map<string, Operation>, commits: seq<Commit>, c: Commit, before: Snapshot)
    requires Agreed(ops, commits) && c.op in ops && OpOk(c.op, ops[c.op])
    requires c.action == ops[c.op].action && c.params == ops[c.op].params
    requires FingerprintOf(before) == c.params.expected.value
    requires StoredRoutes(before.routes).Some?
    requires Target(c.action, c.params, StoredRoutes(before.routes).value) == Ok(c.routes)
    ensures Agreed(ops, commits + [c])
  {
    TargetTable(c.action, c.params, StoredRoutes(before.routes).value);
  }

  lemma CommitOpsSnoc(commits: seq<Commit>, c: Commit)
    ensures CommitOps(commits + [c]) == CommitOps(commits) + [c.op]
  {
  }

  lemma CommittedOps(commits: seq<Commit>, id: string)
    ensures Committed(commits, id) <==> id in CommitOps(commits)
  {
    if Committed(commits, id) {
      var i :| 0 <= i < |commits| && commits[i].op == id;
      assert CommitOps(commits)[i] == id;
    }
  }

  lemma SuccessesStep(ops: map<string, Operation>, successes: seq<string>, commits: seq<Commit>, c: Commit)
    requires Successes(ops, successes, commits)
    ensures Successes(ops, successes, commits + [c])
  {
    forall id | id in successes ensures Committed(commits + [c], id) {
      var i :| 0 <= i < |commits| && commits[i].op == id;
      assert (commits + [c])[i].op == id;
    }
  }

  /** A mutating call for the unsettled operation u keeps the books clean, whether or not it commits. */
  lemma CleanStep(ops: map<string, Operation>, successes: seq<string>, u: string, inFlight: Option<RelayTable.Request>,
    journal: map<string, Journal>, commits: seq<Commit>, journal': map<string, Journal>, commits': seq<Commit>)
    requires Clean(ops, successes, journal, commits, inFlight)
    requires u in ops && ops[u].Unsettled() && OneUnsettled(ops)
    requires u !in journal ==> !Committed(commits, u)
    requires commits' == commits
      || (u !in journal && |commits'| == |commits| + 1 && commits'[..|commits|] == commits
        && commits'[|commits|].op == u)
    requires forall op :: op in journal && !journal[op].state.Pending? ==> op in journal' && journal'[op] == journal[op]
    requires forall op :: op in journal' ==> op in journal || op == u
    ensures Clean(ops, successes, journal', commits', None)
  {
    forall id | id in ops && ops[id].status.Failed? ensures LeftNothing(id, journal', commits', None) {
      assert LeftNothing(id, journal, commits, inFlight);
      forall i | 0 <= i < |commits'| ensures commits'[i].op != id {
        if i < |commits| {
          assert commits'[i] == commits'[..|commits|][i];
        }
      }
    }
    if commits' != commits {
      assert commits' == commits + [commits'[|commits|]];
      CommitOpsSnoc(commits, commits'[|commits|]);
      CommittedOps(commits, u);
      forall v | v in ops && ops[v].Unsettled() ensures CommitOps(commits) != successes + [v] {
        assert v in successes + [v];
      }
    }
  }

  // The books: everything above together -----------------------------------------------------------------

  datatype Books = Books(
    ops: map<string, Operation>, rows: seq<LocalRoute>, fingerprint: Option<Fingerprint>,
    successes: seq<string>, inFlight: Option<RelayTable.Request>, sawBusy: bool)

  ghost predicate Balanced(b: Books, journal: map<string, Journal>, commits: seq<Commit>) {
    && (forall id :: id in b.ops ==> OpOk(id, b.ops[id]))
    && OneUnsettled(b.ops)
    && Accounted(b.ops, journal)
    && Agreed(b.ops, commits)
    && Successes(b.ops, b.successes, commits)
    && InFlightOk(b.ops, b.inFlight)
    && (!b.sawBusy ==> Clean(b.ops, b.successes, journal, commits, b.inFlight))
    && LocalTable(b.ops, b.successes, b.rows)
    && Known(b.fingerprint, b.rows)
  }

  /** The relay has handled a request of ours: at most one commit more, of that operation. */
  ghost predicate Grown(u: string, o: Operation, before: Snapshot,
    journal: map<string, Journal>, commits: seq<Commit>, journal': map<string, Journal>, commits': seq<Commit>)
  {
    && (forall op :: op in journal && !journal[op].state.Pending? ==> op in journal' && journal'[op] == journal[op])
    && (forall op :: op in journal ==>
      op in journal' && journal'[op].action == journal[op].action && journal'[op].params == journal[op].params)
    && (forall op :: op in journal' ==>
      op in journal || (op == u && journal'[op].action == o.action && journal'[op].params == o.params))
    && (commits' != commits ==>
      && u !in journal
      && StoredRoutes(before.routes).Some?
      && o.params.expected == Some(FingerprintOf(before))
      && |commits'| == |commits| + 1
      && var c := commits'[|commits|];
      && commits' == commits + [c]
      && c.op == u && c.action == o.action && c.params == o.params
      && Target(c.action, c.params, StoredRoutes(before.routes).value) == Ok(c.routes))
  }

  lemma BalancedStep(b: Books, u: string, before: Snapshot,
    journal: map<string, Journal>, commits: seq<Commit>, journal': map<string, Journal>, commits': seq<Commit>)
    requires Balanced(b, journal, commits)
    requires u in b.ops && (!b.sawBusy ==> b.ops[u].Unsettled())
    requires u !in journal ==> !Committed(commits, u)
    requires Grown(u, b.ops[u], before, journal, commits, journal', commits')
    ensures Balanced(b.(inFlight := None), journal', commits')
  {
    hide OpOk, LocalTable, Known, Target, Clean, LeftNothing;
    assert OpOk(u, b.ops[u]);
    if commits' != commits {
      var c := commits'[|commits|];
      AgreedStep(b.ops, commits, c, before);
      SuccessesStep(b.ops, b.successes, commits, c);
    }
    if !b.sawBusy {
      assert commits' != commits ==> commits'[..|commits|] == commits;
      CleanStep(b.ops, b.successes, u, b.inFlight, journal, commits, journal', commits');
    }
  }

  /** Journals and commits agree on what is committed. */
  lemma NotInJournal(journal: map<string, Journal>, commits: seq<Commit>, applied: seq<string>, u: string)
    requires Ledger(journal, commits, applied)
    ensures u !in journal ==> !Committed(commits, u)
    ensures u in journal ==> (journal[u].state.Succeeded? <==> Committed(commits, u))
  {
    if u in journal {
      assert ProperEntry(u, journal[u], commits);
    } else {
      forall i | 0 <= i < |commits| ensures commits[i].op != u {
        assert Recorded(journal, commits[i]);
      }
    }
  }

  /** The result recorded for a committed operation has its stored routes. */
  lemma RecordedResult(journal: map<string, Journal>, commits: seq<Commit>, applied: seq<string>, ops: map<string,
    Operation>, u: string)
    requires Ledger(journal, commits, applied) && Agreed(ops, commits) && u in journal && journal[u].state.Succeeded?
    ensures Committed(commits, u) && u in ops && journal[u].result.Some?
    ensures var r := journal[u].result.value;
      StoredRoutes(r.fingerprint.routes) == Some(r.routes) && WellFormed(r.routes)
        && TableOf(r.routes) == TableOf(Wire(ops[u].routes))
  {
    assert ProperEntry(u, journal[u], commits);
    var i :| 0 <= i < |commits| && commits[i].op == u;
    assert Recorded(journal, commits[i]);
  }

  /** A status that reports its own routes, from a relay with nothing pending. */
  ghost predicate Reported(status: Status, journal: map<string, Journal>) {
    && Quiet(journal)
    && StoredRoutes(status.fingerprint.routes) == Some(status.routes)
    && WellFormed(status.routes)
  }

  /** A status that is the recorded result of this committed operation, and has its stored routes. */
  ghost predicate Confirmed(op: string, ops: map<string, Operation>, status: Status, journal: map<string, Journal>,
    commits: seq<Commit>)
  {
    && Committed(commits, op) && op in ops
    && op in journal && journal[op].state.Succeeded? && journal[op].result == Some(status)
    && TableOf(status.routes) == TableOf(Wire(ops[op].routes))
  }

  class Panel {
    const relay: RelayService
    // The database rows of this relay, and whether this process is working on one of its operations.
    var ops: map<string, Operation>
    var rows: seq<LocalRoute>
    var fingerprint: Option<Fingerprint>
    var health: Health
    var running: bool
    // A request the relay is still executing although the Panel no longer waits for its answer.
    var inFlight: Option<RelayTable.Request>
    // Another caller's status call has the relay's lock.
    var foreign: bool
    // The instances that have a row of another relay.
    var elsewhere: set<string>

    ghost var successes: seq<string>
    ghost var sawBusy: bool

    ghost function Current(): Books
      reads this
    {
      Books(ops, rows, fingerprint, successes, inFlight, sawBusy)
    }

    ghost predicate Valid()
      reads this, relay
    {
      && relay.Valid()
      && (relay.locked <==> inFlight.Some? || foreign) && !(inFlight.Some? && foreign)
      && Balanced(Current(), relay.journal, relay.commits)
      && !Clash(rows, elsewhere)
    }

    constructor (relay: RelayService, elsewhere: set<string>)
      requires relay.Valid() && relay.commits == [] && relay.journal == map[] && !relay.locked
      ensures Valid() && this.relay == relay && ops == map[] && rows == [] && !sawBusy && !running
        && this.elsewhere == elsewhere
    {
      this.relay, this.elsewhere := relay, elsewhere;
      ops, rows, fingerprint, health := map[], [], None, NeverChecked;
      running, inFlight, foreign := false, None, false;
      successes, sawBusy := [], false;
    }

    // The network --------------------------------------------------------------------------------

    /** The relay executes a mutating request of ours, with the lock free. */
    method DeliverMutation(request: RelayTable.Request) returns (out: Outcome)
      requires relay.Valid() && !relay.locked && !foreign && Balanced(Current(), relay.journal, relay.commits)
        && !Clash(rows, elsewhere)
      requires ValidRequest(request) && !request.action.StatusQuery?
      requires OursExactly(ops, request) && (!sawBusy ==> ops[request.op].Unsettled())
      modifies relay, this`inFlight
      ensures Valid() && inFlight == None && relay.faults == old(relay.faults) && relay.edited == old(relay.edited)
      ensures out.Reply? ==>
        Reported(out.status, relay.journal) && Confirmed(request.op, ops, out.status, relay.journal, relay.commits)
      ensures !out.Reply? ==> relay.commits == old(relay.commits)
      ensures !(out.Failure? && out.code == Busy) && (!relay.faults ==> !out.Died?)
      ensures out.Failure? && Definite(out.code) ==> LeftNothing(request.op, relay.journal, relay.commits, None)
      ensures !relay.faults && !relay.edited ==> out.Reply? || (out.Failure? && Definite(out.code))
      ensures !relay.faults ==>
        (Committed(relay.commits, request.op) <==> old(Takes(relay.journal, relay.commits, relay.settled, request)))
    {
      hide RelayService.Valid, Balanced, Ledger, Target, WellFormed, ValidRequest, OpOk, Agreed, TableOf, Wire,
        Acceptable, Installed, StatusOf, Managed, Accounted, InFlightOk, LocalTable, Successes, Quiet, UniqueIds,
        UniquePorts, ValidRoute, Lookup, TableStep, Ids, Ports, LocalOk, SameRoutes, Plan, DropRoute, Enabled,
        Render;
      ghost var journal0, commits0, settled0 := relay.journal, relay.commits, relay.settled;
      ghost var books := Current();
      relay.LedgerHolds();
      NotInJournal(journal0, commits0, relay.applied, request.op);
      out := relay.Handle(request);
      relay.LedgerHolds();
      inFlight := None;
      NotInJournal(relay.journal, relay.commits, relay.applied, request.op);
      BalancedOp(books, journal0, commits0, request.op);
      BalancedStep(books, request.op, settled0, journal0, commits0, relay.journal, relay.commits);
      BalancedAgreed(Current(), relay.journal, relay.commits);
      if out.Reply? {
        RecordedResult(relay.journal, relay.commits, relay.applied, ops, request.op);
      }
    }

    /** The relay answers a status request, with the lock free. */
    method DeliverQuery(request: RelayTable.Request) returns (out: Outcome)
      requires relay.Valid() && !relay.locked && !foreign && Balanced(Current(), relay.journal, relay.commits)
        && !Clash(rows, elsewhere)
      requires ValidRequest(request) && request.action.StatusQuery?
      modifies relay, this`inFlight
      ensures Valid() && inFlight == None && relay.faults == old(relay.faults) && relay.edited == old(relay.edited)
      ensures relay.journal == old(relay.journal) && relay.commits == old(relay.commits)
        && relay.Captured() == old(relay.Captured())
      ensures out.Reply? ==> Reported(out.status, relay.journal)
      ensures !(out.Failure? && out.code == Busy) && (!relay.faults ==> !out.Died?)
      ensures out.Failure? && Definite(out.code) ==> !Quiet(relay.journal)
      ensures !relay.faults && Quiet(relay.journal) && StatusOf(relay.Captured(), true).Some? ==>
        out == Reply(StatusOf(relay.Captured(), true).value)
    {
      hide RelayService.Valid, Balanced, Target, WellFormed, ValidRequest, OpOk, Agreed, TableOf, Wire, Acceptable,
        Installed, Managed;
      BalancedQuery(Current(), relay.journal, relay.commits);
      out := relay.Handle(request);
      inFlight := None;
    }

    /**
     * One call. The request may be lost; the answer may be lost; the relay may die half-way; or it may go on
     * working after the Panel has stopped waiting, holding the lock against every later call.
     */
    method Call(request: RelayTable.Request, fate: Fate) returns (a: Answer)
      requires Valid() && ValidRequest(request)
      requires request.action.StatusQuery? || (OursExactly(ops, request) && ops[request.op].Unsettled())
      modifies relay, this`inFlight, this`sawBusy
      ensures Valid() && relay.faults == old(relay.faults) && relay.edited == old(relay.edited)
      ensures old(sawBusy) ==> sawBusy
      ensures a.Got? ==> !relay.locked && Reported(a.status, relay.journal)
      ensures a.Got? && !request.action.StatusQuery? ==>
        Confirmed(request.op, ops, a.status, relay.journal, relay.commits)
      ensures a.Rejected? && Definite(a.code) && !sawBusy ==>
        inFlight.None? &&
        if request.action.StatusQuery? then !old(Quiet(relay.journal))
          else LeftNothing(request.op, relay.journal, relay.commits, None)
      ensures request.action.StatusQuery? ==>
        && relay.journal == old(relay.journal) && relay.commits == old(relay.commits)
        && relay.Captured() == old(relay.Captured())
      // Whoever finds the lock taken is told so, and changes nothing.
      ensures old(relay.locked) ==> unchanged(relay) && inFlight == old(inFlight) && !a.Got?
      ensures old(relay.locked) && fate.Delivered? ==> a == Rejected(Busy) && sawBusy
      ensures !old(relay.locked) && fate.Abandoned? ==>
        a == Lost && inFlight == Some(request) && relay.locked && sawBusy == old(sawBusy)
        && relay.journal == old(relay.journal) && relay.commits == old(relay.commits)
        && relay.settled == old(relay.settled)
      ensures !fate.Delivered? ==> a == Lost
      ensures !old(relay.locked) && (fate.Delivered? || fate.AnswerLost?) ==> sawBusy == old(sawBusy) && !relay.locked
      ensures !relay.faults && !old(relay.locked) && fate.Delivered? ==> a != Lost
      ensures !relay.faults && !old(relay.locked) && (fate.Delivered? || fate.AnswerLost?) ==>
        !request.action.StatusQuery? ==>
        (Committed(relay.commits, request.op) <==> old(Takes(relay.journal, relay.commits, relay.settled, request)))
      ensures !relay.faults && !old(relay.locked) && fate.Delivered? && !relay.edited ==>
        !request.action.StatusQuery? ==>
        if a.Got? then Committed(relay.commits, request.op)
          else Definite(a.code) && !Committed(relay.commits, request.op)
      ensures !relay.faults && !old(relay.locked) && fate.Delivered? && request.action.StatusQuery? ==>
        Quiet(relay.journal) && StatusOf(relay.Captured(), true).Some? ==>
          a == Got(StatusOf(relay.Captured(), true).value)
    {
      hide RelayService.Valid, Balanced, Target, WellFormed, ValidRequest, OpOk, StatusOf, TableOf, Wire, Takes,
        Clash;
      if fate.RequestLost? { return Lost; }
      if relay.locked {
        if !fate.Delivered? { return Lost; }
        BalancedBusy(Current(), relay.journal, relay.commits);
        sawBusy := true;
        return Rejected(Busy);
      }
      if fate.Abandoned? {
        BalancedSent(Current(), relay.journal, relay.commits, request);
        inFlight := Some(request);
        relay.SetLock(true);
        return Lost;
      }
      var out;
      if request.action.StatusQuery? {
        out := DeliverQuery(request);
      } else {
        out := DeliverMutation(request);
      }
      if fate.AnswerLost? || out.Died? { return Lost; }
      if out.Failure? { return Rejected(out.code); }
      return Got(out.status);
    }

    /** A status call; ids of status requests are as good as any. */
    method CallStatus(queryId: string, fate: Fate) returns (a: Answer)
      requires Valid() && QueryOk(queryId)
      modifies relay, this`inFlight, this`sawBusy
      ensures Valid() && relay.faults == old(relay.faults) && relay.edited == old(relay.edited)
      ensures old(sawBusy) ==> sawBusy
      ensures relay.journal == old(relay.journal) && relay.commits == old(relay.commits)
      ensures relay.Captured() == old(relay.Captured())
      ensures a.Got? ==> inFlight.None? && !relay.locked && Reported(a.status, relay.journal)
      ensures a.Rejected? && Definite(a.code) && !sawBusy ==> inFlight.None? && !old(Quiet(relay.journal))
      ensures old(relay.locked) && fate.Delivered? ==> a == Rejected(Busy)
      ensures !old(relay.locked) && fate.Delivered? ==> sawBusy == old(sawBusy) && !relay.locked
      ensures !relay.faults && !old(relay.locked) && fate.Delivered? ==>
        Quiet(relay.journal) && StatusOf(relay.Captured(), true).Some? ==>
        a == Got(StatusOf(relay.Captured(), true).value)
    {
      hide RelayService.Valid, Balanced, ValidRequest, Quiet, StatusOf, Takes, Clash, Reported, LeftNothing;
      a := Call(RelayTable.Request(StatusQuery, queryId, Params(None, None, None)), fate);
    }

    /** The request nobody waits for any more ends, one way or another, and the lock is free again. */
    method EndInFlight()
      requires Valid() && inFlight.Some?
      modifies relay, this`inFlight
      ensures Valid() && inFlight.None? && !relay.locked && relay.faults == old(relay.faults)
        && relay.edited == old(relay.edited)
      ensures !relay.faults && !old(inFlight).value.action.StatusQuery? ==>
        (Committed(relay.commits, old(inFlight).value.op) <==>
          old(Takes(relay.journal, relay.commits, relay.settled, inFlight.value)))
    {
      hide RelayService.Valid, Balanced, WellFormed, TableOf, Wire, Takes, Clash;
      relay.SetLock(false);
      BalancedInFlight(Current(), relay.journal, relay.commits);
      var out;
      if inFlight.value.action.StatusQuery? {
        out := DeliverQuery(inFlight.value);
      } else {
        out := DeliverMutation(inFlight.value);
      }
    }

    /** One thing that happens elsewhere. */
    method World(move: Move)
      requires Valid()
      modifies relay, this`inFlight, this`foreign, this`elsewhere
      ensures Valid() && relay.faults == old(relay.faults)
      ensures old(inFlight).None? && old(Quiet(relay.journal)) ==>
        && inFlight.None? && relay.journal == old(relay.journal) && relay.commits == old(relay.commits)
      ensures move.Drifts? && !old(relay.locked) && old(Quiet(relay.journal)) ==>
        && relay.edited == old(relay.edited) && !relay.locked && elsewhere == old(elsewhere)
        && FingerprintOf(relay.Captured()) == old(FingerprintOf(relay.Captured()))
      ensures move.CallStarts? && !old(relay.locked) ==> relay.locked && foreign && relay.edited == old(relay.edited)
      ensures move.Reroutes? ==>
        unchanged(relay) && inFlight == old(inFlight) && foreign == old(foreign)
        && elsewhere == if Clash(rows, move.elsewhere) then old(elsewhere) else move.elsewhere
    {
      hide RelayService.Valid, Balanced, WellFormed, TableOf, Wire, Clash;
      match move {
        case Ends => if inFlight.Some? { EndInFlight(); }
        case Drifts(newActive, newEnabled) =>
          if newActive ==> relay.unit.Present? && relay.config.Present? { relay.Drift(newActive, newEnabled); }
        case Edits(newConfig, newUnit, newRoutes) =>
          if inFlight.None? && Quiet(relay.journal) && (relay.active ==> newUnit.Present? && newConfig.Present?) {
            relay.OutsideEdit(newConfig, newUnit, newRoutes);
          }
        case CallStarts =>
          if !relay.locked {
            foreign := true;
            relay.SetLock(true);
          }
        case CallEnds =>
          if foreign {
            foreign := false;
            relay.SetLock(false);
          }
        case Reroutes(next) => if !Clash(rows, next) { elsewhere := next; }
      }
    }

    method Meanwhile(moves: seq<Move>)
      requires Valid()
      modifies relay, this`inFlight, this`foreign, this`elsewhere
      ensures Valid() && relay.faults == old(relay.faults)
      ensures old(inFlight).None? && old(Quiet(relay.journal)) ==>
        && inFlight.None? && relay.journal == old(relay.journal) && relay.commits == old(relay.commits)
      ensures Still(moves) && !old(relay.locked) && old(Quiet(relay.journal)) ==>
        && relay.edited == old(relay.edited) && !relay.locked && elsewhere == old(elsewhere)
        && FingerprintOf(relay.Captured()) == old(FingerprintOf(relay.Captured()))
      ensures LocksAtLast(moves) && !old(relay.locked) && old(Quiet(relay.journal)) ==>
        relay.locked && relay.edited == old(relay.edited)
    {
      hide RelayService.Valid, Balanced, Clash, Quiet;
      for k := 0 to |moves|
        invariant Valid() && relay.faults == old(relay.faults)
        invariant old(inFlight).None? && old(Quiet(relay.journal)) ==>
          && inFlight.None? && relay.journal == old(relay.journal) && relay.commits == old(relay.commits)
        invariant Still(moves[..k]) && !old(relay.locked) && old(Quiet(relay.journal)) ==>
          && relay.edited == old(relay.edited) && !relay.locked && elsewhere == old(elsewhere)
          && FingerprintOf(relay.Captured()) == old(FingerprintOf(relay.Captured()))
        invariant k == |moves| && LocksAtLast(moves) && !old(relay.locked) && old(Quiet(relay.journal)) ==>
          relay.locked && relay.edited == old(relay.edited)
      {
        assert Still(moves[..k + 1]) ==> Still(moves[..k]) && moves[k].Drifts? by {
          assert moves[..k + 1][k] == moves[k] && moves[..k + 1][..k] == moves[..k];
        }
        World(moves[k]);
      }
      assert moves[..|moves|] == moves;
    }

    // Settling an operation ----------------------------------------------------------------------

    /** The catch block: record the outcome of a failed attempt. The write itself may fail. */
    method Fail(id: string, e: Error) returns (r: Response)
      requires Valid() && id in ops && ops[id].Unsettled()
      requires IsDefinite(e) && !sawBusy ==> LeftNothing(id, relay.journal, relay.commits, inFlight)
      modifies this`ops, this`health
      ensures Valid()
      ensures r.PanelDied? || r == Thrown(e)
      ensures ops == old(ops) ||
        ops == old(ops)[id :=
          old(ops)[id].(status := if IsDefinite(e) then OpStatus.Failed else Uncertain, error := Some(e))]
      ensures ops[id].status.Failed? ==> e.Remote? && e.code !in {StateFailed, RollbackFailed}
      ensures !relay.faults ==> (ops[id].status.Failed? <==> e.Remote? && e.code !in {StateFailed, RollbackFailed})
      ensures !relay.faults ==>
        r == Thrown(e) && ops[id].error == Some(e) && ops[id].status == if IsDefinite(e) then OpStatus.Failed
          else Uncertain
    {
      hide RelayService.Valid, Balanced, OpOk, LeftNothing;
      var stored: bool, dies: bool := *, *;
      if stored || !relay.faults {
        var o := ops[id].(status := if IsDefinite(e) then OpStatus.Failed else Uncertain, error := Some(e));
        BalancedFail(Current(), relay.journal, relay.commits, id, o);
        ops := ops[id := o];
        health := Offline;
      }
      if dies && relay.faults { return PanelDied; }
      return Thrown(e);
    }

    /** The transaction that makes the stored rows the local table and the operation a success. */
    method CommitRows(id: string, status: Status) returns (done: bool)
      requires Valid() && id in ops && ops[id].Unsettled() && inFlight.None?
      requires Reported(status, relay.journal) && Confirmed(id, ops, status, relay.journal, relay.commits)
      modifies this`ops, this`rows, this`fingerprint, this`health, this`successes
      ensures Valid()
      ensures done ==>
        && ops == old(ops)[id := old(ops)[id].(status := OpStatus.Succeeded, error := None)]
        && rows == ops[id].routes && fingerprint == Some(status.fingerprint) && successes == old(successes) + [id]
      ensures !done ==>
        ops == old(ops) && rows == old(rows) && fingerprint == old(fingerprint) && successes == old(successes)
      ensures done ==> !Clash(old(ops)[id].routes, elsewhere)
      ensures !relay.faults ==> (done <==> !Clash(old(ops)[id].routes, elsewhere))
    {
      hide RelayService.Valid, Balanced, OpOk, WellFormed, TableOf, Wire, Clash;
      done := *;
      if !relay.faults { done := true; }
      if Clash(ops[id].routes, elsewhere) { done := false; }
      if done {
        var o := ops[id].(status := OpStatus.Succeeded, error := None);
        BalancedCommit(Current(), relay.journal, relay.commits, id, o, status);
        ops := ops[id := o];
        rows := o.routes;
        fingerprint := Some(status.fingerprint);
        health := if status.installed then (if status.active then Ready else Offline) else Health.Uninstalled;
        successes := successes + [id];
      }
    }

    /** A success has made the stored rows the local table; anything else has left the table as it was. */
    twostate predicate Ended(id: string, r: Response)
      requires id in old(ops)
      reads this
    {
      && ops.Keys == old(ops.Keys) && (forall x :: x in ops && x != id ==> ops[x] == old(ops)[x])
      && SameRequest(ops[id], old(ops)[id])
      && (r.Record? ==>
        && ops[id].status.Succeeded? && r.operation == ops[id]
        && rows == ops[id].routes && fingerprint.Some? && successes == old(successes) + [id])
      && (!r.Record? ==>
        && !ops[id].status.Succeeded?
        && rows == old(rows) && fingerprint == old(fingerprint) && successes == old(successes))
    }

    /** What an attempt comes to when nothing fails, for the fates of its two calls and what happens between them. */
    twostate predicate Exact(id: string, net: Net)
      requires id in ops
      reads this, relay
    {
      var q := RequestOf(id, ops[id]);
      var takes := old(Takes(relay.journal, relay.commits, relay.settled, q));
      && (old(relay.locked) && net.first.Delivered? ==>
        && ops[id].status.Failed? && ops[id].error == Some(Remote(Busy)) && sawBusy
        && relay.locked && inFlight == old(inFlight) && foreign == old(foreign)
        && relay.journal == old(relay.journal) && relay.commits == old(relay.commits)
        && relay.settled == old(relay.settled))
      && (!old(relay.locked) && net.first.Abandoned? ==>
        && ops[id].status.Uncertain? && relay.locked && inFlight == Some(q)
        && relay.journal == old(relay.journal) && relay.commits == old(relay.commits)
        && relay.settled == old(relay.settled))
      && (!old(relay.locked) && net.first.AnswerLost? ==>
        && ops[id].status.Uncertain? && (Committed(relay.commits, id) <==> takes)
        && !relay.locked && sawBusy == old(sawBusy) && relay.edited == old(relay.edited) && elsewhere == old(elsewhere))
      && (!old(relay.locked) && !old(relay.edited) && Blocks(net) ==>
        && (Committed(relay.commits, id) <==> takes)
        && (ops[id].status.Failed? <==> !(takes && |ops[id].routes| > 100)))
      && (!old(relay.locked) && !old(relay.edited) && !old(sawBusy) && IsCalm(net) ==>
        && SettledAs(ops[id], takes, Clash(ops[id].routes, old(elsewhere))) && (Committed(relay.commits, id) <==> takes)
        && !relay.locked && !sawBusy && !relay.edited && elsewhere == old(elsewhere))
    }

    /** The try block: call, check with a second call, compare, commit. Also the whole of a replay. */
    method Settle(id: string, queryId: string, net: Net) returns (r: Response)
      requires Valid() && id in ops && ops[id].Unsettled()
      requires QueryOk(queryId)
      modifies relay, this`ops, this`rows, this`fingerprint, this`health, this`inFlight, this`foreign, this`elsewhere
      modifies this`successes, this`sawBusy
      ensures Valid() && relay.faults == old(relay.faults) && (old(sawBusy) ==> sawBusy)
      ensures Ended(id, r)
      ensures !relay.faults ==> Exact(id, net)
    {
      hide RelayService.Valid, Balanced, WellFormed, OpOk, LeftNothing, ValidRequest, SameRoutes, ValidStatus,
        StatusOf, TableOf, Wire, StoredRoutes, Takes, Clash, Still, Acceptable, Committed, Confirmed, Reported,
        LocksAtLast;
      var status;
      status, r := Ask(id, net);
      if status.Some? { r := Confirm(id, status.value, queryId, net); }
    }

    /** The first call of an attempt, and what becomes of it unless its answer is believed. */
    method Ask(id: string, net: Net) returns (status: Option<Status>, r: Response)
      requires Valid() && id in ops && ops[id].Unsettled()
      modifies relay, this`ops, this`health, this`inFlight, this`sawBusy
      ensures Valid() && relay.faults == old(relay.faults) && relay.edited == old(relay.edited)
        && (old(sawBusy) ==> sawBusy)
      ensures status.None? ==> !r.Record? && Ended(id, r) && (!relay.faults ==> Exact(id, net))
      ensures status.Some? ==>
        && ops == old(ops) && !old(relay.locked) && !relay.locked && sawBusy == old(sawBusy) && net.first.Delivered?
        && ValidStatus(status.value) && |ops[id].routes| <= 100 && Committed(relay.commits, id)
        && Reported(status.value, relay.journal) && Confirmed(id, ops, status.value, relay.journal, relay.commits)
      ensures !relay.faults && status.Some? ==>
        old(Takes(relay.journal, relay.commits, relay.settled, RequestOf(id, ops[id])))
      ensures status.Some? && !sawBusy && !relay.edited ==> UpToDate(id, status.value)
    {
      hide RelayService.Valid, Balanced, WellFormed, OpOk, LeftNothing, ValidRequest, SameRoutes, ValidStatus,
        StatusOf, TableOf, Wire, StoredRoutes, Takes, Clash, Still, Acceptable, Committed, Accounted, Agreed,
        OneUnsettled, Successes, CommitOps, Clean, InFlightOk, LocalTable, Known;
      status, r := None, PanelDied;
      var o := ops[id];
      BalancedOp(Current(), relay.journal, relay.commits, id);
      OpOkRequest(id, o);
      var dies: bool := *;
      var a := Call(RequestOf(id, o), net.first);
      if dies && relay.faults { return; }
      if a.Lost? { r := Fail(id, Transport); return; }
      if a.Rejected? { r := Fail(id, Remote(a.code)); return; }
      BelievedUpTo100(a.status, o.routes);
      if !ValidStatus(a.status) { r := Fail(id, InvalidResponse); return; }
      status := Some(a.status);
      if !sawBusy && !relay.edited { LatestFingerprint(id, a.status); }
    }

    /** A status of the host as it is now, with the routes stored for this operation. */
    ghost predicate UpToDate(id: string, status: Status)
      reads this, relay
    {
      && status.fingerprint == FingerprintOf(relay.Captured())
      && id in ops && SameRoutes(Wire(ops[id].routes), status.routes)
    }

    /** The confirming status must be a believable one with the same fingerprint, and carry the stored routes. */
    method Compare(id: string, status: Status, latest: Status) returns (r: Response)
      requires Valid() && id in ops && ops[id].Unsettled() && inFlight.None?
      requires Reported(status, relay.journal) && Confirmed(id, ops, status, relay.journal, relay.commits)
      modifies this`ops, this`rows, this`fingerprint, this`health, this`successes
      ensures Valid()
      ensures Ended(id, r)
      ensures !relay.faults && ValidStatus(latest) && latest.fingerprint == status.fingerprint ==>
        (r.Record? <==> SameRoutes(Wire(ops[id].routes), status.routes) && !Clash(ops[id].routes, elsewhere))
      ensures !relay.faults && !r.Record? ==> ops[id].Unsettled()
    {
      hide Confirmed, Reported, RelayService.Valid, Balanced, WellFormed, LeftNothing, SameRoutes, ValidStatus,
        Wire, Clash;
      if !ValidStatus(latest) { r := Fail(id, InvalidResponse); return; }
      if latest.fingerprint != status.fingerprint { r := Fail(id, StateConflict); return; }
      if !SameRoutes(Wire(ops[id].routes), status.routes) { r := Fail(id, StateConflict); return; }
      var done := CommitRows(id, status);
      if !done { r := Fail(id, Internal); return; }
      r := Record(ops[id]);
    }

    /** The second half of a settlement: the relay's answer is confirmed by a status call and then stored. */
    method Confirm(id: string, status: Status, queryId: string, net: Net) returns (r: Response)
      requires Valid() && id in ops && ops[id].Unsettled()
      requires QueryOk(queryId)
      requires !relay.locked && ValidStatus(status)
      requires Reported(status, relay.journal) && Confirmed(id, ops, status, relay.journal, relay.commits)
      modifies relay, this`ops, this`rows, this`fingerprint, this`health, this`inFlight, this`foreign, this`elsewhere
      modifies this`successes, this`sawBusy
      ensures Valid() && relay.faults == old(relay.faults) && (old(sawBusy) ==> sawBusy)
      ensures Ended(id, r)
      ensures relay.commits == old(relay.commits)
      ensures !relay.faults && Blocks(net) ==> ops[id].status.Failed?
      ensures !relay.faults && IsCalm(net) && !old(sawBusy) && !old(relay.edited) && old(UpToDate(id, status)) ==>
        && (if Clash(ops[id].routes, old(elsewhere)) then ops[id].Unsettled() else r.Record?)
        && !relay.locked && !sawBusy && !relay.edited && elsewhere == old(elsewhere)
    {
      hide Confirmed, Reported, RelayService.Valid, Balanced, WellFormed, SameRoutes, ValidStatus, TableOf, Wire,
        StoredRoutes, Clash, Still, LocksAtLast, ValidRequest, Quiet;
      ReportedQuiet(status, relay.journal);
      Meanwhile(net.meanwhile);
      r := Check(id, status, queryId, net.second);
    }

    /** The confirming call, and the comparison with what it says. */
    method Check(id: string, status: Status, queryId: string, fate: Fate) returns (r: Response)
      requires Valid() && id in ops && ops[id].Unsettled() && inFlight.None?
      requires QueryOk(queryId) && ValidStatus(status)
      requires Reported(status, relay.journal) && Confirmed(id, ops, status, relay.journal, relay.commits)
      modifies relay, this`ops, this`rows, this`fingerprint, this`health, this`inFlight, this`successes, this`sawBusy
      ensures Valid() && relay.faults == old(relay.faults) && (old(sawBusy) ==> sawBusy)
      ensures Ended(id, r) && relay.commits == old(relay.commits)
      ensures !relay.faults && old(relay.locked) && fate.Delivered? ==> ops[id].status.Failed?
      ensures !relay.faults && fate.Delivered? ==>
        old(!relay.locked && !sawBusy && !relay.edited && UpToDate(id, status)) ==>
        && (if Clash(ops[id].routes, elsewhere) then ops[id].Unsettled() else r.Record?)
        && !relay.locked && !sawBusy && !relay.edited
    {
      hide Confirmed, Reported, RelayService.Valid, Balanced, SameRoutes, ValidStatus, StatusOf, Clash, Quiet,
        UpToDate;
      ghost var calm := !relay.faults && !relay.locked && !sawBusy && !relay.edited && fate.Delivered?
        && UpToDate(id, status);
      ReportedQuiet(status, relay.journal);
      if calm { BelievedAgain(id, status); }
      var b := CallStatus(queryId, fate);
      r := Conclude(id, status, b);
    }

    /** Nothing failing, the confirming status is the answer's, and believed as it was. */
    lemma BelievedAgain(id: string, status: Status)
      requires Valid() && !relay.edited && Quiet(relay.journal) && UpToDate(id, status)
      requires Reported(status, relay.journal) && ValidStatus(status)
      ensures StatusOf(relay.Captured(), true).Some?
      ensures var latest := StatusOf(relay.Captured(), true).value;
        && ValidStatus(latest) && latest.fingerprint == status.fingerprint
        && SameRoutes(Wire(ops[id].routes), status.routes)
    {
      hide RelayService.Valid, Balanced, WellFormed, ValidStatus, StatusOf, SameRoutes, Wire, Quiet;
      QuietStatus();
      StatusFingerprint(relay.Captured(), true);
      SameValidity(status, StatusOf(relay.Captured(), true).value);
    }

    /** What the answer to the confirming call means for the operation. */
    method Conclude(id: string, status: Status, b: Answer) returns (r: Response)
      requires Valid() && id in ops && ops[id].Unsettled() && (b.Got? ==> inFlight.None?)
      requires Reported(status, relay.journal) && Confirmed(id, ops, status, relay.journal, relay.commits)
      requires b.Rejected? && Definite(b.code) ==> sawBusy
      modifies this`ops, this`rows, this`fingerprint, this`health, this`successes
      ensures Valid() && Ended(id, r)
      ensures !relay.faults && b.Rejected? && Definite(b.code) ==> ops[id].status.Failed?
      ensures !relay.faults && b.Got? && ValidStatus(b.status) && b.status.fingerprint == status.fingerprint ==>
        SameRoutes(Wire(ops[id].routes), status.routes) ==>
        if Clash(ops[id].routes, elsewhere) then ops[id].Unsettled() else r.Record?
    {
      hide Confirmed, Reported, RelayService.Valid, Balanced, LeftNothing, SameRoutes, ValidStatus, Wire, Clash;
      var dies: bool := *;
      if dies && relay.faults { return PanelDied; }
      match b {
        case Lost => r := Fail(id, Transport);
        case Rejected(code) => r := Fail(id, Remote(code));
        case Got(latest) => r := Compare(id, status, latest);
      }
    }

    // Requests to the Panel ------------------------------------------------------------------------

    /** Whether some operation of this relay is pending or uncertain. */
    predicate HasUnsettled()
      reads this
    {
      exists x :: x in ops && ops[x].Unsettled()
    }

    /** The known fingerprint, what the action needs, and no row of another relay for the instance. */
    ghost predicate Startable(action: Action, body: Body, d: Discovery)
      reads this
    {
      && fingerprint.Some? && body.expected == fingerprint && MayBegin(rows, action, body, d)
      && (action.Apply? ==> body.instance !in elsewhere)
    }

    /** The row inserted before anything is sent. */
    method BeginOp(id: string, action: Action, body: Body, d: Discovery) returns (reason: Option<Error>)
      requires Valid() && id !in ops && !HasUnsettled()
      requires 1 <= |id| <= 128 && All(OperationChar, id) && FreshFor(rows, d)
      modifies this`ops
      ensures Valid()
      ensures reason.Some? ==> ops == old(ops)
      ensures reason.None? ==>
        && Startable(action, body, d) && id in ops
        && ops == old(ops)[id := Operation(action, body, ops[id].params, ops[id].routes, OpStatus.Pending, None)]
        && Asks(rows, action, body, d, ops[id].params, ops[id].routes)
        && Plan(rows, action, body, d) == Ok((ops[id].params, ops[id].routes))
      ensures !relay.faults ==> (reason.None? <==> Startable(action, body, d))
    {
      hide RelayService.Valid, Balanced, Plan, MayBegin, Asks, FreshFor, OpOk, OperationChar, Clash;
      if fingerprint.None? || body.expected != fingerprint { return Some(Refused); }
      if action.Apply? && body.instance in elsewhere { return Some(Refused); }
      var plan := Plan(rows, action, body, d);
      BalancedRows(Current(), relay.journal, relay.commits);
      PlanAsks(rows, action, body, d);
      if plan.Err? { return Some(plan.error); }
      var stored: bool := *;
      if !stored && relay.faults { return Some(Internal); }
      var (params, next) := plan.value;
      var o := Operation(action, body, params, next, OpStatus.Pending, None);
      PlannedOk(Current(), relay.journal, relay.commits, id, action, body, d);
      BalancedBegin(Current(), relay.journal, relay.commits, id, o);
      ops := ops[id := o];
      return None;
    }

    predicate IsRequest(id: string, action: Action, body: Body)
      reads this
    {
      id in ops && ops[id].action == action && ops[id].body == body
    }

    /** The rows of the other operations stay, and what was asked for under this id stays. */
    twostate predicate OnlyThis(id: string)
      reads this
    {
      && (forall x :: x in old(ops) ==> x in ops && (x != id ==> ops[x] == old(ops)[x]))
      && (forall x :: x in ops ==> x in old(ops) || x == id)
      && (id in old(ops) ==> id in ops && SameRequest(ops[id], old(ops)[id]))
    }

    twostate predicate Untouched()
      reads this
    {
      ops == old(ops) && rows == old(rows) && successes == old(successes)
    }

    method Perform(id: string, action: Action, body: Body, d: Discovery, queryId: string, net: Net)
      returns (r: Response)
      requires Valid()
      requires 1 <= |id| <= 128 && All(OperationChar, id) && FreshFor(rows, d)
      requires QueryOk(queryId)
      modifies relay, this`ops, this`rows, this`fingerprint, this`health, this`inFlight, this`foreign, this`elsewhere
      modifies this`successes, this`sawBusy
      ensures Valid() && relay.faults == old(relay.faults) && (old(sawBusy) ==> sawBusy)
      ensures OnlyThis(id)
      // A repeat is answered from the row, a conflicting or failed one is refused, and neither changes anything.
      ensures old(id in ops && !ops[id].Unsettled()) ==> Untouched()
      ensures old(IsRequest(id, action, body) && ops[id].status.Succeeded?) ==> r == Record(old(ops[id]))
      ensures r.Record? ==> IsRequest(id, action, body) && ops[id] == r.operation && r.operation.status.Succeeded?
      ensures rows == old(rows)
        || (id in ops && ops[id].status.Succeeded? && rows == ops[id].routes && successes == old(successes) + [id])
      ensures old(HasUnsettled() && id !in ops) ==> Untouched()
      // What may not begin is refused; a new operation that may, and an unsettled one, come to this when nothing fails.
      ensures old(id !in ops && !HasUnsettled() && !Startable(action, body, d)) ==> Untouched() && !r.Record?
      ensures !relay.faults && old(id !in ops && !HasUnsettled() && Startable(action, body, d)) ==>
        IsRequest(id, action, body) && Exact(id, net)
          && Asks(old(rows), action, body, d, ops[id].params, ops[id].routes)
          && old(Plan(rows, action, body, d)) == Ok((ops[id].params, ops[id].routes))
      ensures !relay.faults && old(IsRequest(id, action, body) && ops[id].Unsettled()) ==> Exact(id, net)
    {
      hide RelayService.Valid, Balanced, Plan, MayBegin, Asks, FreshFor, ValidRequest, OperationChar, Clash, Takes,
        Committed, SettledAs, IsCalm, Still, Blocks, LocksAtLast;
      if id in ops {
        var o := ops[id];
        if o.action != action || o.body != body { return Thrown(Refused); }
        if o.status.Succeeded? { return Record(o); }
        if o.status.Failed? { return Thrown(if o.error.Some? then o.error.value else Remote(ApplyFailed)); }
        r := Settle(id, queryId, net);
      } else {
        if HasUnsettled() { return Thrown(Refused); }
        var reason := BeginOp(id, action, body, d);
        if reason.Some? { return Thrown(reason.value); }
        r := Settle(id, queryId, net);
      }
    }

    method Mutate(id: string, action: Action, body: Body, d: Discovery, queryId: string, net: Net) returns (r: Response)
      requires Valid()
      requires 1 <= |id| <= 128 && All(OperationChar, id) && FreshFor(rows, d)
      requires QueryOk(queryId)
      modifies relay, this
      ensures Valid() && relay.faults == old(relay.faults) && (old(sawBusy) ==> sawBusy)
      ensures old(running) ==> r == Thrown(Refused) && ops == old(ops) && rows == old(rows) && running
      ensures !old(running) ==> !running
      ensures rows == old(rows) || (id in ops && ops[id].status.Succeeded? && rows == ops[id].routes)
      ensures forall x :: x in old(ops) ==> x in ops && (x != id ==> ops[x] == old(ops)[x])
      ensures old(!running && id !in ops && !HasUnsettled() && !Startable(action, body, d)) ==>
        Untouched() && !r.Record?
      ensures !relay.faults && old(!running && id !in ops && !HasUnsettled() && Startable(action, body, d)) ==>
        IsRequest(id, action, body) && Exact(id, net)
          && Asks(old(rows), action, body, d, ops[id].params, ops[id].routes)
          && old(Plan(rows, action, body, d)) == Ok((ops[id].params, ops[id].routes))
    {
      hide RelayService.Valid, Balanced, Plan, MayBegin, Asks, FreshFor, ValidRequest, OperationChar, Clash;
      if running { return Thrown(Refused); }
      running := true;
      r := Perform(id, action, body, d, queryId, net);
      running := false;
    }

    /** Replay an operation under its own id. */
    method Reconcile(id: string, queryId: string, net: Net) returns (r: Response)
      requires Valid()
      requires QueryOk(queryId)
      modifies relay, this
      ensures Valid() && relay.faults == old(relay.faults) && (old(sawBusy) ==> sawBusy) && running == old(running)
      ensures ops.Keys == old(ops.Keys) && forall x :: x in ops && x != id ==> ops[x] == old(ops)[x]
      ensures id in ops ==> SameRequest(ops[id], old(ops)[id])
      ensures id !in ops || old(running) || old(!ops[id].Unsettled()) ==>
        ops == old(ops) && rows == old(rows) && successes == old(successes)
      ensures r.Record? && old(id in ops && ops[id].Unsettled()) ==> ops[id].status.Succeeded? && rows == ops[id].routes
      ensures !r.Record? ==> rows == old(rows)
      ensures id in ops && !r.Record? && old(ops[id].Unsettled()) ==> !ops[id].status.Succeeded?
      ensures !relay.faults && !old(running) && old(id in ops && ops[id].Unsettled()) ==> Exact(id, net)
    {
      hide RelayService.Valid, Balanced, ValidRequest, Clash;
      if id !in ops { return Thrown(Refused); }
      if running { return Thrown(Refused); }
      running := true;
      if ops[id].Unsettled() {
        r := Settle(id, queryId, net);
      } else {
        r := Record(ops[id]);
      }
      running := false;
    }

    /** The health check: the fingerprint is learnt only from a host whose routes are the local ones. */
    method CheckStatus(queryId: string, fate: Fate) returns (r: Option<Status>)
      requires Valid()
      requires QueryOk(queryId)
      modifies relay, this`fingerprint, this`health, this`inFlight, this`sawBusy
      ensures Valid() && relay.faults == old(relay.faults) && (old(sawBusy) ==> sawBusy)
      ensures relay.journal == old(relay.journal) && relay.commits == old(relay.commits)
      ensures fingerprint == old(fingerprint) ||
        (old(fingerprint).None? && r.Some? && fingerprint == Some(r.value.fingerprint)
          && SameRoutes(Wire(rows), r.value.routes))
      ensures health == Ready ==>
        && r.Some? && r.value.installed && r.value.active
        && SameRoutes(Wire(rows), r.value.routes) && fingerprint == Some(r.value.fingerprint)
      ensures r.Some? ==> |r.value.routes| <= 100 && forall x :: x in r.value.routes ==>
        && |x.id| == 36 && PublicIpv4(x.upstreamIPv4)
        && 1024 <= x.listenPort <= 65535 && 1 <= x.upstreamPort <= 65535
    {
      hide RelayService.Valid, Balanced, ValidRequest, SameRoutes, ValidStatus, TableOf, Wire, WellFormed, StatusOf,
        PublicIpv4;
      var a := CallStatus(queryId, fate);
      if a.Got? { BelievedMeans(a.status); }
      if !a.Got? || !ValidStatus(a.status) {
        health := Offline;
        return None;
      }
      var status := a.status;
      var matches := SameRoutes(Wire(rows), status.routes)
        && (fingerprint.None? || fingerprint == Some(status.fingerprint));
      health := if status.installed then (if status.active && matches then Ready else Offline) else Health.Uninstalled;
      if matches {
        BalancedLearn(Current(), relay.journal, relay.commits, status);
        fingerprint := Some(status.fingerprint);
      }
      return Some(status);
    }

    // Whole runs -------------------------------------------------------------------------------------

    /** Any events at all, interleaved with losses, crashes, drift and edits, keep the books balanced. */
    method Run(events: seq<Event>)
      requires Valid()
      modifies relay, this
      ensures Valid() && (old(sawBusy) ==> sawBusy)
      ensures forall x :: x in old(ops) ==>
        x in ops && ops[x].action == old(ops)[x].action && ops[x].routes == old(ops)[x].routes
      ensures forall x :: x in old(ops) && !old(ops)[x].Unsettled() ==> ops[x] == old(ops)[x]
    {
      hide RelayService.Valid, Balanced, Plan, ValidRequest, OperationChar, IsCalm, Still, LocksAtLast;
      for i := 0 to |events|
        invariant Valid() && (old(sawBusy) ==> sawBusy)
        invariant forall x :: x in old(ops) ==>
          x in ops && ops[x].action == old(ops)[x].action && ops[x].routes == old(ops)[x].routes
        invariant forall x :: x in old(ops) && !old(ops)[x].Unsettled() ==> ops[x] == old(ops)[x]
      {
        var faults: bool := *;
        SetFaults(faults);
        match events[i] {
          case Request(id, action, body, d, queryId, net) =>
            if 1 <= |id| <= 128 && All(OperationChar, id) && FreshFor(rows, d) && QueryOk(queryId) {
              var r := Perform(id, action, body, d, queryId, net);
            }
          case Replay(id, queryId, net) =>
            if QueryOk(queryId) {
              var r := Reconcile(id, queryId, net);
            }
          case Check(queryId, fate) =>
            if QueryOk(queryId) {
              var r := CheckStatus(queryId, fate);
            }
          case Elsewhere(move) => World(move);
        }
      }
    }

    method SetFaults(faults: bool)
      requires Valid()
      modifies relay`faults
      ensures Valid() && relay.faults == faults
    {
      hide Balanced;
      relay.faults := faults;
    }

    /**
     * Exactly once: an operation recorded as succeeded was committed by the relay, once, with this request and the
     * stored routes; one recorded as failed left nothing there and never will, provided no call was answered busy.
     */
    lemma ExactlyOnce(id: string)
      requires Valid() && id in ops
      ensures ops[id].status.Succeeded? ==>
        && (exists i :: 0 <= i < |relay.commits| && relay.commits[i].op == id)
        && (forall i, j :: 0 <= i < j < |relay.commits| ==> relay.commits[i].op != id || relay.commits[j].op != id)
        && (forall i :: 0 <= i < |relay.commits| && relay.commits[i].op == id ==>
             && relay.commits[i].action == ops[id].action && relay.commits[i].params == ops[id].params
             && TableOf(relay.commits[i].routes) == TableOf(Wire(ops[id].routes)))
      ensures ops[id].status.Failed? && !sawBusy ==>
        && (forall i :: 0 <= i < |relay.commits| ==> relay.commits[i].op != id)
        && (id in relay.journal ==> relay.journal[id].state.Failed?)
        && (inFlight.Some? && inFlight.value.op == id ==> inFlight.value.action.StatusQuery?)
    {
      hide Managed, OnePending, LocalTable, Known, OpOk, InFlightOk;
      if ops[id].status.Succeeded? {
        assert Committed(relay.commits, id);
        forall i | 0 <= i < |relay.commits| && relay.commits[i].op == id
          ensures relay.commits[i].action == ops[id].action && relay.commits[i].params == ops[id].params
        {
          assert Recorded(relay.journal, relay.commits[i]);
        }
      } else if ops[id].status.Failed? && !sawBusy {
        assert LeftNothing(id, relay.journal, relay.commits, inFlight);
      }
    }

    /** At most one operation is open, and the local table is that of the last success. */
    lemma LocalIsLastSuccess()
      requires Valid()
      ensures forall a, b :: a in ops && b in ops && ops[a].Unsettled() && ops[b].Unsettled() ==> a == b
      ensures successes == [] ==> rows == []
      ensures successes != [] ==>
        && successes[|successes| - 1] in ops && ops[successes[|successes| - 1]].status.Succeeded?
        && rows == ops[successes[|successes| - 1]].routes
    {
      hide RelayService.Valid, Agreed, Clean, Known, OpOk;
    }

    /** With every operation settled and no busy answer, local table, last commit and host all agree. */
    lemma SettledAgreement()
      requires Valid() && !HasUnsettled() && !sawBusy && Quiet(relay.journal) && !relay.edited
      ensures CommitOps(relay.commits) == successes
      ensures StoredRoutes(relay.routes).Some? && TableOf(StoredRoutes(relay.routes).value) == TableOf(Wire(rows))
    {
      hide OnePending, Known, OpOk, Accounted, InFlightOk, LeftNothing, WellFormed;
      assert CommitOps(relay.commits) == successes;
      var commits := relay.commits;
      if successes == [] {
        assert |commits| == |CommitOps(commits)| == 0;
        TableEqual([], map[]);
      } else {
        assert CommitOps(commits)[|commits| - 1] == successes[|successes| - 1];
      }
    }

    /** What a settled Panel shows is what nginx does: every enabled row has its listener in the installed text. */
    lemma RowsAreForwarded(r: LocalRoute) returns (before: string, after: string)
      requires Valid() && !HasUnsettled() && !sawBusy && Quiet(relay.journal) && !relay.edited
      requires r in rows && r.wire.enabled
      ensures relay.config ==
        Present(before + ListenText(r.wire.listenPort, r.wire.upstreamIPv4, r.wire.upstreamPort) + after)
    {
      hide RelayService.Valid, Balanced, Render, WellFormed, ListenText, LocalOk, TableOf;
      BalancedRows(Current(), relay.journal, relay.commits);
      SettledAgreement();
      relay.SettledTable();
      var routes := StoredRoutes(relay.routes).value;
      SameTableMembers(rows, routes, r);
      TableHas(Wire(rows), r.wire);
      before, after := RenderForwards(routes, r.wire);
    }

    /** Nothing is under way, nothing was answered busy, nothing was edited, nothing fails. */
    ghost predicate Calm()
      reads this, relay
    {
      !relay.faults && !relay.locked && !relay.edited && !running
    }

    /**
     * The busy corner: the request is still running on the relay when its replay is answered busy. The operation is
     * recorded as failed; when the running request ends, it has been committed exactly if the relay took it.
     */
    method BusyWhileRunning(id: string, queryId: string)
      requires Valid() && !relay.faults && !running && id in ops && ops[id].Unsettled() && QueryOk(queryId)
      requires inFlight == Some(RequestOf(id, ops[id]))
      modifies relay, this
      ensures Valid() && sawBusy && id in ops && ops[id].status.Failed?
      ensures Committed(relay.commits, id) <==>
        old(Takes(relay.journal, relay.commits, relay.settled, RequestOf(id, ops[id])))
    {
      hide RelayService.Valid, Balanced, Takes, Clash, Committed;
      NotAQuery(id);
      var r := Reconcile(id, queryId, CALM);
      EndInFlight();
    }

    /**
     * The other busy corner: the operation has been committed when somebody else's status call takes the lock before
     * the confirming call. The operation is recorded as failed, exactly unless its answer was not believed anyway.
     */
    method BusyAfterCommit(id: string, queryId: string, net: Net)
      requires Valid() && Calm() && id in ops && ops[id].Unsettled() && QueryOk(queryId) && Blocks(net)
      modifies relay, this
      ensures Valid() && id in ops
      ensures var takes := old(Takes(relay.journal, relay.commits, relay.settled, RequestOf(id, ops[id])));
        (Committed(relay.commits, id) <==> takes) && (ops[id].status.Failed? <==> !(takes && |ops[id].routes| > 100))
    {
      hide RelayService.Valid, Balanced, Takes, Clash, Blocks, Committed;
      var r := Reconcile(id, queryId, net);
    }

    /**
     * One route, no fault, no race: the answer to an apply is lost; then the same instance gets a route on another
     * relay, which the Panel allows, as it has no row of it here. The operation has been committed by this relay, and
     * however often it is reconciled, it stays unsettled, since its row can never be inserted.
     */
    method RoutedTwice(id: string, body: Body, d: Discovery, queryId: string, again: seq<string>)
      requires Valid() && Calm() && !sawBusy && id !in ops && !HasUnsettled() && Startable(Apply, body, d)
      requires 1 <= |id| <= 128 && All(OperationChar, id) && FreshFor(rows, d)
      requires InstanceRoute(rows, body.instance).None? && Plan(rows, Apply, body, d).Ok?
      requires Takes(relay.journal, relay.commits, relay.settled,
        RelayTable.Request(Apply, id, Plan(rows, Apply, body, d).value.0))
      requires QueryOk(queryId) && forall k :: 0 <= k < |again| ==> QueryOk(again[k])
      modifies relay, this
      ensures Valid() && !sawBusy && id in ops && ops[id].Unsettled() && Committed(relay.commits, id)
      ensures rows == old(rows) && body.instance in elsewhere
    {
      hide RelayService.Valid, Balanced, Takes, Clash, Committed, Plan, MayBegin, Asks, FreshFor, OperationChar,
        ValidRequest, IsCalm;
      AppliedRow(rows, body, d);
      var r := Mutate(id, Apply, body, d, queryId, Net(AnswerLost, [], Delivered));
      NoRowElsewhere(rows, elsewhere, body.instance);
      World(Reroutes(elsewhere + {body.instance}));
      ClashOf(ops[id].routes, body.instance, elsewhere);
      IsCalmCalm();
      for k := 0 to |again|
        invariant Valid() && Calm() && !sawBusy && id in ops && ops[id].Unsettled() && Committed(relay.commits, id)
        invariant rows == old(rows) && body.instance in elsewhere && Clash(ops[id].routes, elsewhere)
      {
        TakesCommitted(relay.journal, relay.commits, relay.settled, RequestOf(id, ops[id]));
        r := Reconcile(id, again[k], CALM);
      }
    }

    lemma NotAQuery(id: string)
      requires Valid() && id in ops
      ensures !ops[id].action.StatusQuery?
    {
      hide RelayService.Valid, Clash;
      assert OpOk(id, ops[id]);
    }

    /** Without busy answers and outside edits, the unsettled operation's result is the present state of the host. */
    lemma LatestFingerprint(id: string, status: Status)
      requires Valid() && !sawBusy && !relay.edited && Quiet(relay.journal)
      requires id in ops && ops[id].Unsettled() && Committed(relay.commits, id)
      requires id in relay.journal && relay.journal[id].result == Some(status)
      ensures status.fingerprint == FingerprintOf(relay.Captured())
    {
      hide Managed, Balanced, Ledger, OnePending;
      BalancedLatest(Current(), relay.journal, relay.commits, id);
      LedgerLatest(relay.journal, relay.commits, relay.applied);
      ManagedLatest(relay.settled, relay.commits);
    }

    lemma QuietStatus()
      requires Valid() && !relay.edited && Quiet(relay.journal)
      ensures StatusOf(relay.Captured(), true).Some?
    {
      ManagedStatus(relay.settled, relay.commits, true);
    }
  }

  lemma SameTableMembers(rows: seq<LocalRoute>, routes: seq<Route>, r: LocalRoute)
    requires LocalOk(rows) && WellFormed(routes) && TableOf(routes) == TableOf(Wire(rows)) && r in rows
    ensures r.wire in routes && r.wire in Wire(rows)
  {
    LocalWire(rows);
    TableMembers(routes, Wire(rows));
    var k :| 0 <= k < |rows| && rows[k] == r;
    assert Wire(rows)[k] == r.wire;
  }

  lemma TableHas(routes: seq<Route>, r: Route)
    requires r in routes
    ensures TableOf(routes) != map[]
  {
    TableLookup(routes, r.id);
    LookupHas(routes, r.id);
  }

  lemma ReportedQuiet(status: Status, journal: map<string, Journal>)
    requires Reported(status, journal)
    ensures Quiet(journal)
  {
  }

  lemma IsCalmCalm()
    ensures IsCalm(CALM)
  {
  }

  lemma TakesCommitted(journal: map<string, Journal>, commits: seq<Commit>, settled: Snapshot, q: RelayTable.Request)
    requires Committed(commits, q.op)
    ensures Takes(journal, commits, settled, q)
  {
  }

  lemma AppliedRow(rows: seq<LocalRoute>, body: Body, d: Discovery)
    requires Plan(rows, Apply, body, d).Ok?
    ensures var next := Plan(rows, Apply, body, d).value.1;
      exists k :: 0 <= k < |next| && next[k].instance == body.instance
  {
    hide Keep, WithoutInstance, PortTaken, PublicIpv4;
    var next := Plan(rows, Apply, body, d).value.1;
    assert next[|next| - 1].instance == body.instance;
  }

  lemma NoRowElsewhere(rows: seq<LocalRoute>, elsewhere: set<string>, instance: string)
    requires InstanceRoute(rows, instance).None? && !Clash(rows, elsewhere)
    ensures !Clash(rows, elsewhere + {instance})
  {
    InstanceRouteFacts(rows, instance);
    assert forall k :: 0 <= k < |rows| ==> rows[k] in rows;
  }

  lemma ClashOf(routes: seq<LocalRoute>, instance: string, elsewhere: set<string>)
    requires instance in elsewhere && exists k :: 0 <= k < |routes| && routes[k].instance == instance
    ensures Clash(routes, elsewhere)
  {
  }

  lemma BalancedRows(b: Books, journal: map<string, Journal>, commits: seq<Commit>)
    requires Balanced(b, journal, commits)
    ensures LocalOk(b.rows) && Known(b.fingerprint, b.rows)
    ensures forall id :: id in journal ==> id in b.ops
  {
    hide Clean, Agreed, Successes;
    if b.successes != [] {
      assert OpOk(b.successes[|b.successes| - 1], b.ops[b.successes[|b.successes| - 1]]);
    }
  }

  lemma PlanAction(rows: seq<LocalRoute>, action: Action, body: Body, d: Discovery)
    ensures Plan(rows, action, body, d).Ok? ==> !action.StatusQuery?
  {
  }

  /** A planned operation is a proper one: the expected fingerprint is known, so its routes are the local ones. */
  lemma PlannedOk(b: Books, journal: map<string, Journal>, commits: seq<Commit>, id: string, action: Action,
    body: Body, d: Discovery)
    requires Balanced(b, journal, commits) && b.fingerprint.Some? && body.expected == b.fingerprint
    requires 1 <= |id| <= 128 && All(OperationChar, id) && FreshFor(b.rows, d) && Plan(b.rows, action, body, d).Ok?
    ensures var (params, next) := Plan(b.rows, action, body, d).value;
      OpOk(id, Operation(action, body, params, next, OpStatus.Pending, None))
  {
    hide Balanced, Plan, MayBegin, Asks, FreshFor, OperationChar, ValidRequest, TableStep, LocalOk, TableOf;
    BalancedRows(b, journal, commits);
    PlanTable(b.rows, action, body, d, id);
    PlanAction(b.rows, action, body, d);
  }

  lemma BalancedBegin(b: Books, journal: map<string, Journal>, commits: seq<Commit>, id: string, o: Operation)
    requires Balanced(b, journal, commits) && id !in b.ops && (forall x :: x in b.ops ==> !b.ops[x].Unsettled())
    requires o.status.Pending? && OpOk(id, o)
    ensures Balanced(b.(ops := b.ops[id := o]), journal, commits)
  {
    hide OpOk, LeftNothing, ValidRequest, Committed, Known;
  }

  /** A status whose routes are the local ones makes its fingerprint a known one. */
  lemma BalancedLearn(b: Books, journal: map<string, Journal>, commits: seq<Commit>, status: Status)
    requires Balanced(b, journal, commits)
    requires StoredRoutes(status.fingerprint.routes) == Some(status.routes) && WellFormed(status.routes)
    requires SameRoutes(Wire(b.rows), status.routes)
    ensures Balanced(b.(fingerprint := Some(status.fingerprint)), journal, commits)
  {
    BalancedRows(b, journal, commits);
    hide OpOk, LeftNothing, ValidRequest, Committed, Clean, Successes, Agreed, SameRoutes;
    LocalWire(b.rows);
    SameRoutesTable(Wire(b.rows), status.routes);
  }

  lemma SameValidity(s: Status, t: Status)
    requires s.routes == t.routes
    ensures ValidStatus(s) <==> ValidStatus(t)
  {
  }

  lemma BalancedLatest(b: Books, journal: map<string, Journal>, commits: seq<Commit>, id: string)
    requires Balanced(b, journal, commits) && !b.sawBusy
    requires id in b.ops && b.ops[id].Unsettled() && Committed(commits, id)
    ensures commits != [] && commits[|commits| - 1].op == id
  {
    hide OpOk, LeftNothing, Accounted, Agreed, LocalTable, Known, InFlightOk;
    CommittedOps(commits, id);
    assert id in CommitOps(commits) && id !in b.successes;
    var u :| u in b.ops && b.ops[u].Unsettled() && CommitOps(commits) == b.successes + [u];
    assert CommitOps(commits)[|b.successes|] == commits[|b.successes|].op == u;
  }

  lemma LedgerLatest(journal: map<string, Journal>, commits: seq<Commit>, applied: seq<string>)
    requires Ledger(journal, commits, applied) && commits != []
    ensures var c := commits[|commits| - 1];
      c.op in journal && journal[c.op].result.Some? && journal[c.op].result.value.fingerprint == c.fingerprint
  {
    assert Recorded(journal, commits[|commits| - 1]);
  }

  lemma ManagedLatest(s: Snapshot, commits: seq<Commit>)
    requires Managed(s, commits) && commits != []
    ensures FingerprintOf(s) == commits[|commits| - 1].fingerprint
  {
  }

  lemma OpOkRequest(id: string, o: Operation)
    requires OpOk(id, o)
    ensures ValidRequest(RelayTable.Request(o.action, id, o.params)) && !o.action.StatusQuery? && LocalOk(o.routes)
  {
  }

  lemma StatusFingerprint(s: Snapshot, verified: bool)
    ensures StatusOf(s, verified).Some? ==> StatusOf(s, verified).value.fingerprint == FingerprintOf(s)
    ensures StatusOf(s, verified).Some? ==> Some(StatusOf(s, verified).value.routes) == StoredRoutes(s.routes)
  {
  }

  predicate IdChar(c: char) {
    IsHex(c) || c == '-'
  }

  predicate BelievedRoute(r: Route) {
    && |r.id| == 36 && All(IdChar, r.id)
    && PublicIpv4(r.upstreamIPv4)
    && 1024 <= r.listenPort <= 65535 && 1 <= r.upstreamPort <= 65535
  }

  /** What the Panel requires of a status before it believes it. */
  predicate ValidStatus(s: Status) {
    && |s.routes| <= 100
    && forall r :: r in s.routes ==> BelievedRoute(r)
  }

  lemma BelievedMeans(s: Status)
    ensures ValidStatus(s) ==> |s.routes| <= 100 && forall r :: r in s.routes ==>
      |r.id| == 36 && PublicIpv4(r.upstreamIPv4) && 1024 <= r.listenPort <= 65535 && 1 <= r.upstreamPort <= 65535
  {
    hide PublicIpv4;
  }

  lemma ValidRouteBelieved(r: Route)
    requires ValidRoute(r) && PublicIpv4(r.upstreamIPv4)
    ensures BelievedRoute(r)
  {
    hide PublicIpv4, ValidUpstream;
  }

  /** A status with the stored routes is believed exactly when there are at most a hundred of them. */
  lemma BelievedUpTo100(s: Status, rows: seq<LocalRoute>)
    requires WellFormed(s.routes) && LocalOk(rows) && TableOf(s.routes) == TableOf(Wire(rows))
    ensures SameRoutes(Wire(rows), s.routes)
    ensures ValidStatus(s) <==> |rows| <= 100
  {
    hide PublicIpv4, ValidRoute, SameRoutes, BelievedRoute, UniquePorts, DistinctKeys;
    LocalWire(rows);
    SameRoutesTable(Wire(rows), s.routes);
    SameRoutesLength(Wire(rows), s.routes);
    TableMembers(Wire(rows), s.routes);
    forall r | r in s.routes ensures BelievedRoute(r) {
      assert r in Wire(rows);
      ValidRouteBelieved(r);
    }
  }

  lemma BalancedInFlight(b: Books, journal: map<string, Journal>, commits: seq<Commit>)
    requires Balanced(b, journal, commits) && b.inFlight.Some?
    ensures ValidRequest(b.inFlight.value)
    ensures b.inFlight.value.action.StatusQuery? ||
      (OursExactly(b.ops, b.inFlight.value) && (!b.sawBusy ==> b.ops[b.inFlight.value.op].Unsettled()))
  {
  }

  lemma CleanFail(ops: map<string, Operation>, successes: seq<string>, journal: map<string, Journal>,
    commits: seq<Commit>,
    inFlight: Option<RelayTable.Request>, id: string, o: Operation)
    requires Clean(ops, successes, journal, commits, inFlight) && OneUnsettled(ops) && id in ops && ops[id].Unsettled()
    requires o.status.Uncertain? || (o.status.Failed? && LeftNothing(id, journal, commits, inFlight))
    ensures Clean(ops[id := o], successes, journal, commits, inFlight)
  {
    hide LeftNothing;
    var next := ops[id := o];
    if o.status.Failed? {
      LeftFacts(id, journal, commits, inFlight);
    }
    if CommitOps(commits) != successes {
      var u :| u in ops && ops[u].Unsettled() && CommitOps(commits) == successes + [u];
      assert CommitOps(commits)[|successes|] == u;
      CommittedOps(commits, u);
      assert u == id && next[u].Unsettled();
    }
  }

  lemma OpOkStatus(id: string, o: Operation, status: OpStatus, error: Option<Error>)
    requires OpOk(id, o)
    ensures OpOk(id, o.(status := status, error := error))
  {
  }

  lemma SuccessesFail(ops: map<string, Operation>, successes: seq<string>, commits: seq<Commit>, id: string,
    o: Operation)
    requires Successes(ops, successes, commits) && id in ops && ops[id].Unsettled() && !o.status.Succeeded?
    ensures Successes(ops[id := o], successes, commits)
  {
  }

  lemma BalancedFail(b: Books, journal: map<string, Journal>, commits: seq<Commit>, id: string, o: Operation)
    requires Balanced(b, journal, commits) && id in b.ops && b.ops[id].Unsettled()
    requires o == b.ops[id].(status := o.status, error := o.error) && o.status in {OpStatus.Failed, Uncertain}
    requires o.status.Failed? && !b.sawBusy ==> LeftNothing(id, journal, commits, b.inFlight)
    ensures Balanced(b.(ops := b.ops[id := o]), journal, commits)
  {
    hide LeftNothing, OpOk, Clean, ValidRequest, Successes;
    SuccessesFail(b.ops, b.successes, commits, id, o);
    OpOkStatus(id, b.ops[id], o.status, o.error);
    if !b.sawBusy {
      CleanFail(b.ops, b.successes, journal, commits, b.inFlight, id, o);
    }
  }

  lemma LeftFacts(id: string, journal: map<string, Journal>, commits: seq<Commit>, inFlight: Option<RelayTable.Request>)
    requires LeftNothing(id, journal, commits, inFlight)
    ensures !Committed(commits, id)
    ensures inFlight.Some? && !inFlight.value.action.StatusQuery? ==> inFlight.value.op != id
  {
  }

  lemma CleanCommit(ops: map<string, Operation>, successes: seq<string>, journal: map<string, Journal>,
    commits: seq<Commit>,
    id: string, o: Operation)
    requires Clean(ops, successes, journal, commits, None) && OneUnsettled(ops) && Successes(ops, successes, commits)
    requires id in ops && ops[id].Unsettled() && Committed(commits, id) && o.status.Succeeded?
    ensures Clean(ops[id := o], successes + [id], journal, commits, None)
  {
    hide LeftNothing;
    CommittedOps(commits, id);
    assert id in CommitOps(commits) && id !in successes;
    var u :| u in ops && ops[u].Unsettled() && CommitOps(commits) == successes + [u];
    assert u == id;
  }

  lemma SuccessesCommit(ops: map<string, Operation>, successes: seq<string>, commits: seq<Commit>, id: string,
    o: Operation)
    requires Successes(ops, successes, commits) && id in ops && ops[id].Unsettled() && Committed(commits, id)
      && o.status.Succeeded?
    ensures Successes(ops[id := o], successes + [id], commits)
  {
  }

  lemma BalancedCommit(b: Books, journal: map<string, Journal>, commits: seq<Commit>, id: string, o: Operation,
    status: Status)
    requires Balanced(b, journal, commits) && id in b.ops && b.ops[id].Unsettled() && b.inFlight.None?
    requires o == b.ops[id].(status := OpStatus.Succeeded, error := None)
    requires Committed(commits, id)
    requires StoredRoutes(status.fingerprint.routes) == Some(status.routes) && WellFormed(status.routes)
    requires TableOf(status.routes) == TableOf(Wire(o.routes))
    ensures Balanced(b.(ops := b.ops[id := o], rows := o.routes, fingerprint := Some(status.fingerprint),
      successes := b.successes + [id]), journal, commits)
  {
    hide LeftNothing, OpOk, Clean, ValidRequest, WellFormed, Successes, Committed;
    OpOkStatus(id, b.ops[id], OpStatus.Succeeded, None);
    SuccessesCommit(b.ops, b.successes, commits, id, o);
    if !b.sawBusy {
      CleanCommit(b.ops, b.successes, journal, commits, id, o);
    }
  }

  lemma BalancedBusy(b: Books, journal: map<string, Journal>, commits: seq<Commit>)
    requires Balanced(b, journal, commits)
    ensures Balanced(b.(sawBusy := true), journal, commits)
  {
  }

  lemma BalancedSent(b: Books, journal: map<string, Journal>, commits: seq<Commit>, request: RelayTable.Request)
    requires Balanced(b, journal, commits) && ValidRequest(request)
    requires request.action.StatusQuery? || (OursExactly(b.ops, request) && b.ops[request.op].Unsettled())
    ensures Balanced(b.(inFlight := Some(request)), journal, commits)
  {
    if !b.sawBusy {
      forall id | id in b.ops && b.ops[id].status.Failed? ensures LeftNothing(id, journal, commits, Some(request)) {
        assert LeftNothing(id, journal, commits, b.inFlight);
      }
    }
  }

  lemma BalancedQuery(b: Books, journal: map<string, Journal>, commits: seq<Commit>)
    requires Balanced(b, journal, commits)
    ensures Balanced(b.(inFlight := None), journal, commits)
  {
    if !b.sawBusy {
      forall id | id in b.ops && b.ops[id].status.Failed? ensures LeftNothing(id, journal, commits, None) {
        assert LeftNothing(id, journal, commits, b.inFlight);
      }
    }
  }

  lemma BalancedOp(b: Books, journal: map<string, Journal>, commits: seq<Commit>, op: string)
    requires Balanced(b, journal, commits) && op in b.ops
    ensures OpOk(op, b.ops[op]) && b.ops[op].params.expected.Some?
    ensures op in journal ==> journal[op].action == b.ops[op].action && journal[op].params == b.ops[op].params
  {
  }

  lemma BalancedAgreed(b: Books, journal: map<string, Journal>, commits: seq<Commit>)
    requires Balanced(b, journal, commits)
    ensures Agreed(b.ops, commits) && Accounted(b.ops, journal)
  {
  }
}
