/** The helper's operation journal: a bounded file that refines an unbounded history. */
module HelperJournal {
  import opened Text

  const KEPT := 10_000

  datatype Action = Create | Disable | Enable | Revoke | ApplyPolicy

  datatype Status = Started | Succeeded | Failed

  datatype Code =
    | StateWriteFailed | StateReadFailed | IdempotencyConflict | ConfigAlreadyIssued | OperationInProgress
    | InvalidRequest | InstanceNotFound | AdapterReadOnly | LockFailed | ConfigReadFailed | FingerprintConflict
    | SnapshotFailed | AddressPoolUnavailable | KeyGenerationFailed | ConfigConflict | ClientTemplateUnavailable
    | MutationRolledBack | PeerNotFound | SuspendedStateNotFound

  /** The request hash is taken to be injective: it is the request's parameters. */
  datatype Record = Record(op: string, action: Action, parameters: string, status: Status, result: string, error: Code)

  /** What a request is told: to go ahead, or the answer of an earlier one. */
  datatype Decision = Execute | Repeated(result: string) | Refused(code: Code)

  /** One access to a file: it took effect, it failed without effect, or the process died before it. */
  datatype Access = Done | Failing | Crashed

  function Last(records: seq<Record>, op: string): Option<Record> {
    if records == [] then None
    else if records[|records| - 1].op == op then Some(records[|records| - 1])
    else Last(records[..|records| - 1], op)
  }

  function Suffix(records: seq<Record>, n: nat): seq<Record> {
    if |records| <= n then records else records[|records| - n..]
  }

  /** How a request is answered from the latest record of its operation id. */
  function Decide(latest: Option<Record>, action: Action, parameters: string): Decision {
    match latest
    case None => Execute
    case Some(r) =>
      if r.action != action then Refused(IdempotencyConflict)
      else if r.parameters != parameters then Refused(IdempotencyConflict)
      else if r.status.Succeeded? then if action.Create? then Refused(ConfigAlreadyIssued) else Repeated(r.result)
      else if r.status.Started? then Refused(OperationInProgress)
      else Refused(r.error)
  }

  /** The answer an earlier record makes a repeated id get: its own, in progress, or that the request differs. */
  predicate AnswersFrom(r: Record, action: Action, parameters: string, d: Decision) {
    && !d.Execute?
    && (r.action != action || r.parameters != parameters ==> d == Refused(IdempotencyConflict))
    && (r.action == action && r.parameters == parameters ==>
         && (r.status.Started? ==> d == Refused(OperationInProgress))
         && (r.status.Failed? ==> d == Refused(r.error))
         && (r.status.Succeeded? && action.Create? ==> d == Refused(ConfigAlreadyIssued))
         && (r.status.Succeeded? && !action.Create? ==> d == Repeated(r.result)))
  }

  /** No later record has this one's id. */
  ghost predicate Latest(records: seq<Record>, k: nat) {
    k < |records| && forall j :: k < j < |records| ==> records[j].op != records[k].op
  }

  lemma DecideAnswers(latest: Option<Record>, action: Action, parameters: string)
    ensures var d := Decide(latest, action, parameters);
      (d.Execute? <==> latest.None?) && (latest.Some? ==> AnswersFrom(latest.value, action, parameters, d))
  {
  }

  lemma {:induction false} LatestIsLast(records: seq<Record>, k: nat)
    requires Latest(records, k)
    ensures Last(records, records[k].op) == Some(records[k])
    decreases |records|
  {
    var n := |records| - 1;
    if k < n {
      assert records[..n][k] == records[k];
      LatestIsLast(records[..n], k);
    }
  }

  /** An id that no record has goes ahead; any other is answered from its latest record. */
  lemma DecideMeans(records: seq<Record>, op: string, action: Action, parameters: string)
    ensures var d := Decide(Last(records, op), action, parameters);
      && (d.Execute? <==> forall r :: r in records ==> r.op != op)
      && forall k :: 0 <= k < |records| && Latest(records, k) && records[k].op == op ==>
        AnswersFrom(records[k], action, parameters, d)
  {
    hide Last, Decide, AnswersFrom, Latest;
    LastNone(records, op);
    DecideAnswers(Last(records, op), action, parameters);
    forall k | 0 <= k < |records| && Latest(records, k) && records[k].op == op
      ensures Last(records, op) == Some(records[k])
    {
      LatestIsLast(records, k);
    }
  }

  lemma {:induction false} LastNone(records: seq<Record>, op: string)
    ensures Last(records, op).None? <==> forall r :: r in records ==> r.op != op
    ensures Last(records, op).Some? ==> Last(records, op).value in records && Last(records, op).value.op == op
  {
    if records != [] {
      var k := |records| - 1;
      LastNone(records[..k], op);
      assert records == records[..k] + [records[k]];
    }
  }

  lemma {:induction false} LastAppend(a: seq<Record>, b: seq<Record>, op: string)
    ensures Last(a + b, op) == if Last(b, op).Some? then Last(b, op) else Last(a, op)
  {
    if b == [] {
      assert a + b == a;
    } else {
      assert (a + b)[..|a + b| - 1] == a + b[..|b| - 1];
      LastAppend(a, b[..|b| - 1], op);
    }
  }

  lemma SuffixSplit(records: seq<Record>, n: nat)
    ensures |Suffix(records, n)| == if |records| <= n then |records| else n
    ensures records[..|records| - |Suffix(records, n)|] + Suffix(records, n) == records
  {
  }

  /** The file is a suffix of everything ever appended, and holds at least the latest ten thousand records. */
  ghost predicate Refines(records: seq<Record>, history: seq<Record>) {
    && |records| <= |history|
    && records == history[|history| - |records|..]
    && (|records| >= KEPT || |records| == |history|)
  }

  /** An operation begins only when no record of its id is among the latest ten thousand. */
  ghost predicate StartsOnce(history: seq<Record>) {
    forall i, j :: 0 <= i < j < |history| && history[j].status.Started? && history[i].op == history[j].op ==>
      i + KEPT < j
  }

  /**
   * The bounded journal decides like the unbounded one as long as the latest ten thousand records hold one of the
   * operation's; and if they do not, either decides to execute or answers from a record that is older.
   */
  lemma DecidesLikeHistory(records: seq<Record>, history: seq<Record>, op: string, action: Action, parameters: string)
    requires Refines(records, history)
    ensures Last(Suffix(history, KEPT), op).Some? ==>
      Decide(Last(records, op), action, parameters) == Decide(Last(history, op), action, parameters) != Execute
    ensures Last(history, op).None? ==> Decide(Last(records, op), action, parameters) == Execute
  {
    hide Last;
    var older := history[..|history| - |records|];
    assert history == older + records;
    LastAppend(older, records, op);
    var window := Suffix(history, KEPT);
    assert |window| <= |records|;
    var front := records[..|records| - |window|];
    assert records == front + window;
    LastAppend(front, window, op);
  }

  lemma AddKeeps(records: seq<Record>, history: seq<Record>, r: Record)
    requires Refines(records, history) && StartsOnce(history) && !r.status.Started?
    ensures Refines(Suffix(records + [r], KEPT), history + [r]) && StartsOnce(history + [r])
  {
  }

  lemma BeginKeeps(records: seq<Record>, history: seq<Record>, r: Record)
    requires Refines(records, history) && StartsOnce(history) && Last(records, r.op).None?
    ensures Refines(records + [r], history + [r]) && StartsOnce(history + [r])
  {
    hide Last;
    LastNone(records, r.op);
    var older := |history| - |records|;
    forall i | older <= i < |history| ensures history[i].op != r.op {
      assert history[i] == records[i - older] && records[i - older] in records;
    }
  }

  class Journal {
    var records: seq<Record>
    // When false, no access fails and no process dies.
    var faults: bool
    // Everything ever appended.
    ghost var history: seq<Record>

    ghost predicate Valid()
      reads this
    {
      Refines(records, history) && StartsOnce(history)
    }

    constructor ()
      ensures Valid() && records == [] && history == [] && faults
    {
      records, history, faults := [], [], true;
    }

    /** AddJournal: append, and drop the oldest beyond ten thousand. */
    method AddJournal(record: Record) returns (a: Access)
      requires Valid() && !record.status.Started?
      modifies this`records, this`history
      ensures Valid()
      ensures history == if a.Done? then old(history) + [record] else old(history)
      ensures records == if a.Done? then Suffix(old(records) + [record], KEPT) else old(records)
      ensures a.Done? ==> records <= old(records) + [record] || |records| == 10_000
      ensures !faults ==> a.Done?
    {
      hide StartsOnce, Refines;
      a := *;
      if !faults { a := Done; }
      if a.Done? {
        AddKeeps(records, history, record);
        var next := records + [record];
        if |next| > KEPT {
          next := next[|next| - KEPT..];
        }
        records := next;
        history := history + [record];
      }
    }

    /** BeginJournal: the latest record of the operation, or a new one that says it has started. */
    method BeginJournal(record: Record) returns (a: Access, existing: Option<Record>, created: bool)
      requires Valid() && record.status.Started?
      modifies this`records, this`history
      ensures Valid()
      ensures a.Done? ==> existing == Last(old(records), record.op) && (created <==> existing.None?)
      ensures created ==> a.Done?
      ensures history == if created then old(history) + [record] else old(history)
      ensures records == if created then old(records) + [record] else old(records)
      ensures !faults ==> a.Done?
    {
      hide Last, StartsOnce, Refines;
      a, existing, created := *, None, false;
      if !faults { a := Done; }
      if !a.Done? { return; }
      var index := |records|;
      assert records[..index] == records;
      while index > 0
        invariant 0 <= index <= |records|
        invariant Last(records, record.op) == Last(records[..index], record.op)
        modifies {}
      {
        index := index - 1;
        LastStep(records, index, record.op);
        if records[index].op == record.op {
          existing := Some(records[index]);
          return;
        }
      }
      assert records[..0] == [];
      LastEmpty(record.op);
      BeginKeeps(records, history, record);
      records := records + [record];
      history := history + [record];
      created := true;
    }

    /** Whether a request executes, and if not, what it is told. */
    method Replay(op: string, action: Action, parameters: string) returns (a: Access, d: Decision)
      requires Valid()
      modifies this`records, this`history
      ensures Valid()
      ensures a.Done? ==> d == Decide(Last(old(records), op), action, parameters)
      ensures a.Done? ==> (d.Execute? <==> forall r :: r in old(records) ==> r.op != op)
      ensures a.Done? ==> forall k :: 0 <= k < |old(records)| && Latest(old(records), k) && old(records)[k].op == op ==>
        AnswersFrom(old(records)[k], action, parameters, d)
      ensures a.Failing? ==> d == Refused(StateWriteFailed)
      ensures history ==
        if a.Done? && d.Execute? then old(history) + [Record(op, action, parameters, Started, "", StateWriteFailed)]
          else old(history)
      ensures records ==
        if a.Done? && d.Execute? then old(records) + [Record(op, action, parameters, Started, "", StateWriteFailed)]
          else old(records)
      ensures !faults ==> a.Done?
    {
      hide Last, StartsOnce, Refines, AnswersFrom, Latest;
      DecideMeans(records, op, action, parameters);
      var record := Record(op, action, parameters, Started, "", StateWriteFailed);
      var existing, created;
      a, existing, created := BeginJournal(record);
      if !a.Done? { return a, Refused(StateWriteFailed); }
      if created { return a, Execute; }
      var r := existing.value;
      if r.action != action { return a, Refused(IdempotencyConflict); }
      if r.parameters != parameters { return a, Refused(IdempotencyConflict); }
      if r.status.Succeeded? {
        if action.Create? { return a, Refused(ConfigAlreadyIssued); }
        return a, Repeated(r.result);
      }
      if r.status.Started? { return a, Refused(OperationInProgress); }
      return a, Refused(r.error);
    }

    /**
     * Over any run, with crashes anywhere: of two executions of one operation id, the second began only after ten
     * thousand other records had followed every record of the first.
     */
    lemma ExecutesOnce(i: nat, j: nat)
      requires Valid() && i < j < |history| && history[i].op == history[j].op && history[j].status.Started?
      ensures i + 10_000 < j
    {
    }
  }

  lemma LastStep(records: seq<Record>, index: nat, op: string)
    requires index < |records|
    ensures Last(records[..index + 1], op) == if records[index].op == op then Some(records[index])
      else Last(records[..index], op)
  {
    assert records[..index + 1][..index] == records[..index];
  }

  lemma LastEmpty(op: string)
    ensures Last([], op) == None
  {
  }
}
