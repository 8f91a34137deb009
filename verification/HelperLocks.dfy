/**
 * File locks shared by any number of helper processes: what one process may do, and what follows for all of them
 * together when every one of them keeps to it.
 */
module HelperLocks {
  import opened Text

  datatype Lock = PoliciesLock | InstanceLock(id: string) | JournalLock

  /** The files that are read, changed and written back. */
  datatype Cell = SuspendedFile | PoliciesFile | ConfigFile(id: string) | JournalFile

  /** The order in which locks are taken. */
  function Rank(l: Lock): nat {
    match l
    case PoliciesLock => 0
    case InstanceLock(_) => 1
    case JournalLock => 2
  }

  function Guard(c: Cell): Lock {
    match c
    case SuspendedFile => PoliciesLock
    case PoliciesFile => PoliciesLock
    case ConfigFile(id) => InstanceLock(id)
    case JournalFile => JournalLock
  }

  /**
   * Where a process keeps what it has read of a file: in the call itself, or, for the policies, in the list an
   * enforcement pass goes through, while the calls it makes read and write the file on their own.
   */
  datatype Copy = Own | Listed

  datatype Event =
    | Want(lock: Lock) | Acquire(lock: Lock) | Release(lock: Lock) | Load(cell: Cell, copy: Copy) | Store(cell: Cell,
      copy: Copy) | Die

  /**
   * One process: the locks it holds, the one it waits for, its copies of files, and those it has itself overwritten
   * since.
   */
  datatype Local = Local(held: set<Lock>, wanted: Option<Lock>, loaded: set<(Cell, Copy)>, stale: set<(Cell, Copy)>)

  const IDLE := Local({}, None, {}, {})

  /** A lock is only asked for above all locks held, a file is only written back under the lock it was read under. */
  predicate Allowed(l: Local, e: Event) {
    match e
    case Want(k) => l.wanted.None? && forall h :: h in l.held ==> Rank(h) < Rank(k)
    case Acquire(k) => l.wanted == Some(k)
    case Release(k) => l.wanted.None? && k in l.held
    case Load(c, t) => l.wanted.None? && Guard(c) in l.held && (t.Listed? ==> c == PoliciesFile)
    case Store(c, t) => l.wanted.None? && (c, t) in l.loaded && (t.Own? ==> (c, t) !in l.stale)
    case Die => true
  }

  function Next(l: Local, e: Event): Local {
    match e
    case Want(k) => l.(wanted := Some(k))
    case Acquire(k) => l.(wanted := None, held := l.held + {k})
    case Release(k) => l.(held := l.held - {k}, loaded := Unguarded(l.loaded, k), stale := Unguarded(l.stale, k))
    case Load(c, t) => l.(loaded := l.loaded + {(c, t)}, stale := l.stale - {(c, t)})
    case Store(c, t) => l.(stale := (set x | x in l.stale && x.0 != c) + set x | x in l.loaded && x.0 == c && x.1 != t)
    case Die => IDLE
  }

  function Unguarded(copies: set<(Cell, Copy)>, k: Lock): set<(Cell, Copy)> {
    set x | x in copies && Guard(x.0) != k
  }

  predicate Steady(l: Local) {
    && (forall x :: x in l.loaded ==> Guard(x.0) in l.held && (x.1.Listed? ==> x.0 == PoliciesFile))
    && l.stale <= l.loaded && (forall x :: x in l.stale ==> x.0 == PoliciesFile)
    && (l.wanted.Some? ==> forall h :: h in l.held ==> Rank(h) < Rank(l.wanted.value))
  }

  /** Where a process is after what it did. */
  function After(trace: seq<Event>): Local {
    if trace == [] then IDLE else Next(After(trace[..|trace| - 1]), trace[|trace| - 1])
  }

  /** Everything a process did was allowed when it did it. */
  predicate Obeys(trace: seq<Event>) {
    trace != [] ==> Obeys(trace[..|trace| - 1]) && Allowed(After(trace[..|trace| - 1]), trace[|trace| - 1])
  }

  /** The process writes a copy that it has itself overwritten in the file since it read it. */
  predicate Overwrites(l: Local, e: Event) {
    e.Store? && (e.cell, e.copy) in l.stale
  }

  predicate Careful(trace: seq<Event>) {
    trace != [] ==> Careful(trace[..|trace| - 1]) && !Overwrites(After(trace[..|trace| - 1]), trace[|trace| - 1])
  }

  // All processes together -------------------------------------------------------------------------

  /**
   * A write of a file: by whom, how many writes the file had seen when its writer's copy was made, and if that was
   * stale.
   */
  datatype Write = Write(process: nat, base: nat, stale: bool)

  datatype System = System(processes: map<nat, Local>, bases: map<(nat, Cell, Copy), nat>,
    writes: map<Cell, seq<Write>>)

  function WritesOf(s: System, c: Cell): seq<Write> {
    if c in s.writes then s.writes[c] else []
  }

  predicate Held(s: System, k: Lock) {
    exists p :: p in s.processes && k in s.processes[p].held
  }

  predicate Enabled(s: System, p: nat, e: Event) {
    && p in s.processes && Allowed(s.processes[p], e)
    && (e.Acquire? ==> !Held(s, e.lock))
    && (e.Store? ==> (p, e.cell, e.copy) in s.bases)
  }

  /** A file lock is granted to one process at a time, and a dying process leaves none behind. */
  function Run(s: System, p: nat, e: Event): System
    requires Enabled(s, p, e)
  {
    var moved := s.(processes := s.processes[p := Next(s.processes[p], e)]);
    match e
    case Load(c, t) => moved.(bases := s.bases[(p, c, t) := |WritesOf(s, c)|])
    case Store(c, t) =>
      moved.(writes := s.writes[c := WritesOf(s, c) + [Write(p, s.bases[(p, c, t)], Overwrites(s.processes[p], e))]],
             bases := s.bases[(p, c, t) := |WritesOf(s, c)| + 1])
    case _ => moved
  }

  /** Every write is based on the write before it. */
  predicate NothingLost(writes: seq<Write>) {
    forall i :: 0 <= i < |writes| ==> writes[i].base == i
  }

  /** Every write is based on the write before it, except exactly those of stale copies. */
  predicate LostIfStale(writes: seq<Write>) {
    forall i :: 0 <= i < |writes| ==> (writes[i].base == i <==> !writes[i].stale)
  }

  predicate AnyStale(writes: seq<Write>) {
    exists i :: 0 <= i < |writes| && writes[i].stale
  }

  ghost predicate Safe(s: System) {
    && (forall p :: p in s.processes ==> Steady(s.processes[p]))
    && (forall p, q, k ::
      p in s.processes && q in s.processes && k in s.processes[p].held && k in s.processes[q].held ==> p == q)
    && (forall c :: LostIfStale(WritesOf(s, c)))
    && (forall c :: AnyStale(WritesOf(s, c)) ==> c == PoliciesFile)
    && (forall p, x :: p in s.processes && x in s.processes[p].loaded ==> Current(s, p, x))
  }

  /** A copy is what the file says, unless its process has overwritten it. */
  predicate Current(s: System, p: nat, x: (Cell, Copy)) {
    && p in s.processes && (p, x.0, x.1) in s.bases
    && if x in s.processes[p].stale then s.bases[(p, x.0, x.1)] < |WritesOf(s, x.0)|
      else s.bases[(p, x.0, x.1)] == |WritesOf(s, x.0)|
  }

  lemma SteadyStep(l: Local, e: Event)
    requires Steady(l) && Allowed(l, e)
    ensures Steady(Next(l, e))
  {
  }

  lemma LoadedIsHeld(s: System, p: nat, x: (Cell, Copy))
    requires Safe(s) && p in s.processes && x in s.processes[p].loaded
    ensures Guard(x.0) in s.processes[p].held
  {
    assert Steady(s.processes[p]);
  }

  lemma ExclusionStep(s: System, p: nat, e: Event)
    requires Safe(s) && Enabled(s, p, e)
    ensures var next := Run(s, p, e);
      forall q, r, k ::
        q in next.processes && r in next.processes && k in next.processes[q].held && k in next.processes[r].held ==>
          q == r
  {
    hide LostIfStale, AnyStale, Current, Steady;
    var next := Run(s, p, e);
    assert forall q :: e.Acquire? && q in s.processes ==> e.lock !in s.processes[q].held;
    forall q, r, k | q in next.processes && r in next.processes && k in next.processes[q].held
      && k in next.processes[r].held
      ensures q == r
    {
      if !(e.Acquire? && k == e.lock) {
        assert k in s.processes[q].held && k in s.processes[r].held;
      }
    }
  }

  lemma CurrentStep(s: System, p: nat, e: Event, q: nat, x: (Cell, Copy))
    requires Safe(s) && Enabled(s, p, e)
    requires q in Run(s, p, e).processes && x in Run(s, p, e).processes[q].loaded
    ensures Current(Run(s, p, e), q, x)
  {
    hide LostIfStale, AnyStale, Steady;
    if !(q == p && e == Load(x.0, x.1)) {
      assert x in s.processes[q].loaded;
      assert Current(s, q, x);
      if e.Store? && e.cell == x.0 && p != q {
        LoadedIsHeld(s, p, (e.cell, e.copy));
        LoadedIsHeld(s, q, x);
      }
    }
  }

  lemma WritesStep(s: System, p: nat, e: Event, c: Cell)
    requires Safe(s) && Enabled(s, p, e)
    ensures LostIfStale(WritesOf(Run(s, p, e), c))
    ensures AnyStale(WritesOf(Run(s, p, e), c)) <==>
      AnyStale(WritesOf(s, c)) || (e.Store? && e.cell == c && Overwrites(s.processes[p], e))
    ensures AnyStale(WritesOf(Run(s, p, e), c)) ==> c == PoliciesFile
  {
    assert LostIfStale(WritesOf(s, c));
    var before, after := WritesOf(s, c), WritesOf(Run(s, p, e), c);
    if e.Store? && e.cell == c {
      assert Current(s, p, (e.cell, e.copy)) && Steady(s.processes[p]);
      assert after == before + [after[|before|]];
      if AnyStale(before) {
        var i :| 0 <= i < |before| && before[i].stale;
        assert after[i].stale;
      }
      if Overwrites(s.processes[p], e) { assert after[|before|].stale; }
    } else {
      assert after == before;
    }
  }

  lemma SafeStep(s: System, p: nat, e: Event)
    requires Safe(s) && Enabled(s, p, e)
    ensures Safe(Run(s, p, e))
  {
    var next := Run(s, p, e);
    forall q | q in next.processes ensures Steady(next.processes[q]) {
      assert Steady(s.processes[q]);
      if q == p { SteadyStep(s.processes[p], e); }
    }
    hide Steady, Current, LostIfStale, AnyStale, Enabled, Next;
    ExclusionStep(s, p, e);
    forall c ensures LostIfStale(WritesOf(next, c)) && (AnyStale(WritesOf(next, c)) ==> c == PoliciesFile) {
      WritesStep(s, p, e, c);
    }
    forall q, x | q in next.processes && x in next.processes[q].loaded ensures Current(next, q, x) {
      CurrentStep(s, p, e, q, x);
    }
  }

  function Idle(processes: set<nat>): System {
    System(map p | p in processes :: IDLE, map[], map[])
  }

  /** The state after some interleaving of what the processes do. */
  ghost predicate Reaches(processes: set<nat>, events: seq<(nat, Event)>, s: System) {
    if events == [] then s == Idle(processes)
    else
      var (p, e) := events[|events| - 1];
      exists before ::
        Reaches(processes, events[..|events| - 1], before) && Enabled(before, p, e) && s == Run(before, p, e)
  }

  lemma ReachesStep(processes: set<nat>, events: seq<(nat, Event)>, s: System, p: nat, e: Event)
    requires Reaches(processes, events, s) && Enabled(s, p, e)
    ensures Reaches(processes, events + [(p, e)], Run(s, p, e))
  {
    var more := events + [(p, e)];
    assert more[..|more| - 1] == events && more[|more| - 1] == (p, e);
    hide Enabled, Run;
  }

  lemma {:induction false} ReachableIsSafe(processes: set<nat>, events: seq<(nat, Event)>, s: System)
    requires Reaches(processes, events, s)
    ensures Safe(s) && s.processes.Keys == processes
  {
    hide Enabled;
    if events != [] {
      var (p, e) := events[|events| - 1];
      var before :| Reaches(processes, events[..|events| - 1], before) && Enabled(before, p, e)
        && s == Run(before, p, e);
      ReachableIsSafe(processes, events[..|events| - 1], before);
      SafeStep(before, p, e);
      assert p in before.processes by { EnabledProcess(before, p, e); }
    }
  }

  lemma EnabledProcess(s: System, p: nat, e: Event)
    requires Enabled(s, p, e)
    ensures p in s.processes && Run(s, p, e).processes == s.processes[p := Next(s.processes[p], e)]
  {
  }

  // No deadlock ------------------------------------------------------------------------------------

  /** p waits for a lock that q holds. */
  predicate WaitsFor(s: System, p: nat, q: nat) {
    && p in s.processes && q in s.processes
    && s.processes[p].wanted.Some? && s.processes[p].wanted.value in s.processes[q].held
  }

  predicate WaitChain(s: System, chain: seq<nat>) {
    forall i :: 0 <= i < |chain| - 1 ==> WaitsFor(s, chain[i], chain[i + 1])
  }

  lemma {:induction false} ChainRises(s: System, chain: seq<nat>)
    requires Safe(s) && WaitChain(s, chain) && |chain| >= 3
    ensures Waiting(s, chain[0]) && Waiting(s, chain[|chain| - 2])
    ensures Rank(s.processes[chain[0]].wanted.value) < Rank(s.processes[chain[|chain| - 2]].wanted.value)
  {
    var n := |chain|;
    assert WaitsFor(s, chain[0], chain[1]) && WaitsFor(s, chain[1], chain[1 + 1]);
    assert Steady(s.processes[chain[1]]);
    if n > 3 {
      var tail := chain[1..];
      forall i | 0 <= i < |tail| - 1 ensures WaitsFor(s, tail[i], tail[i + 1]) {
        assert WaitsFor(s, chain[i + 1], chain[i + 1 + 1]);
      }
      ChainRises(s, tail);
    }
  }

  /** However the processes interleave, no chain of waiting processes ever closes into a cycle. */
  lemma NoWaitCycle(processes: set<nat>, events: seq<(nat, Event)>, s: System, chain: seq<nat>)
    requires Reaches(processes, events, s) && |chain| >= 2 && WaitChain(s, chain)
    ensures chain[0] != chain[|chain| - 1]
  {
    hide Reaches;
    ReachableIsSafe(processes, events, s);
    var n := |chain|;
    assert WaitsFor(s, chain[0], chain[0 + 1]);
    assert WaitsFor(s, chain[n - 2], chain[n - 2 + 1]);
    assert Steady(s.processes[chain[0]]);
    if n >= 3 { ChainRises(s, chain); }
  }

  predicate Waiting(s: System, p: nat) {
    p in s.processes && s.processes[p].wanted.Some?
  }

  /** A waiting process whose lock is free, or a holder of locks that waits for nothing. */
  predicate CanGoOn(s: System, q: nat) {
    && q in s.processes
    && if s.processes[q].wanted.Some? then Enabled(s, q, Acquire(s.processes[q].wanted.value))
      else s.processes[q].held != {}
  }

  /** Whenever somebody waits, somebody can go on. */
  lemma Progress(processes: set<nat>, events: seq<(nat, Event)>, s: System, p: nat)
    requires Reaches(processes, events, s) && Waiting(s, p)
    ensures exists q :: CanGoOn(s, q)
  {
    hide Reaches;
    ReachableIsSafe(processes, events, s);
    ProgressFrom(s, p);
  }

  lemma {:induction false} ProgressFrom(s: System, p: nat)
    requires Safe(s) && Waiting(s, p)
    ensures exists q :: CanGoOn(s, q)
    decreases 2 - Rank(s.processes[p].wanted.value)
  {
    var k := s.processes[p].wanted.value;
    if Held(s, k) {
      var q :| q in s.processes && k in s.processes[q].held;
      assert Steady(s.processes[q]);
      if Waiting(s, q) {
        ProgressFrom(s, q);
      } else {
        assert CanGoOn(s, q);
      }
    } else {
      assert CanGoOn(s, p);
    }
  }

  lemma {:induction false} ObeysSteady(trace: seq<Event>)
    requires Obeys(trace)
    ensures Steady(After(trace))
  {
    if trace != [] {
      ObeysSteady(trace[..|trace| - 1]);
      SteadyStep(After(trace[..|trace| - 1]), trace[|trace| - 1]);
    }
  }

  lemma ObeysStep(trace: seq<Event>, e: Event)
    requires Obeys(trace) && Allowed(After(trace), e)
    ensures Obeys(trace + [e]) && After(trace + [e]) == Next(After(trace), e)
  {
    assert (trace + [e])[..|trace|] == trace;
  }

  /** What one process did in an interleaving. */
  function EventsOf(events: seq<(nat, Event)>, p: nat): seq<Event> {
    if events == [] then []
    else
      var (q, e) := events[|events| - 1];
      EventsOf(events[..|events| - 1], p) + if q == p then [e] else []
  }

  /** In every interleaving each process keeps to the discipline, and is where its own events leave it. */
  lemma {:induction false} EachProcessObeys(processes: set<nat>, events: seq<(nat, Event)>, s: System, p: nat)
    requires Reaches(processes, events, s) && p in processes
    ensures p in s.processes && Obeys(EventsOf(events, p)) && After(EventsOf(events, p)) == s.processes[p]
  {
    hide Enabled, Allowed, Next;
    if events != [] {
      var (q, e) := events[|events| - 1];
      var before :| Reaches(processes, events[..|events| - 1], before) && Enabled(before, q, e)
        && s == Run(before, q, e);
      EachProcessObeys(processes, events[..|events| - 1], before, p);
      EnabledProcess(before, q, e);
      var trace := EventsOf(events[..|events| - 1], p);
      assert trace + [] == trace;
      if q == p {
        assert Allowed(before.processes[p], e) by { EnabledAllowed(before, p, e); }
        ObeysStep(trace, e);
      }
    }
  }

  lemma EnabledAllowed(s: System, p: nat, e: Event)
    requires Enabled(s, p, e)
    ensures p in s.processes && Allowed(s.processes[p], e)
  {
  }

  // Lost updates -----------------------------------------------------------------------------------

  /**
   * However the processes interleave and die: a write of a shared file is based on the write before it, unless its own
   * process has overwritten its copy; only a pass's list of policies is ever written like that.
   */
  lemma NoUpdateLost(processes: set<nat>, events: seq<(nat, Event)>, s: System, c: Cell)
    requires Reaches(processes, events, s)
    ensures forall i :: 0 <= i < |WritesOf(s, c)| ==> (WritesOf(s, c)[i].base == i <==> !WritesOf(s, c)[i].stale)
    ensures c != PoliciesFile ==> NothingLost(WritesOf(s, c))
    ensures NothingLost(WritesOf(s, PoliciesFile)) <==> forall p :: p in processes ==> Careful(EventsOf(events, p))
  {
    hide Reaches, EventsOf, Careful;
    ReachableIsSafe(processes, events, s);
    StaleIsCareless(processes, events, s);
    assert LostIfStale(WritesOf(s, c)) && LostIfStale(WritesOf(s, PoliciesFile));
    assert c != PoliciesFile ==> !AnyStale(WritesOf(s, c));
  }

  /** A stale list has been written exactly if some process was careless. */
  lemma {:induction false} StaleIsCareless(processes: set<nat>, events: seq<(nat, Event)>, s: System)
    requires Reaches(processes, events, s)
    ensures AnyStale(WritesOf(s, PoliciesFile)) <==> exists p :: p in processes && !Careful(EventsOf(events, p))
  {
    hide Enabled, Allowed, Next, Safe, WritesOf, Run;
    if events == [] {
      assert WritesOf(s, PoliciesFile) == [] by { NoWrites(processes, s); }
    } else {
      var start := events[..|events| - 1];
      var (q, e) := events[|events| - 1];
      var before :| Reaches(processes, start, before) && Enabled(before, q, e) && s == Run(before, q, e);
      StaleIsCareless(processes, start, before);
      ReachableIsSafe(processes, start, before);
      EnabledProcess(before, q, e);
      EachProcessObeys(processes, start, before, q);
      WritesStep(before, q, e, PoliciesFile);
      StaleCell(before, q, e);
      assert Careful(EventsOf(events, q)) <==> Careful(EventsOf(start, q)) && !Overwrites(before.processes[q], e) by {
        CarefulStep(EventsOf(start, q), e);
      }
      forall p | p in processes && p != q ensures EventsOf(events, p) == EventsOf(start, p) { }
    }
  }

  lemma NoWrites(processes: set<nat>, s: System)
    requires Reaches(processes, [], s)
    ensures WritesOf(s, PoliciesFile) == []
  {
  }

  lemma StaleCell(s: System, p: nat, e: Event)
    requires Safe(s) && Enabled(s, p, e)
    ensures p in s.processes && (Overwrites(s.processes[p], e) ==> e.cell == PoliciesFile)
  {
    assert Steady(s.processes[p]);
  }

  lemma CarefulStep(trace: seq<Event>, e: Event)
    ensures Careful(trace + [e]) <==> Careful(trace) && !Overwrites(After(trace), e)
  {
    assert (trace + [e])[..|trace|] == trace;
  }

  // From what each process does to what all of them do ---------------------------------------------------

  /** The system only decides who gets a free lock. */
  ghost predicate Granted(processes: set<nat>, events: seq<(nat, Event)>) {
    forall k :: 0 <= k < |events| ==>
      && events[k].0 in processes
      && (events[k].1.Acquire? ==> forall q :: q in processes ==>
        events[k].1.lock !in After(EventsOf(events[..k], q)).held)
  }

  /** Any interleaving of processes each of which obeys is one the system reaches. */
  lemma {:induction false} LawfulIsReached(processes: set<nat>, events: seq<(nat, Event)>) returns (s: System)
    requires Granted(processes, events) && forall p :: p in processes ==> Obeys(EventsOf(events, p))
    ensures Reaches(processes, events, s)
  {
    hide *;
    if events == [] {
      s := Idle(processes);
      ReachesNothing(processes, s);
    } else {
      var start := events[..|events| - 1];
      forall q | q in processes ensures Obeys(EventsOf(start, q)) {
        StartObeys(events, q);
      }
      GrantedStart(processes, events);
      LastAllowed(events);
      var before := LawfulIsReached(processes, start);
      s := LawfulStep(processes, start, events[|events| - 1].0, events[|events| - 1].1, before);
      assert start + [(events[|events| - 1].0, events[|events| - 1].1)] == events;
    }
  }

  lemma LawfulStep(processes: set<nat>, events: seq<(nat, Event)>, p: nat, e: Event, before: System) returns (s: System)
    requires Reaches(processes, events, before) && p in processes
    requires Allowed(After(EventsOf(events, p)), e)
    requires e.Acquire? ==> forall q :: q in processes ==> e.lock !in After(EventsOf(events, q)).held
    ensures Reaches(processes, events + [(p, e)], s)
  {
    hide *;
    ReachableIsSafe(processes, events, before);
    forall q | q in processes ensures q in before.processes && After(EventsOf(events, q)) == before.processes[q] {
      EachProcessObeys(processes, events, before, q);
    }
    LastEnabled(before, p, e);
    s := Run(before, p, e);
    ReachesStep(processes, events, before, p, e);
  }

  lemma GrantedStart(processes: set<nat>, events: seq<(nat, Event)>)
    requires Granted(processes, events) && events != []
    ensures Granted(processes, events[..|events| - 1])
    ensures var (p, e) := events[|events| - 1];
      p in processes
        && (e.Acquire? ==> forall q :: q in processes ==> e.lock !in After(EventsOf(events[..|events| - 1], q)).held)
  {
    hide After, EventsOf;
    var start := events[..|events| - 1];
    forall k | 0 <= k < |start|
      ensures start[k].0 in processes
      ensures start[k].1.Acquire? ==> forall q :: q in processes ==>
        start[k].1.lock !in After(EventsOf(start[..k], q)).held
    {
      assert start[..k] == events[..k] && start[k] == events[k];
    }
  }

  lemma StartObeys(events: seq<(nat, Event)>, p: nat)
    requires events != [] && Obeys(EventsOf(events, p))
    ensures Obeys(EventsOf(events[..|events| - 1], p))
  {
    var start := EventsOf(events[..|events| - 1], p);
    assert EventsOf(events, p) == start || EventsOf(events, p)[..|start|] == start;
  }

  lemma LastAllowed(events: seq<(nat, Event)>)
    requires events != [] && Obeys(EventsOf(events, events[|events| - 1].0))
    ensures var (p, e) := events[|events| - 1]; Allowed(After(EventsOf(events[..|events| - 1], p)), e)
  {
    hide Allowed;
    var (p, e) := events[|events| - 1];
    var start := EventsOf(events[..|events| - 1], p);
    assert EventsOf(events, p) == start + [e] && (start + [e])[..|start|] == start;
  }

  lemma LastEnabled(s: System, p: nat, e: Event)
    requires Safe(s) && p in s.processes && Allowed(s.processes[p], e)
    requires e.Acquire? ==> forall q :: q in s.processes ==> e.lock !in s.processes[q].held
    ensures Enabled(s, p, e)
  {
    if e.Store? { assert Current(s, p, (e.cell, e.copy)); }
  }

  /**
   * An enforcement pass reads the policies, a call it makes reads and writes them, and the pass writes its own list.
   */
  const OVERWRITING: seq<Event> := [
    Want(PoliciesLock), Acquire(PoliciesLock), Load(PoliciesFile, Listed),
    Load(PoliciesFile, Own), Store(PoliciesFile, Own), Store(PoliciesFile, Listed)]

  lemma PassOverwrites() returns (s: System)
    ensures Obeys(OVERWRITING) && Reaches({0}, ByOne(OVERWRITING), s) && !NothingLost(WritesOf(s, PoliciesFile))
  {
    hide Reaches, NothingLost, EventsOf, ByOne;
    var t1 := [Want(PoliciesLock)];
    ObeysStep([], Want(PoliciesLock));
    assert [] + t1 == t1;
    ObeysStep(t1, Acquire(PoliciesLock));
    var t2 := t1 + [Acquire(PoliciesLock)];
    ObeysStep(t2, Load(PoliciesFile, Listed));
    var t3 := t2 + [Load(PoliciesFile, Listed)];
    ObeysStep(t3, Load(PoliciesFile, Own));
    var t4 := t3 + [Load(PoliciesFile, Own)];
    ObeysStep(t4, Store(PoliciesFile, Own));
    var t5 := t4 + [Store(PoliciesFile, Own)];
    ObeysStep(t5, Store(PoliciesFile, Listed));
    CarefulStep(t5, Store(PoliciesFile, Listed));
    assert t5 + [Store(PoliciesFile, Listed)] == OVERWRITING;
    ByOneOf(OVERWRITING);
    s := LawfulIsReached({0}, ByOne(OVERWRITING));
    NoUpdateLost({0}, ByOne(OVERWRITING), s, PoliciesFile);
  }

  function ByOne(trace: seq<Event>): (events: seq<(nat, Event)>)
    ensures |events| == |trace| && forall k :: 0 <= k < |trace| ==> events[k] == (0, trace[k])
  {
    if trace == [] then [] else ByOne(trace[..|trace| - 1]) + [(0, trace[|trace| - 1])]
  }

  lemma {:induction false} ByOneOf(trace: seq<Event>)
    requires Obeys(trace)
    ensures EventsOf(ByOne(trace), 0) == trace && Granted({0}, ByOne(trace))
  {
    hide Allowed, Steady, Next;
    if trace != [] {
      var start, e := trace[..|trace| - 1], trace[|trace| - 1];
      var events := ByOne(trace);
      ByOneOf(start);
      ObeysSteady(start);
      assert events[..|start|] == ByOne(start);
      forall k | 0 <= k < |events|
        ensures events[k].1.Acquire? ==> events[k].1.lock !in After(EventsOf(events[..k], 0)).held
      {
        if k < |start| {
          assert events[..k] == ByOne(start)[..k] && events[k] == ByOne(start)[k];
        } else {
          assert events[..k] == ByOne(start);
          WantedIsFree(After(start), e);
        }
      }
    }
  }

  lemma WantedIsFree(l: Local, e: Event)
    requires Steady(l) && Allowed(l, e)
    ensures e.Acquire? ==> e.lock !in l.held
  {
  }

  /**
   * Any number of processes that each keep to the discipline, as the traces of the helper do, however they interleave:
   * nobody waits in a circle, no file but the policies ever loses an update, and the policies do exactly if a pass
   * writes a list that a call of its own has overwritten.
   */
  lemma LawfulProcesses(processes: set<nat>, events: seq<(nat, Event)>) returns (s: System)
    requires Granted(processes, events) && forall p :: p in processes ==> Obeys(EventsOf(events, p))
    ensures s.processes.Keys == processes && forall p :: p in processes ==> s.processes[p] == After(EventsOf(events, p))
    ensures forall chain: seq<nat> :: |chain| >= 2 && WaitChain(s, chain) ==> chain[0] != chain[|chain| - 1]
    ensures (exists p :: Waiting(s, p)) ==> exists q :: CanGoOn(s, q)
    ensures forall c :: c != PoliciesFile ==> NothingLost(WritesOf(s, c))
    ensures NothingLost(WritesOf(s, PoliciesFile)) <==> forall p :: p in processes ==> Careful(EventsOf(events, p))
  {
    hide Obeys, After, Granted, Reaches, EventsOf, NothingLost, Careful, WaitChain, Safe, CanGoOn;
    s := LawfulIsReached(processes, events);
    ReachableIsSafe(processes, events, s);
    forall p | p in processes ensures s.processes[p] == After(EventsOf(events, p)) {
      EachProcessObeys(processes, events, s, p);
    }
    forall chain: seq<nat> | |chain| >= 2 && WaitChain(s, chain) ensures chain[0] != chain[|chain| - 1] {
      NoWaitCycle(processes, events, s, chain);
    }
    if p :| Waiting(s, p) { Progress(processes, events, s, p); }
    forall c | c != PoliciesFile ensures NothingLost(WritesOf(s, c)) {
      NoUpdateLost(processes, events, s, c);
    }
    NoUpdateLost(processes, events, s, PoliciesFile);
  }

  lemma ReachesNothing(processes: set<nat>, s: System)
    requires s == Idle(processes)
    ensures Reaches(processes, [], s)
  {
  }
}
