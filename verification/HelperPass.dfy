/**
 * One enforcement pass: what it comes to for every policy, decided by the files, records and counters it starts from
 * and by the steps that fail in the calls it makes.
 */
module HelperPass {
  import opened Text
  import opened ConfigLines
  import opened ConfigDocument
  import opened AddressPool
  import opened HelperJournal
  import opened HelperPeers
  import opened HelperModel
  import opened HelperPolicy

  /** What a pass starts from. */
  datatype Scene = Scene(files: World, instances: map<string, Instance>, readings: map<string, Readings>, now: int,
    minute: string)

  /** The steps that fail, by connection. */
  type Fails = map<string, set<Stage>>

  function FailsOf(fails: Fails, p: Policy): set<Stage> {
    if p.connection in fails then fails[p.connection] else NONE
  }

  // One policy -----------------------------------------------------------------------------------------------

  /** The counters of an active policy are read. */
  predicate Counted(sc: Scene, p: Policy, fails: set<Stage>) {
    && p.status.Active? && AtLookup !in fails && p.instance in sc.instances
    && AtStatistics !in fails && p.instance in sc.readings
  }

  /** The counters of the policy are read, and its peer can be taken out of its configuration. */
  predicate CanCut(sc: Scene, p: Policy) {
    && Counted(sc, p, NONE)
    && ValidMutation(DisableFor(p, "")) && SafeId(EnforceId(p.connection, sc.minute))
    && sc.instances[p.instance].canSuspend
    && p.instance in sc.files.configs && sc.instances[p.instance].fingerprint == sc.files.configs[p.instance]
    && Parses(sc.files.configs[p.instance]) && Holds(Sections(sc.files, p.instance), p.publicKey)
  }

  /** The policy is due, and nothing keeps the pass from cutting its peer off. */
  predicate Cuts(sc: Scene, p: Policy) {
    CanCut(sc, p) && Reason(Account(p, sc.readings[p.instance]), sc.now).Some?
  }

  /** What a pass counts a policy as: left alone, suspended, or failed. */
  datatype Checked = Spared | CutOff | Missed

  function CheckedAs(sc: Scene, p: Policy, fails: set<Stage>, goes: bool): Checked {
    if !p.status.Active? then Spared
    else if !Counted(sc, p, fails) then Missed
    else if Reason(Account(p, sc.readings[p.instance]), sc.now).None? then Spared
    else if goes && Completes(fails) then CutOff
    else Missed
  }

  /** The entry in the pass's list: counted, and marked with the reason if the call for it was completed. */
  function Enforced(sc: Scene, p: Policy, fails: set<Stage>, goes: bool): Policy {
    if !Counted(sc, p, fails) then p
    else
      var q := Account(p, sc.readings[p.instance]);
      var reason := Reason(q, sc.now);
      if goes && Completes(fails) && reason.Some? then q.(status := reason.value) else q
  }

  /** The entry in the file, before the pass writes its list. */
  function Filed(p: Policy, fails: set<Stage>, goes: bool): Policy {
    if goes && Saves(fails) then p.(status := Suspended) else p
  }

  // All policies in turn -------------------------------------------------------------------------------------

  /** The call for this policy is accepted: no call before it has left the record of its instance behind. */
  predicate Goes(sc: Scene, fails: Fails, stale: set<string>, p: Policy) {
    Cuts(sc, p) && AtLookup !in FailsOf(fails, p) && AtStatistics !in FailsOf(fails, p) && p.instance !in stale
  }

  /** The instances whose records do not know what calls of the pass have made of their configurations. */
  function StaleAfter(sc: Scene, fails: Fails, all: seq<Policy>): set<string>
    decreases |all|, 0
  {
    if all == [] then {}
    else
      var k := |all| - 1;
      StaleAfter(sc, fails, all[..k]) +
      if GoesAt(sc, fails, all, k) && Replaces(FailsOf(fails, all[k])) && !Stamps(FailsOf(fails, all[k]))
      then {all[k].instance} else {}
  }

  predicate GoesAt(sc: Scene, fails: Fails, all: seq<Policy>, k: nat)
    requires k < |all|
    decreases k, 1
  {
    Goes(sc, fails, StaleAfter(sc, fails, all[..k]), all[k])
  }

  /** The policies whose peers the pass takes out. */
  function CutsOf(sc: Scene, fails: Fails, all: seq<Policy>): seq<Policy> {
    if all == [] then []
    else
      var k := |all| - 1;
      CutsOf(sc, fails, all[..k]) + if GoesAt(sc, fails, all, k) && Replaces(FailsOf(fails, all[k])) then [all[k]]
        else []
  }

  /** Those whose configuration the runtime failed to replace. */
  function TriedOf(sc: Scene, fails: Fails, all: seq<Policy>): seq<Policy> {
    if all == [] then []
    else
      var k := |all| - 1;
      var S := FailsOf(fails, all[k]);
      TriedOf(sc, fails, all[..k]) + if GoesAt(sc, fails, all, k) && Arrives(S) && AtApply in S then [all[k]] else []
  }

  function EnforcedAll(sc: Scene, fails: Fails, all: seq<Policy>): (list: seq<Policy>)
    ensures |list| == |all|
  {
    if all == [] then []
    else
      var k := |all| - 1;
      EnforcedAll(sc, fails, all[..k]) + [Enforced(sc, all[k], FailsOf(fails, all[k]), GoesAt(sc, fails, all, k))]
  }

  function FiledAll(sc: Scene, fails: Fails, all: seq<Policy>): (file: seq<Policy>)
    ensures |file| == |all|
  {
    if all == [] then []
    else
      var k := |all| - 1;
      FiledAll(sc, fails, all[..k]) + [Filed(all[k], FailsOf(fails, all[k]), GoesAt(sc, fails, all, k))]
  }

  datatype Tally = Tally(suspended: int, failed: int)

  function Counting(t: Tally, c: Checked): Tally {
    Tally(t.suspended + (if c.CutOff? then 1 else 0), t.failed + if c.Missed? then 1 else 0)
  }

  function TallyAll(sc: Scene, fails: Fails, all: seq<Policy>): Tally {
    if all == [] then Tally(0, 0)
    else
      var k := |all| - 1;
      Counting(TallyAll(sc, fails, all[..k]), CheckedAs(sc, all[k], FailsOf(fails, all[k]), GoesAt(sc, fails, all, k)))
  }

  lemma {:induction false} EnforcedAt(sc: Scene, fails: Fails, all: seq<Policy>, k: nat)
    requires k < |all|
    ensures EnforcedAll(sc, fails, all)[k] == Enforced(sc, all[k], FailsOf(fails, all[k]), GoesAt(sc, fails, all, k))
    ensures FiledAll(sc, fails, all)[k] == Filed(all[k], FailsOf(fails, all[k]), GoesAt(sc, fails, all, k))
  {
    hide Enforced, Filed, Goes, FailsOf;
    var n := |all| - 1;
    if k < n {
      EnforcedAt(sc, fails, all[..n], k);
      assert all[..n][..k] == all[..k];
    }
  }

  lemma {:induction false} CutsAt(sc: Scene, fails: Fails, all: seq<Policy>, p: Policy)
    ensures p in CutsOf(sc, fails, all) ==> p in all
    ensures p in TriedOf(sc, fails, all) ==> p in all
    ensures p in CutsOf(sc, fails, all) <==>
      exists k :: 0 <= k < |all| && all[k] == p && GoesAt(sc, fails, all, k) && Replaces(FailsOf(fails, all[k]))
  {
    hide Goes, FailsOf, Replaces, Arrives;
    if all != [] {
      var n := |all| - 1;
      var start := all[..n];
      CutsAt(sc, fails, start, p);
      assert all == start + [all[n]];
      forall k | 0 <= k < n ensures GoesAt(sc, fails, start, k) <==> GoesAt(sc, fails, all, k) {
        assert start[..k] == all[..k];
      }
      if p in CutsOf(sc, fails, start) {
        var k :| 0 <= k < n && start[k] == p && GoesAt(sc, fails, start, k) && Replaces(FailsOf(fails, start[k]));
        assert all[k] == p;
      }
      if k :| 0 <= k < n && all[k] == p && GoesAt(sc, fails, all, k) && Replaces(FailsOf(fails, all[k])) {
        assert start[k] == p;
      }
    }
  }

  /** Nobody before this policy has its connection or its peer. */
  lemma NotBefore(sc: Scene, fails: Fails, all: seq<Policy>, k: nat)
    requires Distinct(all) && k < |all|
    ensures var cut, tried := CutsOf(sc, fails, all[..k]), TriedOf(sc, fails, all[..k]);
      && !CutConnection(cut, all[k].connection) && !CutKey(cut, all[k].instance, all[k].publicKey)
      && !CutConnection(tried, all[k].connection)
  {
    hide CutsOf, TriedOf;
    var cut, tried := CutsOf(sc, fails, all[..k]), TriedOf(sc, fails, all[..k]);
    forall p | p in cut || p in tried
      ensures p.connection != all[k].connection && !(p.instance == all[k].instance && p.publicKey == all[k].publicKey)
    {
      CutsAt(sc, fails, all[..k], p);
      var j :| 0 <= j < k && all[..k][j] == p;
      assert all[j] == p;
    }
  }

  // The pass up to a policy ----------------------------------------------------------------------------------

  ghost predicate SameButStamps(a: map<string, Instance>, b: map<string, Instance>) {
    a.Keys == b.Keys && forall i :: i in a ==> b[i] == a[i].(fingerprint := b[i].fingerprint)
  }

  /** Which records fit their configurations is as it was, but for these instances. */
  ghost predicate Records(sc: Scene, now: World, instances: map<string, Instance>, stale: set<string>) {
    && SameButStamps(sc.instances, instances)
    && forall i :: i in sc.instances && i in sc.files.configs && i in instances && i in now.configs ==>
         (instances[i].fingerprint == now.configs[i] <==>
           sc.instances[i].fingerprint == sc.files.configs[i] && i !in stale)
  }

  /** Files, records, the pass's list and its counts after so many policies. */
  ghost predicate SoFar(sc: Scene, fails: Fails, all: seq<Policy>, k: nat, now: World, instances: map<string, Instance>,
    file: seq<Policy>, list: seq<Policy>, count: Tally)
    requires k <= |all|
  {
    && Moved(sc.files, now, CutsOf(sc, fails, all[..k]), TriedOf(sc, fails, all[..k]))
    && Records(sc, now, instances, StaleAfter(sc, fails, all[..k]))
    && list == EnforcedAll(sc, fails, all[..k]) + all[k..] && file == FiledAll(sc, fails, all[..k]) + all[k..]
    && count == TallyAll(sc, fails, all[..k])
  }

  function SceneNow(sc: Scene, now: World, instances: map<string, Instance>): Scene {
    sc.(files := now, instances := instances)
  }

  lemma SoFarStart(sc: Scene, fails: Fails, all: seq<Policy>)
    ensures SoFar(sc, fails, all, 0, sc.files, sc.instances, all, all, Tally(0, 0))
  {
    hide Moved;
    MovedNothing(sc.files);
    assert all[..0] == [] && all[0..] == all;
  }

  /**
   * What the pass finds of a policy it has come to is what it would have found at first, if its instance is not
   * stale.
   */
  lemma CutsNow(sc: Scene, now: World, instances: map<string, Instance>, cut: seq<Policy>, tried: seq<Policy>,
    stale: set<string>, p: Policy)
    requires Moved(sc.files, now, cut, tried) && Records(sc, now, instances, stale)
    requires !CutKey(cut, p.instance, p.publicKey)
    ensures Cuts(SceneNow(sc, now, instances), p) <==> Cuts(sc, p) && p.instance !in stale
    ensures forall fails :: Counted(SceneNow(sc, now, instances), p, fails) <==> Counted(sc, p, fails)
  {
    hide EntriesWith, Parses, Parsed, Holds, Account, Reason, ValidMutation, SafeId, EnforceId;
  }

  /** The next policy is dealt with as at first decided. */
  lemma SoFarStep(v6: string -> bool, sc: Scene, fails: Fails, all: seq<Policy>, k: nat, w: World,
    instances: map<string, Instance>,
    file: seq<Policy>, list: seq<Policy>, count: Tally, m: Mutation, now: World, instancesNow: map<string, Instance>,
    fileNow: seq<Policy>, goes: bool)
    requires k < |all| && Distinct(all) && SoFar(sc, fails, all, k, w, instances, file, list, count)
    requires WorldOk(w) && Kept(PeersIn(v6, w)) && m == DisableFor(all[k], m.expected)
    requires goes <==> Goes(SceneNow(sc, w, instances), fails, {}, all[k])
    requires goes ==> Possible(w, m)
    requires Disabled(FailsOf(fails, all[k]), m, goes, w, now, file, fileNow, instances, instancesNow)
    ensures goes <==> GoesAt(sc, fails, all, k)
    ensures SoFar(sc, fails, all, k + 1, now, instancesNow, fileNow,
      list[k := Enforced(SceneNow(sc, w, instances), all[k], FailsOf(fails, all[k]), goes)],
      Counting(count, CheckedAs(SceneNow(sc, w, instances), all[k], FailsOf(fails, all[k]), goes)))
  {
    hide Moved, Records, Disabled, Cuts, Kept, PeersIn, WorldOk, Possible, Distinct, Account, Reason, FailsOf,
      Filed;
    var start, p, S := all[..k], all[k], FailsOf(fails, all[k]);
    assert all[..k + 1][..k] == start && all[..k + 1][k] == p;
    NotBefore(sc, fails, all, k);
    CutsNow(sc, w, instances, CutsOf(sc, fails, start), TriedOf(sc, fails, start), StaleAfter(sc, fails, start), p);
    assert goes <==> GoesAt(sc, fails, all, k);
    assert GoesAt(sc, fails, all[..k + 1], k) <==> GoesAt(sc, fails, all, k);
    MovedOn(v6, sc, CutsOf(sc, fails, start), TriedOf(sc, fails, start), p, S, w, m, now, goes, file, fileNow,
      instances, instancesNow);
    RecordsOn(v6, sc, StaleAfter(sc, fails, start), p, S, w, m, now, goes, file, fileNow, instances, instancesNow);
    FileOn(sc, fails, all, k, S, w, m, now, goes, file, fileNow, instances, instancesNow);
    SameScene(sc, w, instances, p, S, goes);
    ListOn(EnforcedAll(sc, fails, start), all, k, list, Enforced(sc, p, S, goes));
  }

  lemma ListOn(done: seq<Policy>, all: seq<Policy>, k: nat, list: seq<Policy>, q: Policy)
    requires k < |all| && |done| == k && list == done + all[k..]
    ensures list[k := q] == done + [q] + all[k + 1..]
  {
  }

  lemma SameScene(sc: Scene, w: World, instances: map<string, Instance>, p: Policy, fails: set<Stage>, goes: bool)
    requires forall fails :: Counted(SceneNow(sc, w, instances), p, fails) <==> Counted(sc, p, fails)
    ensures Enforced(SceneNow(sc, w, instances), p, fails, goes) == Enforced(sc, p, fails, goes)
    ensures CheckedAs(SceneNow(sc, w, instances), p, fails, goes) == CheckedAs(sc, p, fails, goes)
  {
    hide Account, Reason, Completes;
  }

  lemma MovedOn(v6: string -> bool, sc: Scene, cut: seq<Policy>, tried: seq<Policy>, p: Policy, fails: set<Stage>,
    w: World, m: Mutation, now: World, goes: bool, file: seq<Policy>, fileNow: seq<Policy>,
    instances: map<string, Instance>, instancesNow: map<string, Instance>)
    requires Moved(sc.files, w, cut, tried) && WorldOk(w) && Kept(PeersIn(v6, w)) && m == DisableFor(p, m.expected)
    requires goes ==> Possible(w, m)
    requires Disabled(fails, m, goes, w, now, file, fileNow, instances, instancesNow)
      && !CutConnection(cut, p.connection)
    ensures Moved(sc.files, now, cut + (if goes && Replaces(fails) then [p] else []),
      tried + if goes && Arrives(fails) && AtApply in fails then [p] else [])
  {
    hide Moved, WorldOk, Kept, PeersIn, Possible, Final, WithStored, WithoutStored, Arrives, CutConnection, Saves,
      Stamps;
    assert cut + [] == cut && tried + [] == tried;
    if goes && Arrives(fails) {
      if AtApply in fails {
        MovedTried(sc.files, w, cut, tried, p, m, now);
      } else {
        MovedStep(v6, sc.files, w, cut, tried, p, m);
      }
    }
  }

  lemma RecordsOn(v6: string -> bool, sc: Scene, stale: set<string>, p: Policy, fails: set<Stage>,
    w: World, m: Mutation, now: World, goes: bool, file: seq<Policy>, fileNow: seq<Policy>,
    instances: map<string, Instance>, instancesNow: map<string, Instance>)
    requires Records(sc, w, instances, stale) && WorldOk(w) && Kept(PeersIn(v6, w)) && m == DisableFor(p, m.expected)
    requires goes ==> Possible(w, m) && Cuts(SceneNow(sc, w, instances), p) && Cuts(sc, p) && p.instance !in stale
    requires Disabled(fails, m, goes, w, now, file, fileNow, instances, instancesNow)
    ensures Records(sc, now, instancesNow, stale + if goes && Replaces(fails) && !Stamps(fails) then {p.instance}
      else {})
  {
    hide WorldOk, Kept, PeersIn, Possible, Parses, Parsed, EditedText, PutAside, Account, Reason, ValidMutation,
      SafeId, EnforceId, Arrives, Holds;
    assert stale + {} == stale;
    if goes && Replaces(fails) { EditedDiffers(v6, w, m); }
  }

  /** A configuration that a peer was taken out of is another text. */
  lemma EditedDiffers(v6: string -> bool, w: World, m: Mutation)
    requires WorldOk(w) && Possible(w, m) && m.action.Disable? && Kept(PeersIn(v6, w))
    ensures m.instance in w.configs && EditedText(w, m) != w.configs[m.instance]
  {
    hide WorldOk, Kept, PeersIn, Parses, Parsed, EditedText, Holds, FindPeer;
    HoldsAfterDisable(v6, w, m, m.publicKey);
    PossibleDisable(w, m);
  }

  lemma FileOn(sc: Scene, fails: Fails, all: seq<Policy>, k: nat, S: set<Stage>, w: World, m: Mutation, now: World,
    goes: bool,
    file: seq<Policy>, fileNow: seq<Policy>, instances: map<string, Instance>, instancesNow: map<string, Instance>)
    requires k < |all| && Distinct(all) && m == DisableFor(all[k], m.expected)
    requires goes ==> Possible(w, m)
    requires Disabled(S, m, goes, w, now, file, fileNow, instances, instancesNow)
    requires file == FiledAll(sc, fails, all[..k]) + all[k..]
    ensures fileNow == FiledAll(sc, fails, all[..k]) + [Filed(all[k], S, goes)] + all[k + 1..]
  {
    hide Possible, Final, WithStored, WithoutStored, FiledAll, PolicyAfter, PoliciesAfter;
    var done := FiledAll(sc, fails, all[..k]);
    ListOn(done, all, k, file, Filed(all[k], S, goes));
    if goes && Saves(S) {
      PoliciesChange(m, file);
      forall j | 0 <= j < |file| ensures fileNow[j] == if j == k then all[k].(status := Suspended) else file[j] {
        assert OwnChange(m, file[j], fileNow[j]);
        if j < k {
          FiledKeeps(sc, fails, all[..k], j);
          assert all[j].connection != all[k].connection;
        } else if j > k {
          assert file[j] == all[j] && all[k].connection != all[j].connection;
        }
      }
      assert fileNow == file[k := all[k].(status := Suspended)];
    } else {
      assert file[k := all[k]] == file;
    }
  }

  lemma FiledKeeps(sc: Scene, fails: Fails, all: seq<Policy>, j: nat)
    requires j < |all|
    ensures FiledAll(sc, fails, all)[j].connection == all[j].connection
  {
    hide FiledAll, GoesAt;
    EnforcedAt(sc, fails, all, j);
  }

  // What a finished pass comes to ----------------------------------------------------------------------------

  /** This policy's peer is out of its configuration, and put aside. */
  predicate CutUnder(w: World, p: Policy) {
    && PutAsideFor(w, p)
    && p.instance in w.configs && !Holds(Sections(w, p.instance), p.publicKey)
  }

  /** This policy's peer is in its configuration. */
  predicate Present(w: World, p: Policy) {
    p.instance in w.configs && Parses(w.configs[p.instance]) && Holds(Sections(w, p.instance), p.publicKey)
  }

  /**
   * Policy by policy, for any failing steps: it is active afterwards exactly if it was and its call was not completed;
   * its peer is gone exactly if the call got as far as replacing the configuration; and what the call had written to
   * the policies' file is reverted exactly if the record of the instance or of the success could not be written after.
   */
  lemma PassByPolicy(sc: Scene, fails: Fails, all: seq<Policy>, now: World, k: nat)
    requires Distinct(all) && k < |all| && Moved(sc.files, now, CutsOf(sc, fails, all), TriedOf(sc, fails, all))
    ensures var p, S, goes := all[k], FailsOf(fails, all[k]), GoesAt(sc, fails, all, k);
      var list, file := EnforcedAll(sc, fails, all)[k], FiledAll(sc, fails, all)[k];
      && (list.status.Active? <==> p.status.Active? && !(goes && Completes(S)))
      && (file.status.Suspended? && list.status.Active? <==>
        goes && Saves(S) && (AtInstanceWrite in S || AtSuccessRecord in S))
      && (goes && Replaces(S) ==> CutUnder(now, p))
      && (Present(sc.files, p) ==>
        p.instance in now.configs && (Holds(Sections(now, p.instance), p.publicKey) <==> !(goes && Replaces(S))))
  {
    hide CutsOf, TriedOf, EnforcedAll, FiledAll, StaleAfter, Parses, Parsed, Holds, Account, SafeId, ValidMutation,
      Replaces, FailsOf, EntriesWith, HasKey;
    var p, S := all[k], FailsOf(fails, all[k]);
    EnforcedAt(sc, fails, all, k);
    CutsAt(sc, fails, all, p);
    if p.instance in sc.readings { EnforcedStatus(p, sc.readings[p.instance], sc.now); }
    SavesReplaces(S);
    CutKeyAt(sc, fails, all, k);
    if GoesAt(sc, fails, all, k)
      && Replaces(S) { MovedHas(sc.files, now, CutsOf(sc, fails, all), TriedOf(sc, fails, all), p); }
  }

  lemma MovedHas(before: World, now: World, cut: seq<Policy>, tried: seq<Policy>, p: Policy)
    requires Moved(before, now, cut, tried) && p in cut
    ensures PutAsideFor(now, p)
  {
  }

  lemma SavesReplaces(S: set<Stage>)
    ensures Saves(S) ==> Replaces(S)
    ensures Completes(S) <==> Saves(S) && AtInstanceWrite !in S && AtSuccessRecord !in S
  {
  }

  lemma EnforcedStatus(p: Policy, readings: Readings, now: int)
    ensures Account(p, readings).status == p.status
    ensures Reason(Account(p, readings), now).Some? ==>
      Reason(Account(p, readings), now).value in {Expired, QuotaExceeded}
  {
    hide Add, Delta;
  }

  /** Only its own policy takes a peer out. */
  lemma CutKeyAt(sc: Scene, fails: Fails, all: seq<Policy>, k: nat)
    requires Distinct(all) && k < |all|
    ensures CutKey(CutsOf(sc, fails, all), all[k].instance, all[k].publicKey) <==>
      GoesAt(sc, fails, all, k) && Replaces(FailsOf(fails, all[k]))
  {
    hide CutsOf, StaleAfter, Goes, Replaces, FailsOf;
    var cut := CutsOf(sc, fails, all);
    CutsAt(sc, fails, all, all[k]);
    if p :| p in cut && p.instance == all[k].instance && p.publicKey == all[k].publicKey {
      CutsAt(sc, fails, all, p);
      var j :| 0 <= j < |all| && all[j] == p && GoesAt(sc, fails, all, j) && Replaces(FailsOf(fails, all[j]));
      OnePolicy(all, j, k);
    }
  }

  lemma OnePolicy(all: seq<Policy>, j: nat, k: nat)
    requires Distinct(all) && j < |all| && k < |all|
    ensures all[j].instance == all[k].instance && all[j].publicKey == all[k].publicKey ==> j == k
  {
  }

  /** When nothing fails, the pass goes by the state it starts from alone: who is due and can be cut off, is. */
  lemma {:induction false} CalmPass(sc: Scene, all: seq<Policy>)
    ensures StaleAfter(sc, map[], all) == {} && TriedOf(sc, map[], all) == []
    ensures forall k :: 0 <= k < |all| ==> (GoesAt(sc, map[], all, k) <==> Cuts(sc, all[k]))
    ensures |CutsOf(sc, map[], all)| == TallyAll(sc, map[], all).suspended
  {
    hide Cuts, Reason, Account;
    if all != [] {
      var n := |all| - 1;
      CalmPass(sc, all[..n]);
      CutsIsDue(sc, all[n]);
      forall k | 0 <= k < |all| ensures GoesAt(sc, map[], all, k) <==> Cuts(sc, all[k]) {
        if k < n {
          assert all[..n][..k] == all[..k];
          assert GoesAt(sc, map[], all[..n], k) <==> Cuts(sc, all[..n][k]);
        }
      }
    }
  }

  lemma EnforcedIsJudged(sc: Scene, p: Policy)
    requires CanCut(sc, p)
    ensures Judged(p, sc.readings[p.instance], sc.now, Enforced(sc, p, NONE, Cuts(sc, p)))
    ensures Cuts(sc, p) <==> !Enforced(sc, p, NONE, Cuts(sc, p)).status.Active?
  {
    hide Judged, Account, ValidMutation, SafeId, EnforceId, Parses, Holds;
    AccountedIsJudged(p, sc.readings[p.instance], sc.now);
    EnforcedStatus(p, sc.readings[p.instance], sc.now);
  }

  /** In a calm pass the limit and the date alone decide about every peer that can be cut off; it goes or stays. */
  lemma CalmJudged(sc: Scene, all: seq<Policy>, now: World, k: nat)
    requires Distinct(all) && k < |all| && CanCut(sc, all[k])
    requires Moved(sc.files, now, CutsOf(sc, map[], all), TriedOf(sc, map[], all))
    ensures var p, q := all[k], EnforcedAll(sc, map[], all)[k];
      && Judged(p, sc.readings[p.instance], sc.now, q)
      && p.instance in now.configs && (Holds(Sections(now, p.instance), p.publicKey) <==> q.status.Active?)
  {
    hide CutsOf, TriedOf, EnforcedAll, FiledAll, StaleAfter, Moved, Judged, Cuts, Enforced, Parses, Parsed, Holds,
      ValidMutation, SafeId, EnforceId;
    CalmPass(sc, all);
    EnforcedAt(sc, map[], all, k);
    EnforcedIsJudged(sc, all[k]);
    PassByPolicy(sc, map[], all, now, k);
    CalmStages();
  }

  lemma CalmStages()
    ensures Replaces(NONE) && Completes(NONE)
  {
  }

  lemma CutsIsDue(sc: Scene, p: Policy)
    ensures Cuts(sc, p) ==> Counted(sc, p, NONE) && Reason(Account(p, sc.readings[p.instance]), sc.now).Some?
  {
  }

  // Long connection ids --------------------------------------------------------------------------------------

  /** A pass can name an operation for a connection exactly if its id leaves room for the prefix and the minute. */
  lemma EnforceIdSafe(connection: string, minute: string)
    requires SafeId(connection) && All(IsDigit, minute)
    ensures SafeId(EnforceId(connection, minute)) <==> |connection| + |minute| <= 119
  {
    var id := EnforceId(connection, minute);
    assert forall i :: 0 <= i < |id| ==> SafeChar(id[i]) by {
      forall i | 0 <= i < |id| ensures SafeChar(id[i]) {
        if i < 8 {
          assert id[i] == "enforce:"[i];
        } else if i < 8 + |connection| {
          assert id[i] == connection[i - 8];
        } else if i > 8 + |connection| {
          assert id[i] == minute[i - 9 - |connection|];
        }
      }
    }
  }

  /** So with minutes of eight digits, a policy whose connection id is longer than 111 characters is never enforced. */
  lemma LongIdNeverCut(sc: Scene, fails: Fails, all: seq<Policy>, k: nat)
    requires k < |all| && SafeId(all[k].connection) && |all[k].connection| >= 112
    requires All(IsDigit, sc.minute) && |sc.minute| == 8
    ensures !GoesAt(sc, fails, all, k)
    ensures all[k].status.Active? ==> EnforcedAll(sc, fails, all)[k].status.Active?
  {
    hide SafeId, EnforceId, EnforcedAll, FiledAll, StaleAfter, Account, Reason, Holds, Parses, Parsed,
      ValidMutation;
    EnforceIdSafe(all[k].connection, sc.minute);
    EnforcedAt(sc, fails, all, k);
    if all[k].instance in sc.readings { EnforcedStatus(all[k], sc.readings[all[k].instance], sc.now); }
  }

  /** There are such ids: the Panel may project them. */
  lemma LongIdProjected(i: PolicyInput)
    requires ValidInput(i)
    ensures ValidInput(i.(connection := seq(112, _ => 'a')))
    ensures !SafeId(EnforceId(seq(112, _ => 'a'), "29000000"))
  {
    assert All(SafeChar, seq(112, _ => 'a'));
    EnforceIdSafe(seq(112, _ => 'a'), "29000000");
  }

  // Runs of projections and passes ----------------------------------------------------------------------------

  /** What may happen to the policies besides the changes asked for: a projection by the Panel, or a pass. */
  datatype Turn =
    | Projects(inputs: seq<PolicyInput>)
    | Passed(sc: Scene, fails: Fails)

  function Turned(policies: seq<Policy>, t: Turn): seq<Policy> {
    match t
    case Projects(inputs) => ProjectAll(policies, inputs)
    case Passed(sc, fails) => EnforcedAll(sc, fails, policies)
  }

  function TurnedAll(policies: seq<Policy>, turns: seq<Turn>): seq<Policy> {
    if turns == [] then policies else Turned(TurnedAll(policies, turns[..|turns| - 1]), turns[|turns| - 1])
  }

  /** The connection has policies, all of them stopped for expiry or usage. */
  predicate Stopped(policies: seq<Policy>, connection: string) {
    && (exists k :: 0 <= k < |policies| && policies[k].connection == connection)
    && forall k :: 0 <= k < |policies| && policies[k].connection == connection ==>
      policies[k].status in {Expired, QuotaExceeded}
  }

  /** A projection goes on naming the connection, and does not call it suspended. */
  predicate GoesOn(t: Turn, connection: string) {
    t.Projects? ==>
      && (exists k :: 0 <= k < |t.inputs| && t.inputs[k].connection == connection)
      && forall k :: 0 <= k < |t.inputs| && t.inputs[k].connection == connection ==> !t.inputs[k].status.Suspended?
  }

  /**
   * What the node has stopped stays stopped over any run of projections and passes, however often the Panel calls it
   * active, as long as the Panel neither drops it nor suspends it in between.
   */
  lemma {:induction false} StoppedStaysStopped(policies: seq<Policy>, turns: seq<Turn>, connection: string)
    requires Stopped(policies, connection) && forall k :: 0 <= k < |turns| ==> GoesOn(turns[k], connection)
    ensures Stopped(TurnedAll(policies, turns), connection)
  {
    hide Stopped, GoesOn, Turned;
    if turns != [] {
      var k := |turns| - 1;
      var before := TurnedAll(policies, turns[..k]);
      assert forall j :: 0 <= j < k ==> turns[..k][j] == turns[j];
      StoppedStaysStopped(policies, turns[..k], connection);
      assert GoesOn(turns[k], connection);
      StoppedTurn(before, turns[k], connection);
    }
  }

  lemma StoppedTurn(policies: seq<Policy>, t: Turn, connection: string)
    requires Stopped(policies, connection) && GoesOn(t, connection)
    ensures Stopped(Turned(policies, t), connection)
  {
    hide Stopped, ProjectAll, EnforcedAll;
    match t {
      case Projects(inputs) => StoppedProjection(policies, inputs, connection);
      case Passed(sc, fails) => StoppedPass(policies, sc, fails, connection);
    }
  }

  lemma StoppedProjection(policies: seq<Policy>, inputs: seq<PolicyInput>, connection: string)
    requires Stopped(policies, connection) && GoesOn(Projects(inputs), connection)
    ensures Stopped(ProjectAll(policies, inputs), connection)
  {
    hide PolicyFor, ProjectAll;
    var j :| 0 <= j < |policies| && policies[j].connection == connection;
    PolicyForSome(policies, j);
    PolicyForIn(policies, connection);
    var next := ProjectAll(policies, inputs);
    var i :| 0 <= i < |inputs| && inputs[i].connection == connection;
    assert next[i].connection == connection;
  }

  lemma StoppedPass(policies: seq<Policy>, sc: Scene, fails: Fails, connection: string)
    requires Stopped(policies, connection)
    ensures Stopped(EnforcedAll(sc, fails, policies), connection)
  {
    hide EnforcedAll, Enforced, GoesAt;
    var next := EnforcedAll(sc, fails, policies);
    forall k | 0 <= k < |policies|
      ensures next[k].connection == policies[k].connection && (!policies[k].status.Active? ==> next[k] == policies[k])
    {
      EnforcedAt(sc, fails, policies, k);
      EnforcedKeeps(sc, policies[k], FailsOf(fails, policies[k]), GoesAt(sc, fails, policies, k));
    }
    var j :| 0 <= j < |policies| && policies[j].connection == connection;
    assert next[j].connection == connection;
  }

  lemma EnforcedKeeps(sc: Scene, p: Policy, fails: set<Stage>, goes: bool)
    ensures Enforced(sc, p, fails, goes).connection == p.connection
    ensures !p.status.Active? ==> Enforced(sc, p, fails, goes) == p
  {
    hide Account, Reason, Completes;
    if p.instance in sc.readings { AccountKeepsTerms(p, sc.readings[p.instance]); }
  }

  lemma AccountKeepsTerms(p: Policy, readings: Readings)
    ensures Account(p, readings).connection == p.connection
  {
  }

  lemma {:induction false} PolicyForSome(policies: seq<Policy>, j: nat)
    requires j < |policies|
    ensures PolicyFor(policies, policies[j].connection).Some?
  {
    if policies[|policies| - 1].connection != policies[j].connection { PolicyForSome(policies[..|policies| - 1], j); }
  }

  /** Suspending it in between starts it again: the reason it was stopped for is forgotten. */
  lemma SuspendedThenActive(p: Policy, i: PolicyInput)
    requires i.connection == p.connection && i.status.Active?
    ensures TurnedAll([p], [Projects([i.(status := Suspended)]), Projects([i])])[0].status.Active?
  {
    var turns := [Projects([i.(status := Suspended)]), Projects([i])];
    assert turns[..1] == [Projects([i.(status := Suspended)])] && turns[..1][..0] == [];
    assert TurnedAll([p], turns[..1]) == ProjectAll([p], [i.(status := Suspended)]);
    assert TurnedAll([p], turns) == ProjectAll(TurnedAll([p], turns[..1]), [i]);
  }
}
