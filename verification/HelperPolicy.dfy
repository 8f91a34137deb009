/** Policies on the node: the accounting of counters, what is due, and what one enforcement pass comes to. */
module HelperPolicy {
  import opened Text
  import opened ConfigLines
  import opened ConfigDocument
  import opened AddressPool
  import opened HelperJournal
  import opened HelperPeers
  import opened HelperModel
  import ClientConfig

  datatype Counters = Counters(rx: uint64, tx: uint64)

  /** The counters of an interface, by public key. */
  type Readings = map<string, Counters>

  /** Unsigned addition as the machine does it. */
  function Add(a: uint64, b: uint64): uint64 {
    ((a as int + b as int) % 0x1_0000_0000_0000_0000) as uint64
  }

  /** What was counted since the last reading; a smaller counter has started again from zero. */
  function Delta(current: uint64, last: uint64): uint64 {
    if current >= last then current - last else current
  }

  function Account(p: Policy, readings: Readings): Policy {
    if p.publicKey !in readings then p
    else
      var c := readings[p.publicKey];
      var used := if p.initialized then Add(p.used, Add(Delta(c.rx, p.lastRx), Delta(c.tx, p.lastTx))) else p.used;
      p.(used := used, lastRx := c.rx, lastTx := c.tx, initialized := true)
  }

  /** Why a policy is due, the limit taking precedence over the date. */
  function Reason(p: Policy, now: int): Option<PolicyStatus> {
    if p.limit.Some? && p.used >= p.limit.value then Some(QuotaExceeded)
    else if p.expiresAt.Some? && now >= p.expiresAt.value then Some(Expired)
    else None
  }

  /**
   * What one reading makes of the usage: it grows by what both counters have grown, modulo 2^64; a counter that went
   * back has started again from zero, and the first reading only sets the baseline.
   */
  ghost predicate Counts(p: Policy, c: Counters, q: Policy) {
    var received := if c.rx < p.lastRx then c.rx as int else c.rx as int - p.lastRx as int;
    var sent := if c.tx < p.lastTx then c.tx as int else c.tx as int - p.lastTx as int;
    && q == p.(used := q.used, lastRx := c.rx, lastTx := c.tx, initialized := true, status := q.status)
    && (p.initialized ==> q.used as int == (p.used as int + received + sent) % 0x1_0000_0000_0000_0000)
    && (!p.initialized ==> q.used == p.used)
  }

  /** An active policy after a pass that nothing keeps from cutting its peer off: over its limit, expired, or as is. */
  ghost predicate Judged(p: Policy, readings: Readings, now: int, q: Policy) {
    && (if p.publicKey in readings then Counts(p, readings[p.publicKey], q) else q == p.(status := q.status))
    && (q.status.QuotaExceeded? <==> p.limit.Some? && q.used >= p.limit.value)
    && (q.status.Expired? <==> !q.status.QuotaExceeded? && p.expiresAt.Some? && p.expiresAt.value <= now)
    && (q.status.Active? <==> !q.status.QuotaExceeded? && !q.status.Expired?)
  }

  lemma AddTwice(a: uint64, b: uint64, c: uint64)
    ensures Add(a, Add(b, c)) as int == (a as int + b as int + c as int) % 0x1_0000_0000_0000_0000
  {
  }

  lemma AccountCounts(p: Policy, readings: Readings)
    requires p.publicKey in readings
    ensures Counts(p, readings[p.publicKey], Account(p, readings))
  {
    hide Add;
    var c := readings[p.publicKey];
    AddTwice(p.used, Delta(c.rx, p.lastRx), Delta(c.tx, p.lastTx));
  }

  lemma AccountedIsJudged(p: Policy, readings: Readings, now: int)
    requires p.status.Active?
    ensures var q := Account(p, readings); var reason := Reason(q, now);
      Judged(p, readings, now, if reason.Some? then q.(status := reason.value) else q)
  {
    hide Add, Delta;
    if p.publicKey in readings { AccountCounts(p, readings); }
  }

  function DisableFor(p: Policy, expected: string): Mutation {
    Mutation(Disable, p.instance, expected, p.connection, p.publicKey, false)
  }

  /** The operation id of a pass for a connection; it changes with the minute. */
  function EnforceId(connection: string, minute: string): string {
    "enforce:" + connection + ":" + minute
  }

  lemma EnforceIdInjective(a: string, b: string, minute: string)
    ensures EnforceId(a, minute) == EnforceId(b, minute) ==> a == b
  {
    if EnforceId(a, minute) == EnforceId(b, minute) {
      assert |a| == |b|;
      assert a == EnforceId(a, minute)[8..8 + |a|];
      assert b == EnforceId(b, minute)[8..8 + |b|];
    }
  }

  // What a pass leaves of the files -----------------------------------------------------------------------------

  /** The policies a pass looks after: each connection and each peer once, and ids paired with the peers put aside. */
  ghost predicate Distinct(policies: seq<Policy>) {
    forall j, k :: 0 <= j < k < |policies| ==>
      policies[j].connection != policies[k].connection &&
      !(policies[j].instance == policies[k].instance && policies[j].publicKey == policies[k].publicKey)
  }

  ghost predicate AllPaired(v6: string -> bool, w: World, policies: seq<Policy>) {
    forall p :: p in policies ==> Paired(PeersIn(v6, w), p.connection, p.instance, p.publicKey)
  }

  ghost predicate Fresh(records: seq<Record>, policies: seq<Policy>, minute: string) {
    forall p :: p in policies ==> Last(records, EnforceId(p.connection, minute)).None?
  }

  ghost predicate CutKey(cut: seq<Policy>, i: string, k: string) {
    exists p :: p in cut && p.instance == i && p.publicKey == k
  }

  ghost predicate CutConnection(cut: seq<Policy>, c: string) {
    exists p :: p in cut && p.connection == c
  }

  ghost predicate SameFiles(before: World, now: World) {
    && now.configs.Keys == before.configs.Keys
    && forall i :: i in before.configs ==> (Parses(now.configs[i]) <==> Parses(before.configs[i]))
  }

  /** The configurations hold the same keys but these. */
  ghost predicate KeysWithout(before: World, now: World, cut: seq<Policy>) {
    forall i, k :: i in before.configs && i in now.configs && Parses(before.configs[i]) ==>
      (Holds(Sections(now, i), k) <==> Holds(Sections(before, i), k) && !CutKey(cut, i, k))
  }

  /** The map of suspended peers has the same entries, and one for each of these; what was tried may be missing. */
  ghost predicate EntriesWith(before: World, now: World, cut: seq<Policy>, tried: seq<Policy>) {
    && (forall c :: !CutConnection(tried, c) ==>
      (c in now.suspended <==> c in before.suspended || CutConnection(cut, c)))
    && (forall c :: c in before.suspended && !CutConnection(cut, c) && !CutConnection(tried, c) ==>
         c in now.suspended && now.suspended[c] == before.suspended[c])
    && (forall p :: p in cut ==> PutAsideFor(now, p))
  }

  /** The files after exactly these peers were moved from the configurations to the map of suspended peers. */
  ghost predicate Moved(before: World, now: World, cut: seq<Policy>, tried: seq<Policy>) {
    SameFiles(before, now) && KeysWithout(before, now, cut) && EntriesWith(before, now, cut, tried)
  }

  /** This policy's peer is put aside under its connection. */
  predicate PutAsideFor(w: World, p: Policy) {
    && p.connection in w.suspended
    && w.suspended[p.connection].instance == p.instance && w.suspended[p.connection].publicKey == p.publicKey
    && HasKey(w.suspended[p.connection].section, p.publicKey)
  }

  lemma MovedNothing(w: World)
    ensures Moved(w, w, [], [])
  {
  }

  ghost predicate OneEach(sections: seq<Section>) {
    && (forall a, b, k ::
      0 <= a < |sections| && 0 <= b < |sections| && HasKey(sections[a], k) && HasKey(sections[b], k) ==> a == b)
    && (forall a, k, l :: 0 <= a < |sections| && HasKey(sections[a], k) && HasKey(sections[a], l) ==> k == l)
  }

  lemma HoldsWithout(sections: seq<Section>, a: nat, key: string, k: string)
    requires OneEach(sections) && a < |sections| && HasKey(sections[a], key)
    ensures Holds(Without(sections, a), k) <==> Holds(sections, k) && k != key
  {
    hide HasKey;
    var less := Without(sections, a);
    if Holds(less, k) {
      var b :| 0 <= b < |less| && HasKey(less[b], k);
      var c := if b < a then b else b + 1;
      assert sections[c] == less[b] && sections[c] in sections;
      assert k == key ==> c == a;
    }
    if Holds(sections, k) && k != key {
      var b :| 0 <= b < |sections| && HasKey(sections[b], k);
      assert b != a;
      assert less[if b < a then b else b - 1] == sections[b];
      assert sections[b] in less;
    }
  }

  /** With one key to a peer and one peer to a key, taking a peer out takes out its key and no other. */
  lemma HoldsAfterDisable(v6: string -> bool, w: World, m: Mutation, k: string)
    requires WorldOk(w) && Possible(w, m) && m.action.Disable? && Kept(PeersIn(v6, w))
    ensures Holds(Parsed(EditedText(w, m)).sections, k) <==> Holds(Sections(w, m.instance), k) && k != m.publicKey
  {
    hide HasKey, Parses, Parsed, EditedText, FindPeer, WorldOk, Alike, Kept, OneEach, Holds, PeersIn;
    var less, again := Edited(w, m).value, Parsed(EditedText(w, m)).sections;
    EditedParses(w, m);
    AlikeSymmetric(less, again);
    if Holds(less, k) { HoldsAlike(less, again, k); }
    if Holds(again, k) { HoldsAlike(again, less, k); }
    FindPeerIs(Sections(w, m.instance), m.publicKey);
    SectionsApart(v6, w, m.instance);
    HoldsWithout(Sections(w, m.instance), FindPeer(Sections(w, m.instance), m.publicKey).value, m.publicKey, k);
  }

  lemma SectionsApart(v6: string -> bool, w: World, i: string)
    requires i in w.configs && Parses(w.configs[i]) && Kept(PeersIn(v6, w))
    ensures OneEach(Sections(w, i))
  {
    hide HasKey, Parses, Parsed, SectionEntries;
    var p, sections := PeersIn(v6, w), Sections(w, i);
    ActiveFaces(v6, w, i);
    assert KeptList(p.active[i]);
    forall a, b, k | 0 <= a < |sections| && 0 <= b < |sections| && HasKey(sections[a], k) && HasKey(sections[b], k)
      ensures a == b {
      assert k in p.active[i][a].keys && k in p.active[i][b].keys;
      assert a < b ==> Apart(p.active[i][a], p.active[i][b]);
      assert b < a ==> Apart(p.active[i][b], p.active[i][a]);
    }
    forall a, k, l | 0 <= a < |sections| && HasKey(sections[a], k) && HasKey(sections[a], l) ensures k == l {
      assert OneKey(p.active[i][a]);
      assert k in p.active[i][a].keys && l in p.active[i][a].keys;
    }
  }

  lemma PossibleDisable(w: World, m: Mutation)
    requires m.action.Disable?
    ensures Possible(w, m) <==>
      m.instance in w.configs && Parses(w.configs[m.instance]) && Holds(Sections(w, m.instance), m.publicKey)
  {
    hide Parses, Parsed, FindPeer, Holds, HasKey;
    if m.instance in w.configs && Parses(w.configs[m.instance]) {
      FindPeerHolds(Sections(w, m.instance), m.publicKey);
      FindPeerIs(Sections(w, m.instance), m.publicKey);
    }
  }

  /** A disable against the file's own fingerprint is accepted exactly if the configuration has the peer. */
  lemma DisableAccepted(v6: string -> bool, w: World, m: Mutation)
    requires WorldOk(w) && m.action.Disable? && Kept(PeersIn(v6, w))
    requires m.instance in w.configs ==> m.expected == w.configs[m.instance]
    ensures Accepts(w, m) <==>
      m.instance in w.configs && Parses(w.configs[m.instance]) && Holds(Sections(w, m.instance), m.publicKey)
    ensures Possible(w, m) ==> Verifies(w, m)
  {
    hide Possible, Parses, Parsed, EditedText, WorldOk, Kept, Holds, PeersIn;
    PossibleDisable(w, m);
    if Possible(w, m) {
      HoldsAfterDisable(v6, w, m, m.publicKey);
    }
  }

  lemma MovedConfigs(v6: string -> bool, before: World, now: World, cut: seq<Policy>, p: Policy, m: Mutation)
    requires SameFiles(before, now) && KeysWithout(before, now, cut) && WorldOk(now) && Kept(PeersIn(v6, now))
    requires m == DisableFor(p, m.expected) && Possible(now, m)
    ensures KeysWithout(before, Final(now, m), cut + [p])
  {
    hide Parses, Parsed, EditedText, WorldOk, Kept, Holds, Edited, PutAside, PeersIn, CutKey;
    var next := Final(now, m);
    forall i, k | i in before.configs && Parses(before.configs[i])
      ensures Holds(Sections(next, i), k) <==> Holds(Sections(before, i), k) && !CutKey(cut + [p], i, k)
    {
      CutMore(cut, p, i, k, "");
      if i == m.instance { HoldsAfterDisable(v6, now, m, k); }
    }
  }

  lemma MovedEntries(before: World, now: World, cut: seq<Policy>, tried: seq<Policy>, p: Policy, m: Mutation)
    requires EntriesWith(before, now, cut, tried) && !CutConnection(cut, p.connection)
    requires m == DisableFor(p, m.expected) && Possible(now, m)
    ensures EntriesWith(before, Final(now, m), cut + [p], tried)
  {
    hide Parses, Parsed, EditedText, Holds, Edited, PutAside, CutConnection, HasKey;
    var next, more := Final(now, m), cut + [p];
    PutAsideHas(now, m);
    forall c ensures CutConnection(more, c) <==>
      CutConnection(cut, c) || c == p.connection { CutMore(cut, p, "", "", c); }
    forall q | q in more ensures PutAsideFor(next, q) {
      if q in cut { CutHas(cut, q); }
    }
  }

  /** The runtime failed: the entry is taken back, or, if that fails too, stays beside the peer it was made for. */
  lemma MovedTried(before: World, now: World, cut: seq<Policy>, tried: seq<Policy>, p: Policy, m: Mutation, next: World)
    requires Moved(before, now, cut, tried) && !CutConnection(cut, p.connection)
    requires m == DisableFor(p, m.expected) && Possible(now, m)
    requires next == WithStored(now, m) || next == WithoutStored(now, m.connection)
    ensures Moved(before, next, cut, tried + [p])
  {
    hide Possible, Parses, Parsed, Holds, PutAside, CutConnection, CutKey, HasKey;
    forall c ensures CutConnection(tried + [p], c) <==> CutConnection(tried, c) || c == p.connection {
      CutMore(tried, p, "", "", c);
    }
    forall q | q in cut ensures PutAsideFor(next, q) { CutHas(cut, q); }
  }

  lemma CutHas(cut: seq<Policy>, q: Policy)
    requires q in cut
    ensures CutConnection(cut, q.connection) && CutKey(cut, q.instance, q.publicKey)
  {
  }

  lemma FinalConfigs(w: World, m: Mutation)
    requires WorldOk(w) && Possible(w, m) && m.action.Disable?
    ensures m.instance in w.configs && Parses(w.configs[m.instance])
    ensures exists text :: Parses(text) && Final(w, m).configs == w.configs[m.instance := text]
  {
    hide Parses, Parsed, EditedText, WorldOk, PutAside, FindPeer;
    EditedParses(w, m);
  }

  lemma MovedFiles(before: World, now: World, m: Mutation)
    requires SameFiles(before, now) && WorldOk(now) && Possible(now, m) && m.action.Disable?
    ensures SameFiles(before, Final(now, m))
  {
    hide Possible, Final, Parses, WorldOk;
    FinalConfigs(now, m);
  }

  /** One more peer moved. */
  lemma MovedStep(v6: string -> bool, before: World, now: World, cut: seq<Policy>, tried: seq<Policy>, p: Policy,
    m: Mutation)
    requires Moved(before, now, cut, tried) && WorldOk(now) && Kept(PeersIn(v6, now))
    requires m == DisableFor(p, m.expected) && Possible(now, m) && !CutConnection(cut, p.connection)
    ensures Moved(before, Final(now, m), cut + [p], tried)
  {
    hide Possible, Final, WorldOk, Kept, PeersIn, SameFiles, KeysWithout, EntriesWith, CutConnection;
    MovedFiles(before, now, m);
    MovedConfigs(v6, before, now, cut, p, m);
    MovedEntries(before, now, cut, tried, p, m);
  }

  lemma CutMore(cut: seq<Policy>, p: Policy, i: string, k: string, c: string)
    ensures CutKey(cut + [p], i, k) <==> CutKey(cut, i, k) || (p.instance == i && p.publicKey == k)
    ensures CutConnection(cut + [p], c) <==> CutConnection(cut, c) || p.connection == c
  {
    assert forall q :: q in cut + [p] <==> q in cut || q == p;
  }

  lemma PutAsideHas(w: World, m: Mutation)
    requires Possible(w, m) && m.action.Disable?
    ensures PutAside(w, m).instance == m.instance && PutAside(w, m).publicKey == m.publicKey
      && HasKey(PutAside(w, m).section, m.publicKey)
  {
    hide HasKey, FindPeer;
    FindPeerIs(Sections(w, m.instance), m.publicKey);
  }

  lemma PassesSuspended(w: World, m: Mutation, now: World)
    requires Passes(w, m, now) && m.action.Disable?
    ensures forall c :: c != m.connection ==> (c in now.suspended <==> c in w.suspended)
    ensures forall c :: c in now.suspended && c in w.suspended && c != m.connection ==>
      now.suspended[c] == w.suspended[c]
    ensures m.connection in now.suspended && now.suspended != w.suspended ==>
      now.suspended[m.connection].instance == m.instance && now.suspended[m.connection].publicKey == m.publicKey
  {
    hide Parses, Parsed, EditedText, FindPeer;
  }

  /** A policy with another connection and another peer stays paired, wherever a disable is cut off. */
  lemma PairedElsewhere(v6: string -> bool, w: World, m: Mutation, now: World, p: Policy)
    requires Passes(w, m, now) && m.action.Disable? && Paired(PeersIn(v6, w), p.connection, p.instance, p.publicKey)
    requires p.connection != m.connection && !(p.instance == m.instance && p.publicKey == m.publicKey)
    ensures Paired(PeersIn(v6, now), p.connection, p.instance, p.publicKey)
  {
    hide Parses, Parsed, FaceOf, Passes;
    PassesSuspended(w, m, now);
    var was, after := PeersIn(v6, w).stored, PeersIn(v6, now).stored;
    forall c | c in after
      ensures c == p.connection <==> after[c].instance == p.instance && after[c].key == p.publicKey {
      assert c in now.suspended;
      if c != m.connection || now.suspended == w.suspended { assert c in was; }
    }
  }

  lemma NothingGone(w: World, m: Mutation)
    requires !m.action.Revoke?
    ensures Gone(w, m) == iset{}
  {
  }

  /** With ids and keys paired, a revoke takes at most the peer it names. */
  lemma GoneIsOne(v6: string -> bool, w: World, m: Mutation)
    requires WorldOk(w) && Kept(PeersIn(v6, w)) && Paired(PeersIn(v6, w), m.connection, m.instance, m.publicKey)
    ensures Gone(w, m) <= if m.action.Revoke? then iset{(m.instance, m.publicKey)} else iset{}
  {
    hide PeersIn, Kept, Paired, WorldOk, Parses, Parsed, HasKey;
    forall i, k | (i, k) in Gone(w, m) ensures m.action.Revoke? && i == m.instance && k == m.publicKey {
      TakenIsOne(v6, w, m, i, k);
    }
  }

  lemma TakenIsOne(v6: string -> bool, w: World, m: Mutation, i: string, k: string)
    requires TakenBy(w, m, i, k) && Kept(PeersIn(v6, w))
      && Paired(PeersIn(v6, w), m.connection, m.instance, m.publicKey)
    ensures i == m.instance && k == m.publicKey
  {
    hide Kept, Parses, Parsed, HasKey, FaceOf;
    if m.connection in w.suspended && w.suspended[m.connection].instance == i
      && HasKey(w.suspended[m.connection].section, k) {
      StoredUnderKey(v6, w, m.connection);
      assert m.connection in PeersIn(v6, w).stored;
    } else {
      SectionsApart(v6, w, i);
      var s :| s in Sections(w, i) && HasKey(s, m.publicKey) && HasKey(s, k);
      var a :| 0 <= a < |Sections(w, i)| && Sections(w, i)[a] == s;
    }
  }

  // A round trip ---------------------------------------------------------------------------------------------

  lemma RestoredUnder(s: SuspendedPeer, sections: seq<Section>)
    requires StoredOk(s) && (forall k :: HasKey(s.section, k) ==> k == s.publicKey) && !Holds(sections, s.publicKey)
    ensures Restorable(sections, s.section)
  {
    hide SoundSection, SectionName, FindPeer, Holds, KeyLine;
    var lines := s.section.lines;
    var i :| 0 <= i < |lines| && KeyLine(lines[i], s.publicKey);
    FirstKeySome(lines, i, s.publicKey);
    assert lines[0..] == lines;
    PeerSection(s);
    FirstKeyIs(s.section, 0);
    FindPeerHolds(sections, s.publicKey);
  }

  lemma CutHasOneKey(v6: string -> bool, w: World, m: Mutation)
    requires Possible(w, m) && m.action.Disable? && Kept(PeersIn(v6, w))
    ensures forall k :: HasKey(PutAside(w, m).section, k) ==> k == m.publicKey
  {
    hide Kept, PeersIn, Parses, Parsed, HasKey, FindPeer;
    SectionsApart(v6, w, m.instance);
    FindPeerIs(Sections(w, m.instance), m.publicKey);
  }

  /**
   * A completed disable can be enabled again, and then every section still has its lines and the others their order:
   * the peer comes last, and nothing is left of it in the map of suspended peers.
   */
  lemma DisableThenEnable(v6: string -> bool, w: World, d: Mutation, e: Mutation)
    requires WorldOk(w) && Kept(PeersIn(v6, w)) && Possible(w, d) && d.action.Disable?
    requires e.action.Enable? && e.instance == d.instance && e.connection == d.connection && e.publicKey == d.publicKey
    ensures Possible(Final(w, d), e)
    ensures var sections, i := Sections(w, d.instance), FindPeer(Sections(w, d.instance), d.publicKey).value;
      var after := Final(Final(w, d), e);
      && i < |sections| && d.instance in after.configs && Parses(after.configs[d.instance])
      && Alike(Without(sections, i) + [sections[i]], Sections(after, d.instance))
      && after.suspended == w.suspended - {d.connection}
      && (forall j :: j != d.instance ==>
        (j in after.configs <==> j in w.configs) && (j in w.configs ==> after.configs[j] == w.configs[j]))
  {
    hide Kept, PeersIn, Parses, Parsed, EditedText, FindPeer, Restorable, Holds, HasKey, Alike, StoredOk;
    var mid := Final(w, d);
    var i := FindPeer(Sections(w, d.instance), d.publicKey).value;
    FindPeerIs(Sections(w, d.instance), d.publicKey);
    EditedParses(w, d);
    CutHasOneKey(v6, w, d);
    HoldsAfterDisable(v6, w, d, d.publicKey);
    PutAsideHas(w, d);
    RestoredUnder(PutAside(w, d), Sections(mid, d.instance));
    MutationOk(w, d, mid);
    EditedParses(mid, e);
    var less, again := Without(Sections(w, d.instance), i), Sections(mid, d.instance);
    AlikeAppend(less, again, PutAside(w, d).section);
    AlikeTransitive(less + [PutAside(w, d).section], again +
      [PutAside(w, d).section], Sections(Final(mid, e), d.instance));
  }

  /**
   * What every step of a pass keeps, whatever fails: no peer is lost, and peers stay apart and paired with their ids.
   */
  ghost predicate InOrder(v6: string -> bool, before: World, now: World, rest: seq<Policy>) {
    Kept(PeersIn(v6, now)) && Conserved(PeersIn(v6, before), PeersIn(v6, now), iset{}) && AllPaired(v6, now, rest)
  }

  lemma InOrderStart(v6: string -> bool, w: World, policies: seq<Policy>)
    requires Kept(PeersIn(v6, w)) && AllPaired(v6, w, policies)
    ensures InOrder(v6, w, w, policies)
  {
    hide Kept, PeersIn;
  }

  lemma InOrderStep(v6: string -> bool, before: World, w: World, policies: seq<Policy>, k: nat, m: Mutation, now: World)
    requires WorldOk(w) && Distinct(policies) && k < |policies| && InOrder(v6, before, w, policies[k..])
    requires m == DisableFor(policies[k], m.expected) && Passes(w, m, now)
    ensures InOrder(v6, before, now, policies[k + 1..])
  {
    hide Kept, PeersIn, Passes, WorldOk, Conserved, Paired;
    assert policies[k..][0] == policies[k] && policies[k] in policies[k..];
    PairedOverwritesItself(v6, w, m);
    MutationConserves(v6, w, m, now);
    MutationKeeps(v6, w, m, now);
    NothingGone(w, m);
    var none: iset<(string, string)> := iset{};
    ConservedTransitive(PeersIn(v6, before), PeersIn(v6, w), PeersIn(v6, now), none, none);
    assert none + none == none;
    forall p | p in policies[k + 1..] ensures Paired(PeersIn(v6, now), p.connection, p.instance, p.publicKey) {
      var j :| 0 <= j < |policies[k + 1..]| && policies[k + 1..][j] == p;
      assert policies[k + 1 + j] == p && policies[k..][j + 1] == p && p in policies[k..];
      PairedElsewhere(v6, w, m, now, p);
    }
  }

  lemma FreshStep(records: seq<Record>, later: seq<Record>, policies: seq<Policy>, k: nat, minute: string)
    requires Distinct(policies) && k < |policies| && Fresh(records, policies[k..], minute)
    requires forall o :: o != EnforceId(policies[k].connection, minute) && Last(records, o).None? ==>
      Last(later, o).None?
    ensures Fresh(later, policies[k + 1..], minute)
  {
    hide Last, EnforceId;
    forall p | p in policies[k + 1..] ensures Last(later, EnforceId(p.connection, minute)).None? {
      var j :| 0 <= j < |policies[k + 1..]| && policies[k + 1..][j] == p;
      assert policies[k + 1 + j] == p && policies[k..][j + 1] == p && p in policies[k..];
      EnforceIdInjective(p.connection, policies[k].connection, minute);
    }
  }

  // Projection of the Panel's policies -----------------------------------------------------------------------

  datatype PolicyInput = PolicyInput(
    connection: string, instance: string, publicKey: string, expiresAt: Option<int>, limit: Option<uint64>,
    used: uint64, epoch: string, status: PolicyStatus)

  predicate ValidInput(i: PolicyInput) {
    SafeId(i.connection) && SafeId(i.instance) && ClientConfig.ValidKey(i.publicKey) && 1 <= |i.epoch| <= 160
  }

  /** The last policy of this connection. */
  function PolicyFor(policies: seq<Policy>, connection: string): Option<Policy> {
    if policies == [] then None
    else if policies[|policies| - 1].connection == connection then Some(policies[|policies| - 1])
    else PolicyFor(policies[..|policies| - 1], connection)
  }

  /** The Panel's policy with the node's counters; what the node has stopped is not started again by a projection. */
  function Project(existing: seq<Policy>, i: PolicyInput): Policy {
    match PolicyFor(existing, i.connection)
    case None =>
      Policy(i.connection, i.instance, i.publicKey, i.expiresAt, i.limit, i.used, i.epoch, 0, 0, false, i.status)
    case Some(p) =>
      var status := if i.status.Active? && (p.status.Expired? || p.status.QuotaExceeded?) then p.status else i.status;
      Policy(i.connection, i.instance, i.publicKey, i.expiresAt, i.limit, i.used, i.epoch,
        p.lastRx, p.lastTx, p.initialized && p.epoch == i.epoch, status)
  }

  function ProjectAll(existing: seq<Policy>, inputs: seq<PolicyInput>): (r: seq<Policy>)
    ensures |r| == |inputs| && forall k :: 0 <= k < |inputs| ==> r[k] == Project(existing, inputs[k])
  {
    if inputs == [] then [] else [Project(existing, inputs[0])] + ProjectAll(existing, inputs[1..])
  }

  /** The latest policy of a connection in a list, by its index. */
  ghost predicate LatestFor(policies: seq<Policy>, connection: string, k: nat) {
    && k < |policies| && policies[k].connection == connection
    && forall j :: k < j < |policies| ==> policies[j].connection != connection
  }

  /**
   * What a projection makes of an input and the latest policy it replaces: everything is the input's, but the last
   * counters, whether they still count in this epoch, and a stop that the input calls active.
   */
  ghost predicate Carries(i: PolicyInput, p: Policy, q: Policy) {
    && q.lastRx == p.lastRx && q.lastTx == p.lastTx
    && (q.initialized <==> p.initialized && p.epoch == i.epoch)
    && q.status == (if i.status.Active? && p.status in {Expired, QuotaExceeded} then p.status else i.status)
  }

  ghost predicate TakesOver(existing: seq<Policy>, i: PolicyInput, q: Policy) {
    && q.connection == i.connection && q.instance == i.instance && q.publicKey == i.publicKey
    && q.expiresAt == i.expiresAt && q.limit == i.limit && q.used == i.used && q.epoch == i.epoch
    && (forall k: nat :: LatestFor(existing, i.connection, k) ==> Carries(i, existing[k], q))
    && ((forall k: nat :: !LatestFor(existing, i.connection, k)) ==>
         q.lastRx == 0 && q.lastTx == 0 && !q.initialized && q.status == i.status)
  }

  ghost predicate TakesOverAll(existing: seq<Policy>, inputs: seq<PolicyInput>, next: seq<Policy>) {
    |next| == |inputs| && forall k :: 0 <= k < |inputs| ==> TakesOver(existing, inputs[k], next[k])
  }

  lemma {:induction false} PolicyForLatest(policies: seq<Policy>, connection: string)
    ensures PolicyFor(policies, connection).Some? ==>
      exists k: nat :: LatestFor(policies, connection, k) && PolicyFor(policies, connection) == Some(policies[k])
    ensures PolicyFor(policies, connection).None? ==> forall k: nat :: !LatestFor(policies, connection, k)
    ensures forall j, k: nat :: LatestFor(policies, connection, j) && LatestFor(policies, connection, k) ==> j == k
  {
    if policies != [] {
      var n := |policies| - 1;
      var rest := policies[..n];
      PolicyForLatest(rest, connection);
      if policies[n].connection == connection {
        assert LatestFor(policies, connection, n);
      } else {
        assert forall k: nat :: LatestFor(policies, connection, k) <==> LatestFor(rest, connection, k);
      }
    }
  }

  lemma ProjectTakesOver(existing: seq<Policy>, i: PolicyInput)
    ensures TakesOver(existing, i, Project(existing, i))
  {
    hide PolicyFor, LatestFor;
    PolicyForLatest(existing, i.connection);
  }

  lemma ProjectAllTakesOver(existing: seq<Policy>, inputs: seq<PolicyInput>)
    ensures TakesOverAll(existing, inputs, ProjectAll(existing, inputs))
  {
    hide TakesOver, Project;
    forall k | 0 <= k < |inputs| ensures TakesOver(existing, inputs[k], ProjectAll(existing, inputs)[k]) {
      ProjectTakesOver(existing, inputs[k]);
    }
  }

  lemma PolicyForIn(policies: seq<Policy>, connection: string)
    ensures PolicyFor(policies, connection).Some? ==>
      PolicyFor(policies, connection).value in policies
        && PolicyFor(policies, connection).value.connection == connection
  {
  }
}
