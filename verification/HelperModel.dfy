/** What the helper's changes mean for its files, apart from locks, failures and the journal. */
module HelperModel {
  import opened Text
  import Ipv4
  import opened ConfigLines
  import opened ConfigDocument
  import opened AddressPool
  import opened HelperJournal
  import opened HelperPeers
  import ClientConfig
  import Order

  /** A record of instances.json; the fingerprint of a file is taken to be injective, so it is the file. */
  datatype Instance = Instance(canCreate: bool, canSuspend: bool, fingerprint: string, server: ClientConfig.Server)

  datatype SuspendedPeer = SuspendedPeer(instance: string, publicKey: string, section: Section)

  datatype PolicyStatus = Active | Suspended | Expired | QuotaExceeded

  datatype Policy = Policy(
    connection: string, instance: string, publicKey: string, expiresAt: Option<int>, limit: Option<uint64>,
    used: uint64, epoch: string, lastRx: uint64, lastTx: uint64, initialized: bool, status: PolicyStatus)

  /** The configuration files and the map of suspended peers. */
  datatype World = World(configs: map<string, string>, suspended: map<string, SuspendedPeer>)

  /** Disable, enable or revoke one connection. */
  datatype Mutation = Mutation(
    action: Action, instance: string, expected: string, connection: string, publicKey: string, override: bool)

  predicate SafeChar(c: char) {
    IsDigit(c) || 'a' <= c <= 'z' || 'A' <= c <= 'Z' || c in "-_.:"
  }

  predicate SafeId(s: string) {
    1 <= |s| <= 128 && All(SafeChar, s)
  }

  /** The steps at which a call to the helper may fail. */
  datatype Stage =
    | AtLookup | AtStatistics | AtBegin | AtPolicyLock | AtInstance | AtInstanceLock | AtConfigRead | AtSnapshot
    | AtSuspendedRead | AtSuspendedWrite | AtApply | AtUndo | AtCleanup | AtPoliciesRead | AtPoliciesWrite
    | AtInstanceWrite | AtSuccessRecord | AtFailureRecord

  const NONE: set<Stage> := {}

  // How far a disable under the policies' lock gets when exactly these steps fail.

  predicate Arrives(fails: set<Stage>) {
    fails !! {AtBegin, AtInstance, AtInstanceLock, AtConfigRead, AtSnapshot, AtSuspendedRead, AtSuspendedWrite}
  }

  predicate Replaces(fails: set<Stage>) {
    Arrives(fails) && AtApply !in fails
  }

  predicate Saves(fails: set<Stage>) {
    Replaces(fails) && AtPoliciesRead !in fails && AtPoliciesWrite !in fails
  }

  predicate Stamps(fails: set<Stage>) {
    Saves(fails) && AtInstanceWrite !in fails
  }

  predicate Completes(fails: set<Stage>) {
    Stamps(fails) && AtSuccessRecord !in fails
  }

  predicate ValidMutation(m: Mutation) {
    SafeId(m.instance) && SafeId(m.connection) && ClientConfig.ValidKey(m.publicKey)
  }

  predicate IsMutation(a: Action) {
    a == Disable || a == Enable || a == Revoke
  }

  ghost function PeersIn(v6: string -> bool, w: World): Peers {
    Peers(
      map i | i in w.configs && Parses(w.configs[i]) :: Faces(v6, Parsed(w.configs[i]).sections),
      map c | c in w.suspended ::
        Stored(w.suspended[c].instance, w.suspended[c].publicKey, FaceOf(v6, w.suspended[c].section)))
  }

  /** What suspended.json holds was cut from a configuration under the key it is filed under. */
  predicate StoredOk(s: SuspendedPeer) {
    SoundSection(s.section) && HasKey(s.section, s.publicKey)
  }

  predicate WorldOk(w: World) {
    forall c :: c in w.suspended ==> StoredOk(w.suspended[c])
  }

  // One mutation, step by step ---------------------------------------------------------------------------

  function Sections(w: World, instance: string): seq<Section>
    requires instance in w.configs
  {
    Parsed(w.configs[instance]).sections
  }

  /** The document after the change, or nothing if the change is refused. */
  function Edited(w: World, m: Mutation): Option<seq<Section>>
    requires m.instance in w.configs
  {
    var sections := Sections(w, m.instance);
    var found := FindPeer(sections, m.publicKey);
    match m.action
    case Disable => TakenOut(sections, found)
    case Enable =>
      if m.connection !in w.suspended then None
      else
        var s := w.suspended[m.connection];
        if s.instance != m.instance || s.publicKey != m.publicKey || !Restorable(sections, s.section) then None
        else Some(sections + [s.section])
    case Revoke =>
      if found.Some? then TakenOut(sections, found)
      else if m.connection in w.suspended then Some(sections)
      else None
    case _ => None
  }

  function TakenOut(sections: seq<Section>, found: Option<nat>): Option<seq<Section>> {
    if found.Some? && found.value < |sections| then Some(Without(sections, found.value)) else None
  }

  function EditedText(w: World, m: Mutation): string
    requires m.instance in w.configs && Edited(w, m).Some?
  {
    PrintDoc(Parsed(w.configs[m.instance]).(sections := Edited(w, m).value))
  }

  /** The entry a disable puts aside. */
  function PutAside(w: World, m: Mutation): SuspendedPeer
    requires m.instance in w.configs && m.action.Disable? && Edited(w, m).Some?
  {
    SuspendedPeer(m.instance, m.publicKey,
      Sections(w, m.instance)[FindPeer(Sections(w, m.instance), m.publicKey).value])
  }

  predicate Possible(w: World, m: Mutation) {
    IsMutation(m.action) && m.instance in w.configs && Parses(w.configs[m.instance]) && Edited(w, m).Some?
  }

  function WithStored(w: World, m: Mutation): World
    requires Possible(w, m) && m.action.Disable?
  {
    w.(suspended := w.suspended[m.connection := PutAside(w, m)])
  }

  function WithText(w: World, m: Mutation, text: string): World {
    w.(configs := w.configs[m.instance := text])
  }

  function WithoutStored(w: World, c: string): World {
    w.(suspended := w.suspended - {c})
  }

  /** The files once the change is complete. */
  function Final(w: World, m: Mutation): World
    requires Possible(w, m)
  {
    if m.action.Disable? then WithText(WithStored(w, m), m, EditedText(w, m))
    else WithoutStored(WithText(w, m, EditedText(w, m)), m.connection)
  }

  /** The states a change passes through, at any of which it may be cut off; a failed disable is undone. */
  ghost predicate Passes(w: World, m: Mutation, now: World) {
    || now == w
    || (Possible(w, m) && now == Final(w, m))
    || (Possible(w, m) && m.action.Disable? && (now == WithStored(w, m) || now == WithoutStored(w, m.connection)))
    || (Possible(w, m) && !m.action.Disable? && now == WithText(w, m, EditedText(w, m)))
  }

  /** The new configuration names the peer exactly if it should: what the runtime checks after applying it. */
  predicate Verifies(w: World, m: Mutation)
    requires Possible(w, m)
  {
    Holds(Parsed(EditedText(w, m)).sections, m.publicKey) == m.action.Enable?
  }

  /** Whether the configuration is written at all. */
  predicate Applied(w: World, m: Mutation)
    requires Possible(w, m)
  {
    !m.action.Revoke? || EditedText(w, m) != w.configs[m.instance]
  }

  /** A change that is carried out when nothing fails. */
  predicate Accepts(w: World, m: Mutation) {
    Possible(w, m) && w.configs[m.instance] == m.expected && (Applied(w, m) ==> Verifies(w, m))
  }

  /**
   * What a disable leaves when exactly these steps fail: nothing changed, if it is refused or gets no further than
   * the map of suspended peers; the configuration as it was and the entry taken back, if the runtime fails; otherwise
   * the peer moved, and the policies and the instance's record as far as they could be saved.
   */
  ghost predicate Disabled(fails: set<Stage>, m: Mutation, accepted: bool, w: World, now: World,
    policies: seq<Policy>, policiesNow: seq<Policy>, instances: map<string, Instance>,
      instancesNow: map<string, Instance>)
    requires accepted ==> Possible(w, m) && m.action.Disable?
  {
    if !accepted || !Arrives(fails) then now == w && policiesNow == policies && instancesNow == instances
    else if AtApply in fails then
      && now == (if AtUndo in fails then WithStored(w, m) else WithoutStored(w, m.connection))
      && policiesNow == policies && instancesNow == instances
    else
      && now == Final(w, m)
      && policiesNow == (if Saves(fails) then PoliciesAfter(m, policies) else policies)
      && instancesNow == if Stamps(fails) then Stamped(instances, m.instance, EditedText(w, m)) else instances
  }

  /** The instance records with the fingerprint of one configuration as it now is. */
  function Stamped(instances: map<string, Instance>, i: string, fingerprint: string): map<string, Instance> {
    if i in instances then instances[i := instances[i].(fingerprint := fingerprint)] else instances
  }

  function PolicyAfter(m: Mutation, p: Policy): Policy {
    if p.connection != m.connection then p
    else if m.action.Disable? then p.(status := Suspended)
    else if m.action.Enable? then
      var q := if !m.override then p else
        var a := if p.status.Expired? then p.(expiresAt := None) else p;
        var b := if a.status.QuotaExceeded? then a.(used := 0, epoch := "") else a;
        b.(initialized := false);
      q.(status := Active)
    else p
  }

  function PoliciesAfter(m: Mutation, policies: seq<Policy>): seq<Policy> {
    if policies == [] then []
    else if policies[0].connection == m.connection && m.action.Revoke? then PoliciesAfter(m, policies[1..])
    else [PolicyAfter(m, policies[0])] + PoliciesAfter(m, policies[1..])
  }

  /**
   * What a change means for the policies, connection by connection: the others keep their values and their order; a
   * revoked connection has none any more; a disabled one is suspended and keeps its counters and limits; an enabled one
   * is active, and an override lifts the expiry or the usage that had stopped it, and starts counting anew.
   */
  ghost predicate PolicyChange(m: Mutation, before: seq<Policy>, after: seq<Policy>) {
    && Order.Keep((p: Policy) => p.connection != m.connection, after) ==
      Order.Keep((p: Policy) => p.connection != m.connection, before)
    && (m.action.Revoke? ==> forall p :: p in after ==> p.connection != m.connection)
    && (!m.action.Revoke? ==> |after| == |before| && forall k :: 0 <= k < |before| ==>
      OwnChange(m, before[k], after[k]))
  }

  predicate OwnChange(m: Mutation, p: Policy, q: Policy) {
    && SameTerms(p, q) && q.lastRx == p.lastRx && q.lastTx == p.lastTx
    && (p.connection != m.connection ==> q == p)
    && (p.connection == m.connection && m.action.Disable? ==>
      q.status.Suspended? && SameUse(p, q) && q.expiresAt == p.expiresAt)
    && (p.connection == m.connection && m.action.Enable? ==>
      && q.status.Active?
      && (!m.override ==> SameUse(p, q) && q.expiresAt == p.expiresAt)
      && (m.override ==>
        && !q.initialized
        && q.expiresAt == (if p.status.Expired? then None else p.expiresAt)
        && (q.used, q.epoch) == if p.status.QuotaExceeded? then (0, "") else (p.used, p.epoch)))
  }

  predicate SameTerms(p: Policy, q: Policy) {
    q.connection == p.connection && q.instance == p.instance && q.publicKey == p.publicKey && q.limit == p.limit
  }

  predicate SameUse(p: Policy, q: Policy) {
    q.used == p.used && q.epoch == p.epoch && q.initialized == p.initialized
  }

  lemma {:induction false} PoliciesChange(m: Mutation, policies: seq<Policy>)
    requires IsMutation(m.action)
    ensures PolicyChange(m, policies, PoliciesAfter(m, policies))
  {
    if policies != [] {
      var rest := policies[1..];
      var after := PoliciesAfter(m, rest);
      PoliciesChange(m, rest);
      PolicyChanges(m, policies[0]);
      hide PolicyAfter, OwnChange;
      var next := [PolicyAfter(m, policies[0])] + after;
      assert next[1..] == after;
      if !m.action.Revoke? {
        forall k | 0 <= k < |policies| ensures OwnChange(m, policies[k], next[k]) {
          if k > 0 { assert OwnChange(m, rest[k - 1], after[k - 1]); }
        }
      }
    }
  }

  lemma PolicyChanges(m: Mutation, p: Policy)
    requires IsMutation(m.action)
    ensures PolicyAfter(m, p).connection == p.connection && (p.connection != m.connection ==> PolicyAfter(m, p) == p)
    ensures !m.action.Revoke? ==> OwnChange(m, p, PolicyAfter(m, p))
  {
  }

  // Texts and peers ----------------------------------------------------------------------------------------

  lemma EditedParses(w: World, m: Mutation)
    requires WorldOk(w) && Possible(w, m)
    ensures Parses(EditedText(w, m)) && Alike(Edited(w, m).value, Parsed(EditedText(w, m)).sections)
    ensures m.action.Disable? ==> StoredOk(PutAside(w, m))
  {
    hide Parsed, Parses, Sound, SoundSection, Alike, FindPeer, PrintDoc, HasKey, Restorable;
    var d := Parsed(w.configs[m.instance]);
    var found := FindPeer(d.sections, m.publicKey);
    ParsedSound(w.configs[m.instance]);
    FindPeerIs(d.sections, m.publicKey);
    if found.Some? { WithoutSound(d, found.value); }
    if m.connection in w.suspended { AppendSound2(d, w.suspended[m.connection]); }
    assert d.(sections := d.sections) == d;
    PrintParse(d.(sections := Edited(w, m).value));
  }

  lemma AppendSound2(d: Doc, s: SuspendedPeer)
    requires Sound(d) && StoredOk(s)
    ensures Sound(d.(sections := d.sections + [s.section]))
  {
    hide Sound, HasKey, SoundSection;
    AppendSound(d, s.section);
  }

  lemma FacesWithout(v6: string -> bool, sections: seq<Section>, i: nat)
    requires i < |sections|
    ensures Faces(v6, Without(sections, i)) == Drop(Faces(v6, sections), i)
  {
    hide FaceOf;
  }

  lemma FacesAppend(v6: string -> bool, sections: seq<Section>, s: Section)
    ensures Faces(v6, sections + [s]) == Faces(v6, sections) + [FaceOf(v6, s)]
  {
    hide FaceOf;
  }

  /** The peers of the edited configuration. */
  lemma EditedFaces(v6: string -> bool, w: World, m: Mutation)
    requires WorldOk(w) && Possible(w, m)
    ensures var faces, found := Faces(v6, Sections(w, m.instance)), FindPeer(Sections(w, m.instance), m.publicKey);
      Faces(v6, Parsed(EditedText(w, m)).sections) ==
      if m.action.Enable? then faces + [FaceOf(v6, w.suspended[m.connection].section)]
      else if found.Some? && found.value < |faces| then Drop(faces, found.value)
      else faces
  {
    hide FaceOf, Parses, Parsed, Alike, FindPeer, PrintDoc, Restorable, WorldOk, EditedText, Faces, Drop, Without;
    EditedParses(w, m);
    FacesAlike(v6, Edited(w, m).value, Parsed(EditedText(w, m)).sections);
    var sections := Sections(w, m.instance);
    var found := FindPeer(sections, m.publicKey);
    if m.action.Enable? {
      FacesAppend(v6, sections, w.suspended[m.connection].section);
    } else if found.Some? && found.value < |sections| {
      FacesWithout(v6, sections, found.value);
    }
  }

  lemma FoundFace(v6: string -> bool, w: World, m: Mutation)
    requires m.instance in w.configs
    ensures var sections, found := Sections(w, m.instance), FindPeer(Sections(w, m.instance), m.publicKey);
      found.Some? ==> found.value < |sections| && m.publicKey in FaceOf(v6, sections[found.value]).keys
    ensures var sections, found := Sections(w, m.instance), FindPeer(Sections(w, m.instance), m.publicKey);
      found.None? ==> forall i :: 0 <= i < |sections| ==> m.publicKey !in FaceOf(v6, sections[i]).keys
  {
    hide HasKey, FindPeer, SectionEntries;
    FindPeerIs(Sections(w, m.instance), m.publicKey);
  }

  lemma PeersSuspended(v6: string -> bool, w: World, c: string, s: SuspendedPeer)
    ensures PeersIn(v6, w.(suspended := w.suspended[c := s])) ==
      PeersIn(v6, w).(stored := PeersIn(v6, w).stored[c := Stored(s.instance, s.publicKey, FaceOf(v6, s.section))])
  {
    hide FaceOf, Parses, Parsed, Faces;
  }

  /** The peers in each state a change passes through. */
  lemma PeersStored(v6: string -> bool, w: World, m: Mutation)
    requires Possible(w, m) && m.action.Disable?
    ensures var p, found := PeersIn(v6, w), FindPeer(Sections(w, m.instance), m.publicKey).value;
      && m.instance in p.active && found < |p.active[m.instance]|
      && PeersIn(v6, WithStored(w, m)) ==
        p.(stored := p.stored[m.connection := Stored(m.instance, m.publicKey, p.active[m.instance][found])])
  {
    hide FaceOf, Parses, FindPeer, Parsed;
    PeersSuspended(v6, w, m.connection, PutAside(w, m));
    FoundFace(v6, w, m);
  }

  lemma PeersDropped(v6: string -> bool, w: World, c: string)
    ensures PeersIn(v6, WithoutStored(w, c)) == PeersIn(v6, w).(stored := PeersIn(v6, w).stored - {c})
  {
    hide FaceOf, Parses, Parsed;
  }

  lemma PeersText(v6: string -> bool, w: World, m: Mutation, text: string)
    requires Parses(text)
    ensures PeersIn(v6, WithText(w, m, text)) ==
      PeersIn(v6, w).(active := PeersIn(v6, w).active[m.instance := Faces(v6, Parsed(text).sections)])
  {
    hide FaceOf, Parses, Parsed, Faces;
  }

  // Nothing is lost -----------------------------------------------------------------------------------------

  /** Everything a revoke may take: the keys of the section it removes, and of the entry it drops. */
  ghost predicate TakenBy(w: World, m: Mutation, i: string, k: string) {
    && m.action.Revoke?
    && (|| (i == m.instance && i in w.configs && Parses(w.configs[i]) && exists s ::
      s in Sections(w, i) && HasKey(s, m.publicKey) && HasKey(s, k))
        || (m.connection in w.suspended && w.suspended[m.connection].instance == i
          && HasKey(w.suspended[m.connection].section, k)))
  }

  ghost function Gone(w: World, m: Mutation): iset<(string, string)> {
    iset i: string, k: string | TakenBy(w, m, i, k) :: (i, k)
  }

  /** A disable may only overwrite the entry of the peer it is about. */
  ghost predicate OverwritesItself(w: World, m: Mutation) {
    m.action.Disable? && m.connection in w.suspended ==>
      && w.suspended[m.connection].instance == m.instance
      && forall k :: HasKey(w.suspended[m.connection].section, k) ==> k == m.publicKey
  }

  /** Where the peer of a mutation is, and the peers after it was taken out. */
  lemma PeersTaken(v6: string -> bool, w: World, base: World, m: Mutation) returns (a: nat)
    requires WorldOk(w) && Possible(w, m) && !m.action.Enable? && FindPeer(Sections(w, m.instance), m.publicKey).Some?
    requires base.configs == w.configs
    ensures var p := PeersIn(v6, base);
      && m.instance in p.active && a < |p.active[m.instance]|
      && FindPeer(Sections(w, m.instance), m.publicKey) == Some(a)
      && m.publicKey in p.active[m.instance][a].keys
      && PeersIn(v6, WithText(base, m, EditedText(w, m))) ==
        p.(active := p.active[m.instance := Drop(p.active[m.instance], a)])
  {
    hide Parses, Parsed, FindPeer, EditedText, FaceOf, Edited, WorldOk;
    a := FindPeer(Sections(w, m.instance), m.publicKey).value;
    FoundFace(v6, w, m);
    EditedParses(w, m);
    EditedFaces(v6, w, m);
    PeersText(v6, base, m, EditedText(w, m));
  }

  /** A revoke that finds no active peer leaves the peers of the configurations as they are. */
  lemma PeersUntouched(v6: string -> bool, w: World, m: Mutation)
    requires WorldOk(w) && Possible(w, m) && !m.action.Enable? && FindPeer(Sections(w, m.instance), m.publicKey).None?
    ensures PeersIn(v6, WithText(w, m, EditedText(w, m))) == PeersIn(v6, w)
  {
    hide Parses, Parsed, FindPeer, EditedText, FaceOf, Edited, WorldOk;
    EditedParses(w, m);
    EditedFaces(v6, w, m);
    PeersText(v6, w, m, EditedText(w, m));
  }

  lemma DisableConserves(v6: string -> bool, w: World, m: Mutation, now: World)
    requires WorldOk(w) && m.action.Disable? && Passes(w, m, now) && OverwritesItself(w, m)
    ensures Conserved(PeersIn(v6, w), PeersIn(v6, now), iset{})
  {
    hide PeersIn, EditedText, Has, WorldOk, OverwritesItself, FindPeer;
    if now != w {
      FoundFace(v6, w, m);
      if now == WithoutStored(w, m.connection) {
        UndoConserves(v6, w, m);
      } else {
        StoreConserves(v6, w, m);
        if now == Final(w, m) {
          TakeConserves(v6, w, m);
          ConservedTransitive(PeersIn(v6, w), PeersIn(v6, WithStored(w, m)), PeersIn(v6, now), iset{}, iset{});
        }
      }
    }
  }

  lemma StoreConserves(v6: string -> bool, w: World, m: Mutation)
    requires WorldOk(w) && Possible(w, m) && m.action.Disable? && OverwritesItself(w, m)
    ensures Conserved(PeersIn(v6, w), PeersIn(v6, WithStored(w, m)), iset{})
  {
    hide PeersIn, Parses, Parsed, FindPeer, FaceOf, Has, WorldOk;
    PeersStored(v6, w, m);
    StoredKeys(v6, w, m);
    ConservesStore(PeersIn(v6, w), m.connection, m.instance, m.publicKey,
      FindPeer(Sections(w, m.instance), m.publicKey).value);
  }

  lemma UndoConserves(v6: string -> bool, w: World, m: Mutation)
    requires WorldOk(w) && Possible(w, m) && m.action.Disable? && OverwritesItself(w, m)
    ensures Conserved(PeersIn(v6, w), PeersIn(v6, WithoutStored(w, m.connection)), iset{})
  {
    hide PeersIn, Parses, Parsed, FindPeer, FaceOf, Has, WorldOk;
    StoredKeys(v6, w, m);
    PeersDropped(v6, w, m.connection);
    ConservesDrop(PeersIn(v6, w), m.connection, iset{});
  }

  lemma TakeConserves(v6: string -> bool, w: World, m: Mutation)
    requires WorldOk(w) && Possible(w, m) && m.action.Disable?
    ensures Conserved(PeersIn(v6, WithStored(w, m)), PeersIn(v6, Final(w, m)), iset{})
  {
    hide PeersIn, Parses, Parsed, FindPeer, FaceOf, Has, EditedText, WorldOk;
    PeersStored(v6, w, m);
    var q := PeersIn(v6, WithStored(w, m));
    var a := PeersTaken(v6, w, WithStored(w, m), m);
    assert q.stored[m.connection].instance == m.instance && q.stored[m.connection].face == q.active[m.instance][a];
    ConservesTake(q, m.instance, a, iset{});
  }

  lemma StoredKeys(v6: string -> bool, w: World, m: Mutation)
    requires Possible(w, m) && m.action.Disable? && OverwritesItself(w, m)
    ensures var p, found := PeersIn(v6, w), FindPeer(Sections(w, m.instance), m.publicKey).value;
      m.instance in p.active && found < |p.active[m.instance]| &&
      (m.connection in p.stored ==>
        p.stored[m.connection].instance == m.instance
          && p.stored[m.connection].face.keys <= p.active[m.instance][found].keys)
  {
    hide HasKey, SectionEntries, FindPeer, Parses;
    FoundFace(v6, w, m);
  }

  /** The peers after a stored one was put back. */
  lemma PeersPut(v6: string -> bool, w: World, m: Mutation)
    requires WorldOk(w) && Possible(w, m) && m.action.Enable?
    ensures var p, c := PeersIn(v6, w), m.connection;
      && m.instance in p.active && c in p.stored && p.stored[c].instance == m.instance && p.stored[c].key == m.publicKey
      && PeersIn(v6, WithText(w, m, EditedText(w, m))) ==
         p.(active := p.active[m.instance := p.active[m.instance] + [p.stored[c].face]])
  {
    hide Parses, Parsed, FindPeer, EditedText, FaceOf, Restorable, WorldOk;
    EditedParses(w, m);
    EditedFaces(v6, w, m);
    PeersText(v6, w, m, EditedText(w, m));
  }

  lemma EnableConserves(v6: string -> bool, w: World, m: Mutation, now: World)
    requires WorldOk(w) && m.action.Enable? && Passes(w, m, now)
    ensures Conserved(PeersIn(v6, w), PeersIn(v6, now), iset{})
  {
    hide PeersIn, Edited, EditedText, Has, WorldOk;
    if now != w {
      var p, c, mid := PeersIn(v6, w), m.connection, WithText(w, m, EditedText(w, m));
      var q := PeersIn(v6, mid);
      PeersPut(v6, w, m);
      ConservesPut(p, m.instance, p.stored[c].face);
      if now == Final(w, m) {
        PeersDropped(v6, mid, c);
        assert q.active[m.instance][|p.active[m.instance]|] == q.stored[c].face;
        ConservesDrop(q, c, iset{});
        ConservedTransitive(p, q, PeersIn(v6, now), iset{}, iset{});
      }
    }
  }

  lemma RevokeGone(v6: string -> bool, w: World, m: Mutation)
    requires Possible(w, m) && m.action.Revoke?
    ensures var p, found := PeersIn(v6, w), FindPeer(Sections(w, m.instance), m.publicKey);
      && m.instance in p.active
      && (found.Some? ==> found.value < |p.active[m.instance]|)
      && (found.Some? ==> forall k :: k in p.active[m.instance][found.value].keys ==> (m.instance, k) in Gone(w, m))
    ensures m.connection in w.suspended ==>
      forall k :: k in FaceOf(v6, w.suspended[m.connection].section).keys ==>
        (w.suspended[m.connection].instance, k) in Gone(w, m)
  {
    hide HasKey, SectionEntries, FindPeer, Parses;
    FoundFace(v6, w, m);
    var sections, found := Sections(w, m.instance), FindPeer(Sections(w, m.instance), m.publicKey);
    if found.Some? {
      var s := sections[found.value];
      assert s in sections && HasKey(s, m.publicKey);
    }
  }

  lemma RevokeConserves(v6: string -> bool, w: World, m: Mutation, now: World)
    requires WorldOk(w) && m.action.Revoke? && Passes(w, m, now)
    ensures Conserved(PeersIn(v6, w), PeersIn(v6, now), Gone(w, m))
  {
    hide PeersIn, Parses, Parsed, FindPeer, EditedText, FaceOf, Has, Gone, WorldOk;
    var p, gone := PeersIn(v6, w), Gone(w, m);
    if now != w {
      var mid := WithText(w, m, EditedText(w, m));
      var q := PeersIn(v6, mid);
      RevokeGone(v6, w, m);
      if FindPeer(Sections(w, m.instance), m.publicKey).Some? {
        var a := PeersTaken(v6, w, w, m);
        ConservesTake(p, m.instance, a, gone);
      } else {
        PeersUntouched(v6, w, m);
      }
      if now == Final(w, m) {
        PeersDropped(v6, mid, m.connection);
        StoredGone(v6, mid, m, gone);
        ConservesDrop(q, m.connection, gone);
        ConservedTransitive(p, q, PeersIn(v6, now), gone, gone);
        assert gone + gone == gone;
      }
    }
  }

  lemma StoredGone(v6: string -> bool, w: World, m: Mutation, gone: iset<(string, string)>)
    requires m.connection in w.suspended ==>
      forall k :: k in FaceOf(v6, w.suspended[m.connection].section).keys ==>
        (w.suspended[m.connection].instance, k) in gone
    ensures var p := PeersIn(v6, w);
      m.connection in p.stored ==> forall k :: k in p.stored[m.connection].face.keys ==>
        (p.stored[m.connection].instance, k) in gone
  {
    hide Parses, Parsed, FaceOf;
  }

  /**
   * Wherever a change is cut off, every peer is still in a configuration or put aside; only a revoke takes one, and
   * then only what it is about.
   */
  lemma MutationConserves(v6: string -> bool, w: World, m: Mutation, now: World)
    requires WorldOk(w) && Passes(w, m, now) && OverwritesItself(w, m)
    ensures Conserved(PeersIn(v6, w), PeersIn(v6, now), Gone(w, m))
  {
    hide PeersIn, Possible, Gone, Has;
    if now != w {
      match m.action {
        case Disable => DisableConserves(v6, w, m, now);
        case Enable => EnableConserves(v6, w, m, now);
        case Revoke => RevokeConserves(v6, w, m, now);
        case _ => NotPossible(w, m);
      }
    }
  }

  lemma NotPossible(w: World, m: Mutation)
    ensures Possible(w, m) ==> m.action.Disable? || m.action.Enable? || m.action.Revoke?
  {
  }

  // Peers stay apart ------------------------------------------------------------------------------------------

  lemma DisableKeeps(v6: string -> bool, w: World, m: Mutation, now: World)
    requires WorldOk(w) && m.action.Disable? && Passes(w, m, now)
    requires Kept(PeersIn(v6, w)) && Paired(PeersIn(v6, w), m.connection, m.instance, m.publicKey)
    ensures Kept(PeersIn(v6, now))
  {
    hide Parses, Parsed, FindPeer, EditedText, FaceOf, Kept, Paired;
    if now != w {
      var found := FindPeer(Sections(w, m.instance), m.publicKey).value;
      FoundFace(v6, w, m);
      PeersStored(v6, w, m);
      KeptStore(PeersIn(v6, w), m.connection, m.instance, m.publicKey, found);
      if now == Final(w, m) {
        EditedParses(w, m);
        EditedFaces(v6, w, m);
        PeersText(v6, WithStored(w, m), m, EditedText(w, m));
        KeptTake(PeersIn(v6, WithStored(w, m)), m.instance, found);
      } else if now == WithoutStored(w, m.connection) {
        PeersDropped(v6, w, m.connection);
        KeptDropStored(PeersIn(v6, w), m.connection);
      }
    }
  }

  lemma {:induction false} FirstKeyIs(s: Section, i: nat)
    requires SectionName(s.header) == PEER && i <= |s.lines| && FirstKey(s.lines[i..]).Some?
    ensures HasKey(s, FirstKey(s.lines[i..]).value)
    decreases |s.lines| - i
  {
    hide SectionName, Property, EqualFold;
    var lines := s.lines[i..];
    if KeyLine(s.lines[i], FirstKey(lines).value) {
      assert HasKey(s, FirstKey(lines).value);
    } else {
      assert lines[0] == s.lines[i] && lines[1..] == s.lines[i + 1..];
      FirstKeyIs(s, i + 1);
    }
  }

  /** A stored peer of one key is restored under this key, so it can be restored only when the key is not active. */
  lemma RestoredUnderKey(v6: string -> bool, w: World, m: Mutation)
    requires WorldOk(w) && Possible(w, m) && m.action.Enable? && Kept(PeersIn(v6, w))
    ensures forall i :: 0 <= i < |Sections(w, m.instance)| ==>
      m.publicKey !in FaceOf(v6, Sections(w, m.instance)[i]).keys
  {
    hide HasKey, Parses, Parsed, FindPeer, SectionEntries, FirstKey, SoundSection;
    var s, sections := w.suspended[m.connection], Sections(w, m.instance);
    PeerSection(s);
    assert s.section.lines[0..] == s.section.lines;
    FirstKeyIs(s.section, 0);
    StoredUnderKey(v6, w, m.connection);
    FindPeerIs(sections, FirstKey(s.section.lines).value);
  }

  lemma StoredUnderKey(v6: string -> bool, w: World, c: string)
    requires Kept(PeersIn(v6, w)) && c in w.suspended
    ensures forall k :: HasKey(w.suspended[c].section, k) ==> k == w.suspended[c].publicKey
  {
    hide HasKey, Parses, Parsed, SectionEntries, KeptList;
    var p := PeersIn(v6, w);
    assert c in p.stored;
    forall k | HasKey(w.suspended[c].section, k) ensures k == w.suspended[c].publicKey {
      assert k in p.stored[c].face.keys;
    }
  }

  /** A section with a key has a first key to be restored under. */
  lemma {:induction false} FirstKeySome(lines: seq<string>, i: nat, key: string)
    requires i < |lines| && KeyLine(lines[i], key)
    ensures FirstKey(lines).Some?
  {
    hide Property, EqualFold;
    if i > 0 { FirstKeySome(lines[1..], i - 1, key); }
  }

  lemma PeerSection(s: SuspendedPeer)
    requires StoredOk(s)
    ensures SectionName(s.section.header) == PEER
  {
  }

  lemma EnableKeeps(v6: string -> bool, w: World, m: Mutation, now: World)
    requires WorldOk(w) && m.action.Enable? && Passes(w, m, now) && Kept(PeersIn(v6, w))
    ensures Kept(PeersIn(v6, now))
  {
    hide PeersIn, EditedText, FaceOf, Kept, Edited, WorldOk, Parses, Parsed;
    if now != w {
      var mid := WithText(w, m, EditedText(w, m));
      PeersPut(v6, w, m);
      RestoredUnderKey(v6, w, m);
      ActiveFaces(v6, w, m.instance);
      KeptPut(PeersIn(v6, w), m.connection);
      PeersDropped(v6, mid, m.connection);
      KeptDropStored(PeersIn(v6, mid), m.connection);
    }
  }

  lemma ActiveFaces(v6: string -> bool, w: World, i: string)
    requires i in w.configs && Parses(w.configs[i])
    ensures i in PeersIn(v6, w).active && PeersIn(v6, w).active[i] == Faces(v6, Sections(w, i))
  {
    hide Parses, Parsed, FaceOf;
  }

  lemma RevokeKeeps(v6: string -> bool, w: World, m: Mutation, now: World)
    requires WorldOk(w) && m.action.Revoke? && Passes(w, m, now) && Kept(PeersIn(v6, w))
    ensures Kept(PeersIn(v6, now))
  {
    hide PeersIn, Parses, Parsed, FindPeer, EditedText, FaceOf, Kept, WorldOk;
    if now != w {
      var mid := WithText(w, m, EditedText(w, m));
      if FindPeer(Sections(w, m.instance), m.publicKey).Some? {
        var a := PeersTaken(v6, w, w, m);
        KeptTake(PeersIn(v6, w), m.instance, a);
      } else {
        PeersUntouched(v6, w, m);
      }
      PeersDropped(v6, mid, m.connection);
      KeptDropStored(PeersIn(v6, mid), m.connection);
    }
  }

  /** Wherever a change is cut off, the peers of every instance still differ in key and address. */
  lemma MutationKeeps(v6: string -> bool, w: World, m: Mutation, now: World)
    requires WorldOk(w) && Passes(w, m, now)
    requires Kept(PeersIn(v6, w)) && Paired(PeersIn(v6, w), m.connection, m.instance, m.publicKey)
    ensures Kept(PeersIn(v6, now)) && WorldOk(now)
  {
    hide PeersIn, Possible, Kept, Paired;
    MutationOk(w, m, now);
    if now != w {
      match m.action {
        case Disable => DisableKeeps(v6, w, m, now);
        case Enable => EnableKeeps(v6, w, m, now);
        case Revoke => RevokeKeeps(v6, w, m, now);
        case _ => NotPossible(w, m);
      }
    }
  }

  lemma MutationOk(w: World, m: Mutation, now: World)
    requires WorldOk(w) && Passes(w, m, now)
    ensures WorldOk(now)
  {
    hide StoredOk, EditedText, Edited, PutAside;
    if Possible(w, m) { EditedParses(w, m); }
  }

  /** A disable overwrites only its own entry when ids and keys are paired and every entry has one key. */
  lemma PairedOverwritesItself(v6: string -> bool, w: World, m: Mutation)
    requires Kept(PeersIn(v6, w)) && Paired(PeersIn(v6, w), m.connection, m.instance, m.publicKey)
    ensures OverwritesItself(w, m)
  {
    hide HasKey, Parses, Parsed, SectionEntries, Kept;
    if m.connection in w.suspended {
      assert m.connection in PeersIn(v6, w).stored;
      StoredUnderKey(v6, w, m.connection);
    }
  }
}
