/**
 * The peers a helper looks after, seen only through their keys and the addresses routed to them: those in the
 * configurations and those put aside while they are suspended.
 */
module HelperPeers {
  import opened Text
  import opened ConfigLines
  import opened ConfigDocument
  import opened AddressPool

  /** What matters of a section: the keys it names and the addresses routed to it. */
  datatype Face = Face(keys: iset<string>, routes: iset<uint64>)

  ghost function FaceOf(v6: string -> bool, s: Section): Face {
    Face(iset k: string | HasKey(s, k), iset n: uint64 | Routed(v6, SectionEntries(s), n))
  }

  ghost function Faces(v6: string -> bool, sections: seq<Section>): (faces: seq<Face>)
    ensures |faces| == |sections| && forall i :: 0 <= i < |sections| ==> faces[i] == FaceOf(v6, sections[i])
  {
    seq(|sections|, i requires 0 <= i < |sections| => FaceOf(v6, sections[i]))
  }

  lemma FaceAlike(v6: string -> bool, a: Section, b: Section)
    requires AlikeSection(a, b)
    ensures FaceOf(v6, a) == FaceOf(v6, b)
  {
    hide AlikeSection, HasKey, SectionEntries;
    PeerOfAlike(a, b);
    SectionEntriesAlike(a, b);
  }

  lemma FacesAlike(v6: string -> bool, a: seq<Section>, b: seq<Section>)
    requires Alike(a, b)
    ensures Faces(v6, a) == Faces(v6, b)
  {
    hide AlikeSection, FaceOf;
    forall i | 0 <= i < |a| ensures FaceOf(v6, a[i]) == FaceOf(v6, b[i]) {
      FaceAlike(v6, a[i], b[i]);
    }
  }

  lemma FacesSpaced(v6: string -> bool, sections: seq<Section>)
    ensures Faces(v6, Spaced(sections)) == Faces(v6, sections)
  {
    hide HasKey, SectionEntries, Clip;
    if sections != [] {
      var k := |sections| - 1;
      var blank := Section(sections[k].header, sections[k].lines + [[]]);
      BlankEntries(sections[k]);
      forall key ensures HasKey(blank, key) <==> HasKey(sections[k], key) {
        HasKeyBlank(sections[k], key);
      }
      assert FaceOf(v6, blank) == FaceOf(v6, sections[k]);
    }
  }

  lemma NewPeerFace(v6: string -> bool, key: string, n: uint64, name: string)
    requires n < SPACE_END
    ensures FaceOf(v6, NewPeer(key, AddressText(n), name)) == Face(iset{Clip(key)}, iset{n})
  {
    hide HasKey, SectionEntries, NewPeer, AddressText, ParsePrefix, RangeOf, Clip;
    NewPeerEntries(key, n, name);
    ClipAddress(n);
    AddressTextRoundTrip(v6, n);
    HostRange(n);
    var e, s := Entry(false, AddressText(n)), NewPeer(key, AddressText(n), name);
    forall k ensures HasKey(s, k) <==> k == Clip(key) { NewPeerKey(key, AddressText(n), name, k); }
    assert e in SectionEntries(s);
    assert forall m :: RoutedBy(v6, e, m) <==> m == n;
  }

  // A pool that is read from sections occupies exactly what is routed to them --------------------------

  lemma {:induction false} EntriesRouted(v6: string -> bool, sections: seq<Section>, n: uint64)
    ensures Routed(v6, Entries(sections), n) <==> exists i :: 0 <= i < |sections| && n in FaceOf(v6, sections[i]).routes
  {
    hide SectionEntries, RoutedBy, HasKey;
    if sections != [] {
      EntriesRouted(v6, sections[1..], n);
      var first, rest := SectionEntries(sections[0]), Entries(sections[1..]);
      assert forall e :: e in first + rest <==> e in first || e in rest;
      assert Routed(v6, Entries(sections), n) <==> Routed(v6, first, n) || Routed(v6, rest, n);
      if exists i :: 0 <= i < |sections| && n in FaceOf(v6, sections[i]).routes {
        var i :| 0 <= i < |sections| && n in FaceOf(v6, sections[i]).routes;
        if i > 0 { assert sections[1..][i - 1] == sections[i]; }
      }
      if exists i :: 0 <= i < |sections[1..]| && n in FaceOf(v6, sections[1..][i]).routes {
        var i :| 0 <= i < |sections[1..]| && n in FaceOf(v6, sections[1..][i]).routes;
        assert sections[i + 1] == sections[1..][i];
      }
      assert n in FaceOf(v6, sections[0]).routes <==> Routed(v6, first, n);
    }
  }

  /** A usable host is routed to no section of the document. */
  lemma UsableIsUnrouted(v6: string -> bool, sections: seq<Section>, n: uint64)
    requires Usable(v6, sections, n)
    ensures forall i :: 0 <= i < |sections| ==> n !in FaceOf(v6, sections[i]).routes
  {
    hide Entries, FaceOf, Routed;
    EntriesRouted(v6, sections, n);
  }

  // The peers of all instances -------------------------------------------------------------------------

  /** A peer put aside, for the instance it belongs to and under the key it is asked for. */
  datatype Stored = Stored(instance: string, key: string, face: Face)

  datatype Peers = Peers(active: map<string, seq<Face>>, stored: map<string, Stored>)

  ghost predicate Apart(a: Face, b: Face) {
    a.keys !! b.keys && a.routes !! b.routes
  }

  ghost predicate OneKey(f: Face) {
    forall a, b :: a in f.keys && b in f.keys ==> a == b
  }

  ghost predicate KeptList(faces: seq<Face>) {
    && (forall i :: 0 <= i < |faces| ==> OneKey(faces[i]))
    && (forall i, j :: 0 <= i < j < |faces| ==> Apart(faces[i], faces[j]))
  }

  /**
   * Peers of one instance never share a key or an address; a peer may be both active and stored while a call was
   * interrupted.
   */
  ghost predicate Kept(p: Peers) {
    && (forall i :: i in p.active ==> KeptList(p.active[i]))
    && (forall c :: c in p.stored ==> p.stored[c].face.keys == iset{p.stored[c].key})
    && (forall c, a ::
      c in p.stored && p.stored[c].instance in p.active && 0 <= a < |p.active[p.stored[c].instance]| ==>
        Matches(p.active[p.stored[c].instance][a], p.stored[c]))
    && (forall c, d :: c in p.stored && d in p.stored && c != d && p.stored[c].instance == p.stored[d].instance ==>
        Apart(p.stored[c].face, p.stored[d].face))
  }

  ghost predicate Matches(f: Face, s: Stored) {
    f == s.face || Apart(f, s.face)
  }

  /** The instance has this peer, active or stored. */
  ghost predicate Has(p: Peers, instance: string, key: string) {
    || (instance in p.active && exists a :: 0 <= a < |p.active[instance]| && key in p.active[instance][a].keys)
    || (exists c :: c in p.stored && p.stored[c].instance == instance && key in p.stored[c].face.keys)
  }

  function Drop<T>(s: seq<T>, i: nat): seq<T>
    requires i < |s|
  {
    s[..i] + s[i + 1..]
  }

  /** Connection ids and keys correspond one to one: this id, and no other, stands for this key of this instance. */
  ghost predicate Paired(p: Peers, connection: string, instance: string, key: string) {
    forall c :: c in p.stored ==> (c == connection <==> p.stored[c].instance == instance && p.stored[c].key == key)
  }

  lemma KeptStore(p: Peers, c: string, i: string, k: string, a: nat)
    requires Kept(p) && i in p.active && a < |p.active[i]| && k in p.active[i][a].keys && Paired(p, c, i, k)
    ensures Kept(p.(stored := p.stored[c := Stored(i, k, p.active[i][a])]))
  {
    var f, next := p.active[i][a], p.(stored := p.stored[c := Stored(i, k, p.active[i][a])]);
    assert OneKey(f);
    assert f.keys == iset{k};
    forall b | 0 <= b < |p.active[i]| ensures Matches(p.active[i][b], Stored(i, k, f)) {
      assert b < a ==> Apart(p.active[i][b], p.active[i][a]);
      assert a < b ==> Apart(p.active[i][a], p.active[i][b]);
    }
    forall d | d in p.stored && d != c && p.stored[d].instance == i ensures Apart(f, p.stored[d].face) {
      assert Matches(p.active[i][a], p.stored[d]);
      assert p.stored[d].key in p.stored[d].face.keys;
    }
  }

  lemma KeptTake(p: Peers, i: string, a: nat)
    requires Kept(p) && i in p.active && a < |p.active[i]|
    ensures Kept(p.(active := p.active[i := Drop(p.active[i], a)]))
  {
    var faces := p.active[i];
    var less, next := Drop(faces, a), p.(active := p.active[i := Drop(faces, a)]);
    assert forall b :: 0 <= b < |less| ==> less[b] == faces[if b < a then b else b + 1];
    forall c, b | c in next.stored && next.stored[c].instance in next.active
      && 0 <= b < |next.active[next.stored[c].instance]|
      ensures Matches(next.active[next.stored[c].instance][b], next.stored[c])
    {
      var j := next.stored[c].instance;
      if j == i { assert Matches(faces[if b < a then b else b + 1], p.stored[c]); }
    }
  }

  lemma KeptAdd(p: Peers, i: string, f: Face)
    requires Kept(p) && i in p.active && OneKey(f)
    requires forall a :: 0 <= a < |p.active[i]| ==> Apart(p.active[i][a], f)
    requires forall c :: c in p.stored && p.stored[c].instance == i ==> Matches(f, p.stored[c])
    ensures Kept(p.(active := p.active[i := p.active[i] + [f]]))
  {
    var more, next := p.active[i] + [f], p.(active := p.active[i := p.active[i] + [f]]);
    forall c, b | c in next.stored && next.stored[c].instance in next.active
      && 0 <= b < |next.active[next.stored[c].instance]|
      ensures Matches(next.active[next.stored[c].instance][b], next.stored[c])
    {
      if next.stored[c].instance == i && b < |p.active[i]| { assert Matches(p.active[i][b], p.stored[c]); }
    }
  }

  /** A stored peer whose key is not active can be put back. */
  lemma KeptPut(p: Peers, c: string)
    requires Kept(p) && c in p.stored && p.stored[c].instance in p.active
    requires forall a :: 0 <= a < |p.active[p.stored[c].instance]| ==>
      p.stored[c].key !in p.active[p.stored[c].instance][a].keys
    ensures var i := p.stored[c].instance; Kept(p.(active := p.active[i := p.active[i] + [p.stored[c].face]]))
  {
    var i, f := p.stored[c].instance, p.stored[c].face;
    assert p.stored[c].key in f.keys;
    forall a | 0 <= a < |p.active[i]| ensures Apart(p.active[i][a], f) {
      assert Matches(p.active[i][a], p.stored[c]);
    }
    KeptAdd(p, i, f);
  }

  lemma KeptDropStored(p: Peers, c: string)
    requires Kept(p)
    ensures Kept(p.(stored := p.stored - {c}))
  {
  }

  // What a change keeps ----------------------------------------------------------------------------------

  /** Nothing is lost but, at most, what is linked to this peer of this instance. */
  ghost predicate Conserved(before: Peers, after: Peers, gone: iset<(string, string)>) {
    forall i, k :: Has(before, i, k) && (i, k) !in gone ==> Has(after, i, k)
  }

  /** Putting a peer aside loses nothing, unless it overwrites another peer's entry. */
  lemma ConservesStore(p: Peers, c: string, i: string, k: string, a: nat)
    requires i in p.active && a < |p.active[i]|
    requires c in p.stored ==> p.stored[c].instance == i && p.stored[c].face.keys <= p.active[i][a].keys
    ensures Conserved(p, p.(stored := p.stored[c := Stored(i, k, p.active[i][a])]), iset{})
  {
    var next := p.(stored := p.stored[c := Stored(i, k, p.active[i][a])]);
    forall j, x | Has(p, j, x) ensures Has(next, j, x) {
      if !(j in p.active && exists b :: 0 <= b < |p.active[j]| && x in p.active[j][b].keys) {
        var d :| d in p.stored && p.stored[d].instance == j && x in p.stored[d].face.keys;
        assert d in next.stored && next.stored[d].instance == j && x in next.stored[d].face.keys;
      }
    }
  }

  /** Taking a peer out loses nothing when it has been put aside. */
  lemma ConservesTake(p: Peers, i: string, a: nat, gone: iset<(string, string)>)
    requires i in p.active && a < |p.active[i]|
    requires forall k :: k in p.active[i][a].keys && (i, k) !in gone ==>
      exists c :: c in p.stored && p.stored[c].instance == i && k in p.stored[c].face.keys
    ensures Conserved(p, p.(active := p.active[i := Drop(p.active[i], a)]), gone)
  {
    var next := p.(active := p.active[i := Drop(p.active[i], a)]);
    forall j, x | Has(p, j, x) && (j, x) !in gone ensures Has(next, j, x) {
      if j in p.active && exists b :: 0 <= b < |p.active[j]| && x in p.active[j][b].keys {
        var b :| 0 <= b < |p.active[j]| && x in p.active[j][b].keys;
        if j == i && b != a {
          var less := Drop(p.active[i], a);
          assert less[if b < a then b else b - 1] == p.active[i][b];
          assert x in next.active[j][if b < a then b else b - 1].keys;
        } else if j != i {
          assert x in next.active[j][b].keys;
        }
      }
    }
  }

  lemma ConservesPut(p: Peers, i: string, f: Face)
    requires i in p.active
    ensures Conserved(p, p.(active := p.active[i := p.active[i] + [f]]), iset{})
    ensures forall k :: k in f.keys ==> Has(p.(active := p.active[i := p.active[i] + [f]]), i, k)
  {
    var next := p.(active := p.active[i := p.active[i] + [f]]);
    assert next.active[i][|p.active[i]|] == f;
    forall j, x | Has(p, j, x) ensures Has(next, j, x) {
      if j in p.active && exists b :: 0 <= b < |p.active[j]| && x in p.active[j][b].keys {
        var b :| 0 <= b < |p.active[j]| && x in p.active[j][b].keys;
        assert x in next.active[j][b].keys;
      }
    }
  }

  /** Dropping an entry loses nothing when its keys are active. */
  lemma ConservesDrop(p: Peers, c: string, gone: iset<(string, string)>)
    requires c in p.stored ==> forall k :: k in p.stored[c].face.keys && (p.stored[c].instance, k) !in gone ==>
      p.stored[c].instance in p.active && exists a ::
        0 <= a < |p.active[p.stored[c].instance]| && k in p.active[p.stored[c].instance][a].keys
    ensures Conserved(p, p.(stored := p.stored - {c}), gone)
  {
    var next := p.(stored := p.stored - {c});
    forall j, x | Has(p, j, x) && (j, x) !in gone ensures Has(next, j, x) {
      if !(j in p.active && exists b :: 0 <= b < |p.active[j]| && x in p.active[j][b].keys) {
        var d :| d in p.stored && p.stored[d].instance == j && x in p.stored[d].face.keys;
        assert d in next.stored;
      }
    }
  }

  lemma ConservedTransitive(p: Peers, q: Peers, r: Peers, gone: iset<(string, string)>, more: iset<(string, string)>)
    requires Conserved(p, q, gone) && Conserved(q, r, more)
    ensures Conserved(p, r, gone + more)
  {
    hide Has;
  }
}
