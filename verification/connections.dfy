/** ConnectionsRepository: the signed-in user's list of peers and the
    two-edge pairing write. An edge `connections/{owner}/peers/{peer}` holds
    `friendID = peer` and a server `createdAt`. */
module Connections {
  import opened Common
  import opened Store
  import opened Records

  // ------------------------------------------------------------------
  // Decoding (loadConnections)
  // ------------------------------------------------------------------

  /** The compactMap closure of `loadConnections`: a string `friendID` and a
      timestamp `createdAt` are required; the key becomes the id. */
  function DecodeConnection(me: string, doc: Doc): Option<Connection> {
    var friendID := StringField(doc.fields, "friendID");
    var createdAt := TimestampField(doc.fields, "createdAt");
    if friendID.Some? && createdAt.Some? then Some(Connection(doc.id, me, friendID.value, createdAt.value))
    else None
  }

  function Decoder(me: string): Doc -> Option<Connection> {
    d => DecodeConnection(me, d)
  }

  function ConnectionsFrom(me: string, snapshot: seq<Doc>): seq<Connection> {
    FilterMap(snapshot, Decoder(me))
  }

  /** The query order: ascending `createdAt`, ties by document key. */
  predicate ConnBefore(a: Connection, b: Connection) {
    a.createdAt < b.createdAt || (a.createdAt == b.createdAt && LexLess(a.id, b.id))
  }

  function ConnectionIds(cs: seq<Connection>): set<string> {
    set c | c in cs :: c.id
  }

  /** `owner` has a stored edge to `peer` that decodes. */
  predicate HasEdge(docs: Docs, owner: string, peer: string) {
    EdgePath(owner, peer) in docs && DecodeConnection(owner, Doc(peer, docs[EdgePath(owner, peer)])).Some?
  }

  /** `cs` is what `loadConnections` shows `me`: exactly the decodable peer
      documents, each decoded with its key as id and `me` as owner, ordered by
      creation time. */
  ghost predicate IsConnectionListing(docs: Docs, me: string, cs: seq<Connection>) {
    && (forall i, j :: 0 <= i < j < |cs| ==> ConnBefore(cs[i], cs[j]))
    && (forall c :: c in cs ==>
          c.userID == me && EdgePath(me, c.id) in docs
          && DecodeConnection(me, Doc(c.id, docs[EdgePath(me, c.id)])) == Some(c))
    && (forall peer :: HasEdge(docs, me, peer) ==> peer in ConnectionIds(cs))
  }

  /** Decoding the peers query gives the listing. */
  lemma ListingOfSnapshot(docs: Docs, me: string, snapshot: seq<Doc>)
    requires IsQueryResult(docs, PeersCollection(me), None, ByTime("createdAt", false), snapshot)
    ensures IsConnectionListing(docs, me, ConnectionsFrom(me, snapshot))
  {
    var order := ByTime("createdAt", false);
    var f := Decoder(me);
    var cs := ConnectionsFrom(me, snapshot);
    forall i, j | 0 <= i < j < |cs| ensures ConnBefore(cs[i], cs[j]) {
      var oi, oj := Origin(snapshot, f, i), Origin(snapshot, f, j);
      OriginMonotone(snapshot, f, i, j);
      assert DocBefore(snapshot[oi], snapshot[oj], order);
    }
    forall c | c in cs
      ensures c.userID == me && EdgePath(me, c.id) in docs
      ensures DecodeConnection(me, Doc(c.id, docs[EdgePath(me, c.id)])) == Some(c)
    {
      var k :| 0 <= k < |cs| && cs[k] == c;
      var o := Origin(snapshot, f, k);
      assert snapshot[o] in snapshot;
      assert snapshot[o] == Doc(c.id, docs[EdgePath(me, c.id)]);
    }
    forall peer | HasEdge(docs, me, peer) ensures peer in ConnectionIds(cs) {
      assert Selected(docs[Child(PeersCollection(me), peer)], None, order);
      assert peer in Ids(snapshot);
      var d :| d in snapshot && d.id == peer;
      var i :| 0 <= i < |snapshot| && snapshot[i] == d;
      FilterMapKeeps(snapshot, f, i);
    }
  }

  // ------------------------------------------------------------------
  // The pairing batch (addMutualConnection)
  // ------------------------------------------------------------------

  function EdgeOps(friend: string): Ops {
    map["friendID" := Put(Str(friend)), "createdAt" := ServerTimestamp]
  }

  /** me → other, then other → me, each keyed by the peer's id. */
  function MutualBatch(me: string, other: string): seq<Write> {
    [SetDoc(EdgePath(me, other), EdgeOps(other)), SetDoc(EdgePath(other, me), EdgeOps(me))]
  }

  /** An edge document as stored by a commit at time `now`. */
  function EdgeDoc(friend: string, now: int): Fields {
    map["friendID" := Str(friend), "createdAt" := Time(now)]
  }

  function AfterPairing(docs: Docs, me: string, other: string, now: int): Docs {
    ApplyBatch(docs, MutualBatch(me, other), now).value
  }

  lemma EdgePathInjective(a: string, b: string, c: string, d: string)
    ensures EdgePath(a, b) == EdgePath(c, d) <==> a == c && b == d
  {
    if EdgePath(a, b) == EdgePath(c, d) {
      assert EdgePath(a, b)[1] == a && EdgePath(c, d)[1] == c;
      assert EdgePath(a, b)[3] == b && EdgePath(c, d)[3] == d;
    }
  }

  /** The batch writes exactly two documents, `connections/me/peers/other`
      with `friendID = other` and `connections/other/peers/me` with
      `friendID = me`, both stamped with the commit's time; nothing else
      changes. */
  lemma PairingWritesTwoEdges(docs: Docs, me: string, other: string, now: int)
    ensures ApplyBatch(docs, MutualBatch(me, other), now).Some?
    ensures AfterPairing(docs, me, other, now).Keys == docs.Keys + {EdgePath(me, other), EdgePath(other, me)}
    ensures AfterPairing(docs, me, other, now)[EdgePath(me, other)] == EdgeDoc(other, now)
    ensures AfterPairing(docs, me, other, now)[EdgePath(other, me)] == EdgeDoc(me, now)
    ensures forall p :: p != EdgePath(me, other) && p != EdgePath(other, me) ==>
              Lookup(AfterPairing(docs, me, other, now), p) == Lookup(docs, p)
  {
    EdgeOpsStore(me, now);
    EdgeOpsStore(other, now);
    TwoSets(docs, EdgePath(me, other), EdgeOps(other), EdgePath(other, me), EdgeOps(me), now);
    var d1 := docs[EdgePath(me, other) := EdgeDoc(other, now)];
    var d2 := d1[EdgePath(other, me) := EdgeDoc(me, now)];
    assert AfterPairing(docs, me, other, now) == d2;
    EdgePathInjective(me, other, other, me);
    if me == other {
      assert d2[EdgePath(me, other)] == EdgeDoc(me, now);
    } else {
      assert d2[EdgePath(me, other)] == d1[EdgePath(me, other)];
    }
  }

  /** An edge write stores the friend's id and the commit's time. */
  lemma EdgeOpsStore(friend: string, now: int)
    ensures ApplyOps(map[], EdgeOps(friend), now) == EdgeDoc(friend, now)
  {
    var r := ApplyOps(map[], EdgeOps(friend), now);
    assert r.Keys == EdgeDoc(friend, now).Keys;
  }

  /** A batch of two whole-document writes stores both, the second last. */
  lemma TwoSets(docs: Docs, p1: Path, ops1: Ops, p2: Path, ops2: Ops, now: int)
    ensures ApplyBatch(docs, [SetDoc(p1, ops1), SetDoc(p2, ops2)], now)
         == Some(docs[p1 := ApplyOps(map[], ops1, now)][p2 := ApplyOps(map[], ops2, now)])
  {
    var b := [SetDoc(p1, ops1), SetDoc(p2, ops2)];
    var d1 := docs[p1 := ApplyOps(map[], ops1, now)];
    var d2 := d1[p2 := ApplyOps(map[], ops2, now)];
    assert b[1..] == [SetDoc(p2, ops2)] && b[1..][1..] == [];
    assert ApplyBatch(d2, [], now) == Some(d2);
    assert ApplyBatch(d1, b[1..], now) == Some(d2);
  }

  /** A stored edge document decodes to the connection it records. */
  lemma EdgeDocDecodes(owner: string, friend: string, now: int)
    ensures DecodeConnection(owner, Doc(friend, EdgeDoc(friend, now))) == Some(Connection(friend, owner, friend, now))
  {
    assert StringField(EdgeDoc(friend, now), "friendID") == Some(friend);
    assert TimestampField(EdgeDoc(friend, now), "createdAt") == Some(now);
  }

  /** After a successful pairing each side has an edge to the other. */
  lemma PairingConnectsBothWays(docs: Docs, me: string, other: string, now: int)
    ensures HasEdge(AfterPairing(docs, me, other, now), me, other)
    ensures HasEdge(AfterPairing(docs, me, other, now), other, me)
  {
    PairingWritesTwoEdges(docs, me, other, now);
    EdgeDocDecodes(me, other, now);
    EdgeDocDecodes(other, me, now);
  }

  /** Whether an edge exists depends only on its own document. */
  lemma HasEdgeFrame(d1: Docs, d2: Docs, owner: string, peer: string)
    requires Lookup(d1, EdgePath(owner, peer)) == Lookup(d2, EdgePath(owner, peer))
    ensures HasEdge(d1, owner, peer) == HasEdge(d2, owner, peer)
  {
  }

  /** Every decodable edge has its reverse. */
  ghost predicate Symmetric(docs: Docs) {
    forall a, b :: HasEdge(docs, a, b) ==> HasEdge(docs, b, a)
  }

  /** Pairing keeps the graph symmetric: in the new state `a` has an edge to
      `b` iff `b` has one to `a`. */
  lemma PairingPreservesSymmetry(docs: Docs, me: string, other: string, now: int)
    requires Symmetric(docs)
    ensures Symmetric(AfterPairing(docs, me, other, now))
  {
    var after := AfterPairing(docs, me, other, now);
    forall a, b | HasEdge(after, a, b) ensures HasEdge(after, b, a) {
      if (a == me && b == other) || (a == other && b == me) {
        PairingConnectsBothWays(docs, me, other, now);
      } else {
        PairingWritesTwoEdges(docs, me, other, now);
        EdgePathInjective(a, b, me, other);
        EdgePathInjective(a, b, other, me);
        EdgePathInjective(b, a, me, other);
        EdgePathInjective(b, a, other, me);
        HasEdgeFrame(after, docs, a, b);
        HasEdgeFrame(after, docs, b, a);
      }
    }
  }

  /** Pairing the same two users again adds no document: only the two edges
      are rewritten, with the new commit's time. */
  lemma PairingIdempotent(docs: Docs, me: string, other: string, t1: int, t2: int)
    ensures var once := AfterPairing(docs, me, other, t1);
            var twice := AfterPairing(once, me, other, t2);
            && twice.Keys == once.Keys
            && (forall p :: p in once && p != EdgePath(me, other) && p != EdgePath(other, me) ==> twice[p] == once[p])
            && Lookup(twice, EdgePath(me, other)) == Some(EdgeDoc(other, t2))
            && Lookup(twice, EdgePath(other, me)) == Some(EdgeDoc(me, t2))
  {
    var once := AfterPairing(docs, me, other, t1);
    var twice := AfterPairing(once, me, other, t2);
    PairingWritesTwoEdges(docs, me, other, t1);
    PairingWritesTwoEdges(once, me, other, t2);
    forall p | p in once && p != EdgePath(me, other) && p != EdgePath(other, me)
      ensures twice[p] == once[p]
    {
      assert Lookup(twice, p) == Lookup(once, p);
    }
  }

  /** Pairing with oneself is not rejected: both writes land on
      `connections/me/peers/me`, leaving a single edge to oneself. */
  lemma SelfPairingLeavesOneEdge(docs: Docs, me: string, now: int)
    ensures AfterPairing(docs, me, me, now).Keys == docs.Keys + {EdgePath(me, me)}
    ensures AfterPairing(docs, me, me, now)[EdgePath(me, me)] == EdgeDoc(me, now)
  {
    PairingWritesTwoEdges(docs, me, me, now);
  }

  // ------------------------------------------------------------------
  // The repository
  // ------------------------------------------------------------------

  class ConnectionsRepository {
    const db: Firestore
    var connections: seq<Connection>

    constructor (db: Firestore)
      ensures this.db == db && connections == []
    {
      this.db := db;
      connections := [];
    }

    /** Without a signed-in user, or when the fetch fails, the list is left
        as it was (not cleared); otherwise it becomes the listing. */
    method LoadConnections(currentUser: Option<string>, reachable: bool)
      modifies this
      ensures currentUser.None? || !reachable ==> connections == old(connections)
      ensures currentUser.Some? && reachable ==> IsConnectionListing(db.docs, currentUser.value, connections)
    {
      if currentUser.None? {
        return;
      }
      var me := currentUser.value;
      var snapshot := db.Query(PeersCollection(me), None, ByTime("createdAt", false), reachable);
      if snapshot.Ok? {
        ListingOfSnapshot(db.docs, me, snapshot.value);
        connections := ConnectionsFrom(me, snapshot.value);
      }
    }

    /** Both edges go into one batch committed once; a failed commit changes
        nothing and its error is swallowed. Without a user nothing is written. */
    method AddMutualConnection(currentUser: Option<string>, otherUID: string, reachable: bool)
      requires currentUser.Some? ==> PlainDocId(otherUID)
      modifies db
      ensures currentUser.None? || !reachable ==> db.docs == old(db.docs)
      ensures currentUser.Some? && reachable ==>
                db.docs == AfterPairing(old(db.docs), currentUser.value, otherUID, old(db.clock))
    {
      if currentUser.None? {
        return;
      }
      var me := currentUser.value;
      PairingWritesTwoEdges(db.docs, me, otherUID, db.clock);
      var _ := db.Commit(MutualBatch(me, otherUID), reachable);
    }
  }
}
