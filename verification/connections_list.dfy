/** ConnectionsListView: scanning a peer's code, confirming, pairing; and
    ConnectionRow, which shows one peer's name and dogs. */
module ConnectionsList {
  import opened Common
  import opened Store
  import opened Records
  import opened Connections
  import Dogs
  import Home

  // ------------------------------------------------------------------
  // The scan / confirm / pair flow
  // ------------------------------------------------------------------

  class ConnectionsScreen {
    const repo: ConnectionsRepository
    var showingScanner: bool
    var scannedUserID: Option<string>
    var showConnectAlert: bool

    constructor (repo: ConnectionsRepository)
      ensures this.repo == repo && !showingScanner && scannedUserID == None && !showConnectAlert
    {
      this.repo := repo;
      showingScanner := false;
      scannedUserID := None;
      showConnectAlert := false;
    }

    /** The camera button, shown only while signed in, opens the scanner. */
    method OpenScanner()
      modifies this
      ensures showingScanner
      ensures scannedUserID == old(scannedUserID) && showConnectAlert == old(showConnectAlert)
    {
      showingScanner := true;
    }

    /** A scanned code becomes the peer to confirm; the scanner closes and
        the confirmation alert opens. */
    method OnScanned(code: string)
      modifies this
      ensures scannedUserID == Some(code) && !showingScanner && showConnectAlert
    {
      scannedUserID := Some(code);
      showingScanner := false;
      showConnectAlert := true;
    }

    /** "Cancel" closes the alert and does nothing else. */
    method Cancel()
      modifies this
      ensures !showConnectAlert
      ensures showingScanner == old(showingScanner) && scannedUserID == old(scannedUserID)
    {
      showConnectAlert := false;
    }

    /** "Yes" (the alert only offers it while a scanned id is presented):
        pairs the signed-in user with the scanned id, then reloads the list.
        When both calls go through, the scanned peer is in the reloaded list. */
    method ConfirmYes(currentUser: Option<string>, writeReachable: bool, readReachable: bool)
      requires scannedUserID.Some?
      requires currentUser.Some? ==> PlainDocId(scannedUserID.value)
      modifies this, repo, repo.db
      ensures !showConnectAlert && scannedUserID == old(scannedUserID) && showingScanner == old(showingScanner)
      ensures currentUser.Some? && writeReachable ==>
                repo.db.docs == AfterPairing(old(repo.db.docs), currentUser.value, old(scannedUserID).value, old(repo.db.clock))
      ensures currentUser.None? || !writeReachable ==> repo.db.docs == old(repo.db.docs)
      ensures currentUser.Some? && readReachable ==> IsConnectionListing(repo.db.docs, currentUser.value, repo.connections)
      ensures currentUser.None? || !readReachable ==> repo.connections == old(repo.connections)
      ensures currentUser.Some? && writeReachable && readReachable ==>
                old(scannedUserID).value in ConnectionIds(repo.connections)
    {
      showConnectAlert := false;
      var other := scannedUserID.value;
      ghost var before, clock := repo.db.docs, repo.db.clock;
      repo.AddMutualConnection(currentUser, other, writeReachable);
      repo.LoadConnections(currentUser, readReachable);
      if currentUser.Some? && writeReachable && readReachable {
        PairingConnectsBothWays(before, currentUser.value, other, clock);
      }
    }
  }

  // ------------------------------------------------------------------
  // ConnectionRow
  // ------------------------------------------------------------------

  /** `displayName as? String ?? ""` of a fetched profile (no document reads
      as an empty one). */
  function DisplayNameOf(profile: Option<Fields>): (r: string)
    ensures profile.Some? && StringField(profile.value, "displayName").Some? ==>
              r == StringField(profile.value, "displayName").value
    ensures profile.None? || StringField(profile.value, "displayName").None? ==> r == ""
  {
    if profile.None? then "" else StringField(profile.value, "displayName").GetOr("")
  }

  function DogNameDecoder(): Doc -> Option<string> {
    (d: Doc) => StringField(d.fields, "name")
  }

  /** `names` is what the row reads from `users/{uid}/dogs`: the string
      `name` of each document of the subcollection's query result, in that
      result's order (by document key), skipping documents without one. */
  ghost predicate IsDogNameListing(docs: Docs, uid: string, names: seq<string>) {
    exists snapshot ::
      && IsQueryResult(docs, DogsCollection(uid), None, ByKey, snapshot)
      && names == FilterMap(snapshot, DogNameDecoder())
  }

  /** The row lists the string `name` of every document of the
      subcollection that has one, and nothing else. */
  lemma DogNamesOfSnapshot(docs: Docs, uid: string, snapshot: seq<Doc>)
    requires IsQueryResult(docs, DogsCollection(uid), None, ByKey, snapshot)
    ensures var names := FilterMap(snapshot, DogNameDecoder());
            forall n :: n in names <==>
              exists id :: Child(DogsCollection(uid), id) in docs
                           && StringField(docs[Child(DogsCollection(uid), id)], "name") == Some(n)
  {
    var f := DogNameDecoder();
    var names := FilterMap(snapshot, f);
    forall n ensures n in names <==>
      exists id :: Child(DogsCollection(uid), id) in docs && StringField(docs[Child(DogsCollection(uid), id)], "name") == Some(n)
    {
      if n in names {
        var k :| 0 <= k < |names| && names[k] == n;
        var o := Origin(snapshot, f, k);
        assert snapshot[o] in snapshot;
        var id := snapshot[o].id;
        assert Child(DogsCollection(uid), id) in docs && StringField(docs[Child(DogsCollection(uid), id)], "name") == Some(n);
      }
      if exists id :: Child(DogsCollection(uid), id) in docs && StringField(docs[Child(DogsCollection(uid), id)], "name") == Some(n) {
        var id :| Child(DogsCollection(uid), id) in docs && StringField(docs[Child(DogsCollection(uid), id)], "name") == Some(n);
        assert id in Ids(snapshot);
        var d :| d in snapshot && d.id == id;
        var i :| 0 <= i < |snapshot| && snapshot[i] == d;
        FilterMapKeeps(snapshot, f, i);
      }
    }
  }

  /** A listing names exactly the dogs stored with a `name`. */
  lemma DogNameListingMembers(docs: Docs, uid: string, names: seq<string>)
    requires IsDogNameListing(docs, uid, names)
    ensures forall n :: n in names <==>
              exists id :: Child(DogsCollection(uid), id) in docs
                           && StringField(docs[Child(DogsCollection(uid), id)], "name") == Some(n)
  {
    var snapshot :| IsQueryResult(docs, DogsCollection(uid), None, ByKey, snapshot)
                    && names == FilterMap(snapshot, DogNameDecoder());
    DogNamesOfSnapshot(docs, uid, snapshot);
  }

  /** The stored documents fix the listing completely: order and repeated
      names included. */
  lemma DogNameListingUnique(docs: Docs, uid: string, a: seq<string>, b: seq<string>)
    requires IsDogNameListing(docs, uid, a) && IsDogNameListing(docs, uid, b)
    ensures a == b
  {
    var sa :| IsQueryResult(docs, DogsCollection(uid), None, ByKey, sa) && a == FilterMap(sa, DogNameDecoder());
    var sb :| IsQueryResult(docs, DogsCollection(uid), None, ByKey, sb) && b == FilterMap(sb, DogNameDecoder());
    QueryResultUnique(docs, DogsCollection(uid), None, ByKey, sa, sb);
  }

  /** What the row reads for a peer is unaffected by `setDogs`: the dogs
      saved through the repository live in the profile's `dogs` array, while
      the row reads the subcollection. With an empty subcollection the row
      shows no dogs even though the profile holds exactly the saved ones. */
  lemma RowMissesSavedDogs(docs: Docs, uid: string, ds: seq<DogProfile>, now: int, names: seq<string>)
    requires UserPath(uid) in docs
    requires forall id :: Child(DogsCollection(uid), id) !in docs
    requires var after := ApplyBatch(docs, [UpdateDoc(UserPath(uid), Dogs.SetDogsOps(ds))], now);
             after.Some? && IsDogNameListing(after.value, uid, names)
    ensures names == []
    ensures Dogs.DogsOf(Lookup(ApplyBatch(docs, [UpdateDoc(UserPath(uid), Dogs.SetDogsOps(ds))], now).value, UserPath(uid))) == ds
  {
    var after := ApplyBatch(docs, [UpdateDoc(UserPath(uid), Dogs.SetDogsOps(ds))], now).value;
    Dogs.SetDogsLeavesSubcollection(docs, uid, ds, now);
    Dogs.SetThenLoad(docs, uid, ds, now);
    var snapshot :| IsQueryResult(after, DogsCollection(uid), None, ByKey, snapshot)
                    && names == FilterMap(snapshot, DogNameDecoder());
    assert IsQueryResult(after, DogsCollection(uid), None, ByKey, []);
    QueryResultUnique(after, DogsCollection(uid), None, ByKey, snapshot, []);
  }

  /** The row's heading: the display name, or the peer's id when the name
      is empty. */
  function RowTitle(name: string, friendID: string): (r: string)
    ensures name != "" ==> r == name
    ensures name == "" ==> r == friendID
  {
    if name == "" then friendID else name
  }

  /** The row's second line, present only when the peer has dogs; it lists
      them as the home greeting does. */
  function DogLine(dogs: seq<string>): (r: Option<string>)
    ensures r.Some? <==> dogs != []
    ensures r.Some? ==> r.value == Home.JoinNames(dogs) && r.value[..|dogs[0]|] == dogs[0]
  {
    if dogs == [] then None else Some(Home.JoinNames(dogs))
  }

  class ConnectionRow {
    const friendID: string
    var name: string
    var dogs: seq<string>
    var isLoading: bool

    constructor (friendID: string)
      ensures this.friendID == friendID && name == "" && dogs == [] && isLoading
    {
      this.friendID := friendID;
      name := "";
      dogs := [];
      isLoading := true;
    }

    /** Reads the peer's profile for the name, then the peer's dogs
        subcollection for the dog names. A failed read keeps what the fields
        held and skips the rest; loading ends either way. */
    method FetchProfile(db: Firestore, profileReachable: bool, dogsReachable: bool)
      modifies this
      ensures !isLoading
      ensures profileReachable ==> name == DisplayNameOf(Lookup(db.docs, UserPath(friendID)))
      ensures !profileReachable ==> name == old(name) && dogs == old(dogs)
      ensures profileReachable && dogsReachable ==> IsDogNameListing(db.docs, friendID, dogs)
      ensures profileReachable && !dogsReachable ==> dogs == old(dogs)
    {
      var userDoc := db.GetDocument(UserPath(friendID), profileReachable);
      if userDoc.Ok? {
        name := DisplayNameOf(userDoc.value);
        var dogsSnap := db.Query(DogsCollection(friendID), None, ByKey, dogsReachable);
        if dogsSnap.Ok? {
          dogs := FilterMap(dogsSnap.value, DogNameDecoder());
        }
      }
      isLoading := false;
    }
  }
}
