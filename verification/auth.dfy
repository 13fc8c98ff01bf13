/** AuthViewModel: the signed-in user as the app sees it, the profile
    document created on a uid's first sign-in, and the display-name update. */
module Auth {
  import opened Common
  import opened Store
  import opened Records
  import Favorites
  import Dogs

  /** The data of a new profile. A missing email or display name is stored as
      null; `createdAt` is the server's time. */
  function NewProfileOps(u: User): Ops {
    map[
      "isGuest" := Put(Bool(u.isAnonymous)),
      "email" := Put(if u.email.Some? then Str(u.email.value) else Null),
      "displayName" := Put(if u.displayName.Some? then Str(u.displayName.value) else Null),
      "createdAt" := ServerTimestamp,
      "favoriteParkIDs" := Put(Arr([])),
      "dogs" := Put(Arr([]))]
  }

  /** The store after the check-then-create step for `u`, when both the read
      and the write go through: an existing profile is left alone, a missing
      one is created. */
  function Bootstrapped(docs: Docs, u: User, now: int): (r: Docs)
    ensures UserPath(u.uid) in r
    ensures UserPath(u.uid) in docs ==> r == docs
    ensures forall p :: p != UserPath(u.uid) ==> Lookup(r, p) == Lookup(docs, p)
  {
    if UserPath(u.uid) in docs then docs
    else docs[UserPath(u.uid) := ApplyOps(map[], NewProfileOps(u), now)]
  }

  /** Repeated auth events for the same user change nothing after the first. */
  lemma BootstrapIdempotent(docs: Docs, u: User, t1: int, t2: int)
    ensures Bootstrapped(Bootstrapped(docs, u, t1), u, t2) == Bootstrapped(docs, u, t1)
  {
  }

  /** A newly created profile records the user's anonymity, email and name
      (null when absent) and the creation time, and starts with no favourite
      parks and no dogs. */
  lemma NewProfileContents(u: User, now: int)
    ensures var p := ApplyOps(map[], NewProfileOps(u), now);
            && BoolField(p, "isGuest") == Some(u.isAnonymous)
            && Field(p, "email") == Some(if u.email.Some? then Str(u.email.value) else Null)
            && Field(p, "displayName") == Some(if u.displayName.Some? then Str(u.displayName.value) else Null)
            && TimestampField(p, "createdAt") == Some(now)
            && Favorites.FavoritesOf(Some(p)) == {}
            && Dogs.DogsOf(Some(p)) == []
  {
    var p := ApplyOps(map[], NewProfileOps(u), now);
    assert p["favoriteParkIDs"] == Arr([]);
    assert p["dogs"] == Arr([]);
    assert Objects([]) == Some([]);
  }

  /** The data `updateDisplayName` merges into the profile. */
  function DisplayNameOps(newName: string): Ops {
    map["displayName" := Put(Str(newName)), "updatedAt" := ServerTimestamp]
  }

  function ProfileOrEmpty(docs: Docs, uid: string): Fields {
    if UserPath(uid) in docs then docs[UserPath(uid)] else map[]
  }

  /** The merge sets the name and the update time and keeps every other field
      of the profile, so favourites and dogs survive a rename; on a missing
      profile it creates one holding just those two fields. */
  lemma RenameKeepsProfile(docs: Docs, uid: string, newName: string, now: int)
    ensures var before := ProfileOrEmpty(docs, uid);
            var after := ApplyOps(before, DisplayNameOps(newName), now);
            && StringField(after, "displayName") == Some(newName)
            && TimestampField(after, "updatedAt") == Some(now)
            && (forall k :: k != "displayName" && k != "updatedAt" ==> Field(after, k) == Field(before, k))
            && Favorites.FavoritesOf(Some(after)) == Favorites.FavoritesOf(Some(before))
            && Dogs.DogsOf(Some(after)) == Dogs.DogsOf(Some(before))
  {
    var before := ProfileOrEmpty(docs, uid);
    var after := ApplyOps(before, DisplayNameOps(newName), now);
    assert StringArrayField(after, Favorites.FavoritesField) == StringArrayField(before, Favorites.FavoritesField);
    assert ObjectArrayField(after, Dogs.DogsField) == ObjectArrayField(before, Dogs.DogsField);
  }

  class AuthViewModel {
    const db: Firestore
    var user: Option<User>
    var isGuest: bool

    constructor (db: Firestore)
      ensures this.db == db && user == None && !isGuest
    {
      this.db := db;
      user := None;
      isGuest := false;
    }

    /** The auth-state listener. `user` follows the event and `isGuest` is
        the new user's anonymity (false when signed out). A signed-out event
        writes nothing; otherwise the profile is read and created only if it
        does not exist, and a failure of either call is swallowed. */
    method OnAuthStateChanged(newUser: Option<User>, readReachable: bool, writeReachable: bool)
      modifies this, db
      ensures user == newUser
      ensures isGuest <==> newUser.Some? && newUser.value.isAnonymous
      ensures newUser.None? || !readReachable ==> db.docs == old(db.docs)
      ensures newUser.Some? && readReachable && writeReachable ==>
                db.docs == Bootstrapped(old(db.docs), newUser.value, old(db.clock))
      ensures newUser.Some? && !writeReachable ==> db.docs == old(db.docs)
    {
      user := newUser;
      isGuest := if newUser.Some? then newUser.value.isAnonymous else false;
      if newUser.None? {
        return;
      }
      var u := newUser.value;
      var snap := db.GetDocument(UserPath(u.uid), readReachable);
      if snap.Ok? && snap.value.None? {
        var w := SetDoc(UserPath(u.uid), NewProfileOps(u));
        SingleWrite(db.docs, w, db.clock);
        var _ := db.Commit([w], writeReachable);
      }
    }

    /** Without a current user: the "Not signed in" error and no write. The
        merge into `users/{uid}` is attempted only after the auth profile
        change has committed; either failure reaches the caller. */
    method UpdateDisplayName(currentUser: Option<User>, newName: string, profileChangeCommits: bool, reachable: bool)
      returns (r: Result<()>)
      modifies db
      ensures currentUser.None? ==> r == Err("Not signed in")
      ensures r.Ok? <==> currentUser.Some? && profileChangeCommits && reachable
      ensures r.Ok? ==> var uid := currentUser.value.uid;
                        db.docs == old(db.docs)[UserPath(uid) := ApplyOps(ProfileOrEmpty(old(db.docs), uid), DisplayNameOps(newName), old(db.clock))]
      ensures r.Err? ==> db.docs == old(db.docs)
    {
      if currentUser.None? {
        return Err("Not signed in");
      }
      if !profileChangeCommits {
        return Err("profile change failed");
      }
      var uid := currentUser.value.uid;
      var w := MergeDoc(UserPath(uid), DisplayNameOps(newName));
      SingleWrite(db.docs, w, db.clock);
      var ok := db.Commit([w], reachable);
      r := if ok then Ok(()) else Err("unavailable");
    }
  }
}
