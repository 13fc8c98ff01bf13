/** DogsRepository: the signed-in user's dogs, stored as the `dogs` array of
    `{id, name}` maps inside the profile document `users/{uid}`. */
module Dogs {
  import opened Common
  import opened Store
  import opened Records

  const DogsField := "dogs"

  /** The compactMap closure of `loadDogs`: a string `id` and a string `name`. */
  function DecodeDog(entry: map<string, Value>): Option<DogProfile> {
    if "id" in entry && entry["id"].Str? && "name" in entry && entry["name"].Str? then
      Some(DogProfile(entry["id"].s, entry["name"].s))
    else None
  }

  /** The dictionary `setDogs` stores for one profile. */
  function EncodeDog(d: DogProfile): map<string, Value> {
    map["id" := Str(d.id), "name" := Str(d.name)]
  }

  function EncodeDogs(ds: seq<DogProfile>): seq<Value> {
    seq(|ds|, i requires 0 <= i < |ds| => Obj(EncodeDog(ds[i])))
  }

  /** What `loadDogs` makes of a fetched profile: the well-formed entries of
      the `dogs` array, in stored order; nothing when there is no document or
      the field is missing or not an array of dictionaries. */
  function DogsOf(profile: Option<Fields>): (r: seq<DogProfile>)
    ensures profile.None? || ObjectArrayField(profile.value, DogsField).None? ==> r == []
    ensures profile.Some? && ObjectArrayField(profile.value, DogsField).Some? ==>
              var entries := ObjectArrayField(profile.value, DogsField).value;
              && r == FilterMap(entries, DecodeDog)
              && |r| <= |entries|
              && (forall i :: 0 <= i < |entries| && DecodeDog(entries[i]).Some? ==> DecodeDog(entries[i]).value in r)
              && (forall d :: d in r ==> exists i :: 0 <= i < |entries| && DecodeDog(entries[i]) == Some(d))
  {
    if profile.None? then []
    else match ObjectArrayField(profile.value, DogsField)
      case None => []
      case Some(entries) =>
        var r := FilterMap(entries, DecodeDog);
        forall i | 0 <= i < |entries| && DecodeDog(entries[i]).Some? ensures DecodeDog(entries[i]).value in r {
          FilterMapKeeps(entries, DecodeDog, i);
        }
        forall d | d in r ensures exists i :: 0 <= i < |entries| && DecodeDog(entries[i]) == Some(d) {
          var k :| 0 <= k < |r| && r[k] == d;
          var i := Origin(entries, DecodeDog, k);
        }
        r
  }

  /** The update `setDogs` sends: the whole array, replaced. */
  function SetDogsOps(ds: seq<DogProfile>): Ops {
    map[DogsField := Put(Arr(EncodeDogs(ds)))]
  }

  /** Decoding what was encoded gives back every profile, in order. */
  lemma {:induction false} DecodeEncoded(ds: seq<DogProfile>, entries: seq<map<string, Value>>)
    requires |entries| == |ds|
    requires forall i :: 0 <= i < |ds| ==> entries[i] == EncodeDog(ds[i])
    ensures FilterMap(entries, DecodeDog) == ds
    decreases |ds|
  {
    if ds != [] {
      assert DecodeDog(entries[0]) == Some(ds[0]);
      DecodeEncoded(ds[1..], entries[1..]);
    }
  }

  /** Round trip: whatever else the profile holds, after `setDogs(L)` has
      been applied to it, `loadDogs` reads back exactly `L`. */
  lemma DogsRoundTrip(fields: Fields, ds: seq<DogProfile>, now: int)
    ensures DogsOf(Some(ApplyOps(fields, SetDogsOps(ds), now))) == ds
  {
    var after := ApplyOps(fields, SetDogsOps(ds), now);
    var items := EncodeDogs(ds);
    assert after[DogsField] == Arr(items);
    assert Objects(items).Some?;
    DecodeEncoded(ds, Objects(items).value);
  }

  /** The store-level round trip: committing the `setDogs` update on an
      existing profile succeeds, and the profile then decodes to `L`. */
  lemma SetThenLoad(docs: Docs, uid: string, ds: seq<DogProfile>, now: int)
    requires UserPath(uid) in docs
    ensures var after := ApplyBatch(docs, [UpdateDoc(UserPath(uid), SetDogsOps(ds))], now);
            after.Some? && DogsOf(Lookup(after.value, UserPath(uid))) == ds
  {
    SingleWrite(docs, UpdateDoc(UserPath(uid), SetDogsOps(ds)), now);
    DogsRoundTrip(docs[UserPath(uid)], ds, now);
  }

  /** `setDogs` writes only the profile's array: no document of the
      `users/{uid}/dogs` subcollection is created, changed or removed. */
  lemma SetDogsLeavesSubcollection(docs: Docs, uid: string, ds: seq<DogProfile>, now: int)
    ensures var after := ApplyBatch(docs, [UpdateDoc(UserPath(uid), SetDogsOps(ds))], now);
            after.Some? ==> forall id :: Lookup(after.value, Child(DogsCollection(uid), id)) == Lookup(docs, Child(DogsCollection(uid), id))
  {
    forall id ensures Child(DogsCollection(uid), id) != UserPath(uid) {
      assert |Child(DogsCollection(uid), id)| == 4;
    }
  }

  class DogsRepository {
    const db: Firestore
    var dogs: seq<DogProfile>

    constructor (db: Firestore)
      ensures this.db == db && dogs == []
    {
      this.db := db;
      dogs := [];
    }

    /** Signed out, or a failed fetch: the list is cleared (unlike the
        favourites). Otherwise it becomes the dogs of the fetched profile. */
    method LoadDogs(currentUser: Option<string>, reachable: bool)
      modifies this
      ensures currentUser.None? || !reachable ==> dogs == []
      ensures currentUser.Some? && reachable ==> dogs == DogsOf(Lookup(db.docs, UserPath(currentUser.value)))
    {
      if currentUser.None? {
        dogs := [];
        return;
      }
      var snap := db.GetDocument(UserPath(currentUser.value), reachable);
      if snap.Ok? {
        dogs := DogsOf(snap.value);
      } else {
        dogs := [];
      }
    }

    /** The stored array is replaced first; only when that update succeeds
        (signed in, reachable, and the profile exists) does the local list
        become `newDogs`. Otherwise nothing changes. */
    method SetDogs(currentUser: Option<string>, newDogs: seq<DogProfile>, reachable: bool)
      modifies this, db
      ensures var done := currentUser.Some? && reachable && UserPath(currentUser.value) in old(db.docs);
              && (done ==> dogs == newDogs)
              && (done ==> var path := UserPath(currentUser.value);
                           db.docs == old(db.docs)[path := ApplyOps(old(db.docs)[path], SetDogsOps(newDogs), old(db.clock))])
              && (!done ==> dogs == old(dogs) && db.docs == old(db.docs))
    {
      if currentUser.None? {
        return;
      }
      var w := UpdateDoc(UserPath(currentUser.value), SetDogsOps(newDogs));
      SingleWrite(db.docs, w, db.clock);
      var ok := db.Commit([w], reachable);
      if ok {
        dogs := newDogs;
      }
    }
  }
}
