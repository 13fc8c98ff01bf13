/** FavoritesRepository: the cached set of favourite park ids and the
    `favoriteParkIDs` array of the profile document `users/{uid}`. */
module Favorites {
  import opened Common
  import opened Store
  import opened Records

  const FavoritesField := "favoriteParkIDs"

  /** The ids an array of strings holds, duplicates collapsed. */
  lemma StringsMembers(items: seq<Value>, q: string)
    requires Strings(items).Some?
    ensures q in Strings(items).value <==> Str(q) in items
  {
    var ss := Strings(items).value;
    if q in ss {
      var i :| 0 <= i < |ss| && ss[i] == q;
      assert items[i] == Str(q);
    }
    if Str(q) in items {
      var i :| 0 <= i < |items| && items[i] == Str(q);
      assert ss[i] == q;
    }
  }

  /** What `loadFavorites` makes of a fetched profile: the elements of its
      `favoriteParkIDs` array when that is an array of strings, and nothing
      otherwise (no document, no field, or a field of another shape). */
  function FavoritesOf(profile: Option<Fields>): (r: set<string>)
    ensures profile.None? ==> r == {}
    ensures profile.Some? && FavoritesField in profile.value && profile.value[FavoritesField].Arr? ==>
              forall q :: q in r <==> (Strings(profile.value[FavoritesField].items) != None
                                       && Str(q) in profile.value[FavoritesField].items)
    ensures profile.Some? && (FavoritesField !in profile.value || !profile.value[FavoritesField].Arr?) ==> r == {}
  {
    if profile.None? then {}
    else match StringArrayField(profile.value, FavoritesField)
      case None => {}
      case Some(ids) =>
        assert forall q :: q in ids <==> Str(q) in profile.value[FavoritesField].items by {
          forall q { StringsMembers(profile.value[FavoritesField].items, q); }
        }
        set q | q in ids
  }

  /** The set after one toggle of `p`. */
  function Toggled(s: set<string>, p: string): (r: set<string>)
    ensures p in r <==> p !in s
    ensures forall q :: q != p ==> (q in r <==> q in s)
  {
    if p in s then s - {p} else s + {p}
  }

  /** Toggling the same park twice restores the set. */
  lemma ToggleTwiceRestores(s: set<string>, p: string)
    ensures Toggled(Toggled(s, p), p) == s
  {
  }

  /** The update `toggleFavorite` sends: `arrayRemove([p])` when `p` is cached
      as a favourite, `arrayUnion([p])` otherwise. */
  function ToggleOps(p: string, present: bool): Ops {
    map[FavoritesField := if present then ArrayRemove([Str(p)]) else ArrayUnion([Str(p)])]
  }

  /** A profile whose favourites field the app could have written: absent,
      not an array, or an array of strings. */
  predicate WellShaped(fields: Fields) {
    FavoritesField !in fields || !fields[FavoritesField].Arr? || Strings(fields[FavoritesField].items).Some?
  }

  /** When the cache holds what is stored, the stored toggle and the cached
      toggle agree: the stored array afterwards decodes to the toggled set,
      and it is still well shaped. */
  lemma ToggleKeepsCacheCoherent(fields: Fields, p: string, now: int)
    requires WellShaped(fields)
    ensures var cached := FavoritesOf(Some(fields));
            var after := ApplyOps(fields, ToggleOps(p, p in cached), now);
            FavoritesOf(Some(after)) == Toggled(cached, p) && WellShaped(after)
  {
    var cached := FavoritesOf(Some(fields));
    var base := if FavoritesField in fields && fields[FavoritesField].Arr? then fields[FavoritesField].items else [];
    assert forall x :: x in base ==> x.Str?;
    assert forall q :: q in cached <==> Str(q) in base;
    ToggledArray(fields, p, p in cached, now, base);
  }

  /** The array the toggle leaves: the stored strings with `p` removed or
      added. */
  lemma ToggledArray(fields: Fields, p: string, present: bool, now: int, base: seq<Value>)
    requires base == if FavoritesField in fields && fields[FavoritesField].Arr? then fields[FavoritesField].items else []
    requires forall x :: x in base ==> x.Str?
    ensures var after := ApplyOps(fields, ToggleOps(p, present), now);
            && FavoritesField in after && after[FavoritesField].Arr?
            && Strings(after[FavoritesField].items).Some?
            && (forall q :: q in FavoritesOf(Some(after)) <==>
                  if present then Str(q) in base && q != p else Str(q) in base || q == p)
  {
    var after := ApplyOps(fields, ToggleOps(p, present), now);
    assert Field(fields, FavoritesField) == if FavoritesField in fields then Some(fields[FavoritesField]) else None;
    var items := after[FavoritesField].items;
    assert forall x :: x in items ==> x.Str?;
    assert Strings(items).Some?;
  }

  /** A stored array with one non-string element decodes to no favourites at
      all, yet a toggle on top of it still changes the cache: afterwards the
      cache holds `p` while the store still decodes to the empty set. */
  lemma ToggleOnMixedArrayDiverges()
    ensures var fields := map[FavoritesField := Arr([Int(7)])];
            var after := ApplyOps(fields, ToggleOps("p", false), 0);
            && FavoritesOf(Some(fields)) == {}
            && Toggled(FavoritesOf(Some(fields)), "p") == {"p"}
            && FavoritesOf(Some(after)) == {}
  {
    var fields := map[FavoritesField := Arr([Int(7)])];
    var after := ApplyOps(fields, ToggleOps("p", false), 0);
    assert Int(7) in after[FavoritesField].items;
  }

  class FavoritesRepository {
    const db: Firestore
    var favoriteParkIDs: set<string>

    constructor (db: Firestore)
      ensures this.db == db && favoriteParkIDs == {}
    {
      this.db := db;
      favoriteParkIDs := {};
    }

    /** Signed out: the set is cleared. A failed fetch leaves it as it was.
        Otherwise it becomes the favourites of the fetched profile. */
    method LoadFavorites(currentUser: Option<string>, reachable: bool)
      modifies this
      ensures currentUser.None? ==> favoriteParkIDs == {}
      ensures currentUser.Some? && !reachable ==> favoriteParkIDs == old(favoriteParkIDs)
      ensures currentUser.Some? && reachable ==>
                favoriteParkIDs == FavoritesOf(Lookup(db.docs, UserPath(currentUser.value)))
    {
      if currentUser.None? {
        favoriteParkIDs := {};
        return;
      }
      var snap := db.GetDocument(UserPath(currentUser.value), reachable);
      if snap.Ok? {
        favoriteParkIDs := FavoritesOf(snap.value);
      }
    }

    /** Membership in the cached set; the store is not consulted. */
    function IsFavorite(parkID: string): (r: bool)
      reads this
      ensures r <==> parkID in favoriteParkIDs
    {
      parkID in favoriteParkIDs
    }

    /** The stored array is updated first; only when the update succeeds
        (signed in, reachable, and the profile document exists) is the cached
        set toggled. Otherwise neither changes and the error is swallowed. */
    method ToggleFavorite(currentUser: Option<string>, parkID: string, reachable: bool)
      modifies this, db
      ensures var done := currentUser.Some? && reachable && UserPath(currentUser.value) in old(db.docs);
              && (done ==> favoriteParkIDs == Toggled(old(favoriteParkIDs), parkID))
              && (done ==> var path := UserPath(currentUser.value);
                           db.docs == old(db.docs)[path := ApplyOps(old(db.docs)[path],
                                        ToggleOps(parkID, parkID in old(favoriteParkIDs)), old(db.clock))])
              && (!done ==> favoriteParkIDs == old(favoriteParkIDs) && db.docs == old(db.docs))
    {
      if currentUser.None? {
        return;
      }
      var path := UserPath(currentUser.value);
      var present := IsFavorite(parkID);
      var w := UpdateDoc(path, ToggleOps(parkID, present));
      SingleWrite(db.docs, w, db.clock);
      var ok := db.Commit([w], reachable);
      if ok {
        if present {
          favoriteParkIDs := favoriteParkIDs - {parkID};
        } else {
          favoriteParkIDs := favoriteParkIDs + {parkID};
        }
      }
    }
  }
}
