/** RatingService: park reviews stored as documents of the top-level
    `ratings` collection, appended under fresh keys and fetched per park,
    newest first. */
module Ratings {
  import opened Common
  import opened Store
  import opened Records

  /** The data `addRating` writes. The rating's own `id` is not part of it. */
  function RatingOps(rating: Rating): Ops {
    map[
      "parkID" := Put(Str(rating.parkID)),
      "userID" := Put(Str(rating.userID)),
      "stars" := Put(Int(rating.stars)),
      "comment" := Put(Str(rating.comment)),
      "timestamp" := Put(Time(rating.timestamp))]
  }

  /** The compactMap closure of `fetchRatings`: a string `userID`, an `Int`
      `stars`, a string `comment` and a timestamp; `parkID` is taken from the
      query, not from the document, and the key becomes the id. */
  function DecodeRating(parkID: string, doc: Doc): Option<Rating> {
    var userID := StringField(doc.fields, "userID");
    var stars := IntField(doc.fields, "stars");
    var comment := StringField(doc.fields, "comment");
    var ts := TimestampField(doc.fields, "timestamp");
    if userID.Some? && stars.Some? && comment.Some? && ts.Some? then
      Some(Rating(doc.id, parkID, userID.value, stars.value, comment.value, ts.value))
    else None
  }

  function Decoder(parkID: string): Doc -> Option<Rating> {
    d => DecodeRating(parkID, d)
  }

  function ParkFilter(parkID: string): Option<Filter> {
    Some(FieldEquals("parkID", Str(parkID)))
  }

  const NewestFirst := ByTime("timestamp", true)

  /** Newest first; equal times by document key, descending. */
  predicate RatingBefore(a: Rating, b: Rating) {
    a.timestamp > b.timestamp || (a.timestamp == b.timestamp && LexLess(b.id, a.id))
  }

  function RatingIds(rs: seq<Rating>): set<string> {
    set r | r in rs :: r.id
  }

  /** The stored review `ratings/{id}` belongs to `parkID` and decodes. */
  predicate IsReviewOf(docs: Docs, parkID: string, id: string) {
    var path := Child(RatingsCollection, id);
    path in docs && Field(docs[path], "parkID") == Some(Str(parkID))
    && DecodeRating(parkID, Doc(id, docs[path])).Some?
  }

  /** `rs` is what `fetchRatings(parkID)` returns: exactly the stored
      reviews of that park that decode, each decoded from its own document,
      newest first. */
  ghost predicate IsRatingListing(docs: Docs, parkID: string, rs: seq<Rating>) {
    && (forall i, j :: 0 <= i < j < |rs| ==> RatingBefore(rs[i], rs[j]))
    && (forall r :: r in rs ==>
          r.parkID == parkID && IsReviewOf(docs, parkID, r.id)
          && DecodeRating(parkID, Doc(r.id, docs[Child(RatingsCollection, r.id)])) == Some(r))
    && (forall id :: IsReviewOf(docs, parkID, id) ==> id in RatingIds(rs))
  }

  /** Decoding the filtered, ordered query gives the listing. */
  lemma ListingOfSnapshot(docs: Docs, parkID: string, snapshot: seq<Doc>)
    requires IsQueryResult(docs, RatingsCollection, ParkFilter(parkID), NewestFirst, snapshot)
    ensures IsRatingListing(docs, parkID, FilterMap(snapshot, Decoder(parkID)))
  {
    var f := Decoder(parkID);
    var rs := FilterMap(snapshot, f);
    forall i, j | 0 <= i < j < |rs| ensures RatingBefore(rs[i], rs[j]) {
      var oi, oj := Origin(snapshot, f, i), Origin(snapshot, f, j);
      OriginMonotone(snapshot, f, i, j);
      assert DocBefore(snapshot[oi], snapshot[oj], NewestFirst);
    }
    forall r | r in rs
      ensures r.parkID == parkID && IsReviewOf(docs, parkID, r.id)
      ensures DecodeRating(parkID, Doc(r.id, docs[Child(RatingsCollection, r.id)])) == Some(r)
    {
      var k :| 0 <= k < |rs| && rs[k] == r;
      var o := Origin(snapshot, f, k);
      assert snapshot[o] in snapshot;
      assert snapshot[o] == Doc(r.id, docs[Child(RatingsCollection, r.id)]);
    }
    forall id | IsReviewOf(docs, parkID, id) ensures id in RatingIds(rs) {
      assert Selected(docs[Child(RatingsCollection, id)], ParkFilter(parkID), NewestFirst);
      assert id in Ids(snapshot);
      var d :| d in snapshot && d.id == id;
      var i :| 0 <= i < |snapshot| && snapshot[i] == d;
      FilterMapKeeps(snapshot, f, i);
    }
  }

  /** What `addRating` stores decodes back to the same rating, with the
      store's key as id, for any number of stars: no range is enforced on
      either side. The stored document also matches the park filter. */
  lemma StoredRatingRoundTrip(rating: Rating, key: string, now: int)
    ensures var fields := ApplyOps(map[], RatingOps(rating), now);
            && Field(fields, "parkID") == Some(Str(rating.parkID))
            && DecodeRating(rating.parkID, Doc(key, fields)) == Some(rating.(id := key))
  {
    var fields := ApplyOps(map[], RatingOps(rating), now);
    assert fields["stars"] == Int(rating.stars);
    assert fields["timestamp"] == Time(rating.timestamp);
  }

  /** A review appended under `key` appears in every later listing of its
      park, as the rating that was added with `key` as its id. */
  lemma AddedRatingIsListed(docs: Docs, rating: Rating, key: string, now: int, rs: seq<Rating>)
    requires IsRatingListing(docs[Child(RatingsCollection, key) := ApplyOps(map[], RatingOps(rating), now)], rating.parkID, rs)
    ensures rating.(id := key) in rs
  {
    var after := docs[Child(RatingsCollection, key) := ApplyOps(map[], RatingOps(rating), now)];
    StoredRatingRoundTrip(rating, key, now);
    assert IsReviewOf(after, rating.parkID, key);
    var r :| r in rs && r.id == key;
  }

  /** `addRating`: one new document under a fresh key. A failed write
      changes nothing and its error reaches the caller. */
  method AddRating(db: Firestore, rating: Rating, autoID: string, reachable: bool) returns (r: Result<()>)
    requires Child(RatingsCollection, autoID) !in db.docs
    modifies db
    ensures r.Ok? <==> reachable
    ensures r.Ok? ==> db.docs == old(db.docs)[Child(RatingsCollection, autoID) := ApplyOps(map[], RatingOps(rating), old(db.clock))]
    ensures r.Err? ==> db.docs == old(db.docs)
  {
    var w := SetDoc(Child(RatingsCollection, autoID), RatingOps(rating));
    SingleWrite(db.docs, w, db.clock);
    var ok := db.Commit([w], reachable);
    if ok {
      r := Ok(());
    } else {
      r := Err("unavailable");
    }
  }

  /** `fetchRatings(for:)`: the listing of the park, or the query's error. */
  method FetchRatings(db: Firestore, parkID: string, reachable: bool) returns (r: Result<seq<Rating>>)
    ensures r.Ok? <==> reachable
    ensures r.Ok? ==> IsRatingListing(db.docs, parkID, r.value)
  {
    var snapshot := db.Query(RatingsCollection, ParkFilter(parkID), NewestFirst, reachable);
    if snapshot.Err? {
      return Err(snapshot.message);
    }
    ListingOfSnapshot(db.docs, parkID, snapshot.value);
    r := Ok(FilterMap(snapshot.value, Decoder(parkID)));
  }
}
