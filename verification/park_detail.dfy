/** ParkDetailView's reviews: loading them, the submit button's rule, the
    two halves of `submitReview` (before and after the write), and the star
    row drawn for each review. */
module ParkDetail {
  import opened Common
  import opened Store
  import opened Records
  import opened Ratings

  /** The Submit button is enabled when no submission is running and the
      comment is not blank once spaces and tabs are trimmed. */
  function SubmitEnabled(isSubmitting: bool, comment: string): (r: bool)
    ensures r <==> !isSubmitting && exists k :: 0 <= k < |comment| && !Whitespaces.Contains(comment[k])
  {
    !isSubmitting && Trimming(comment, Whitespaces) != ""
  }

  /** The comment a review stores: trimmed of whitespace and newlines. */
  function StoredComment(comment: string): (r: string)
    ensures |r| <= |comment|
    ensures r == "" <==> forall k :: 0 <= k < |comment| ==> WhitespacesAndNewlines.Contains(comment[k])
  {
    Trimming(comment, WhitespacesAndNewlines)
  }

  /** The button and the review disagree on newlines: a comment of line
      breaks and spaces with at least one line break can be submitted, and
      it is stored as the empty string. */
  lemma NewlineOnlyCommentStoredEmpty(comment: string)
    requires forall k :: 0 <= k < |comment| ==> comment[k] == '\n' || comment[k] == ' '
    requires '\n' in comment
    ensures SubmitEnabled(false, comment)
    ensures StoredComment(comment) == ""
  {
    var k :| 0 <= k < |comment| && comment[k] == '\n';
    assert !Whitespaces.Contains(comment[k]);
  }

  /** The five stars drawn for a review: star `i` is filled when `i` is
      below the rating's stars. */
  function StarRow(stars: int): (r: seq<bool>)
    ensures |r| == 5
    ensures forall i :: 0 <= i < 5 ==> (r[i] <==> i < stars)
  {
    seq(5, i => i < stars)
  }

  function CountFilled(row: seq<bool>): nat {
    if row == [] then 0 else (if row[0] then 1 else 0) + CountFilled(row[1..])
  }

  function Clamp(stars: int): int {
    if stars < 0 then 0 else if stars > 5 then 5 else stars
  }

  /** Stars are not range-checked anywhere: out-of-range counts draw as
      zero or five filled stars. */
  lemma FilledStars(stars: int)
    ensures CountFilled(StarRow(stars)) == Clamp(stars)
  {
    var r := StarRow(stars);
    assert CountFilled(r[5..]) == 0;
    assert CountFilled(r[4..]) == (if 4 < stars then 1 else 0) by { assert r[4..][1..] == r[5..]; }
    assert CountFilled(r[3..]) == (if 3 < stars then 1 else 0) + CountFilled(r[4..]) by { assert r[3..][1..] == r[4..]; }
    assert CountFilled(r[2..]) == (if 2 < stars then 1 else 0) + CountFilled(r[3..]) by { assert r[2..][1..] == r[3..]; }
    assert CountFilled(r[1..]) == (if 1 < stars then 1 else 0) + CountFilled(r[2..]) by { assert r[1..][1..] == r[2..]; }
  }

  class ParkDetailScreen {
    const db: Firestore
    const parkID: string
    var ratings: seq<Rating>
    var newStars: int
    var newComment: string
    var isSubmitting: bool
    var loadError: Option<string>

    constructor (db: Firestore, parkID: string)
      ensures this.db == db && this.parkID == parkID
      ensures ratings == [] && newStars == 3 && newComment == "" && !isSubmitting && loadError == None
    {
      this.db := db;
      this.parkID := parkID;
      ratings := [];
      newStars := 3;
      newComment := "";
      isSubmitting := false;
      loadError := None;
    }

    /** `fetchReviews`: the park's listing, or on failure the error message
        with the reviews left as they were. */
    method FetchReviews(reachable: bool)
      modifies this
      ensures reachable ==> IsRatingListing(db.docs, parkID, ratings) && loadError == old(loadError)
      ensures !reachable ==> ratings == old(ratings) && loadError == Some("Failed to load reviews.")
      ensures newStars == old(newStars) && newComment == old(newComment) && isSubmitting == old(isSubmitting)
    {
      var r := FetchRatings(db, parkID, reachable);
      if r.Ok? {
        ratings := r.value;
      } else {
        loadError := Some("Failed to load reviews.");
      }
    }

    /** The synchronous half of `submitReview`, run from the enabled button.
        With no user nothing happens. Otherwise the error is cleared,
        submission starts, and the review to write is built from the picked
        stars, the user, this park and the trimmed comment, with a new
        `reviewID` and the current time. */
    method BeginSubmit(currentUser: Option<User>, reviewID: string, now: int) returns (review: Option<Rating>)
      requires SubmitEnabled(isSubmitting, newComment)
      modifies this
      ensures currentUser.None? ==> review == None && isSubmitting == old(isSubmitting) && loadError == old(loadError)
      ensures currentUser.Some? ==>
                && review == Some(Rating(reviewID, parkID, currentUser.value.uid, old(newStars), StoredComment(old(newComment)), now))
                && isSubmitting && loadError == None
      ensures ratings == old(ratings) && newStars == old(newStars) && newComment == old(newComment)
    {
      if currentUser.None? {
        return None;
      }
      isSubmitting := true;
      loadError := None;
      review := Some(Rating(reviewID, parkID, currentUser.value.uid, newStars, StoredComment(newComment), now));
    }

    /** The task half: `addRating` under the store's new key. On success the
        review goes first in the list and the form resets to three stars and
        an empty comment; on failure only the error message is set.
        Submission ends either way. */
    method FinishSubmit(review: Rating, autoID: string, reachable: bool)
      requires isSubmitting
      requires Child(RatingsCollection, autoID) !in db.docs
      modifies this, db
      ensures !isSubmitting
      ensures reachable ==>
                && ratings == [review] + old(ratings) && newStars == 3 && newComment == "" && loadError == old(loadError)
                && db.docs == old(db.docs)[Child(RatingsCollection, autoID) := ApplyOps(map[], RatingOps(review), old(db.clock))]
      ensures !reachable ==>
                && ratings == old(ratings) && newStars == old(newStars) && newComment == old(newComment)
                && loadError == Some("Could not submit review.") && db.docs == old(db.docs)
    {
      var r := AddRating(db, review, autoID, reachable);
      if r.Ok? {
        ratings := [review] + ratings;
        newStars := 3;
        newComment := "";
      } else {
        loadError := Some("Could not submit review.");
      }
      isSubmitting := false;
    }
  }

  /** The review put at the top of the screen carries the new UUID as its
      id, while the stored one is keyed by the store: the next load of the
      park lists it with the store's key instead, so the two ids differ. */
  lemma ShownAndStoredIdsDiffer(docs: Docs, review: Rating, autoID: string, now: int, listing: seq<Rating>)
    requires review.id != autoID
    requires IsRatingListing(docs[Child(RatingsCollection, autoID) := ApplyOps(map[], RatingOps(review), now)], review.parkID, listing)
    ensures review.(id := autoID) in listing
    ensures review.(id := autoID) != review
  {
    AddedRatingIsListed(docs, review, autoID, now, listing);
  }

  /** When no stored review is keyed by the shown review's UUID (the store
      picks its own keys), the next load of the park does not list the review
      the screen shows: its id is unknown to the store. */
  lemma ShownReviewNotListed(docs: Docs, review: Rating, autoID: string, now: int, listing: seq<Rating>)
    requires review.id != autoID
    requires Child(RatingsCollection, review.id) !in docs
    requires IsRatingListing(docs[Child(RatingsCollection, autoID) := ApplyOps(map[], RatingOps(review), now)], review.parkID, listing)
    ensures review !in listing
    ensures review.id !in RatingIds(listing)
  {
    var after := docs[Child(RatingsCollection, autoID) := ApplyOps(map[], RatingOps(review), now)];
    assert Child(RatingsCollection, review.id) != Child(RatingsCollection, autoID) by {
      assert Child(RatingsCollection, review.id)[|RatingsCollection|] == review.id;
      assert Child(RatingsCollection, autoID)[|RatingsCollection|] == autoID;
    }
    assert Child(RatingsCollection, review.id) !in after;
    assert !IsReviewOf(after, review.parkID, review.id);
  }
}
