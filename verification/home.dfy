/** HomeView: the greeting, the name list it is built from, the favourites
    handed to the favourites screen, the once-per-user dog-setup prompt and
    the bottom sheet's drag thresholds. */
module Home {
  import opened Common
  import opened Records

  /** `joinNames`: "", "A", "A and B", "A, B, and C". One name is itself;
      two are joined with " and "; three or more are joined with ", " up to
      the last, which follows ", and ". */
  function JoinNames(names: seq<string>): (r: string)
    ensures |names| == 0 ==> r == ""
    ensures |names| == 1 ==> r == names[0]
    ensures |names| == 2 ==> r == names[0] + " and " + names[1]
    ensures |names| >= 3 ==> r == Join(names[..|names| - 1], ", ") + ", and " + names[|names| - 1]
    ensures |names| > 0 ==> |r| >= |names[0]| && r[..|names[0]|] == names[0]
    ensures |names| > 0 ==> |r| >= |names[|names| - 1]| && r[|r| - |names[|names| - 1]|..] == names[|names| - 1]
    ensures |names| == 1 ==> |r| == TotalLength(names)
    ensures |names| == 2 ==> |r| == TotalLength(names) + 5
    ensures |names| >= 3 ==> |r| == TotalLength(names) + 2 * |names| + 2
  {
    if |names| == 0 then ""
    else if |names| == 1 then names[0]
    else if |names| == 2 then
      var r := Join(names, " and ");
      assert names[1..] == [names[1]];
      assert Join(names[1..], " and ") == names[1];
      assert r == names[0] + " and " + names[1];
      r
    else
      var init, last := names[..|names| - 1], names[|names| - 1];
      var allButLast := Join(init, ", ");
      var r := allButLast + ", and " + last;
      assert names == init + [last];
      TotalLengthSnoc(init, last);
      assert init[0] == names[0];
      assert r[..|names[0]|] == allButLast[..|names[0]|];
      assert r[|r| - |last|..] == last;
      r
  }

  /** One more name after three or more: the old last name loses its
      ", and " and becomes an ordinary ", "-separated entry. */
  lemma JoinNamesExtend(names: seq<string>, y: string)
    requires |names| >= 3
    ensures JoinNames(names + [y])
            == Join(names[..|names| - 1], ", ") + ", " + names[|names| - 1] + ", and " + y
  {
    var init := names[..|names| - 1];
    assert (names + [y])[..|names + [y]| - 1] == init + [names[|names| - 1]];
    JoinSnoc(init, names[|names| - 1], ", ");
  }

  /** Going from two names to three replaces " and " by ", " and adds
      ", and " before the third. */
  lemma JoinNamesTwoToThree(a: string, b: string, c: string)
    ensures JoinNames([a, b]) == a + " and " + b
    ensures JoinNames([a, b, c]) == a + ", " + b + ", and " + c
  {
    assert [a, b, c][..2] == [a, b];
    assert [a, b][1..] == [b];
  }

  /** The greeting's opening: morning from 5 to 11 o'clock, afternoon from
      12 to 16, evening at every other hour. */
  function GreetingPrefix(hour: int): (r: string)
    ensures r == "Good morning" <==> 5 <= hour < 12
    ensures r == "Good afternoon" <==> 12 <= hour < 17
    ensures r == "Good evening" <==> hour < 5 || hour >= 17
  {
    if 5 <= hour < 12 then "Good morning"
    else if 12 <= hour < 17 then "Good afternoon"
    else "Good evening"
  }

  /** The index of the first non-space character at or after `lo`, or `|s|`. */
  function SkipSpaces(s: string, lo: nat): (i: nat)
    requires lo <= |s|
    ensures lo <= i <= |s|
    ensures forall k :: lo <= k < i ==> s[k] == ' '
    ensures i == |s| || s[i] != ' '
    decreases |s| - lo
  {
    if lo < |s| && s[lo] == ' ' then SkipSpaces(s, lo + 1) else lo
  }

  /** The index of the first space at or after `lo`, or `|s|`. */
  function WordEnd(s: string, lo: nat): (e: nat)
    requires lo <= |s|
    ensures lo <= e <= |s|
    ensures forall k :: lo <= k < e ==> s[k] != ' '
    ensures e == |s| || s[e] == ' '
    decreases |s| - lo
  {
    if lo < |s| && s[lo] != ' ' then WordEnd(s, lo + 1) else lo
  }

  /** `w` stands in `s` from index `i` on. */
  predicate OccursAt(w: string, s: string, i: int) {
    0 <= i <= |s| - |w| && s[i..i + |w|] == w
  }

  /** `full.split(separator: " ").first ?? full`: the first run of
      non-space characters, or `full` itself when it holds only spaces. The
      word stands after nothing but spaces and is followed by a space or the
      end of `full`. */
  function FirstWord(full: string): (r: string)
    ensures (exists k :: 0 <= k < |full| && full[k] != ' ') ==>
              && r != "" && ' ' !in r
              && exists i :: && OccursAt(r, full, i)
                             && (forall k :: 0 <= k < i ==> full[k] == ' ')
                             && (i + |r| == |full| || full[i + |r|] == ' ')
    ensures (forall k :: 0 <= k < |full| ==> full[k] == ' ') ==> r == full
    ensures ' ' !in full ==> r == full
  {
    var i := SkipSpaces(full, 0);
    if i == |full| then full
    else
      var e := WordEnd(full, i);
      var w := full[i..e];
      assert forall m :: 0 <= m < |w| ==> w[m] == full[i + m];
      assert OccursAt(w, full, i);
      assert ' ' !in full ==> i == 0 && e == |full| && w == full;
      w
  }

  /** Only one word fits that description: any non-empty space-free `w`
      standing after nothing but spaces and followed by a space or the end is
      the first word. */
  lemma FirstWordUnique(full: string, w: string, i: int)
    requires w != "" && ' ' !in w
    requires OccursAt(w, full, i)
    requires forall k :: 0 <= k < i ==> full[k] == ' '
    requires i + |w| == |full| || full[i + |w|] == ' '
    ensures FirstWord(full) == w
  {
    assert full[i] == w[0];
    var i0 := SkipSpaces(full, 0);
    assert i0 == i;
    forall k | i <= k < i + |w| ensures full[k] != ' ' {
      assert full[k] == w[k - i];
    }
    assert WordEnd(full, i) == i + |w|;
  }

  /** The home greeting. Dogs take priority: prefix, a space and their
      names. Without dogs, a signed-in non-guest with a non-empty display name
      gets prefix, ", " and the first word of the name; anyone else gets the
      prefix alone. */
  function Greeting(hour: int, dogNames: seq<string>, displayName: Option<string>, isGuest: bool): (r: string)
    ensures |r| >= |GreetingPrefix(hour)| && r[..|GreetingPrefix(hour)|] == GreetingPrefix(hour)
    ensures |dogNames| > 0 ==> r == GreetingPrefix(hour) + " " + JoinNames(dogNames)
    ensures |dogNames| == 0 && (isGuest || displayName.None? || displayName.value == "") ==> r == GreetingPrefix(hour)
    ensures |dogNames| == 0 && !isGuest && displayName.Some? && displayName.value != "" ==>
              r == GreetingPrefix(hour) + ", " + FirstWord(displayName.value)
  {
    var prefix := GreetingPrefix(hour);
    if |dogNames| > 0 then prefix + " " + JoinNames(dogNames)
    else if displayName.Some? && displayName.value != "" && !isGuest then prefix + ", " + FirstWord(displayName.value)
    else prefix
  }

  /** With dogs, neither the display name nor the guest flag matters. */
  lemma GreetingIgnoresNameWithDogs(hour: int, dogNames: seq<string>, n1: Option<string>, g1: bool, n2: Option<string>, g2: bool)
    requires |dogNames| > 0
    ensures Greeting(hour, dogNames, n1, g1) == Greeting(hour, dogNames, n2, g2)
  {
  }

  /** The parks the favourites screen receives: those whose id is a
      favourite, in repository order. */
  function FavoriteParks(parks: seq<DogPark>, favorites: set<string>): (r: seq<DogPark>)
    ensures |r| <= |parks|
    ensures forall p :: p in r <==> p in parks && p.id in favorites
  {
    if parks == [] then []
    else (if parks[0].id in favorites then [parks[0]] else []) + FavoriteParks(parks[1..], favorites)
  }

  /** Filtering keeps the repository order: the favourites of two lists
      joined are the two lists' favourites joined. */
  lemma {:induction false} FavoriteParksAppend(a: seq<DogPark>, b: seq<DogPark>, favorites: set<string>)
    ensures FavoriteParks(a + b, favorites) == FavoriteParks(a, favorites) + FavoriteParks(b, favorites)
    decreases |a|
  {
    if a == [] {
      assert a + b == b;
    } else {
      assert (a + b)[0] == a[0] && (a + b)[1..] == a[1..] + b;
      FavoriteParksAppend(a[1..], b, favorites);
    }
  }

  /** The `UserDefaults` key recording that `uid` has seen the dog setup. */
  function SetupKey(uid: string): string {
    "didShowDogSetup_" + uid
  }

  /** Each user has a key of their own. */
  lemma SetupKeyInjective(a: string, b: string)
    ensures SetupKey(a) == SetupKey(b) <==> a == b
  {
    if SetupKey(a) == SetupKey(b) {
      var n := |"didShowDogSetup_"|;
      assert a == SetupKey(a)[n..];
      assert b == SetupKey(b)[n..];
    }
  }

  /** The sheet opens only for a signed-in user with no dogs whose flag is
      not yet set. */
  predicate ShouldPrompt(flags: set<string>, user: Option<User>, dogs: seq<DogProfile>) {
    user.Some? && dogs == [] && SetupKey(user.value.uid) !in flags
  }

  /** Once the flag is set the prompt never opens again for that user. */
  lemma PromptAtMostOnce(flags: set<string>, user: User, dogs: seq<DogProfile>, later: seq<DogProfile>)
    ensures !ShouldPrompt(flags + {SetupKey(user.uid)}, Some(user), later)
  {
  }

  /** Setting one user's flag does not stop another user's prompt. */
  lemma PromptPerUser(flags: set<string>, u: User, v: User, dogs: seq<DogProfile>)
    requires u.uid != v.uid
    ensures ShouldPrompt(flags + {SetupKey(u.uid)}, Some(v), dogs) == ShouldPrompt(flags, Some(v), dogs)
  {
    SetupKeyInjective(u.uid, v.uid);
  }

  class HomeScreen {
    var isExpanded: bool
    var showInitialDogSetup: bool
    /** The `UserDefaults` boolean keys that are set. */
    var flags: set<string>

    constructor (flags: set<string>)
      ensures !isExpanded && !showInitialDogSetup && this.flags == flags
    {
      isExpanded := false;
      showInitialDogSetup := false;
      this.flags := flags;
    }

    /** The end of a drag on the bottom sheet: up by more than 50 points
        expands it, down by more than 50 collapses it, anything smaller
        leaves it as it is. */
    method OnDragEnded(translation: real)
      modifies this
      ensures translation < -50.0 ==> isExpanded
      ensures translation > 50.0 ==> !isExpanded
      ensures -50.0 <= translation <= 50.0 ==> isExpanded == old(isExpanded)
      ensures showInitialDogSetup == old(showInitialDogSetup) && flags == old(flags)
    {
      if translation < -50.0 {
        isExpanded := true;
      } else if translation > 50.0 {
        isExpanded := false;
      }
    }

    /** After parks and dogs are loaded on appear: opens the dog-setup sheet
        and sets the user's flag when `ShouldPrompt`; otherwise nothing. */
    method PromptDogSetup(user: Option<User>, dogs: seq<DogProfile>)
      modifies this
      ensures ShouldPrompt(old(flags), user, dogs) ==>
                showInitialDogSetup && flags == old(flags) + {SetupKey(user.value.uid)}
      ensures !ShouldPrompt(old(flags), user, dogs) ==>
                showInitialDogSetup == old(showInitialDogSetup) && flags == old(flags)
      ensures isExpanded == old(isExpanded)
    {
      if user.Some? && dogs == [] {
        var key := SetupKey(user.value.uid);
        if key !in flags {
          showInitialDogSetup := true;
          flags := flags + {key};
        }
      }
    }
  }
}
