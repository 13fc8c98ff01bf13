/** The two dog-name editors, DogProfilesView (edit the saved dogs) and
    DogSetupView (first-run setup). Both keep a list of name fields and save
    it the same way: trim spaces, drop the empty names, give each remaining
    name a new id. */
module DogEditor {
  import opened Common
  import opened Store
  import opened Records
  import Dogs

  /** `trimmingCharacters(in: .whitespaces)`: newlines are kept. */
  function Trimmed(name: string): string {
    Trimming(name, Whitespaces)
  }

  /** Every field trims to nothing. */
  predicate AllBlank(names: seq<string>) {
    forall k :: 0 <= k < |names| ==> Trimmed(names[k]) == ""
  }

  /** `map { trimmingCharacters(in: .whitespaces) }`. */
  function TrimAll(names: seq<string>): (r: seq<string>)
    ensures |r| == |names| && forall i :: 0 <= i < |r| ==> r[i] == Trimmed(names[i])
  {
    seq(|names|, i requires 0 <= i < |names| => Trimmed(names[i]))
  }

  lemma TrimAllAppend(a: seq<string>, b: seq<string>)
    ensures TrimAll(a + b) == TrimAll(a) + TrimAll(b)
  {
    var l, r := TrimAll(a + b), TrimAll(a) + TrimAll(b);
    forall i | 0 <= i < |l| ensures l[i] == r[i] {
      if i < |a| {
        assert (a + b)[i] == a[i];
      } else {
        assert (a + b)[i] == b[i - |a|];
      }
    }
  }

  /** `filter { !$0.isEmpty }`. */
  function DropEmpty(ts: seq<string>): (r: seq<string>)
    ensures |r| <= |ts|
    ensures forall n :: n in r <==> n in ts && n != ""
    ensures r == [] <==> forall k :: 0 <= k < |ts| ==> ts[k] == ""
  {
    if ts == [] then []
    else
      assert forall k :: 1 <= k < |ts| ==> ts[k] == ts[1..][k - 1];
      assert ts == [ts[0]] + ts[1..];
      (if ts[0] == "" then [] else [ts[0]]) + DropEmpty(ts[1..])
  }

  lemma {:induction false} DropEmptyAppend(a: seq<string>, b: seq<string>)
    ensures DropEmpty(a + b) == DropEmpty(a) + DropEmpty(b)
    decreases |a|
  {
    if a == [] {
      assert a + b == b;
    } else {
      assert (a + b)[0] == a[0] && (a + b)[1..] == a[1..] + b;
      DropEmptyAppend(a[1..], b);
    }
  }

  /** The names a save keeps: each field trimmed, empty results dropped, in
      field order. Nothing is kept exactly when every field is blank. */
  function NormalizedNames(names: seq<string>): (r: seq<string>)
    ensures |r| <= |names|
    ensures r == [] <==> AllBlank(names)
  {
    DropEmpty(TrimAll(names))
  }

  /** A name is kept exactly when it is the non-empty trim of some field. */
  lemma NormalizedMembership(names: seq<string>)
    ensures forall n :: n in NormalizedNames(names) <==> n != "" && exists k :: 0 <= k < |names| && Trimmed(names[k]) == n
  {
    var ts := TrimAll(names);
    forall n | n in ts ensures exists k :: 0 <= k < |names| && Trimmed(names[k]) == n {
      var k :| 0 <= k < |ts| && ts[k] == n;
    }
  }

  /** Saving fields one after the other keeps their order. */
  lemma NormalizedAppend(a: seq<string>, b: seq<string>)
    ensures NormalizedNames(a + b) == NormalizedNames(a) + NormalizedNames(b)
  {
    TrimAllAppend(a, b);
    DropEmptyAppend(TrimAll(a), TrimAll(b));
  }

  /** Saved names are already normal: editing them again and saving without
      changes keeps them. */
  lemma NormalizedIdempotent(names: seq<string>)
    ensures NormalizedNames(NormalizedNames(names)) == NormalizedNames(names)
  {
    var kept := NormalizedNames(names);
    NormalizedMembership(names);
    forall i | 0 <= i < |kept| ensures Trimmed(kept[i]) == kept[i] {
      assert kept[i] in kept;
      var k :| 0 <= k < |names| && Trimmed(names[k]) == kept[i];
      TrimmingIdempotent(names[k], Whitespaces);
    }
    assert TrimAll(kept) == kept;
    DropEmptyAll(kept);
  }

  /** Dropping empties from a list without any changes nothing. */
  lemma {:induction false} DropEmptyAll(ts: seq<string>)
    requires forall n :: n in ts ==> n != ""
    ensures DropEmpty(ts) == ts
    decreases |ts|
  {
    if ts != [] {
      assert ts[0] in ts;
      assert forall n :: n in ts[1..] ==> n in ts;
      DropEmptyAll(ts[1..]);
      assert ts == [ts[0]] + ts[1..];
    }
  }

  /** `allSatisfy { trimmed.isEmpty }`: the Save button is disabled exactly
      when saving would store no dogs. */
  function SaveDisabled(names: seq<string>): (r: bool)
    ensures r <==> NormalizedNames(names) == []
  {
    AllBlank(names)
  }

  /** One profile per name, the `i`th with the `i`th new UUID. */
  function MakeProfiles(names: seq<string>, uuid: nat -> string): (r: seq<DogProfile>)
    ensures |r| == |names|
    ensures forall i :: 0 <= i < |r| ==> r[i].name == names[i] && r[i].id == uuid(i)
  {
    seq(|names|, i requires 0 <= i < |names| => DogProfile(uuid(i), names[i]))
  }

  function Names(dogs: seq<DogProfile>): (r: seq<string>)
    ensures |r| == |dogs| && forall i :: 0 <= i < |r| ==> r[i] == dogs[i].name
  {
    seq(|dogs|, i requires 0 <= i < |dogs| => dogs[i].name)
  }

  /** What a save stores for the editor's fields. */
  function SavedProfiles(names: seq<string>, uuid: nat -> string): seq<DogProfile> {
    MakeProfiles(NormalizedNames(names), uuid)
  }

  /** Reading the profile back after a save gives the normalised names, in
      order, and none of the previous dogs' ids when the UUIDs are new. */
  lemma SaveThenReload(docs: Docs, uid: string, names: seq<string>, uuid: nat -> string, now: int)
    requires UserPath(uid) in docs
    ensures var after := ApplyBatch(docs, [UpdateDoc(UserPath(uid), Dogs.SetDogsOps(SavedProfiles(names, uuid)))], now);
            && after.Some?
            && Names(Dogs.DogsOf(Lookup(after.value, UserPath(uid)))) == NormalizedNames(names)
  {
    var ds := SavedProfiles(names, uuid);
    Dogs.SetThenLoad(docs, uid, ds, now);
  }

  /** Ids are never carried over: with UUIDs unlike every previous id, no
      saved dog keeps the id of a dog it replaces, even one of the same name. */
  lemma SaveReplacesIds(previous: seq<DogProfile>, names: seq<string>, uuid: nat -> string)
    requires forall i: nat, d :: d in previous ==> uuid(i) != d.id
    ensures forall d, e :: d in SavedProfiles(names, uuid) && e in previous ==> d.id != e.id
  {
    var saved := SavedProfiles(names, uuid);
    forall d, e | d in saved && e in previous ensures d.id != e.id {
      var i :| 0 <= i < |saved| && saved[i] == d;
      assert d.id == uuid(i);
    }
  }

  /** What `setDogs(profiles)` leaves behind, from the store and the
      repository's list before it: when the signed-in user's profile exists
      and the store is reachable, the profile's `dogs` array and the list
      both become `profiles`; otherwise neither changes. */
  ghost predicate SetDogsOutcome(currentUser: Option<string>, reachable: bool, profiles: seq<DogProfile>,
                                 docs0: Docs, clock0: int, dogs0: seq<DogProfile>, docs1: Docs, dogs1: seq<DogProfile>)
  {
    var done := currentUser.Some? && reachable && UserPath(currentUser.value) in docs0;
    && (done ==> dogs1 == profiles)
    && (done ==> var path := UserPath(currentUser.value);
                 docs1 == docs0[path := ApplyOps(docs0[path], Dogs.SetDogsOps(profiles), clock0)])
    && (!done ==> dogs1 == dogs0 && docs1 == docs0)
  }

  /** The order the setup screen's save goes through. */
  datatype Step = SavingStarted | DogsSet | SavingEnded | Completed

  /** Appending the steps one at a time gives the four steps in order.
      Kept apart from `DogSetupScreen.Save` so that the sequence equality is
      proved without Save's frame conditions in scope, which keeps Save's
      proof small. */
  lemma StepsInOrder(log: seq<Step>)
    ensures log + [SavingStarted] + [DogsSet] + [SavingEnded] + [Completed]
         == log + [SavingStarted, DogsSet, SavingEnded, Completed]
  {
  }

  // ------------------------------------------------------------------
  // DogProfilesView
  // ------------------------------------------------------------------

  class DogProfilesScreen {
    const repo: Dogs.DogsRepository
    var dogNames: seq<string>
    var isSaving: bool
    var dismissed: bool

    constructor (repo: Dogs.DogsRepository)
      ensures this.repo == repo && dogNames == [] && !isSaving && !dismissed
    {
      this.repo := repo;
      dogNames := [];
      isSaving := false;
      dismissed := false;
    }

    /** There is always at least one field once the screen has appeared. */
    predicate HasField()
      reads this
    {
      |dogNames| >= 1
    }

    /** On appear: the current dogs' names in order, or one empty field. */
    method OnAppear()
      modifies this
      ensures HasField()
      ensures repo.dogs != [] ==> dogNames == Names(repo.dogs)
      ensures repo.dogs == [] ==> dogNames == [""]
      ensures isSaving == old(isSaving) && dismissed == old(dismissed)
    {
      dogNames := Names(repo.dogs);
      if dogNames == [] {
        dogNames := [""];
      }
    }

    /** The minus button, shown only when there are two fields or more. */
    method Remove(idx: nat)
      requires |dogNames| > 1 && idx < |dogNames|
      modifies this
      ensures dogNames == old(dogNames[..idx] + dogNames[idx + 1..])
      ensures HasField()
      ensures isSaving == old(isSaving) && dismissed == old(dismissed)
    {
      dogNames := dogNames[..idx] + dogNames[idx + 1..];
    }

    /** "Add Another Dog": a new empty field at the end. */
    method Add()
      modifies this
      ensures dogNames == old(dogNames) + [""]
      ensures old(HasField()) ==> HasField()
      ensures isSaving == old(isSaving) && dismissed == old(dismissed)
    {
      dogNames := dogNames + [""];
    }

    /** "Save" (offered while not saving and enabled only when some name is
        non-blank): stores the normalised names with new ids through the
        repository, then ends saving and dismisses whether or not the store
        took the write. */
    method Save(currentUser: Option<string>, uuid: nat -> string, reachable: bool)
      requires !isSaving && !SaveDisabled(dogNames)
      modifies this, repo, repo.db
      ensures !isSaving && dismissed && dogNames == old(dogNames)
      ensures |SavedProfiles(old(dogNames), uuid)| >= 1
      ensures SetDogsOutcome(currentUser, reachable, SavedProfiles(old(dogNames), uuid),
                             old(repo.db.docs), old(repo.db.clock), old(repo.dogs), repo.db.docs, repo.dogs)
    {
      var profiles := SavedProfiles(dogNames, uuid);
      assert |profiles| >= 1;
      isSaving := true;
      ghost var docs0, clock0, dogs0 := repo.db.docs, repo.db.clock, repo.dogs;
      repo.SetDogs(currentUser, profiles, reachable);
      assert SetDogsOutcome(currentUser, reachable, profiles, docs0, clock0, dogs0, repo.db.docs, repo.dogs);
      isSaving := false;
      dismissed := true;
    }
  }

  // ------------------------------------------------------------------
  // DogSetupView
  // ------------------------------------------------------------------

  class DogSetupScreen {
    const repo: Dogs.DogsRepository
    var dogNames: seq<string>
    var isSaving: bool
    /** What the save has done so far, in order; `Completed` is the call of
        `onComplete`. */
    var steps: seq<Step>

    constructor (repo: Dogs.DogsRepository)
      ensures this.repo == repo && dogNames == [""] && !isSaving && steps == []
    {
      this.repo := repo;
      dogNames := [""];
      isSaving := false;
      steps := [];
    }

    /** "Add Another Dog": a new empty field at the end. */
    method Add()
      modifies this
      ensures dogNames == old(dogNames) + [""]
      ensures isSaving == old(isSaving) && steps == old(steps)
    {
      dogNames := dogNames + [""];
    }

    /** "Save" (offered while not saving and enabled only when some name is
        non-blank): stores the normalised names with new ids, and calls
        `onComplete` only once `setDogs` has returned and saving has ended. */
    method Save(currentUser: Option<string>, uuid: nat -> string, reachable: bool)
      requires !isSaving && !SaveDisabled(dogNames)
      modifies this, repo, repo.db
      ensures !isSaving && dogNames == old(dogNames)
      ensures steps == old(steps) + [SavingStarted, DogsSet, SavingEnded, Completed]
      ensures |SavedProfiles(old(dogNames), uuid)| >= 1
      ensures SetDogsOutcome(currentUser, reachable, SavedProfiles(old(dogNames), uuid),
                             old(repo.db.docs), old(repo.db.clock), old(repo.dogs), repo.db.docs, repo.dogs)
    {
      var profiles := SavedProfiles(dogNames, uuid);
      assert |profiles| >= 1;
      ghost var docs0, clock0, dogs0 := repo.db.docs, repo.db.clock, repo.dogs;
      var log := steps;
      StepsInOrder(log);
      isSaving := true;
      log := log + [SavingStarted];
      repo.SetDogs(currentUser, profiles, reachable);
      assert SetDogsOutcome(currentUser, reachable, profiles, docs0, clock0, dogs0, repo.db.docs, repo.dogs);
      log := log + [DogsSet];
      isSaving := false;
      log := log + [SavingEnded];
      // onComplete()
      log := log + [Completed];
      steps := log;
    }
  }
}
