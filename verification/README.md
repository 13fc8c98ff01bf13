# PawPark in Dafny

PawPark is an iOS app for dog owners. It lists the dog parks stored in a
Firestore collection, filters them by city and sorts them by name, keeps each
user's favourite parks and dogs in the `users/{uid}` profile document, stores
park reviews in a `ratings` collection, and pairs users by QR code.
A pairing is a mutual connection written as two edge documents
`connections/{a}/peers/{b}` and `connections/{b}/peers/{a}`.

This project models the app's repositories, its authentication view model, the
`DogPark` ordering and the logic of the screens that drive them. It proves
what each one does to the stored documents and to the screen state.

- `common.dfy` (`Common`) holds the shared pieces: `Option` and `Result`, a
  `FilterMap` of decoders with lemmas that relate a decoded list to its
  snapshot, Foundation's `trimmingCharacters(in:)` for the `.whitespaces` and
  `.whitespacesAndNewlines` sets, ASCII case-insensitive comparison, and the
  lexicographic order on strings.
- `store.dfy` (`Store`) is the document store. It models the documents, the
  typed field reads, the field operations (set, server timestamp, array union,
  array remove), all-or-nothing batched writes and a sorted query. The
  `Firestore` class holds the documents and the clock that server timestamps
  read.
- `records.dfy` (`Records`) holds the app's value types (`Rating`,
  `Connection`, `DogProfile`, `DogPark`, `User`) and the document paths they
  live at.
- `connections.dfy`, `favorites.dfy`, `dogs.dfy`, `ratings.dfy` and
  `parks.dfy` each model one repository as a class over the store.
- `auth.dfy` models the auth state listener, which bootstraps the profile
  document, and `updateDisplayName`.
- `dogpark.dfy` models `DogPark`'s `==`, `<` and `hash(into:)`.
- `nonce.dfy` models `randomNonceString`, a loop that draws rejection-sampled
  random bytes.
- `home.dfy`, `connections_list.dfy`, `parks_list.dfy`, `dog_editor.dfy`,
  `park_detail.dfy`, `email_auth.dfy` and `account_settings.dfy` model the
  screens: their state as class fields and their actions as methods.

Whatever lies outside the program is a parameter: whether the network
reaches the store, who is signed in, the outcome of a Firebase Auth call, the
UUIDs, store auto IDs, random bytes, the clock and the hour of the day.
An `async` action that awaits a repository call is modelled as running to the
end, one step after the other.

Behaviours of the code worth knowing:
- `loadConnections` with nobody signed in leaves the list as it was; it does
  not clear it.
- Stars are never range-checked: the `// 1…5` note on the field
  (PawPark/Rating.swift:15) is not enforced, so a review's stars are any
  integer, and the star row clamps only when it is drawn.
- `setDogs` stores whatever list it is given. Blank names are dropped by the
  two dog editor screens before the call, not by the repository.
- A review's `timestamp` is the client's date passed in by the caller, not a
  server timestamp.
- `loadFavorites` keeps the old favourites when the read fails, while
  `loadDogs` clears the dogs.

## Model

| member | source | states |
|---|---|---|
| Common.Trimming | PawPark/DogProfilesView.swift:69 | The trimmed string is empty exactly when every character is in the set; otherwise it neither starts nor ends with a character of the set |
| Common.TrimmingKeepsMiddle | PawPark/DogProfilesView.swift:69 | The trimmed string is a slice `s[i..j]` of the input with only set characters before `i` and from `j` on; with `Trimming`'s own contract (no set character at either end of a non-empty result), exactly the leading and trailing set characters are removed |
| Common.JoinSnoc | PawPark/HomeView.swift:243-244 | `joined(separator:)` with one more string appends the separator and that string, which with the one-string case fixes the joined text of every list |
| Common.TrimmingIdempotent | PawPark/DogProfilesView.swift:69 | Trimming a trimmed string changes nothing |
| Common.LexLessStrictTotal | PawPark/ParksListView.swift:22 | The name order used by the park list is irreflexive, transitive and total on distinct strings |
| Store.UnionInto | PawPark/FavoritesRepository.swift:62 | `arrayUnion`: the array afterwards holds exactly the old items plus the added elements |
| Store.RemoveAll | PawPark/FavoritesRepository.swift:58 | `arrayRemove`: the array afterwards holds exactly the old items that are not among the removed elements |
| Store.ApplyOps | PawPark/AuthViewModel.swift:90-97 | A merge write keeps every field it does not name and sets each named field from its operation |
| Store.ApplyBatch | PawPark/ConnectionsRepository.swift:53-71 | Only an update of a missing document can make a batch fail; documents the batch does not name are unchanged |
| Store.InsertDoc | PawPark/ConnectionsRepository.swift:25-30 | Inserting adds exactly that document to the result |
| Store.InsertDocSorted | PawPark/ConnectionsRepository.swift:29 | Inserting a new document into an ordered result keeps it in query order |
| Store.Firestore.Commit | PawPark/ConnectionsRepository.swift:71 | A commit succeeds exactly when the store is reachable and the batch applies; it then stores the whole batch at one time, otherwise nothing changes |
| Store.Firestore.GetDocument | PawPark/FavoritesRepository.swift:37 | A read returns the document at the path, or fails when the store cannot be reached |
| Store.Firestore.Query | PawPark/ConnectionsRepository.swift:25-30 | A query returns exactly the collection's documents that pass the filter, in the requested order |
| Store.SortedSameDocs | PawPark/ConnectionsRepository.swift:25-30 | Two sequences in query order holding the same documents are equal: the order leaves no freedom |
| Store.QueryResultUnique | PawPark/ConnectionsRepository.swift:25-30 | A query has one answer: two results of the same query over the same documents are the same sequence |
| Connections.ListingOfSnapshot | PawPark/ConnectionsRepository.swift:25-45 | The decoded connections are exactly the peers with a well-formed edge document, oldest first |
| Connections.EdgePathInjective | PawPark/ConnectionsRepository.swift:56-68 | Distinct owner and peer pairs give distinct edge documents |
| Connections.PairingWritesTwoEdges | PawPark/ConnectionsRepository.swift:53-71 | Pairing writes the two edge documents with the peer id and the commit time, and nothing else |
| Connections.EdgeDocDecodes | PawPark/ConnectionsRepository.swift:32-45 | An edge document written by pairing decodes back to that peer and time |
| Connections.PairingConnectsBothWays | PawPark/ConnectionsRepository.swift:51-71 | After pairing, each of the two users lists the other as a connection |
| Connections.PairingPreservesSymmetry | PawPark/ConnectionsRepository.swift:51-71 | If every edge had its reverse before pairing, it still does after |
| Connections.PairingIdempotent | PawPark/ConnectionsRepository.swift:56-69 | Pairing the same users again adds no document; it rewrites only the two edges, with the later time |
| Connections.SelfPairingLeavesOneEdge | PawPark/ConnectionsRepository.swift:51-69 | Pairing a user with themself writes one edge document, not two |
| Connections.ConnectionsRepository.LoadConnections | PawPark/ConnectionsRepository.swift:22-49 | With a user and a reachable store the list is that user's connection listing; otherwise it is unchanged |
| Connections.ConnectionsRepository.AddMutualConnection | PawPark/ConnectionsRepository.swift:51-72 | With a user and a reachable store both edges are written; otherwise the store is unchanged |
| Favorites.FavoritesOf | PawPark/FavoritesRepository.swift:36-42 | The cached favourites are exactly the entries of the profile's array when it holds only strings; a missing profile, a missing field or any other shape gives none |
| Favorites.Toggled | PawPark/FavoritesRepository.swift:55-63 | Toggling flips the park's membership and leaves every other park as it was |
| Favorites.ToggleTwiceRestores | PawPark/FavoritesRepository.swift:55-63 | Toggling the same park twice restores the set |
| Favorites.ToggleKeepsCacheCoherent | PawPark/FavoritesRepository.swift:52-64 | On an array of strings, the stored array after the write decodes to the toggled cache |
| Favorites.ToggledArray | PawPark/FavoritesRepository.swift:52-64 | After `arrayRemove([p])` the stored array's strings are the old ones without `p`, after `arrayUnion([p])` the old ones and `p`, and the array stays all strings |
| Favorites.ToggleOnMixedArrayDiverges | PawPark/FavoritesRepository.swift:38-63 | When the array holds a non-string entry, the cache gains the park while the stored array still decodes to no favourites |
| Favorites.FavoritesRepository.LoadFavorites | PawPark/FavoritesRepository.swift:30-46 | No user clears the favourites; a failed read keeps them; otherwise they are those of the profile |
| Favorites.FavoritesRepository.IsFavorite | PawPark/FavoritesRepository.swift:48-50 | True exactly when the park is in the cached favourites |
| Favorites.FavoritesRepository.ToggleFavorite | PawPark/FavoritesRepository.swift:52-68 | When the write goes through, the cache and the stored array both flip the park; on failure neither changes |
| Dogs.DogsOf | PawPark/DogsRepository.swift:37-46 | The dogs are exactly the decoded well-formed entries of the profile's `dogs` array, in stored order and with repeats (the `compactMap` over the array); every well-formed entry appears and nothing else; a missing profile or array gives none |
| Dogs.DecodeEncoded | PawPark/DogsRepository.swift:37-57 | Decoding the encoded entries of a dog list gives back that list |
| Dogs.DogsRoundTrip | PawPark/DogsRepository.swift:54-60 | Whatever the profile held before, after `setDogs` it decodes to exactly the dogs written |
| Dogs.SetThenLoad | PawPark/DogsRepository.swift:29-60 | Setting the dogs on an existing profile and loading them gives the same list |
| Dogs.SetDogsLeavesSubcollection | PawPark/DogsRepository.swift:54-60 | `setDogs` writes only the profile document; the `users/{uid}/dogs` subcollection is unchanged |
| Dogs.DogsRepository.LoadDogs | PawPark/DogsRepository.swift:29-51 | No user or a failed read clears the dogs; otherwise they are the profile's dogs |
| Dogs.DogsRepository.SetDogs | PawPark/DogsRepository.swift:54-64 | When the update reaches an existing profile the store and the cache both hold the new list; otherwise neither changes |
| Ratings.ListingOfSnapshot | PawPark/RatingService.swift:31-57 | The fetched reviews are exactly the park's well-formed rating documents, newest first, with the store's key as id |
| Ratings.StoredRatingRoundTrip | PawPark/RatingService.swift:17-55 | A rating written by `addRating` decodes back to it under the store's key |
| Ratings.AddedRatingIsListed | PawPark/RatingService.swift:17-57 | After `addRating`, fetching the park's reviews lists the new rating |
| Ratings.AddRating | PawPark/RatingService.swift:17-28 | On a reachable store a new document under a fresh key holds the rating's fields; otherwise nothing changes |
| Ratings.FetchRatings | PawPark/RatingService.swift:31-57 | On a reachable store the result is the park's listing; otherwise an error |
| Parks.DecodePark | PawPark/ParkRepository.swift:22-48 | A park document decodes exactly when it has every required field, and the park carries those fields |
| Parks.PhotoURLsNeverDrop | PawPark/ParkRepository.swift:38 | A missing or malformed `photoURLs` field never drops a park; it gives no photos |
| Parks.ListingOfSnapshot | PawPark/ParkRepository.swift:15-49 | The loaded parks are exactly the decodable documents of `parks`, each decoded from its own document, in key order |
| Parks.ParkRepository.LoadParks | PawPark/ParkRepository.swift:15-53 | On a reachable store the parks are that listing; otherwise they are unchanged |
| Auth.Bootstrapped | PawPark/AuthViewModel.swift:29-46 | After the listener the profile exists; an existing profile is untouched, and no other document changes |
| Auth.BootstrapIdempotent | PawPark/AuthViewModel.swift:36-46 | Running the bootstrap twice is the same as once |
| Auth.NewProfileContents | PawPark/AuthViewModel.swift:39-46 | A new profile records the anonymity, the email and name (null when absent) and the creation time, and holds no favourites and no dogs |
| Auth.RenameKeepsProfile | PawPark/AuthViewModel.swift:88-97 | Renaming sets the display name and the update time and keeps every other profile field |
| Auth.AuthViewModel.OnAuthStateChanged | PawPark/AuthViewModel.swift:22-53 | The user and guest flag follow the new user; the profile is created when it is missing and the store is reachable |
| Auth.AuthViewModel.UpdateDisplayName | PawPark/AuthViewModel.swift:79-98 | With nobody signed in it fails with "Not signed in"; it succeeds exactly when the auth change and the merge go through, and the name is then stored |
| ParkOrdering.EqualIsEquivalence | PawPark/DogPark.swift:21-25 | Equality by area is reflexive, symmetric and transitive |
| ParkOrdering.Trichotomy | PawPark/DogPark.swift:21-32 | Exactly one of less, equal or greater holds, and less is transitive |
| ParkOrdering.EqualityIgnoresIdentity | PawPark/DogPark.swift:21-25 | Two parks of the same area are equal whatever their ids, names and cities |
| ParkOrdering.HashDisagreesWithEquality | PawPark/DogPark.swift:21-38 | Two parks that compare equal hash by different ids |
| ParkOrdering.ConsistentHashAgrees | PawPark/DogPark.swift:34-38 | Hashing by area gives equal parks equal hash keys |
| Nonce.CharsetShape | PawPark/NonceHelper.swift:13-15 | The charset has 64 characters and no `W` |
| Nonce.Accepted | PawPark/NonceHelper.swift:21-27 | Only bytes below the charset size are accepted, each mapped to a charset character |
| Nonce.AcceptedAppend | PawPark/NonceHelper.swift:19-28 | Accepting two runs of bytes is accepting each run in turn |
| Nonce.TakeBatch | PawPark/NonceHelper.swift:20-27 | One round appends the accepted characters of the batch, stopping when none remain to draw |
| Nonce.TakeStep | PawPark/NonceHelper.swift:20-27 | One more byte adds its character exactly when characters are still wanted and the byte is accepted |
| Nonce.RandomNonceString | PawPark/NonceHelper.swift:11-30 | The nonce has the requested length and is the first accepted characters of the drawn bytes |
| Home.JoinNames | PawPark/HomeView.swift:234-246 | No names give ""; one name is itself; two are "A and B"; three or more are all but the last joined with ", ", then ", and " and the last; the result starts with the first name and ends with the last |
| Home.JoinNamesExtend | PawPark/HomeView.swift:242-244 | Adding a name to three or more turns the old ", and " before the last into ", " and puts ", and " before the new name |
| Home.JoinNamesTwoToThree | PawPark/HomeView.swift:240-244 | Two names read "A and B", and a third makes them "A, B, and C" |
| Home.GreetingPrefix | PawPark/HomeView.swift:252-258 | Morning exactly from 5 to 11, afternoon from 12 to 16, evening otherwise |
| Home.FirstWord | PawPark/HomeView.swift:271 | For a name with a non-space character, a non-empty space-free word that stands after nothing but spaces and is followed by a space or the end; a name of only spaces, or without any, is returned whole |
| Home.FirstWordUnique | PawPark/HomeView.swift:271 | Any word meeting that description is the first word, so the description fixes it |
| Home.Greeting | PawPark/HomeView.swift:249-276 | The prefix followed by the dogs' names; else by the first name of a non-guest; else the prefix alone |
| Home.GreetingIgnoresNameWithDogs | PawPark/HomeView.swift:261-264 | With dogs, the user's name and guest flag do not affect the greeting |
| Home.FavoriteParks | PawPark/HomeView.swift:85 | Exactly the parks whose id is a favourite, in order |
| Home.FavoriteParksAppend | PawPark/HomeView.swift:85 | Filtering distributes over concatenated park lists |
| Home.SetupKeyInjective | PawPark/HomeView.swift:101 | Distinct users get distinct "didShowDogSetup" keys |
| Home.PromptAtMostOnce | PawPark/HomeView.swift:99-106 | Once the key is set, the dog setup is not offered to that user again |
| Home.PromptPerUser | PawPark/HomeView.swift:99-106 | Setting one user's key does not change whether another user is prompted |
| Home.HomeScreen.OnDragEnded | PawPark/HomeView.swift:215-221 | Dragging up past 50 points expands the sheet, down past 50 collapses it, less leaves it |
| Home.HomeScreen.PromptDogSetup | PawPark/HomeView.swift:98-107 | A signed-in user without dogs whose key is unset gets the prompt and the key; otherwise nothing changes |
| ConnectionsList.ConnectionsScreen.OpenScanner | PawPark/ConnectionsListView.swift:61-62 | The scanner opens and nothing else changes |
| ConnectionsList.ConnectionsScreen.OnScanned | PawPark/ConnectionsListView.swift:107-116 | The scanned id is kept, the scanner closes and the confirmation alert opens |
| ConnectionsList.ConnectionsScreen.Cancel | PawPark/ConnectionsListView.swift:103 | The alert closes and nothing else changes |
| ConnectionsList.ConnectionsScreen.ConfirmYes | PawPark/ConnectionsListView.swift:95-102 | Pairs with the scanned user and reloads; when both steps reach the store, the scanned user is among the connections |
| ConnectionsList.DisplayNameOf | PawPark/ConnectionsListView.swift:156-160 | The profile's string display name, or empty when the document or the field is missing |
| ConnectionsList.DogNamesOfSnapshot | PawPark/ConnectionsListView.swift:163-168 | The names taken from a query result of `users/{uid}/dogs` are exactly the string `name` fields stored there |
| ConnectionsList.DogNameListingMembers | PawPark/ConnectionsListView.swift:163-168 | A dog listing (the `name` strings of the subcollection's query result, in key order, skipping documents without one) holds exactly the stored dogs' names |
| ConnectionsList.DogNameListingUnique | PawPark/ConnectionsListView.swift:163-168 | The stored documents fix the dog listing completely, order and repeated names included |
| ConnectionsList.RowMissesSavedDogs | PawPark/ConnectionsListView.swift:163-168 | After `setDogs`, a friend's row still lists no dogs while the profile holds them |
| ConnectionsList.RowTitle | PawPark/ConnectionsListView.swift:133 | The row shows the name, or the friend's id while the name is empty |
| ConnectionsList.DogLine | PawPark/ConnectionsListView.swift:135-139 | A dog line is shown exactly when there are dogs; it joins their names with `Home.JoinNames`, which is the row's identical `joinNames` (lines 177-186) |
| ConnectionsList.ConnectionRow.constructor | PawPark/ConnectionsListView.swift:121-125 | A row starts with no name, no dogs and loading |
| ConnectionsList.ConnectionRow.FetchProfile | PawPark/ConnectionsListView.swift:153-174 | Loading ends; the name is the profile's display name (or ""), the dogs are the dog listing of the peer's subcollection, which fixes their order and repeats; a failed read keeps what it would have replaced and skips the rest |
| ParksList.CityFilter | PawPark/ParksListView.swift:21 | Exactly the parks whose city matches ignoring case, a sub-multiset of the input |
| ParksList.SortByName | PawPark/ParksListView.swift:22 | Sorted ascending by name and a permutation of the input |
| ParksList.FilterCity | PawPark/ParksListView.swift:18-30 | The search text if any, else a non-empty default city, else no filter |
| ParksList.DisplayedParks | PawPark/ParksListView.swift:16-31 | Sorted by name, and as a multiset exactly the parks of the chosen city, or all parks |
| ParksList.CityFilterIgnoresCase | PawPark/ParksListView.swift:21 | Cities that differ only in letter case filter alike |
| ParksList.SearchIgnoresCase | PawPark/ParksListView.swift:18-22 | Searches that differ only in letter case show the same list |
| ParksList.Title | PawPark/ParksListView.swift:51-55 | "Parks in " followed by the search text, else the default city, else "Your City" |
| ParksList.EmptyDefaultCityTitle | PawPark/ParksListView.swift:23-55 | With an empty default city the title names no city while the list shows every park |
| DogEditor.NormalizedNames | PawPark/DogProfilesView.swift:68-70 | No longer than the input, and empty exactly when every name is blank |
| DogEditor.NormalizedMembership | PawPark/DogProfilesView.swift:68-70 | A name is kept exactly when it is the non-empty trim of some entered name |
| DogEditor.NormalizedAppend | PawPark/DogProfilesView.swift:68-70 | Normalising distributes over concatenated lists, so order is kept |
| DogEditor.NormalizedIdempotent | PawPark/DogProfilesView.swift:68-70 | Normalising normalised names changes nothing |
| DogEditor.SaveDisabled | PawPark/DogProfilesView.swift:82 | Save is disabled exactly when normalising would leave no dogs |
| DogEditor.MakeProfiles | PawPark/DogProfilesView.swift:71 | One profile per name, in order, each with its own new id |
| DogEditor.Names | PawPark/DogProfilesView.swift:93 | The names of the dogs, in order |
| DogEditor.SaveThenReload | PawPark/DogProfilesView.swift:68-72 | After saving, the reloaded dog names are the normalised entered names |
| DogEditor.SaveReplacesIds | PawPark/DogProfilesView.swift:71 | Saved dogs never keep an earlier dog's id |
| DogEditor.DogProfilesScreen.OnAppear | PawPark/DogProfilesView.swift:92-95 | The fields are the cached dogs' names, or one empty field when there are none |
| DogEditor.DogProfilesScreen.Remove | PawPark/DogProfilesView.swift:34-36 | Removes exactly the chosen field, and at least one field remains |
| DogEditor.DogProfilesScreen.Add | PawPark/DogProfilesView.swift:46-47 | Appends one empty field |
| DogEditor.DogProfilesScreen.Save | PawPark/DogProfilesView.swift:66-75 | Stores the normalised names under new ids when the update goes through, then ends saving and dismisses |
| DogEditor.DogSetupScreen.constructor | PawPark/DogSetupView.swift:14-15 | The setup starts with one empty field, not saving |
| DogEditor.DogSetupScreen.Add | PawPark/DogSetupView.swift:24-26 | Appends one empty field |
| DogEditor.DogSetupScreen.Save | PawPark/DogSetupView.swift:32-43 | Stores the normalised names, then ends saving and completes, in that order |
| ParkDetail.SubmitEnabled | PawPark/ParkDetailView.swift:146 | Submit is enabled exactly when not submitting and the comment has a character other than a space or tab |
| ParkDetail.StoredComment | PawPark/ParkDetailView.swift:206 | The stored comment is empty exactly when the comment is all whitespace and newlines |
| ParkDetail.NewlineOnlyCommentStoredEmpty | PawPark/ParkDetailView.swift:146-206 | A comment of spaces and line breaks can be submitted and is stored empty |
| ParkDetail.StarRow | PawPark/ParkDetailView.swift:101-103 | Five stars, star i filled exactly when i is below the rating |
| ParkDetail.FilledStars | PawPark/ParkDetailView.swift:101-103 | The number of filled stars is the rating clamped to 0..5 |
| ParkDetail.ParkDetailScreen.constructor | PawPark/ParkDetailView.swift:17-21 | The form starts at three stars, an empty comment, no reviews and no error |
| ParkDetail.ParkDetailScreen.FetchReviews | PawPark/ParkDetailView.swift:188-195 | The reviews become the park's listing, or the load error is set and they stay |
| ParkDetail.ParkDetailScreen.BeginSubmit | PawPark/ParkDetailView.swift:197-208 | With no user nothing happens; otherwise submitting starts and the review is built from the form |
| ParkDetail.ParkDetailScreen.FinishSubmit | PawPark/ParkDetailView.swift:209-220 | On success the review is stored and shown first and the form resets; on failure only the error is set |
| ParkDetail.ShownAndStoredIdsDiffer | PawPark/ParkDetailView.swift:201-212 | The next load lists the stored copy under the store's auto ID, and that copy differs from the review shown after submitting |
| ParkDetail.ShownReviewNotListed | PawPark/ParkDetailView.swift:201-212 | When no stored review has the shown review's UUID as its key, the next load lists neither the shown review nor its id |
| EmailAuth.FormIsValid | PawPark/EmailAuthView.swift:110-114 | Both fields are non-empty and, when signing up, the confirmation matches |
| EmailAuth.SignInIgnoresConfirmation | PawPark/EmailAuthView.swift:110-114 | Signing in never depends on the confirmation field |
| EmailAuth.SignUpIsStricter | PawPark/EmailAuthView.swift:110-114 | A form valid for signing up is valid for signing in |
| EmailAuth.EmailAuthScreen.HandleAuth | PawPark/EmailAuthView.swift:116-133 | Success dismisses on sign-in and opens the dog setup on sign-up; failure shows the error message |
| EmailAuth.EmailAuthScreen.OnDogSetupComplete | PawPark/EmailAuthView.swift:100-104 | The setup sheet closes and the screen dismisses |
| AccountSettings.SaveEnabled | PawPark/AccountSettingsView.swift:49 | Save is enabled exactly when the trimmed name is non-empty |
| AccountSettings.AccountSettingsScreen.OnAppear | PawPark/AccountSettingsView.swift:22-24 | The field starts as the user's display name, or empty |
| AccountSettings.AccountSettingsScreen.Save | PawPark/AccountSettingsView.swift:32-41 | When the update goes through, the store is the old one with the profile merged with the trimmed, non-empty name and the update time (other fields kept); otherwise the store is unchanged; saving ends either way |

## Left out

- Concurrency: listeners, `Task`s and `@MainActor` are not modelled. Each awaited action runs to its end before the next one starts.
- The Firebase SDK's own behaviour beyond the documents: offline caching, listeners, security rules and retries.
- Query ordering across values of different types: ordered fields are compared as timestamps only, and documents without the field are left out, as the store does.
- `Date` is an integer number of seconds. `NSNumber` bridging of doubles and integers is reduced to the two value kinds the decoders accept.
- Floating point: park coordinates and areas are reals, with no NaN or rounding.
- `sha256` of the nonce, the Apple and Google sign-in flows, sign-out and guest sign-in are not part of this model. Their outcomes are parameters.
- The Firebase Auth side of `updateDisplayName`, `createProfileChangeRequest`, is a boolean parameter: whether it commits.
- `sortedParks`, the distance sort on `HomeView`, the map view, location services, QR generation and scanning, and all layout are left out.
- `HomeView`'s random visit counts (`Int.random`) are left out.
- Nonce.RandomNonceString: requires enough accepted bytes among the drawn batches to finish. The source draws until it has enough, which is not guaranteed to terminate.
- Ratings.AddRating: requires a key not yet used in `ratings`. The store guarantees fresh auto IDs, and the model takes that as given.
- ConnectionsList.ConnectionsScreen.ConfirmYes: requires a scanned id. The alert only presents itself with one.
- ConnectionsList.ConnectionsScreen.ConfirmYes: requires, with a user signed in, that the scanned code is a plain document id (non-empty, no '/'). The scanner passes on any QR text; on "" or a code with "//" or an odd number of '/' the store's `document(_:)` call crashes, and a code such as "a/b/c" writes nested documents. Document paths here are one segment per id, so neither outcome is modelled.
- Connections.ConnectionsRepository.AddMutualConnection: requires, with a user signed in, that `otherUID` is a plain document id (non-empty, no '/'), for the same reason: the crash or nested write that `document(otherUID)` makes of any other string is not modelled.
- ParkDetail.ParkDetailScreen.BeginSubmit: `submitReview` is split in two at its `Task`. `FinishSubmit` is the task's half.
- ParksList.SortByName: names are compared by character code, not by Swift's Unicode-aware `String` ordering. Equal names keep their input order, whereas Swift's `sorted` does not promise a stable order.
- ParksList.CityFilter: case is folded only for ASCII letters, not by Unicode case folding.

## Findings

| source | as written | input that shows it | evidently intended | confidence | as-written member | corrected member |
|---|---|---|---|---|---|---|
| PawPark/DogPark.swift:34-37 | `==` compares areas but `hash(into:)` hashes the id | two parks "a" and "b" with area 500.0 are equal yet hash differently | equal parks hash alike, so hash the same key `==` compares | not executed | ParkOrdering.HashDisagreesWithEquality | ParkOrdering.ConsistentHashAgrees |
