/** The app's plain records and where their documents live in the store. */
module Records {
  import opened Common
  import opened Store

  /** A park review; `timestamp` is the review's date, in seconds. */
  datatype Rating = Rating(id: string, parkID: string, userID: string, stars: int, comment: string, timestamp: int)

  /** One directed connection edge as the owner `userID` sees it. */
  datatype Connection = Connection(id: string, userID: string, friendID: string, createdAt: int)

  datatype DogProfile = DogProfile(id: string, name: string)

  /** A park record; the coordinate is kept as its two components. */
  datatype DogPark = DogPark(
    id: string,
    name: string,
    city: string,
    latitude: real,
    longitude: real,
    hasFreeWater: bool,
    offLeashAreaSqM: real,
    photoURLs: seq<string>)

  /** The signed-in account as the identity provider reports it. */
  datatype User = User(uid: string, isAnonymous: bool, email: Option<string>, displayName: Option<string>)

  /** `users/{uid}` */
  function UserPath(uid: string): Path {
    ["users", uid]
  }

  /** `users/{uid}/dogs` */
  function DogsCollection(uid: string): Path {
    ["users", uid, "dogs"]
  }

  /** `connections/{owner}/peers` */
  function PeersCollection(owner: string): Path {
    ["connections", owner, "peers"]
  }

  /** `connections/{owner}/peers/{peer}` */
  function EdgePath(owner: string, peer: string): Path {
    Child(PeersCollection(owner), peer)
  }

  /** An id the store reads as one document name: non-empty and free of
      '/', so that `EdgePath` names exactly one document. */
  predicate PlainDocId(id: string) {
    id != "" && '/' !in id
  }

  const RatingsCollection: Path := ["ratings"]
  const ParksCollection: Path := ["parks"]
}
