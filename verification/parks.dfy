/** ParkRepository: the park catalogue, every document of the `parks`
    collection that decodes. */
module Parks {
  import opened Common
  import opened Store
  import opened Records

  /** The six fields a park document must hold, with their types. */
  predicate HasRequiredFields(fields: Fields) {
    && StringField(fields, "name").Some?
    && StringField(fields, "city").Some?
    && DoubleField(fields, "latitude").Some?
    && DoubleField(fields, "longitude").Some?
    && BoolField(fields, "hasFreeWater").Some?
    && DoubleField(fields, "offLeashAreaSqM").Some?
  }

  /** The compactMap closure of `loadParks`: a park exactly when the six
      required fields are present and well typed; the key becomes the id, the
      fields are copied, and `photoURLs` defaults to no photos. */
  function DecodePark(doc: Doc): (r: Option<DogPark>)
    ensures r.Some? <==> HasRequiredFields(doc.fields)
    ensures r.Some? ==>
              && r.value.id == doc.id
              && Some(r.value.name) == StringField(doc.fields, "name")
              && Some(r.value.city) == StringField(doc.fields, "city")
              && Some(r.value.latitude) == DoubleField(doc.fields, "latitude")
              && Some(r.value.longitude) == DoubleField(doc.fields, "longitude")
              && Some(r.value.hasFreeWater) == BoolField(doc.fields, "hasFreeWater")
              && Some(r.value.offLeashAreaSqM) == DoubleField(doc.fields, "offLeashAreaSqM")
              && r.value.photoURLs == StringArrayField(doc.fields, "photoURLs").GetOr([])
  {
    var f := doc.fields;
    var name := StringField(f, "name");
    var city := StringField(f, "city");
    var lat := DoubleField(f, "latitude");
    var lon := DoubleField(f, "longitude");
    var water := BoolField(f, "hasFreeWater");
    var area := DoubleField(f, "offLeashAreaSqM");
    if name.Some? && city.Some? && lat.Some? && lon.Some? && water.Some? && area.Some? then
      Some(DogPark(doc.id, name.value, city.value, lat.value, lon.value, water.value, area.value,
                   StringArrayField(f, "photoURLs").GetOr([])))
    else None
  }

  /** Whatever `photoURLs` holds (nothing, a string array, or anything else),
      it never decides whether a park is kept, and only that one field of the
      park depends on it. */
  lemma PhotoURLsNeverDrop(doc: Doc, photos: Option<Value>)
    ensures var f := if photos.Some? then doc.fields["photoURLs" := photos.value] else doc.fields - {"photoURLs"};
            var other := DecodePark(Doc(doc.id, f));
            && (other.Some? <==> DecodePark(doc).Some?)
            && (other.Some? ==> other.value.(photoURLs := []) == DecodePark(doc).value.(photoURLs := []))
  {
    var f := if photos.Some? then doc.fields["photoURLs" := photos.value] else doc.fields - {"photoURLs"};
    assert forall k :: k != "photoURLs" ==> Field(f, k) == Field(doc.fields, k);
    assert StringField(f, "name") == StringField(doc.fields, "name");
    assert StringField(f, "city") == StringField(doc.fields, "city");
    assert DoubleField(f, "latitude") == DoubleField(doc.fields, "latitude");
    assert DoubleField(f, "longitude") == DoubleField(doc.fields, "longitude");
    assert BoolField(f, "hasFreeWater") == BoolField(doc.fields, "hasFreeWater");
    assert DoubleField(f, "offLeashAreaSqM") == DoubleField(doc.fields, "offLeashAreaSqM");
  }

  function ParkDecoder(): Doc -> Option<DogPark> {
    d => DecodePark(d)
  }

  function ParkIds(ps: seq<DogPark>): set<string> {
    set p | p in ps :: p.id
  }

  /** `ps` is what `loadParks` assigns: exactly the decodable park
      documents, each decoded from its own document, in key order. */
  ghost predicate IsParkListing(docs: Docs, ps: seq<DogPark>) {
    && (forall i, j :: 0 <= i < j < |ps| ==> LexLess(ps[i].id, ps[j].id))
    && (forall p :: p in ps ==>
          Child(ParksCollection, p.id) in docs && DecodePark(Doc(p.id, docs[Child(ParksCollection, p.id)])) == Some(p))
    && (forall id :: Child(ParksCollection, id) in docs && HasRequiredFields(docs[Child(ParksCollection, id)]) ==>
          id in ParkIds(ps))
  }

  lemma ListingOfSnapshot(docs: Docs, snapshot: seq<Doc>)
    requires IsQueryResult(docs, ParksCollection, None, ByKey, snapshot)
    ensures IsParkListing(docs, FilterMap(snapshot, ParkDecoder()))
  {
    var f := ParkDecoder();
    var ps := FilterMap(snapshot, f);
    forall i, j | 0 <= i < j < |ps| ensures LexLess(ps[i].id, ps[j].id) {
      var oi, oj := Origin(snapshot, f, i), Origin(snapshot, f, j);
      OriginMonotone(snapshot, f, i, j);
      assert DocBefore(snapshot[oi], snapshot[oj], ByKey);
    }
    forall p | p in ps
      ensures Child(ParksCollection, p.id) in docs
      ensures DecodePark(Doc(p.id, docs[Child(ParksCollection, p.id)])) == Some(p)
    {
      var k :| 0 <= k < |ps| && ps[k] == p;
      var o := Origin(snapshot, f, k);
      assert snapshot[o] in snapshot;
      assert snapshot[o] == Doc(p.id, docs[Child(ParksCollection, p.id)]);
    }
    forall id | Child(ParksCollection, id) in docs && HasRequiredFields(docs[Child(ParksCollection, id)])
      ensures id in ParkIds(ps)
    {
      assert id in Ids(snapshot);
      var d :| d in snapshot && d.id == id;
      var i :| 0 <= i < |snapshot| && snapshot[i] == d;
      FilterMapKeeps(snapshot, f, i);
    }
  }

  class ParkRepository {
    const db: Firestore
    var parks: seq<DogPark>

    constructor (db: Firestore)
      ensures this.db == db && parks == []
    {
      this.db := db;
      parks := [];
    }

    /** A failed fetch leaves the catalogue as it was. */
    method LoadParks(reachable: bool)
      modifies this
      ensures !reachable ==> parks == old(parks)
      ensures reachable ==> IsParkListing(db.docs, parks)
    {
      var snapshot := db.Query(ParksCollection, None, ByKey, reachable);
      if snapshot.Ok? {
        ListingOfSnapshot(db.docs, snapshot.value);
        parks := FilterMap(snapshot.value, ParkDecoder());
      }
    }
  }
}
