/** The `Equatable`, `Comparable` and `Hashable` conformances of a park:
    equality and order look only at the off-leash area, hashing only at the
    id. Areas are taken as exact reals (no NaN). */
module ParkOrdering {
  import opened Records

  /** `==`: the areas are equal, whatever else differs. */
  predicate Equal(a: DogPark, b: DogPark) {
    a.offLeashAreaSqM == b.offLeashAreaSqM
  }

  /** `<`: the first park's area is strictly smaller. */
  predicate Less(a: DogPark, b: DogPark) {
    a.offLeashAreaSqM < b.offLeashAreaSqM
  }

  /** What `hash(into:)` feeds the hasher: the id alone. */
  function HashKey(p: DogPark): string {
    p.id
  }

  /** `==` is an equivalence relation. */
  lemma EqualIsEquivalence(a: DogPark, b: DogPark, c: DogPark)
    ensures Equal(a, a)
    ensures Equal(a, b) ==> Equal(b, a)
    ensures Equal(a, b) && Equal(b, c) ==> Equal(a, c)
  {
  }

  /** Exactly one of `a < b`, `a == b`, `b < a` holds, and `<` is transitive
      and respects `==`: the order is a strict total order on areas. */
  lemma Trichotomy(a: DogPark, b: DogPark, c: DogPark)
    ensures (Less(a, b) && !Equal(a, b) && !Less(b, a))
         || (!Less(a, b) && Equal(a, b) && !Less(b, a))
         || (!Less(a, b) && !Equal(a, b) && Less(b, a))
    ensures Less(a, b) && Less(b, c) ==> Less(a, c)
    ensures Equal(a, b) ==> (Less(a, c) <==> Less(b, c))
  {
  }

  /** Parks with nothing in common but their area are equal. */
  lemma EqualityIgnoresIdentity(a: DogPark, id: string, name: string, city: string)
    ensures Equal(a, a.(id := id, name := name, city := city))
  {
  }

  /** As written, two `==` parks can hash differently, which `Hashable`
      forbids: a set or dictionary of parks may then hold both. */
  lemma HashDisagreesWithEquality()
    ensures var a := DogPark("a", "North", "Oslo", 0.0, 0.0, true, 500.0, []);
            var b := DogPark("b", "South", "Oslo", 1.0, 1.0, false, 500.0, []);
            Equal(a, b) && HashKey(a) != HashKey(b)
  {
  }

  /** A hash input that agrees with `==`: the area that `==` compares. */
  function ConsistentHashKey(p: DogPark): real {
    p.offLeashAreaSqM
  }

  /** With the corrected hash input, `==` parks always hash alike. */
  lemma ConsistentHashAgrees(a: DogPark, b: DogPark)
    ensures Equal(a, b) ==> ConsistentHashKey(a) == ConsistentHashKey(b)
  {
  }
}
