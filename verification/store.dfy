/** The document store the app talks to, reduced to what the app observes: a
    map from document paths to field maps. A write batch is applied to that
    map all at once or not at all, server timestamps are values the store
    assigns from its own clock, and a query is evaluated over the map. Whether
    a call reaches the server is an input of every operation. */
module Store {
  import opened Common

  /** A field value as the Swift code sees it once the SDK has bridged it. */
  datatype Value =
    | Str(s: string)
    | Int(i: int)
    | Dbl(d: real)
    | Bool(b: bool)
    | Time(t: int)
    | Arr(items: seq<Value>)
    | Obj(entries: map<string, Value>)
    | Null

  type Fields = map<string, Value>
  type Path = seq<string>
  type Docs = map<Path, Fields>

  /** A document of a query snapshot: its key within the collection and its data. */
  datatype Doc = Doc(id: string, fields: Fields)

  function Child(collection: Path, id: string): Path {
    collection + [id]
  }

  function Lookup(docs: Docs, path: Path): Option<Fields> {
    if path in docs then Some(docs[path]) else None
  }

  function Field(fields: Fields, key: string): Option<Value> {
    if key in fields then Some(fields[key]) else None
  }

  // ------------------------------------------------------------------
  // The `as?` casts of the decoders
  // ------------------------------------------------------------------

  /** `as? String` */
  function StringField(fields: Fields, key: string): Option<string> {
    if key in fields && fields[key].Str? then Some(fields[key].s) else None
  }

  /** `as? Timestamp` */
  function TimestampField(fields: Fields, key: string): Option<int> {
    if key in fields && fields[key].Time? then Some(fields[key].t) else None
  }

  /** `as? Bool` */
  function BoolField(fields: Fields, key: string): Option<bool> {
    if key in fields && fields[key].Bool? then Some(fields[key].b) else None
  }

  /** `as? Int`: an integer, or a double with no fractional part. */
  function IntField(fields: Fields, key: string): Option<int> {
    if key !in fields then None
    else match fields[key]
      case Int(i) => Some(i)
      case Dbl(d) => if d.Floor as real == d then Some(d.Floor) else None
      case _ => None
  }

  /** `as? Double`: a double, or an integer widened to one. */
  function DoubleField(fields: Fields, key: string): Option<real> {
    if key !in fields then None
    else match fields[key]
      case Dbl(d) => Some(d)
      case Int(i) => Some(i as real)
      case _ => None
  }

  /** The strings of an array whose every element is a string. */
  function Strings(items: seq<Value>): (r: Option<seq<string>>)
    ensures r.Some? ==> |r.value| == |items|
    ensures r.Some? <==> forall i :: 0 <= i < |items| ==> items[i].Str?
    ensures r.Some? ==> forall i :: 0 <= i < |items| ==> items[i] == Str(r.value[i])
  {
    if items == [] then Some([])
    else if !items[0].Str? then None
    else match Strings(items[1..])
      case None => None
      case Some(rest) => Some([items[0].s] + rest)
  }

  /** `as? [String]`: the cast fails as a whole if one element is not a string. */
  function StringArrayField(fields: Fields, key: string): Option<seq<string>> {
    if key in fields && fields[key].Arr? then Strings(fields[key].items) else None
  }

  /** The dictionaries of an array whose every element is a dictionary. */
  function Objects(items: seq<Value>): (r: Option<seq<map<string, Value>>>)
    ensures r.Some? ==> |r.value| == |items|
    ensures r.Some? <==> forall i :: 0 <= i < |items| ==> items[i].Obj?
    ensures r.Some? ==> forall i :: 0 <= i < |items| ==> items[i] == Obj(r.value[i])
  {
    if items == [] then Some([])
    else if !items[0].Obj? then None
    else match Objects(items[1..])
      case None => None
      case Some(rest) => Some([items[0].entries] + rest)
  }

  /** `as? [[String: Any]]`: fails as a whole if one element is not a dictionary. */
  function ObjectArrayField(fields: Fields, key: string): Option<seq<map<string, Value>>> {
    if key in fields && fields[key].Arr? then Objects(fields[key].items) else None
  }

  // ------------------------------------------------------------------
  // Writes
  // ------------------------------------------------------------------

  /** What a write does to one field: store a value, store the commit's
      server timestamp, or the array-union / array-remove transforms. */
  datatype FieldOp =
    | Put(v: Value)
    | ServerTimestamp
    | ArrayUnion(elements: seq<Value>)
    | ArrayRemove(elements: seq<Value>)

  type Ops = map<string, FieldOp>

  /** `setData`, `setData(merge: true)` and `updateData` on one document. */
  datatype Write =
    | SetDoc(path: Path, ops: Ops)
    | MergeDoc(path: Path, ops: Ops)
    | UpdateDoc(path: Path, ops: Ops)

  /** Appends each element not already present. */
  function UnionInto(items: seq<Value>, elements: seq<Value>): (r: seq<Value>)
    ensures forall x :: x in r <==> x in items || x in elements
    decreases |elements|
  {
    if elements == [] then items
    else UnionInto(if elements[0] in items then items else items + [elements[0]], elements[1..])
  }

  /** Removes every occurrence of each element. */
  function RemoveAll(items: seq<Value>, elements: seq<Value>): (r: seq<Value>)
    ensures forall x :: x in r <==> x in items && x !in elements
  {
    if items == [] then []
    else (if items[0] in elements then [] else [items[0]]) + RemoveAll(items[1..], elements)
  }

  function ApplyOp(op: FieldOp, current: Option<Value>, now: int): Value {
    match op
    case Put(v) => v
    case ServerTimestamp => Time(now)
    case ArrayUnion(es) =>
      Arr(UnionInto(if current.Some? && current.value.Arr? then current.value.items else [], es))
    case ArrayRemove(es) =>
      Arr(if current.Some? && current.value.Arr? then RemoveAll(current.value.items, es) else [])
  }

  /** The fields after applying `ops` to `base`; fields not named keep their value. */
  function ApplyOps(base: Fields, ops: Ops, now: int): (r: Fields)
    ensures r.Keys == base.Keys + ops.Keys
    ensures forall k :: k in base && k !in ops ==> r[k] == base[k]
    ensures forall k :: k in ops ==> r[k] == ApplyOp(ops[k], Field(base, k), now)
  {
    map k | k in base.Keys + ops.Keys ::
      if k in ops then ApplyOp(ops[k], Field(base, k), now) else base[k]
  }

  /** One write; an update of a missing document fails. */
  function ApplyWrite(docs: Docs, w: Write, now: int): Option<Docs> {
    match w
    case SetDoc(p, ops) => Some(docs[p := ApplyOps(map[], ops, now)])
    case MergeDoc(p, ops) => Some(docs[p := ApplyOps(if p in docs then docs[p] else map[], ops, now)])
    case UpdateDoc(p, ops) => if p in docs then Some(docs[p := ApplyOps(docs[p], ops, now)]) else None
  }

  /** A batch applied in order, failing as a whole if one of its writes fails.
      Only updates can fail, and a batch touches only the paths it names. */
  function ApplyBatch(docs: Docs, batch: seq<Write>, now: int): (r: Option<Docs>)
    ensures (forall i :: 0 <= i < |batch| ==> !batch[i].UpdateDoc?) ==> r.Some?
    ensures r.Some? ==> forall p :: (forall i :: 0 <= i < |batch| ==> batch[i].path != p) ==>
                          Lookup(r.value, p) == Lookup(docs, p)
    decreases |batch|
  {
    if batch == [] then Some(docs)
    else match ApplyWrite(docs, batch[0], now)
      case None => None
      case Some(next) => ApplyBatch(next, batch[1..], now)
  }

  /** A single write committed on its own is a batch of one. */
  lemma SingleWrite(docs: Docs, w: Write, now: int)
    ensures ApplyBatch(docs, [w], now) == ApplyWrite(docs, w, now)
  {
    assert [w][1..] == [];
  }

  // ------------------------------------------------------------------
  // Queries
  // ------------------------------------------------------------------

  /** `whereField(field, isEqualTo: value)` */
  datatype Filter = FieldEquals(field: string, value: Value)

  /** No `order(by:)` (documents come by key), or `order(by: field, descending:)`. */
  datatype Order = ByKey | ByTime(field: string, descending: bool)

  /** The documents a query returns: those matching the filter and, when the
      query orders by a field, holding a timestamp there. */
  predicate Selected(fields: Fields, filter: Option<Filter>, order: Order) {
    && (filter.Some? ==> Field(fields, filter.value.field) == Some(filter.value.value))
    && (order.ByTime? ==> TimestampField(fields, order.field).Some?)
  }

  function Rank(d: Doc, order: Order): int {
    if order.ByTime? && TimestampField(d.fields, order.field).Some? then
      TimestampField(d.fields, order.field).value
    else 0
  }

  /** `a` comes before `b`: by the order-by field, ties (and unordered queries)
      broken by document key, in the direction of the order-by field. */
  predicate DocBefore(a: Doc, b: Doc, order: Order) {
    var ra, rb := Rank(a, order), Rank(b, order);
    if order.ByTime? && order.descending then
      ra > rb || (ra == rb && LexLess(b.id, a.id))
    else
      ra < rb || (ra == rb && LexLess(a.id, b.id))
  }

  predicate Sorted(s: seq<Doc>, order: Order) {
    forall i, j :: 0 <= i < j < |s| ==> DocBefore(s[i], s[j], order)
  }

  function Ids(s: seq<Doc>): set<string> {
    set d | d in s :: d.id
  }

  /** `s` is what the query on `collection` returns over `docs`: every
      selected document exactly once, with its stored data, in query order. */
  ghost predicate IsQueryResult(docs: Docs, collection: Path, filter: Option<Filter>, order: Order, s: seq<Doc>) {
    && Sorted(s, order)
    && (forall d :: d in s ==>
          Child(collection, d.id) in docs && docs[Child(collection, d.id)] == d.fields
          && Selected(d.fields, filter, order))
    && (forall id :: Child(collection, id) in docs && Selected(docs[Child(collection, id)], filter, order) ==>
          id in Ids(s))
  }

  lemma DocBeforeStrict(a: Doc, b: Doc, c: Doc, order: Order)
    ensures !DocBefore(a, a, order)
    ensures a.id != b.id ==> DocBefore(a, b, order) || DocBefore(b, a, order)
    ensures DocBefore(a, b, order) && DocBefore(b, c, order) ==> DocBefore(a, c, order)
  {
    LexLessStrictTotal(a.id, b.id, c.id);
    LexLessStrictTotal(c.id, b.id, a.id);
    LexLessStrictTotal(b.id, a.id, c.id);
  }

  /** Puts `d` in its place in an ordered sequence. */
  function InsertDoc(s: seq<Doc>, d: Doc, order: Order): (r: seq<Doc>)
    ensures |r| == |s| + 1
    ensures forall x :: x in r <==> x in s || x == d
  {
    if s == [] || DocBefore(d, s[0], order) then [d] + s
    else [s[0]] + InsertDoc(s[1..], d, order)
  }

  lemma {:induction false} InsertDocSorted(s: seq<Doc>, d: Doc, order: Order)
    requires Sorted(s, order)
    requires d.id !in Ids(s)
    ensures Sorted(InsertDoc(s, d, order), order)
    decreases |s|
  {
    if s != [] && !DocBefore(d, s[0], order) {
      DocBeforeStrict(d, s[0], d, order);
      assert Sorted(s[1..], order);
      assert d.id !in Ids(s[1..]) by {
        forall x | x in s[1..] ensures x.id != d.id { assert x in s; }
      }
      InsertDocSorted(s[1..], d, order);
      var r := InsertDoc(s, d, order);
      var t := InsertDoc(s[1..], d, order);
      assert r == [s[0]] + t;
      forall i, j | 0 <= i < j < |r| ensures DocBefore(r[i], r[j], order) {
        if i == 0 {
          assert r[j] in t;
          if r[j] != d {
            assert r[j] in s[1..];
            var k :| 1 <= k < |s| && s[k] == r[j];
          }
        }
      }
    } else if s != [] {
      forall j | 0 <= j < |s| ensures DocBefore(d, s[j], order) {
        if j > 0 {
          DocBeforeStrict(d, s[0], s[j], order);
        }
      }
    }
  }

  /** Two query-ordered sequences holding the same documents are equal: the
      order leaves no freedom. */
  lemma {:induction false} SortedSameDocs(s1: seq<Doc>, s2: seq<Doc>, order: Order)
    requires Sorted(s1, order) && Sorted(s2, order)
    requires forall d :: d in s1 <==> d in s2
    ensures s1 == s2
    decreases |s1|
  {
    assert s2 != [] ==> s2[0] in s1;
    if s1 != [] {
      assert s1[0] in s2;
      var a, b := s1[0], s2[0];
      assert b in s1;
      var j :| 0 <= j < |s2| && s2[j] == a;
      var k :| 0 <= k < |s1| && s1[k] == b;
      DocBeforeStrict(a, b, a, order);
      assert a == b;
      forall d ensures d in s1[1..] <==> d in s2[1..] {
        SortedTailLacksHead(s1, d, order);
        SortedTailLacksHead(s2, d, order);
      }
      SortedSameDocs(s1[1..], s2[1..], order);
      assert s1 == [a] + s1[1..] && s2 == [b] + s2[1..];
    }
  }

  /** In a query-ordered sequence the head does not come back later. */
  lemma SortedTailLacksHead(s: seq<Doc>, d: Doc, order: Order)
    requires Sorted(s, order) && s != []
    ensures d in s[1..] <==> d in s && d != s[0]
  {
    if d in s[1..] {
      var k :| 1 <= k < |s| && s[k] == d;
      DocBeforeStrict(s[0], s[0], s[0], order);
    }
    if d in s && d != s[0] {
      var k :| 0 <= k < |s| && s[k] == d;
      assert d == s[1..][k - 1];
    }
  }

  /** A query has one answer: two results over the same documents are the
      same sequence. */
  lemma QueryResultUnique(docs: Docs, collection: Path, filter: Option<Filter>, order: Order, s1: seq<Doc>, s2: seq<Doc>)
    requires IsQueryResult(docs, collection, filter, order, s1)
    requires IsQueryResult(docs, collection, filter, order, s2)
    ensures s1 == s2
  {
    forall d | d in s1 ensures d in s2 {
      QueryResultHolds(docs, collection, filter, order, s1, s2, d);
    }
    forall d | d in s2 ensures d in s1 {
      QueryResultHolds(docs, collection, filter, order, s2, s1, d);
    }
    SortedSameDocs(s1, s2, order);
  }

  /** A document of one query result is in every other. */
  lemma QueryResultHolds(docs: Docs, collection: Path, filter: Option<Filter>, order: Order, s1: seq<Doc>, s2: seq<Doc>, d: Doc)
    requires IsQueryResult(docs, collection, filter, order, s1)
    requires IsQueryResult(docs, collection, filter, order, s2)
    requires d in s1
    ensures d in s2
  {
    assert d.id in Ids(s2);
    var e :| e in s2 && e.id == d.id;
    assert e == Doc(d.id, d.fields);
  }

  // ------------------------------------------------------------------
  // The store
  // ------------------------------------------------------------------

  class Firestore {
    var docs: Docs
    /** The value the server timestamps of the next commit receive. */
    var clock: int

    constructor (initial: Docs, start: int)
      ensures docs == initial && clock == start
    {
      docs := initial;
      clock := start;
    }

    /** `batch.commit()`, and every single `setData` / `updateData` as a batch
        of one: all of it is applied, or, when the server is unreachable or an
        update names a missing document, none of it. */
    method Commit(batch: seq<Write>, reachable: bool) returns (ok: bool)
      modifies this
      ensures ok <==> reachable && ApplyBatch(old(docs), batch, old(clock)).Some?
      ensures ok ==> docs == ApplyBatch(old(docs), batch, old(clock)).value && clock > old(clock)
      ensures !ok ==> docs == old(docs) && clock == old(clock)
    {
      var applied := ApplyBatch(docs, batch, clock);
      ok := reachable && applied.Some?;
      if ok {
        docs := applied.value;
        clock := clock + 1;
      }
    }

    /** `getDocument()`: the document's data, or nothing if it does not exist. */
    method GetDocument(path: Path, reachable: bool) returns (r: Result<Option<Fields>>)
      ensures r.Ok? <==> reachable
      ensures r.Ok? ==> r.value == Lookup(docs, path)
    {
      if !reachable {
        return Err("unavailable");
      }
      r := Ok(Lookup(docs, path));
    }

    /** `getDocuments()` on a collection, with an optional equality filter
        and an optional order. */
    method Query(collection: Path, filter: Option<Filter>, order: Order, reachable: bool)
      returns (r: Result<seq<Doc>>)
      ensures r.Ok? <==> reachable
      ensures r.Ok? ==> IsQueryResult(docs, collection, filter, order, r.value)
    {
      if !reachable {
        return Err("unavailable");
      }
      var todo := docs.Keys;
      var result: seq<Doc> := [];
      while todo != {}
        invariant todo <= docs.Keys
        invariant Sorted(result, order)
        invariant forall d :: d in result ==>
          Child(collection, d.id) in docs && Child(collection, d.id) !in todo
          && docs[Child(collection, d.id)] == d.fields && Selected(d.fields, filter, order)
        invariant forall id ::
          (Child(collection, id) in docs && Child(collection, id) !in todo
           && Selected(docs[Child(collection, id)], filter, order)) ==> id in Ids(result)
        decreases |todo|
      {
        var p :| p in todo;
        if |p| == |collection| + 1 && p[..|collection|] == collection && Selected(docs[p], filter, order) {
          var d := Doc(p[|collection|], docs[p]);
          assert p == Child(collection, d.id);
          InsertDocSorted(result, d, order);
          result := InsertDoc(result, d, order);
        }
        todo := todo - {p};
      }
      r := Ok(result);
    }
  }
}
