/** The blog collection behind the controller: documents keyed by their id,
    listed in the collection's natural (insertion) order. The Mongoose model
    is the class `BlogStore`; its state, read as a value, is a `Db`, and the
    effect of each store call on that value is a function here. */
module BlogModel {
  import opened Wrappers

  /** A document's caller-supplied fields (title, content, blogImage, ...). */
  type Fields = map<string, string>

  /** A stored document: its `_id`, its fields and its `__v` revision counter. */
  datatype Blog = Blog(id: string, fields: Fields, version: nat)

  /** The collection as a value: documents by id, and the ids in natural order. */
  datatype Db = Db(records: map<string, Blog>, order: seq<string>)

  const EmptyDb: Db := Db(map[], [])

  ghost predicate Distinct(s: seq<string>)
  {
    forall i, j :: 0 <= i < j < |s| ==> s[i] != s[j]
  }

  /** Every id is listed exactly once, and every document carries its own id. */
  ghost predicate WellFormed(db: Db)
  {
    && Distinct(db.order)
    && (forall id :: id in db.order <==> id in db.records)
    && (forall id :: id in db.records ==> db.records[id].id == id)
  }

  /** The documents whose ids are listed in `order`, in that order. */
  function ListIn(order: seq<string>, records: map<string, Blog>): (r: seq<Blog>)
    ensures |r| <= |order|
    ensures (forall id :: id in order ==> id in records) ==>
              |r| == |order| && forall i :: 0 <= i < |r| ==> r[i] == records[order[i]]
  {
    if order == [] then []
    else if order[0] in records then [records[order[0]]] + ListIn(order[1..], records)
    else ListIn(order[1..], records)
  }

  /** What a find-all returns: every document, in natural order. */
  function Listing(db: Db): seq<Blog>
  {
    ListIn(db.order, db.records)
  }

  lemma ListingOfWellFormed(db: Db)
    requires WellFormed(db)
    ensures |Listing(db)| == |db.order|
    ensures forall i :: 0 <= i < |db.order| ==> Listing(db)[i] == db.records[db.order[i]]
    ensures Listing(db) == [] <==> db.records == map[]
  {
    if db.records != map[] {
      var id :| id in db.records;
      assert id in db.order;
    }
  }

  /** `s` with every occurrence of `x` removed. */
  function Without(s: seq<string>, x: string): (r: seq<string>)
    ensures forall y :: y in r <==> y in s && y != x
    ensures Distinct(s) ==> Distinct(r)
    ensures x !in s ==> r == s
  {
    if s == [] then []
    else if s[0] == x then Without(s[1..], x)
    else
      var rest := Without(s[1..], x);
      assert forall k :: 0 < k < |[s[0]] + rest| ==> ([s[0]] + rest)[k] in rest;
      [s[0]] + rest
  }

  /** The collection after inserting a new document at the end. */
  function WithBlog(db: Db, b: Blog): Db
  {
    Db(db.records[b.id := b], db.order + [b.id])
  }

  /** The collection after `findByIdAndUpdate` merged `patch` into document `id`:
      every field of `patch` overrides, the id and the revision stay. */
  function Patched(db: Db, id: string, patch: Fields): Db
    requires id in db.records
  {
    var current := db.records[id];
    Db(db.records[id := Blog(current.id, current.fields + patch, current.version)], db.order)
  }

  /** The collection after `findByIdAndDelete` removed document `id`. */
  function Removed(db: Db, id: string): Db
  {
    Db(db.records - {id}, Without(db.order, id))
  }

  lemma {:induction false} InsertKeepsWellFormed(db: Db, b: Blog)
    requires WellFormed(db) && b.id !in db.records
    ensures WellFormed(WithBlog(db, b))
  {
    var db' := WithBlog(db, b);
    assert Distinct(db'.order) by {
      assert b.id !in db.order;
    }
    forall id ensures id in db'.order <==> id in db'.records {
      assert id in db'.order <==> id in db.order || id == b.id;
    }
  }

  /** Inserting a fresh document adds exactly that one and touches no other. */
  lemma InsertAddsOne(db: Db, b: Blog)
    requires b.id !in db.records
    ensures WithBlog(db, b).records.Keys == db.records.Keys + {b.id}
    ensures |WithBlog(db, b).records| == |db.records| + 1
    ensures forall id :: id in db.records ==> WithBlog(db, b).records[id] == db.records[id]
  {
  }

  /** Inserting a fresh document appends it to the listing. */
  lemma {:induction false} InsertAppendsToListing(db: Db, b: Blog)
    requires WellFormed(db) && b.id !in db.records
    ensures Listing(WithBlog(db, b)) == Listing(db) + [b]
  {
    var db' := WithBlog(db, b);
    InsertKeepsWellFormed(db, b);
    ListingOfWellFormed(db);
    ListingOfWellFormed(db');
    forall i | 0 <= i < |db'.order|
      ensures Listing(db')[i] == (Listing(db) + [b])[i]
    {
      if i < |db.order| {
        assert db.order[i] != b.id;
      }
    }
  }

  lemma PatchKeepsWellFormed(db: Db, id: string, patch: Fields)
    requires WellFormed(db) && id in db.records
    ensures WellFormed(Patched(db, id, patch))
    ensures Patched(db, id, patch).records.Keys == db.records.Keys
    ensures Patched(db, id, patch).order == db.order
  {
  }

  lemma RemoveKeepsWellFormed(db: Db, id: string)
    requires WellFormed(db) && id in db.records
    ensures WellFormed(Removed(db, id))
    ensures |Removed(db, id).records| == |db.records| - 1
    ensures id !in Removed(db, id).records
  {
  }

  /** The blog collection, as the Mongoose model exposes it. */
  class BlogStore {
    var records: map<string, Blog>
    var order: seq<string>

    function State(): Db
      reads this
    {
      Db(records, order)
    }

    ghost predicate Valid()
      reads this
    {
      WellFormed(State())
    }

    constructor ()
      ensures Valid() && State() == EmptyDb
    {
      records := map[];
      order := [];
    }

    /** `Blog.create(fields)`: inserts one document under the id the database
        minted, with revision 0, and returns it. */
    method Create(fields: Fields, newId: string) returns (b: Blog)
      requires Valid() && newId !in records
      modifies this
      ensures Valid()
      ensures b == Blog(newId, fields, 0)
      ensures State() == WithBlog(old(State()), b)
    {
      b := Blog(newId, fields, 0);
      InsertKeepsWellFormed(State(), b);
      records := records[newId := b];
      order := order + [newId];
    }

    /** `Blog.find()`: every document, in natural order. */
    method Find() returns (blogs: seq<Blog>)
      requires Valid()
      ensures |blogs| == |order| == |records|
      ensures forall i :: 0 <= i < |blogs| ==> blogs[i] == records[order[i]]
      ensures blogs == Listing(State())
    {
      ListingOfWellFormed(State());
      DistinctCount(order, records);
      blogs := ListIn(order, records);
    }

    /** `Blog.findById(id)`: the document with that id, or nothing. */
    method FindById(id: string) returns (b: Option<Blog>)
      requires Valid()
      ensures b.Some? <==> id in records
      ensures b.Some? ==> b.value == records[id] && b.value.id == id
    {
      b := if id in records then Some(records[id]) else None;
    }

    /** `Blog.findByIdAndUpdate(id, patch, { new: true })`: merges `patch`
        into the document and returns the updated document, or nothing. */
    method FindByIdAndUpdate(id: string, patch: Fields) returns (b: Option<Blog>)
      requires Valid()
      modifies this
      ensures Valid()
      ensures b.Some? <==> id in old(records)
      ensures b.None? ==> State() == old(State())
      ensures b.Some? ==> State() == Patched(old(State()), id, patch) && b.value == records[id]
    {
      if id in records {
        PatchKeepsWellFormed(State(), id, patch);
        var current := records[id];
        var updated := Blog(current.id, current.fields + patch, current.version);
        records := records[id := updated];
        b := Some(updated);
      } else {
        b := None;
      }
    }

    /** `Blog.findByIdAndDelete(id)`: removes the document and returns it as
        it was, or returns nothing when there is none. */
    method FindByIdAndDelete(id: string) returns (b: Option<Blog>)
      requires Valid()
      modifies this
      ensures Valid()
      ensures b.Some? <==> id in old(records)
      ensures b.None? ==> State() == old(State())
      ensures b.Some? ==> b.value == old(records)[id] && State() == Removed(old(State()), id)
    {
      if id in records {
        RemoveKeepsWellFormed(State(), id);
        b := Some(records[id]);
        records := records - {id};
        order := Without(order, id);
      } else {
        b := None;
      }
    }
  }

  /** A duplicate-free listing of a map's keys is as long as the map. */
  lemma {:induction false} DistinctCount(order: seq<string>, records: map<string, Blog>)
    requires Distinct(order)
    requires forall id :: id in order <==> id in records
    ensures |order| == |records|
    decreases |order|
  {
    if order != [] {
      var last := order[|order| - 1];
      var front := order[..|order| - 1];
      assert forall id :: id in front <==> id in records - {last} by {
        forall id ensures id in front <==> id in records - {last} {
          if id in front {
            var k :| 0 <= k < |front| && front[k] == id;
            assert order[k] == id && k != |order| - 1;
          }
          if id in order && id != last {
            var k :| 0 <= k < |order| && order[k] == id;
            assert k < |order| - 1 && front[k] == id;
          }
        }
      }
      DistinctCount(front, records - {last});
    } else {
      assert records.Keys == {};
    }
  }
}
