/** The document database behind every collection (users, organizations,
    invites), seen through the SDK calls the application makes:
    `createDocument`, `getDocument`, `updateDocument`, `deleteDocument` and
    `listDocuments` with `Query.equal` filters. A collection is a map from
    document id to fields plus the order in which the store lists documents
    (creation order). Network and permission failures are injected by the
    caller as a `Fault`. */
module Store {

  import opened Wrappers
  import opened Js

  /** A stored document: its `$id` and its fields. */
  datatype Document = Document(id: string, fields: Doc)

  /** The contents of one collection. */
  datatype Table = Table(ids: seq<string>, docs: map<string, Doc>)

  /** Listing order holds each stored id exactly once. */
  ghost predicate ValidTable(t: Table)
  {
    && (forall i, j :: 0 <= i < j < |t.ids| ==> t.ids[i] != t.ids[j])
    && (forall id :: id in t.docs <==> id in t.ids)
  }

  /** Why the store refused a call. */
  datatype StoreError =
    | MissingDocument   // no document has the requested id
    | DuplicateId       // a document with the requested id already exists
    | InvalidId         // the id is not a string

  /** A failure injected at one store call (network, permissions, quota). */
  datatype Fault = Fault(message: Option<string>)

  /** The store call of a handler that fails, if any, and how; `S` names the
      handler's store calls in order. */
  datatype Failure<S> = Failure(step: S, fault: Fault)

  /** The fault injected at store call `s`. */
  function FaultAt<S(==)>(failure: Option<Failure<S>>, s: S): (f: Option<Fault>)
    ensures f.Some? <==> failure.Some? && failure.value.step == s
  {
    if failure.Some? && failure.value.step == s then Some(failure.value.fault) else None
  }

  /** What a call can throw inside a route handler. */
  datatype Thrown =
    | StoreRejected(error: StoreError)
    | Unavailable(fault: Fault)
    | RuntimeError    // thrown by the JavaScript runtime itself (bad JSON, destructuring null)

  /** A conjunction of `Query.equal(field, value)` filters. */
  type Query = seq<(string, Value)>

  predicate Matches(d: Doc, q: Query)
  {
    forall i :: 0 <= i < |q| ==> q[i].0 in d && d[q[i].0] == q[i].1
  }

  /** The document listed at position `i` satisfies the query. */
  predicate Hit(t: Table, q: Query, i: int)
  {
    0 <= i < |t.ids| && t.ids[i] in t.docs && Matches(t.docs[t.ids[i]], q)
  }

  /** The documents from listing position `i` on that satisfy the query, in
      listing order. */
  function WhereFrom(t: Table, q: Query, i: nat): (r: seq<Document>)
    requires i <= |t.ids|
    decreases |t.ids| - i
    ensures forall k :: 0 <= k < |r| ==>
              r[k].id in t.docs && r[k].fields == t.docs[r[k].id] && Matches(r[k].fields, q)
    ensures r == [] <==> forall j :: i <= j < |t.ids| ==> !Hit(t, q, j)
    ensures r != [] ==> exists j :: i <= j < |t.ids| && Hit(t, q, j) && r[0].id == t.ids[j]
                                    && forall j' :: i <= j' < j ==> !Hit(t, q, j')
  {
    if i == |t.ids| then []
    else if Hit(t, q, i) then [Document(t.ids[i], t.docs[t.ids[i]])] + WhereFrom(t, q, i + 1)
    else WhereFrom(t, q, i + 1)
  }

  /** `listDocuments(queries).documents`. */
  function Where(t: Table, q: Query): (r: seq<Document>)
  {
    WhereFrom(t, q, 0)
  }

  /** `documents[0]` of a listing, when there is one. */
  function First(t: Table, q: Query): (r: Option<Document>)
    ensures r.Some? <==> exists j :: Hit(t, q, j)
    ensures r.Some? ==> exists j :: Hit(t, q, j) && r.value.id == t.ids[j]
                                    && forall j' :: 0 <= j' < j ==> !Hit(t, q, j')
    ensures r.Some? ==> r.value.id in t.docs && r.value.fields == t.docs[r.value.id]
                        && Matches(r.value.fields, q)
  {
    var w := Where(t, q);
    if w == [] then None else Some(w[0])
  }

  /** On a well-formed table, the listing is empty exactly when no stored
      document satisfies the query. */
  lemma {:induction false} WhereEmptyIff(t: Table, q: Query)
    requires ValidTable(t)
    ensures Where(t, q) == [] <==> forall id :: id in t.docs ==> !Matches(t.docs[id], q)
  {
    if Where(t, q) == [] {
      forall id | id in t.docs
        ensures !Matches(t.docs[id], q)
      {
        var j :| 0 <= j < |t.ids| && t.ids[j] == id;
        assert !Hit(t, q, j);
      }
    }
  }

  /** Adding a document id that is not yet stored. */
  function Insert(t: Table, id: string, d: Doc): (r: Table)
    requires id !in t.docs
    ensures ValidTable(t) ==> ValidTable(r)
    ensures r.docs.Keys == t.docs.Keys + {id} && r.docs[id] == d
    ensures forall other :: other in t.docs ==> r.docs[other] == t.docs[other]
  {
    Table(t.ids + [id], t.docs[id := d])
  }

  /** `updateDocument`'s merge: the given fields replace or add to the stored ones. */
  function Patch(t: Table, id: string, d: Doc): (r: Table)
    requires id in t.docs
    ensures ValidTable(t) ==> ValidTable(r)
    ensures r.ids == t.ids && r.docs.Keys == t.docs.Keys
    ensures r.docs[id] == Merge(t.docs[id], d)
    ensures forall other :: other in t.docs && other != id ==> r.docs[other] == t.docs[other]
  {
    Table(t.ids, t.docs[id := Merge(t.docs[id], d)])
  }

  /** The listing order without one id. */
  function Without(ids: seq<string>, id: string): (r: seq<string>)
    ensures forall x :: x in r <==> x in ids && x != id
    ensures (forall i, j :: 0 <= i < j < |ids| ==> ids[i] != ids[j]) ==>
              forall i, j :: 0 <= i < j < |r| ==> r[i] != r[j]
  {
    if ids == [] then []
    else if ids[0] == id then Without(ids[1..], id)
    else
      var rest := Without(ids[1..], id);
      assert (forall i, j :: 0 <= i < j < |ids| ==> ids[i] != ids[j]) ==>
               ids[0] !in ids[1..] && forall i, j :: 0 <= i < j < |ids[1..]| ==> ids[1..][i] != ids[1..][j];
      [ids[0]] + rest
  }

  function Remove(t: Table, id: string): (r: Table)
    ensures ValidTable(t) ==> ValidTable(r)
    ensures r.docs == t.docs - {id}
  {
    Table(Without(t.ids, id), t.docs - {id})
  }

  /** `createDocument(id, data)`. */
  function CreateIn(t: Table, id: string, data: Doc, failure: Option<Fault>)
    : (out: (Table, Result<Document, Thrown>))
    ensures out.1.Ok? <==> failure.None? && id !in t.docs
    ensures out.1.Ok? ==> out.0 == Insert(t, id, data) && out.1.value == Document(id, data)
    ensures out.1.Err? ==> out.0 == t
    ensures failure.None? && id in t.docs ==> out.1 == Err(StoreRejected(DuplicateId))
  {
    if failure.Some? then (t, Err(Unavailable(failure.value)))
    else if id in t.docs then (t, Err(StoreRejected(DuplicateId)))
    else (Insert(t, id, data), Ok(Document(id, data)))
  }

  /** `updateDocument(id, data)`. */
  function UpdateIn(t: Table, id: string, data: Doc, failure: Option<Fault>)
    : (out: (Table, Result<Document, Thrown>))
    ensures out.1.Ok? <==> failure.None? && id in t.docs
    ensures out.1.Ok? ==> out.0 == Patch(t, id, data)
                          && out.1.value == Document(id, Merge(t.docs[id], data))
    ensures out.1.Err? ==> out.0 == t
    ensures failure.None? && id !in t.docs ==> out.1 == Err(StoreRejected(MissingDocument))
  {
    if failure.Some? then (t, Err(Unavailable(failure.value)))
    else if id !in t.docs then (t, Err(StoreRejected(MissingDocument)))
    else (Patch(t, id, data), Ok(Document(id, Merge(t.docs[id], data))))
  }

  /** `deleteDocument(id)`. */
  function DeleteIn(t: Table, id: string, failure: Option<Fault>)
    : (out: (Table, Result<(), Thrown>))
    ensures out.1.Ok? <==> failure.None? && id in t.docs
    ensures out.1.Ok? ==> out.0.docs == t.docs - {id}
    ensures out.1.Err? ==> out.0 == t
  {
    if failure.Some? then (t, Err(Unavailable(failure.value)))
    else if id !in t.docs then (t, Err(StoreRejected(MissingDocument)))
    else (Remove(t, id), Ok(()))
  }

  /** `getDocument(id)`. */
  function GetIn(t: Table, id: string, failure: Option<Fault>): (r: Result<Document, Thrown>)
    ensures r.Ok? <==> failure.None? && id in t.docs
    ensures r.Ok? ==> r.value == Document(id, t.docs[id])
  {
    if failure.Some? then Err(Unavailable(failure.value))
    else if id !in t.docs then Err(StoreRejected(MissingDocument))
    else Ok(Document(id, t.docs[id]))
  }

  /** `listDocuments(queries).documents`. */
  function ListIn(t: Table, q: Query, failure: Option<Fault>): (r: Result<seq<Document>, Thrown>)
    ensures r.Ok? <==> failure.None?
    ensures r.Ok? ==> r.value == Where(t, q)
  {
    if failure.Some? then Err(Unavailable(failure.value)) else Ok(Where(t, q))
  }

  /** A document inserted with fields that satisfy a query is listed by it. */
  lemma {:induction false} InsertedIsListed(t: Table, id: string, d: Doc, q: Query)
    requires id !in t.docs && Matches(d, q)
    ensures Where(Insert(t, id, d), q) != []
  {
    var t' := Insert(t, id, d);
    assert Hit(t', q, |t.ids|);
  }

  /** A document inserted when no stored document satisfies a query is the
      first (and only) one the query lists. */
  lemma {:induction false} InsertedIsFirst(t: Table, id: string, d: Doc, q: Query)
    requires ValidTable(t) && id !in t.docs && Matches(d, q) && Where(t, q) == []
    ensures First(Insert(t, id, d), q) == Some(Document(id, d))
  {
    var t' := Insert(t, id, d);
    WhereEmptyIff(t, q);
    forall j | 0 <= j < |t.ids|
      ensures !Hit(t', q, j)
    {
      assert t.ids[j] in t.docs && t'.ids[j] == t.ids[j];
    }
    assert Hit(t', q, |t.ids|);
  }

  /** Patching a document that already satisfies a query with fields that do
      not touch the query's fields keeps it listed. */
  lemma {:induction false} PatchKeepsListed(t: Table, id: string, d: Doc, q: Query)
    requires ValidTable(t) && id in t.docs && Where(t, q) != []
    requires forall i :: 0 <= i < |q| ==> q[i].0 !in d
    ensures Where(Patch(t, id, d), q) != []
  {
    var j :| 0 <= j < |t.ids| && Hit(t, q, j);
    var t' := Patch(t, id, d);
    assert 0 <= j < |t'.ids| && t'.ids[j] in t'.docs;
    var doc := t'.docs[t'.ids[j]];
    forall i | 0 <= i < |q|
      ensures q[i].0 in doc && doc[q[i].0] == q[i].1
    {
      assert q[i].0 !in d;
    }
    assert Hit(t', q, j);
  }

  /** The store itself: one collection, whose methods are the SDK calls. */
  class Collection {
    var ids: seq<string>
    var docs: map<string, Doc>

    function Contents(): Table
      reads this
    {
      Table(ids, docs)
    }

    ghost predicate Valid()
      reads this
    {
      ValidTable(Contents())
    }

    constructor ()
      ensures Valid() && Contents() == Table([], map[])
    {
      ids := [];
      docs := map[];
    }

    method Create(id: string, data: Doc, failure: Option<Fault>) returns (r: Result<Document, Thrown>)
      requires Valid()
      modifies this
      ensures Valid()
      ensures (Contents(), r) == CreateIn(old(Contents()), id, data, failure)
    {
      if failure.Some? {
        r := Err(Unavailable(failure.value));
      } else if id in docs {
        r := Err(StoreRejected(DuplicateId));
      } else {
        ids := ids + [id];
        docs := docs[id := data];
        r := Ok(Document(id, data));
      }
    }

    method Update(id: string, data: Doc, failure: Option<Fault>) returns (r: Result<Document, Thrown>)
      requires Valid()
      modifies this
      ensures Valid()
      ensures (Contents(), r) == UpdateIn(old(Contents()), id, data, failure)
    {
      if failure.Some? {
        r := Err(Unavailable(failure.value));
      } else if id !in docs {
        r := Err(StoreRejected(MissingDocument));
      } else {
        var merged := docs[id] + data;
        docs := docs[id := merged];
        r := Ok(Document(id, merged));
      }
    }

    method Delete(id: string, failure: Option<Fault>) returns (r: Result<(), Thrown>)
      requires Valid()
      modifies this
      ensures Valid()
      ensures (Contents(), r) == DeleteIn(old(Contents()), id, failure)
    {
      if failure.Some? {
        r := Err(Unavailable(failure.value));
      } else if id !in docs {
        r := Err(StoreRejected(MissingDocument));
      } else {
        ids := Without(ids, id);
        docs := docs - {id};
        r := Ok(());
      }
    }
  }
}
