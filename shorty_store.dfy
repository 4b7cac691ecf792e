/**
 * The Shorty collection as the two controllers use it (api/controllers/shorty.js,
 * api/controllers/Shorty.js): `find`, `findById`, `findOne`, `save`,
 * `findByIdAndUpdate`, `findByIdAndRemove` and `findOneAndRemove`, run one
 * at a time against an in-memory sequence of documents in natural order.
 * Mongo's `_id` is a counter the store hands out on `save`.
 */
module ShortyStore {
  import opened Common
  import opened ShortySchema

  /** The filters the controllers pass to the collection. */
  datatype Query =
    | ById(id: nat)
    | ByUid(uid: string)
    | ByUrl(url: string)
    | ByUidAndUrl(uid: string, url: string)

  predicate Matches(doc: Shorty, q: Query) {
    match q
    case ById(id) => doc.id == id
    case ByUid(uid) => doc.uid == uid
    case ByUrl(url) => doc.url == url
    case ByUidAndUrl(uid, url) => doc.uid == uid && doc.url == url
  }

  /** The position of the first document in natural order that the filter matches. */
  function Find(docs: seq<Shorty>, q: Query): (r: Option<nat>)
    ensures r.Some? ==> r.value < |docs| && Matches(docs[r.value], q)
    ensures r.Some? ==> forall j :: 0 <= j < r.value ==> !Matches(docs[j], q)
    ensures r.None? <==> forall j :: 0 <= j < |docs| ==> !Matches(docs[j], q)
    decreases |docs|
  {
    if docs == [] then None
    else if Matches(docs[0], q) then Some(0)
    else match Find(docs[1..], q) {
      case None => None
      case Some(i) => Some(i + 1)
    }
  }

  /** The document `findOne` and `findById` resolve to. */
  function Lookup(docs: seq<Shorty>, q: Query): Option<Shorty> {
    match Find(docs, q) {
      case None => None
      case Some(i) => Some(docs[i])
    }
  }

  /** The collection with the document at `i` removed, the others in their order. */
  function Without(docs: seq<Shorty>, i: nat): (r: seq<Shorty>)
    requires i < |docs|
    ensures |r| == |docs| - 1
    ensures forall j :: 0 <= j < i ==> r[j] == docs[j]
    ensures forall j :: i <= j < |r| ==> r[j] == docs[j + 1]
    ensures multiset(r) + multiset{docs[i]} == multiset(docs)
  {
    assert docs == docs[..i] + [docs[i]] + docs[i + 1..];
    docs[..i] + docs[i + 1..]
  }

  /** The body of a `PATCH`: the fields given, each `None` when absent. */
  datatype Patch = Patch(uid: Option<string>, url: Option<string>, expireAt: Option<int>)

  /**
   * The Mongoose query options the source leaves at their library defaults:
   * whether update validators run and whether the updated or the original
   * document is returned.
   */
  datatype UpdateOptions = UpdateOptions(runValidators: bool, returnNew: bool)

  /** `$set: body`, plus the `updatedAt` the `timestamps` option writes on an update. */
  function Merge(doc: Shorty, p: Patch, now: int): Shorty {
    doc.(uid := match p.uid { case Some(v) => v case None => doc.uid },
         url := match p.url { case Some(v) => v case None => doc.url },
         expireAt := match p.expireAt { case Some(v) => v case None => doc.expireAt },
         updatedAt := now)
  }

  /** The update validators, run only on the paths the patch sets. */
  function PatchErrors(p: Patch): (errs: seq<FieldError>)
    ensures errs == [] <==>
      (p.uid.Some? ==> Present(p.uid)) &&
      (p.url.Some? ==> Present(p.url) && UrlValidator.ValidUrl(p.url.value))
  {
    (if p.uid.Some? then UidErrors(p.uid) else []) +
    (if p.url.Some? then UrlErrors(p.url) else [])
  }

  /** The unique index the updated document `m` at position `i` would violate, if any. */
  function Clash(docs: seq<Shorty>, i: nat, m: Shorty): (r: Option<string>)
    requires i < |docs|
    ensures r == None <==>
      forall j :: 0 <= j < |docs| && j != i ==> docs[j].uid != m.uid && docs[j].url != m.url
  {
    if exists j :: 0 <= j < |docs| && j != i && docs[j].uid == m.uid then Some("uid")
    else if exists j :: 0 <= j < |docs| && j != i && docs[j].url == m.url then Some("url")
    else None
  }

  /** What `findByIdAndUpdate` does with a patch. */
  datatype UpdateOutcome =
    | Refused(error: SaveError)
    | Missing
    | Updated(at: nat, before: Shorty, after: Shorty)

  /**
   * The update validators (when enabled) run before the query; a missing
   * document leaves nothing to update; a merge that collides with another
   * document's key is refused by the unique index.
   */
  function PlanUpdate(docs: seq<Shorty>, id: nat, p: Patch, opts: UpdateOptions, now: int): (o: UpdateOutcome)
    ensures o.Missing? <==>
      !(opts.runValidators && PatchErrors(p) != []) && forall j :: 0 <= j < |docs| ==> docs[j].id != id
    ensures o.Updated? ==>
      && o.at < |docs| && docs[o.at].id == id && o.before == docs[o.at]
      && o.after == Merge(docs[o.at], p, now) && Clash(docs, o.at, o.after) == None
      && (opts.runValidators ==> PatchErrors(p) == [])
    ensures o.Refused? ==>
      (opts.runValidators && o.error == ValidationError(PatchErrors(p)) && PatchErrors(p) != []) ||
      (o.error.DuplicateKey? &&
        exists i :: (FirstWithId(docs, id, i) && Clash(docs, i, Merge(docs[i], p, now)) == Some(o.error.path)))
  {
    if opts.runValidators && PatchErrors(p) != [] then Refused(ValidationError(PatchErrors(p)))
    else match Find(docs, ById(id)) {
      case None => Missing
      case Some(i) =>
        var m := Merge(docs[i], p, now);
        match Clash(docs, i, m) {
          case Some(path) => Refused(DuplicateKey(path))
          case None => Updated(i, docs[i], m)
        }
    }
  }

  /** `i` is the position of the first document with the id. */
  predicate FirstWithId(docs: seq<Shorty>, id: nat, i: int) {
    0 <= i < |docs| && docs[i].id == id && forall j :: 0 <= j < i ==> docs[j].id != id
  }

  /** The collection after an update. */
  function AfterUpdate(docs: seq<Shorty>, o: UpdateOutcome): seq<Shorty>
    requires o.Updated? ==> o.at < |docs|
  {
    if o.Updated? then docs[o.at := o.after] else docs
  }

  // ---------------------------------------------------------------------------
  // Properties of the collection operations

  /** In a collection with unique keys, a key filter matches at most one document. */
  lemma KeyMatchesOnce(docs: seq<Shorty>, q: Query, i: nat, j: nat)
    requires Unique(docs) && !q.ByUidAndUrl?
    requires i < |docs| && j < |docs| && Matches(docs[i], q) && Matches(docs[j], q)
    ensures i == j
  {
  }

  /** Removing a document keeps the keys unique and leaves no document with its id. */
  lemma {:induction false} RemoveKeepsUnique(docs: seq<Shorty>, i: nat)
    requires Unique(docs) && i < |docs|
    ensures Unique(Without(docs, i))
    ensures Find(Without(docs, i), ById(docs[i].id)) == None
  {
    var r := Without(docs, i);
    forall a, b | 0 <= a < b < |r|
      ensures r[a].id != r[b].id && r[a].uid != r[b].uid && r[a].url != r[b].url
    {
      var a', b' := if a < i then a else a + 1, if b < i then b else b + 1;
      assert r[a] == docs[a'] && r[b] == docs[b'] && a' < b';
    }
    forall j | 0 <= j < |r| ensures !Matches(r[j], ById(docs[i].id)) {
      var j' := if j < i then j else j + 1;
      assert r[j] == docs[j'] && j' != i;
      if j' < i {
        assert docs[j'].id != docs[i].id;
      } else {
        assert docs[i].id != docs[j'].id;
      }
    }
  }

  /** Replacing a document by a merge that clashes with no other keeps the keys unique. */
  lemma {:induction false} UpdateKeepsUnique(docs: seq<Shorty>, i: nat, p: Patch, now: int)
    requires Unique(docs) && i < |docs|
    requires Clash(docs, i, Merge(docs[i], p, now)) == None
    ensures Unique(docs[i := Merge(docs[i], p, now)])
  {
    var m := Merge(docs[i], p, now);
    var r := docs[i := m];
    forall a, b | 0 <= a < b < |r|
      ensures r[a].id != r[b].id && r[a].uid != r[b].uid && r[a].url != r[b].url
    {
      if a == i {
        assert r[a] == m && r[b] == docs[b] && m.id == docs[i].id;
      } else if b == i {
        assert r[a] == docs[a] && r[b] == m && m.id == docs[i].id;
      } else {
        assert r[a] == docs[a] && r[b] == docs[b];
      }
    }
  }

  /** A patch overwrites exactly the fields it gives: applying it twice is applying it once. */
  lemma MergeIdempotent(doc: Shorty, p: Patch, now: int)
    ensures Merge(Merge(doc, p, now), p, now) == Merge(doc, p, now)
  {
  }

  /** A patch keeps the id and the creation time, and sets each given field and no other. */
  lemma MergeFields(doc: Shorty, p: Patch, now: int)
    ensures var m := Merge(doc, p, now);
      && m.id == doc.id && m.createdAt == doc.createdAt && m.updatedAt == now
      && m.uid == (if p.uid.Some? then p.uid.value else doc.uid)
      && m.url == (if p.url.Some? then p.url.value else doc.url)
      && m.expireAt == (if p.expireAt.Some? then p.expireAt.value else doc.expireAt)
  {
  }

  /** An update changes at most the one document with the id, keeping the keys unique. */
  lemma UpdateTouchesOnlyTarget(docs: seq<Shorty>, id: nat, p: Patch, opts: UpdateOptions, now: int)
    requires Unique(docs)
    ensures var o := PlanUpdate(docs, id, p, opts, now); var after := AfterUpdate(docs, o);
      && |after| == |docs| && Unique(after)
      && forall j :: 0 <= j < |docs| && docs[j].id != id ==> after[j] == docs[j]
  {
    var o := PlanUpdate(docs, id, p, opts, now);
    if o.Updated? {
      UpdateKeepsUnique(docs, o.at, p, now);
    }
  }

  /**
   * The success path: a patch that passes the enabled validators and clashes
   * with no other document is applied to the document with the id.
   */
  lemma NoClashApplied(docs: seq<Shorty>, i: nat, p: Patch, opts: UpdateOptions, now: int)
    requires Unique(docs) && i < |docs|
    requires !(opts.runValidators && PatchErrors(p) != [])
    requires Clash(docs, i, Merge(docs[i], p, now)) == None
    ensures PlanUpdate(docs, docs[i].id, p, opts, now) == Updated(i, docs[i], Merge(docs[i], p, now))
  {
    var f := Find(docs, ById(docs[i].id));
    KeyMatchesOnce(docs, ById(docs[i].id), f.value, i);
  }

  /**
   * Without update validators, a patch that empties the `url` of a document is
   * stored (provided no other document has an empty url): the `required`
   * rule of the schema holds on `save` only. With validators it is refused.
   */
  lemma EmptyUrlPatch(docs: seq<Shorty>, i: nat, returnNew: bool, now: int)
    requires Unique(docs) && i < |docs|
    requires forall j :: 0 <= j < |docs| && j != i ==> docs[j].url != ""
    ensures var p := Patch(None, Some(""), None);
      PlanUpdate(docs, docs[i].id, p, UpdateOptions(false, returnNew), now)
        == Updated(i, docs[i], docs[i].(url := "", updatedAt := now))
    ensures var p := Patch(None, Some(""), None);
      PlanUpdate(docs, docs[i].id, p, UpdateOptions(true, returnNew), now)
        == Refused(ValidationError([Required("url")]))
  {
    var p := Patch(None, Some(""), None);
    assert PatchErrors(p) == [Required("url")];
    var f := Find(docs, ById(docs[i].id));
    assert f.Some?;
    KeyMatchesOnce(docs, ById(docs[i].id), f.value, i);
    assert Merge(docs[i], p, now) == docs[i].(url := "", updatedAt := now);
  }

  // ---------------------------------------------------------------------------
  // The collection

  class Store {
    /** The documents in natural (insertion) order. */
    var docs: seq<Shorty>
    /** The id the next saved document receives. */
    var nextId: nat
    /** The moment the model module was loaded, which fixes the `expireAt` default. */
    const loadTime: int

    ghost predicate Valid()
      reads this
    {
      Unique(docs) && forall i :: 0 <= i < |docs| ==> docs[i].id < nextId
    }

    constructor (loadTime: int)
      ensures Valid() && docs == [] && nextId == 0 && this.loadTime == loadTime
    {
      docs := [];
      nextId := 0;
      this.loadTime := loadTime;
    }

    /** `find({})`: every document, in natural order. */
    method All() returns (all: seq<Shorty>)
      ensures all == docs
      ensures forall d :: d in docs <==> d in all
    {
      all := docs;
    }

    /** `findById(id)` and `findOne(filter)`: the first matching document, if any. */
    method FindOne(q: Query) returns (r: Option<Shorty>)
      ensures r == Lookup(docs, q)
      ensures r.Some? ==> r.value in docs && Matches(r.value, q)
      ensures r.None? ==> forall d :: d in docs ==> !Matches(d, q)
    {
      r := Lookup(docs, q);
    }

    /** `new Shorty(fields).save()`: validate, check the unique indexes, then store. */
    method Save(d: Draft, now: int) returns (r: Result<Shorty, SaveError>)
      requires Valid()
      modifies this
      ensures Valid()
      ensures match Rejection(old(docs), d) {
        case Some(e) => r == Err(e) && docs == old(docs) && nextId == old(nextId)
        case None =>
          && r == Ok(Build(d, old(nextId), now, loadTime))
          && docs == old(docs) + [r.value] && nextId == old(nextId) + 1
      }
    {
      var rejection := Rejection(docs, d);
      if rejection.Some? {
        r := Err(rejection.value);
      } else {
        var doc := Build(d, nextId, now, loadTime);
        SaveKeepsUnique(docs, d, nextId, now, loadTime);
        docs := docs + [doc];
        nextId := nextId + 1;
        r := Ok(doc);
      }
    }

    /** `findByIdAndRemove(id)` and `findOneAndRemove(filter)`: remove the first match and return it. */
    method RemoveOne(q: Query) returns (r: Option<Shorty>)
      requires Valid()
      modifies this
      ensures Valid() && nextId == old(nextId)
      ensures match Find(old(docs), q) {
        case None => r == None && docs == old(docs)
        case Some(i) => r == Some(old(docs)[i]) && docs == Without(old(docs), i)
      }
    {
      var found := Find(docs, q);
      if found.Some? {
        var i := found.value;
        r := Some(docs[i]);
        RemoveKeepsUnique(docs, i);
        docs := Without(docs, i);
      } else {
        r := None;
      }
    }

    /** `findByIdAndUpdate(id, {$set: p}, options)`; the result is the document before or after the update. */
    method UpdateById(id: nat, p: Patch, opts: UpdateOptions, now: int)
      returns (r: Result<Option<Shorty>, SaveError>)
      requires Valid()
      modifies this
      ensures Valid() && nextId == old(nextId)
      ensures var o := PlanUpdate(old(docs), id, p, opts, now);
        && docs == AfterUpdate(old(docs), o)
        && r == match o {
          case Refused(e) => Err(e)
          case Missing => Ok(None)
          case Updated(_, before, after) => Ok(Some(if opts.returnNew then after else before))
        }
    {
      var o := PlanUpdate(docs, id, p, opts, now);
      match o {
        case Refused(e) =>
          r := Err(e);
        case Missing =>
          r := Ok(None);
        case Updated(i, before, after) =>
          UpdateKeepsUnique(docs, i, p, now);
          docs := docs[i := after];
          r := Ok(Some(if opts.returnNew then after else before));
      }
    }
  }
}
