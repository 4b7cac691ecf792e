/**
 * The Shorty schema of api/models/shorty.js: the stored record, the fields a
 * new record is built from, the per-path validators (`required`, the URL
 * validator) and the two unique indexes, on `uid` and on `url`.
 *
 * Times are milliseconds since the epoch. The `expireAt` default is the value
 * of `moment().add(1, 'day')` computed once, when the model module is loaded;
 * `loadTime` stands for that moment.
 */
module ShortySchema {
  import opened Common
  import UrlValidator

  /** One day in milliseconds, the offset of the `expireAt` default. */
  const OneDay: int := 86_400_000

  /** A stored document: its ObjectId (`_id`), the schema paths and the timestamps. */
  datatype Shorty = Shorty(id: nat, uid: string, url: string, expireAt: int,
                           createdAt: int, updatedAt: int)

  /** The fields passed to `new Shorty({...})`; an absent field is `None`. */
  datatype Draft = Draft(uid: Option<string>, url: Option<string>, expireAt: Option<int>)

  /** A failed validator of one path. */
  datatype FieldError = Required(path: string) | Invalid(path: string, message: string)

  /** Why `save()` rejects a document. */
  datatype SaveError =
    | ValidationError(errors: seq<FieldError>)
    | DuplicateKey(path: string)

  /** `required: true` on a String path: the value is there and is not empty. */
  predicate Present(v: Option<string>) {
    v.Some? && v.value != ""
  }

  function UidErrors(uid: Option<string>): seq<FieldError> {
    if Present(uid) then [] else [Required("uid")]
  }

  /** The `url` path runs `required` first and the URL validator only on a present value. */
  function UrlErrors(url: Option<string>): seq<FieldError> {
    if !Present(url) then [Required("url")]
    else if !UrlValidator.ValidUrl(url.value) then [Invalid("url", UrlValidator.Message)]
    else []
  }

  /** The validation errors of a new document, path by path in schema order. */
  function FieldErrors(d: Draft): (errs: seq<FieldError>)
    ensures errs == [] <==>
      Present(d.uid) && Present(d.url) && UrlValidator.ValidUrl(d.url.value)
    ensures Required("uid") in errs <==> !Present(d.uid)
    ensures Required("url") in errs <==> !Present(d.url)
    ensures Invalid("url", UrlValidator.Message) in errs <==>
      Present(d.url) && !UrlValidator.ValidUrl(d.url.value)
  {
    UidErrors(d.uid) + UrlErrors(d.url)
  }

  predicate UidTaken(docs: seq<Shorty>, uid: string) {
    exists i :: 0 <= i < |docs| && docs[i].uid == uid
  }

  predicate UrlTaken(docs: seq<Shorty>, url: string) {
    exists i :: 0 <= i < |docs| && docs[i].url == url
  }

  /** What the unique indexes and `_id` guarantee of a collection. */
  ghost predicate Unique(docs: seq<Shorty>) {
    forall i, j :: 0 <= i < j < |docs| ==>
      docs[i].id != docs[j].id && docs[i].uid != docs[j].uid && docs[i].url != docs[j].url
  }

  /**
   * The outcome of `save()` on a new document against the collection `docs`:
   * validation first, then the unique indexes (`uid` is reported before `url`
   * when both collide).
   */
  function Rejection(docs: seq<Shorty>, d: Draft): (r: Option<SaveError>)
    ensures r == None <==>
      FieldErrors(d) == [] && !UidTaken(docs, d.uid.value) && !UrlTaken(docs, d.url.value)
    ensures r.Some? && r.value.ValidationError? ==> r.value.errors == FieldErrors(d) != []
    ensures r.Some? && r.value.DuplicateKey? ==>
      && FieldErrors(d) == []
      && ((r.value.path == "uid" && UidTaken(docs, d.uid.value)) ||
          (r.value.path == "url" && UrlTaken(docs, d.url.value)))
  {
    var errs := FieldErrors(d);
    if errs != [] then Some(ValidationError(errs))
    else if UidTaken(docs, d.uid.value) then Some(DuplicateKey("uid"))
    else if UrlTaken(docs, d.url.value) then Some(DuplicateKey("url"))
    else None
  }

  /** The schema and the indexes accept the document. */
  predicate CanSave(docs: seq<Shorty>, d: Draft) {
    Rejection(docs, d) == None
  }

  /** The `expireAt` default: the module-load time plus one day, the same for every document. */
  function DefaultExpireAt(loadTime: int): int {
    loadTime + OneDay
  }

  /** The document `save()` stores: the defaults filled in and both timestamps set to `now`. */
  function Build(d: Draft, id: nat, now: int, loadTime: int): (doc: Shorty)
    requires Present(d.uid) && Present(d.url)
  {
    Shorty(id, d.uid.value, d.url.value,
           match d.expireAt { case Some(t) => t case None => DefaultExpireAt(loadTime) },
           now, now)
  }

  /** The TTL index with `expires: 0` lets the server remove a document once `expireAt` has passed. */
  predicate Expired(doc: Shorty, now: int) {
    now >= doc.expireAt
  }

  // ---------------------------------------------------------------------------
  // Properties

  /** A document without a `uid` is rejected by validation, whatever the collection holds. */
  lemma MissingUidRejected(docs: seq<Shorty>, d: Draft)
    requires !Present(d.uid)
    ensures Rejection(docs, d) == Some(ValidationError(FieldErrors(d)))
    ensures Required("uid") in Rejection(docs, d).value.errors
  {
  }

  /** A valid document whose `uid` is already stored is rejected by the unique index on `uid`. */
  lemma DuplicateUidRejected(docs: seq<Shorty>, d: Draft, i: nat)
    requires FieldErrors(d) == [] && i < |docs| && docs[i].uid == d.uid.value
    ensures Rejection(docs, d) == Some(DuplicateKey("uid"))
  {
  }

  /** A document that passes `save()` keeps the collection unique once appended. */
  lemma {:induction false} SaveKeepsUnique(docs: seq<Shorty>, d: Draft, id: nat, now: int, loadTime: int)
    requires Unique(docs) && CanSave(docs, d)
    requires forall i :: 0 <= i < |docs| ==> docs[i].id != id
    ensures Unique(docs + [Build(d, id, now, loadTime)])
  {
    var doc := Build(d, id, now, loadTime);
    var all := docs + [doc];
    forall i, j | 0 <= i < j < |all|
      ensures all[i].id != all[j].id && all[i].uid != all[j].uid && all[i].url != all[j].url
    {
      if j == |docs| {
        assert all[i] == docs[i] && all[j] == doc;
        assert !UidTaken(docs, doc.uid) && !UrlTaken(docs, doc.url);
      } else {
        assert all[i] == docs[i] && all[j] == docs[j];
      }
    }
  }

  /**
   * Every document saved without an explicit `expireAt` gets the same value,
   * whenever it is saved: the default is not computed per document.
   */
  lemma SharedDefaultExpiry(d1: Draft, d2: Draft, id1: nat, id2: nat, now1: int, now2: int, loadTime: int)
    requires Present(d1.uid) && Present(d1.url) && d1.expireAt.None?
    requires Present(d2.uid) && Present(d2.url) && d2.expireAt.None?
    ensures Build(d1, id1, now1, loadTime).expireAt == Build(d2, id2, now2, loadTime).expireAt
    ensures Build(d1, id1, now1, loadTime).expireAt == loadTime + OneDay
  {
  }

  /** A document saved a day or more after the module loaded is already past its expiry. */
  lemma LateSaveIsExpired(d: Draft, id: nat, now: int, loadTime: int)
    requires Present(d.uid) && Present(d.url) && d.expireAt.None?
    requires now >= loadTime + OneDay
    ensures Expired(Build(d, id, now, loadTime), now)
  {
  }
}
