/**
 * The handlers of api/controllers/Shorty.js, which address a Shorty by its
 * `uid` and check the request body with express-validator before touching
 * the store: `checkBody(p, msg).notEmpty()` runs on the raw value,
 * `sanitizeBody(p).trim()` then rewrites the body value in place, and
 * `validationErrors(true)` reports the failed checks.
 *
 * Whitespace is the ASCII set: space, tab, line feed, vertical tab, form
 * feed and carriage return.
 */
module RoutesByUid {
  import opened Common
  import opened ShortySchema
  import opened ShortyStore
  import opened Responses

  const MissingUid: string := "Missing Shorty UID"
  const MissingUrl: string := "Missing Shorty URL"

  predicate IsAsciiSpace(c: char) {
    c == ' ' || c == '\t' || c == '\n' || c == '\r' || c as int == 11 || c as int == 12
  }

  /** `notEmpty()`: the value is there and has a character that is not whitespace. */
  predicate NotEmpty(v: Option<string>) {
    v.Some? && exists k :: 0 <= k < |v.value| && !IsAsciiSpace(v.value[k])
  }

  /** Drop the leading whitespace. */
  function TrimStart(s: string): (r: string)
    ensures |r| <= |s| && r == s[|s| - |r|..]
    ensures forall k :: 0 <= k < |s| - |r| ==> IsAsciiSpace(s[k])
    ensures r != [] ==> !IsAsciiSpace(r[0])
  {
    if s != [] && IsAsciiSpace(s[0]) then TrimStart(s[1..]) else s
  }

  /** Drop the trailing whitespace. */
  function TrimEnd(s: string): (r: string)
    ensures |r| <= |s| && r == s[..|r|]
    ensures forall k :: |r| <= k < |s| ==> IsAsciiSpace(s[k])
    ensures r != [] ==> !IsAsciiSpace(r[|r| - 1])
  {
    if s != [] && IsAsciiSpace(s[|s| - 1]) then TrimEnd(s[..|s| - 1]) else s
  }

  /**
   * `trim()`: the slice of `s` left once the whitespace at both ends is
   * removed; what it removes is whitespace and what it keeps begins and ends
   * with a character that is not.
   */
  function Trim(s: string): (r: string)
    ensures exists i, j ::
      && 0 <= i <= j <= |s| && r == s[i..j]
      && (forall k :: 0 <= k < i ==> IsAsciiSpace(s[k]))
      && (forall k :: j <= k < |s| ==> IsAsciiSpace(s[k]))
    ensures r != [] ==> !IsAsciiSpace(r[0]) && !IsAsciiSpace(r[|r| - 1])
  {
    var t := TrimStart(s);
    var r := TrimEnd(t);
    var i := |s| - |t|;
    assert r == s[i..i + |r|];
    r
  }

  /** The check of one body parameter, as an entry of the error list. */
  function Check(param: string, v: Option<string>, msg: string): seq<ParamError>
  {
    if NotEmpty(v) then [] else [ParamError(param, msg)]
  }

  /** The checks of a delete request, in the order they are declared. */
  function DeleteErrors(uid: Option<string>, url: Option<string>): (errs: seq<ParamError>)
    ensures errs == [] <==> NotEmpty(uid) && NotEmpty(url)
    ensures ParamError("uid", MissingUid) in errs <==> !NotEmpty(uid)
    ensures ParamError("url", MissingUrl) in errs <==> !NotEmpty(url)
    ensures |errs| <= 2
  {
    Check("uid", uid, MissingUid) + Check("url", url, MissingUrl)
  }

  /** GET /:uid: the document with the uid, or 404. */
  method GetByUid(store: Store, uid: string) returns (resp: Response)
    ensures resp.status == 200 <==> UidTaken(store.docs, uid)
    ensures resp.status == 200 ==> resp.body.One? && resp.body.doc in store.docs && resp.body.doc.uid == uid
    ensures resp.status != 200 ==> resp == Response(404, Message(NotFound))
  {
    var r := store.FindOne(ByUid(uid));
    resp := FoundOrNotFound(r);
  }

  /**
   * POST /: 400 with the validator error for an empty url; otherwise one save
   * of `{url: trimmed url}`. That document has no uid, which the schema
   * requires, so the save is rejected and the store never changes.
   */
  method Create(store: Store, url: Option<string>, now: int) returns (resp: Response)
    requires store.Valid()
    modifies store
    ensures store.Valid() && store.docs == old(store.docs) && store.nextId == old(store.nextId)
    ensures resp.status == 400
    ensures !NotEmpty(url) ==> resp == Response(400, Invalids([ParamError("url", MissingUrl)]))
    ensures NotEmpty(url) ==>
      && resp == Response(400, Rejected(ValidationError(FieldErrors(Draft(None, Some(Trim(url.value)), None)))))
      && Required("uid") in resp.body.cause.errors
  {
    var errs := Check("url", url, MissingUrl);
    if errs != [] {
      resp := Response(400, Invalids(errs));
    } else {
      var d := Draft(None, Some(Trim(url.value)), None);
      MissingUidRejected(store.docs, d);
      var r := store.Save(d, now);
      match r {
        case Ok(doc) => resp := Response(200, One(doc));
        case Err(e) => resp := Response(400, Rejected(e));
      }
    }
  }

  /**
   * DELETE /: 400 with the failed checks unless both uid and url are
   * non-empty; otherwise remove the document whose uid and url equal the
   * trimmed values, 200 with it, or 404.
   */
  method DeleteByPair(store: Store, uid: Option<string>, url: Option<string>) returns (resp: Response)
    requires store.Valid()
    modifies store
    ensures store.Valid() && store.nextId == old(store.nextId)
    ensures DeleteErrors(uid, url) != [] ==>
      resp == Response(400, Invalids(DeleteErrors(uid, url))) && store.docs == old(store.docs)
    ensures DeleteErrors(uid, url) == [] ==>
      match Find(old(store.docs), ByUidAndUrl(Trim(uid.value), Trim(url.value))) {
        case None => resp == Response(404, Message(NotFound)) && store.docs == old(store.docs)
        case Some(i) =>
          && resp == Response(200, One(old(store.docs)[i]))
          && store.docs == Without(old(store.docs), i)
      }
  {
    var errs := DeleteErrors(uid, url);
    if errs != [] {
      resp := Response(400, Invalids(errs));
    } else {
      var r := store.RemoveOne(ByUidAndUrl(Trim(uid.value), Trim(url.value)));
      resp := FoundOrNotFound(r);
    }
  }

  // ---------------------------------------------------------------------------
  // Properties of the body checks
  // ---------------------------------------------------------------------------

  lemma TrimStartKeeps(s: string)
    requires s == [] || !IsAsciiSpace(s[0])
    ensures TrimStart(s) == s
  {
  }

  lemma TrimEndKeeps(s: string)
    requires s == [] || !IsAsciiSpace(s[|s| - 1])
    ensures TrimEnd(s) == s
  {
  }

  /** Trimming twice is trimming once. */
  lemma TrimIdempotent(s: string)
    ensures Trim(Trim(s)) == Trim(s)
  {
    var r := Trim(s);
    TrimStartKeeps(r);
    TrimEndKeeps(r);
  }

  /** A non-empty trimmed value starts with a character of the raw value that is not whitespace. */
  lemma TrimmedKeepsMark(s: string)
    requires Trim(s) != ""
    ensures NotEmpty(Some(s))
  {
    var r := Trim(s);
    var i, j :| 0 <= i <= j <= |s| && r == s[i..j];
    assert s[i] == r[0];
  }

  /** An empty trimmed value means the raw value is whitespace only. */
  lemma TrimmedEmptyAllSpace(s: string)
    requires Trim(s) == ""
    ensures forall k :: 0 <= k < |s| ==> IsAsciiSpace(s[k])
  {
    var i, j :|
      && 0 <= i <= j <= |s| && "" == s[i..j]
      && (forall k :: 0 <= k < i ==> IsAsciiSpace(s[k]))
      && (forall k :: j <= k < |s| ==> IsAsciiSpace(s[k]));
    assert i == j;
  }

  /** `notEmpty()` on the raw value holds exactly when the trimmed value is not empty. */
  lemma NotEmptyIffTrimmed(s: string)
    ensures NotEmpty(Some(s)) <==> Trim(s) != ""
  {
    if Trim(s) != "" {
      TrimmedKeepsMark(s);
    } else {
      TrimmedEmptyAllSpace(s);
    }
  }

  /**
   * The delete matches on both fields: a document that has the uid but
   * another url is not a match, and since the uid is unique no document is.
   */
  lemma {:induction false} UidOnlyMatchMisses(docs: seq<Shorty>, i: nat, uid: string, url: string)
    requires Unique(docs) && i < |docs|
    requires docs[i].uid == uid && docs[i].url != url
    ensures Find(docs, ByUidAndUrl(uid, url)) == None
  {
    forall j | 0 <= j < |docs| ensures !Matches(docs[j], ByUidAndUrl(uid, url)) {
      if j < i {
        assert docs[j].uid != docs[i].uid;
      } else if i < j {
        assert docs[i].uid != docs[j].uid;
      }
    }
  }

  /** Likewise for a document that has the url but another uid. */
  lemma {:induction false} UrlOnlyMatchMisses(docs: seq<Shorty>, i: nat, uid: string, url: string)
    requires Unique(docs) && i < |docs|
    requires docs[i].url == url && docs[i].uid != uid
    ensures Find(docs, ByUidAndUrl(uid, url)) == None
  {
    forall j | 0 <= j < |docs| ensures !Matches(docs[j], ByUidAndUrl(uid, url)) {
      if j < i {
        assert docs[j].url != docs[i].url;
      } else if i < j {
        assert docs[i].url != docs[j].url;
      }
    }
  }
}
