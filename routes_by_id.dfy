/**
 * The handlers of api/controllers/shorty.js, which address a Shorty by its
 * `_id`. Each handler runs to completion against the store; its response is
 * returned instead of written to `res`.
 */
module RoutesById {
  import opened Common
  import opened ShortySchema
  import opened ShortyStore
  import opened Responses
  import Permutator
  import UrlValidator

  /** `const permutator = new Permutator()`: the default alphabet and length, built once. */
  const Generator: Permutator.Permutator := Permutator.Default()

  /** The draws `next()` of the generator accepts: one valid pool index per drawn symbol. */
  predicate CanDraw(gen: Permutator.Permutator, choices: seq<nat>) {
    gen.k <= |gen.n| && |choices| == Permutator.Draws(gen) && Permutator.ValidChoices(|gen.n|, choices)
  }

  /** The document a create request asks to save: the url and the uid `permutator.next()` draws. */
  function CreateDraft(gen: Permutator.Permutator, url: string, choices: seq<nat>): Draft
    requires CanDraw(gen, choices)
  {
    Draft(Some(Permutator.Next(gen, choices)), Some(url), None)
  }

  /** The controller's generator draws 8 distinct alphanumeric symbols from 8 valid choices. */
  lemma GeneratorDraws(choices: seq<nat>)
    requires |choices| == 8 && Permutator.ValidChoices(62, choices)
    ensures CanDraw(Generator, choices)
    ensures var uid := Permutator.Next(Generator, choices);
      && |uid| == 8 && Distinct(uid) && forall c :: c in uid ==> Permutator.IsAlphanumeric(c)
  {
    Permutator.DefaultNextShape(choices);
  }

  /** GET /: every document, 200. */
  method List(store: Store) returns (resp: Response)
    ensures resp == Response(200, Many(store.docs))
  {
    var all := store.All();
    resp := Response(200, Many(all));
  }

  /** GET /:id: the document with the id, or 404. */
  method Get(store: Store, id: nat) returns (resp: Response)
    ensures resp.status == 200 <==> exists i :: 0 <= i < |store.docs| && store.docs[i].id == id
    ensures resp.status == 200 ==> resp.body.One? && resp.body.doc in store.docs && resp.body.doc.id == id
    ensures resp.status != 200 ==> resp == Response(404, Message(NotFound))
  {
    var r := store.FindOne(ById(id));
    resp := FoundOrNotFound(r);
  }

  /**
   * POST /: 422 when a document already has the url; otherwise one save of a
   * document with the url and a freshly drawn uid, 200 with it or 400 with
   * the rejection. A rejected save is not retried with another uid. `gen` is
   * the controller's `permutator` (`Generator`, which `GeneratorDraws` shows
   * can draw from any 8 valid choices); `choices` stand for the randomness
   * of `_.sample`.
   */
  method Create(store: Store, gen: Permutator.Permutator, url: string, choices: seq<nat>, now: int)
    returns (resp: Response)
    requires store.Valid() && CanDraw(gen, choices)
    modifies store
    ensures store.Valid()
    ensures UrlTaken(old(store.docs), url) ==>
      && resp == Response(422, Message(AlreadyExists))
      && store.docs == old(store.docs) && store.nextId == old(store.nextId)
    ensures !UrlTaken(old(store.docs), url) ==>
      var d := CreateDraft(gen, url, choices);
      match Rejection(old(store.docs), d) {
        case Some(e) =>
          && resp == Response(400, Rejected(e))
          && store.docs == old(store.docs) && store.nextId == old(store.nextId)
        case None =>
          var doc := Build(d, old(store.nextId), now, store.loadTime);
          && resp == Response(200, One(doc))
          && store.docs == old(store.docs) + [doc]
          && doc.uid == Permutator.Next(gen, choices) && doc.url == url
          && doc.expireAt == DefaultExpireAt(store.loadTime) && doc.createdAt == doc.updatedAt == now
      }
  {
    var existing := store.FindOne(ByUrl(url));
    if existing.Some? {
      resp := Response(422, Message(AlreadyExists));
    } else {
      var r := store.Save(CreateDraft(gen, url, choices), now);
      match r {
        case Ok(doc) => resp := Response(200, One(doc));
        case Err(e) => resp := Response(400, Rejected(e));
      }
    }
  }

  /** PATCH /:id: `$set` the given fields on the document with the id. */
  method Update(store: Store, id: nat, p: Patch, opts: UpdateOptions, now: int) returns (resp: Response)
    requires store.Valid()
    modifies store
    ensures store.Valid() && store.nextId == old(store.nextId)
    ensures var o := PlanUpdate(old(store.docs), id, p, opts, now);
      && store.docs == AfterUpdate(old(store.docs), o)
      && resp == match o {
        case Refused(e) => Response(400, Rejected(e))
        case Missing => Response(404, Message(NotFound))
        case Updated(_, before, after) => Response(200, One(if opts.returnNew then after else before))
      }
  {
    var r := store.UpdateById(id, p, opts, now);
    match r {
      case Err(e) => resp := Response(400, Rejected(e));
      case Ok(found) => resp := FoundOrNotFound(found);
    }
  }

  /** DELETE /:id: remove the document with the id and return it, or 404. */
  method Delete(store: Store, id: nat) returns (resp: Response)
    requires store.Valid()
    modifies store
    ensures store.Valid() && store.nextId == old(store.nextId)
    ensures match Find(old(store.docs), ById(id)) {
      case None => resp == Response(404, Message(NotFound)) && store.docs == old(store.docs)
      case Some(i) =>
        && resp == Response(200, One(old(store.docs)[i]))
        && store.docs == Without(old(store.docs), i)
    }
  {
    var r := store.RemoveOne(ById(id));
    resp := FoundOrNotFound(r);
  }

  // ---------------------------------------------------------------------------
  // Properties of the handlers' outcomes
  // ---------------------------------------------------------------------------

  /**
   * When the url is new, a create can fail only because the url is not a
   * valid URL (the drawn uid is never empty) or because the drawn uid is
   * already taken.
   */
  lemma CreateFailureCauses(docs: seq<Shorty>, gen: Permutator.Permutator, url: string, choices: seq<nat>)
    requires CanDraw(gen, choices) && gen.k > 0
    requires !UrlTaken(docs, url)
    ensures var r := Rejection(docs, CreateDraft(gen, url, choices));
      && (r == None <==> url != "" && UrlValidator.ValidUrl(url) && !UidTaken(docs, Permutator.Next(gen, choices)))
      && (r.Some? && r.value.ValidationError? ==> r.value.errors == UrlErrors(Some(url)) != [])
      && (r.Some? && r.value.DuplicateKey? ==> r.value.path == "uid")
  {
    var d := CreateDraft(gen, url, choices);
    assert Present(d.uid);
    assert UidErrors(d.uid) == [];
  }
}
