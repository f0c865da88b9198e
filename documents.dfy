/**
 * A MongoDB collection as the routes see it: a sequence of documents,
 * each with an ObjectId drawn from a counter, none stored twice.
 */
module Documents {
  /**
   * The collection invariant: every document passes `accepted`, its id is
   * below the counter, and no two documents share an id.
   */
  ghost predicate ValidDocs<D>(docs: seq<D>, id: D -> nat, accepted: D -> bool, nextId: nat) {
    && (forall i :: 0 <= i < |docs| ==> id(docs[i]) < nextId && accepted(docs[i]))
    && (forall i, j :: 0 <= i < j < |docs| ==> id(docs[i]) != id(docs[j]))
  }

  /** `save()` of a new document, whose id is the counter's next value. */
  lemma ValidAppend<D>(docs: seq<D>, id: D -> nat, accepted: D -> bool, nextId: nat, d: D)
    requires ValidDocs(docs, id, accepted, nextId)
    requires id(d) == nextId && accepted(d)
    ensures ValidDocs(docs + [d], id, accepted, nextId + 1)
  {
    var docs' := docs + [d];
    forall i | 0 <= i < |docs'| ensures id(docs'[i]) < nextId + 1 && accepted(docs'[i]) {
      if i < |docs| {
        assert docs'[i] == docs[i];
      }
    }
    forall i, j | 0 <= i < j < |docs'| ensures id(docs'[i]) != id(docs'[j]) {
      assert docs'[i] == docs[i];
    }
  }

  /** `save()` of a changed document that keeps its id. */
  lemma ValidReplace<D>(docs: seq<D>, id: D -> nat, accepted: D -> bool, nextId: nat, k: nat, d: D)
    requires ValidDocs(docs, id, accepted, nextId) && k < |docs|
    requires id(d) == id(docs[k]) && accepted(d)
    ensures ValidDocs(docs[k := d], id, accepted, nextId)
  {
  }

  /** `findByIdAndDelete`: the rest stays valid and no document keeps the removed id. */
  lemma ValidRemove<D>(docs: seq<D>, id: D -> nat, accepted: D -> bool, nextId: nat, k: nat)
    requires ValidDocs(docs, id, accepted, nextId) && k < |docs|
    ensures ValidDocs(docs[..k] + docs[k + 1..], id, accepted, nextId)
    ensures forall d :: d in docs[..k] + docs[k + 1..] ==> id(d) != id(docs[k])
  {
    var rest := docs[..k] + docs[k + 1..];
    assert forall i :: 0 <= i < |rest| ==> rest[i] == docs[if i < k then i else i + 1];
  }
}
