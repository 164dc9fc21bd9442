/**
 * The product collection as an in-memory sequence of documents in insertion
 * order, with the queries the routes issue: `findOne({ ID })`,
 * `find({ ID: { $in: ids } })` and `updateMany({ ID: { $in: ids } }, { type_tag })`.
 */
module Collection {
  import opened Wrappers
  import opened Schema

  /**
   * What the database itself keeps, whatever the application writes: the
   * unique `ID` index, timestamps and `_id`s below the store's counters, and
   * creation order equal to storage order.
   */
  predicate StoreConsistent(docs: seq<Product>, clock: nat, nextOid: nat) {
    UniqueIds(docs) && Stamped(docs, clock, nextOid) && Chronological(docs)
  }

  /**
   * The above, and the schema's constraints on every document. Only create runs
   * the validators; `updateMany` and `updateOne` do not, so a write that
   * bypasses them (a bulk update with a tag outside the enum, or the single
   * product PUT) can leave a document the schema forbids. The handlers modelled
   * here keep this invariant whenever it held before the request.
   */
  predicate StoreInvariant(docs: seq<Product>, clock: nat, nextOid: nat) {
    StoreConsistent(docs, clock, nextOid) && AllValid(docs)
  }

  predicate AllValid(docs: seq<Product>) {
    forall i :: 0 <= i < |docs| ==> ValidRecord(docs[i])
  }

  predicate Stamped(docs: seq<Product>, clock: nat, nextOid: nat) {
    forall i :: 0 <= i < |docs| ==>
      docs[i].createdAt <= docs[i].updatedAt < clock && docs[i].oid < nextOid
  }

  predicate Chronological(docs: seq<Product>) {
    forall i, j :: 0 <= i < j < |docs| ==>
      docs[i].createdAt < docs[j].createdAt && docs[i].oid < docs[j].oid
  }

  /** The stored collection; `clock` stands for the timestamps, `nextOid` for `_id` generation. */
  class ProductCollection {
    var docs: seq<Product>
    var clock: nat
    var nextOid: nat

    ghost predicate Consistent()
      reads this
    {
      StoreConsistent(docs, clock, nextOid)
    }

    ghost predicate Valid()
      reads this
    {
      StoreInvariant(docs, clock, nextOid)
    }

    constructor ()
      ensures Valid() && docs == []
    {
      docs := [];
      clock := 0;
      nextOid := 0;
    }
  }

  /** `findOne({ ID: id })`: the first document with that `ID`, if any. */
  function FindById(docs: seq<Product>, id: int): (r: Option<Product>)
    ensures r.Some? <==> HasId(docs, id)
    ensures r.Some? ==> r.value in docs && r.value.id == id
  {
    if docs == [] then None
    else if docs[0].id == id then Some(docs[0])
    else
      var r := FindById(docs[1..], id);
      assert HasId(docs, id) ==> HasId(docs[1..], id) by {
        if HasId(docs, id) {
          var i :| 0 <= i < |docs| && docs[i].id == id;
          assert docs[1..][i - 1] == docs[i];
        }
      }
      assert HasId(docs[1..], id) ==> HasId(docs, id) by {
        if HasId(docs[1..], id) {
          var i :| 0 <= i < |docs[1..]| && docs[1..][i].id == id;
          assert docs[i + 1] == docs[1..][i];
        }
      }
      r
  }

  /** `find({ ID: { $in: ids } })`: the documents whose `ID` is listed, in storage order. */
  function Matching(docs: seq<Product>, ids: seq<int>): (r: seq<Product>)
    ensures |r| <= |docs|
    ensures forall x :: x in r <==> x in docs && x.id in ids
  {
    if docs == [] then []
    else (if docs[0].id in ids then [docs[0]] else []) + Matching(docs[1..], ids)
  }

  /**
   * `find` with `$in` keeps every listed document as often as it is stored,
   * and no other document.
   */
  lemma {:induction false} MatchingMultiplicity(docs: seq<Product>, ids: seq<int>, x: Product)
    ensures multiset(Matching(docs, ids))[x] == if x.id in ids then multiset(docs)[x] else 0
  {
    if docs != [] {
      MatchingMultiplicity(docs[1..], ids, x);
      assert docs == [docs[0]] + docs[1..];
      var head := if docs[0].id in ids then [docs[0]] else [];
      assert Matching(docs, ids) == head + Matching(docs[1..], ids);
      assert multiset(docs) == multiset{docs[0]} + multiset(docs[1..]);
    }
  }

  /** The effect of `updateMany` on one document; timestamps make it bump `updatedAt`. */
  function Retag(p: Product, tag: int, now: nat): Product {
    p.(tag := tag, updatedAt := now)
  }

  /**
   * `updateMany({ ID: { $in: ids } }, { type_tag: tag })` at time `now`:
   * every listed document is retagged and nothing else changes.
   */
  function SetTag(docs: seq<Product>, ids: seq<int>, tag: int, now: nat): (r: seq<Product>)
    ensures |r| == |docs|
    ensures forall i :: 0 <= i < |docs| ==>
      r[i] == if docs[i].id in ids then Retag(docs[i], tag, now) else docs[i]
  {
    if docs == [] then []
    else [if docs[0].id in ids then Retag(docs[0], tag, now) else docs[0]]
         + SetTag(docs[1..], ids, tag, now)
  }

  /**
   * `modifiedCount`: how many documents an update actually changed. It is at
   * most the number of documents, and zero exactly when nothing changed.
   */
  function CountChanged(before: seq<Product>, after: seq<Product>): (n: nat)
    requires |before| == |after|
    ensures n <= |before|
    ensures n == 0 <==> before == after
  {
    if before == [] then 0
    else
      var n := (if before[0] != after[0] then 1 else 0) + CountChanged(before[1..], after[1..]);
      assert before == [before[0]] + before[1..] && after == [after[0]] + after[1..];
      n
  }

  /** How many listed documents held a tag other than `tag`. */
  function CountTagDiffers(docs: seq<Product>, ids: seq<int>, tag: int): nat {
    if docs == [] then 0
    else (if docs[0].id in ids && docs[0].tag != tag then 1 else 0)
         + CountTagDiffers(docs[1..], ids, tag)
  }

  /** Re-reading the listed documents after the update gives them back, each retagged. */
  lemma {:induction false} MatchingAfterSetTag(docs: seq<Product>, ids: seq<int>, tag: int, now: nat)
    ensures Matching(SetTag(docs, ids, tag, now), ids) == SetTag(Matching(docs, ids), ids, tag, now)
    ensures forall x :: x in Matching(SetTag(docs, ids, tag, now), ids) ==> x.tag == tag
    ensures |Matching(SetTag(docs, ids, tag, now), ids)| == |Matching(docs, ids)|
  {
    if docs != [] {
      MatchingAfterSetTag(docs[1..], ids, tag, now);
      var r := SetTag(docs, ids, tag, now);
      assert r[1..] == SetTag(docs[1..], ids, tag, now);
      assert r[0].id == docs[0].id;
      var m := Matching(docs, ids);
      if docs[0].id in ids {
        assert m[1..] == Matching(docs[1..], ids);
        assert SetTag(m, ids, tag, now) == [Retag(docs[0], tag, now)] + SetTag(m[1..], ids, tag, now);
      } else {
        assert m == Matching(docs[1..], ids);
      }
    }
  }

  /**
   * `modifiedCount <= matched`, and every matched document whose tag differed
   * is among the modified ones.
   */
  lemma {:induction false} ModifiedBounds(docs: seq<Product>, ids: seq<int>, tag: int, now: nat)
    ensures CountTagDiffers(docs, ids, tag) <= CountChanged(docs, SetTag(docs, ids, tag, now))
    ensures CountChanged(docs, SetTag(docs, ids, tag, now)) <= |Matching(docs, ids)|
  {
    if docs != [] {
      ModifiedBounds(docs[1..], ids, tag, now);
      assert SetTag(docs, ids, tag, now)[1..] == SetTag(docs[1..], ids, tag, now);
    }
  }

  /**
   * When `now` is later than every `updatedAt`, the bumped timestamp makes every
   * matched document differ, so `modifiedCount` equals the number matched even for
   * documents that already held the tag.
   */
  lemma {:induction false} ModifiedEqualsMatched(docs: seq<Product>, ids: seq<int>, tag: int, now: nat)
    requires forall i :: 0 <= i < |docs| ==> docs[i].updatedAt < now
    ensures CountChanged(docs, SetTag(docs, ids, tag, now)) == |Matching(docs, ids)|
  {
    if docs != [] {
      ModifiedEqualsMatched(docs[1..], ids, tag, now);
      assert SetTag(docs, ids, tag, now)[1..] == SetTag(docs[1..], ids, tag, now);
    }
  }

  /**
   * Inserting a freshly stamped document with a new `ID` keeps the store
   * consistent, and keeps the whole invariant when the document is valid.
   */
  lemma InsertKeepsInvariant(docs: seq<Product>, clock: nat, nextOid: nat, p: Product)
    requires StoreConsistent(docs, clock, nextOid) && !HasId(docs, p.id)
    requires p.oid == nextOid && p.createdAt == clock && p.updatedAt == clock
    ensures StoreConsistent(docs + [p], clock + 1, nextOid + 1)
    ensures AllValid(docs) && ValidRecord(p) ==> StoreInvariant(docs + [p], clock + 1, nextOid + 1)
  {
    UniqueIdsAppend(docs, p);
    if AllValid(docs) && ValidRecord(p) {
      AllValidAppend(docs, p);
    }
    StampedAppend(docs, clock, nextOid, p);
    ChronologicalAppend(docs, clock, nextOid, p);
  }

  lemma AllValidAppend(docs: seq<Product>, p: Product)
    requires AllValid(docs) && ValidRecord(p)
    ensures AllValid(docs + [p])
  {
    var r := docs + [p];
    forall i | 0 <= i < |r| ensures ValidRecord(r[i]) {
      if i < |docs| { assert r[i] == docs[i]; }
    }
  }

  lemma StampedAppend(docs: seq<Product>, clock: nat, nextOid: nat, p: Product)
    requires Stamped(docs, clock, nextOid)
    requires p.oid == nextOid && p.createdAt == clock && p.updatedAt == clock
    ensures Stamped(docs + [p], clock + 1, nextOid + 1)
  {
    var r := docs + [p];
    forall i | 0 <= i < |r|
      ensures r[i].createdAt <= r[i].updatedAt < clock + 1 && r[i].oid < nextOid + 1
    {
      if i < |docs| { assert r[i] == docs[i]; }
    }
  }

  lemma ChronologicalAppend(docs: seq<Product>, clock: nat, nextOid: nat, p: Product)
    requires Stamped(docs, clock, nextOid) && Chronological(docs)
    requires p.oid == nextOid && p.createdAt == clock
    ensures Chronological(docs + [p])
  {
    var r := docs + [p];
    forall i, j | 0 <= i < j < |r|
      ensures r[i].createdAt < r[j].createdAt && r[i].oid < r[j].oid
    {
      assert r[i] == docs[i];
      if j < |docs| {
        assert r[j] == docs[j];
      } else {
        assert r[j] == p;
        assert docs[i].createdAt <= docs[i].updatedAt < clock && docs[i].oid < nextOid;
      }
    }
  }

  /**
   * Everything the bulk handler relies on after `updateMany` at the store's
   * clock: the store stays consistent, and keeps the whole invariant for a tag
   * in the enum; `modifiedCount` equals the number matched; and re-reading the
   * listed documents gives the ones found before, each retagged.
   */
  lemma UpdateManyOutcome(docs: seq<Product>, clock: nat, nextOid: nat, ids: seq<int>, tag: int)
    requires StoreConsistent(docs, clock, nextOid)
    ensures var after := SetTag(docs, ids, tag, clock);
      && StoreConsistent(after, clock + 1, nextOid)
      && (AllValid(docs) && ValidTag(tag) ==> StoreInvariant(after, clock + 1, nextOid))
      && CountChanged(docs, after) == |Matching(docs, ids)|
      && Matching(after, ids) == SetTag(Matching(docs, ids), ids, tag, clock)
      && |Matching(after, ids)| == |Matching(docs, ids)|
      && (forall x :: x in Matching(after, ids) ==> x.tag == tag)
  {
    SetTagKeepsInvariant(docs, clock, nextOid, ids, tag);
    assert forall i :: 0 <= i < |docs| ==> docs[i].updatedAt < clock;
    ModifiedEqualsMatched(docs, ids, tag, clock);
    MatchingAfterSetTag(docs, ids, tag, clock);
  }

  /**
   * Retagging keeps the store consistent, and keeps the whole invariant when
   * the tag is one the schema allows.
   */
  lemma SetTagKeepsInvariant(docs: seq<Product>, clock: nat, nextOid: nat, ids: seq<int>, tag: int)
    requires StoreConsistent(docs, clock, nextOid)
    ensures StoreConsistent(SetTag(docs, ids, tag, clock), clock + 1, nextOid)
    ensures AllValid(docs) && ValidTag(tag) ==> StoreInvariant(SetTag(docs, ids, tag, clock), clock + 1, nextOid)
  {
    SetTagKeepsIds(docs, ids, tag, clock);
    if AllValid(docs) && ValidTag(tag) {
      SetTagKeepsValid(docs, ids, tag, clock);
    }
    SetTagKeepsStamps(docs, clock, nextOid, ids, tag);
  }

  lemma SetTagKeepsIds(docs: seq<Product>, ids: seq<int>, tag: int, now: nat)
    requires UniqueIds(docs)
    ensures UniqueIds(SetTag(docs, ids, tag, now))
  {
    var r := SetTag(docs, ids, tag, now);
    forall i, j | 0 <= i < j < |r| ensures r[i].id != r[j].id {
      assert r[i].id == docs[i].id && r[j].id == docs[j].id;
    }
  }

  lemma SetTagKeepsValid(docs: seq<Product>, ids: seq<int>, tag: int, now: nat)
    requires AllValid(docs) && ValidTag(tag)
    ensures AllValid(SetTag(docs, ids, tag, now))
  {
    var r := SetTag(docs, ids, tag, now);
    forall i | 0 <= i < |r| ensures ValidRecord(r[i]) {
      assert ValidRecord(docs[i]);
    }
  }

  lemma SetTagKeepsStamps(docs: seq<Product>, clock: nat, nextOid: nat, ids: seq<int>, tag: int)
    requires Stamped(docs, clock, nextOid) && Chronological(docs)
    ensures Stamped(SetTag(docs, ids, tag, clock), clock + 1, nextOid)
    ensures Chronological(SetTag(docs, ids, tag, clock))
  {
    var r := SetTag(docs, ids, tag, clock);
    forall i | 0 <= i < |r|
      ensures r[i].createdAt <= r[i].updatedAt < clock + 1 && r[i].oid < nextOid
    {
      assert docs[i].createdAt <= docs[i].updatedAt < clock;
    }
    forall i, j | 0 <= i < j < |r|
      ensures r[i].createdAt < r[j].createdAt && r[i].oid < r[j].oid
    {
      assert docs[i].createdAt < docs[j].createdAt;
    }
  }
}
