/**
 * `GET /api/products` (the whole collection, newest first) and
 * `POST /api/products` (field check, duplicate-ID check, insert with a tag default).
 */
module ProductsRoute {
  import opened Wrappers
  import opened Text
  import opened Schema
  import opened Collection
  import opened Api

  const FetchFailed := "Failed to fetch products"
  const FieldsRequired := "Product ID and Product name are required"
  const IdExists := "Product ID already exists"
  const CreateFailed := "Failed to create product"

  /** `sort({ createdAt: -1 })` ordering: creation times never increase along the list. */
  predicate NewestFirst(s: seq<Product>) {
    forall i, j :: 0 <= i < j < |s| ==> s[i].createdAt >= s[j].createdAt
  }

  /** Places `x` before the first element that is not newer than it. */
  function InsertByAge(x: Product, s: seq<Product>): (r: seq<Product>)
    requires NewestFirst(s)
    ensures NewestFirst(r)
    ensures multiset(r) == multiset(s) + multiset{x}
    ensures |r| == |s| + 1
    ensures r[0] == x || (s != [] && r[0] == s[0])
  {
    if s == [] || x.createdAt >= s[0].createdAt then
      ConsNewestFirst(x, s);
      [x] + s
    else
      var t := InsertByAge(x, s[1..]);
      assert s == [s[0]] + s[1..];
      ConsNewestFirst(s[0], t);
      [s[0]] + t
  }

  /** A document no older than the head of a newest-first list can go in front of it. */
  lemma ConsNewestFirst(h: Product, t: seq<Product>)
    requires NewestFirst(t) && (t == [] || h.createdAt >= t[0].createdAt)
    ensures NewestFirst([h] + t)
  {
    var r := [h] + t;
    forall i, j | 0 <= i < j < |r| ensures r[i].createdAt >= r[j].createdAt {
      assert r[j] == t[j - 1];
      if i > 0 {
        assert r[i] == t[i - 1];
      }
    }
  }

  /** The listing order of GET: every document exactly once, newest first. */
  function SortNewestFirst(s: seq<Product>): (r: seq<Product>)
    ensures NewestFirst(r)
    ensures multiset(r) == multiset(s)
    ensures |r| == |s|
  {
    if s == [] then []
    else
      var init := s[..|s| - 1];
      assert s == init + [s[|s| - 1]];
      InsertByAge(s[|s| - 1], SortNewestFirst(init))
  }

  function Reverse(s: seq<Product>): (r: seq<Product>)
    ensures |r| == |s|
  {
    if s == [] then [] else [s[|s| - 1]] + Reverse(s[..|s| - 1])
  }

  /**
   * In a store whose storage order is creation order, the listing is the
   * collection read backwards.
   */
  lemma {:induction false} ListingOfChronologicalStore(s: seq<Product>)
    requires Chronological(s)
    ensures SortNewestFirst(s) == Reverse(s)
  {
    if s != [] {
      var init := s[..|s| - 1];
      assert Chronological(init);
      ListingOfChronologicalStore(init);
      var sorted := SortNewestFirst(init);
      if init != [] {
        assert sorted[0] == init[|init| - 1];
        assert init[|init| - 1] == s[|s| - 2];
      }
    }
  }

  /**
   * GET: with the store reachable, 200 and every document exactly once, newest
   * first; otherwise 500. Any collection the store keeps in creation order is
   * listed, whether or not its documents satisfy the schema.
   */
  method Get(db: ProductCollection, conn: Connection) returns (resp: Reply<seq<Product>>)
    requires Chronological(db.docs)
    ensures conn.Down? ==> resp == Err(500, FetchFailed)
    ensures conn.Up? ==> resp.Ok? && resp.status == 200
    ensures conn.Up? ==> multiset(resp.data) == multiset(db.docs) && NewestFirst(resp.data)
    ensures conn.Up? ==> resp.data == Reverse(db.docs)
  {
    if conn.Down? {
      return Err(500, FetchFailed);
    }
    ListingOfChronologicalStore(db.docs);
    resp := Ok(200, SortNewestFirst(db.docs));
  }

  /** The JSON body of a create request; an absent field is None. */
  datatype CreateBody = CreateBody(id: Option<int>, name: Option<string>, tag: Option<int>)

  /** `!ID || !Product_name` is false: `ID` present and non-zero, name present and non-empty. */
  predicate HasRequiredFields(body: CreateBody) {
    body.id.Some? && body.id.value != 0 && body.name.Some? && body.name.value != ""
  }

  /** `type_tag || -1`: an absent tag and an explicit 0 both become -1. */
  function CreateTag(tag: Option<int>): (t: int)
    ensures tag.None? || tag.value == 0 ==> t == Unclassified
    ensures tag.Some? && tag.value != 0 ==> t == tag.value
  {
    if tag.None? || tag.value == 0 then Unclassified else tag.value
  }

  /**
   * The handler's `|| -1` agrees with the schema's `default: -1` on every tag
   * but an explicit 0, and so never yields the standard tag.
   */
  lemma CreateTagVersusDefault(tag: Option<int>)
    ensures CreateTag(tag) == TagOrDefault(tag) <==> tag != Some(Standard)
    ensures CreateTag(tag) != Standard
    ensures ValidTag(CreateTag(tag)) <==> tag.None? || ValidTag(tag.value)
  {
  }

  /**
   * The document `Product.create` would build from this body at this store
   * state: a schema-valid document with the body's `ID`, stamped with the
   * store's clock and next `_id`, whose tag is never the standard one.
   */
  function NewDocument(clock: nat, nextOid: nat, body: CreateBody): (r: Result<Product, SchemaError>)
    ensures r.Success? ==> ValidRecord(r.value) && Some(r.value.id) == body.id
    ensures r.Success? ==> r.value.oid == nextOid && r.value.createdAt == clock && r.value.updatedAt == clock
    ensures r.Success? ==> r.value.tag != Standard
  {
    CastDocument(body.id, body.name, Some(CreateTag(body.tag)), nextOid, clock)
  }

  /**
   * The handler's field check and the schema's `required` differ, but every
   * body the schema accepts with a non-zero `ID` passes the field check.
   */
  lemma FieldCheckVersusSchema(clock: nat, nextOid: nat, body: CreateBody)
    ensures NewDocument(clock, nextOid, body).Success? && body.id != Some(0) ==> HasRequiredFields(body)
  {
  }

  /** A blank name passes the field check and fails the schema's `required`: 500, not 400. */
  lemma BlankNamePassesFieldCheck(clock: nat, nextOid: nat, body: CreateBody)
    requires body == CreateBody(Some(5), Some(" "), None)
    ensures HasRequiredFields(body) && NewDocument(clock, nextOid, body) == Failure(NameRequired)
  {
    assert AllWhitespace(" ");
  }

  /** An `ID` of 0 fails the field check though the schema accepts it: 400. */
  lemma ZeroIdFailsFieldCheck(clock: nat, nextOid: nat, body: CreateBody)
    requires body == CreateBody(Some(0), Some("Tem A"), None)
    ensures !HasRequiredFields(body) && NewDocument(clock, nextOid, body).Success?
  {
    var a := "Tem A";
    assert !IsWhitespace(a[0]) && !IsWhitespace(a[4]);
    TrimFixpoints(a);
    assert Utf16Length(a) == 5;
  }

  /**
   * POST: the guards run in the order of the handler; every refusal leaves the
   * collection untouched, and success appends exactly one document.
   */
  method Post(db: ProductCollection, body: CreateBody, conn: Connection) returns (resp: Reply<Product>)
    modifies db
    ensures old(db.Valid()) ==> db.Valid()
    ensures old(db.Consistent()) ==> db.Consistent()
    ensures !HasRequiredFields(body) ==> resp == Err(400, FieldsRequired) && unchanged(db)
    ensures HasRequiredFields(body) && conn.Down? ==> resp == Err(500, CreateFailed) && unchanged(db)
    ensures HasRequiredFields(body) && conn.Up? && HasId(old(db.docs), body.id.value) ==>
      resp == Err(400, IdExists) && unchanged(db)
    ensures HasRequiredFields(body) && conn.Up? && !HasId(old(db.docs), body.id.value) ==>
      match NewDocument(old(db.clock), old(db.nextOid), body)
      case Failure(_) => resp == Err(500, CreateFailed) && unchanged(db)
      case Success(doc) =>
        && resp == Ok(201, doc)
        && db.docs == old(db.docs) + [doc]
        && db.clock == old(db.clock) + 1 && db.nextOid == old(db.nextOid) + 1
        && doc.id == body.id.value && doc.name == Trim(body.name.value)
        && doc.tag == CreateTag(body.tag)
  {
    if !HasRequiredFields(body) {
      return Err(400, FieldsRequired);
    }
    if conn.Down? {
      return Err(500, CreateFailed);
    }
    var existing := FindById(db.docs, body.id.value);
    if existing.Some? {
      return Err(400, IdExists);
    }
    var created := NewDocument(db.clock, db.nextOid, body);
    if created.Failure? {
      return Err(500, CreateFailed);
    }
    var doc := created.value;
    Insert(db, doc);
    resp := Ok(201, doc);
  }

  /**
   * `Product.create`'s write: a valid document with a new `ID`, stamped with
   * the store's clock and next `_id`, is appended; a consistent store stays
   * consistent and a valid one stays valid.
   */
  method Insert(db: ProductCollection, doc: Product)
    requires ValidRecord(doc) && !HasId(db.docs, doc.id)
    requires doc.oid == db.nextOid && doc.createdAt == db.clock && doc.updatedAt == db.clock
    modifies db
    ensures old(db.Valid()) ==> db.Valid()
    ensures old(db.Consistent()) ==> db.Consistent()
    ensures db.docs == old(db.docs) + [doc]
    ensures db.clock == old(db.clock) + 1 && db.nextOid == old(db.nextOid) + 1
  {
    if db.Consistent() {
      InsertKeepsInvariant(db.docs, db.clock, db.nextOid, doc);
    }
    db.docs := db.docs + [doc];
    db.clock := db.clock + 1;
    db.nextOid := db.nextOid + 1;
  }

  /**
   * What create accepts once the ID is new: a name that is non-blank and at most
   * 200 UTF-16 code units after trimming, and an absent tag or one in the enum.
   * Because of `|| -1`, no document created from a numeric tag holds the
   * standard tag 0.
   */
  lemma NewDocumentAccepts(clock: nat, nextOid: nat, body: CreateBody)
    requires HasRequiredFields(body)
    ensures NewDocument(clock, nextOid, body).Success? <==>
      && Trim(body.name.value) != "" && Utf16Length(Trim(body.name.value)) <= MaxNameLength
      && (body.tag.None? || ValidTag(body.tag.value))
    ensures NewDocument(clock, nextOid, body).Success? ==>
      && NewDocument(clock, nextOid, body).value.tag != Standard
      && (NewDocument(clock, nextOid, body).value.tag == Folded <==> body.tag == Some(Folded))
  {
  }
}
