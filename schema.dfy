/**
 * The product schema: the shape of a stored product document and the
 * constraints mongoose applies when a document is created
 * (`required`, `trim`, `maxlength`, `enum`, `default`, `unique`).
 */
module Schema {
  import opened Wrappers
  import opened Text

  /** The store's generated `_id`; the application only compares it. */
  type ObjectId = nat

  /** The three classification tags: unclassified, standard stamp, folded stamp. */
  const Unclassified: int := -1
  const Standard: int := 0
  const Folded: int := 1

  const MaxNameLength: nat := 200

  /** A stored product; `createdAt`/`updatedAt` are ticks of a monotone store clock. */
  datatype Product = Product(
    oid: ObjectId,
    id: int,
    name: string,
    tag: int,
    createdAt: nat,
    updatedAt: nat)

  /** The `enum: [-1, 0, 1]` constraint on `type_tag`. */
  predicate ValidTag(t: int) {
    t == Unclassified || t == Standard || t == Folded
  }

  /** A document that satisfies every field constraint of the schema. */
  predicate ValidRecord(p: Product) {
    && ValidTag(p.tag)
    && p.name != ""
    && Utf16Length(p.name) <= MaxNameLength
    && IsTrimmed(p.name)
  }

  /** The `unique: true` index on `ID`: no two documents share an `ID`. */
  predicate UniqueIds(docs: seq<Product>) {
    forall i, j :: 0 <= i < j < |docs| ==> docs[i].id != docs[j].id
  }

  predicate HasId(docs: seq<Product>, id: int) {
    exists i :: 0 <= i < |docs| && docs[i].id == id
  }

  /** Why mongoose refuses to build a document. */
  datatype SchemaError = IdRequired | NameRequired | NameTooLong | TagNotInEnum

  /** `default: -1`: an absent tag becomes Unclassified, a present one is kept. */
  function TagOrDefault(tag: Option<int>): (t: int)
    ensures tag.None? ==> t == Unclassified
    ensures tag.Some? ==> t == tag.value
  {
    match tag
    case None => Unclassified
    case Some(v) => v
  }

  /**
   * Building and validating a new document from its input fields: the name is
   * trimmed first, then `required`, `maxlength` (on the JavaScript length, in
   * UTF-16 code units) and `enum` are checked, the first failing path in schema
   * order being reported; both timestamps are `now`.
   */
  function CastDocument(id: Option<int>, name: Option<string>, tag: Option<int>,
                        oid: ObjectId, now: nat): (r: Result<Product, SchemaError>)
    ensures r.Success? <==>
      && id.Some? && name.Some?
      && Trim(name.value) != "" && Utf16Length(Trim(name.value)) <= MaxNameLength
      && ValidTag(TagOrDefault(tag))
    ensures r.Success? ==> ValidRecord(r.value)
    ensures r.Success? ==>
      && r.value.id == id.value && r.value.name == Trim(name.value)
      && r.value.tag == TagOrDefault(tag) && r.value.oid == oid
      && r.value.createdAt == now && r.value.updatedAt == now
  {
    if id.None? then Failure(IdRequired)
    else if name.None? || Trim(name.value) == "" then Failure(NameRequired)
    else if Utf16Length(Trim(name.value)) > MaxNameLength then Failure(NameTooLong)
    else if !ValidTag(TagOrDefault(tag)) then Failure(TagNotInEnum)
    else
      Success(Product(oid, id.value, Trim(name.value), TagOrDefault(tag), now, now))
  }

  /** Appending a document whose `ID` is new keeps the `ID`s unique. */
  lemma UniqueIdsAppend(docs: seq<Product>, p: Product)
    requires UniqueIds(docs) && !HasId(docs, p.id)
    ensures UniqueIds(docs + [p])
  {
    var r := docs + [p];
    forall i, j | 0 <= i < j < |r| ensures r[i].id != r[j].id {
      if j == |docs| {
        assert r[i] == docs[i];
      }
    }
  }

  /**
   * The default is a tag the enum allows, so the defaulted tag is in the enum
   * exactly when no tag was given or the given one is.
   */
  lemma DefaultTagInEnum(tag: Option<int>)
    ensures ValidTag(TagOrDefault(None))
    ensures ValidTag(TagOrDefault(tag)) <==> tag.None? || ValidTag(tag.value)
    ensures tag.Some? ==> TagOrDefault(tag) == tag.value
  {
  }

  /**
   * `maxlength` counts UTF-16 code units: 101 copies of U+1F600 are 101
   * characters but 202 code units, so the name is refused as too long.
   */
  lemma AstralNameTooLong(name: string)
    requires |name| == 101 && forall i :: 0 <= i < |name| ==> name[i] == '\U{1F600}'
    ensures |Trim(name)| <= MaxNameLength
    ensures CastDocument(Some(5), Some(name), None, 0, 0) == Failure(NameTooLong)
  {
    assert !IsWhitespace(name[0]) && !IsWhitespace(name[100]);
    TrimFixpoints(name);
    assert Utf16Length(name) == 2 * |name|;
  }
}
