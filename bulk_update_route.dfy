/**
 * `POST /api/products/bulk-update`: input guards, then find the listed IDs,
 * retag them all with one `updateMany`, and report the counts and the
 * re-read documents.
 */
module BulkUpdateRoute {
  import opened Wrappers
  import opened Text
  import opened Schema
  import opened Collection
  import opened Api

  /** The `ids` field of the body: absent, present but not an array, or an array. */
  datatype IdsField = Absent | NotArray | Array(items: seq<int>)

  /** The JSON body; `tag` is None when `type_tag` is undefined or null. */
  datatype BulkBody = BulkBody(ids: IdsField, tag: Option<int>)

  /** The `data` of a successful reply, with the reply's `message` alongside. */
  datatype BulkReport = BulkReport(totalFound: nat, totalUpdated: nat, products: seq<Product>, message: string)

  const IdsRequired := "Danh sách ID sản phẩm là bắt buộc và phải là mảng"
  const TagRequired := "Type tag là bắt buộc"
  const TagNotAllowed := "Type tag must be one of -1, 0, 1"
  const NoneFound := "Không tìm thấy sản phẩm nào với ID đã cung cấp"
  const UpdateFailed := "Không thể cập nhật sản phẩm: "

  function UpdatedMessage(n: nat): string {
    "Đã cập nhật thành công " + DecimalString(n) + " sản phẩm"
  }

  predicate IdsGiven(ids: IdsField) {
    ids.Array? && |ids.items| > 0
  }

  /**
   * The handler's guards as written: a missing, non-array or empty `ids` first,
   * then a missing tag; any number passes, since `updateMany` runs no validators.
   */
  function GuardAsWritten(body: BulkBody): (error: Option<string>)
    ensures !IdsGiven(body.ids) ==> error == Some(IdsRequired)
    ensures IdsGiven(body.ids) && body.tag.None? ==> error == Some(TagRequired)
    ensures error.None? <==> IdsGiven(body.ids) && body.tag.Some?
  {
    if !IdsGiven(body.ids) then Some(IdsRequired)
    else if body.tag.None? then Some(TagRequired)
    else None
  }

  /**
   * The guards with the schema's enum enforced: after the two checks of the
   * handler, a tag outside {-1, 0, 1} is refused with 400 as well.
   */
  function Guard(body: BulkBody): (error: Option<string>)
    ensures !IdsGiven(body.ids) ==> error == Some(IdsRequired)
    ensures IdsGiven(body.ids) && body.tag.None? ==> error == Some(TagRequired)
    ensures error.None? <==> IdsGiven(body.ids) && body.tag.Some? && ValidTag(body.tag.value)
  {
    match GuardAsWritten(body)
    case Some(e) => Some(e)
    case None => if ValidTag(body.tag.value) then None else Some(TagNotAllowed)
  }

  /**
   * The two guards differ only on a present tag outside the enum; in particular
   * a tag of 0 passes both.
   */
  lemma GuardsAgreeOnEnumTags(body: BulkBody)
    requires body.tag.None? || ValidTag(body.tag.value)
    ensures Guard(body) == GuardAsWritten(body)
  {
  }

  /**
   * The corrected guard is stricter: whatever it lets through the written one
   * does too, and they give different answers exactly when the written guard
   * passes a tag outside the enum, which the corrected one refuses.
   */
  lemma CorrectedGuardIsStricter(body: BulkBody)
    ensures Guard(body).None? ==> GuardAsWritten(body).None?
    ensures Guard(body) != GuardAsWritten(body) <==>
      GuardAsWritten(body).None? && !ValidTag(body.tag.value)
    ensures Guard(body) != GuardAsWritten(body) ==> Guard(body) == Some(TagNotAllowed)
  {
  }

  /**
   * As written, a bulk update with tag 2 passes the guards and stores a document
   * the schema's enum forbids.
   */
  lemma AsWrittenStoresTagOutsideEnum()
    ensures var docs := [Product(0, 7, "Tem A", Standard, 0, 0)];
            var body := BulkBody(Array([7]), Some(2));
      && StoreInvariant(docs, 1, 1)
      && GuardAsWritten(body).None?
      && Matching(docs, [7]) != []
      && !ValidRecord(SetTag(docs, [7], 2, 1)[0])
      && !StoreInvariant(SetTag(docs, [7], 2, 1), 2, 1)
  {
    var docs := [Product(0, 7, "Tem A", Standard, 0, 0)];
    assert IsTrimmed(docs[0].name);
    assert docs[0] in Matching(docs, [7]);
  }

  /**
   * The handler with the corrected guard. Refusals leave the collection
   * untouched; on success exactly the listed documents are retagged, both
   * counts equal the number found (the timestamp bump changes every matched
   * document), and the reply lists the matched documents with their new tag.
   */
  method Post(db: ProductCollection, body: BulkBody, conn: Connection) returns (resp: Reply<BulkReport>)
    requires db.Consistent()
    modifies db
    ensures db.Consistent()
    ensures old(db.Valid()) ==> db.Valid()
    ensures Guard(body).Some? ==> resp == Err(400, Guard(body).value) && unchanged(db)
    ensures Guard(body).None? && conn.Down? ==> resp == Err(500, UpdateFailed + conn.reason) && unchanged(db)
    ensures Guard(body).None? && conn.Up? && Matching(old(db.docs), body.ids.items) == [] ==>
      resp == Err(404, NoneFound) && unchanged(db)
    ensures Guard(body).None? && conn.Up? && Matching(old(db.docs), body.ids.items) != [] ==>
      var ids, tag, found := body.ids.items, body.tag.value, Matching(old(db.docs), body.ids.items);
      && db.docs == SetTag(old(db.docs), ids, tag, old(db.clock))
      && db.clock == old(db.clock) + 1 && db.nextOid == old(db.nextOid)
      && resp.Ok? && resp.status == 200
      && resp.data.totalFound == |found|
      && resp.data.totalUpdated == |found|
      && resp.data.products == SetTag(found, ids, tag, old(db.clock))
      && (forall x :: x in resp.data.products ==> x.tag == tag)
      && resp.data.message == UpdatedMessage(resp.data.totalUpdated)
  {
    var error := Guard(body);
    if error.Some? {
      return Err(400, error.value);
    }
    if conn.Down? {
      return Err(500, UpdateFailed + conn.reason);
    }
    var ids, tag := body.ids.items, body.tag.value;
    var found := Matching(db.docs, ids);
    if |found| == 0 {
      return Err(404, NoneFound);
    }
    var report := ApplyUpdate(db, ids, tag);
    resp := Ok(200, report);
  }

  /**
   * The success path: `updateMany` on the listed documents, then the re-read
   * and the report. Both counts are the number matched, because the timestamp
   * bump changes every matched document.
   */
  method ApplyUpdate(db: ProductCollection, ids: seq<int>, tag: int) returns (report: BulkReport)
    requires db.Consistent() && ValidTag(tag)
    modifies db
    ensures db.Consistent()
    ensures old(db.Valid()) ==> db.Valid()
    ensures db.docs == SetTag(old(db.docs), ids, tag, old(db.clock))
    ensures db.clock == old(db.clock) + 1 && db.nextOid == old(db.nextOid)
    ensures report.totalFound == |Matching(old(db.docs), ids)|
    ensures report.totalUpdated == report.totalFound
    ensures report.products == SetTag(Matching(old(db.docs), ids), ids, tag, old(db.clock))
    ensures forall x :: x in report.products ==> x.tag == tag
    ensures report.message == UpdatedMessage(report.totalUpdated)
  {
    var before, now := db.docs, db.clock;
    ghost var wasValid := db.Valid();
    var found := Matching(before, ids);
    UpdateManyOutcome(before, now, db.nextOid, ids, tag);
    var after := SetTag(before, ids, tag, now);
    assert wasValid ==> StoreInvariant(after, now + 1, db.nextOid);
    db.docs := after;
    db.clock := now + 1;
    var modified := CountChanged(before, after);
    var updated := Matching(after, ids);
    report := BulkReport(|found|, modified, updated, UpdatedMessage(modified));
  }
}
