/**
 * The product table: the filter by tag and search term, the tag labels and
 * colours, and the per-row map of pending tag edits with save and cancel.
 */
module ProductList {
  import opened Wrappers
  import opened Text
  import opened Schema
  import opened Api

  /** The tag filter's "all tags" choice. */
  const AllTags: int := -2

  // ----- filtering -----

  /** The search: the lower-cased name contains the lower-cased term, or `ID.toString()` contains the raw term. */
  predicate MatchesSearch(p: Product, term: string) {
    Contains(Lower(p.name), Lower(term)) || Contains(DecimalString(p.id), term)
  }

  /** The callback given to `products.filter`: tag filter first, then the search if the term is non-empty. */
  predicate Keep(p: Product, filterType: int, term: string) {
    && (filterType == AllTags || p.tag == filterType)
    && (term == "" || MatchesSearch(p, term))
  }

  /** `filteredProducts`. */
  function FilteredProducts(products: seq<Product>, filterType: int, term: string): (r: seq<Product>)
    ensures |r| <= |products|
  {
    if products == [] then []
    else (if Keep(products[0], filterType, term) then [products[0]] else [])
         + FilteredProducts(products[1..], filterType, term)
  }

  /** `a` can be obtained from `b` by deleting elements. */
  predicate SubsequenceOf<T(==)>(a: seq<T>, b: seq<T>)
    decreases |b|
  {
    if a == [] then true
    else if b == [] then false
    else (a[0] == b[0] && SubsequenceOf(a[1..], b[1..])) || SubsequenceOf(a, b[1..])
  }

  /** The filtered list keeps products in their original relative order. */
  lemma {:induction false} FilterIsSubsequence(products: seq<Product>, filterType: int, term: string)
    ensures SubsequenceOf(FilteredProducts(products, filterType, term), products)
  {
    if products != [] {
      FilterIsSubsequence(products[1..], filterType, term);
      var rest := FilteredProducts(products[1..], filterType, term);
      if Keep(products[0], filterType, term) {
        var r := FilteredProducts(products, filterType, term);
        assert r[0] == products[0] && r[1..] == rest;
      } else {
        assert FilteredProducts(products, filterType, term) == rest;
        SubsequenceDropHead(rest, products);
      }
    }
  }

  lemma SubsequenceDropHead<T>(a: seq<T>, b: seq<T>)
    requires b != [] && SubsequenceOf(a, b[1..])
    ensures SubsequenceOf(a, b)
  {
  }

  /**
   * A product is listed exactly when it is in `products` and passes the tag
   * filter and, for a non-empty term, the name-or-ID search.
   */
  lemma {:induction false} FilterMembership(products: seq<Product>, filterType: int, term: string, p: Product)
    ensures p in FilteredProducts(products, filterType, term) <==> p in products && Keep(p, filterType, term)
  {
    if products != [] {
      FilterMembership(products[1..], filterType, term, p);
      assert products == [products[0]] + products[1..];
    }
  }

  /** With a tag filter chosen, every listed product carries that tag. */
  lemma FilterByTag(products: seq<Product>, filterType: int, term: string)
    requires filterType != AllTags
    ensures forall p :: p in FilteredProducts(products, filterType, term) ==> p.tag == filterType
  {
    forall p | p in FilteredProducts(products, filterType, term) ensures p.tag == filterType {
      FilterMembership(products, filterType, term, p);
    }
  }

  /** With no tag filter and an empty search, every product is listed, in order. */
  lemma {:induction false} NoCriteriaListsAll(products: seq<Product>)
    ensures FilteredProducts(products, AllTags, "") == products
  {
    if products != [] {
      NoCriteriaListsAll(products[1..]);
    }
  }

  /** Filtering is a projection: filtering the filtered list changes nothing. */
  lemma {:induction false} FilterIdempotent(products: seq<Product>, filterType: int, term: string)
    ensures var r := FilteredProducts(products, filterType, term);
      FilteredProducts(r, filterType, term) == r
  {
    if products != [] {
      FilterIdempotent(products[1..], filterType, term);
      var rest := FilteredProducts(products[1..], filterType, term);
      var r := FilteredProducts(products, filterType, term);
      if Keep(products[0], filterType, term) {
        assert r[0] == products[0] && r[1..] == rest;
        assert FilteredProducts(r, filterType, term) == [r[0]] + FilteredProducts(r[1..], filterType, term);
      } else {
        assert r == rest;
      }
    }
  }

  /** Two example products: "Tem A" (ID 1, standard) and "Tem B" (ID 2, folded). */
  function ExampleProducts(): seq<Product> {
    [Product(10, 1, "Tem A", Standard, 0, 0), Product(11, 2, "Tem B", Folded, 1, 1)]
  }

  /** Filtering the examples by the standard tag lists "Tem A" only. */
  lemma ExampleTagFilter()
    ensures FilteredProducts(ExampleProducts(), Standard, "") == [ExampleProducts()[0]]
  {
    var s := ExampleProducts();
    assert FilteredProducts(s[1..], Standard, "") == [];
  }

  /** Searching the examples for "B" (any case) lists "Tem B" only. */
  lemma ExampleNameSearch()
    ensures FilteredProducts(ExampleProducts(), AllTags, "B") == [ExampleProducts()[1]]
  {
    var s := ExampleProducts();
    SearchSkipsTemA(s[0]);
    SearchFindsTemB(s[1]);
    assert FilteredProducts(s[1..], AllTags, "B") == [s[1]];
  }

  lemma SearchSkipsTemA(p: Product)
    requires p.name == "Tem A" && p.id == 1
    ensures !Keep(p, AllTags, "B")
  {
    ExampleTexts();
    NotContainsChar("tem a", 'b');
    NotContainsChar("1", 'B');
  }

  lemma SearchFindsTemB(p: Product)
    requires p.name == "Tem B"
    ensures Keep(p, AllTags, "B")
  {
    ExampleTexts();
    assert OccursAt("tem b", "b", 4);
    ContainsIffOccurs("tem b", "b");
  }

  /** A term found in neither a name nor an ID, such as "9", lists nothing. */
  lemma ExampleNoMatch()
    ensures FilteredProducts(ExampleProducts(), AllTags, "9") == []
  {
    var s := ExampleProducts();
    ExampleTexts();
    NotContainsChar("tem a", '9');
    NotContainsChar("1", '9');
    assert !Keep(s[0], AllTags, "9");
    NotContainsChar("tem b", '9');
    NotContainsChar("2", '9');
    assert !Keep(s[1], AllTags, "9");
    assert FilteredProducts(s[1..], AllTags, "9") == [];
  }

  /** The lower-cased names and terms, and the decimal IDs, that the examples search. */
  lemma ExampleTexts()
    ensures Lower("Tem A") == "tem a" && Lower("Tem B") == "tem b"
    ensures Lower("B") == "b" && Lower("9") == "9"
    ensures DecimalString(1) == "1" && DecimalString(2) == "2"
  {
  }

  lemma {:induction false} NotContainsChar(s: string, c: char)
    requires c !in s
    ensures !Contains(s, [c])
    decreases |s|
  {
    if s != [] {
      assert s[0] in s;
      assert s[..1][0] == s[0];
      assert c !in s[1..] by {
        forall k | 0 <= k < |s[1..]| ensures s[1..][k] != c {
          assert s[1..][k] == s[k + 1];
        }
      }
      NotContainsChar(s[1..], c);
    }
  }

  // ----- tag labels and colours -----

  const UnclassifiedLabel := "Chưa xác định"
  const UnclassifiedColor := "bg-gray-100 text-gray-800"

  /** `getTagTypeLabel`. */
  function TagLabel(t: int): string {
    if t == Standard then "Tem thường"
    else if t == Folded then "Tem gập"
    else UnclassifiedLabel
  }

  /** `getTagTypeColor`. */
  function TagColor(t: int): string {
    if t == Standard then "bg-green-100 text-green-800"
    else if t == Folded then "bg-blue-100 text-blue-800"
    else UnclassifiedColor
  }

  /**
   * Labels tell the three enum tags apart, and every tag other than 0 and 1,
   * inside the enum or not, is labelled unclassified.
   */
  lemma LabelsTellEnumTagsApart(a: int, b: int)
    ensures ValidTag(a) && ValidTag(b) && TagLabel(a) == TagLabel(b) ==> a == b
    ensures a != Standard && a != Folded ==> TagLabel(a) == UnclassifiedLabel
  {
    var labels := ["Tem thường", "Tem gập", UnclassifiedLabel];
    assert labels[0][4] != labels[1][4] && |labels[0]| != |labels[2]| && |labels[1]| != |labels[2]|;
  }

  /**
   * Colours identify the same tags as labels: two tags get the same colour
   * exactly when they get the same label, and every unclassified tag is grey.
   */
  lemma ColoursFollowLabels(a: int, b: int)
    ensures TagLabel(a) == TagLabel(b) <==> TagColor(a) == TagColor(b)
    ensures a != Standard && a != Folded ==> TagColor(a) == UnclassifiedColor
  {
    var labels := ["Tem thường", "Tem gập", UnclassifiedLabel];
    assert labels[0][4] != labels[1][4] && |labels[0]| != |labels[2]| && |labels[1]| != |labels[2]|;
    var colors := ["bg-green-100 text-green-800", "bg-blue-100 text-blue-800", UnclassifiedColor];
    assert colors[0][5] != colors[1][5] && colors[0][5] != colors[2][5] && colors[1][5] != colors[2][5];
  }

  // ----- pending edits -----

  datatype ToastKind = ToastSuccess | ToastError
  datatype Toast = Toast(message: string, kind: ToastKind)

  const SaveSucceeded := "Cập nhật loại tem thành công!"
  const SaveRefusedPrefix := "Không thể cập nhật sản phẩm: "
  const UnknownError := "Lỗi không xác định"
  const NetworkError := "Lỗi kết nối mạng"

  /** What `handleSave` does for a row: drop the pending value, or send it with a PUT. */
  datatype SaveAction = DropPending | SendTag(tag: int)

  /**
   * The decision at the head of `handleSave`: with no pending value, or one
   * equal to the stored tag, there is nothing to send.
   */
  function SaveDecision(pending: Option<int>, stored: int): (a: SaveAction)
    ensures a.SendTag? <==> pending.Some? && pending.value != stored
    ensures a.SendTag? ==> a.tag == pending.value && a.tag != stored
  {
    if pending.None? || pending.value == stored then DropPending else SendTag(pending.value)
  }

  /** The component's state: pending edits by `_id`, the filter inputs and the toast. */
  class ProductListState {
    var editing: map<ObjectId, int>
    var searchTerm: string
    var filterType: int
    var toast: Option<Toast>

    constructor ()
      ensures editing == map[] && searchTerm == "" && filterType == AllTags && toast == None
    {
      editing := map[];
      searchTerm := "";
      filterType := AllTags;
      toast := None;
    }

    function Pending(oid: ObjectId): Option<int>
      reads this
    {
      if oid in editing then Some(editing[oid]) else None
    }

    /** `isEditing`: the row has a pending value. */
    function IsEditing(oid: ObjectId): (b: bool)
      reads this
      ensures b <==> Pending(oid).Some?
    {
      oid in editing
    }

    /** The tag shown in a row's select: the pending value if any, else the stored one. */
    function ShownTag(p: Product): (t: int)
      reads this
      ensures IsEditing(p.oid) ==> t == editing[p.oid]
      ensures !IsEditing(p.oid) ==> t == p.tag
    {
      if p.oid in editing then editing[p.oid] else p.tag
    }

    /**
     * What a save sends is what the row's select shows: a save sends a request
     * exactly when the row is being edited and its select shows a tag other
     * than the stored one, and then it sends the shown tag.
     */
    lemma SaveSendsShownTag(p: Product)
      ensures SaveDecision(Pending(p.oid), p.tag).SendTag? <==> IsEditing(p.oid) && ShownTag(p) != p.tag
      ensures SaveDecision(Pending(p.oid), p.tag).SendTag? ==> SaveDecision(Pending(p.oid), p.tag).tag == ShownTag(p)
    {
    }

    /** The rows shown under the current filter inputs. */
    function Visible(products: seq<Product>): seq<Product>
      reads this
    {
      FilteredProducts(products, filterType, searchTerm)
    }

    /** `handleTypeTagChange`: records the selection for this row only. */
    method HandleTypeTagChange(oid: ObjectId, tag: int)
      modifies this
      ensures editing == old(editing)[oid := tag]
      ensures IsEditing(oid) && forall k :: k != oid ==> Pending(k) == old(Pending(k))
      ensures forall p: Product :: p.oid == oid ==> ShownTag(p) == tag
      ensures searchTerm == old(searchTerm) && filterType == old(filterType) && toast == old(toast)
    {
      editing := editing[oid := tag];
    }

    /** `handleCancel`: forgets this row's pending value and nothing else. */
    method HandleCancel(oid: ObjectId)
      modifies this
      ensures editing == old(editing) - {oid}
      ensures !IsEditing(oid) && forall k :: k != oid ==> Pending(k) == old(Pending(k))
      ensures forall p: Product :: p.oid == oid ==> ShownTag(p) == p.tag
      ensures searchTerm == old(searchTerm) && filterType == old(filterType) && toast == old(toast)
    {
      editing := editing - {oid};
    }

    /**
     * `handleSave`. With nothing to send it acts as cancel and sends nothing.
     * Otherwise it sends the pending tag; on success it reports the retagged
     * product to `onEdit`, drops the pending value and shows a success toast;
     * on failure it keeps the pending value and shows an error toast.
     */
    method HandleSave(product: Product, put: PutOutcome) returns (sent: Option<int>, edited: Option<Product>)
      modifies this
      ensures searchTerm == old(searchTerm) && filterType == old(filterType)
      ensures var action := SaveDecision(old(Pending(product.oid)), product.tag);
        action.DropPending? ==>
          && sent == None && edited == None
          && editing == old(editing) - {product.oid} && toast == old(toast)
      ensures var action := SaveDecision(old(Pending(product.oid)), product.tag);
        action.SendTag? ==>
          && sent == Some(action.tag)
          && (put.Saved? ==>
                && edited == Some(product.(tag := action.tag))
                && editing == old(editing) - {product.oid}
                && toast == Some(Toast(SaveSucceeded, ToastSuccess)))
          && (put.Refused? ==>
                && edited == None && editing == old(editing)
                && toast == Some(Toast(SaveRefusedPrefix + ErrorText(put.error, UnknownError), ToastError)))
          && (put.Unreachable? ==>
                && edited == None && editing == old(editing)
                && toast == Some(Toast(NetworkError, ToastError)))
    {
      var action := SaveDecision(Pending(product.oid), product.tag);
      if action.DropPending? {
        editing := editing - {product.oid};
        return None, None;
      }
      sent := Some(action.tag);
      match put
      case Saved =>
        edited := Some(product.(tag := action.tag));
        editing := editing - {product.oid};
        toast := Some(Toast(SaveSucceeded, ToastSuccess));
      case Refused(error) =>
        edited := None;
        toast := Some(Toast(SaveRefusedPrefix + ErrorText(error, UnknownError), ToastError));
      case Unreachable =>
        edited := None;
        toast := Some(Toast(NetworkError, ToastError));
    }

    /** Whether a search term or a tag filter is set (the "clear filters" button is shown). */
    predicate FiltersActive()
      reads this
    {
      searchTerm != "" || filterType != AllTags
    }

    /** With no filter input set, every product is shown, in order. */
    lemma InactiveFiltersShowAll(products: seq<Product>)
      requires !FiltersActive()
      ensures Visible(products) == products
    {
      NoCriteriaListsAll(products);
    }

    /** The search box's `onChange`. */
    method SetSearchTerm(term: string)
      modifies this
      ensures searchTerm == term
      ensures editing == old(editing) && filterType == old(filterType) && toast == old(toast)
    {
      searchTerm := term;
    }

    /** The tag select's `onChange`, with the option's value already parsed. */
    method SetFilterType(tag: int)
      modifies this
      ensures filterType == tag
      ensures editing == old(editing) && searchTerm == old(searchTerm) && toast == old(toast)
    {
      filterType := tag;
    }

    /** `clearFilters`: back to all tags and no search, which lists every product. */
    method ClearFilters()
      modifies this
      ensures searchTerm == "" && filterType == AllTags && !FiltersActive()
      ensures editing == old(editing) && toast == old(toast)
      ensures forall products :: Visible(products) == products
    {
      searchTerm := "";
      filterType := AllTags;
      forall products: seq<Product> ensures Visible(products) == products {
        InactiveFiltersShowAll(products);
      }
    }
  }
}
