/**
 * The page component: the loaded product list, the loading flag and the
 * banner message, with the initial fetch and the `onEdit` handler it hands
 * to the product table.
 */
module ProductManager {
  import opened Wrappers
  import opened Schema
  import opened Collection
  import opened Api
  import ProductsRoute
  import ProductList

  datatype NoticeKind = NoticeSuccess | NoticeError

  /** The banner: `{ type, text }`. */
  datatype Notice = Notice(kind: NoticeKind, text: string)

  const LoadFailed := "Không thể tải danh sách sản phẩm"
  const NetworkError := "Lỗi kết nối mạng"
  const UpdateSucceeded := "Cập nhật loại tem thành công!"
  const UpdateFailedDefault := "Không thể cập nhật sản phẩm"

  /** What `fetch('/api/products')` yields: the route's reply, or a thrown `fetch`. */
  datatype FetchOutcome = Answered(reply: Reply<seq<Product>>) | FetchUnreachable

  /**
   * `prevProducts.map(p => p._id === updated._id ? updated : p)`: every entry
   * with the updated `_id` is replaced and the others are kept, in place.
   */
  function ReplaceById(products: seq<Product>, updated: Product): (r: seq<Product>)
    ensures |r| == |products|
    ensures forall i :: 0 <= i < |products| ==>
      r[i] == if products[i].oid == updated.oid then updated else products[i]
  {
    if products == [] then []
    else [if products[0].oid == updated.oid then updated else products[0]]
         + ReplaceById(products[1..], updated)
  }

  /** Replacing twice with the same product is replacing once. */
  lemma ReplaceByIdIdempotent(products: seq<Product>, updated: Product)
    ensures ReplaceById(ReplaceById(products, updated), updated) == ReplaceById(products, updated)
  {
  }

  /** An `_id` not in the list leaves the list as it was. */
  lemma ReplaceAbsentIsIdentity(products: seq<Product>, updated: Product)
    requires forall i :: 0 <= i < |products| ==> products[i].oid != updated.oid
    ensures ReplaceById(products, updated) == products
  {
  }

  /** A listed `_id` makes the updated product appear in the list. */
  lemma {:induction false} ReplacePresentShowsUpdate(products: seq<Product>, updated: Product, i: int)
    requires 0 <= i < |products| && products[i].oid == updated.oid
    ensures updated in ReplaceById(products, updated)
    ensures forall p :: p in ReplaceById(products, updated) ==> p == updated || p in products
  {
    var r := ReplaceById(products, updated);
    assert r[i] == updated;
    forall p | p in r ensures p == updated || p in products {
      var k :| 0 <= k < |r| && r[k] == p;
      if products[k].oid != updated.oid {
        assert p == products[k];
      }
    }
  }

  /** The page's state. */
  class ProductManagerState {
    var products: seq<Product>
    var isLoading: bool
    var message: Option<Notice>

    constructor ()
      ensures products == [] && isLoading && message == None
    {
      products := [];
      isLoading := true;
      message := None;
    }

    /**
     * `fetchProducts`: a successful reply replaces the list with its data; a
     * refusal or an unreachable server sets an error banner and keeps the list;
     * loading always ends.
     */
    method FetchProducts(outcome: FetchOutcome)
      modifies this
      ensures !isLoading
      ensures outcome.Answered? && outcome.reply.Ok? ==>
        products == outcome.reply.data && message == old(message)
      ensures outcome.Answered? && outcome.reply.Err? ==>
        products == old(products) && message == Some(Notice(NoticeError, LoadFailed))
      ensures outcome.FetchUnreachable? ==>
        products == old(products) && message == Some(Notice(NoticeError, NetworkError))
    {
      isLoading := true;
      match outcome {
        case Answered(reply) =>
          if reply.Ok? {
            products := reply.data;
          } else {
            message := Some(Notice(NoticeError, LoadFailed));
          }
        case FetchUnreachable =>
          message := Some(Notice(NoticeError, NetworkError));
      }
      isLoading := false;
    }

    /**
     * `handleUpdateProduct`: sends the whole product with a PUT; on success the
     * entry with its `_id` is replaced and a success banner is shown, otherwise
     * the list is kept and the banner shows the error.
     */
    method HandleUpdateProduct(updated: Product, put: PutOutcome)
      modifies this
      ensures isLoading == old(isLoading)
      ensures put.Saved? ==>
        products == ReplaceById(old(products), updated) && message == Some(Notice(NoticeSuccess, UpdateSucceeded))
      ensures put.Refused? ==>
        products == old(products) && message == Some(Notice(NoticeError, ErrorText(put.error, UpdateFailedDefault)))
      ensures put.Unreachable? ==>
        products == old(products) && message == Some(Notice(NoticeError, NetworkError))
    {
      match put
      case Saved =>
        message := Some(Notice(NoticeSuccess, UpdateSucceeded));
        products := ReplaceById(products, updated);
      case Refused(error) =>
        message := Some(Notice(NoticeError, ErrorText(error, UpdateFailedDefault)));
      case Unreachable =>
        message := Some(Notice(NoticeError, NetworkError));
    }
  }

  /**
   * The mount effect against the store: GET's reply fed to `fetchProducts`.
   * With the store reachable the page lists every stored product exactly once,
   * newest first.
   */
  method LoadPage(page: ProductManagerState, db: ProductCollection, conn: Connection)
    requires Chronological(db.docs)
    modifies page
    ensures !page.isLoading
    ensures conn.Up? ==> page.products == ProductsRoute.Reverse(db.docs)
    ensures conn.Up? ==> multiset(page.products) == multiset(db.docs) && ProductsRoute.NewestFirst(page.products)
    ensures conn.Down? ==> page.products == old(page.products) && page.message == Some(Notice(NoticeError, LoadFailed))
  {
    var reply := ProductsRoute.Get(db, conn);
    page.FetchProducts(Answered(reply));
  }

  /**
   * A click on a row's save button: the table's `handleSave` (first PUT, with
   * the tag only) and, when it reports an edit, the page's `onEdit` handler
   * (second PUT, with every field). The row is one of the page's products.
   * When both PUTs succeed the page holds the row with its new tag; when the
   * first succeeds and the second does not, the table has dropped the pending
   * value and shown its success toast, yet the page keeps the old row, so the
   * row shows its old tag again.
   */
  method SaveRow(page: ProductManagerState, table: ProductList.ProductListState, row: Product,
                 firstPut: PutOutcome, secondPut: PutOutcome)
    requires row in page.products
    modifies page, table
    ensures var action := ProductList.SaveDecision(old(table.Pending(row.oid)), row.tag);
      action.SendTag? && firstPut.Saved? && secondPut.Saved? ==>
        && row.(tag := action.tag) in page.products
        && !table.IsEditing(row.oid)
        && table.ShownTag(row.(tag := action.tag)) == action.tag
    ensures var action := ProductList.SaveDecision(old(table.Pending(row.oid)), row.tag);
      action.SendTag? && firstPut.Saved? && !secondPut.Saved? ==>
        && page.products == old(page.products)
        && !table.IsEditing(row.oid)
        && table.ShownTag(row) == row.tag
        && table.toast == Some(ProductList.Toast(ProductList.SaveSucceeded, ProductList.ToastSuccess))
        && page.message.Some? && page.message.value.kind == NoticeError
    ensures var action := ProductList.SaveDecision(old(table.Pending(row.oid)), row.tag);
      action.DropPending? || !firstPut.Saved? ==> page.products == old(page.products)
  {
    var sent, edited := table.HandleSave(row, firstPut);
    if edited.Some? {
      page.HandleUpdateProduct(edited.value, secondPut);
      if secondPut.Saved? {
        ghost var i :| 0 <= i < |old(page.products)| && old(page.products)[i] == row;
        ReplacePresentShowsUpdate(old(page.products), edited.value, i);
      }
    }
  }
}
