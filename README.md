# Product tagging core, modelled in Dafny

This project models the core of a small product-tagging web application. The
application keeps a collection of products. Each product has a numeric `ID`, a
`Product_name` and a three-valued `type_tag`:

- `-1` means unclassified ("Chưa xác định");
- `0` means standard stamp ("Tem thường");
- `1` means folded stamp ("Tem gập").

The model covers:

- the document schema: what a valid stored product is, how a new one is built
  (trim, required, maxlength, enum, default), and the unique `ID` index;
- the collection API:
  - `GET /api/products` lists everything, newest first;
  - `POST /api/products` creates one product;
  - `POST /api/products/bulk-update` sets one tag on every listed `ID`;
- the client components:
  - the product table's filter, tag labels and colours, and its map of pending
    per-row tag edits;
  - the create/edit form;
  - the page component that loads the list and reconciles it after an edit.

Layout, one module per source file plus shared modules:

- `wrappers.dfy`: `Option` and `Result`.
- `text.dfy`: the JavaScript string operations the code relies on: `trim`,
  `toLowerCase`, `includes`, integer `toString` and `parseInt`.
- `schema.dfy`: `src/models/Product.ts`.
- `api.dfy`: HTTP replies and the outcomes of calls the core cannot see.
- `collection.dfy`: the stored collection.
  - It is a class `ProductCollection`: the documents in insertion order, a
    monotone clock standing for the timestamps, and an `_id` counter.
  - It holds the queries the routes issue: `findOne`, `find` with `$in`, and
    `updateMany`.
  - `Consistent()` is what the database keeps whatever the application writes:
    unique `ID`s, timestamps and `_id`s below the counters, and creation order
    equal to storage order.
  - `Valid()` adds the schema constraints on every document. Only create runs
    the validators, so a write that bypasses them can break this part: the
    bulk update as written with a tag outside the enum, or the single-product
    PUT, which calls `updateOne` without validators. The listing therefore
    requires only creation order. The create and corrected bulk-update
    handlers keep `Valid()` when it held before the request.
- `products_route.dfy` and `bulk_update_route.dfy`: the route handlers, as
  methods that change the collection.
- `product_list.dfy`, `product_form.dfy` and `product_manager.dfy`: the React
  components. Each keeps its state in a class whose methods are the event
  handlers.

The database and the network are inputs, not code:

- `Connection` says whether the database answers during a request. `Down`
  stands for any exception from `connectDB` or the driver.
- `PutOutcome` is what a component learns from `PUT /api/products/{id}`.
- `FetchOutcome` is what the page learns from its `fetch` of the list.

Semantics of the libraries that the model states explicitly:

- Creating a document trims the name before the `required` and `maxlength`
  checks. `maxlength` compares the JavaScript length, in UTF-16 code units, so
  a character outside the Basic Multilingual Plane counts twice
  (`Schema.AstralNameTooLong`). The enum is checked on create.
- `updateMany` runs no validators, so the enum is not checked on a bulk update.
- With `timestamps: true`, `updateMany` also sets `updatedAt`. So every
  matched document counts as modified, even one that already held the tag:
  `Collection.ModifiedEqualsMatched` proves the count equals the number
  matched, and `Collection.ModifiedBounds` proves it lies between the number
  of matched documents whose tag differed and the number matched.
- `type_tag || -1` in the create handler turns an explicit numeric `0` into
  `-1`. This is modelled as written. As a result, for a numeric `type_tag`, no
  product created through `POST /api/products` is standard
  (`ProductsRoute.NewDocumentAccepts`). The string `"0"` is truthy and would be
  kept and cast to 0; string tags are not modelled (see "Left out").
- One click on a row's save button sends two PUTs:
  - the table's `handleSave` sends a PUT with the tag only;
  - on success it calls `onEdit`, which is the page's `handleUpdateProduct`,
    and that sends a second PUT with every field.

  `ProductManager.SaveRow` proves what the page and the table show for each pair
  of outcomes. When the first PUT succeeds and the second fails, the table has
  shown its success toast and dropped the pending value, but the page keeps the
  old product. The row then shows its old tag again.

## Model

| member | source | states |
|---|---|---|
| Text.Trim | src/models/Product.ts:20 | the trimmed name has no whitespace at either end, is no longer than the input, and is empty exactly when the input is all whitespace |
| Text.TrimIsInfix | src/models/Product.ts:20 | the trimmed name is an infix of the input with only whitespace before and after it |
| Text.TrimFixpoints | src/models/Product.ts:20 | trimming leaves a string unchanged exactly when neither of its ends is whitespace |
| Text.TrimIdempotent | src/models/Product.ts:20 | trimming an already trimmed name changes nothing |
| Text.Lower | src/components/ProductList.tsx:47-49 | lower-casing keeps the length and lowers each character |
| Text.ContainsIffOccurs | src/components/ProductList.tsx:49-50 | `includes` holds exactly when the term occurs at some position of the text |
| Text.ContainsEmpty | src/components/ProductList.tsx:49 | every text includes the empty term |
| Text.Digits | src/components/ProductList.tsx:50 | the decimal form of a natural number is at least one digit, without a leading zero |
| Text.DecimalString | src/components/ProductList.tsx:50 | `ID.toString()` is non-empty, starts with `-` exactly when the ID is negative, and is otherwise digits |
| Text.ParseIntOrZeroOfNonNumber | src/components/ProductForm.tsx:47 | `parseInt(value)` with 0 for NaN (`Text.ParseIntOrZero`): text whose first character after leading whitespace is neither a sign nor a digit is NaN, and is stored as 0 |
| Text.ParseIntOfDecimalString | src/components/ProductForm.tsx:47 | `parseInt` reads back every integer from its `toString` form |
| Text.ParseIntReadsLeadingNumber | src/components/ProductForm.tsx:47 | `parseInt` (`Text.ParseInt`) skips leading whitespace, reads the decimal form of any integer and ignores whatever follows a non-digit, so the `ID` field then holds that integer |
| Text.Utf16Length | src/models/Product.ts:21 | the JavaScript length of a string is between its character count and twice that; it equals the character count exactly when no character lies above U+FFFF, and twice it exactly when every character does |
| Text.DigitsValueOfDigits | src/components/ProductForm.tsx:47 | the decimal digits of n have the value n |
| Schema.DefaultTagInEnum | src/models/Product.ts:23-27 | `default: -1` (`Schema.TagOrDefault`) is itself in the enum, so the defaulted tag is in the enum exactly when no tag was given or the given one is; a given tag is kept |
| Schema.CastDocument | src/models/Product.ts:11-30 | create succeeds exactly when `ID` and name are present, the trimmed name is non-blank and at most 200 UTF-16 code units long, and the defaulted tag is in {-1, 0, 1}; a created document is schema-valid, holds the given `ID`, the trimmed name and the defaulted tag, and has both timestamps at creation time |
| Schema.AstralNameTooLong | src/models/Product.ts:21 | a name of 101 characters above U+FFFF is within 200 characters but 202 code units long, and create refuses it as too long |
| Schema.UniqueIdsAppend | src/models/Product.ts:12-16 | adding a document with a new `ID` keeps `ID`s unique |
| Api.ErrorTextShowsErrorOrFallback | src/components/ProductManager.tsx:71 | `data.error` or the fallback (`Api.ErrorText`): the text shown is the server's error or the fallback and nothing else, it is the fallback only when the error is absent or empty, and it is never empty when the fallback is not |
| Collection.ProductCollection.constructor | src/models/Product.ts:11-33 | an empty collection satisfies the store invariant |
| Collection.FindById | src/app/api/products/route.ts:41 | `findOne({ ID })` finds a document exactly when some document has that `ID`, and what it finds has it |
| Collection.Matching | src/app/api/products/bulk-update/route.ts:28 | `find` with `$in` returns exactly the stored documents whose `ID` is listed, no more of them than are stored |
| Collection.MatchingMultiplicity | src/app/api/products/bulk-update/route.ts:28 | `find` with `$in` keeps every listed document as often as it is stored, and no other document |
| Collection.SetTag | src/app/api/products/bulk-update/route.ts:40-43 | `updateMany` keeps the length; each listed document gets the new tag and a new `updatedAt`, every other document is unchanged |
| Collection.MatchingAfterSetTag | src/app/api/products/bulk-update/route.ts:48 | re-reading after the update gives the documents found before, each retagged, and as many of them |
| Collection.CountChanged | src/app/api/products/bulk-update/route.ts:45 | `modifiedCount` is at most the number of documents, and zero exactly when the update changed nothing |
| Collection.ModifiedBounds | src/app/api/products/bulk-update/route.ts:40-45 | the matched documents whose tag differed ≤ `modifiedCount` ≤ the matched documents |
| Collection.ModifiedEqualsMatched | src/app/api/products/bulk-update/route.ts:40-45 | when the update time is later than every `updatedAt`, `modifiedCount` equals the number matched |
| Collection.InsertKeepsInvariant | src/app/api/products/route.ts:41-53 | inserting a freshly stamped document with a new `ID` keeps the store consistent, and keeps the whole invariant when the store and the document were valid |
| Collection.AllValidAppend | src/models/Product.ts:11-28 | appending a schema-valid document keeps every document valid |
| Collection.StampedAppend | src/models/Product.ts:30 | appending a document stamped at the current clock keeps every timestamp and `_id` below the counters |
| Collection.ChronologicalAppend | src/models/Product.ts:30 | appending the newest document keeps creation order equal to storage order |
| Collection.UpdateManyOutcome | src/app/api/products/bulk-update/route.ts:40-48 | after `updateMany`, the store stays consistent, and valid for an enum tag if it was valid; `modifiedCount` equals the number matched; and the re-read gives the documents found before, each retagged |
| Collection.SetTagKeepsInvariant | src/app/api/products/bulk-update/route.ts:40-43 | retagging keeps the store consistent, and keeps a valid store valid when the tag is in the enum |
| Collection.SetTagKeepsIds | src/models/Product.ts:12-16 | retagging keeps `ID`s unique |
| Collection.SetTagKeepsValid | src/models/Product.ts:23-26 | retagging with an enum tag keeps every document schema-valid |
| Collection.SetTagKeepsStamps | src/models/Product.ts:30 | retagging keeps timestamps below the clock and creation order |
| ProductsRoute.ConsNewestFirst | src/app/api/products/route.ts:10 | a document no older than the head of a newest-first list can go in front of it |
| ProductsRoute.InsertByAge | src/app/api/products/route.ts:10 | inserting into a newest-first list keeps it newest-first and adds exactly that document |
| ProductsRoute.SortNewestFirst | src/app/api/products/route.ts:10 | `sort({ createdAt: -1 })` yields every document exactly once, with creation times never increasing |
| ProductsRoute.ListingOfChronologicalStore | src/app/api/products/route.ts:10 | for a store in creation order, the listing is the collection read backwards |
| ProductsRoute.Get | src/app/api/products/route.ts:5-23 | for any store in creation order, whether or not its documents satisfy the schema: 500 "Failed to fetch products" when the store fails; otherwise 200 with every document exactly once, newest first |
| ProductsRoute.CreateTagVersusDefault | src/app/api/products/route.ts:52 | the falsy-tag default (`ProductsRoute.CreateTag`) agrees with the schema default on every tag but an explicit 0, never yields the standard tag, and is in the enum exactly when the given tag is absent or in it |
| ProductsRoute.Post | src/app/api/products/route.ts:26-68 | on any collection, guards in handler order: 400 for a falsy `ID` or empty name, 500 for a store failure, 400 for an existing `ID`, 500 for a schema failure; each leaves the collection unchanged. Otherwise 201, and exactly one document is appended with the given `ID`, the trimmed name and the create tag. A consistent store stays consistent and a valid one stays valid |
| ProductsRoute.FieldCheckVersusSchema | src/app/api/products/route.ts:31 | the field check (`ProductsRoute.HasRequiredFields`) passes every body the schema accepts with a non-zero `ID` |
| ProductsRoute.BlankNamePassesFieldCheck | src/app/api/products/route.ts:31-52 | a whitespace-only name passes the field check and fails the schema's `required`, so it gets 500 rather than 400 |
| ProductsRoute.ZeroIdFailsFieldCheck | src/app/api/products/route.ts:31 | an `ID` of 0 is refused by the field check though the schema would accept it |
| ProductsRoute.NewDocument | src/app/api/products/route.ts:49-53 | what create builds is schema-valid, has the body's `ID`, is stamped with the store's clock and next `_id`, and never holds the standard tag |
| ProductsRoute.Insert | src/app/api/products/route.ts:49-53 | the write of create: the new document is appended and the clock and `_id` counter advance; a consistent store stays consistent and a valid one stays valid |
| ProductsRoute.NewDocumentAccepts | src/app/api/products/route.ts:49-53 | with a new `ID`, create succeeds exactly when the trimmed name is non-blank and at most 200 code units and the numeric tag is absent or in the enum; a created product is never standard, and is folded exactly when the body's tag is 1 |
| BulkUpdateRoute.CorrectedGuardIsStricter | src/app/api/products/bulk-update/route.ts:11-23 | the corrected guard (`BulkUpdateRoute.Guard`) lets through only what the written one (`BulkUpdateRoute.GuardAsWritten`) does; they differ exactly when the written guard passes a tag outside {-1, 0, 1}, which the corrected one refuses with its own message |
| BulkUpdateRoute.GuardsAgreeOnEnumTags | src/app/api/products/bulk-update/route.ts:18-23 | the two guards agree whenever the tag is absent or in the enum, so a tag of 0 passes both |
| BulkUpdateRoute.AsWrittenStoresTagOutsideEnum | src/app/api/products/bulk-update/route.ts:40-43 | as written, tag 2 for a stored `ID` passes the guards and the update stores a document the schema's enum forbids |
| BulkUpdateRoute.Post | src/app/api/products/bulk-update/route.ts:6-66 | on a consistent store: 400 from the guard, 500 with the store's message, and 404 when nothing matches, each leaving the collection unchanged. Otherwise exactly the listed documents are retagged; the store stays consistent, and a valid one stays valid. 200 with `totalFound` = `totalUpdated` = the number matched, the re-read documents all carrying the new tag, and the message with that count |
| BulkUpdateRoute.ApplyUpdate | src/app/api/products/bulk-update/route.ts:40-58 | the update step: exactly the listed documents are retagged at the store's clock, the store stays consistent and a valid one stays valid; the report counts the matched documents as both found and updated, lists them retagged, and carries the message with that count |
| ProductList.FilteredProducts | src/components/ProductList.tsx:39-54 | the filtered list is no longer than the product list |
| ProductList.FilterIsSubsequence | src/components/ProductList.tsx:39-54 | the filtered list is a subsequence of the products, in their original order |
| ProductList.FilterMembership | src/components/ProductList.tsx:39-54 | a product is listed exactly when it passes the tag filter and, for a non-empty term, its lower-cased name contains the lower-cased term or its `ID` string contains the raw term |
| ProductList.FilterByTag | src/components/ProductList.tsx:41-43 | with a tag chosen, every listed product carries that tag |
| ProductList.NoCriteriaListsAll | src/components/ProductList.tsx:41-53 | with all tags and an empty term, the filtered list is the product list |
| ProductList.FilterIdempotent | src/components/ProductList.tsx:39-54 | filtering the filtered list changes nothing |
| ProductList.ExampleTagFilter | src/components/ProductList.tsx:41-43 | of "Tem A" (standard) and "Tem B" (folded), the standard filter lists "Tem A" only |
| ProductList.ExampleNameSearch | src/components/ProductList.tsx:46-51 | searching "B" lists "Tem B" only, matching the name regardless of case |
| ProductList.ExampleNoMatch | src/components/ProductList.tsx:46-51 | a term found in no name and no `ID`, such as "9", lists nothing |
| ProductList.LabelsTellEnumTagsApart | src/components/ProductList.tsx:67-73 | `getTagTypeLabel` (`ProductList.TagLabel`) gives the three enum tags different labels, and every tag other than 0 and 1 the unclassified label |
| ProductList.ColoursFollowLabels | src/components/ProductList.tsx:56-65 | `getTagTypeColor` (`ProductList.TagColor`) gives two tags the same colour exactly when they get the same label, and every tag other than 0 and 1 grey |
| ProductList.ProductListState.constructor | src/components/ProductList.tsx:22-29 | no pending edits, no search, all tags, no toast |
| ProductList.ProductListState.IsEditing | src/components/ProductList.tsx:136-138 | a row is being edited exactly when it has a pending value |
| ProductList.ProductListState.SaveSendsShownTag | src/components/ProductList.tsx:83-85 | what a save sends is what the select shows (`ProductList.ProductListState.ShownTag`, the pending value or else the stored tag; `ProductList.SaveDecision` decides): a request goes out exactly when the row is being edited and shows a tag other than the stored one, and it carries the shown tag |
| ProductList.ProductListState.HandleTypeTagChange | src/components/ProductList.tsx:75-80 | records the selection for that row, whose select then shows it; every other row's pending value and the filters are unchanged |
| ProductList.ProductListState.HandleSave | src/components/ProductList.tsx:82-126 | with nothing to send, drops the row's pending value and sends nothing. Otherwise it sends the pending tag. On success it reports the retagged product, drops the pending value and shows the success toast. On a refusal or network failure it keeps the pending value and shows the matching error toast |
| ProductList.ProductListState.HandleCancel | src/components/ProductList.tsx:128-134 | removes only that row's pending value; `isEditing` is then false for it and its select shows the stored tag again |
| ProductList.ProductListState.InactiveFiltersShowAll | src/components/ProductList.tsx:213 | when the "clear filters" button is hidden, every product is listed |
| ProductList.ProductListState.SetSearchTerm | src/components/ProductList.tsx:190 | sets the search term only |
| ProductList.ProductListState.SetFilterType | src/components/ProductList.tsx:203 | sets the tag filter only |
| ProductList.ProductListState.ClearFilters | src/components/ProductList.tsx:140-143 | resets term and tag filter, after which every product is listed; pending edits are kept |
| ProductForm.ChangesAndSubmitGuard | src/components/ProductForm.tsx:43-49 | after a change (`ProductForm.ApplyChange`), a tag change never affects whether the form can be submitted; after a name change that depends only on the new name being non-blank; after typing an integer into `ID` it depends on the integer being positive |
| ProductForm.SubmitGuardMeaning | src/components/ProductForm.tsx:38 | the submit guard (`ProductForm.CanSubmit`) holds exactly when `ID` is positive and the name has at least one character that is not whitespace |
| ProductForm.ButtonMatchesSubmitGuard | src/components/ProductForm.tsx:119 | the button's disabled expression (`ProductForm.SubmitDisabled`): while not loading, disabled exactly when the submit guard fails; while loading, disabled |
| ProductForm.IdInputRoundTrip | src/components/ProductForm.tsx:47 | typing the decimal form of any integer into `ID` stores that integer |
| ProductForm.NonNumericIdBlocksSubmit | src/components/ProductForm.tsx:47 | a non-numeric `ID` is stored as 0, and the form cannot then be submitted |
| ProductForm.SubmittableFormPassesCreateGuard | src/components/ProductForm.tsx:38 | a form that passes the submit guard passes the create route's field check |
| ProductForm.ProductFormState.constructor | src/components/ProductForm.tsx:20-24 | the initial form is `ID` 0, empty name, tag -1 |
| ProductForm.ProductFormState.LoadProduct | src/components/ProductForm.tsx:26-34 | a given product's `ID`, name and tag replace the form's; no product leaves it as it was |
| ProductForm.ProductFormState.HandleChange | src/components/ProductForm.tsx:43-49 | the form becomes the result of applying the change |
| ProductForm.ProductFormState.HandleSubmit | src/components/ProductForm.tsx:36-41 | hands the form on exactly when the button would be enabled outside loading; what it hands on passes the create route's field check |
| ProductManager.ReplaceById | src/components/ProductManager.tsx:65-69 | same length; every entry with the updated `_id` is replaced and every other entry is unchanged, in place |
| ProductManager.ReplaceByIdIdempotent | src/components/ProductManager.tsx:65-69 | replacing twice with the same product is replacing once |
| ProductManager.ReplaceAbsentIsIdentity | src/components/ProductManager.tsx:65-69 | an `_id` not in the list leaves the list unchanged |
| ProductManager.ReplacePresentShowsUpdate | src/components/ProductManager.tsx:65-69 | when the `_id` is listed, the updated product is in the new list, and every entry of the new list is either it or an old entry |
| ProductManager.ProductManagerState.constructor | src/components/ProductManager.tsx:16-18 | no products, loading, no message |
| ProductManager.ProductManagerState.FetchProducts | src/components/ProductManager.tsx:21-39 | a successful reply replaces the products; a refusal or a network failure keeps them and sets the matching error message; loading is over in every case |
| ProductManager.ProductManagerState.HandleUpdateProduct | src/components/ProductManager.tsx:46-77 | on success it replaces the entry by `_id` and sets the success message; otherwise it keeps the products and sets the error message (`data.error` or the default, or the network error) |
| ProductManager.LoadPage | src/components/ProductManager.tsx:41-43 | loading the page from a reachable store in creation order, valid or not, shows every stored product exactly once, newest first; a failing store leaves the list and sets the load error |
| ProductManager.SaveRow | src/components/ProductManager.tsx:108 | with both PUTs saved, the page holds the retagged row and the table shows its new tag. With only the first saved, the page keeps the old row and the table shows the old tag, next to a success toast and an error message |

## Left out

- The document database, `connectDB`, `fetch` and `request.json()` are not modelled as code. Their results are inputs (`Connection`, `PutOutcome`, `FetchOutcome`). A failure is modelled only before the first database operation of a request. A failure between `updateMany` and the re-read is not modelled.
- `src/app/api/products/[id]/route.ts` (the PUT, single GET and DELETE handlers) is not part of this model. Its reply is the `PutOutcome` input.
- Concurrent requests are not modelled. The windows between check and create and between find and update are taken as atomic.
- JSON body fields of a type other than the one the code expects are not modelled: a string `ID` or `type_tag`, or `ids` holding strings, which the store would cast or reject. In particular a string `"0"` tag, which is truthy, passes the falsy-tag default unchanged and creates a standard product.
- Timestamps are a monotone counter, not dates. `_id`s are natural numbers.
- `strict: false` (extra fields in documents) and the `collection` option are not modelled.
- When several schema constraints fail at once, the store reports all of them. `Schema.CastDocument` reports only the first, which is enough for the route, since every schema failure gives the same 500.
- `Text.Lower` models `toLowerCase` for ASCII letters only. Other letters are left unchanged.
- `Text.ParseInt` does not model `parseInt`'s `0x` prefix, or values beyond the precision of a double.
- `Text.DecimalString` covers integer `ID`s only. Fractional numbers and exponent notation are not modelled.
- Rendering, CSS classes other than the tag colours, the loading and empty-list views, and the toast and message timers are left out.
- `onDelete` is not modelled; the page passes an empty handler.
- `ProductForm.ProductFormState.HandleSubmit` returns the form data to the caller. The form's `onSubmit` has no caller in the repository, so what happens after submit is not modelled.
- The form's copy of `getTagTypeLabel` is not modelled separately. It is the same mapping as `ProductList.TagLabel`, and the form never calls it.

## Findings

| source | as written | input that shows it | evidently intended | confidence | as-written member | corrected member |
|---|---|---|---|---|---|---|
| src/app/api/products/bulk-update/route.ts:18-43 | the tag guard refuses only a missing tag. `updateMany` runs no validators, so any number is stored. | a stored product with `ID` 7 and body `{ ids: [7], type_tag: 2 }`: 200, and the document now has tag 2, outside the schema's enum `[-1, 0, 1]` | a tag outside {-1, 0, 1} is refused with 400 and the collection stays valid | medium, not executed | BulkUpdateRoute.AsWrittenStoresTagOutsideEnum | BulkUpdateRoute.Post |
