# Storefront client logic, modelled in Dafny

The storefront is a React client over a hosted database, object store and
auth service. Its only logic of its own sits in three components, and this
project models all three as pure functions over immutable records:

- **Image carousel** (`slider.dfy`, module `Slider`): a cyclic cursor over `n`
  images. It is moved by the arrows, by the dots and by an auto-advance timer
  that runs only while `autoSlide` is set, there are at least two images and
  the mouse is not over the slider. The component renders a placeholder,
  a single image without controls, or the full carousel, depending on `n`.
- **Admin product editor** (`admin.dfy`, module `Admin`): the picked-file
  list and the preview list, with their size filter, index-based removal and
  clear-all. It also covers the preview list chosen when a product is opened,
  the sequential batch upload that keeps only the successful URLs, and the
  save rule: the save aborts when every upload failed, and otherwise writes
  the payload and then closes the form. The two lists are not index-aligned,
  and the model states the index filter exactly as the page applies it.
- **Corrected editor** (`admin_intended.dfy`, module `AdminIntended`): the
  relation between the two lists that the page evidently intends, which
  operations keep it, the two that do not (see Findings), and corrected
  versions of those two, proved to keep it.
- **Checkout** (`checkout.dfy`, module `Checkout`): the empty-cart guard, the
  order-line snapshot, the inserted row, and the success and failure
  transitions. It also covers the quantity and trash buttons.
- **Records** (`types.dfy`, module `Types`): `Product`, `CartItem`, `Order`,
  `OrderStatus`, `OrderLine`, `DeliveryType` and an `Option`.

Remote effects are inputs. A storage upload is an `UploadOutcome`, a
product write is a `WriteOutcome`, and an order insert is an
`InsertOutcome`. The cart lives in a shared context whose code is not part
of this model. Its item list and `total` are therefore inputs to checkout,
and what the panel asks of the cart is returned as `CartRequest`s (`Clear`,
`SetOpen(false)`, `SetQuantity`, `Remove`). No cart reducer is invented.
`CartTotal` is the total formula the cart promises, `Σ price × quantity`.
It is the conclusion of `SnapshotKeepsTotal` and a hypothesis of
`SubmittedTotalMatchesLines`.

Where the declared types and the code disagree, the model follows the code:
- `Product` gets an `imageUrls` field. The admin page reads
  `product.image_urls`, although the declared `Product` interface
  (`src/types/index.ts`) omits it.
- An order's `items` are `OrderLine`s (`product_id`, `name`, `price`,
  `quantity`), because that is what checkout writes. The interface declares
  them as `CartItem[]`.
- `delivery_type` and `status` are enumerations (`DeliveryType`,
  `OrderStatus`), because the form and the admin page only produce those
  values. The interface declares them as strings.

JavaScript truthiness is kept where it decides a branch:
- `uploadImages` skips an empty URL as well as a failed upload (`Kept`).
- `openEdit` falls back to `image_url` only when it is a non-empty string.
- An empty description or category is saved as `null`.

Prices are integers (smallest currency unit). The form's price fields hold
already-parsed prices, and `None` stands for an empty field.

## Model

| member | source | states |
|---|---|---|
| `Slider.Next` | src/components/ImageSlider.tsx:42-46 | on an index in `[0, n)` the right arrow yields `(i + 1) mod n`, so it stays in range; it yields 0 exactly from the last image |
| `Slider.Previous` | src/components/ImageSlider.tsx:36-40 | on an index in `[0, n)` the left arrow yields `(i - 1) mod n`, so it stays in range; it yields `n - 1` exactly from the first image |
| `Slider.NextPreviousInverse` | src/components/ImageSlider.tsx:36-46 | the two arrows undo each other on every valid index, in both orders |
| `Slider.NextTimesIsModular` | src/components/ImageSlider.tsx:42-46 | `k` presses of the right arrow advance a valid index by `k` modulo `n` |
| `Slider.NextCycle` | src/components/ImageSlider.tsx:42-46 | `n` presses of the right arrow return to the starting index |
| `Slider.NextBeyondEndEscapes` | src/components/ImageSlider.tsx:42-46 | an index at or past the end (images removed while mounted) is never wrapped back: each press adds one |
| `Slider.Step` | src/components/ImageSlider.tsx:24-50 | the right arrow moves the index as `Next` and the left arrow as `Previous`; a dot sets the index to exactly its argument; a timer tick equals the right arrow when the guard `autoSlide && n > 1 && !hovered` holds and changes nothing otherwise; only the hover events change `hovered` and they keep the index |
| `Slider.Render` | src/components/ImageSlider.tsx:52-124 | placeholder iff there are no images, a single image (the first) iff there is one, the carousel iff there are two or more; the carousel has one dot per image targeting its own position and shows `images[index]` exactly when the index is in range |
| `Slider.DotsAreAvailable` | src/components/ImageSlider.tsx:112-115 | every rendered dot passes an index in `[0, n)` |
| `Slider.RunStaysInRange` | src/components/ImageSlider.tsx:20-50 | with the image list fixed, any sequence of events that can occur keeps a valid index valid |
| `Slider.InitialRunStaysInRange` | src/components/ImageSlider.tsx:20-50 | with the image list fixed, every index reachable from the initial index 0 names an existing image |
| `Slider.StaleIndexAfterShrink` | src/components/ImageSlider.tsx:20-34 | the index survives a shrink of `images`: at index 2 of three images, shrinking to two shows no image, and two ticks move the index to 4, still showing none |
| `Slider.Resize` | src/components/ImageSlider.tsx:20 | the corrected index after the list changes to `m` images: kept when still in range, otherwise the first image, so it is in range whenever `m >= 1` |
| `Slider.ResizedRunStaysInRange` | src/components/ImageSlider.tsx:20-50 | with the index reset on a change of the list, every run of available events stays on an image of the current list |
| `Slider.FewImagesFreeze` | src/components/ImageSlider.tsx:60-71 | with at most one image no arrow, dot, hover or tick event can occur |
| `Admin.EditPreviews` | src/pages/Admin.tsx:58-65 | previews are the product's `image_urls` if present and non-empty, else `[image_url]` if that is a non-empty string, else empty; all are stored URLs |
| `Admin.FormOf` | src/pages/Admin.tsx:50-57 | the form copies name, prices and sold flag; absent description and category become empty text |
| `Admin.OpenEdit` | src/pages/Admin.tsx:48-68 | opening a product records it as edited, shows the form, fills it from the product, sets the previews as above and always empties the file list |
| `Admin.OpenNew` | src/pages/Admin.tsx:70-76 | a new product starts with an empty form, no files and no previews |
| `Admin.ValidFiles` | src/pages/Admin.tsx:98 | keeps exactly the files of at most 5·1024·1024 bytes (membership both ways); nothing is dropped iff every file is within the limit |
| `Admin.ValidFilesAppend` | src/pages/Admin.tsx:98 | filtering distributes over concatenation, so kept files keep their original relative order |
| `Admin.HandleImageUpload` | src/pages/Admin.tsx:96-109 | warns iff some picked file is over the limit; appends the valid files to the file list and one object-URL preview per valid file, in order, to the end of the previews; the earlier entries and the form are untouched |
| `Admin.Without` | src/pages/Admin.tsx:117-118 | the index filter shortens a list by one exactly when the index is in range |
| `Admin.WithoutDeletes` | src/pages/Admin.tsx:117-118 | the index filter equals deleting position `k` (prefix before, suffix after) and is the identity for an index out of range |
| `Admin.RemoveImage` | src/pages/Admin.tsx:111-119 | deletes position `k` from the file list and from the preview list independently, each unchanged when `k` is out of its range; no alignment is assumed |
| `Admin.ClearAllImages` | src/pages/Admin.tsx:121-125 | both lists become empty and nothing else changes |
| `Admin.KeptUrls` | src/pages/Admin.tsx:87-94 | the returned URLs are at most one per file, each a non-empty URL some upload returned; the list is empty iff no upload produced a usable URL |
| `Admin.UploadErrors` | src/pages/Admin.tsx:78-92 | at most one toast per file, each an error carrying the message of a failed upload of the batch |
| `Admin.EveryFailureReported` | src/pages/Admin.tsx:78-92 | every failed upload of the batch yields an error toast with its own message, and there is no toast exactly when no upload failed |
| `Admin.KeptUrlsAppend` | src/pages/Admin.tsx:87-94 | a batch's URLs are the URLs of its first part followed by those of the rest: a failure does not stop later files |
| `Admin.UploadErrorsAppend` | src/pages/Admin.tsx:87-94 | a batch's error toasts are those of its parts, in order |
| `Admin.MiddleFailureExample` | src/pages/Admin.tsx:87-94 | three files with the second failing give the first and third URLs, in that order, and one error |
| `Admin.UploadImages` | src/pages/Admin.tsx:87-94 | the sequential loop returns exactly the kept URLs and the per-failure toasts of the whole batch |
| `Admin.NullIfEmpty` | src/pages/Admin.tsx:146-149 | an empty text field is sent as null and any other text is sent unchanged |
| `Admin.PayloadOf` | src/pages/Admin.tsx:144-153 | the payload copies the form; `image_urls` is the combined list; `image_url` is its first element, or null exactly when it is empty |
| `Admin.Save` | src/pages/Admin.tsx:127-167 | no write happens iff files were picked and none uploaded, and then nothing changes; otherwise the payload's images are the previews followed by the new URLs, the write is an update of the edited product or an insert, and the form closes with both lists emptied; the toasts are one error per failed upload followed by the write's toast |
| `Admin.WriteNotice` | src/pages/Admin.tsx:155-161 | a failed write shows the table's error message; a successful one shows a confirmation, "Product updated" exactly when a product was being edited and "Product created" otherwise |
| `Admin.SaveOutcomeOnlyChangesNotice` | src/pages/Admin.tsx:155-167 | the table's answer to the write changes neither the state after the save nor the write sent |
| `Admin.EditThenSaveRoundTrip` | src/pages/Admin.tsx:48-153 | opening a product and saving it unchanged writes an update of that product carrying its own name, description, prices, category, sold flag and opening previews |
| `AdminIntended.OpenEditAligned` | src/pages/Admin.tsx:58-66 | after opening a product the lists are related: stored previews first, then one object-URL preview per file |
| `AdminIntended.OpenNewAligned` | src/pages/Admin.tsx:70-76 | a new product starts with related (empty) lists |
| `AdminIntended.ClearAllImagesAligned` | src/pages/Admin.tsx:121-125 | clearing leaves related lists |
| `AdminIntended.HandleImageUploadAligned` | src/pages/Admin.tsx:104-108 | picking files keeps the lists related |
| `AdminIntended.RemoveImageMisaligned` | src/pages/Admin.tsx:111-119 | the page's removal can break the relation: removing a stored preview drops an unrelated picked file, and the next save writes its local URL |
| `AdminIntended.RemoveImageIntended` | src/pages/Admin.tsx:111-119 | removes preview `k`; also removes the matching file when the preview is a local one and keeps the files when it is a stored one; keeps the relation |
| `AdminIntended.RemovePreservesAligned` | src/pages/Admin.tsx:111-119 | deleting a preview, and its file when it is local, preserves the relation |
| `AdminIntended.RemoveImageAgreesWithoutStoredImages` | src/pages/Admin.tsx:117-118 | with no stored previews (a new product) the page's removal equals the corrected one |
| `AdminIntended.IntendedRemoveKeepsPickedFile` | src/pages/Admin.tsx:111-119 | on the misaligned example the corrected removal keeps the picked file and the relation |
| `AdminIntended.SaveWritesObjectUrl` | src/pages/Admin.tsx:141-152 | the page's save writes a picked file's local object URL as the new product's primary image, in front of the uploaded URL |
| `AdminIntended.StoredOnly` | src/pages/Admin.tsx:141-142 | selects only stored previews, never more than given |
| `AdminIntended.StoredOnlyAppend` | src/pages/Admin.tsx:141-142 | selecting stored previews distributes over concatenation |
| `AdminIntended.StoredOnlyOfUniform` | src/pages/Admin.tsx:141-142 | an all-stored list is kept whole and an all-local list yields nothing |
| `AdminIntended.StoredOnlyOfAligned` | src/pages/Admin.tsx:141-142 | under the relation, the stored previews are exactly the leading ones |
| `AdminIntended.SaveIntended` | src/pages/Admin.tsx:127-167 | same abort rule, closing and toasts as the page; an update of the edited product's id when editing and an insert otherwise; the payload is the form's fields with the stored previews followed by the uploaded URLs, so every written image is a stored URL, and under the relation the list is the stored images followed by the uploaded URLs |
| `AdminIntended.SaveAgreesWithoutPickedFiles` | src/pages/Admin.tsx:141-152 | with no picked files the corrected save equals the page's save |
| `Checkout.Snapshot` | src/components/CartSlideOver.tsx:21-26 | one order line per cart item in the same order, copying product id, name, `new_price` and quantity |
| `Checkout.SnapshotKeepsTotal` | src/components/CartSlideOver.tsx:21-26 | the lines' `Σ price × quantity` equals the cart's |
| `Checkout.OrderRow` | src/components/CartSlideOver.tsx:28-33 | the inserted row spreads the form's name, phone, address and delivery type, carries the items' snapshot and the given total, and has status pending |
| `Checkout.Submit` | src/components/CartSlideOver.tsx:16-45 | nothing happens iff the cart is empty; otherwise the row sent is the order row above; on success the cart is cleared, the panel closed, checkout hidden and the form reset to blank with home delivery; on failure only the store's message is shown and nothing changes |
| `Checkout.SubmittedTotalMatchesLines` | src/components/CartSlideOver.tsx:28-33 | when the total passed is the cart total, the row's total equals the sum of its lines |
| `Checkout.FailedSubmitIsRetryable` | src/components/CartSlideOver.tsx:35-37 | after a failed submission, submitting again sends the same row |
| `Checkout.RowIndependentOfOutcome` | src/components/CartSlideOver.tsx:28-33 | the row sent does not depend on the store's answer |
| `Checkout.ButtonRequest` | src/components/CartSlideOver.tsx:86-95 | minus asks for quantity −1 and plus for +1 for the item's product; trash, and only trash, asks to remove it |

## Left out

- Supabase calls are not modelled: table reads and writes, storage upload, `getPublicUrl`, auth sessions and logout. Only their outcomes enter, as inputs.
- `deleteProduct`, `updateOrderStatus` and `deleteOrder` are single remote calls whose only local effect is a toast.
- The realtime refetch hooks (`useProducts`, `useOrders`) only replace their data wholesale when a notification arrives.
- The cart context (`addItem`, `removeItem`, `updateQuantity`, `clearCart`, `total`) is not part of this model. The panel's calls into it are `CartRequest`s.
- `parseFloat`, `toString` and `toFixed` of prices are floating-point text conversion. The form holds parsed integer prices instead.
- The upload path is built from `Date.now()` and the file extension. It is a clock read and never reaches the model's state.
- Object URLs are not created or revoked. A local preview is the value `ObjectUrl(file)`, and the revocation in `removeImage` and `clearAllImages` is a browser side effect with no state.
- The `saving` and `submitting` flags are set and reset within one handler. Only a disabled button reads them.
- `Admin.Save`: `handleSave` is one step over the state at the moment of submitting, although it awaits the uploads and the write. The closing setters act on whatever state exists afterwards. Files picked during the awaits (the "Add More Images" button stays enabled; only the submit button is disabled) are therefore dropped by the final clearing without being uploaded or written, and the model does not show this.
- `Checkout.Submit`: `handleSubmit` is likewise one step over the cart at submit time. A product added to the cart while the insert is pending (the panel can be closed and a card's add button used) is removed by `clearCart()` on success, although it is not in the row sent, and the model does not show this.
- `Slider.RunStaysInRange`: holds for a fixed image list only. The page never resets the index when `images` shrinks while mounted (see Findings), so the promise is stated per image list.
- `Slider.InitialRunStaysInRange`: the same restriction to a fixed image list.
- `autoSlideInterval`, the interval timer and the hover events are not modelled as such. A tick and a hover are events of `Slider.Step`.
- JSX rendering, animation, i18n strings, routing, theming and the purely presentational components are not modelled.
- Storage answers are given per picked file: the save's `requires |uploads| == |s.files|` only pairs each file with its answer and excludes no behaviour of the page.

## Findings

| source | as written | input that shows it | evidently intended | confidence | as-written member | corrected member |
|---|---|---|---|---|---|---|
| src/pages/Admin.tsx:142 | the saved image list is every preview followed by the uploaded URLs, and previews of newly picked files are local object URLs | new product, pick one file `f` within the limit, its upload returns `u`: `image_urls = [object URL of f, u]`, `image_url = object URL of f` | the product's stored images followed by the uploaded URLs (the comment at line 141 reads "existing preview URLs (which might be existing images)") | high; not executed | `AdminIntended.SaveWritesObjectUrl` | `AdminIntended.SaveIntended` |
| src/pages/Admin.tsx:117-118 | one index filters both lists, but when a product with stored images is edited, previews and files are offset by the number of stored images | edit a product with one stored image, pick file `f` (previews `[stored, object URL of f]`, files `[f]`), remove preview 0: files become `[]` while the object URL of `f` stays, and the next save writes it without uploading `f` | remove the preview, and the file only when that preview is the file's own | medium; not executed | `AdminIntended.RemoveImageMisaligned` | `AdminIntended.RemoveImageIntended` |
| src/components/ImageSlider.tsx:20 | the index is initialised once and never reset, so it can point past the end after the `images` prop shrinks; the right arrow and the timer then move it further out; only the left arrow or a dot brings it back | three images at index 2, the list becomes two images: no image is shown, and two ticks move the index to 4 (one left arrow instead gives index 1) | reset or clamp the index when the image list changes | low; not executed | `Slider.StaleIndexAfterShrink` | `Slider.Resize` |
