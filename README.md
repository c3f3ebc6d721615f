# mec-canteen in Dafny

A model of the behaviour behind two React pages.

- **Upload page** (`src/pages/Index.tsx`, module `Upload` in `upload.dfy`). The page lets a user print homework in their handwriting. It holds three state fields: an optional handwriting-sample file, the homework text, and an optional homework PDF.
  - Four handlers change these fields: file-picker upload, drop upload, PDF upload, and the textarea's change handler.
  - The export button checks its inputs and raises a toast.
  - Two derived views decide what is rendered: the preview card and the status line.
  - The handlers are functions on a `State` value (the three fields plus the log of emitted toasts). Class `UploadWizard` holds the same fields, and each of its methods is specified by one of those functions. `Run` replays a sequence of user events, and lemmas about `Run` state what holds over any sequence of interactions.
- **Menu page** (`src/pages/Home.tsx`, module `Menu` in `menu.dfy`). The page is a canteen menu: the constant catalog of ten items, the category buttons, and the category filter.
  - `FilterCategory` models `Array.filter` by category. Its contract says every element has the category, the length is the number of such items, and the result is an order-preserving subsequence of the catalog. `FilterCategoryUnique` shows that this contract determines the result.
  - Class `MenuBrowser` holds the selected category and the toast log.
- **Toasts** (`toasts.dfy`). A toast is modelled as an emitted event `(kind, title, description)`, appended to a log that only grows.

Modelling choices:
- A file is an opaque value with a name, a size and a MIME type.
- Both `files?.[0]` (which may be undefined) and `dataTransfer.files[0]` become an `Option<File>`.
- A disabled textarea fires no change event. So `EditText` changes the text only while no PDF is present.
- The text and the PDF are kept as two separate fields, as in the source. A PDF chosen after text was typed leaves both in state. `PdfAfterTextPreviewsPdf` shows this case.
- The drop handler's guard is `file && file.type.startsWith("image/")`. So a drop that carries no file gets the same "Invalid file type" toast as a file of the wrong type (src/pages/Index.tsx:33, 39-44).
- Category clicks only ever pass a value from the `categories` list. So `SelectCategory` requires that, and `MenuBrowser.Valid()` keeps the selection inside the list.
- `price` is a TypeScript `number`. The model uses `int`, since every catalog price is a whole number.

## Model

| member | source | states |
|---|---|---|
| `Upload.FileUpload` | src/pages/Index.tsx:15-24 | any chosen file becomes the sample and one "Handwriting sample uploaded!" info toast is appended; text and PDF are untouched; with no file nothing changes |
| `Upload.Drop` | src/pages/Index.tsx:30-46 | exactly one toast is appended; it is an info toast iff a file is present and its type starts with "image/", and then that file is the sample; otherwise the sample keeps its prior value and the toast is the destructive "Invalid file type"; text and PDF are untouched |
| `Upload.PdfUpload` | src/pages/Index.tsx:48-57 | a chosen PDF replaces the previous one with one "PDF uploaded!" toast; the sample and the typed text are never cleared or altered |
| `Upload.EditText` | src/pages/Index.tsx:210-216 | a text edit takes effect only while no PDF is present (the textarea is disabled otherwise); no other field and no toast changes |
| `Upload.Export` | src/pages/Index.tsx:59-73 | exactly one toast is appended: destructive "Missing information" iff the sample is absent or (text empty and PDF absent), the info "Generating" toast iff not; the three state fields never change |
| `Upload.PreviewShown` | src/pages/Index.tsx:267 | the preview condition is exactly the negation of the export guard at line 60 |
| `Upload.Preview` | src/pages/Index.tsx:274-290 | a preview exists iff export would succeed; with a PDF present it shows that PDF's name even when text is non-empty, otherwise the non-empty text; the caption says "PDF" iff a PDF is present |
| `Upload.StatusLabel` | src/pages/Index.tsx:256 | the status reads "PDF uploaded" iff a PDF is present, otherwise it is the text's character count |
| `Upload.RunAppendsToasts` | src/pages/Index.tsx:15-73 | over any sequence of interactions the toast log only grows, keeps its earlier entries, and gains at most one toast per interaction |
| `Upload.SampleStaysPresent` | src/pages/Index.tsx:15-57 | no handler clears the sample: once present it stays present after any interactions |
| `Upload.PdfFreezesText` | src/pages/Index.tsx:210-216 | once a PDF is present it stays present and the typed text keeps its value through any interactions |
| `Upload.PdfPreviewPersists` | src/pages/Index.tsx:267-286 | once both a sample and a PDF are present, the preview is shown and displays the PDF after any interactions |
| `Upload.RunKeepsErrorToastsKnown` | src/pages/Index.tsx:30-73 | every destructive toast the page ever raises is either "Invalid file type" or "Missing information" |
| `Upload.DropPlainTextRejected` | src/pages/Index.tsx:33-45 | dropping a `text/plain` file keeps the prior sample (absent if none) and appends only the "Invalid file type" toast |
| `Upload.PdfAfterTextPreviewsPdf` | src/pages/Index.tsx:274-286 | choosing a sample, typing "abc", then choosing a PDF leaves "abc" in state while the preview shows the PDF |
| `Upload.UploadWizard.constructor` | src/pages/Index.tsx:10-12 | the sample and the PDF start absent, the text empty, the toast log empty |
| `Upload.UploadWizard.HandleFileUpload` | src/pages/Index.tsx:15-24 | changes only the sample and the toast log, as `FileUpload` says |
| `Upload.UploadWizard.HandleDrop` | src/pages/Index.tsx:30-46 | changes only the sample and the toast log, as `Drop` says |
| `Upload.UploadWizard.HandlePdfUpload` | src/pages/Index.tsx:48-57 | changes only the PDF and the toast log, as `PdfUpload` says |
| `Upload.UploadWizard.HandleTextChange` | src/pages/Index.tsx:213-215 | changes only the text, and only while no PDF is present, as `EditText` says |
| `Upload.UploadWizard.HandleExport` | src/pages/Index.tsx:59-73 | changes only the toast log, as `Export` says |
| `Menu.FilterCategory` | src/pages/Home.tsx:99 | the filtered list is an order-preserving subsequence of the items; every element has the category; its length is the number of such items, which is at most the input's length |
| `Menu.FilterCategoryMembers` | src/pages/Home.tsx:99 | an item is in the filtered list iff it is in the items and has the category |
| `Menu.FilterCategoryUnique` | src/pages/Home.tsx:99 | any subsequence of the items made only of items of category `c` and as long as their count is the filtered list, so the contract of `FilterCategory` fully characterises it |
| `Menu.SubsequenceOfCategoryBounded` | src/pages/Home.tsx:99 | a subsequence made only of items of category `c` is no longer than their count |
| `Menu.VisibleItems` | src/pages/Home.tsx:97-99 | with "All" the visible list is the catalog exactly; otherwise it is an order-preserving subsequence of the catalog, all of the selected category, as long as the count of such items |
| `Menu.FilterCategoryIdempotent` | src/pages/Home.tsx:99 | filtering the filtered list by the same category returns the same list |
| `Menu.VisibleItemsIdempotent` | src/pages/Home.tsx:97-99 | applying the page's filter to the visible list again gives the same list, for "All" and for every category |
| `Menu.FiltersPartition` | src/pages/Home.tsx:95-99 | when every item's category is one of a list of distinct categories, the per-category filter lengths add up to the catalog length |
| `Menu.CatalogNamesDistinct` | src/pages/Home.tsx:18-89 | the item names, used as card keys at line 159, are pairwise distinct |
| `Menu.CatalogPricesPositive` | src/pages/Home.tsx:18-89 | every catalog price is positive |
| `Menu.CatalogCategoriesListed` | src/pages/Home.tsx:18-95 | every item's category is one of the category buttons other than "All" |
| `Menu.CatalogPartition` | src/pages/Home.tsx:18-99 | the Breakfast, Lunch, Dinner and Beverages filters together show each of the ten items exactly once: their lengths sum to 10 |
| `Menu.MenuBrowser.constructor` | src/pages/Home.tsx:92 | the selected category starts as "All", so the whole catalog is shown |
| `Menu.CategoriesNonEmpty` | src/pages/Home.tsx:18-99 | for every button in `categories`, the visible list of the catalog is non-empty |
| `Menu.MenuBrowser.FilteredItems` | src/pages/Home.tsx:97-99 | while the selection is one of the buttons, the visible list is never empty: every category button shows at least one card |
| `Menu.MenuBrowser.SelectCategory` | src/pages/Home.tsx:145-149 | a category button click sets the selection to that category and keeps it one of the buttons |
| `Menu.MenuBrowser.AddToCart` | src/pages/Home.tsx:101-106 | appends one "Added to cart!" toast naming the item and leaves the selection, so the visible items, unchanged; the selection stays one of the buttons |

## Left out

- The markup, styling, glow and hero decoration, icons, images, and the Header and Footer components. They have no behaviour.
- The toast library's rendering and auto-dismiss timers. Only the emitted toast is modelled.
- The file-size display in KB (`size / 1024` with `toFixed(2)`, lines 199 and 248 of src/pages/Index.tsx). It is floating-point display formatting.
- The drop-zone label (line 184) and the "Change PDF"/"Upload PDF" button label (line 236). They are plain rendering of the same fields.
- File contents, the `preventDefault` calls of the drag-over and drop handlers (src/pages/Index.tsx:27, 31), and the browser's `accept` filters on the inputs. The handlers never look at these, so only the handlers' own checks are modelled.
- `Upload.StatusLabel`: counts the text's characters. JavaScript's `length` counts UTF-16 code units instead, so the two differ for text outside the Basic Multilingual Plane.
- The "Get Started", "Learn How It Works", "Order Now" and "View Menu" buttons. They have no handlers. There is also no real cart and no real 3D-print export to model.
