# Allergen Scanner: scan session, result sheet and scan history in Dafny

This project models the decision logic of the Allergen Scanner Android app.
The app scans a product barcode, looks the product up and shows its allergens
in a bottom sheet. The model has three parts.

- **The scan-session state machine** (`MainViewModel`), in `MainViewModel.dfy`.
  A `UiState` record holds `isLoading`, `product`, `errorMessage` and
  `lastScannedBarcode`. The class `MainViewModel` overwrites it. A scan has two
  steps: a synchronous start (the de-duplication guard, then the "loading"
  update), and a later completion that carries the lookup's outcome. The
  outcome is a response envelope or a failure with an optional message.
  `clearProduct` is the reset. The transitions are pure functions on `UiState`
  (`Started`, `Completed`, `Cleared`), and the class's methods are proved
  against them.
- **The screen's pure logic** (`MainActivity`), in `MainActivity.dfy`.
  - How each `allergensTags` entry becomes a display label.
  - When the result sheet is visible, and what it shows: a spinner, the error
    panel or the product panel with its title, icon, colour and chips.
  - The barcode analyzer's pause gate.
- **The combined screen** (`ScanScreen.dfy`). It joins the view model and the
  analyzer: frames reach the view model only while the sheet is hidden. It
  proves that every reachable state keeps the sheet's invariants.
- **The scan-history table** (`ScanHistoryDao`), in `Database.dfy`. The table is
  an in-memory sequence of rows plus the key sequence counter. `insert`
  replaces a row on an id conflict, and an id of 0 asks for a fresh key.
  `getAllHistory` lists the rows newest first. `clearAll` deletes every row.

`Api.dfy` transcribes the lookup's `ProductResponse` and `Product` records.
`Wrappers.dfy` gives `Option`, which stands for Kotlin's nullable types.

## Behaviour of the code that shapes the model

The model follows the code in each of these cases.

- The scan guard compares the barcode with `lastScannedBarcode`. It does not look
  at the phase (MainViewModel.kt:33). So a different barcode is accepted while a
  lookup is running or while a result is shown.
- `clearProduct` leaves `isLoading` as it was (MainViewModel.kt:68-75). A clear
  during a lookup therefore keeps the spinner up.
- No completion is discarded as stale. A lookup that returns after a clear, or
  after a newer scan, still writes its product or its error.
- The view model writes no history row and does no allergen classification.
  The files modelled here have no allergen dictionary, no profile matching and
  no SAFE/UNSAFE classification. Only the history columns' comments mention
  them (Database.kt:27-28).

Two results follow from these points.

- The view model alone does not keep its sheet invariants:
  `DifferentBarcodeWhileLoadingBreaksConsistency` gives a trace that ends with
  a product and an error set at once.
- The app as a whole keeps them if the analyzer's pause flag follows the state
  at once. The analyzer is paused whenever the sheet is visible
  (MainActivity.kt:149), so a new scan only starts when nothing is loading and
  nothing is shown. Under that assumption, `ReachableScreensAreConsistent`
  proves the invariants for every sequence of frames, completions and sheet
  closings. In the app the flag is copied by a `LaunchedEffect`
  (MainActivity.kt:324-326). A frame that passed the pause check before that
  copy can still report a different barcode, start a second lookup and reach
  the trace above.

## Model

| member | source | states |
|---|---|---|
| ViewModel.Initial | app/src/main/java/com/example/allergenscanner/MainViewModel.kt:17-22 | the first state is not loading and has no product, no error and no remembered barcode; it satisfies the sheet invariants |
| ViewModel.MainViewModel.constructor | app/src/main/java/com/example/allergenscanner/MainViewModel.kt:28 | the view model starts in the initial state |
| ViewModel.Started | app/src/main/java/com/example/allergenscanner/MainViewModel.kt:36-43 | an accepted scan sets loading, clears product and error, and remembers the barcode, so a repeat of that barcode (and only that one) is now a duplicate; the result satisfies the sheet invariants |
| ViewModel.MainViewModel.OnBarcodeScanned | app/src/main/java/com/example/allergenscanner/MainViewModel.kt:31-43 | a lookup is launched iff the barcode differs from the remembered one; a duplicate leaves the whole state unchanged; otherwise the state becomes `Started`; the sheet invariants are preserved |
| ViewModel.Completed | app/src/main/java/com/example/allergenscanner/MainViewModel.kt:45-63 | every completion ends loading and keeps the remembered barcode; status 1 with a product stores the product and keeps the error; any other response stores "Product not found (Barcode: b)" for the scan's own barcode b and keeps the product; a failure stores "Error: " plus the message ("null" when absent); from a state with no result the new state shows exactly one result |
| ViewModel.MainViewModel.CompleteLookup | app/src/main/java/com/example/allergenscanner/MainViewModel.kt:45-63 | the state becomes `Completed` for the scan's barcode and outcome; a completion that arrives while loading preserves the sheet invariants |
| ViewModel.Cleared | app/src/main/java/com/example/allergenscanner/MainViewModel.kt:68-75 | clearing drops product, error and remembered barcode and keeps `isLoading`; afterwards no barcode is a duplicate |
| ViewModel.MainViewModel.ClearProduct | app/src/main/java/com/example/allergenscanner/MainViewModel.kt:68-75 | the state becomes `Cleared`, which satisfies the sheet invariants |
| ViewModel.ScanTwice | app/src/main/java/com/example/allergenscanner/MainViewModel.kt:33 | two scans of the same barcode without a clear launch at most one lookup; the second is always rejected |
| ViewModel.ClearThenRescan | app/src/main/java/com/example/allergenscanner/MainViewModel.kt:68-75 | after `clearProduct` a scan of any barcode, including the last one, is accepted and starts loading |
| ViewModel.DifferentBarcodeWhileLoadingBreaksConsistency | app/src/main/java/com/example/allergenscanner/MainViewModel.kt:31-63 | scanning A, then B while A loads, then completing A as not found and B as found leaves both a product and an error set |
| ViewModel.CompletionAfterClearIsWritten | app/src/main/java/com/example/allergenscanner/MainViewModel.kt:45-75 | a completion that arrives after a clear during loading still shows its result, with no remembered barcode |
| MainActivity.UpperCase | app/src/main/java/com/example/allergenscanner/MainActivity.kt:256 | a lower-case ASCII letter maps to the upper-case letter at the same alphabet position |
| MainActivity.RemoveEnPrefix | app/src/main/java/com/example/allergenscanner/MainActivity.kt:255 | the tag changes iff it starts with "en:", and then exactly that prefix is removed |
| MainActivity.ReplaceHyphens | app/src/main/java/com/example/allergenscanner/MainActivity.kt:255 | same length; each hyphen becomes a space and every other character is kept; no hyphen remains |
| MainActivity.CapitalizeFirst | app/src/main/java/com/example/allergenscanner/MainActivity.kt:256 | same length and same characters after the first; a lower-case first letter is upper-cased, any other first character is kept; the first character is never lower case |
| MainActivity.Label | app/src/main/java/com/example/allergenscanner/MainActivity.kt:254-257 | a label has no hyphen, does not start with a lower-case letter, and is 3 shorter than its tag iff the tag starts with "en:" (else as long); every character is the de-prefixed tag's character with hyphens turned to spaces, the first one upper-cased if it is a lower-case letter |
| MainActivity.ReplaceHyphensWithoutHyphens | app/src/main/java/com/example/allergenscanner/MainActivity.kt:255 | replacing hyphens in a text without hyphens changes nothing |
| MainActivity.LabelIdempotent | app/src/main/java/com/example/allergenscanner/MainActivity.kt:255-256 | labelling a label gives the same label |
| MainActivity.LabelKeepsOtherPrefixes | app/src/main/java/com/example/allergenscanner/MainActivity.kt:255 | a tag that does not start with "en:" (such as "fr:…", or one with "en:" further in) keeps its length and all characters after the first, with hyphens turned to spaces |
| MainActivity.AllergenLabels | app/src/main/java/com/example/allergenscanner/MainActivity.kt:253-258 | one label per tag, in the tags' order; a missing tag list gives no labels; the list is empty iff there are no tags |
| MainActivity.AllergenLabelsIdempotent | app/src/main/java/com/example/allergenscanner/MainActivity.kt:253-258 | labelling a list of labels gives the same list |
| MainActivity.ErrorPanel | app/src/main/java/com/example/allergenscanner/MainActivity.kt:239-250 | the error panel has the error icon, the title "Error" in the error colour, the button "Scan Again", and the error message as its text |
| MainActivity.ProductPanel | app/src/main/java/com/example/allergenscanner/MainActivity.kt:252-267 | title is the product name or "Unknown Product"; the info icon, the error colour and the allergen chips appear iff the label list is non-empty, and the chips are those labels; otherwise the body is the "no allergen information" text; the button reads "Scan New Item" |
| MainActivity.SheetContentOf | app/src/main/java/com/example/allergenscanner/MainActivity.kt:213-252 | the sheet shows something iff loading, a product or an error is present; the spinner shows iff loading; an error outranks a product and shows the error panel; with no loading and no error, a product shows its product panel |
| MainActivity.ClearWhileLoadingKeepsSpinner | app/src/main/java/com/example/allergenscanner/MainActivity.kt:233-237 | clearing while loading keeps the spinner on the sheet |
| MainActivity.ClearResultHidesSheet | app/src/main/java/com/example/allergenscanner/MainActivity.kt:119 | clearing when not loading hides the sheet |
| MainActivity.Analyze | app/src/main/java/com/example/allergenscanner/MainActivity.kt:395-413 | a paused analyzer reports nothing; otherwise it reports the first detected barcode's raw value and nothing when the image is missing, detection fails or no barcode is found |
| ScanScreen.Step | app/src/main/java/com/example/allergenscanner/MainActivity.kt:144-150 | while the sheet is visible, frames are dropped; a frame changes the screen iff the unpaused analyzer reports a barcode that is not a duplicate, and then starts a lookup for it; a frame with no barcode or with a duplicate leaves the screen unchanged; a completion for a lookup in flight applies `Completed` with that lookup's barcode and removes it, and any other completion does nothing; closing a visible sheet applies `Cleared`, closing a hidden one does nothing |
| ScanScreen.StepKeepsGated | app/src/main/java/com/example/allergenscanner/MainActivity.kt:149 | each frame, completion or sheet closing keeps the sheet invariants, at most one lookup in flight exactly while loading, and no remembered barcode while the sheet is hidden |
| ScanScreen.RunKeepsGated | app/src/main/java/com/example/allergenscanner/MainActivity.kt:149 | any sequence of events keeps the same invariant |
| ScanScreen.ReachableScreensAreConsistent | app/src/main/java/com/example/allergenscanner/MainActivity.kt:119-150 | from launch, every reachable state satisfies the sheet invariants, has at most one lookup in flight (exactly while loading), and never rejects a delivered barcode as a duplicate |
| Database.Stored | app/src/main/java/com/example/allergenscanner/Database.kt:23 | an id of 0 is replaced by a fresh id above every id ever used, with the other fields kept; a row with any other id is stored exactly as given |
| Database.Inserted | app/src/main/java/com/example/allergenscanner/Database.kt:34-35 | ids stay unique and non-zero; afterwards the table holds the stored row plus exactly the old rows with other ids; an existing id keeps the row count, a new id appends one row |
| Database.ScanHistoryDao.Insert | app/src/main/java/com/example/allergenscanner/Database.kt:34-35 | the table becomes `Inserted` of the old table and the row, and stays well-formed |
| Database.InsertNewestFirst | app/src/main/java/com/example/allergenscanner/Database.kt:37-38 | inserting into a newest-first list keeps it newest first and adds exactly that row |
| Database.SortNewestFirst | app/src/main/java/com/example/allergenscanner/Database.kt:37-38 | the result is a permutation of the rows, ordered by `scanTime` non-increasing |
| Database.ScanHistoryDao.GetAllHistory | app/src/main/java/com/example/allergenscanner/Database.kt:37-38 | returns exactly the stored rows, newest first, and changes nothing |
| Database.ScanHistoryDao.ClearAll | app/src/main/java/com/example/allergenscanner/Database.kt:40-41 | the table is empty afterwards and the key sequence is kept |
| Database.HistoryListsEachRowOnce | app/src/main/java/com/example/allergenscanner/Database.kt:21-38 | the history of a well-formed table has unique ids, so it lists each row once |
| Database.PermutationKeepsUniqueIds | app/src/main/java/com/example/allergenscanner/Database.kt:23 | any reordering of rows with unique ids again has unique ids |

## Left out

- The coroutine launch and `StateFlow` publication. The start step runs
  synchronously, and a completion is a separate event. `viewModelScope` runs
  the loading update before `launch` returns when the caller is on the main
  thread, as the barcode callback is. Only a caller on another thread could
  pass the guard before that update. That window is not modelled.
- The lookup client. The view model calls `RetrofitClient.instance.getProductInfo`,
  and Api.kt defines a different client (`ApiClient`, `getProductByBarcode`).
  The lookup is an input of the completion. The HTTP client, JSON mapping and
  network are not modelled.
- Exception kinds. Every exception, cancellation included, becomes `Failure`
  with its optional message.
- The camera: CameraX binding, the ML Kit scanner, `ImageProxy` closing and the
  executor. The detector's result for a frame is an input.
- The timing of the pause flag. `ScanScreen` assumes the pause flag follows the
  state at once. In the app it is copied after recomposition, so frames that are
  already being analysed may still call back. Those frames are not modelled.
- The Compose layout, the `ScannerOverlay` animation, the permission flow and
  the `InfoColumn` rendering. Only the choices between contents are modelled.
- `AppDatabase.getDatabase`, the process-wide singleton (concurrency and
  platform).
- Live updates. `getAllHistory` returns a live `Flow`; the model returns the
  current snapshot.
- The row order among equal `scanTime` values, which the query leaves open.
  The contracts state only the sorting and the permutation.
- The key sequence counter. This is Room's `autoGenerate` key, an SQLite
  `AUTOINCREMENT` column whose id of 0 is sent as NULL. The schema that Room
  generates is not part of this model.
- The `System.currentTimeMillis()` default for `scanTime`. The caller supplies
  the time.
- Integer widths. Kotlin `Int` ids and status, and `Long` times, are unbounded
  integers here. A generated id beyond the `Int` range is not modelled.
- The `"SAFE"`/`"UNSAFE"` rule for `scanResult`. It is only a column comment,
  so `insert` accepts any text.
- MainActivity.CapitalizeFirst: upper-cases only ASCII `a`–`z`. Kotlin's
  `isLowerCase`/`uppercase()` also map other lower-case letters, sometimes to
  more than one character.
- MainActivity.UpperCase: ASCII letters only, for the same reason.
- MainActivity.Label: "does not start with a lower-case letter" means an ASCII
  lower-case letter, for the same reason.
- `tracesTags`, `ingredientsText` and `statusVerbose`. They are carried in the
  records, but no code in the files modelled here reads them.
