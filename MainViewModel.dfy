/**
 * The scan-session state machine of the view model.
 *
 * The state is one `UiState` record that the view model overwrites. A scan is
 * split into two events: a synchronous start (the de-duplication guard and the
 * "loading" update) and a later completion carrying the lookup's outcome. The
 * lookup itself is an input: either a response envelope or a failure.
 */
module ViewModel {
  import opened Wrappers
  import opened Api

  datatype UiState = UiState(
    isLoading: bool,
    product: Option<Product>,
    errorMessage: Option<string>,
    lastScannedBarcode: Option<string>)

  /** What the product lookup for one scan produced. A failure carries the
      exception's message, which may itself be absent. */
  datatype LookupOutcome =
    | Response(response: ProductResponse)
    | Failure(message: Option<string>)

  /** The two facts the result sheet relies on: product and error are never
      shown together, and nothing is shown under the spinner. */
  predicate Consistent(s: UiState) {
    && !(s.product.Some? && s.errorMessage.Some?)
    && (s.isLoading ==> s.product.None? && s.errorMessage.None?)
  }

  /** A result is on display: the lookup ended and its outcome was written. */
  predicate ShowsResult(s: UiState) {
    !s.isLoading && (s.product.Some? || s.errorMessage.Some?)
  }

  /** The lookup found the product: status 1 and a product present. */
  predicate Found(outcome: LookupOutcome) {
    outcome.Response? && outcome.response.status == 1 && outcome.response.product.Some?
  }

  function NotFoundMessage(barcode: string): string {
    "Product not found (Barcode: " + barcode + ")"
  }

  /** Kotlin renders an absent exception message as the text "null". */
  function FailureMessage(message: Option<string>): string {
    "Error: " + (if message.Some? then message.value else "null")
  }

  function Initial(): (s: UiState)
    ensures Consistent(s) && !ShowsResult(s)
    ensures !s.isLoading && s.product.None? && s.errorMessage.None? && s.lastScannedBarcode.None?
  {
    UiState(false, None, None, None)
  }

  /** The guard of `onBarcodeScanned`: it compares barcodes, not the phase. */
  predicate IsDuplicate(s: UiState, barcode: string) {
    s.lastScannedBarcode == Some(barcode)
  }

  /** The "loading" update made when a scan is accepted. */
  function Started(s: UiState, barcode: string): (r: UiState)
    ensures Consistent(r) && !ShowsResult(r)
    ensures r.isLoading && r.product.None? && r.errorMessage.None?
    ensures IsDuplicate(r, barcode)
    ensures forall b :: IsDuplicate(r, b) ==> b == barcode
  {
    s.(isLoading := true, lastScannedBarcode := Some(barcode), product := None, errorMessage := None)
  }

  /** The update made when the lookup started for `barcode` returns. Nothing
      checks that `barcode` is still the one being looked up. */
  function Completed(s: UiState, barcode: string, outcome: LookupOutcome): (r: UiState)
    ensures !r.isLoading && r.lastScannedBarcode == s.lastScannedBarcode
    ensures Found(outcome) ==>
      r.product == outcome.response.product && r.errorMessage == s.errorMessage
    ensures outcome.Response? && !Found(outcome) ==>
      r.errorMessage == Some(NotFoundMessage(barcode)) && r.product == s.product
    ensures outcome.Failure? ==>
      r.errorMessage == Some(FailureMessage(outcome.message)) && r.product == s.product
    ensures s.product.None? && s.errorMessage.None? ==> Consistent(r) && ShowsResult(r)
  {
    match outcome
    case Response(response) =>
      if response.status == 1 && response.product.Some? then
        s.(isLoading := false, product := response.product)
      else
        s.(isLoading := false, errorMessage := Some(NotFoundMessage(barcode)))
    case Failure(message) =>
      s.(isLoading := false, errorMessage := Some(FailureMessage(message)))
  }

  /** `clearProduct`: drops the result and the remembered barcode, and leaves
      `isLoading` as it was. */
  function Cleared(s: UiState): (r: UiState)
    ensures Consistent(r) && !ShowsResult(r)
    ensures r.isLoading == s.isLoading
    ensures r.product.None? && r.errorMessage.None?
    ensures forall b :: !IsDuplicate(r, b)
  {
    s.(product := None, errorMessage := None, lastScannedBarcode := None)
  }

  class MainViewModel {
    var uiState: UiState

    constructor ()
      ensures uiState == Initial()
    {
      uiState := Initial();
    }

    /** The synchronous part of `onBarcodeScanned`; `launched` says whether a
        lookup for `barcode` was started (its result arrives via CompleteLookup). */
    method OnBarcodeScanned(barcode: string) returns (launched: bool)
      modifies this
      ensures launched <==> !IsDuplicate(old(uiState), barcode)
      ensures uiState == if launched then Started(old(uiState), barcode) else old(uiState)
      ensures Consistent(old(uiState)) ==> Consistent(uiState)
    {
      if uiState.lastScannedBarcode == Some(barcode) {
        return false;
      }
      uiState := Started(uiState, barcode);
      launched := true;
    }

    /** The end of the coroutine launched for `barcode`. */
    method CompleteLookup(barcode: string, outcome: LookupOutcome)
      modifies this
      ensures uiState == Completed(old(uiState), barcode, outcome)
      ensures old(uiState).isLoading && Consistent(old(uiState)) ==> Consistent(uiState)
    {
      uiState := Completed(uiState, barcode, outcome);
    }

    method ClearProduct()
      modifies this
      ensures uiState == Cleared(old(uiState))
      ensures Consistent(uiState)
    {
      uiState := Cleared(uiState);
    }
  }

  /** Two scans of the same barcode with no clear in between start one lookup. */
  method ScanTwice(vm: MainViewModel, barcode: string) returns (first: bool, second: bool)
    modifies vm
    ensures first <==> !IsDuplicate(old(vm.uiState), barcode)
    ensures !second
    ensures vm.uiState == if first then Started(old(vm.uiState), barcode) else old(vm.uiState)
  {
    first := vm.OnBarcodeScanned(barcode);
    second := vm.OnBarcodeScanned(barcode);
  }

  /** After `clearProduct` the same barcode is accepted again, whatever came before. */
  method ClearThenRescan(vm: MainViewModel, barcode: string) returns (launched: bool)
    modifies vm
    ensures launched
    ensures vm.uiState == Started(Cleared(old(vm.uiState)), barcode)
  {
    vm.ClearProduct();
    launched := vm.OnBarcodeScanned(barcode);
  }

  /** The guard alone does not serialise lookups: a different barcode is
      accepted while the first lookup is in flight, and if the two answers
      arrive in turn the state holds a product and an error at once. */
  lemma DifferentBarcodeWhileLoadingBreaksConsistency(p: Product)
    ensures var s1 := Started(Initial(), "A");
            var s2 := Started(s1, "B");
            var s3 := Completed(s2, "A", Response(ProductResponse(None, 0, None)));
            var s4 := Completed(s3, "B", Response(ProductResponse(Some(p), 1, None)));
            && s1.isLoading && !IsDuplicate(s1, "B")
            && s4.product == Some(p)
            && s4.errorMessage == Some(NotFoundMessage("A"))
            && !Consistent(s4)
  {
  }

  /** With no stale-response check, a completion that arrives after a clear
      still writes its outcome. */
  lemma CompletionAfterClearIsWritten(s: UiState, barcode: string, outcome: LookupOutcome)
    requires s.isLoading
    ensures var r := Completed(Cleared(s), barcode, outcome);
            && ShowsResult(r)
            && r.lastScannedBarcode.None?
            && (Found(outcome) ==> r.product == outcome.response.product)
  {
  }
}
