/**
 * The view model and the scanner screen together. Frames reach
 * `onBarcodeScanned` only through the analyzer, whose pause flag is the sheet's
 * visibility; the sheet's dismiss and buttons call `clearProduct`; each accepted
 * scan has one lookup in flight until its completion arrives, in any order.
 *
 * The pause flag is taken to follow the state at once; in the app it is copied
 * after recomposition, and frames analysed in that window are not modelled.
 */
module ScanScreen {
  import opened Wrappers
  import opened ViewModel
  import opened MainActivity

  /** The session state and the barcodes of the lookups still in flight. */
  datatype Screen = Screen(ui: UiState, inFlight: seq<string>)

  datatype Event =
    | FrameAnalyzed(frame: Frame)
    | LookupReturned(index: nat, outcome: LookupOutcome)
    | SheetClosed

  function Launch(): (sc: Screen)
    ensures sc.ui == Initial() && sc.inFlight == []
  {
    Screen(Initial(), [])
  }

  function RemoveAt(xs: seq<string>, i: nat): (r: seq<string>)
    requires i < |xs|
    ensures |r| == |xs| - 1
  {
    xs[..i] + xs[i + 1..]
  }

  function Step(sc: Screen, e: Event): (r: Screen)
    ensures e.FrameAnalyzed? && IsSheetVisible(sc.ui) ==> r == sc
    ensures e.SheetClosed? && !IsSheetVisible(sc.ui) ==> r == sc
    ensures e.FrameAnalyzed? && r != sc ==>
      exists b :: Analyze(false, e.frame) == Some(b) && r == Screen(Started(sc.ui, b), sc.inFlight + [b])
    ensures (&& e.FrameAnalyzed? && !IsSheetVisible(sc.ui) && Analyze(false, e.frame).Some?
             && !IsDuplicate(sc.ui, Analyze(false, e.frame).value)) ==> r != sc
    ensures (&& e.FrameAnalyzed? && Analyze(false, e.frame).Some?
             && IsDuplicate(sc.ui, Analyze(false, e.frame).value)) ==> r == sc
    ensures e.FrameAnalyzed? && Analyze(false, e.frame).None? ==> r == sc
    ensures e.LookupReturned? && e.index < |sc.inFlight| ==>
      r == Screen(Completed(sc.ui, sc.inFlight[e.index], e.outcome), RemoveAt(sc.inFlight, e.index))
    ensures e.LookupReturned? && e.index >= |sc.inFlight| ==> r == sc
    ensures e.SheetClosed? && IsSheetVisible(sc.ui) ==> r == Screen(Cleared(sc.ui), sc.inFlight)
  {
    match e
    case FrameAnalyzed(frame) =>
      var reported := Analyze(IsSheetVisible(sc.ui), frame);
      if reported.None? || IsDuplicate(sc.ui, reported.value) then sc
      else Screen(Started(sc.ui, reported.value), sc.inFlight + [reported.value])
    case LookupReturned(i, outcome) =>
      if i < |sc.inFlight| then
        Screen(Completed(sc.ui, sc.inFlight[i], outcome), RemoveAt(sc.inFlight, i))
      else sc
    case SheetClosed =>
      if IsSheetVisible(sc.ui) then Screen(Cleared(sc.ui), sc.inFlight) else sc
  }

  function Run(sc: Screen, events: seq<Event>): Screen
    decreases |events|
  {
    if events == [] then sc else Run(Step(sc, events[0]), events[1..])
  }

  /** What the gate maintains: the sheet invariants, one lookup in flight
      exactly while loading, and no remembered barcode once the sheet is gone. */
  predicate Gated(sc: Screen) {
    && Consistent(sc.ui)
    && |sc.inFlight| <= 1
    && (|sc.inFlight| == 1 <==> sc.ui.isLoading)
    && (!IsSheetVisible(sc.ui) ==> sc.ui.lastScannedBarcode.None?)
  }

  lemma StepKeepsGated(sc: Screen, e: Event)
    requires Gated(sc)
    ensures Gated(Step(sc, e))
  {
  }

  lemma {:induction false} RunKeepsGated(sc: Screen, events: seq<Event>)
    requires Gated(sc)
    ensures Gated(Run(sc, events))
    decreases |events|
  {
    if events != [] {
      StepKeepsGated(sc, events[0]);
      RunKeepsGated(Step(sc, events[0]), events[1..]);
    }
  }

  /** On every state the screen can reach, the sheet never shows a product and
      an error together (nor either of them under the spinner), one lookup is
      in flight exactly while loading, and a barcode that reaches the view
      model is never rejected as a duplicate. */
  lemma {:induction false} ReachableScreensAreConsistent(events: seq<Event>, b: string)
    ensures var sc := Run(Launch(), events);
            && Consistent(sc.ui)
            && |sc.inFlight| <= 1
            && (sc.ui.isLoading <==> |sc.inFlight| == 1)
            && (!IsSheetVisible(sc.ui) ==> !IsDuplicate(sc.ui, b))
  {
    RunKeepsGated(Launch(), events);
  }
}
