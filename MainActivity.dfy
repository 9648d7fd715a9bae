/**
 * The decision logic embedded in the scanner screen: how allergen tags become
 * display labels, when the result sheet is shown and what it shows, and the
 * barcode analyzer's pause gate. Layout, colours as values, animation and the
 * camera are not modelled; the choices between them are.
 */
module MainActivity {
  import opened Wrappers
  import opened Api
  import opened ViewModel

  // ---------------------------------------------------------------------
  // Allergen tag -> display label

  const EnPrefix: string := "en:"

  predicate HasEnPrefix(tag: string) {
    EnPrefix <= tag
  }

  /** Case tests and mappings are restricted to ASCII letters. */
  predicate IsLowerCase(c: char) {
    'a' <= c <= 'z'
  }

  function UpperCase(c: char): (u: char)
    requires IsLowerCase(c)
    ensures 'A' <= u <= 'Z' && !IsLowerCase(u)
    ensures u as int - 'A' as int == c as int - 'a' as int
  {
    (c as int - 'a' as int + 'A' as int) as char
  }

  /** `removePrefix("en:")`: only a leading "en:" is removed. */
  function RemoveEnPrefix(tag: string): (r: string)
    ensures r == tag <==> !HasEnPrefix(tag)
    ensures HasEnPrefix(tag) ==> EnPrefix + r == tag
  {
    if HasEnPrefix(tag) then tag[|EnPrefix|..] else tag
  }

  function HyphenToSpace(c: char): char {
    if c == '-' then ' ' else c
  }

  /** `replace("-", " ")`: every hyphen becomes a space. */
  function ReplaceHyphens(s: string): (r: string)
    ensures |r| == |s|
    ensures forall i :: 0 <= i < |s| ==> r[i] == HyphenToSpace(s[i])
    ensures '-' !in r
  {
    if s == [] then [] else [HyphenToSpace(s[0])] + ReplaceHyphens(s[1..])
  }

  /** `replaceFirstChar`: a lower-case first character is upper-cased. */
  function CapitalizeFirst(s: string): (r: string)
    ensures |r| == |s|
    ensures forall i :: 1 <= i < |s| ==> r[i] == s[i]
    ensures |r| > 0 ==> !IsLowerCase(r[0])
    ensures |s| > 0 && IsLowerCase(s[0]) ==> r[0] == UpperCase(s[0])
    ensures |s| > 0 && !IsLowerCase(s[0]) ==> r == s
  {
    if |s| > 0 && IsLowerCase(s[0]) then [UpperCase(s[0])] + s[1..] else s
  }

  /** The label shown for one entry of `allergensTags`. */
  function Label(tag: string): (r: string)
    ensures '-' !in r
    ensures |r| == if HasEnPrefix(tag) then |tag| - |EnPrefix| else |tag|
    ensures |r| > 0 ==> !IsLowerCase(r[0])
    ensures |r| > 0 ==>
      var c := HyphenToSpace(RemoveEnPrefix(tag)[0]);
      r[0] == if IsLowerCase(c) then UpperCase(c) else c
    ensures forall i :: 1 <= i < |r| ==> r[i] == HyphenToSpace(RemoveEnPrefix(tag)[i])
  {
    CapitalizeFirst(ReplaceHyphens(RemoveEnPrefix(tag)))
  }

  lemma {:induction false} ReplaceHyphensWithoutHyphens(s: string)
    requires '-' !in s
    ensures ReplaceHyphens(s) == s
  {
    if s != [] {
      ReplaceHyphensWithoutHyphens(s[1..]);
    }
  }

  /** A label never starts with a lower-case "en:" and has no hyphen, so
      labelling it again changes nothing. */
  lemma LabelIdempotent(tag: string)
    ensures Label(Label(tag)) == Label(tag)
  {
    ReplaceHyphensWithoutHyphens(Label(tag));
  }

  /** Only an "en:" at position 0 is removed: another language prefix, or an
      "en:" further in, is kept in the label. */
  lemma LabelKeepsOtherPrefixes(tag: string)
    requires !HasEnPrefix(tag)
    ensures |Label(tag)| == |tag|
    ensures forall i :: 1 <= i < |tag| ==> Label(tag)[i] == HyphenToSpace(tag[i])
  {
  }

  /** The list of labels: one per tag, in the same order; none when the
      product has no tag list. */
  function AllergenLabels(tags: Option<seq<string>>): (labels: seq<string>)
    ensures tags.None? ==> labels == []
    ensures tags.Some? ==> |labels| == |tags.value|
    ensures tags.Some? ==> forall i :: 0 <= i < |labels| ==> labels[i] == Label(tags.value[i])
    ensures labels == [] <==> tags.None? || tags.value == []
  {
    match tags
    case None => []
    case Some(ts) => seq(|ts|, i requires 0 <= i < |ts| => Label(ts[i]))
  }

  /** Labelling is idempotent on whole lists as well. */
  lemma AllergenLabelsIdempotent(tags: seq<string>)
    ensures AllergenLabels(Some(AllergenLabels(Some(tags)))) == AllergenLabels(Some(tags))
  {
    var once := AllergenLabels(Some(tags));
    forall i | 0 <= i < |tags|
      ensures AllergenLabels(Some(once))[i] == once[i]
    {
      LabelIdempotent(tags[i]);
    }
  }

  // ---------------------------------------------------------------------
  // Result sheet

  /** `isSheetVisible`; it is also the analyzer's pause flag. */
  predicate IsSheetVisible(s: UiState) {
    s.isLoading || s.product.Some? || s.errorMessage.Some?
  }

  datatype Icon = ErrorIcon | InfoIcon | CheckCircleIcon

  /** Title colour: the theme's error colour or its primary colour. */
  datatype Tone = ErrorTone | PrimaryTone

  datatype PanelBody =
    | Message(text: string)
    | AllergenChips(labels: seq<string>)
    | NoAllergenInformation

  datatype InfoPanel = InfoPanel(
    icon: Icon,
    title: string,
    titleTone: Tone,
    buttonText: string,
    body: PanelBody)

  datatype SheetContent = Spinner | Panel(panel: InfoPanel)

  function ErrorPanel(message: string): (panel: InfoPanel)
    ensures panel.body == Message(message) && panel.titleTone == ErrorTone
    ensures panel.icon == ErrorIcon && panel.title == "Error" && panel.buttonText == "Scan Again"
  {
    InfoPanel(ErrorIcon, "Error", ErrorTone, "Scan Again", Message(message))
  }

  /** The panel for a found product. Its styling depends only on whether the
      label list is empty. */
  function ProductPanel(p: Product): (panel: InfoPanel)
    ensures panel.title == if p.productName.Some? then p.productName.value else "Unknown Product"
    ensures panel.icon == InfoIcon <==> AllergenLabels(p.allergensTags) != []
    ensures panel.icon != ErrorIcon
    ensures panel.buttonText == "Scan New Item"
    ensures panel.titleTone == ErrorTone <==> panel.icon == InfoIcon
    ensures panel.body.AllergenChips? <==> panel.icon == InfoIcon
    ensures panel.body.AllergenChips? ==> panel.body.labels == AllergenLabels(p.allergensTags)
    ensures !panel.body.AllergenChips? ==> panel.body == NoAllergenInformation
  {
    var labels := AllergenLabels(p.allergensTags);
    var hasAllergens := labels != [];
    InfoPanel(
      if hasAllergens then InfoIcon else CheckCircleIcon,
      if p.productName.Some? then p.productName.value else "Unknown Product",
      if hasAllergens then ErrorTone else PrimaryTone,
      "Scan New Item",
      if hasAllergens then AllergenChips(labels) else NoAllergenInformation)
  }

  /** What the sheet shows, if it is shown at all: loading has priority over
      an error, and an error over a product. */
  function SheetContentOf(s: UiState): (c: Option<SheetContent>)
    ensures c.None? <==> !IsSheetVisible(s)
    ensures c == Some(Spinner) <==> s.isLoading
    ensures !s.isLoading && s.errorMessage.Some? ==> c == Some(Panel(ErrorPanel(s.errorMessage.value)))
    ensures !s.isLoading && s.errorMessage.None? && s.product.Some? ==>
      c == Some(Panel(ProductPanel(s.product.value)))
  {
    if s.isLoading then Some(Spinner)
    else if s.errorMessage.Some? then Some(Panel(ErrorPanel(s.errorMessage.value)))
    else if s.product.Some? then Some(Panel(ProductPanel(s.product.value)))
    else None
  }

  /** Clearing during a lookup keeps the spinner up, since `isLoading` stays set. */
  lemma ClearWhileLoadingKeepsSpinner(s: UiState)
    requires s.isLoading
    ensures SheetContentOf(Cleared(s)) == Some(Spinner)
  {
  }

  /** Clearing a displayed result hides the sheet. */
  lemma ClearResultHidesSheet(s: UiState)
    requires !s.isLoading
    ensures !IsSheetVisible(Cleared(s))
  {
  }

  // ---------------------------------------------------------------------
  // Barcode analyzer

  datatype DetectedBarcode = DetectedBarcode(rawValue: Option<string>)

  /** The barcode detector's verdict on one image. */
  datatype Detection = DetectionFailed | Detected(barcodes: seq<DetectedBarcode>)

  /** One camera frame; its image may be missing. */
  datatype Frame = MissingImage | Image(detection: Detection)

  /** `BarcodeAnalyzer.analyze`: the barcode passed to the scan callback, if
      any. A paused analyzer drops the frame unread; otherwise only the first
      detected barcode is reported, and only if it has a raw value. */
  function Analyze(isPaused: bool, frame: Frame): (reported: Option<string>)
    ensures isPaused ==> reported.None?
    ensures reported.Some? ==>
      frame.Image? && frame.detection.Detected? && |frame.detection.barcodes| > 0
    ensures !isPaused && frame.Image? && frame.detection.Detected? && |frame.detection.barcodes| > 0 ==>
      reported == frame.detection.barcodes[0].rawValue
  {
    if isPaused then None
    else match frame
      case MissingImage => None
      case Image(DetectionFailed) => None
      case Image(Detected(barcodes)) => if |barcodes| > 0 then barcodes[0].rawValue else None
  }
}
