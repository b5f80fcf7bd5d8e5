/** The classify, confirm and reward round of the `WasteClassifier`
    component in src/pages/Index.tsx.

    The image model is outside the model: a capture hands the session the
    list of `(className, probability)` predictions it returned. The session
    sorts them by confidence, keeps the first one above the threshold whose
    label names a waste category, and opens a 30-second window in which a
    scanned bin code earns 10 points if it names the same category. */
module ClassifierSession {
  import opened Wrappers
  import opened Sequences
  import opened Strings
  import opened Keywords
  import opened ScanTimer
  import QrParser

  /** `interface Prediction`; the probability is an exact real. */
  datatype Prediction = Prediction(className: string, probability: real)

  /** `Math.round(probability * 100)`: the nearest integer, halves upwards. */
  function Percent(probability: real): (r: int)
    ensures r as real <= probability * 100.0 + 0.5 < r as real + 1.0
  {
    (probability * 100.0 + 0.5).Floor
  }

  /** Predictions rounding to less than this percentage are skipped. */
  const MinPercent: int := 10

  /** The window the session's timer opens: `useScanTimer(30)`. */
  const ScanSeconds: int := 30

  /** The reward for a matching bin. */
  const PointsPerScan: int := 10

  // ---------------------------------------------------------------------
  // `predictions.sort((a, b) => b.probability - a.probability)`

  predicate SortedByConfidence(s: seq<Prediction>) {
    forall i, j :: 0 <= i < j < |s| ==> s[i].probability >= s[j].probability
  }

  /** Places `x` before the first element of lower confidence, that is after
      every element of equal confidence. */
  function Insert(x: Prediction, s: seq<Prediction>): seq<Prediction> {
    if |s| == 0 then [x]
    else if s[0].probability < x.probability then [x] + s
    else [s[0]] + Insert(x, s[1..])
  }

  /** The order a stable sort by descending probability produces: the
      comparator is negative exactly when `a` is more confident than `b`, and
      `Array.prototype.sort` keeps equal elements in their original order. */
  function ByConfidence(s: seq<Prediction>): seq<Prediction>
    decreases |s|
  {
    if |s| == 0 then [] else Insert(s[|s| - 1], ByConfidence(s[..|s| - 1]))
  }

  predicate AtMost(s: seq<Prediction>, bound: real) {
    forall k :: 0 <= k < |s| ==> s[k].probability <= bound
  }

  lemma {:induction false} InsertAtMost(x: Prediction, s: seq<Prediction>, bound: real)
    requires AtMost(s, bound) && x.probability <= bound
    ensures AtMost(Insert(x, s), bound)
  {
    if |s| > 0 && s[0].probability >= x.probability {
      InsertAtMost(x, s[1..], bound);
    }
  }

  lemma {:induction false} InsertSorted(x: Prediction, s: seq<Prediction>)
    requires SortedByConfidence(s)
    ensures SortedByConfidence(Insert(x, s))
  {
    if |s| > 0 && s[0].probability >= x.probability {
      InsertSorted(x, s[1..]);
      InsertAtMost(x, s[1..], s[0].probability);
    }
  }

  lemma {:induction false} InsertMultiset(x: Prediction, s: seq<Prediction>)
    ensures multiset(Insert(x, s)) == multiset(s) + multiset{x}
  {
    if |s| > 0 && s[0].probability >= x.probability {
      InsertMultiset(x, s[1..]);
      assert s == [s[0]] + s[1..];
    }
  }

  /** The sorted list is in descending order of confidence and holds exactly
      the predictions it was given. */
  lemma {:induction false} ByConfidenceSorted(s: seq<Prediction>)
    ensures SortedByConfidence(ByConfidence(s))
    ensures multiset(ByConfidence(s)) == multiset(s)
    decreases |s|
  {
    if |s| > 0 {
      ByConfidenceSorted(s[..|s| - 1]);
      InsertSorted(s[|s| - 1], ByConfidence(s[..|s| - 1]));
      InsertMultiset(s[|s| - 1], ByConfidence(s[..|s| - 1]));
      assert s == s[..|s| - 1] + [s[|s| - 1]];
    }
  }

  /** Input already in descending order, ties included, is left as it is. */
  lemma {:induction false} ByConfidenceKeepsSorted(s: seq<Prediction>)
    requires SortedByConfidence(s)
    ensures ByConfidence(s) == s
    decreases |s|
  {
    if |s| > 0 {
      var init := s[..|s| - 1];
      assert SortedByConfidence(init);
      ByConfidenceKeepsSorted(init);
      InsertAt(s[|s| - 1], init, |init|);
      assert init + [s[|s| - 1]] == s;
    }
  }

  /** The predictions of confidence exactly `p`, in their order. */
  function WithConfidence(s: seq<Prediction>, p: real): seq<Prediction>
    decreases |s|
  {
    if |s| == 0 then []
    else (if s[0].probability == p then [s[0]] else []) + WithConfidence(s[1..], p)
  }

  lemma {:induction false} WithConfidenceConcat(a: seq<Prediction>, b: seq<Prediction>, p: real)
    ensures WithConfidence(a + b, p) == WithConfidence(a, p) + WithConfidence(b, p)
    decreases |a|
  {
    if |a| == 0 {
      assert a + b == b;
    } else {
      assert (a + b)[1..] == a[1..] + b;
      WithConfidenceConcat(a[1..], b, p);
    }
  }

  lemma {:induction false} WithConfidenceNone(s: seq<Prediction>, p: real)
    requires forall k :: 0 <= k < |s| ==> s[k].probability != p
    ensures WithConfidence(s, p) == []
    decreases |s|
  {
    if |s| > 0 {
      WithConfidenceNone(s[1..], p);
    }
  }

  /** `x` goes after every element of its own confidence. */
  lemma {:induction false} InsertStable(x: Prediction, t: seq<Prediction>, p: real)
    requires SortedByConfidence(t)
    ensures WithConfidence(Insert(x, t), p) ==
      WithConfidence(t, p) + (if x.probability == p then [x] else [])
    decreases |t|
  {
    var tail := if x.probability == p then [x] else [];
    if |t| == 0 {
      assert WithConfidence([x], p) == tail + WithConfidence([x][1..], p);
    } else if t[0].probability < x.probability {
      assert ([x] + t)[1..] == t;
      assert WithConfidence([x] + t, p) == tail + WithConfidence(t, p);
      if x.probability == p {
        assert forall k :: 0 <= k < |t| ==> t[k].probability <= t[0].probability;
        WithConfidenceNone(t, p);
      }
    } else {
      var rest := Insert(x, t[1..]);
      var head := if t[0].probability == p then [t[0]] else [];
      assert ([t[0]] + rest)[1..] == rest;
      assert WithConfidence([t[0]] + rest, p) == head + WithConfidence(rest, p);
      assert SortedByConfidence(t[1..]);
      InsertStable(x, t[1..], p);
      assert WithConfidence(t, p) == head + WithConfidence(t[1..], p);
    }
  }

  /** The sort is stable: for every confidence, the predictions that have it
      come out in the order they went in. */
  lemma {:induction false} ByConfidenceStable(s: seq<Prediction>, p: real)
    ensures WithConfidence(ByConfidence(s), p) == WithConfidence(s, p)
    decreases |s|
  {
    if |s| > 0 {
      var init, last := s[..|s| - 1], s[|s| - 1];
      ByConfidenceStable(init, p);
      ByConfidenceSorted(init);
      InsertStable(last, ByConfidence(init), p);
      WithConfidenceConcat(init, [last], p);
      assert WithConfidence([last], p) == (if last.probability == p then [last] else []) by {
        assert [last][1..] == [];
      }
      assert init + [last] == s;
    }
  }

  lemma ByConfidenceSnoc(s: seq<Prediction>, i: nat)
    requires i < |s|
    ensures ByConfidence(s[..i + 1]) == Insert(s[i], ByConfidence(s[..i]))
  {
    assert s[..i + 1][..i] == s[..i];
  }

  lemma {:induction false} InsertAt(x: Prediction, s: seq<Prediction>, j: nat)
    requires j <= |s|
    requires forall k :: 0 <= k < j ==> s[k].probability >= x.probability
    requires j < |s| ==> s[j].probability < x.probability
    ensures Insert(x, s) == s[..j] + [x] + s[j..]
  {
    if j > 0 {
      InsertAt(x, s[1..], j - 1);
      assert s[..j] == [s[0]] + s[1..][..j - 1];
      assert s[j..] == s[1..][j - 1..];
    }
  }

  lemma Shifted(t: seq<Prediction>, s: seq<Prediction>, x: Prediction, j: nat)
    requires j <= |s| < |t|
    requires forall k :: 0 <= k < j ==> t[k] == s[k]
    requires t[j] == x
    requires forall k :: j < k <= |s| ==> t[k] == s[k - 1]
    ensures t[..|s| + 1] == s[..j] + [x] + s[j..]
  {
    assert forall k :: 0 <= k <= |s| ==> t[k] == (s[..j] + [x] + s[j..])[k];
  }

  /** The inner loop of one insertion pass: shifts right by one place every
      element at the end of `a[..i]` that is less confident than `x`, and
      returns the gap it leaves. */
  method ShiftLower(a: array<Prediction>, i: nat, x: Prediction) returns (j: nat)
    requires i < a.Length
    modifies a
    ensures j <= i
    ensures forall k :: 0 <= k < j ==> a[k] == old(a[k])
    ensures forall k :: j < k <= i ==> a[k] == old(a[k - 1])
    ensures forall k :: j <= k < i ==> old(a[k]).probability < x.probability
    ensures j > 0 ==> old(a[j - 1]).probability >= x.probability
    ensures forall k :: i < k < a.Length ==> a[k] == old(a[k])
  {
    j := i;
    while j > 0 && a[j - 1].probability < x.probability
      invariant j <= i
      invariant forall k :: 0 <= k < j ==> a[k] == old(a[k])
      invariant forall k :: j < k <= i ==> a[k] == old(a[k - 1])
      invariant forall k :: j <= k < i ==> old(a[k]).probability < x.probability
      invariant forall k :: i < k < a.Length ==> a[k] == old(a[k])
    {
      a[j] := a[j - 1];
      j := j - 1;
    }
  }

  /** One insertion pass: `a[i]` moves into place in the sorted `a[..i]`. */
  method InsertLast(a: array<Prediction>, i: nat)
    requires i < a.Length && SortedByConfidence(a[..i])
    modifies a
    ensures a[..i + 1] == Insert(old(a[i]), old(a[..i]))
    ensures a[i + 1..] == old(a[i + 1..])
  {
    var x := a[i];
    ghost var s := a[..i];
    ghost var rest := a[i + 1..];
    var j := ShiftLower(a, i, x);
    a[j] := x;
    forall k | 0 <= k < j ensures s[k].probability >= x.probability {
      assert s[k].probability >= s[j - 1].probability;
    }
    InsertAt(x, s, j);
    Shifted(a[..], s, x, j);
    assert a[i + 1..] == rest;
  }

  /** The in-place sort at line 237, as a stable insertion sort. */
  method SortByConfidence(a: array<Prediction>)
    modifies a
    ensures a[..] == ByConfidence(old(a[..]))
  {
    ghost var input := a[..];
    var i := 0;
    while i < a.Length
      invariant 0 <= i <= a.Length
      invariant a[..i] == ByConfidence(input[..i])
      invariant a[i..] == input[i..]
    {
      ByConfidenceSorted(input[..i]);
      ByConfidenceSnoc(input, i);
      assert a[i] == input[i];
      InsertLast(a, i);
      assert a[i + 1..] == input[i + 1..];
      i := i + 1;
    }
    assert input[..a.Length] == input;
  }

  // ---------------------------------------------------------------------
  // Keyword tables, lines 227-235, in `Object.entries` order

  const CategoryTable: seq<(string, seq<string>)> := [
    ("PET_greenbin", ["water bottle", "juice bottle", "beverage bottle", "bottle"]),
    ("Plastic_Flexible", ["wrapper", "packet", "bag", "pouch", "plastic bag"]),
    ("Plastic_Rigid", ["container", "shampoo", "lotion", "dispenser", "soap", "detergent"]),
    ("Plastic_Cutlery", ["cup", "spoon", "fork", "mug", "utensil"]),
    ("Metal", ["can", "tin", "aluminum", "metal", "soda can", "beer can"]),
    ("Paper", ["paper", "notebook", "cardboard", "magazine", "newspaper", "envelope", "carton"]),
    ("Glass", ["glass", "jar", "glass bottle", "wine bottle"])
  ]

  /** The inner `for` loop of lines 243-252: the first category, in table
      order, one of whose keywords occurs in the lower-cased label. */
  function CategoryOf(name: string): Option<string> {
    FirstGroup(name, CategoryTable)
  }

  /** A prediction decides the round when it rounds to at least 10% and its
      lower-cased label names a category. */
  predicate Qualifies(p: Prediction) {
    Percent(p.probability) >= MinPercent && CategoryOf(ToLower(p.className)).Some?
  }

  /** What `result` shows, without its markdown. */
  datatype ResultView =
    | Detected(category: string, percent: int)
    | Unknown(topLabel: string, topPercent: int)

  /** The outcome of the loop at lines 239-258 on the sorted predictions. */
  function Classify(sorted: seq<Prediction>): ResultView {
    match FirstIndex(sorted, Qualifies)
    case Some(i) =>
      Detected(CategoryOf(ToLower(sorted[i].className)).value, Percent(sorted[i].probability))
    case None =>
      if |sorted| == 0 then Unknown("N/A", 0)
      else Unknown(if sorted[0].className == "" then "N/A" else sorted[0].className,
                   Percent(sorted[0].probability))
  }

  /** The loop at lines 239-254: skips predictions under the threshold and
      stops at the first whose label names a category. */
  method FindDecisive(predictions: array<Prediction>) returns (found: Option<nat>)
    ensures found == FirstIndex(predictions[..], Qualifies)
  {
    var i := 0;
    while i < predictions.Length
      invariant 0 <= i <= predictions.Length
      invariant forall k :: 0 <= k < i ==> !Qualifies(predictions[k])
    {
      var prediction := predictions[i];
      var className := ToLower(prediction.className);
      var probability := Percent(prediction.probability);
      if probability >= MinPercent {
        if CategoryOf(className).Some? {
          FirstIndexIs(predictions[..], Qualifies, i);
          return Some(i);
        }
      }
      assert !Qualifies(prediction);
      i := i + 1;
    }
    return None;
  }

  // ---------------------------------------------------------------------
  // The session

  /** `scanMessage`: its kind and the bins it is about. */
  datatype ScanMessage =
    | Expired
    | NoDetection
    | InvalidQr
    | Correct(bin: QrParser.Category, earned: int)
    | WrongBin(detected: string, scanned: QrParser.Category)
  {
    predicate IsSuccess() { Correct? }

    /** The display names the message text shows, through
        `getCategoryDisplayName`. */
    function Shown(): seq<string> {
      match this
      case Correct(bin, _) => [QrParser.GetCategoryDisplayName(bin.Name())]
      case WrongBin(detected, scanned) =>
        [QrParser.GetCategoryDisplayName(detected), QrParser.GetCategoryDisplayName(scanned.Name())]
      case _ => []
    }
  }

  /** The session's fields, together with its timer's. */
  datatype Round = Round(
    points: int,
    result: Option<ResultView>,
    detected: Option<string>,
    message: Option<ScanMessage>,
    cameraOpen: bool,
    clock: Countdown)

  /** The guard of line 266, negated: the window for a scan is open. */
  predicate WindowOpen(c: Countdown) {
    c.isActive && c.timeLeft != 0
  }

  /** `mapPredictionsToWasteCategory` on predictions already sorted. */
  function AfterClassify(r: Round, sorted: seq<Prediction>): Round {
    var view := Classify(sorted);
    match view
    case Detected(category, _) =>
      r.(result := Some(view), detected := Some(category), clock := Started(ScanSeconds), message := None)
    case Unknown(_, _) =>
      r.(result := Some(view), detected := None)
  }

  /** What a pending upload's `onScan` closed over. `QRScanner` calls the
      `handleQRScan` of the render in which the file was picked, so the
      guards read that render's timer and detection, while the state setters
      (`setPoints(prev => ...)`, `setScanMessage`, `resetTimer`) act on the
      state at delivery. */
  datatype Captured = Captured(clock: Countdown, detected: Option<string>)

  function CapturedAt(r: Round): Captured {
    Captured(r.clock, r.detected)
  }

  /** `handleQRScan` closed over `c`, delivered in state `r`, given what
      `parseBinCategory` made of the scanned text. */
  function AfterDelivery(c: Captured, r: Round, parsed: Option<QrParser.Category>): Round {
    if !WindowOpen(c.clock) then r.(message := Some(Expired))
    else if c.detected.None? || c.detected.value == "" then r.(message := Some(NoDetection))
    else
      match parsed
      case None => r.(message := Some(InvalidQr))
      case Some(scanned) =>
        if scanned.Name() == c.detected.value then
          r.(points := r.points + PointsPerScan,
             message := Some(Correct(scanned, PointsPerScan)),
             clock := Cleared)
        else
          r.(message := Some(WrongBin(c.detected.value, scanned)))
  }

  /** A scan picked and delivered with nothing changing in between. */
  function AfterScan(r: Round, parsed: Option<QrParser.Category>): Round {
    AfterDelivery(CapturedAt(r), r, parsed)
  }

  /** The state updates of `openCamera` once the stream is playing, and of
      `stopCamera` when there was a stream. */
  function Reopened(r: Round, open: bool): Round {
    r.(cameraOpen := open, result := None, detected := None, clock := Cleared, message := None)
  }

  class Session {
    var points: int
    var result: Option<ResultView>
    var detectedCategory: Option<string>
    var scanMessage: Option<ScanMessage>
    var cameraOpen: bool
    const timer: Timer

    predicate Valid()
      reads this
    {
      timer.initialSeconds == ScanSeconds
    }

    function State(): Round
      reads this, timer
    {
      Round(points, result, detectedCategory, scanMessage, cameraOpen, timer.State())
    }

    /** The saved balance is read once on mount; nothing saved means 0. */
    constructor(saved: Option<int>)
      ensures Valid() && fresh(timer)
      ensures State() == Round(saved.GetOr(0), None, None, None, false, Initial)
    {
      points := saved.GetOr(0);
      result := None;
      detectedCategory := None;
      scanMessage := None;
      cameraOpen := false;
      timer := new Timer(ScanSeconds);
    }

    /** `mapPredictionsToWasteCategory`: sorts the array in place, then
        takes the first qualifying prediction. */
    method MapPredictions(predictions: array<Prediction>)
      requires Valid()
      modifies this, timer, predictions
      ensures Valid()
      ensures predictions[..] == ByConfidence(old(predictions[..]))
      ensures State() == AfterClassify(old(State()), predictions[..])
    {
      SortByConfidence(predictions);
      var found := FindDecisive(predictions);
      if found.Some? {
        var prediction := predictions[found.value];
        var category := CategoryOf(ToLower(prediction.className)).value;
        result := Some(Detected(category, Percent(prediction.probability)));
        detectedCategory := Some(category);
        timer.StartTimer();
        scanMessage := None;
      } else {
        var topConfidence := if predictions.Length == 0 then 0 else Percent(predictions[0].probability);
        var topLabel := if predictions.Length == 0 || predictions[0].className == "" then "N/A"
          else predictions[0].className;
        result := Some(Unknown(topLabel, topConfidence));
        detectedCategory := None;
      }
    }

    /** `handleQRScan`, as the upload that captured `captured` calls it.
        The parse is pure, so taking it before the guards rather than
        between them changes nothing. */
    method HandleQrScan(captured: Captured, qrText: string)
      requires Valid()
      modifies this, timer
      ensures Valid()
      ensures State() == AfterDelivery(captured, old(State()), QrParser.ParseBinCategory(qrText))
    {
      var parsed := QrParser.ParseBinCategory(qrText);
      ApplyScan(captured, parsed);
    }

    /** The guards and the award of `handleQRScan`, given the parse. */
    method ApplyScan(captured: Captured, scannedCategory: Option<QrParser.Category>)
      requires Valid()
      modifies this, timer
      ensures Valid()
      ensures State() == AfterDelivery(captured, old(State()), scannedCategory)
    {
      if !captured.clock.isActive || captured.clock.timeLeft == 0 {
        scanMessage := Some(Expired);
        return;
      }
      if captured.detected.None? || captured.detected.value == "" {
        scanMessage := Some(NoDetection);
        return;
      }
      if scannedCategory.None? {
        scanMessage := Some(InvalidQr);
        return;
      }
      var scanned := scannedCategory.value;
      var detected := captured.detected.value;
      if scanned.Name() == detected {
        points := points + PointsPerScan;
        scanMessage := Some(Correct(scanned, PointsPerScan));
        timer.ResetTimer();
      } else {
        scanMessage := Some(WrongBin(detected, scanned));
      }
    }

    /** `openCamera`; `streamReady` says whether the browser granted a stream
        and the video element exists. Otherwise only an error is shown. */
    method OpenCamera(streamReady: bool)
      requires Valid()
      modifies this, timer
      ensures Valid()
      ensures State() == if streamReady then Reopened(old(State()), true) else old(State())
    {
      if streamReady {
        cameraOpen := true;
        result := None;
        detectedCategory := None;
        timer.ResetTimer();
        scanMessage := None;
      }
    }

    /** `stopCamera`; `hasStream` says whether a stream was attached. */
    method StopCamera(hasStream: bool)
      requires Valid()
      modifies this, timer
      ensures Valid()
      ensures State() == if hasStream then Reopened(old(State()), false) else old(State())
    {
      if hasStream {
        cameraOpen := false;
        result := None;
        detectedCategory := None;
        timer.ResetTimer();
        scanMessage := None;
      }
    }
  }

  // ---------------------------------------------------------------------
  // Detection

  /** The category of a label is that of the first table entry with a
      keyword in it. */
  lemma CategoryOfIs(name: string, i: nat)
    requires i < |CategoryTable| && ContainsAny(name, CategoryTable[i].1)
    requires forall j :: 0 <= j < i ==> !ContainsAny(name, CategoryTable[j].1)
    ensures CategoryOf(name) == Some(CategoryTable[i].0)
  {
    FirstGroupIs(name, CategoryTable, i);
  }

  /** No label is categorised when no keyword of any entry occurs in it. */
  lemma CategoryOfNone(name: string)
    ensures CategoryOf(name).None? <==>
      forall j :: 0 <= j < |CategoryTable| ==> !ContainsAny(name, CategoryTable[j].1)
  {
    FirstGroupNone(name, CategoryTable);
  }

  /** The detector only ever names one of its seven table entries, one whose
      keyword the label holds; `Organic` is not among them. */
  lemma CategoryOfNames(name: string)
    ensures CategoryOf(name).Some? ==>
      exists i :: 0 <= i < |CategoryTable| && CategoryOf(name).value == CategoryTable[i].0 &&
        ContainsAny(name, CategoryTable[i].1)
    ensures CategoryOf(name) != Some(QrParser.Category.Organic.Name())
  {
    FirstGroupFrom(name, CategoryTable);
    if CategoryOf(name).Some? {
      var i :| 0 <= i < |CategoryTable| && CategoryOf(name).value == CategoryTable[i].0 &&
        ContainsAny(name, CategoryTable[i].1);
      TableLabelNotOrganic(i);
    }
  }

  lemma TableLabelNotOrganic(i: nat)
    requires i < |CategoryTable|
    ensures CategoryTable[i].0 != "Organic"
  {
  }

  /** The round is decided by the first qualifying prediction in sorted order. */
  lemma ClassifyFirst(sorted: seq<Prediction>, i: nat)
    requires i < |sorted| && Qualifies(sorted[i])
    requires forall j :: 0 <= j < i ==> !Qualifies(sorted[j])
    ensures Classify(sorted) ==
      Detected(CategoryOf(ToLower(sorted[i].className)).value, Percent(sorted[i].probability))
  {
    FirstIndexIs(sorted, Qualifies, i);
  }

  /** A decided round names a category the decisive label mentions, at a
      confidence of at least 10%; an undecided one had no such prediction. */
  lemma ClassifyDetected(sorted: seq<Prediction>)
    ensures Classify(sorted).Detected? ==>
      Classify(sorted).percent >= MinPercent &&
      exists i :: 0 <= i < |sorted| && CategoryOf(ToLower(sorted[i].className)) == Some(Classify(sorted).category)
    ensures Classify(sorted).Unknown? <==> forall j :: 0 <= j < |sorted| ==> !Qualifies(sorted[j])
  {
    match FirstIndex(sorted, Qualifies)
    case Some(i) =>
    case None =>
  }

  /** A prediction that rounds below 10% never decides, whatever its label
      and wherever it sits in the list: it changes neither whether anything
      is detected nor, when something is, what is detected. */
  lemma LowConfidenceIgnored(sorted: seq<Prediction>, x: Prediction, k: nat)
    requires k <= |sorted| && Percent(x.probability) < MinPercent
    ensures var t := sorted[..k] + [x] + sorted[k..];
      Classify(t).Detected? <==> Classify(sorted).Detected?
    ensures Classify(sorted).Detected? ==>
      Classify(sorted[..k] + [x] + sorted[k..]) == Classify(sorted)
  {
    var t := sorted[..k] + [x] + sorted[k..];
    FirstIndexSkips(sorted, Qualifies, x, k);
    match FirstIndex(sorted, Qualifies)
    case Some(i) =>
      assert t[FirstIndex(t, Qualifies).value] == sorted[i];
    case None =>
  }

  /** `wine bottle` is caught by the PET keyword `bottle` before the Glass
      keyword `wine bottle` is ever tried. */
  lemma WineBottleIsPet(name: string)
    requires name == "wine bottle"
    ensures CategoryOf(name) == Some("PET_greenbin")
  {
    assert OccursAt(name, "bottle", 5);
    assert ContainsAny(name, CategoryTable[0].1) by {
      assert Contains(name, CategoryTable[0].1[3]);
    }
    CategoryOfIs(name, 0);
  }

  lemma SodaCanMissesPet(name: string)
    requires name == "soda can"
    ensures !ContainsAny(name, CategoryTable[0].1)
  {
    MissesAll(name, CategoryTable[0].1, "tttt");
  }

  lemma SodaCanMissesFlexible(name: string)
    requires name == "soda can"
    ensures !ContainsAny(name, CategoryTable[1].1)
  {
    MissesAll(name, CategoryTable[1].1, "wpbpp");
  }

  lemma SodaCanMissesRigid(name: string)
    requires name == "soda can"
    ensures !ContainsAny(name, CategoryTable[2].1)
  {
    MissesAll(name, CategoryTable[2].1, "tptppt");
  }

  lemma SodaCanMissesCutlery(name: string)
    requires name == "soda can"
    ensures !ContainsAny(name, CategoryTable[3].1)
  {
    MissesAll(name, CategoryTable[3].1, "ppfmt");
  }

  /** `soda can` is Metal, through `can`. */
  lemma SodaCanIsMetal(name: string)
    requires name == "soda can"
    ensures CategoryOf(name) == Some("Metal")
  {
    SodaCanMissesPet(name);
    SodaCanMissesFlexible(name);
    SodaCanMissesRigid(name);
    SodaCanMissesCutlery(name);
    assert OccursAt(name, "can", 5);
    assert ContainsAny(name, CategoryTable[4].1) by {
      assert Contains(name, CategoryTable[4].1[0]);
    }
    CategoryOfIs(name, 4);
  }

  // ---------------------------------------------------------------------
  // The round

  /** A detection sets the category, opens a fresh 30-second window and
      clears the message; no detection clears the category and leaves the
      timer and the message alone. Points are never touched. */
  lemma ClassifyEffects(r: Round, sorted: seq<Prediction>)
    ensures var r' := AfterClassify(r, sorted);
      r'.points == r.points && r'.cameraOpen == r.cameraOpen &&
      r'.result == Some(Classify(sorted)) &&
      (Classify(sorted).Detected? ==>
        r'.detected == Some(Classify(sorted).category) &&
        r'.clock == Countdown(ScanSeconds, true) && r'.message == None) &&
      (Classify(sorted).Unknown? ==>
        r'.detected == None && r'.clock == r.clock && r'.message == r.message)
  {
    StartedRuns(ScanSeconds);
  }

  /** The guards come in a fixed order, and a scan stopped by any of them
      changes only the message. */
  lemma ScanGuards(r: Round, parsed: Option<QrParser.Category>)
    ensures !WindowOpen(r.clock) ==> AfterScan(r, parsed) == r.(message := Some(Expired))
    ensures WindowOpen(r.clock) && (r.detected.None? || r.detected == Some("")) ==>
      AfterScan(r, parsed) == r.(message := Some(NoDetection))
    ensures (WindowOpen(r.clock) && r.detected.Some? && r.detected.value != "" && parsed.None?) ==>
      AfterScan(r, parsed) == r.(message := Some(InvalidQr))
  {
  }

  /** A scan of the detected bin inside the window adds exactly 10 points
      and closes the window; a scan of another valid bin changes only the
      message. */
  lemma ScanOutcome(r: Round, scanned: QrParser.Category)
    requires WindowOpen(r.clock) && r.detected.Some? && r.detected.value != ""
    ensures var r' := AfterScan(r, Some(scanned));
      scanned.Name() == r.detected.value ==>
        r'.points == r.points + 10 && r'.clock == Countdown(0, false) &&
        r'.detected == r.detected && r'.message.value.IsSuccess()
    ensures var r' := AfterScan(r, Some(scanned));
      scanned.Name() != r.detected.value ==>
        r' == r.(message := r'.message) && !r'.message.value.IsSuccess()
  {
  }

  /** Points change only by a successful scan inside the window, and then by
      exactly 10; every scan leaves a message. */
  lemma ScanPoints(r: Round, parsed: Option<QrParser.Category>)
    ensures var r' := AfterScan(r, parsed);
      r'.message.Some? &&
      (r'.points == r.points ||
       (r'.points == r.points + PointsPerScan && WindowOpen(r.clock) && r'.message.value.IsSuccess()))
  {
  }

  /** A rewarded scan closes the window, so any further scan is refused as
      expired and earns nothing. */
  lemma RepeatedScanExpires(r: Round, parsed: Option<QrParser.Category>, next: Option<QrParser.Category>)
    requires AfterScan(r, parsed).points != r.points
    ensures var r' := AfterScan(r, parsed);
      AfterScan(r', next) == r'.(message := Some(Expired))
  {
  }

  /** The parser never produces `PET_greenbin`, so a PET detection can never
      be rewarded, however late the scan arrives. */
  lemma PetDetectionNeverEarns(c: Captured, r: Round, parsed: Option<QrParser.Category>)
    requires c.detected == Some("PET_greenbin")
    ensures AfterDelivery(c, r, parsed).points == r.points
  {
    if parsed.Some? {
      assert parsed.value.Name() != "PET_greenbin";
    }
  }

  /** Opening and stopping the camera end the round and keep the points. */
  lemma CameraResets(r: Round, open: bool, parsed: Option<QrParser.Category>)
    ensures var r' := Reopened(r, open);
      r'.points == r.points && r'.detected == None && r'.result == None &&
      r'.message == None && r'.clock == Countdown(0, false) &&
      AfterScan(r', parsed) == r'.(message := Some(Expired))
  {
  }

  // ---------------------------------------------------------------------
  // Late deliveries

  /** A delivery only ever sets the message and, on an award, the points and
      the timer. Points rise only by exactly 10, and only when the window
      was open in the render where the file was picked. */
  lemma DeliveryPoints(c: Captured, r: Round, parsed: Option<QrParser.Category>)
    ensures var r' := AfterDelivery(c, r, parsed);
      r'.message.Some? && r'.detected == r.detected && r'.result == r.result &&
      r'.cameraOpen == r.cameraOpen &&
      (r'.points == r.points ||
       (r'.points == r.points + PointsPerScan && WindowOpen(c.clock) &&
        r'.message.value.IsSuccess() && r'.clock == Cleared))
  {
  }

  /** A matching bin picked while the window was open is rewarded whatever
      happened before the decode finished: the window may have expired, a
      new category may have been detected, or the camera may have been
      stopped or reopened. */
  lemma StaleAward(c: Captured, r: Round, scanned: QrParser.Category)
    requires WindowOpen(c.clock) && c.detected == Some(scanned.Name())
    ensures AfterDelivery(c, r, Some(scanned)) ==
      r.(points := r.points + PointsPerScan, message := Some(Correct(scanned, PointsPerScan)), clock := Cleared)
  {
  }

  /** Stopping the camera while a matching upload is decoding still earns
      its 10 points, although a scan picked after the stop expires. */
  lemma AwardAfterStop(c: Captured, r: Round, open: bool, scanned: QrParser.Category)
    requires WindowOpen(c.clock) && c.detected == Some(scanned.Name())
    ensures var stopped := Reopened(r, open);
      AfterDelivery(c, stopped, Some(scanned)).points == r.points + PointsPerScan &&
      AfterDelivery(c, stopped, Some(scanned)).detected == None &&
      AfterScan(stopped, Some(scanned)) == stopped.(message := Some(Expired))
  {
    StaleAward(c, Reopened(r, open), scanned);
  }
}
