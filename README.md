# Unicef1 recycling workflow in Dafny

This project models the logic of the Unicef1 web app, a recycling app with a
classify, confirm and reward loop.

1. A photo is classified into a waste category by keyword tables over the
   image model's labels.
2. A 30-second window opens.
3. A bin's QR code is scanned inside that window.
4. If the bin's category matches the detection, the user earns 10 points.

The points can then be spent on coupons. Around this loop sit a QR-image
upload pipeline, an older keyword classifier, a partner registration wizard
and a favourites toggle on two product pages.

| module (file) | source | form |
|---|---|---|
| `QrParser` (qr_parser.dfy) | src/utils/qrParser.ts | functions and lemmas |
| `ScanTimer` (scan_timer.dfy) | src/hooks/useScanTimer.ts | class `Timer` over a `Countdown` state |
| `ClassifierSession` (classifier_session.dfy) | src/pages/Index.tsx | class `Session`; in-place array sort; a search loop |
| `Coupons` (coupon.dfy) | src/pages/Coupon.tsx | class `RewardsGallery`; pure card logic |
| `ClassNames` (class_names.dfy) | `cn` of Coupon.tsx and companyRegister.tsx | functions and lemmas |
| `QrScanner` (qr_scanner.dfy) | src/components/QRScanner.tsx | class `Scanner`; an in-place binarisation loop; the decode cascade |
| `LegacyClassifier` (legacy_classifier.dfy) | src/components/WasteClassifier.tsx | functions and lemmas |
| `CompanyRegister` (company_register.dfy) | src/pages/companyRegister.tsx | class `Registration` over a `Wizard` state |
| `Favorites` (favorites.dfy) | `toggleFavorite` of EcoDIYProducts.tsx and Luxe.tsx | functions and lemmas |
| `Wrappers`, `Sequences`, `Strings`, `Keywords` | shared | `Option`; first-match search; JavaScript string tests; keyword tables |

Each class is specified the same way. Its `State()` is a datatype value. Each
method's `ensures` ties the new `State()` to a function of the old one, and
the lemmas prove the source's promises about those functions.

Some behaviour of the source is kept as written, and lemmas state it:

- Text that normalises to the empty string resolves to `Plastic_PET`,
  because every key contains the empty string (`QrParser.ParseBlankIsPet`).
- `PET_BIN` and `METAL_BIN` are found only by the keyword step, because `_`
  survives normalisation.
- The Index classifier's PET label is `PET_greenbin`, while the parser
  returns `Plastic_PET`, so a PET detection can never earn points
  (`ClassifierSession.PetDetectionNeverEarns`). `Organic` can never be
  detected.
- In the Index classifier, `wine bottle` is PET, because `bottle` is tried
  before the Glass keywords.
- In the older classifier, `candle` is Metal, because it contains `can`.
- A timer started with a negative duration never expires, because the effect
  reacts only when the count is exactly 0.
- The registration form's `required` text inputs of steps 1 and 2 do not
  gate anything. The Next buttons are `type="button"`, and by the time the
  form is submitted those inputs are no longer rendered. Only the
  declaration tick-box gates submission.

- A QR image is decoded after the file is picked, and `QRScanner` then
  calls the `handleQRScan` of the render in which the file was picked. Its
  guards read that render's timer and detection, but the points, the
  message and the timer reset act on the state at delivery. So a matching
  upload picked inside the window still earns 10 points after the window
  expired or the camera was stopped (`ClassifierSession.StaleAward`,
  `ClassifierSession.AwardAfterStop`). `AfterDelivery` models this;
  `AfterScan` is the case of a scan picked and delivered in the same state.

Foreign code and the environment enter as parameters:

- `localStorage`: the saved balance is an `Option<int>` constructor argument.
- The image model: its predictions are an array argument of `MapPredictions`.
- jsQR: a `Decoder` function value.
- Camera and file outcomes: `streamReady`, `hasStream` and a `Loading`
  outcome.
- Timers: explicit events: `Tick`, `ClearMessage`, `CompleteSubmission`.

## Model

| member | source | states |
|---|---|---|
| QrParser.NormalizeTextIsWordFilter | src/utils/qrParser.ts:51-57 | normalising is the same as keeping the word characters of the upper-cased text, in order; trimming and removing white space add nothing |
| QrParser.NormalizeTextChars | src/utils/qrParser.ts:51-57 | every normalised string holds only `A`-`Z`, `0`-`9` and `_` |
| QrParser.NormalizeTextFixedPoints | src/utils/qrParser.ts:51-57 | a string is unchanged by normalisation exactly when it holds only those characters |
| QrParser.NormalizeTextIdempotent | src/utils/qrParser.ts:51-57 | normalising twice is normalising once |
| QrParser.NormalizeTextKeepsUnderscore | src/utils/qrParser.ts:56 | `_` is in the result exactly when it is in the input |
| QrParser.KeepWordCharsMembership | src/utils/qrParser.ts:56 | a character survives the non-word filter exactly when it is a word character of the input |
| QrParser.NameInjective | src/utils/qrParser.ts:60-69 | the eight category strings are pairwise distinct |
| QrParser.FirstCategory | src/utils/qrParser.ts:87-93 | a table search finds nothing exactly when no key passes the test |
| QrParser.ParseExactKey | src/utils/qrParser.ts:79-84 | text normalising to a `binMapping` key resolves to that key's category |
| QrParser.ParsePetBin | src/utils/qrParser.ts:79-84 | `pet bin`, with inner white space, is the key `PETBIN` |
| QrParser.ParseContainedKey | src/utils/qrParser.ts:86-93 | text containing key `i` resolves to key `i`'s category when it is no key and no earlier key matches in either direction |
| QrParser.ParseEmbeddedKey | src/utils/qrParser.ts:86-93 | a key inside a longer payload, `Z_METALBIN`, resolves to `Metal` |
| QrParser.ParseBareMetal | src/utils/qrParser.ts:86-93 | ` Metal\n` resolves to `Metal`, because `METALBIN` contains `METAL` |
| QrParser.ParseEmptyIsPet | src/utils/qrParser.ts:88 | text normalising to the empty string resolves to `Plastic_PET` |
| QrParser.ParseBlankIsPet | src/utils/qrParser.ts:88 | the empty text, `   ` and `!!!` all resolve to `Plastic_PET` |
| QrParser.SplitKeyMisses | src/utils/qrParser.ts:88 | a key with `_` put strictly inside it matches that key in neither direction |
| QrParser.ParseFuzzy | src/utils/qrParser.ts:107-113 | when no key matches either way, the first `fuzzyMap` keyword in the text decides |
| QrParser.ParseFuzzyTie | src/utils/qrParser.ts:96-113 | text with `PET` and no key resolves to `Plastic_PET` whatever else it contains |
| QrParser.ParsePetUnderscoreIsFuzzy | src/utils/qrParser.ts:107-113 | `pet_bin` fails the partial step and resolves to `Plastic_PET` through the keyword `PET` |
| QrParser.ParseMetalUnderscoreIsFuzzy | src/utils/qrParser.ts:107-113 | `METAL_BIN` fails the partial step and resolves to `Metal` through the keyword `METAL` |
| QrParser.ParseNoneIff | src/utils/qrParser.ts:59-120 | the result is `null` exactly when no key matches in either direction and no keyword occurs |
| QrParser.ParseUnknownIsNull | src/utils/qrParser.ts:115-119 | `xyz-123` resolves to `null` |
| QrParser.GetCategoryDisplayName | src/utils/qrParser.ts:122-124 | no `_` is left, and underscore-free input is returned unchanged |
| QrParser.DisplayNameOfSplit | src/utils/qrParser.ts:122-124 | `x_y` becomes `x - y`, so `Plastic_PET` is shown as `Plastic - PET` |
| QrParser.DisplayNameConcat | src/utils/qrParser.ts:123 | the replacement works character by character, so it distributes over concatenation |
| Strings.ToUpper | src/utils/qrParser.ts:54 | same length; each ASCII lower-case letter is upper-cased and every other character kept |
| Strings.ToLower | src/pages/Index.tsx:240 | same length; each ASCII upper-case letter is lower-cased and every other character kept |
| Strings.TrimSplits | src/utils/qrParser.ts:53 | `trim` removes exactly a white-space prefix and suffix, leaving no white space at either end |
| ScanTimer.Timer.constructor | src/hooks/useScanTimer.ts:3-5 | the timer starts at `(0, false)` with its duration |
| ScanTimer.Timer.StartTimer | src/hooks/useScanTimer.ts:23-26 | the state becomes `Started(initialSeconds)` |
| ScanTimer.Timer.ResetTimer | src/hooks/useScanTimer.ts:28-31 | the state becomes `(0, false)` from any state |
| ScanTimer.Timer.Tick | src/hooks/useScanTimer.ts:10-16 | one interval callback followed by the effect: the state becomes `Ticked(old state)` |
| ScanTimer.StartedRuns | src/hooks/useScanTimer.ts:23-26 | a non-zero start runs at its duration; a zero start is at once `(0, false)` |
| ScanTimer.ResetIsIdle | src/hooks/useScanTimer.ts:28-31 | the reset state ignores any number of ticks, so resetting twice is resetting once |
| ScanTimer.TickDecrements | src/hooks/useScanTimer.ts:10-13 | a running tick lowers the count by exactly 1, staying active unless it reaches 0 |
| ScanTimer.IdleTicksChangeNothing | src/hooks/useScanTimer.ts:10 | ticks while the interval is stopped change nothing |
| ScanTimer.EventsKeepValid | src/hooks/useScanTimer.ts:14-16 | every event keeps the count non-negative and a zero count inactive |
| ScanTimer.TicksKeepValid | src/hooks/useScanTimer.ts:10-16 | any number of ticks keeps that invariant |
| ScanTimer.CountingDown | src/hooks/useScanTimer.ts:10-16 | `k < n` ticks after starting at `n` leave `(n - k, true)` |
| ScanTimer.CountdownExpires | src/hooks/useScanTimer.ts:10-16 | exactly `n` ticks reach `(0, false)`, and it stays there |
| ScanTimer.TickedTimesAdd | src/hooks/useScanTimer.ts:11-13 | `j + k` ticks are `j` ticks, then `k` more |
| ScanTimer.NegativeDurationNeverExpires | src/hooks/useScanTimer.ts:10-16 | a negative start stays active with its count for ever |
| ClassifierSession.Percent | src/pages/Index.tsx:241 | the result is the percentage rounded half upwards |
| ClassifierSession.InsertSorted | src/pages/Index.tsx:237 | inserting into a confidence-sorted list keeps it sorted |
| ClassifierSession.InsertMultiset | src/pages/Index.tsx:237 | insertion adds exactly the new element |
| ClassifierSession.ByConfidenceSorted | src/pages/Index.tsx:237 | the reference sort is ordered by descending confidence and a permutation of its input |
| ClassifierSession.ByConfidenceKeepsSorted | src/pages/Index.tsx:237 | an already sorted list is left as it is |
| ClassifierSession.InsertStable | src/pages/Index.tsx:237 | an insertion places the new element after every element of its confidence |
| ClassifierSession.ByConfidenceStable | src/pages/Index.tsx:237 | the sort is stable: for each confidence, the predictions with it keep their input order |
| ClassifierSession.ShiftLower | src/pages/Index.tsx:237 | the inner loop shifts right by one exactly the trailing elements less confident than the one being inserted |
| ClassifierSession.InsertLast | src/pages/Index.tsx:237 | one pass places `a[i]` into the sorted prefix as the reference insertion does, leaving the rest |
| ClassifierSession.SortByConfidence | src/pages/Index.tsx:237 | the array ends as the reference stable sort of its old contents |
| ClassifierSession.FindDecisive | src/pages/Index.tsx:239-254 | the loop returns the first index whose rounded percentage is at least 10 and whose label names a category, or none |
| ClassifierSession.CategoryOfIs | src/pages/Index.tsx:245-252 | a label's category is the first table entry, in order, with a keyword in the label |
| ClassifierSession.CategoryOfNone | src/pages/Index.tsx:245-252 | no category is found exactly when no keyword of any entry occurs |
| ClassifierSession.CategoryOfNames | src/pages/Index.tsx:227-235 | a found category is one of the seven table labels, one whose keyword occurs; it is never `Organic` |
| ClassifierSession.WineBottleIsPet | src/pages/Index.tsx:227-246 | `wine bottle` is `PET_greenbin`, through `bottle` |
| ClassifierSession.SodaCanIsMetal | src/pages/Index.tsx:227-246 | `soda can` is `Metal` |
| ClassifierSession.ClassifyFirst | src/pages/Index.tsx:239-252 | the round is decided by the first qualifying prediction in sorted order |
| ClassifierSession.ClassifyDetected | src/pages/Index.tsx:239-258 | a detection names a category its label holds at 10% or more; no detection means no prediction qualified |
| ClassifierSession.LowConfidenceIgnored | src/pages/Index.tsx:243 | a prediction under 10%, inserted anywhere in the list, never changes whether anything is detected, nor what is detected |
| ClassifierSession.ClassifyEffects | src/pages/Index.tsx:247-258 | a detection sets the category, starts the 30-second timer and clears the message; none clears the category and leaves timer and message; points are untouched |
| ClassifierSession.Session.constructor | src/pages/Index.tsx:73-86 | the balance is the saved one, else 0; the timer is idle |
| ClassifierSession.Session.MapPredictions | src/pages/Index.tsx:226-259 | the array is sorted in place, and the new state is `AfterClassify` of the old state and the sorted predictions |
| ClassifierSession.Session.HandleQrScan | src/pages/Index.tsx:263-305 | the new state is `AfterDelivery` of the values the upload captured, the old state and the parse of the text |
| ClassifierSession.Session.ApplyScan | src/pages/Index.tsx:266-304 | the guards, read from the captured timer and detection, and the award applied to the current state, given the parse |
| ClassifierSession.ScanGuards | src/pages/Index.tsx:266-288 | expired, then no detection, then invalid QR; each changes only the message |
| ClassifierSession.ScanOutcome | src/pages/Index.tsx:291-304 | the matching bin adds exactly 10 points and closes the window; another bin changes only the message |
| ClassifierSession.ScanPoints | src/pages/Index.tsx:263-305 | for a scan picked in the current state, points change only by a successful scan inside the window, by exactly 10, and every scan leaves a message |
| ClassifierSession.DeliveryPoints | src/pages/Index.tsx:263-305 | any delivery, however late, changes only message, points and timer; points rise only by exactly 10 on a success, and only when the captured window was open |
| ClassifierSession.StaleAward | src/components/QRScanner.tsx:116 | a matching upload picked inside the window adds 10 points, shows success and clears the timer whatever the state at delivery |
| ClassifierSession.AwardAfterStop | src/pages/Index.tsx:310-320 | after a stop or reopen, a matching upload picked before it still earns 10 points, while a scan picked after it expires |
| ClassifierSession.RepeatedScanExpires | src/pages/Index.tsx:298 | after a rewarded scan any further scan picked in the new state gets the expired error |
| ClassifierSession.PetDetectionNeverEarns | src/pages/Index.tsx:228 | a captured `PET_greenbin` detection never earns points, however late the scan arrives, since the parser never returns that string |
| ClassifierSession.Session.OpenCamera | src/pages/Index.tsx:181-185 | with a stream the round is reset and the camera open; otherwise nothing changes |
| ClassifierSession.Session.StopCamera | src/pages/Index.tsx:310-320 | with a stream the round is reset and the camera closed; otherwise nothing changes |
| ClassifierSession.CameraResets | src/pages/Index.tsx:310-320 | a reset keeps the points, clears result, detection and message, and idles the timer, so a scan picked after it expires |
| Coupons.RewardsGallery.constructor | src/pages/Coupon.tsx:341-348 | the balance is the saved one, else 450, with no toast |
| Coupons.RewardsGallery.HandlePurchase | src/pages/Coupon.tsx:354-366 | the new state is `Purchase` of the old one |
| Coupons.RewardsGallery.ClearMessage | src/pages/Coupon.tsx:367 | the toast is cleared and the balance kept |
| Coupons.LoadedPointsDefault | src/pages/Coupon.tsx:341-348 | the initial balance is the saved value if present, otherwise 450 |
| Coupons.PurchaseOutcome | src/pages/Coupon.tsx:354-366 | an affordable purchase deducts exactly its cost with a success toast; any other keeps the balance with the error toast |
| Coupons.PurchaseKeepsNonNegative | src/pages/Coupon.tsx:355-356 | a non-negative balance stays non-negative whatever the cost |
| Coupons.PurchaseAllSpends | src/pages/Coupon.tsx:354-366 | over any run of purchases the balance drops by exactly the accepted costs and never below zero |
| Coupons.ButtonMatchesGuard | src/pages/Coupon.tsx:236-247 | the button is disabled exactly when the purchase is refused; its caption and classes follow |
| Coupons.CardColorFallback | src/pages/Coupon.tsx:184-193 | ids 1 to 6 have their colours and any other id gets `#3B82F6` |
| Coupons.MockColorsDistinct | src/pages/Coupon.tsx:184-193 | the six mock coupons have distinct colours |
| ClassNames.Kept | src/pages/Coupon.tsx:20 | the filter keeps only non-empty strings, never more than it was given |
| ClassNames.KeptMembership | src/pages/Coupon.tsx:20 | a string is kept exactly when it was passed and is non-empty |
| ClassNames.FalsyDropped | src/pages/Coupon.tsx:20 | `undefined`, `null`, `false` and the empty string are dropped |
| ClassNames.KeptConcat | src/pages/Coupon.tsx:20 | the filter keeps the order of its arguments |
| ClassNames.SplitJoin | src/pages/Coupon.tsx:20 | splitting the joined string at spaces gives back space-free parts |
| ClassNames.CnRecovers | src/pages/companyRegister.tsx:20 | `cn` is empty exactly when every argument is falsy, and else splits back into the kept arguments in order |
| ClassNames.CnPair | src/pages/Coupon.tsx:239-244 | two class strings are joined with one space |
| QrScanner.ImageTypeIff | src/components/QRScanner.tsx:27 | a type passes exactly when it is `image/` followed by anything |
| QrScanner.ImageTypeExamples | src/components/QRScanner.tsx:27 | the test is a case-sensitive prefix test |
| QrScanner.AverageThreshold | src/components/QRScanner.tsx:101-102 | an average above 128 is a channel sum above 384 |
| QrScanner.Binarize | src/components/QRScanner.tsx:100-106 | the buffer ends as the binarised copy of its old contents |
| QrScanner.Binarized | src/components/QRScanner.tsx:100-106 | the length is kept and each byte is given by its pixel |
| QrScanner.BinarizedPixels | src/components/QRScanner.tsx:100-106 | R, G and B of a pixel end equal, 255 exactly when their sum passes 384, else 0; alpha is kept |
| QrScanner.BinarizeIdempotent | src/components/QRScanner.tsx:100-106 | binarising twice is binarising once |
| QrScanner.DecodeImage | src/components/QRScanner.tsx:83-111 | the code, the calls made and the pixels are those of the reference cascade |
| QrScanner.CascadeOrder | src/components/QRScanner.tsx:83-111 | at most three calls: plain, then inverting only after a failure, then inverting on binarised pixels only after two failures |
| QrScanner.CascadeFinds | src/components/QRScanner.tsx:83-111 | a code is found exactly when one of the three calls finds one |
| QrScanner.Scanner.constructor | src/components/QRScanner.tsx:17-139 | no error, not processing, nothing delivered |
| QrScanner.Scanner.HandleFileUpload | src/components/QRScanner.tsx:17-31 | the new state is `Picked` of the old one |
| QrScanner.Scanner.FinishLoading | src/components/QRScanner.tsx:40-127 | the new state is `Finished` of the old one and the cascade's code, with a thrown exception setting the processing error; the pixels change only when decoding ran |
| QrScanner.NonImageRefused | src/components/QRScanner.tsx:27-31 | a non-image sets the error, stops processing and never delivers |
| QrScanner.ProcessingLifecycle | src/components/QRScanner.tsx:21-127 | an image starts processing with the error cleared; every way loading ends stops it, including an exception inside `img.onload` |
| QrScanner.DeliveredOnce | src/components/QRScanner.tsx:113-120 | `onScan` gets the text exactly once when a code with data is found; otherwise an error is set and nothing is delivered |
| QrScanner.InactiveNeverDelivers | src/components/QRScanner.tsx:141-148 | while inactive no upload starts and nothing is delivered |
| LegacyClassifier.ClassifyFirstMatch | src/components/WasteClassifier.tsx:70-89 | predictions are tried in the given order and the first matching one decides, with its first matching group |
| LegacyClassifier.ClassifyUnknown | src/components/WasteClassifier.tsx:90 | `Other/Unknown` exactly when no label matches, the empty list included |
| LegacyClassifier.ClassifyRange | src/components/WasteClassifier.tsx:74-90 | the result is one of the five texts |
| LegacyClassifier.ClassifyIgnoresConfidence | src/components/WasteClassifier.tsx:71 | the confidences are never read |
| LegacyClassifier.ClassifyTinCan | src/components/WasteClassifier.tsx:72-79 | `Tin Can` gives `Metal Waste` |
| LegacyClassifier.CandleIsMetal | src/components/WasteClassifier.tsx:77 | matching is a substring test, so `candle` is metal |
| LegacyClassifier.CanWrapperIsPlastic | src/components/WasteClassifier.tsx:73-79 | plastic is tried before metal: `can wrapper` is plastic |
| Keywords.FirstGroupIs | src/components/WasteClassifier.tsx:73-88 | the search answers the first group, in order, with a matching keyword |
| Keywords.FirstGroupNone | src/components/WasteClassifier.tsx:73-88 | it answers nothing exactly when no keyword matches |
| CompanyRegister.Registration.constructor | src/pages/companyRegister.tsx:110-121 | step 1, not submitting, no success, empty form |
| CompanyRegister.Registration.PressNext | src/pages/companyRegister.tsx:252 | the new state is `Next` of the old one |
| CompanyRegister.Registration.PressBack | src/pages/companyRegister.tsx:321 | the new state is `Back` of the old one |
| CompanyRegister.Registration.Change | src/pages/companyRegister.tsx:223 | the new state is `Edited` of the old one |
| CompanyRegister.Registration.HandleSubmit | src/pages/companyRegister.tsx:124-126 | the new state is `Submitted` of the old one |
| CompanyRegister.Registration.CompleteSubmission | src/pages/companyRegister.tsx:129-133 | the new state is `Completed` of the old one |
| CompanyRegister.EventsKeepValid | src/pages/companyRegister.tsx:110 | from step 1, every event keeps the step in 1 to 3 |
| CompanyRegister.RunKeepsValid | src/pages/companyRegister.tsx:110-134 | any run of events keeps the step in 1 to 3 and never submits on the success page |
| CompanyRegister.StepMoves | src/pages/companyRegister.tsx:328 | Next moves 1 to 2 and 2 to 3, Back 2 to 1 and 3 to 2, and neither touches the form |
| CompanyRegister.NoJump | src/pages/companyRegister.tsx:419 | no event moves between 1 and 3 directly |
| CompanyRegister.SubmitGate | src/pages/companyRegister.tsx:426 | a submission starts exactly from step 3 with the declaration ticked and none under way |
| CompanyRegister.SubmitThenSuccess | src/pages/companyRegister.tsx:124-134 | submit then the timeout reach the success page with the form kept |
| CompanyRegister.SuccessIsFinal | src/pages/companyRegister.tsx:136-167 | the success page replaces the form, and no event leaves it |
| CompanyRegister.NoSuccessWithoutSubmit | src/pages/companyRegister.tsx:136-167 | without a submission the success page is never reached |
| CompanyRegister.ApplyOnlyItsField | src/pages/companyRegister.tsx:409 | a change replaces only its own field |
| CompanyRegister.EditNeedsItsStep | src/pages/companyRegister.tsx:278-289 | a change applies only on the step that shows its input |
| Favorites.ToggleEffect | src/pages/EcoDIYProducts.tsx:236 | a present id is removed everywhere; an absent one is appended at the end; membership flips |
| Favorites.ToggleKeepsOthers | src/pages/EcoDIYProducts.tsx:236 | other ids keep their presence, and with the id filtered out the list is unchanged, so order is kept |
| Favorites.ToggleNoDuplicates | src/pages/EcoDIYProducts.tsx:236 | a duplicate-free list stays duplicate-free |
| Favorites.ToggleTwice | src/pages/EcoDIYProducts.tsx:235-237 | on a list without the id, toggling twice restores it |
| Favorites.FavoritesFromStart | src/pages/EcoDIYProducts.tsx:41 | from the empty start, an id is a favourite exactly when toggled an odd number of times, with no duplicates |
| Favorites.WithoutMembership | src/pages/Luxe.tsx:124 | the filter drops every occurrence of the id and keeps every other id |
| Favorites.WithoutAbsent | src/pages/Luxe.tsx:124 | filtering a list without the id leaves it as it is |
| Favorites.ToggleAllParity | src/pages/Luxe.tsx:123-125 | any run of toggles keeps the list duplicate-free, and each id's membership flips once per toggle of it |

## Left out

- The image model, TensorFlow script loading, `getUserMedia`, video and
  canvas drawing, and `FileReader`/`Image` loading are foreign calls and
  I/O. They enter as parameters: the prediction array, `streamReady` and
  `hasStream`, and the `Loading` outcome.
- The jsQR decoder is foreign code. It is an uninterpreted `Decoder` function.
- Writes to `localStorage` are left out, as I/O: the save effects of
  Index.tsx and Coupon.tsx. Reading it is the `Option<int>` constructor
  argument. `JSON.parse` of a saved value that is not a number is not
  modelled.
- Wall-clock timers become events. The staleness of Coupon's 4-second
  timeout is not modelled either: each purchase schedules a fresh one, so
  an earlier timeout can clear a later toast early.
- `ClassifierSession.Percent`: works on exact reals, not IEEE doubles
  multiplied by 100.
- Case mapping covers ASCII letters only.
- Message texts, the markdown of `result` and `debugInfo` are left out. The
  model records each message's kind and the categories it names.
- The `console.log` calls are left out.
- The `catch` inside `img.onload` (QRScanner.tsx:123-127) is the `Threw`
  loading outcome. `getImageData` of a zero-sized image throws there, and so
  may the decoder. The exception's message text is not modelled, and neither
  is which step threw: the binarised local copy of the pixels is dropped
  either way.
- The other `catch` blocks are left out, because the modelled steps before
  them cannot throw: Index.tsx's classifier errors, and QRScanner.tsx:134-138.
- `classifyImage` is left out: its readiness checks and the `loading` flag.
  So are the `error` field of `openCamera`, the model-loading effect and the
  `LoginModal`.
- Binarisation keeps JavaScript's behaviour on a buffer whose length is not
  a multiple of 4. A channel read past the end is `undefined`, which makes
  the pixel black, and a write past the end is ignored. This case cannot
  arise from `getImageData`.
- The registration wizard leaves some things out:
  - the file inputs, which only log;
  - the radio buttons and other inputs whose `onChange` does nothing;
  - `window.scrollTo`;
  - the progress-bar width.
- The browser's form validation is left out. At submission only the
  declaration's `required` applies, and the model's submit gate already
  states that.
- Favourites are not modelled as a class. The source passes a pure updater,
  `prev => next`, to `setFavorites`.
- The rendering of every page is left out. So are the routing,
  src/pages/map.tsx and the commented-out older parser at
  src/utils/qrParser.ts:1-48.
