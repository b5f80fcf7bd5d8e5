/** The keyword classifier of the older component
    src/components/WasteClassifier.tsx: predictions are taken in the order
    the model returned them, with no threshold, and each lower-cased label
    is tried against four keyword groups in a fixed order. */
module LegacyClassifier {
  import opened Wrappers
  import opened Strings
  import opened Keywords
  import ClassifierSession

  /** The four results a match can give. */
  datatype Waste = Plastic | Metal | Paper | Glass
  {
    function Label(): string {
      match this
      case Plastic => "Plastic Waste"
      case Metal => "Metal Waste"
      case Paper => "Paper Waste"
      case Glass => "Glass Waste"
    }
  }

  /** The result when no prediction matches. */
  const Unknown: string := "Other/Unknown"

  /** Lines 65-68, in the order lines 73-88 test them. */
  const Groups: seq<(Waste, seq<string>)> := [
    (Plastic, ["plastic bag", "wrapper", "packet"]),
    (Metal, ["tin can", "aluminum can", "can"]),
    (Paper, ["paper", "notebook", "cardboard"]),
    (Glass, ["glass bottle", "wine bottle"])
  ]

  /** `mapPredictionsToWasteCategory`, lines 65-91: the text it sets as
      `result`. */
  function Classify(predictions: seq<ClassifierSession.Prediction>): string {
    if |predictions| == 0 then Unknown
    else
      match FirstGroup(ToLower(predictions[0].className), Groups)
      case Some(waste) => waste.Label()
      case None => Classify(predictions[1..])
  }

  // ---------------------------------------------------------------------
  // Properties

  /** The first prediction whose label matches a group decides, with the
      label of the first group it matches. */
  lemma {:induction false} ClassifyFirstMatch(predictions: seq<ClassifierSession.Prediction>, i: nat)
    requires i < |predictions|
    requires FirstGroup(ToLower(predictions[i].className), Groups).Some?
    requires forall j :: 0 <= j < i ==> FirstGroup(ToLower(predictions[j].className), Groups).None?
    ensures Classify(predictions) == FirstGroup(ToLower(predictions[i].className), Groups).value.Label()
  {
    if i > 0 {
      ClassifyFirstMatch(predictions[1..], i - 1);
    }
  }

  /** The result is `Other/Unknown` exactly when no label matches any
      group, in particular for no predictions at all. */
  lemma {:induction false} ClassifyUnknown(predictions: seq<ClassifierSession.Prediction>)
    ensures Classify(predictions) == Unknown <==>
      forall j :: 0 <= j < |predictions| ==> FirstGroup(ToLower(predictions[j].className), Groups).None?
  {
    if |predictions| > 0 {
      ClassifyUnknown(predictions[1..]);
      assert forall j :: 1 <= j < |predictions| ==> predictions[j] == predictions[1..][j - 1];
      match FirstGroup(ToLower(predictions[0].className), Groups)
      case Some(waste) => assert waste.Label() != Unknown;
      case None =>
    }
  }

  /** The result is always one of the five texts. */
  lemma {:induction false} ClassifyRange(predictions: seq<ClassifierSession.Prediction>)
    ensures Classify(predictions) in
      {"Plastic Waste", "Metal Waste", "Paper Waste", "Glass Waste", "Other/Unknown"}
  {
    if |predictions| > 0 {
      ClassifyRange(predictions[1..]);
    }
  }

  /** Confidences are never read: predictions with the same labels in the
      same order give the same result. */
  lemma {:induction false} ClassifyIgnoresConfidence(a: seq<ClassifierSession.Prediction>,
                                                    b: seq<ClassifierSession.Prediction>)
    requires |a| == |b|
    requires forall j :: 0 <= j < |a| ==> a[j].className == b[j].className
    ensures Classify(a) == Classify(b)
  {
    if |a| > 0 {
      ClassifyIgnoresConfidence(a[1..], b[1..]);
    }
  }

  // ---------------------------------------------------------------------
  // Worked labels

  lemma LowerTinCan()
    ensures ToLower("Tin Can") == "tin can"
  {
  }

  /** `Tin Can` is Metal: no plastic keyword occurs in `tin can`. */
  lemma TinCanIsMetal(name: string)
    requires name == "tin can"
    ensures FirstGroup(name, Groups) == Some(Metal)
  {
    MissesAll(name, Groups[0].1, "pwp");
    assert OccursAt(name, "tin can", 0);
    assert ContainsAny(name, Groups[1].1) by {
      assert Contains(name, Groups[1].1[0]);
    }
    FirstGroupIs(name, Groups, 1);
  }

  lemma ClassifyTinCan(p: ClassifierSession.Prediction)
    requires p.className == "Tin Can"
    ensures Classify([p]) == "Metal Waste"
  {
    LowerTinCan();
    TinCanIsMetal(ToLower(p.className));
  }

  /** The test is a substring test: `candle` holds `can`. */
  lemma CandleIsMetal(name: string)
    requires name == "candle"
    ensures FirstGroup(name, Groups) == Some(Metal)
  {
    MissesAll(name, Groups[0].1, "pwp");
    assert OccursAt(name, "can", 0);
    assert ContainsAny(name, Groups[1].1) by {
      assert Contains(name, Groups[1].1[2]);
    }
    FirstGroupIs(name, Groups, 1);
  }

  /** Plastic is tried before metal whatever the position in the label:
      `can wrapper` is Plastic. */
  lemma CanWrapperIsPlastic(name: string)
    requires name == "can wrapper"
    ensures FirstGroup(name, Groups) == Some(Plastic)
  {
    assert OccursAt(name, "wrapper", 4);
    assert ContainsAny(name, Groups[0].1) by {
      assert Contains(name, Groups[0].1[1]);
    }
    FirstGroupIs(name, Groups, 0);
  }
}
