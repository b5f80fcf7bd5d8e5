/** Coupon redemption, src/pages/Coupon.tsx: the `RewardsGallery` points
    balance and its toast, and the affordability and colour of each
    `CouponCard`.

    `localStorage` is a parameter: the constructor is given what was saved
    under `ecoPoints`, already parsed. The four-second `setTimeout` that
    clears the toast is the event `ClearMessage`. */
module Coupons {
  import opened Wrappers
  import opened ClassNames

  /** `setPoints(450)`: the demo balance when nothing was saved. */
  const DefaultPoints: int := 450

  /** The fields of `interface Coupon` the logic reads. */
  datatype Coupon = Coupon(id: int, name: string, cost: int)

  /** `mockCoupons`, lines 34-95. */
  const MockCoupons: seq<Coupon> := [
    Coupon(1, "NES AIRBNB ", 50),
    Coupon(2, "ANISA INTERNATIONALS", 120),
    Coupon(3, "MAHI COFFEE HOUSE", 80),
    Coupon(4, "SOURABHS BARS", 100),
    Coupon(5, "DAKSH FURNITURES", 200),
    Coupon(6, "SHENKY SHECKS", 60)
  ]

  // ---------------------------------------------------------------------
  // `CouponCard`

  /** `userPoints >= coupon.cost`. */
  predicate IsAffordable(userPoints: int, cost: int) {
    userPoints >= cost
  }

  /** The fallback of `colorMap[coupon.id] || '#3B82F6'`. */
  const FallbackColor: string := "#3B82F6"

  /** `colorMap`, lines 184-191; an id without an entry is `undefined`. */
  function ColorMap(id: int): Option<string> {
    match id
    case 1 => Some("#DC2626")
    case 2 => Some("#3B82F6")
    case 3 => Some("#F97316")
    case 4 => Some("#059669")
    case 5 => Some("#1F2937")
    case 6 => Some("#DB2777")
    case _ => None
  }

  /** `bgColor`, line 193: a colour string is never falsy, so the fallback is
      taken exactly when the id has no entry. */
  function CardColor(id: int): string {
    ColorMap(id).GetOr(FallbackColor)
  }

  /** What the Redeem button of a card shows. */
  datatype RedeemButton = RedeemButton(disabled: bool, caption: string, classes: string)

  const ButtonBase: string := "w-full py-3 rounded-full text-base font-bold transition-all shadow-md"
  const ButtonEnabled: string := "bg-white text-gray-800 hover:bg-gray-100 active:scale-[0.98]"
  const ButtonDisabled: string := "bg-white/50 text-gray-500 cursor-not-allowed"

  /** Lines 236-247. */
  function Button(userPoints: int, cost: int): RedeemButton {
    var affordable := IsAffordable(userPoints, cost);
    RedeemButton(
      !affordable,
      if affordable then "Redeem" else "Insufficient Points",
      Cn([Str(ButtonBase), Str(if affordable then ButtonEnabled else ButtonDisabled)]))
  }

  // ---------------------------------------------------------------------
  // `RewardsGallery`

  /** The toast: its kind, and for a success the cost it names. */
  datatype Toast = Redeemed(cost: int) | NotEnoughPoints
  {
    predicate IsSuccess() { Redeemed? }
  }

  datatype Wallet = Wallet(points: int, message: Option<Toast>)

  /** The balance after the load effect of lines 341-348. */
  function LoadedPoints(saved: Option<int>): int {
    saved.GetOr(DefaultPoints)
  }

  /** `handlePurchase(cost)`, lines 354-366, without its timeout. */
  function Purchase(w: Wallet, cost: int): Wallet {
    if w.points >= cost then Wallet(w.points - cost, Some(Redeemed(cost)))
    else w.(message := Some(NotEnoughPoints))
  }

  /** A run of purchases, in order. */
  function PurchaseAll(w: Wallet, costs: seq<int>): Wallet
    decreases |costs|
  {
    if |costs| == 0 then w else PurchaseAll(Purchase(w, costs[0]), costs[1..])
  }

  class RewardsGallery {
    var points: int
    var message: Option<Toast>

    function State(): Wallet
      reads this
    {
      Wallet(points, message)
    }

    /** Mount: `useState(0)`, then the load effect. */
    constructor(saved: Option<int>)
      ensures State() == Wallet(LoadedPoints(saved), None)
    {
      points := 0;
      message := None;
      if saved.Some? {
        points := saved.value;
      } else {
        points := DefaultPoints;
      }
    }

    method HandlePurchase(cost: int)
      modifies this
      ensures State() == Purchase(old(State()), cost)
    {
      if points >= cost {
        points := points - cost;
        message := Some(Redeemed(cost));
      } else {
        message := Some(NotEnoughPoints);
      }
    }

    /** The callback of `setTimeout(() => setMessage(null), 4000)`. */
    method ClearMessage()
      modifies this
      ensures State() == old(State()).(message := None)
    {
      message := None;
    }
  }

  // ---------------------------------------------------------------------
  // Properties

  /** The initial balance is the saved one if there is one, else 450. */
  lemma LoadedPointsDefault(saved: Option<int>)
    ensures saved.None? ==> LoadedPoints(saved) == 450
    ensures saved.Some? ==> LoadedPoints(saved) == saved.value
  {
  }

  /** An affordable purchase deducts exactly its cost and reports success
      with that cost; any other leaves the balance alone and reports the
      error. */
  lemma PurchaseOutcome(w: Wallet, cost: int)
    ensures IsAffordable(w.points, cost) ==>
      Purchase(w, cost) == Wallet(w.points - cost, Some(Redeemed(cost)))
    ensures !IsAffordable(w.points, cost) ==>
      Purchase(w, cost).points == w.points && Purchase(w, cost).message == Some(NotEnoughPoints)
    ensures Purchase(w, cost).message.Some? &&
      (Purchase(w, cost).message.value.IsSuccess() <==> IsAffordable(w.points, cost))
  {
  }

  /** The guard never lets the balance go negative: a non-negative balance
      stays so, and an accepted purchase always ends at or above zero. */
  lemma PurchaseKeepsNonNegative(w: Wallet, cost: int)
    ensures w.points >= 0 ==> Purchase(w, cost).points >= 0
    ensures Purchase(w, cost).message == Some(Redeemed(cost)) ==> Purchase(w, cost).points >= 0
  {
  }

  /** The sum of a sequence of costs. */
  function Total(costs: seq<int>): int
    decreases |costs|
  {
    if |costs| == 0 then 0 else costs[0] + Total(costs[1..])
  }

  /** The costs of a run that were accepted, in order. */
  function Accepted(points: int, costs: seq<int>): seq<int>
    decreases |costs|
  {
    if |costs| == 0 then []
    else if points >= costs[0] then [costs[0]] + Accepted(points - costs[0], costs[1..])
    else Accepted(points, costs[1..])
  }

  /** Over any run of purchases the balance drops by exactly the accepted
      costs, and from a non-negative start it never goes below zero. */
  lemma {:induction false} PurchaseAllSpends(w: Wallet, costs: seq<int>)
    ensures PurchaseAll(w, costs).points == w.points - Total(Accepted(w.points, costs))
    ensures w.points >= 0 ==> PurchaseAll(w, costs).points >= 0
    decreases |costs|
  {
    if |costs| > 0 {
      PurchaseKeepsNonNegative(w, costs[0]);
      PurchaseAllSpends(Purchase(w, costs[0]), costs[1..]);
      if w.points >= costs[0] {
        assert ([costs[0]] + Accepted(w.points - costs[0], costs[1..]))[1..] ==
          Accepted(w.points - costs[0], costs[1..]);
      }
    }
  }

  /** The button is disabled exactly when the card is unaffordable, and
      `handlePurchase` refuses exactly those purchases. */
  lemma ButtonMatchesGuard(w: Wallet, cost: int)
    ensures Button(w.points, cost).disabled <==>
      (Purchase(w, cost).points == w.points && Purchase(w, cost).message == Some(NotEnoughPoints))
    ensures Button(w.points, cost).caption == if Button(w.points, cost).disabled
      then "Insufficient Points" else "Redeem"
    ensures Button(w.points, cost).classes == ButtonBase + " " +
      (if Button(w.points, cost).disabled then ButtonDisabled else ButtonEnabled)
  {
    CnPair(ButtonBase, if IsAffordable(w.points, cost) then ButtonEnabled else ButtonDisabled);
  }

  /** Ids 1 to 6 get their own colour and every other id the fallback, which
      is also the colour of id 2. */
  lemma CardColorFallback(id: int)
    ensures (id < 1 || id > 6) ==> CardColor(id) == FallbackColor
    ensures CardColor(id) == FallbackColor <==> id == 2 || id < 1 || id > 6
  {
  }

  /** The six mock coupons all have distinct colours. */
  lemma MockColorsDistinct(i: nat, j: nat)
    requires i < j < |MockCoupons|
    ensures CardColor(MockCoupons[i].id) != CardColor(MockCoupons[j].id)
  {
  }
}
