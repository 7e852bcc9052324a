/** Whether a bid is accepted, and which minimum is shown to the bidder: two separate computations over
    the same thresholds.  Amounts are exact rationals. */
module BidRules {
  import opened TimedStore

  const DEFAULT_VITALITY_THRESHOLD := -20.0
  const DEFAULT_ABSOLUTE_MINIMUM_SOL := 0.01

  datatype Kind = VITALITY_BASED | ABSOLUTE | BOTH | Unknown(name: string)

  datatype Threshold = Threshold(
    nft: Option<nat>, collection: Option<nat>, active: bool,
    kind: Kind, percentage: Option<real>, absolute: Option<real>)

  datatype Nft = Nft(id: nat, collection: nat, floor: Option<real>)

  datatype Vitality = Vitality(score: real, suggested: Option<real>, sufficient: bool)

  datatype Reason =
    | NotPositive
    | BelowFloor
    | NoVitality
    | NotCalculated
    | BelowVitality(minimum: real, price: real, percentageBelow: real)
    | BelowMinimum(minimum: real)

  /** `Crash` is the type error of computing with a missing field. */
  datatype Outcome = Accepted | Rejected(reason: Reason) | Crash

  function Max(a: real, b: real): real { if b > a then b else a }

  // ---------------------------------------------------------------- which threshold applies

  /** The three selections that are made, one after the other. */
  datatype Scope = Own | OfCollection | Global

  predicate Selects(scope: Scope, n: Nft, t: Threshold) {
    match scope
    case Own => t.nft == Some(n.id) && t.active
    case OfCollection => t.collection == Some(n.collection) && t.nft == None && t.active
    case Global => t.collection == None && t.nft == None && t.active
  }

  /** The first row selected, in primary key order. */
  function First(scope: Scope, n: Nft, ts: seq<Threshold>): Option<Threshold> {
    if ts == [] then None else if Selects(scope, n, ts[0]) then Some(ts[0]) else First(scope, n, ts[1..])
  }

  function Applicable(n: Nft, ts: seq<Threshold>): Option<Threshold> {
    if First(Own, n, ts).Some? then First(Own, n, ts)
    else if First(OfCollection, n, ts).Some? then First(OfCollection, n, ts)
    else First(Global, n, ts)
  }

  // ---------------------------------------------------------------- accepting a bid

  /** A missing or zero value counts as not given. */
  function OrElse(v: Option<real>, default: real): real { if v.Some? && v.value != 0.0 then v.value else default }

  function EstimatePrice(n: Nft, v: Vitality): real { OrElse(n.floor, 1.0) * (0.5 + v.score / 100.0) }

  function Price(n: Nft, v: Vitality): real { OrElse(v.suggested, EstimatePrice(n, v)) }

  function VitalityMinimum(price: real, percentage: real): real { price * (1.0 + percentage / 100.0) }

  function ValidateVitality(b: real, price: real, percentage: real): Outcome
    requires b > 0.0
  {
    var minimum := VitalityMinimum(price, percentage);
    if b < minimum then Rejected(BelowVitality(minimum, price, (b - price) / price * 100.0)) else Accepted
  }

  function ValidateAbsolute(b: real, minimum: real): Outcome {
    if b < minimum then Rejected(BelowMinimum(minimum)) else Accepted
  }

  function ValidateThreshold(b: real, n: Nft, v: Vitality, t: Threshold): Outcome
    requires b > 0.0
  {
    match t.kind
    case VITALITY_BASED => if t.percentage == None then Crash else ValidateVitality(b, Price(n, v), t.percentage.value)
    case ABSOLUTE => if t.absolute == None then Crash else ValidateAbsolute(b, t.absolute.value)
    case BOTH =>
      if t.percentage == None || t.absolute == None then Crash
      else
        var effective := Max(VitalityMinimum(Price(n, v), t.percentage.value), t.absolute.value);
        if b < effective then Rejected(BelowMinimum(effective)) else Accepted
    case Unknown(_) => Accepted
  }

  function ValidateBid(b: real, n: Nft, vitality: Option<Vitality>, ts: seq<Threshold>): Outcome {
    if b <= 0.0 then Rejected(NotPositive)
    else if b < DEFAULT_ABSOLUTE_MINIMUM_SOL then Rejected(BelowFloor)
    else if vitality == None then Rejected(NoVitality)
    else if !vitality.value.sufficient then Rejected(NotCalculated)
    else
      match Applicable(n, ts)
      case Some(t) => ValidateThreshold(b, n, vitality.value, t)
      case None => ValidateVitality(b, Price(n, vitality.value), DEFAULT_VITALITY_THRESHOLD)
  }

  // ---------------------------------------------------------------- showing a minimum

  datatype Info =
    | Shown(minimum: Option<real>, price: Option<real>, percentage: Option<real>, error: bool)
    | InfoCrash

  function MinimumBidInfo(n: Nft, vitality: Option<Vitality>, ts: seq<Threshold>): Info {
    if vitality == None || !vitality.value.sufficient then Shown(Some(DEFAULT_ABSOLUTE_MINIMUM_SOL), None, None, true)
    else
      var price := Price(n, vitality.value);
      match Applicable(n, ts)
      case None =>
        Shown(Some(price * (1.0 + DEFAULT_VITALITY_THRESHOLD / 100.0)), Some(price), Some(DEFAULT_VITALITY_THRESHOLD), false)
      case Some(t) =>
        if t.kind == VITALITY_BASED then
          if t.percentage == None then InfoCrash
          else Shown(Some(VitalityMinimum(price, t.percentage.value)), Some(price), t.percentage, false)
        else if t.kind == ABSOLUTE then Shown(t.absolute, Some(price), None, false)
        else if t.percentage == None || t.absolute == None then InfoCrash
        else Shown(Some(Max(VitalityMinimum(price, t.percentage.value), t.absolute.value)), Some(price), None, false)
  }

  // ---------------------------------------------------------------- the threshold is the most specific one

  /** How specific a row is for an NFT: 0 its own, 1 its collection's, 2 everyone's. */
  function Level(n: Nft, t: Threshold): Option<nat> {
    if !t.active then None
    else if t.nft == Some(n.id) then Some(0)
    else if t.nft.Some? then None
    else if t.collection == Some(n.collection) then Some(1)
    else if t.collection == None then Some(2)
    else None
  }

  lemma {:induction false} FirstIsFirst(scope: Scope, n: Nft, ts: seq<Threshold>) returns (i: nat)
    ensures First(scope, n, ts) == None ==> forall j: nat :: j < |ts| ==> !Selects(scope, n, ts[j])
    ensures First(scope, n, ts).Some? ==>
      && i < |ts| && First(scope, n, ts) == Some(ts[i]) && Selects(scope, n, ts[i])
      && forall j: nat :: j < i ==> !Selects(scope, n, ts[j])
  {
    i := 0;
    if ts != [] && !Selects(scope, n, ts[0]) {
      var k := FirstIsFirst(scope, n, ts[1..]);
      assert forall j: nat :: 0 < j < |ts| ==> ts[j] == ts[1..][j - 1];
      i := k + 1;
    }
  }

  /** The threshold used is the earliest among the most specific active rows for the NFT, and there is none
      only if no active row applies. */
  lemma MostSpecific(n: Nft, ts: seq<Threshold>) returns (i: nat)
    ensures Applicable(n, ts) == None ==> forall j: nat :: j < |ts| ==> Level(n, ts[j]) == None
    ensures Applicable(n, ts).Some? ==>
      && i < |ts| && Applicable(n, ts) == Some(ts[i]) && Level(n, ts[i]).Some?
      && forall j: nat :: j < |ts| && Level(n, ts[j]).Some? ==>
           Level(n, ts[i]).value < Level(n, ts[j]).value || (Level(n, ts[i]) == Level(n, ts[j]) && i <= j)
  {
    assert forall t :: Selects(Own, n, t) <==> Level(n, t) == Some(0);
    assert forall t :: Selects(OfCollection, n, t) <==> Level(n, t) == Some(1);
    assert forall t :: Selects(Global, n, t) <==> Level(n, t) == Some(2);
    var a := FirstIsFirst(Own, n, ts);
    var b := FirstIsFirst(OfCollection, n, ts);
    var c := FirstIsFirst(Global, n, ts);
    i := if First(Own, n, ts).Some? then a else if First(OfCollection, n, ts).Some? then b else c;
  }

  /** The table's constraints: a row is for a collection or for an NFT, never for both or neither. */
  predicate Constrained(t: Threshold) { t.collection.Some? <==> t.nft == None }

  /** Under those constraints no threshold for everyone ever applies. */
  lemma NoGlobalThreshold(n: Nft, ts: seq<Threshold>)
    requires forall t :: t in ts ==> Constrained(t)
    ensures Applicable(n, ts).Some? ==> Level(n, Applicable(n, ts).value) in {Some(0), Some(1)}
  {
    var i := MostSpecific(n, ts);
    if Applicable(n, ts).Some? {
      assert Constrained(ts[i]);
    }
  }

  // ---------------------------------------------------------------- acceptance against the display

  predicate Accepts(b: real, n: Nft, vitality: Option<Vitality>, ts: seq<Threshold>) {
    ValidateBid(b, n, vitality, ts) == Accepted
  }

  /** Bids are accepted from the larger of 0.01 and the minimum shown on. */
  ghost predicate DisplayTellsTheTruth(n: Nft, vitality: Option<Vitality>, ts: seq<Threshold>) {
    var info := MinimumBidInfo(n, vitality, ts);
    && info.Shown? && info.minimum.Some?
    && forall b :: Accepts(b, n, vitality, ts) <==> b >= Max(DEFAULT_ABSOLUTE_MINIMUM_SOL, info.minimum.value)
  }

  /** The fields that the threshold's kind needs are there.  A kind unknown to the validator is shown as if
      it were `BOTH` but accepts everything. */
  predicate WellFormed(n: Nft, vitality: Option<Vitality>, ts: seq<Threshold>) {
    && vitality.Some? && vitality.value.sufficient
    && match Applicable(n, ts)
       case None => true
       case Some(t) =>
         match t.kind
         case VITALITY_BASED => t.percentage.Some?
         case ABSOLUTE => t.absolute.Some?
         case BOTH => t.percentage.Some? && t.absolute.Some?
         case Unknown(_) =>
           && t.percentage.Some? && t.absolute.Some?
           && VitalityMinimum(Price(n, vitality.value), t.percentage.value) <= DEFAULT_ABSOLUTE_MINIMUM_SOL
           && t.absolute.value <= DEFAULT_ABSOLUTE_MINIMUM_SOL
  }

  lemma AcceptedFromMinimum(b: real, n: Nft, vitality: Option<Vitality>, ts: seq<Threshold>)
    requires WellFormed(n, vitality, ts)
    ensures var info := MinimumBidInfo(n, vitality, ts);
            info.Shown? && info.minimum.Some? &&
            (Accepts(b, n, vitality, ts) <==> b >= Max(DEFAULT_ABSOLUTE_MINIMUM_SOL, info.minimum.value))
  {}

  /** The minimum shown is the one enforced exactly for well-formed thresholds over sufficient vitality. */
  lemma DisplayAgreesIff(n: Nft, vitality: Option<Vitality>, ts: seq<Threshold>)
    ensures DisplayTellsTheTruth(n, vitality, ts) <==> WellFormed(n, vitality, ts)
  {
    if WellFormed(n, vitality, ts) {
      forall b ensures Accepts(b, n, vitality, ts) <==>
        b >= Max(DEFAULT_ABSOLUTE_MINIMUM_SOL, MinimumBidInfo(n, vitality, ts).minimum.value)
      {
        AcceptedFromMinimum(b, n, vitality, ts);
      }
    } else if MinimumBidInfo(n, vitality, ts).Shown? && MinimumBidInfo(n, vitality, ts).minimum.Some? {
      var from := Max(DEFAULT_ABSOLUTE_MINIMUM_SOL, MinimumBidInfo(n, vitality, ts).minimum.value);
      assert Accepts(from, n, vitality, ts) != (from >= from) ||
             Accepts(DEFAULT_ABSOLUTE_MINIMUM_SOL, n, vitality, ts) != (DEFAULT_ABSOLUTE_MINIMUM_SOL >= from);
    }
  }

  // ---------------------------------------------------------------- both computations in numbers

  /** A suggested price `p` decides, whatever the floor and the score: without a threshold bids count from 0.8 `p`
      on, with a percentage `q` from `p` (1 + `q` / 100) on, with an absolute minimum from that on, with both from
      the larger on, and never below 0.01.  The same number is shown.  A field that is needed and missing is an
      error.  A threshold of a type that is not known accepts every bid and is shown as one with both. */
  lemma SuggestionDecides(b: real, n: Nft, v: Vitality, ts: seq<Threshold>, p: real)
    requires v.sufficient && v.suggested == Some(p) && p != 0.0 && b >= 0.01
    ensures
      var o, info := ValidateBid(b, n, Some(v), ts), MinimumBidInfo(n, Some(v), ts);
      match Applicable(n, ts)
      case None =>
        && (o == Accepted <==> b >= 0.8 * p)
        && info == Shown(Some(0.8 * p), Some(p), Some(-20.0), false)
      case Some(Threshold(_, _, _, VITALITY_BASED, q, _)) =>
        if q == None then o == Crash && info == InfoCrash
        else
          && (o == Accepted <==> b >= p * (100.0 + q.value) / 100.0)
          && info == Shown(Some(p * (100.0 + q.value) / 100.0), Some(p), q, false)
      case Some(Threshold(_, _, _, ABSOLUTE, _, a)) =>
        && (if a == None then o == Crash else o == Accepted <==> b >= a.value)
        && info == Shown(a, Some(p), None, false)
      case Some(Threshold(_, _, _, BOTH, q, a)) =>
        if q == None || a == None then o == Crash && info == InfoCrash
        else
          && (o == Accepted <==> b >= p * (100.0 + q.value) / 100.0 && b >= a.value)
          && info.Shown? && info.minimum.Some? && info.price == Some(p) && !info.error && info.percentage == None
          && info.minimum.value in {p * (100.0 + q.value) / 100.0, a.value}
          && info.minimum.value >= p * (100.0 + q.value) / 100.0 && info.minimum.value >= a.value
      case Some(Threshold(_, _, _, Unknown(_), q, a)) =>
        && o == Accepted
        && (if q == None || a == None then info == InfoCrash
            else
              && info.Shown? && info.minimum.Some? && info.price == Some(p) && !info.error && info.percentage == None
              && info.minimum.value in {p * (100.0 + q.value) / 100.0, a.value}
              && info.minimum.value >= p * (100.0 + q.value) / 100.0 && info.minimum.value >= a.value)
  {
    if Applicable(n, ts).Some? && Applicable(n, ts).value.percentage.Some? {
      Percent(p, Applicable(n, ts).value.percentage.value);
    }
  }

  lemma Percent(p: real, q: real)
    ensures p * (1.0 + q / 100.0) == p * (100.0 + q) / 100.0
  {
    assert 1.0 + q / 100.0 == (100.0 + q) / 100.0;
  }

  /** Without a suggestion, or with a zero one, everything is as if the price suggested were the floor times a half
      plus a hundredth of the score, the floor being one SOL if it is unset or zero. */
  lemma EstimateStandsIn(b: real, n: Nft, v: Vitality, ts: seq<Threshold>, floor: real)
    requires v.suggested in {None, Some(0.0)} && floor != 0.0
    requires n.floor == Some(floor) || (n.floor in {None, Some(0.0)} && floor == 1.0)
    ensures
      var w := v.(suggested := Some(floor * (50.0 + v.score) / 100.0));
      && (v.score != -50.0 ==> floor * (50.0 + v.score) / 100.0 != 0.0)
      && ValidateBid(b, n, Some(v), ts) == ValidateBid(b, n, Some(w), ts)
      && MinimumBidInfo(n, Some(v), ts) == MinimumBidInfo(n, Some(w), ts)
  {
    assert 0.5 + v.score / 100.0 == (50.0 + v.score) / 100.0;
    assert EstimatePrice(n, v) == floor * ((50.0 + v.score) / 100.0) == floor * (50.0 + v.score) / 100.0;
    if v.score != -50.0 {
      NonZero(floor, 50.0 + v.score);
    }
  }

  lemma NonZero(x: real, y: real)
    requires x != 0.0 && y != 0.0
    ensures x * y != 0.0
  {}

  /** A bid is refused for the first thing that is wrong with it: its sign, the general minimum, a missing or
      insufficient vitality, and only then for its distance from the price or the threshold's minimum, which the
      refusal names. */
  lemma RefusalNamesTheFirstFault(b: real, n: Nft, vitality: Option<Vitality>, ts: seq<Threshold>)
    ensures
      var o := ValidateBid(b, n, vitality, ts);
      && (o == Rejected(NotPositive) <==> b <= 0.0)
      && (o == Rejected(BelowFloor) <==> 0.0 < b < 0.01)
      && (o == Rejected(NoVitality) <==> b >= 0.01 && vitality == None)
      && (o == Rejected(NotCalculated) <==> b >= 0.01 && vitality.Some? && !vitality.value.sufficient)
      && (o.Rejected? && (o.reason.BelowVitality? || o.reason.BelowMinimum?) ==>
            && b >= 0.01 && vitality.Some? && vitality.value.sufficient
            && MinimumBidInfo(n, vitality, ts).Shown? && MinimumBidInfo(n, vitality, ts).minimum == Some(o.reason.minimum)
            && b < o.reason.minimum
            && (o.reason.BelowVitality? ==> MinimumBidInfo(n, vitality, ts).price == Some(o.reason.price)))
  {}

  /** Nothing can be said about a minimum without sufficient vitality: a hundredth is shown, with an error. */
  lemma NoMinimumWithoutVitality(n: Nft, vitality: Option<Vitality>, ts: seq<Threshold>, b: real)
    requires vitality == None || !vitality.value.sufficient
    ensures MinimumBidInfo(n, vitality, ts) == Shown(Some(0.01), None, None, true) && !Accepts(b, n, vitality, ts)
  {}

  /** A kind that neither computation knows: one SOL is shown, but a hundredth is accepted. */
  lemma UnknownKindShowsAnotherMinimum(n: Nft, v: Vitality)
    requires v.sufficient && Price(n, v) == 1.0
    ensures
      var ts := [Threshold(Some(n.id), None, true, Unknown("FLOOR"), Some(0.0), Some(0.5))];
      Accepts(0.01, n, Some(v), ts) && MinimumBidInfo(n, Some(v), ts).minimum == Some(1.0)
  {}

  /** The estimate scales the floor by 0.5 to 1.5, and by the vitality score from 0 to 100 in between. */
  lemma EstimateFollowsVitality(n: Nft, v: Vitality, w: Vitality)
    requires 0.0 <= v.score <= w.score <= 100.0 && (n.floor.Some? ==> n.floor.value >= 0.0)
    ensures
      var floor := if n.floor.Some? && n.floor.value > 0.0 then n.floor.value else 1.0;
      && 0.5 * floor <= EstimatePrice(n, v) <= EstimatePrice(n, w) <= 1.5 * floor
      && (v.score == 50.0 ==> EstimatePrice(n, v) == floor)
      && EstimatePrice(n, w) - EstimatePrice(n, v) == floor * (w.score - v.score) / 100.0
  {
    var floor := OrElse(n.floor, 1.0);
    Scaled(floor, 50.0 + v.score);
    Scaled(floor, 50.0 + w.score);
    Scaled(floor, w.score - v.score);
    Scaled(floor, 100.0 - w.score);
    Scaled(floor, v.score);
    assert floor * (50.0 + v.score) == 50.0 * floor + floor * v.score;
    assert floor * (50.0 + w.score) == 150.0 * floor - floor * (100.0 - w.score);
    assert floor * (50.0 + w.score) == floor * (50.0 + v.score) + floor * (w.score - v.score);
  }

  lemma Scaled(floor: real, x: real)
    requires 0.0 <= floor && 0.0 <= x
    ensures 0.0 <= floor * x && floor * (x / 100.0) == floor * x / 100.0
    ensures floor * (0.5 + (x - 50.0) / 100.0) == floor * x / 100.0
  {
    assert 0.5 + (x - 50.0) / 100.0 == x / 100.0;
  }

  /** A higher bid is never refused where a lower one was accepted. */
  lemma AcceptanceMonotone(b: real, b': real, n: Nft, vitality: Option<Vitality>, ts: seq<Threshold>)
    requires b <= b' && Accepts(b, n, vitality, ts)
    ensures Accepts(b', n, vitality, ts)
  {}

  /** Having no threshold at all is the same as having one of twenty per cent below vitality. */
  lemma DefaultIsAThreshold(b: real, n: Nft, vitality: Option<Vitality>, ts: seq<Threshold>, t: Threshold)
    requires Applicable(n, ts) == None
    requires t.kind == VITALITY_BASED && t.percentage == Some(DEFAULT_VITALITY_THRESHOLD) && Level(n, t).Some?
    ensures ValidateBid(b, n, vitality, ts + [t]) == ValidateBid(b, n, vitality, ts)
    ensures MinimumBidInfo(n, vitality, ts + [t]) == MinimumBidInfo(n, vitality, ts)
  {
    var _ := MostSpecific(n, ts);
    var i := MostSpecific(n, ts + [t]);
    assert (ts + [t])[|ts|] == t;
    assert forall j: nat :: j < |ts| ==> (ts + [t])[j] == ts[j];
  }

  /** `BOTH` accepts what the vitality rule and the absolute rule each accept. */
  lemma BothIsConjunction(b: real, n: Nft, v: Vitality, t: Threshold)
    requires b > 0.0 && t.kind == BOTH
    ensures ValidateThreshold(b, n, v, t) == Accepted <==>
      && ValidateThreshold(b, n, v, t.(kind := VITALITY_BASED)) == Accepted
      && ValidateThreshold(b, n, v, t.(kind := ABSOLUTE)) == Accepted
  {}

  /** A vitality rejection quotes how far the bid lies from the price.  The price is then never zero.  For a
      positive price that figure is below the allowed percentage, exactly in rejections, and it has the sign
      the message gives it whenever that percentage is not positive. */
  lemma RejectionQuotesDistance(b: real, price: real, percentage: real)
    requires b > 0.0
    ensures
      var o := ValidateVitality(b, price, percentage);
      && (o.Rejected? ==>
            && o.reason.price == price != 0.0 && o.reason.minimum > b
            && price * (1.0 + o.reason.percentageBelow / 100.0) == b)
      && (price > 0.0 ==>
            && (o.Rejected? <==> (b - price) / price * 100.0 < percentage)
            && (o.Rejected? ==> o.reason.percentageBelow < percentage && (percentage <= 0.0 ==> b < price)))
      && (price < 0.0 && o.Rejected? ==> o.reason.percentageBelow > percentage)
  {
    if price != 0.0 {
      var x, y := (b - price) / price, percentage / 100.0;
      assert x * price == b - price;
      assert price * (1.0 + x) == b;
      assert VitalityMinimum(price, percentage) - b == price * (y - x);
    }
  }
}
