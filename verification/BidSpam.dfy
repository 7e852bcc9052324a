/** The bid-spam check: at most three bids an hour by one bidder on one NFT. */
module BidSpam {

  const MAX_BIDS_PER_HOUR_SPAM := 3
  const HOUR := 3600.0

  datatype Bid = Bid(bidder: string, nft: string, createdAt: real)

  datatype Safety = Safe | OwnNft | TooManyBids(recent: nat)

  /** A bid request that passed the check and whose bid is not stored yet. */
  datatype Request = Request(bidder: string, nft: string)

  datatype State = State(now: real, bids: seq<Bid>, requests: seq<Request>)

  datatype Event =
    | Tick(elapsed: real)
    | Place(bidder: string, nft: string, owner: string)
    | Store(i: nat)
    | Drop(i: nat)

  predicate By(b: Bid, r: Request) { b.bidder == r.bidder && b.nft == r.nft }

  /** The stored bids of a pair created at `from` or later. */
  function Since(bids: seq<Bid>, r: Request, from: real): nat {
    if bids == [] then 0
    else Since(bids[..|bids| - 1], r, from) + if By(bids[|bids| - 1], r) && from <= bids[|bids| - 1].createdAt then 1 else 0
  }

  function ValidateBidPlacementSafety(bids: seq<Bid>, now: real, r: Request, owner: string): Safety {
    if r.bidder == owner then OwnNft
    else
      var recent := Since(bids, r, now - HOUR);
      if recent >= MAX_BIDS_PER_HOUR_SPAM then TooManyBids(recent) else Safe
  }

  function Pending(rs: seq<Request>, r: Request): nat {
    if rs == [] then 0 else Pending(rs[..|rs| - 1], r) + if rs[|rs| - 1] == r then 1 else 0
  }

  function Remove(rs: seq<Request>, i: nat): seq<Request>
    requires i < |rs|
  {
    rs[..i] + rs[i + 1..]
  }

  /** At most `k` requests of one bidder on one NFT are between their check and their bid. */
  function Apply(s: State, e: Event, k: nat): State {
    match e
    case Tick(d) => if d < 0.0 then s else s.(now := s.now + d)
    case Place(b, n, owner) =>
      var r := Request(b, n);
      if Pending(s.requests, r) < k && ValidateBidPlacementSafety(s.bids, s.now, r, owner).Safe?
      then s.(requests := s.requests + [r]) else s
    case Store(i) =>
      if i < |s.requests| then
        var r := s.requests[i];
        s.(bids := s.bids + [Bid(r.bidder, r.nft, s.now)], requests := Remove(s.requests, i))
      else s
    case Drop(i) => if i < |s.requests| then s.(requests := Remove(s.requests, i)) else s
  }

  function Run(now: real, es: seq<Event>, k: nat): State {
    if es == [] then State(now, [], []) else Apply(Run(now, es[..|es| - 1], k), es[|es| - 1], k)
  }

  // ---------------------------------------------------------------- the check

  lemma OneMore(before: set<nat>, all: set<nat>, n: nat, more: bool)
    requires n !in before && forall i :: i in all <==> i in before || (more && i == n)
    ensures |all| == |before| + if more then 1 else 0
  {
    assert all == if more then before + {n} else before;
  }

  lemma {:induction false} SinceCounts(bids: seq<Bid>, r: Request, from: real)
    ensures Since(bids, r, from) ==
      |set i: nat | i < |bids| && bids[i].bidder == r.bidder && bids[i].nft == r.nft && bids[i].createdAt >= from|
  {
    if bids != [] {
      var n := |bids| - 1;
      var bids0 := bids[..n];
      SinceCounts(bids0, r, from);
      OneMore((set i: nat | i < |bids0| && bids0[i].bidder == r.bidder && bids0[i].nft == r.nft && bids0[i].createdAt >= from),
              (set i: nat | i < |bids| && bids[i].bidder == r.bidder && bids[i].nft == r.nft && bids[i].createdAt >= from),
              n, By(bids[n], r) && bids[n].createdAt >= from);
    }
  }

  /** An owner's bid is refused; another one's is let through exactly if at most two of the bidder's bids on the NFT
      are stored since an hour ago, to the second. */
  lemma SafeIff(bids: seq<Bid>, now: real, r: Request, owner: string)
    ensures
      var recent := |set i: nat | i < |bids| && bids[i].bidder == r.bidder && bids[i].nft == r.nft && bids[i].createdAt >= now - 3600.0|;
      var safety := ValidateBidPlacementSafety(bids, now, r, owner);
      && (safety == OwnNft <==> r.bidder == owner)
      && (safety == Safe <==> r.bidder != owner && recent <= 2)
      && (safety.TooManyBids? <==> r.bidder != owner && recent >= 3)
      && (safety.TooManyBids? ==> safety.recent == recent)
  {
    SinceCounts(bids, r, now - 3600.0);
  }

  ghost predicate InPast(s: State) { forall i: nat :: i < |s.bids| ==> s.bids[i].createdAt <= s.now }

  lemma {:induction false} RunInPast(now: real, es: seq<Event>, k: nat)
    ensures InPast(Run(now, es, k))
  {
    if es != [] {
      RunInPast(now, es[..|es| - 1], k);
    }
  }

  lemma {:induction false} NoneSince(bids: seq<Bid>, r: Request, from: real)
    requires forall i: nat :: i < |bids| ==> bids[i].createdAt < from
    ensures Since(bids, r, from) == 0
  {
    if bids != [] {
      NoneSince(bids[..|bids| - 1], r, from);
    }
  }

  lemma PlacedWhenSafe(s: State, r: Request, owner: string, k: nat)
    requires Pending(s.requests, r) < k && ValidateBidPlacementSafety(s.bids, s.now, r, owner) == Safe
    ensures Apply(s, Place(r.bidder, r.nft, owner), k) == State(s.now, s.bids, s.requests + [r])
  {}

  lemma SafeLater(s: State, r: Request, owner: string, d: real)
    requires InPast(s) && d > 3600.0 && r.bidder != owner
    ensures ValidateBidPlacementSafety(s.bids, s.now + d, r, owner) == Safe
  {
    NoneSince(s.bids, r, s.now + d - 3600.0);
  }

  /** Nobody is kept out for good: after any run, once more than an hour has gone by, a bidder with no request in
      flight can place a bid again. */
  lemma AllowedAfterAnHour(now: real, es: seq<Event>, k: nat, r: Request, owner: string, d: real)
    requires k > 0 && d > 3600.0 && r.bidder != owner && Pending(Run(now, es, k).requests, r) == 0
    ensures
      var s' := Apply(Apply(Run(now, es, k), Tick(d), k), Place(r.bidder, r.nft, owner), k);
      s'.requests == Run(now, es, k).requests + [r] && s'.now == Run(now, es, k).now + d
  {
    var s := Run(now, es, k);
    var s1 := State(s.now + d, s.bids, s.requests);
    RunInPast(now, es, k);
    SafeLater(s, r, owner, d);
    assert Apply(s, Tick(d), k) == s1;
    PlacedWhenSafe(s1, r, owner, k);
  }

  // ---------------------------------------------------------------- windows

  /** The stored bids of a pair in the closed hour that begins at `from`. */
  function InHour(bids: seq<Bid>, r: Request, from: real): nat {
    if bids == [] then 0
    else
      InHour(bids[..|bids| - 1], r, from)
      + if By(bids[|bids| - 1], r) && from <= bids[|bids| - 1].createdAt <= from + HOUR then 1 else 0
  }

  lemma {:induction false} InHourCounts(bids: seq<Bid>, r: Request, from: real)
    ensures InHour(bids, r, from) ==
      |set i: nat | i < |bids| && bids[i].bidder == r.bidder && bids[i].nft == r.nft && from <= bids[i].createdAt <= from + 3600.0|
  {
    if bids != [] {
      var n := |bids| - 1;
      var bids0 := bids[..n];
      InHourCounts(bids0, r, from);
      OneMore((set i: nat | i < |bids0| && bids0[i].bidder == r.bidder && bids0[i].nft == r.nft && from <= bids0[i].createdAt <= from + 3600.0),
              (set i: nat | i < |bids| && bids[i].bidder == r.bidder && bids[i].nft == r.nft && from <= bids[i].createdAt <= from + 3600.0),
              n, By(bids[n], r) && from <= bids[n].createdAt <= from + 3600.0);
    }
  }

  lemma {:induction false} InHourIsSince(bids: seq<Bid>, r: Request, from: real, now: real)
    requires now - HOUR <= from
    ensures InHour(bids, r, from) <= Since(bids, r, now - HOUR)
  {
    if bids != [] {
      InHourIsSince(bids[..|bids| - 1], r, from, now);
    }
  }

  lemma PendingRemove(rs: seq<Request>, i: nat, r: Request)
    requires i < |rs|
    ensures Pending(Remove(rs, i), r) == Pending(rs, r) - if rs[i] == r then 1 else 0
  {
    var n := |rs| - 1;
    if i == n {
      assert Remove(rs, i) == rs[..n];
    } else {
      assert Remove(rs, i)[..n - 1] == Remove(rs[..n], i);
      PendingRemove(rs[..n], i, r);
    }
  }

  /** While an hour is not over, the bids in it and those still to be stored are at most `2 + k`. */
  predicate WindowOk(s: State, r: Request, from: real, k: nat) {
    && Pending(s.requests, r) <= k
    && InHour(s.bids, r, from) + (if s.now <= from + HOUR then Pending(s.requests, r) else 0) <= 2 + k
  }

  ghost predicate Inv(s: State, k: nat) {
    forall r, from :: WindowOk(s, r, from, k)
  }

  lemma PlaceInv(s: State, b: string, n: string, owner: string, k: nat)
    requires Inv(s, k)
    ensures Inv(Apply(s, Place(b, n, owner), k), k)
  {
    var s' := Apply(s, Place(b, n, owner), k);
    if s' != s {
      assert s'.requests[..|s.requests|] == s.requests;
      forall r, from ensures WindowOk(s', r, from, k) {
        assert WindowOk(s, r, from, k);
        if r == Request(b, n) && s.now <= from + HOUR {
          InHourIsSince(s.bids, r, from, s.now);
        }
      }
    }
  }

  lemma StoreInv(s: State, i: nat, k: nat)
    requires Inv(s, k) && i < |s.requests|
    ensures Inv(Apply(s, Store(i), k), k) && Inv(Apply(s, Drop(i), k), k)
  {
    var s' := Apply(s, Store(i), k);
    assert s'.bids[..|s.bids|] == s.bids;
    forall r, from ensures WindowOk(s', r, from, k) && WindowOk(Apply(s, Drop(i), k), r, from, k) {
      assert WindowOk(s, r, from, k);
      PendingRemove(s.requests, i, r);
    }
  }

  lemma TickInv(s: State, d: real, k: nat)
    requires Inv(s, k)
    ensures Inv(Apply(s, Tick(d), k), k)
  {
    forall r, from ensures WindowOk(Apply(s, Tick(d), k), r, from, k) {
      assert WindowOk(s, r, from, k);
    }
  }

  lemma {:induction false} RunInv(now: real, es: seq<Event>, k: nat)
    ensures Inv(Run(now, es, k), k)
  {
    if es != [] {
      RunInv(now, es[..|es| - 1], k);
      var s := Run(now, es[..|es| - 1], k);
      match es[|es| - 1]
      case Tick(d) => TickInv(s, d, k);
      case Place(b, n, owner) => PlaceInv(s, b, n, owner, k);
      case Store(i) => if i < |s.requests| { StoreInv(s, i, k); }
      case Drop(i) => if i < |s.requests| { StoreInv(s, i, k); }
    }
  }

  /** In every run any closed hour holds at most `2 + k` bids of one bidder on one NFT; at most three
      if a bid is stored before the next one is checked. */
  lemma HourBound(now: real, es: seq<Event>, k: nat, r: Request, from: real)
    ensures InHour(Run(now, es, k).bids, r, from) <= 2 + k
    ensures k == 1 ==> InHour(Run(now, es, k).bids, r, from) <= MAX_BIDS_PER_HOUR_SPAM
    ensures
      var bids := Run(now, es, k).bids;
      |set i: nat | i < |bids| && bids[i].bidder == r.bidder && bids[i].nft == r.nft && from <= bids[i].createdAt <= from + 3600.0| <= 2 + k
  {
    InHourCounts(Run(now, es, k).bids, r, from);
    RunInv(now, es, k);
    assert WindowOk(Run(now, es, k), r, from, k);
  }

  // ---------------------------------------------------------------- the bound is reached

  function Repeat<T>(n: nat, x: T): seq<T> { seq(n, _ => x) }

  lemma PendingRepeat(n: nat, r: Request)
    ensures Pending(Repeat(n, r), r) == n
  {
    if n > 0 {
      assert Repeat(n, r)[..n - 1] == Repeat(n - 1, r);
      PendingRepeat(n - 1, r);
    }
  }

  lemma RepeatCounts(n: nat, b: Bid)
    ensures Since(Repeat(n, b), Request(b.bidder, b.nft), b.createdAt - HOUR) == n
    ensures InHour(Repeat(n, b), Request(b.bidder, b.nft), b.createdAt) == n
  {
    if n > 0 {
      assert Repeat(n, b)[..n - 1] == Repeat(n - 1, b);
      RepeatCounts(n - 1, b);
    }
  }

  lemma PlaceOne(now: real, r: Request, m: nat, j: nat, k: nat)
    requires m < MAX_BIDS_PER_HOUR_SPAM && j < k
    ensures
      var s := State(now, Repeat(m, Bid(r.bidder, r.nft, now)), Repeat(j, r));
      Apply(s, Place(r.bidder, r.nft, r.bidder + "x"), k) == s.(requests := Repeat(j + 1, r))
  {
    RepeatCounts(m, Bid(r.bidder, r.nft, now));
    PendingRepeat(j, r);
    assert |r.bidder + "x"| != |r.bidder|;
    assert Repeat(j, r) + [r] == Repeat(j + 1, r);
  }

  /** From `m` stored bids, fewer than the limit, `j` more requests pass the check. */
  lemma {:induction false} PlaceAll(now: real, es: seq<Event>, r: Request, m: nat, j: nat, k: nat) returns (fs: seq<Event>)
    requires m < MAX_BIDS_PER_HOUR_SPAM && j <= k
    requires Run(now, es, k) == State(now, Repeat(m, Bid(r.bidder, r.nft, now)), [])
    ensures Run(now, fs, k) == State(now, Repeat(m, Bid(r.bidder, r.nft, now)), Repeat(j, r))
  {
    if j == 0 {
      fs := es;
      assert Repeat(0, r) == [];
    } else {
      var fs0 := PlaceAll(now, es, r, m, j - 1, k);
      fs := fs0 + [Place(r.bidder, r.nft, r.bidder + "x")];
      assert fs[..|fs0|] == fs0;
      PlaceOne(now, r, m, j - 1, k);
    }
  }

  lemma {:induction false} StoreAll(now: real, es: seq<Event>, r: Request, m: nat, j: nat, k: nat) returns (fs: seq<Event>)
    requires Run(now, es, k) == State(now, Repeat(m, Bid(r.bidder, r.nft, now)), Repeat(j, r))
    ensures Run(now, fs, k) == State(now, Repeat(m + j, Bid(r.bidder, r.nft, now)), [])
    decreases j
  {
    if j == 0 {
      fs := es;
      assert Repeat(0, r) == [];
    } else {
      var b := Bid(r.bidder, r.nft, now);
      var es1 := es + [Store(0)];
      assert es1[..|es|] == es;
      assert Remove(Repeat(j, r), 0) == Repeat(j - 1, r);
      assert Repeat(m, b) + [b] == Repeat(m + 1, b);
      fs := StoreAll(now, es1, r, m + 1, j - 1, k);
    }
  }

  /** With `k` requests in flight `2 + k` bids can really be stored, all at one instant. */
  lemma HourBoundIsReached(now: real, r: Request, k: nat)
    requires k > 0
    ensures exists es :: InHour(Run(now, es, k).bids, r, now) == 2 + k
  {
    assert Repeat(0, Bid(r.bidder, r.nft, now)) == [];
    var a := PlaceAll(now, [], r, 0, 1, k);
    a := StoreAll(now, a, r, 0, 1, k);
    a := PlaceAll(now, a, r, 1, 1, k);
    a := StoreAll(now, a, r, 1, 1, k);
    a := PlaceAll(now, a, r, 2, k, k);
    a := StoreAll(now, a, r, 2, k, k);
    RepeatCounts(2 + k, Bid(r.bidder, r.nft, now));
  }

  /** The limit of three is kept in all runs exactly when no two requests of one bidder on one NFT overlap. */
  lemma ThreeBidsIff(now: real, k: nat)
    ensures k <= 1 <==>
      forall es, r, from :: InHour(Run(now, es, k).bids, r, from) <= MAX_BIDS_PER_HOUR_SPAM
  {
    if k <= 1 {
      forall es, r, from ensures InHour(Run(now, es, k).bids, r, from) <= MAX_BIDS_PER_HOUR_SPAM {
        HourBound(now, es, k, r, from);
      }
    } else {
      HourBoundIsReached(now, Request("bidder", "nft"), k);
    }
  }
}
