/** The budget policy: the advisory bid increment and the highest bid a team may place while
    keeping enough budget to fill its minimum squad (server.js, getIncrement and getTeamMaxBid). */
module BudgetPolicy {
  import opened AuctionTypes

  /** Suggested step for the next bid; advisory only, bid validation does not enforce it. */
  function Increment(cfg: Config, currentBid: int): (r: int)
    ensures r == cfg.highIncrement || r == cfg.lowIncrement
  {
    if currentBid < cfg.thresholdBid then cfg.highIncrement else cfg.lowIncrement
  }

  /** For every configuration: the high step strictly below the threshold, the low step from
      the threshold up. */
  lemma IncrementThreshold(cfg: Config, currentBid: int)
    ensures currentBid < cfg.thresholdBid ==> Increment(cfg, currentBid) == cfg.highIncrement
    ensures cfg.thresholdBid <= currentBid ==> Increment(cfg, currentBid) == cfg.lowIncrement
  {
  }

  /** With a step that is larger below the threshold, a higher bid never gets a larger step. */
  lemma IncrementNonIncreasing(cfg: Config, a: int, b: int)
    requires cfg.lowIncrement <= cfg.highIncrement
    requires a <= b
    ensures Increment(cfg, b) <= Increment(cfg, a)
  {
  }

  // ---------------------------------------------------------------------------------------
  // Sequence helpers

  predicate IsSorted(s: seq<int>) {
    forall i, j :: 0 <= i < j < |s| ==> s[i] <= s[j]
  }

  function Sum(s: seq<int>): int {
    if |s| == 0 then 0 else s[0] + Sum(s[1..])
  }

  /** The largest element of a non-empty sequence. */
  function MaxOf(s: seq<int>): (m: int)
    requires |s| > 0
    ensures m in s
    ensures forall x :: x in s ==> x <= m
  {
    if |s| == 1 then s[0]
    else
      var rest := MaxOf(s[1..]);
      assert forall x :: x in s ==> x == s[0] || x in s[1..];
      if s[0] >= rest then s[0] else rest
  }

  function Min(a: int, b: int): int { if a <= b then a else b }

  function Max(a: int, b: int): int { if a >= b then a else b }

  // ---------------------------------------------------------------------------------------
  // The numeric ascending sort of the pool

  function Insert(x: int, s: seq<int>): (r: seq<int>)
    requires IsSorted(s)
    ensures IsSorted(r)
    ensures |r| == |s| + 1
    ensures r[0] == if |s| == 0 then x else Min(x, s[0])
    ensures multiset(r) == multiset(s) + multiset{x}
  {
    if |s| == 0 then [x]
    else if x <= s[0] then ConsSorted(x, s); [x] + s
    else
      assert s == [s[0]] + s[1..];
      var tail := Insert(x, s[1..]);
      ConsSorted(s[0], tail);
      [s[0]] + tail
  }

  lemma ConsSorted(a: int, t: seq<int>)
    requires IsSorted(t)
    requires |t| > 0 ==> a <= t[0]
    ensures IsSorted([a] + t)
  {
    forall i, j | 0 <= i < j < |t| + 1 ensures ([a] + t)[i] <= ([a] + t)[j] {
      if i == 0 {
        assert t[0] <= t[j - 1];
      }
    }
  }

  /** The pool's `sort((a, b) => a - b)`: ascending, and a permutation of its input. */
  function SortAscending(s: seq<int>): (r: seq<int>)
    ensures IsSorted(r)
    ensures multiset(r) == multiset(s)
    ensures |r| == |s|
  {
    if |s| == 0 then []
    else
      assert s == [s[0]] + s[1..];
      Insert(s[0], SortAscending(s[1..]))
  }

  // ---------------------------------------------------------------------------------------
  // getTeamMaxBid

  /** Players the team must still buy after the one under auction: max(0, min - haveNow - 1). */
  function StillNeed(team: Team, minPlayersPerTeam: int): (n: nat)
    ensures n == 0 <==> |team.players| + 1 >= minPlayersPerTeam
    ensures n > 0 ==> n + |team.players| + 1 == minPlayersPerTeam
  {
    Max(0, minPlayersPerTeam - |team.players| - 1)
  }

  /** The player the reserve must not count: the one under auction, compared by id. */
  predicate Eligible(p: Player, currentPlayerId: Option<int>) {
    p.status == Status.Available && (currentPlayerId.None? || p.id != currentPlayerId.value)
  }

  /** Base prices of the available players other than the one under auction, in roster order. */
  function EligiblePrices(players: seq<Player>, currentPlayerId: Option<int>): (r: seq<int>)
    ensures |r| <= |players|
  {
    if |players| == 0 then []
    else
      var rest := EligiblePrices(players[1..], currentPlayerId);
      if Eligible(players[0], currentPlayerId) then [players[0].basePrice] + rest else rest
  }

  lemma {:induction false} EligiblePricesMembers(players: seq<Player>, currentPlayerId: Option<int>, x: int)
    ensures x in EligiblePrices(players, currentPlayerId) <==>
      exists i :: 0 <= i < |players| && Eligible(players[i], currentPlayerId) && players[i].basePrice == x
  {
    if |players| > 0 {
      EligiblePricesMembers(players[1..], currentPlayerId, x);
      assert forall i :: 1 <= i < |players| ==> players[i] == players[1..][i - 1];
      if x in EligiblePrices(players[1..], currentPlayerId) {
        var i :| 0 <= i < |players[1..]| && Eligible(players[1..][i], currentPlayerId) && players[1..][i].basePrice == x;
        assert players[i + 1] == players[1..][i];
      }
    }
  }

  /** The eligible players with base price `x`, by roster index. */
  ghost function EligibleWithPrice(players: seq<Player>, currentPlayerId: Option<int>, x: int): set<nat> {
    set i: nat | i < |players| && Eligible(players[i], currentPlayerId) && players[i].basePrice == x
  }

  /** The filter keeps one price per eligible player: each price occurs exactly as often as
      there are eligible players with that base price. */
  lemma {:induction false} EligiblePricesCount(players: seq<Player>, currentPlayerId: Option<int>, x: int)
    ensures multiset(EligiblePrices(players, currentPlayerId))[x] == |EligibleWithPrice(players, currentPlayerId, x)|
  {
    if |players| == 0 {
      assert EligibleWithPrice(players, currentPlayerId, x) == {};
    } else {
      var tail := players[1..];
      EligiblePricesCount(tail, currentPlayerId, x);
      EligibleWithPriceStep(players, currentPlayerId, x);
      var rest := EligiblePrices(tail, currentPlayerId);
      var head := if Eligible(players[0], currentPlayerId) then [players[0].basePrice] else [];
      assert EligiblePrices(players, currentPlayerId) == head + rest;
      assert multiset(head + rest)[x] == multiset(head)[x] + multiset(rest)[x];
    }
  }

  /** The eligible players with price `x` are those of the tail, one index up, plus the first
      player when it is eligible with that price. */
  lemma EligibleWithPriceStep(players: seq<Player>, currentPlayerId: Option<int>, x: int)
    requires |players| > 0
    ensures |EligibleWithPrice(players, currentPlayerId, x)| ==
      |EligibleWithPrice(players[1..], currentPlayerId, x)| +
      (if Eligible(players[0], currentPlayerId) && players[0].basePrice == x then 1 else 0)
  {
    var all := EligibleWithPrice(players, currentPlayerId, x);
    var tail := players[1..];
    var rest := EligibleWithPrice(tail, currentPlayerId, x);
    var shifted := Shift(rest);
    forall i | i in all - {0} ensures i in shifted {
      var k: nat := i - 1;
      assert tail[k] == players[i];
      assert k in rest;
      assert k + 1 == i;
    }
    forall i | i in shifted ensures i in all - {0} {
      assert tail[i - 1] == players[i];
    }
    assert all - {0} == shifted;
    ShiftSize(rest);
    if 0 in all {
      assert all == shifted + {0};
    } else {
      assert all == shifted;
    }
  }

  /** Every index moved one place up. */
  ghost function Shift(s: set<nat>): set<nat> {
    set i | i in s :: i + 1
  }

  lemma ShiftSize(s: set<nat>)
    ensures |Shift(s)| == |s|
    decreases |s|
  {
    if s != {} {
      var y :| y in s;
      var smaller := s - {y};
      ShiftSize(smaller);
      assert Shift(s) == Shift(smaller) + {y + 1} by {
        forall j | j in Shift(s) ensures j in Shift(smaller) + {y + 1} {
          var i :| i in s && j == i + 1;
          if i != y {
            assert i in smaller;
          }
        }
      }
      assert y + 1 !in Shift(smaller);
    }
  }

  /** The `stillNeed` cheapest prices, before padding (the `slice(0, stillNeed)`). */
  function Pool(players: seq<Player>, currentPlayerId: Option<int>, stillNeed: nat): seq<int> {
    var sorted := SortAscending(EligiblePrices(players, currentPlayerId));
    sorted[..Min(stillNeed, |sorted|)]
  }

  /** What the padding loop pushes: the last pooled value, or 0 for an empty pool. */
  function PadValue(pool: seq<int>): int {
    if |pool| == 0 then 0 else pool[|pool| - 1]
  }

  /** `n` copies of `v`. */
  function Repeat(v: int, n: nat): (r: seq<int>)
    ensures |r| == n
    ensures forall i :: 0 <= i < n ==> r[i] == v
  {
    if n == 0 then [] else Repeat(v, n - 1) + [v]
  }

  /** The pool padded to `n` entries by repeating the last pooled value. */
  function Padded(pool: seq<int>, n: nat): seq<int> {
    if |pool| >= n then pool else pool + Repeat(PadValue(pool), n - |pool|)
  }

  /** The budget kept back to fill the remaining minimum slots. */
  function Reserve(players: seq<Player>, currentPlayerId: Option<int>, stillNeed: nat): int {
    Sum(Padded(Pool(players, currentPlayerId, stillNeed), stillNeed))
  }

  /** getTeamMaxBid: the remaining budget when no further slot needs reserving, otherwise the
      remaining budget less the reserve, floored at 0. */
  function MaxBid(team: Team, players: seq<Player>, currentPlayerId: Option<int>, minPlayersPerTeam: int): int {
    var remaining := team.budget - team.spent;
    var stillNeed := StillNeed(team, minPlayersPerTeam);
    if stillNeed == 0 then remaining
    else Max(0, remaining - Reserve(players, currentPlayerId, stillNeed))
  }

  /** The padding loop of getTeamMaxBid. */
  method PadPool(pool: seq<int>, stillNeed: nat) returns (padded: seq<int>)
    ensures padded == Padded(pool, stillNeed)
  {
    padded := pool;
    while |padded| < stillNeed
      invariant |pool| <= |padded|
      invariant |pool| < stillNeed ==> |padded| <= stillNeed
      invariant |pool| >= stillNeed ==> |padded| == |pool|
      invariant padded == pool + Repeat(PadValue(pool), |padded| - |pool|)
      decreases stillNeed - |padded|
    {
      var next := if |padded| == 0 then 0 else padded[|padded| - 1];
      assert next == PadValue(pool);
      padded := padded + [next];
    }
    assert |pool| >= stillNeed ==> padded == pool + [];
  }

  /** getTeamMaxBid as the source computes it, step by step. */
  method TeamMaxBid(team: Team, players: seq<Player>, currentPlayerId: Option<int>, minPlayersPerTeam: int)
    returns (maxBid: int)
    ensures maxBid == MaxBid(team, players, currentPlayerId, minPlayersPerTeam)
  {
    var remaining := team.budget - team.spent;
    var haveNow := |team.players|;
    var stillNeed := Max(0, minPlayersPerTeam - haveNow - 1);
    if stillNeed == 0 {
      return remaining;
    }
    var sorted := SortAscending(EligiblePrices(players, currentPlayerId));
    var pool := sorted[..Min(stillNeed, |sorted|)];
    pool := PadPool(pool, stillNeed);
    var reserve := Sum(pool);
    maxBid := Max(0, remaining - reserve);
  }

  // ---------------------------------------------------------------------------------------
  // Properties of the policy

  /** With no slot left to reserve for, the whole remaining budget may be bid; otherwise the
      cap is the remaining budget less the reserve, and never negative. */
  lemma MaxBidCases(team: Team, players: seq<Player>, currentPlayerId: Option<int>, minPlayersPerTeam: int)
    ensures |team.players| + 1 >= minPlayersPerTeam ==>
      MaxBid(team, players, currentPlayerId, minPlayersPerTeam) == team.budget - team.spent
    ensures |team.players| + 1 < minPlayersPerTeam ==>
      var m := MaxBid(team, players, currentPlayerId, minPlayersPerTeam);
      var reserve := Reserve(players, currentPlayerId, StillNeed(team, minPlayersPerTeam));
      0 <= m && team.budget - team.spent - reserve <= m &&
      (m == 0 || m == team.budget - team.spent - reserve)
  {
  }

  lemma {:induction false} SumAppend(a: seq<int>, b: seq<int>)
    ensures Sum(a + b) == Sum(a) + Sum(b)
  {
    if |a| == 0 {
      assert a + b == b;
    } else {
      assert (a + b)[0] == a[0];
      assert (a + b)[1..] == a[1..] + b;
      SumAppend(a[1..], b);
    }
  }

  lemma {:induction false} SumRepeat(v: int, n: nat)
    ensures Sum(Repeat(v, n)) == n * v
  {
    if n > 0 {
      SumAppend(Repeat(v, n - 1), [v]);
      SumRepeat(v, n - 1);
    }
  }

  lemma {:induction false} SumInsert(x: int, s: seq<int>)
    requires IsSorted(s)
    ensures Sum(Insert(x, s)) == x + Sum(s)
  {
    if |s| > 0 && x > s[0] {
      SumInsert(x, s[1..]);
    }
  }

  /** Sorting does not change the total. */
  lemma {:induction false} SumSortAscending(s: seq<int>)
    ensures Sum(SortAscending(s)) == Sum(s)
  {
    if |s| > 0 {
      SumSortAscending(s[1..]);
      SumInsert(s[0], SortAscending(s[1..]));
    }
  }

  /** The last element of the ascending sort is the largest element. */
  lemma SortedLastIsMax(s: seq<int>)
    requires |s| > 0
    ensures SortAscending(s)[|s| - 1] == MaxOf(s)
  {
    LastOfSortedIsMax(SortAscending(s), s);
  }

  lemma LastOfSortedIsMax(r: seq<int>, s: seq<int>)
    requires IsSorted(r) && multiset(r) == multiset(s) && |s| > 0
    ensures |r| == |s| && r[|s| - 1] == MaxOf(s)
  {
    assert |r| == |multiset(r)| == |s|;
    var last := r[|s| - 1];
    var m := MaxOf(s);
    assert last in multiset(r);
    assert last in s;
    assert m in multiset(s);
    var k :| 0 <= k < |r| && r[k] == m;
    assert r[k] <= last;
  }

  /** The pool holds exactly min(stillNeed, #eligible) of the eligible prices, each at most as
      often as it occurs among them, and no price left out of it is cheaper than a pooled one:
      the pool is the `stillNeed` cheapest eligible prices. */
  lemma PoolIsCheapest(players: seq<Player>, currentPlayerId: Option<int>, stillNeed: nat)
    ensures |Pool(players, currentPlayerId, stillNeed)| == Min(stillNeed, |EligiblePrices(players, currentPlayerId)|)
    ensures multiset(Pool(players, currentPlayerId, stillNeed)) <= multiset(EligiblePrices(players, currentPlayerId))
    ensures forall x, y ::
      x in multiset(Pool(players, currentPlayerId, stillNeed)) &&
      y in multiset(EligiblePrices(players, currentPlayerId)) - multiset(Pool(players, currentPlayerId, stillNeed))
      ==> x <= y
  {
    var prices := EligiblePrices(players, currentPlayerId);
    CheapestPrefix(prices, Min(stillNeed, |prices|));
  }

  /** The first `k` elements of the ascending sort are `k` cheapest elements. */
  lemma CheapestPrefix(prices: seq<int>, k: nat)
    requires k <= |prices|
    ensures multiset(SortAscending(prices)[..k]) <= multiset(prices)
    ensures forall x, y ::
      x in multiset(SortAscending(prices)[..k]) && y in multiset(prices) - multiset(SortAscending(prices)[..k])
      ==> x <= y
  {
    SortedPrefixCheapest(SortAscending(prices), prices, k);
  }

  lemma SortedPrefixCheapest(sorted: seq<int>, prices: seq<int>, k: nat)
    requires IsSorted(sorted) && multiset(sorted) == multiset(prices)
    requires k <= |sorted|
    ensures multiset(sorted[..k]) <= multiset(prices)
    ensures forall x, y :: x in multiset(sorted[..k]) && y in multiset(prices) - multiset(sorted[..k]) ==> x <= y
  {
    var pool, rest := sorted[..k], sorted[k..];
    assert sorted == pool + rest;
    PrefixBelowRest(pool, rest);
    SplitMultiset(pool, rest, prices);
  }

  lemma SplitMultiset(pool: seq<int>, rest: seq<int>, whole: seq<int>)
    requires multiset(pool + rest) == multiset(whole)
    ensures multiset(pool) <= multiset(whole)
    ensures multiset(whole) - multiset(pool) == multiset(rest)
  {
    assert multiset(pool + rest) == multiset(pool) + multiset(rest);
  }

  /** In an ascending sequence nothing before a cut is above anything after it. */
  lemma PrefixBelowRest(pool: seq<int>, rest: seq<int>)
    requires IsSorted(pool + rest)
    ensures forall x, y :: x in pool && y in rest ==> x <= y
  {
    forall x, y | x in pool && y in rest ensures x <= y {
      var i :| 0 <= i < |pool| && pool[i] == x;
      var j :| 0 <= j < |rest| && rest[j] == y;
      assert (pool + rest)[i] == x;
      assert (pool + rest)[|pool| + j] == y;
    }
  }

  /** The padded pool always has exactly `stillNeed` entries, starts with the pool, and every
      padding entry is the last pooled price, or 0 when nothing is pooled. */
  lemma PaddedShape(pool: seq<int>, stillNeed: nat)
    requires |pool| <= stillNeed
    ensures |Padded(pool, stillNeed)| == stillNeed
    ensures Padded(pool, stillNeed)[..|pool|] == pool
    ensures forall i :: |pool| <= i < stillNeed ==> Padded(pool, stillNeed)[i] == PadValue(pool)
  {
    if |pool| < stillNeed {
      var pad := Repeat(PadValue(pool), stillNeed - |pool|);
      assert (pool + pad)[..|pool|] == pool;
    }
  }

  /** For a sorted pool the padding value is its largest price, not its cheapest. */
  lemma PadValueIsLargest(pool: seq<int>)
    requires IsSorted(pool) && |pool| > 0
    ensures PadValue(pool) == MaxOf(pool)
    ensures forall i :: 0 <= i < |pool| ==> pool[i] <= PadValue(pool)
  {
    var m := MaxOf(pool);
    var k :| 0 <= k < |pool| && pool[k] == m;
    var last := pool[|pool| - 1];
    assert pool[k] <= last;
    assert last in pool;
  }

  /** When at least `stillNeed` other players are available, no padding happens: the reserve is
      the sum of the pool, the `stillNeed` cheapest of them. */
  lemma ReserveWithoutPadding(players: seq<Player>, currentPlayerId: Option<int>, stillNeed: nat)
    requires stillNeed <= |EligiblePrices(players, currentPlayerId)|
    ensures Reserve(players, currentPlayerId, stillNeed) == Sum(Pool(players, currentPlayerId, stillNeed))
    ensures |Pool(players, currentPlayerId, stillNeed)| == stillNeed
  {
  }

  /** When fewer than `stillNeed` other players are available, the reserve is the sum of all of
      them plus one copy of the dearest for every missing player, or 0 when none is available. */
  lemma ReserveWithPadding(players: seq<Player>, currentPlayerId: Option<int>, stillNeed: nat)
    requires |EligiblePrices(players, currentPlayerId)| < stillNeed
    ensures var prices := EligiblePrices(players, currentPlayerId);
      Reserve(players, currentPlayerId, stillNeed) ==
        if |prices| == 0 then 0 else Sum(prices) + (stillNeed - |prices|) * MaxOf(prices)
  {
    var prices := EligiblePrices(players, currentPlayerId);
    var sorted := SortAscending(prices);
    assert Pool(players, currentPlayerId, stillNeed) == sorted;
    PaddedSum(sorted, stillNeed);
    SumSortAscending(prices);
    if |prices| > 0 {
      SortedLastIsMax(prices);
    }
  }

  /** Padding adds one copy of the pad value per missing entry. */
  lemma PaddedSum(pool: seq<int>, n: nat)
    requires |pool| < n
    ensures Sum(Padded(pool, n)) == Sum(pool) + (n - |pool|) * PadValue(pool)
  {
    SumAppend(pool, Repeat(PadValue(pool), n - |pool|));
    SumRepeat(PadValue(pool), n - |pool|);
  }

  predicate NonNegative(s: seq<int>) {
    forall i :: 0 <= i < |s| ==> s[i] >= 0
  }

  /** With non-negative base prices and a solvent team, the cap never exceeds what is left. */
  lemma MaxBidWithinRemaining(team: Team, players: seq<Player>, currentPlayerId: Option<int>, minPlayersPerTeam: int)
    requires forall i :: 0 <= i < |players| ==> players[i].basePrice >= 0
    requires team.spent <= team.budget
    ensures 0 <= MaxBid(team, players, currentPlayerId, minPlayersPerTeam) <= team.budget - team.spent
  {
    var stillNeed := StillNeed(team, minPlayersPerTeam);
    if stillNeed > 0 {
      ReserveNonNegative(players, currentPlayerId, stillNeed);
    }
  }

  lemma ReserveNonNegative(players: seq<Player>, currentPlayerId: Option<int>, stillNeed: nat)
    requires forall i :: 0 <= i < |players| ==> players[i].basePrice >= 0
    ensures Reserve(players, currentPlayerId, stillNeed) >= 0
  {
    var prices := EligiblePrices(players, currentPlayerId);
    EligiblePricesNonNegative(players, currentPlayerId);
    var sorted := SortAscending(prices);
    PermutationNonNegative(prices, sorted);
    var pool := Pool(players, currentPlayerId, stillNeed);
    assert NonNegative(pool);
    PaddedNonNegative(pool, stillNeed);
    NonNegativeSum(Padded(pool, stillNeed));
  }

  lemma {:induction false} EligiblePricesNonNegative(players: seq<Player>, currentPlayerId: Option<int>)
    requires forall i :: 0 <= i < |players| ==> players[i].basePrice >= 0
    ensures NonNegative(EligiblePrices(players, currentPlayerId))
  {
    if |players| > 0 {
      assert forall i :: 0 <= i < |players[1..]| ==> players[1..][i] == players[i + 1];
      EligiblePricesNonNegative(players[1..], currentPlayerId);
    }
  }

  lemma PermutationNonNegative(a: seq<int>, b: seq<int>)
    requires NonNegative(a) && multiset(a) == multiset(b)
    ensures NonNegative(b)
  {
    forall i | 0 <= i < |b| ensures b[i] >= 0 {
      assert b[i] in multiset(b);
      var j :| 0 <= j < |a| && a[j] == b[i];
    }
  }

  lemma PaddedNonNegative(pool: seq<int>, n: nat)
    requires NonNegative(pool)
    ensures NonNegative(Padded(pool, n))
  {
    if |pool| < n {
      PaddedShape(pool, n);
      var padded := Padded(pool, n);
      forall i | 0 <= i < n ensures padded[i] >= 0 {
        if i < |pool| {
          assert padded[i] == padded[..|pool|][i];
        }
      }
    }
  }

  lemma {:induction false} NonNegativeSum(s: seq<int>)
    requires NonNegative(s)
    ensures Sum(s) >= 0
  {
    if |s| > 0 {
      NonNegativeSum(s[1..]);
    }
  }

  // ---------------------------------------------------------------------------------------
  // Worked examples (league minimum of 10 players, as in the seed configuration)

  function Listed(id: int, basePrice: int): Player {
    Player(id, "", "", 0, basePrice, "", Status.Available, None, None)
  }

  function Squad(n: nat): seq<Player> {
    seq(n, i => Listed(100 + i, 100))
  }

  /** Nine on the roster: the player under auction would be the tenth, so no reserve is kept and
      the whole remaining 300 may be bid. */
  lemma ExampleNoReserve()
    ensures MaxBid(Team("T1", "", "", "", 8000, 7700, Squad(9)), [Listed(1, 100), Listed(2, 100)], Some(1), 10) == 300
  {
  }

  /** Seven on the roster: two more are needed after this one, the two cheapest other available
      players cost 100 each, so 200 of the remaining 300 is reserved. */
  lemma ExampleReserve()
    ensures MaxBid(Team("T1", "", "", "", 8000, 7700, Squad(7)), [Listed(1, 100), Listed(2, 100), Listed(3, 100)], Some(1), 10) == 100
  {
    var ps := [Listed(1, 100), Listed(2, 100), Listed(3, 100)];
    assert ps[1..][1..][1..] == [];
    assert EligiblePrices(ps[1..][1..], Some(1)) == [100];
    assert EligiblePrices(ps[1..], Some(1)) == [100, 100];
    assert EligiblePrices(ps, Some(1)) == [100, 100];
    assert SortAscending([100]) == [100];
    assert [100, 100][1..] == [100];
    assert SortAscending([100, 100]) == [100, 100];
    assert Pool(ps, Some(1), 2) == [100, 100];
    assert Sum([100, 100]) == 200;
  }

  /** Padding repeats the dearest pooled price: three slots to reserve for, only prices 150 and
      100 available, so the reserve is 100 + 150 + 150 = 400 (repeating the cheapest would give 350). */
  lemma ExamplePaddingRepeatsDearest()
    ensures Reserve([Listed(1, 150), Listed(2, 100)], None, 3) == 400
    ensures MaxBid(Team("T1", "", "", "", 1000, 0, Squad(6)), [Listed(1, 150), Listed(2, 100)], None, 10) == 600
  {
    var ps := [Listed(1, 150), Listed(2, 100)];
    assert ps[1..][1..] == [];
    assert EligiblePrices(ps[1..], None) == [100];
    assert EligiblePrices(ps, None) == [150, 100];
    assert SortAscending([100]) == [100];
    assert [150, 100][1..] == [100];
    assert Insert(150, [100]) == [100, 150];
    assert SortAscending([150, 100]) == [100, 150];
    assert Pool(ps, None, 3) == [100, 150];
    assert Padded([100, 150], 3) == [100, 150, 150];
    assert Sum([100, 150, 150]) == 400;
  }
}
