/** What the handlers of the auction engine promise, one lemma per promise, and the safety
    invariant `spent <= budget` across any sequence of events. */
module AuctionProperties {
  import opened AuctionTypes
  import opened BudgetPolicy
  import opened AuctionEngine

  // ---------------------------------------------------------------------------------------
  // Starting a round

  /** A missing or not-available player leaves everything as it was; otherwise a fresh live round
      opens at the base price, with no leader, no history and no snapshot, and the ledger carries over. */
  lemma StartAuctionSpec(w: World, playerId: int)
    requires WellFormed(w)
    ensures var r := StartAuction(w, playerId);
      var found := FindPlayer(w.players, playerId);
      if found.None? || w.players[found.value].status != Status.Available then r == w
      else
        && r.state.phase == Phase.Live
        && r.state.currentPlayer == found
        && w.players[found.value].id == playerId
        && r.state.currentBid == w.players[found.value].basePrice
        && r.state.leadingTeam.None?
        && r.state.bidHistory == []
        && r.snapshot.None?
        && r.state.soldPlayers == w.state.soldPlayers
        && r.players == w.players && r.teams == w.teams
  {
  }

  /** Starting a round is not guarded by the phase: it replaces a live round, dropping its
      leading bid without charging anybody. */
  lemma StartAbortsLiveRound(w: World, playerId: int)
    requires WellFormed(w)
    requires w.state.phase == Phase.Live
    requires FindPlayer(w.players, playerId).Some?
    requires w.players[FindPlayer(w.players, playerId).value].status == Status.Available
    ensures StartAuction(w, playerId).state.leadingTeam.None?
    ensures StartAuction(w, playerId).teams == w.teams
  {
  }

  // ---------------------------------------------------------------------------------------
  // Bids

  /** Outside a live round, or for a team id that resolves to no team, a bid is ignored. */
  lemma PlaceBidIgnored(w: World, cfg: Config, teamId: string, amount: int, ts: int)
    requires WellFormed(w)
    requires w.state.phase != Phase.Live || FindTeam(w.teams, teamId).None?
    ensures PlaceBid(w, cfg, teamId, amount, ts) == BidResult(w, Ignored)
  {
  }

  /** In a live round, for a known team, the reason given is the first failing check in the order
      base price, remaining budget, reserve, stale bid; a bid is accepted exactly when all pass;
      and a refused bid changes nothing at all. */
  lemma PlaceBidChecks(w: World, cfg: Config, teamId: string, amount: int, ts: int)
    requires WellFormed(w)
    requires w.state.phase == Phase.Live && FindTeam(w.teams, teamId).Some?
    ensures var r := PlaceBid(w, cfg, teamId, amount, ts);
      var team := w.teams[FindTeam(w.teams, teamId).value];
      var remaining := team.budget - team.spent;
      var maxBid := MaxBid(team, w.players, CurrentPlayerId(w), cfg.minPlayersPerTeam);
      var base := w.players[w.state.currentPlayer.value].basePrice;
      && (r.outcome == Rejected(BelowBasePrice) <==> amount < base)
      && (r.outcome == Rejected(InsufficientBudget) <==> base <= amount && amount > remaining)
      && (r.outcome == Rejected(ReserveViolation) <==> base <= amount <= remaining && amount > maxBid)
      && (r.outcome == Rejected(StaleBid) <==>
            base <= amount <= remaining && amount <= maxBid && amount <= w.state.currentBid)
      && (r.outcome == Accepted <==>
            base <= amount <= remaining && amount <= maxBid && w.state.currentBid < amount)
      && (r.outcome != Accepted ==> r.world == w)
  {
  }

  /** An accepted bid snapshots exactly the overwritten {currentBid, leadingTeam, bidHistory},
      raises the current bid to the amount, makes the bidder the leader, prepends its entry to the
      history, and changes nothing else. */
  lemma PlaceBidAccepted(w: World, cfg: Config, teamId: string, amount: int, ts: int)
    requires WellFormed(w)
    requires PlaceBid(w, cfg, teamId, amount, ts).outcome == Accepted
    ensures var r := PlaceBid(w, cfg, teamId, amount, ts).world;
      var team := w.teams[FindTeam(w.teams, teamId).value];
      && w.state.phase == Phase.Live
      && team.id == teamId
      && r.snapshot == Some(BidSnapshot(w.state.currentBid, w.state.leadingTeam, w.state.bidHistory))
      && r.state.currentBid == amount > w.state.currentBid
      && r.state.leadingTeam == Some(TeamRef(team.id, team.name, team.color, team.logo))
      && r.state.bidHistory == [BidEntry(team.name, team.color, team.logo, amount, ts)] + w.state.bidHistory
      && r.state.phase == w.state.phase && r.state.currentPlayer == w.state.currentPlayer
      && r.state.soldPlayers == w.state.soldPlayers
      && r.players == w.players && r.teams == w.teams
  {
  }

  /** A bid that does not exceed the current bid is never accepted (it is refused as stale when it
      passes the three earlier checks, and for an earlier reason otherwise). */
  lemma LowBidNeverAccepted(w: World, cfg: Config, teamId: string, amount: int, ts: int)
    requires WellFormed(w)
    requires amount <= w.state.currentBid
    ensures PlaceBid(w, cfg, teamId, amount, ts).outcome != Accepted
    ensures PlaceBid(w, cfg, teamId, amount, ts).world == w
  {
  }

  /** A bid accepted right after a round opens strictly exceeds the player's base price. */
  lemma FirstBidAboveBasePrice(w: World, playerId: int, cfg: Config, teamId: string, amount: int, ts: int)
    requires WellFormed(w)
    requires FindPlayer(w.players, playerId).Some?
    requires w.players[FindPlayer(w.players, playerId).value].status == Status.Available
    requires PlaceBid(StartAuction(w, playerId), cfg, teamId, amount, ts).outcome == Accepted
    ensures amount > w.players[FindPlayer(w.players, playerId).value].basePrice
  {
    PlaceBidAccepted(StartAuction(w, playerId), cfg, teamId, amount, ts);
  }

  // ---------------------------------------------------------------------------------------
  // Undo

  /** In a live round with a snapshot, undo restores the snapshot's three fields and discards
      it; otherwise it changes nothing. */
  lemma UndoBidSpec(w: World)
    requires WellFormed(w)
    ensures var r := UndoBid(w);
      if w.state.phase == Phase.Live && w.snapshot.Some? then
        && r.state == w.state.(currentBid := w.snapshot.value.currentBid,
                               leadingTeam := w.snapshot.value.leadingTeam,
                               bidHistory := w.snapshot.value.bidHistory)
        && r.snapshot.None?
        && r.players == w.players && r.teams == w.teams
      else r == w
  {
  }

  /** Undo inverts the last accepted bid: the resulting world is the one before the bid, with
      no snapshot left. */
  lemma UndoInvertsBid(w: World, cfg: Config, teamId: string, amount: int, ts: int)
    requires WellFormed(w)
    requires PlaceBid(w, cfg, teamId, amount, ts).outcome == Accepted
    ensures UndoBid(PlaceBid(w, cfg, teamId, amount, ts).world) == w.(snapshot := None)
  {
    PlaceBidAccepted(w, cfg, teamId, amount, ts);
  }

  /** Undo is single-level: a second undo with no bid in between changes nothing. */
  lemma UndoIsSingleLevel(w: World)
    requires WellFormed(w)
    ensures UndoBid(UndoBid(w)) == UndoBid(w)
  {
  }

  /** Two accepted bids and one undo: the state is the one right after the first bid (its amount,
      its leader, its history), and a further undo is a no-op. */
  lemma TwoBidsThenUndo(w: World, cfg: Config, b1: Event, b2: Event)
    requires WellFormed(w)
    requires b1.Bid? && b2.Bid?
    requires PlaceBid(w, cfg, b1.teamId, b1.amount, b1.ts).outcome == Accepted
    requires var w1 := PlaceBid(w, cfg, b1.teamId, b1.amount, b1.ts).world;
      PlaceBid(w1, cfg, b2.teamId, b2.amount, b2.ts).outcome == Accepted
    ensures var w1 := PlaceBid(w, cfg, b1.teamId, b1.amount, b1.ts).world;
      var w3 := UndoBid(PlaceBid(w1, cfg, b2.teamId, b2.amount, b2.ts).world);
      && w3.state == w1.state
      && w3.state.currentBid == b1.amount
      && w3.state.leadingTeam.Some? && w3.state.leadingTeam.value.id == b1.teamId
      && UndoBid(w3) == w3
  {
    var w1 := PlaceBid(w, cfg, b1.teamId, b1.amount, b1.ts).world;
    PlaceBidAccepted(w, cfg, b1.teamId, b1.amount, b1.ts);
    UndoInvertsBid(w1, cfg, b2.teamId, b2.amount, b2.ts);
  }

  /** After a sale, an unsold mark, a return to idle or a full reset, undo is a no-op. */
  lemma SnapshotClearedByRoundEnd(w: World)
    requires WellFormed(w)
    ensures UndoBid(MarkSold(w)) == MarkSold(w)
    ensures UndoBid(MarkUnsold(w)) == MarkUnsold(w)
    ensures UndoBid(ReturnToIdle(w)) == ReturnToIdle(w)
    ensures UndoBid(ResetAllTeams(w)) == ResetAllTeams(w)
  {
  }

  // ---------------------------------------------------------------------------------------
  // Sale, unsold, idle

  /** A sale needs a live round with a leader. The leader's team is charged exactly the current
      bid and receives one copy of the sold player, its other fields kept; the player is marked sold
      to that team at that price; the phase becomes sold and the ledger grows by one record, the
      rest of the state (current player, bid, leader, history) kept; the snapshot is gone; no other
      team or player changes. */
  lemma MarkSoldSpec(w: World)
    requires WellFormed(w)
    ensures w.state.phase != Phase.Live || w.state.leadingTeam.None? ==> MarkSold(w) == w
    ensures w.state.phase == Phase.Live && w.state.leadingTeam.Some? ==>
      var r := MarkSold(w);
      var i := w.state.currentPlayer.value;
      var t := FindTeam(w.teams, w.state.leadingTeam.value.id).value;
      var team := w.teams[t];
      var price := w.state.currentBid;
      && |r.teams| == |w.teams| && |r.players| == |w.players|
      && r.teams[t] == team.(spent := team.spent + price, players := team.players + [r.players[i]])
      && r.players[i].status == Status.Sold
      && r.players[i].soldTo == Some(team.name) && r.players[i].soldPrice == Some(price)
      && r.players[i] == w.players[i].(status := Status.Sold, soldTo := Some(team.name), soldPrice := Some(price))
      && (forall k :: 0 <= k < |w.teams| && k != t ==> r.teams[k] == w.teams[k])
      && (forall k :: 0 <= k < |w.players| && k != i ==> r.players[k] == w.players[k])
      && r.state == w.state.(phase := Phase.Sold,
                             soldPlayers := w.state.soldPlayers + [SaleRecord(i, team.name, team.color, team.logo, price)])
      && r.snapshot.None?
  {
  }

  /** A round is sold at most once: a second sale, and any bid, after a sale change nothing. */
  lemma SoldOncePerRound(w: World, cfg: Config, teamId: string, amount: int, ts: int)
    requires WellFormed(w)
    ensures MarkSold(MarkSold(w)) == MarkSold(w)
    ensures w.state.phase == Phase.Live && w.state.leadingTeam.Some? ==>
      PlaceBid(MarkSold(w), cfg, teamId, amount, ts) == BidResult(MarkSold(w), Ignored)
  {
  }

  /** Marking unsold needs only a current player: that player's status becomes unsold, its sale
      fields stay as they were, the phase becomes unsold, the snapshot is gone, and the teams, the
      ledger, the current bid and the leader are untouched. */
  lemma MarkUnsoldSpec(w: World)
    requires WellFormed(w)
    ensures w.state.currentPlayer.None? ==> MarkUnsold(w) == w
    ensures w.state.currentPlayer.Some? ==>
      var r := MarkUnsold(w);
      var i := w.state.currentPlayer.value;
      && r.players == w.players[i := w.players[i].(status := Status.Unsold)]
      && r.state == w.state.(phase := Phase.Unsold)
      && r.snapshot.None?
      && r.teams == w.teams
  {
    if w.state.currentPlayer.Some? {
      var i := w.state.currentPlayer.value;
      var found := FindPlayer(w.players, w.players[i].id);
      assert found == Some(i);
    }
  }

  /** Unsold is accepted after a sale too: the player's status is overwritten with unsold while
      the buying team keeps both the player copy and the spend, and the ledger keeps the sale. */
  lemma UnsoldAfterSold(w: World)
    requires WellFormed(w)
    requires w.state.phase == Phase.Live && w.state.leadingTeam.Some?
    ensures var sold := MarkSold(w);
      var r := MarkUnsold(sold);
      var i := w.state.currentPlayer.value;
      var t := FindTeam(w.teams, w.state.leadingTeam.value.id).value;
      && r.players[i].status == Status.Unsold
      && r.players[i].soldPrice == Some(w.state.currentBid)
      && r.teams == sold.teams
      && r.teams[t].spent == w.teams[t].spent + w.state.currentBid
      && r.teams[t].players == w.teams[t].players + [sold.players[i]]
      && r.state.soldPlayers == sold.state.soldPlayers
      && r.state.phase == Phase.Unsold
  {
    MarkSoldSpec(w);
    MarkUnsoldSpec(MarkSold(w));
  }

  /** Return to idle has no guard: it clears the round and the snapshot from any phase and keeps
      the ledger, the roster and the teams. */
  lemma ReturnToIdleSpec(w: World)
    requires WellFormed(w)
    ensures var r := ReturnToIdle(w);
      && r.state == AuctionState(Phase.Idle, None, 0, None, [], w.state.soldPlayers)
      && r.snapshot.None?
      && r.players == w.players && r.teams == w.teams
  {
  }

  /** The full reset: every team has spent nothing and owns nobody; every sold or unsold player is
      available again without sale fields, every other field of every player is kept and
      available players are untouched; the state is a fresh idle one with an empty ledger. */
  lemma ResetAllTeamsSpec(w: World)
    requires WellFormed(w)
    ensures var r := ResetAllTeams(w);
      && |r.teams| == |w.teams| && |r.players| == |w.players|
      && (forall k :: 0 <= k < |r.teams| ==>
            r.teams[k].spent == 0 && r.teams[k].players == [] &&
            r.teams[k] == w.teams[k].(spent := 0, players := []))
      && (forall k :: 0 <= k < |r.players| ==>
            r.players[k].status == Status.Available &&
            r.players[k].soldTo.None? && r.players[k].soldPrice.None? &&
            r.players[k] == w.players[k].(status := Status.Available, soldTo := None, soldPrice := None))
      && (forall k :: 0 <= k < |r.players| && w.players[k].status == Status.Available ==>
            r.players[k] == w.players[k])
      && r.state == AuctionState(Phase.Idle, None, 0, None, [], [])
      && r.snapshot.None?
  {
  }

  // ---------------------------------------------------------------------------------------
  // The safety invariant

  lemma StartAuctionSolvent(w: World, playerId: int)
    requires Inv(w)
    ensures Inv(StartAuction(w, playerId))
  {
  }

  lemma PlaceBidSolvent(w: World, cfg: Config, teamId: string, amount: int, ts: int)
    requires Inv(w)
    ensures Inv(PlaceBid(w, cfg, teamId, amount, ts).world)
  {
    var r := PlaceBid(w, cfg, teamId, amount, ts);
    if r.outcome == Accepted {
      var t := FindTeam(w.teams, teamId).value;
      assert FindTeam(r.world.teams, teamId) == Some(t);
    }
  }

  lemma UndoBidSolvent(w: World)
    requires Inv(w)
    ensures Inv(UndoBid(w))
  {
  }

  lemma MarkSoldSolvent(w: World)
    requires Inv(w)
    ensures Inv(MarkSold(w))
  {
    if w.state.phase == Phase.Live && w.state.leadingTeam.Some? {
      MarkSoldSpec(w);
      var r := MarkSold(w);
      var t := FindTeam(w.teams, w.state.leadingTeam.value.id).value;
      assert r.teams[t].spent <= r.teams[t].budget;
      forall k | 0 <= k < |r.teams| ensures 0 <= r.teams[k].budget && r.teams[k].spent <= r.teams[k].budget {
        if k != t {
          assert r.teams[k] == w.teams[k];
        }
      }
    }
  }

  lemma MarkUnsoldSolvent(w: World)
    requires Inv(w)
    ensures Inv(MarkUnsold(w))
  {
  }

  lemma ReturnToIdleSolvent(w: World)
    requires Inv(w)
    ensures Inv(ReturnToIdle(w))
  {
  }

  lemma ResetAllTeamsSolvent(w: World)
    requires Inv(w)
    ensures Inv(ResetAllTeams(w))
  {
  }

  /** Every handler keeps the safety invariant. */
  lemma ApplySolvent(w: World, cfg: Config, e: Event)
    requires Inv(w)
    ensures Inv(Apply(w, cfg, e))
  {
    match e
    case Start(id) => StartAuctionSolvent(w, id);
    case Bid(teamId, amount, ts) => PlaceBidSolvent(w, cfg, teamId, amount, ts);
    case Undo => UndoBidSolvent(w);
    case Sell => MarkSoldSolvent(w);
    case Unsell => MarkUnsoldSolvent(w);
    case ToIdle => ReturnToIdleSolvent(w);
    case ResetAll => ResetAllTeamsSolvent(w);
  }

  /** Any sequence of events keeps the safety invariant. */
  lemma {:induction false} RunSolvent(w: World, cfg: Config, events: seq<Event>)
    requires Inv(w)
    ensures Inv(Run(w, cfg, events))
    decreases |events|
  {
    if |events| > 0 {
      ApplySolvent(w, cfg, events[0]);
      RunSolvent(Apply(w, cfg, events[0]), cfg, events[1..]);
    }
  }

  /** A roster with unique ids and no sale fields on available players, and teams that start with
      nothing spent, give an initial state that satisfies the invariant. */
  lemma InitialSolvent(players: seq<Player>, teams: seq<Team>)
    requires forall i, j :: 0 <= i < j < |players| ==> players[i].id != players[j].id
    requires forall i :: 0 <= i < |players| && players[i].status == Status.Available ==>
      players[i].soldTo.None? && players[i].soldPrice.None?
    requires forall i :: 0 <= i < |teams| ==> teams[i].spent == 0 && 0 <= teams[i].budget
    ensures Inv(InitialWorld(players, teams))
  {
  }

  /** Across any sequence of events from the initial state every team keeps spent <= budget, and
      while a round is live its leading team could pay the current bid on top of what it has spent. */
  lemma SpentNeverExceedsBudget(players: seq<Player>, teams: seq<Team>, cfg: Config, events: seq<Event>)
    requires forall i, j :: 0 <= i < j < |players| ==> players[i].id != players[j].id
    requires forall i :: 0 <= i < |players| && players[i].status == Status.Available ==>
      players[i].soldTo.None? && players[i].soldPrice.None?
    requires forall i :: 0 <= i < |teams| ==> teams[i].spent == 0 && 0 <= teams[i].budget
    ensures var r := Run(InitialWorld(players, teams), cfg, events);
      && (forall k :: 0 <= k < |r.teams| ==> r.teams[k].spent <= r.teams[k].budget)
      && (r.state.phase == Phase.Live && r.state.leadingTeam.Some? ==>
            var t := r.teams[FindTeam(r.teams, r.state.leadingTeam.value.id).value];
            t.spent + r.state.currentBid <= t.budget)
  {
    InitialSolvent(players, teams);
    RunSolvent(InitialWorld(players, teams), cfg, events);
  }
}
