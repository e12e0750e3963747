/** The server's shared mutable state and its socket handlers, updated in place step by step
    as server.js does. Every handler is proved to leave exactly the state that the matching
    AuctionEngine transition computes from the state before it, and to keep the invariant. */
module AuctionServer {
  import opened AuctionTypes
  import opened BudgetPolicy
  import opened AuctionEngine
  import AuctionProperties

  class Auction {
    var auctionState: AuctionState
    var previousBidSnapshot: Option<BidSnapshot>
    var players: seq<Player>
    var teams: seq<Team>
    const config: Config

    /** The fields as one value. */
    ghost function Model(): World
      reads this
    {
      World(auctionState, previousBidSnapshot, players, teams)
    }

    ghost predicate Valid()
      reads this
    {
      Inv(Model())
    }

    /** Process start: the seed roster and teams, an idle auction and no snapshot. */
    constructor (players: seq<Player>, teams: seq<Team>, config: Config)
      requires forall i, j :: 0 <= i < j < |players| ==> players[i].id != players[j].id
      requires forall i :: 0 <= i < |players| && players[i].status == Status.Available ==>
        players[i].soldTo.None? && players[i].soldPrice.None?
      requires forall i :: 0 <= i < |teams| ==> teams[i].spent == 0 && 0 <= teams[i].budget
      ensures Valid()
      ensures Model() == InitialWorld(players, teams) && this.config == config
    {
      this.auctionState := AuctionState(Phase.Idle, None, 0, None, [], []);
      this.previousBidSnapshot := None;
      this.players := players;
      this.teams := teams;
      this.config := config;
      new;
      AuctionProperties.InitialSolvent(players, teams);
    }

    /** admin:startAuction. */
    method StartAuction(playerId: int)
      requires Valid()
      modifies this
      ensures Valid()
      ensures Model() == AuctionEngine.StartAuction(old(Model()), playerId)
    {
      ghost var w := Model();
      var found := FindPlayer(players, playerId);
      if found.None? || players[found.value].status != Status.Available {
        return;
      }
      var player := players[found.value];
      previousBidSnapshot := None;
      auctionState := AuctionState(Phase.Live, found, player.basePrice, None, [], auctionState.soldPlayers);
      AuctionProperties.StartAuctionSolvent(w, playerId);
    }

    /** placeBid: the outcome is what the bidder is told (nothing, a reason, or acceptance). */
    method PlaceBid(teamId: string, amount: int, ts: int) returns (outcome: BidOutcome)
      requires Valid()
      modifies this
      ensures Valid()
      ensures BidResult(Model(), outcome) == AuctionEngine.PlaceBid(old(Model()), config, teamId, amount, ts)
    {
      ghost var w := Model();
      if auctionState.phase != Phase.Live {
        return Ignored;
      }
      var found := FindTeam(teams, teamId);
      if found.None? {
        return Ignored;
      }
      var team := teams[found.value];
      var remaining := team.budget - team.spent;
      var currentId := if auctionState.currentPlayer.Some? then Some(players[auctionState.currentPlayer.value].id) else None;
      var maxBid := TeamMaxBid(team, players, currentId, config.minPlayersPerTeam);
      var basePrice := if auctionState.currentPlayer.Some? then players[auctionState.currentPlayer.value].basePrice else 0;
      if amount < basePrice {
        return Rejected(BelowBasePrice);
      }
      if amount > remaining {
        return Rejected(InsufficientBudget);
      }
      if amount > maxBid {
        return Rejected(ReserveViolation);
      }
      if amount <= auctionState.currentBid {
        return Rejected(StaleBid);
      }
      previousBidSnapshot := Some(BidSnapshot(auctionState.currentBid, auctionState.leadingTeam, auctionState.bidHistory));
      auctionState := auctionState.(currentBid := amount);
      auctionState := auctionState.(leadingTeam := Some(TeamRef(team.id, team.name, team.color, team.logo)));
      auctionState := auctionState.(bidHistory := [BidEntry(team.name, team.color, team.logo, amount, ts)] + auctionState.bidHistory);
      outcome := Accepted;
      AuctionProperties.PlaceBidSolvent(w, config, teamId, amount, ts);
    }

    /** admin:undoBid. */
    method UndoBid()
      requires Valid()
      modifies this
      ensures Valid()
      ensures Model() == AuctionEngine.UndoBid(old(Model()))
    {
      ghost var w := Model();
      if previousBidSnapshot.None? || auctionState.phase != Phase.Live {
        return;
      }
      var snapshot := previousBidSnapshot.value;
      auctionState := auctionState.(currentBid := snapshot.currentBid);
      auctionState := auctionState.(leadingTeam := snapshot.leadingTeam);
      auctionState := auctionState.(bidHistory := snapshot.bidHistory);
      previousBidSnapshot := None;
      AuctionProperties.UndoBidSolvent(w);
    }

    /** admin:sold. */
    method MarkSold()
      requires Valid()
      modifies this
      ensures Valid()
      ensures Model() == AuctionEngine.MarkSold(old(Model()))
    {
      ghost var w := Model();
      if auctionState.phase != Phase.Live || auctionState.leadingTeam.None? {
        return;
      }
      var i := auctionState.currentPlayer.value;
      var t := FindTeam(teams, auctionState.leadingTeam.value.id).value;
      var team := teams[t];
      var price := auctionState.currentBid;

      var player := players[i].(status := Status.Sold, soldTo := Some(team.name), soldPrice := Some(price));
      players := players[i := player];
      teams := teams[t := team.(spent := team.spent + price, players := team.players + [player])];
      auctionState := auctionState.(phase := Phase.Sold,
                                    soldPlayers := auctionState.soldPlayers + [SaleRecord(i, team.name, team.color, team.logo, price)]);
      previousBidSnapshot := None;
      AuctionProperties.MarkSoldSolvent(w);
    }

    /** admin:unsold. */
    method MarkUnsold()
      requires Valid()
      modifies this
      ensures Valid()
      ensures Model() == AuctionEngine.MarkUnsold(old(Model()))
    {
      ghost var w := Model();
      if auctionState.currentPlayer.None? {
        return;
      }
      var found := FindPlayer(players, players[auctionState.currentPlayer.value].id);
      if found.Some? {
        players := players[found.value := players[found.value].(status := Status.Unsold)];
      }
      auctionState := auctionState.(phase := Phase.Unsold);
      previousBidSnapshot := None;
      AuctionProperties.MarkUnsoldSolvent(w);
    }

    /** admin:idle. */
    method ReturnToIdle()
      requires Valid()
      modifies this
      ensures Valid()
      ensures Model() == AuctionEngine.ReturnToIdle(old(Model()))
    {
      ghost var w := Model();
      auctionState := auctionState.(phase := Phase.Idle, currentPlayer := None, currentBid := 0,
                                    leadingTeam := None, bidHistory := []);
      previousBidSnapshot := None;
      AuctionProperties.ReturnToIdleSolvent(w);
    }

    /** The team pass of admin:resetAllTeams: each team in turn has spent nothing and owns nobody. */
    method ResetTeamsPass()
      modifies this
      ensures teams == ResetTeams(old(teams))
      ensures players == old(players) && auctionState == old(auctionState)
      ensures previousBidSnapshot == old(previousBidSnapshot)
    {
      ghost var before := teams;
      var i := 0;
      while i < |teams|
        invariant 0 <= i <= |teams| == |before|
        invariant forall k :: 0 <= k < i ==> teams[k] == ResetTeam(before[k])
        invariant forall k :: i <= k < |teams| ==> teams[k] == before[k]
        invariant players == old(players) && auctionState == old(auctionState)
        invariant previousBidSnapshot == old(previousBidSnapshot)
      {
        teams := teams[i := teams[i].(spent := 0, players := [])];
        i := i + 1;
      }
    }

    /** The player pass of admin:resetAllTeams: each sold or unsold player in turn is available
        again without its sale fields. */
    method ResetPlayersPass()
      modifies this
      ensures players == ResetPlayers(old(players))
      ensures teams == old(teams) && auctionState == old(auctionState)
      ensures previousBidSnapshot == old(previousBidSnapshot)
    {
      ghost var before := players;
      var i := 0;
      while i < |players|
        invariant 0 <= i <= |players| == |before|
        invariant forall k :: 0 <= k < i ==> players[k] == ResetPlayer(before[k])
        invariant forall k :: i <= k < |players| ==> players[k] == before[k]
        invariant teams == old(teams) && auctionState == old(auctionState)
        invariant previousBidSnapshot == old(previousBidSnapshot)
      {
        if players[i].status == Status.Sold || players[i].status == Status.Unsold {
          players := players[i := players[i].(status := Status.Available, soldTo := None, soldPrice := None)];
        }
        i := i + 1;
      }
    }

    /** admin:resetAllTeams: one pass over the teams, one over the players, then a fresh state. */
    method ResetAllTeams()
      requires Valid()
      modifies this
      ensures Valid()
      ensures Model() == AuctionEngine.ResetAllTeams(old(Model()))
    {
      ghost var w := Model();
      ResetTeamsPass();
      ResetPlayersPass();
      auctionState := AuctionState(Phase.Idle, None, 0, None, [], []);
      previousBidSnapshot := None;
      AuctionProperties.ResetAllTeamsSolvent(w);
    }
  }
}
