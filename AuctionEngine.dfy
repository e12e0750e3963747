/** The auction state machine as transitions on a value: the auction state, the undo snapshot,
    the roster and the teams. Each function is one socket handler of server.js; the lemmas state
    what the handlers promise and the safety invariant they keep together. */
module AuctionEngine {
  import opened AuctionTypes
  import opened BudgetPolicy

  /** Everything the handlers read or write. */
  datatype World = World(state: AuctionState, snapshot: Option<BidSnapshot>, players: seq<Player>, teams: seq<Team>)

  /** Why a bid was refused (the four bidError messages). */
  datatype Rejection = BelowBasePrice | InsufficientBudget | ReserveViolation | StaleBid

  /** A bid is silently ignored, refused with a reason to the bidder, or accepted. */
  datatype BidOutcome = Ignored | Rejected(reason: Rejection) | Accepted

  datatype BidResult = BidResult(world: World, outcome: BidOutcome)

  /** The inbound events of the engine. */
  datatype Event =
    | Start(playerId: int)
    | Bid(teamId: string, amount: int, ts: int)
    | Undo
    | Sell
    | Unsell
    | ToIdle
    | ResetAll

  // ---------------------------------------------------------------------------------------
  // Invariants

  predicate LeaderResolves(teams: seq<Team>, leader: Option<TeamRef>) {
    leader.Some? ==> FindTeam(teams, leader.value.id).Some?
  }

  /** The shape every reachable world has: indices in range, a live round on an available
      player, a snapshot only in a live round that has a leader, leaders that name a team,
      unique player ids and no sale fields on an available player. */
  predicate WellFormed(w: World) {
    var st := w.state;
    && (st.phase == Phase.Idle <==> st.currentPlayer.None?)
    && (st.currentPlayer.Some? ==> st.currentPlayer.value < |w.players|)
    && (st.phase == Phase.Live ==> w.players[st.currentPlayer.value].status == Status.Available)
    && (w.snapshot.Some? ==> st.phase == Phase.Live && st.leadingTeam.Some?)
    && LeaderResolves(w.teams, st.leadingTeam)
    && (w.snapshot.Some? ==> LeaderResolves(w.teams, w.snapshot.value.leadingTeam))
    && (forall k :: 0 <= k < |st.soldPlayers| ==> st.soldPlayers[k].player < |w.players|)
    && (forall i, j :: 0 <= i < j < |w.players| ==> w.players[i].id != w.players[j].id)
    && (forall i :: 0 <= i < |w.players| && w.players[i].status == Status.Available ==>
          w.players[i].soldTo.None? && w.players[i].soldPrice.None?)
  }

  /** The leader, if any, could still pay `bid` out of its budget. */
  predicate Affordable(teams: seq<Team>, leader: Option<TeamRef>, bid: int)
    requires LeaderResolves(teams, leader)
  {
    leader.Some? ==>
      var t := teams[FindTeam(teams, leader.value.id).value];
      t.spent + bid <= t.budget
  }

  /** The safety invariant: no team has spent more than its budget, and both the live leading bid
      and the bid the undo snapshot would restore are affordable by their team. */
  predicate Solvent(w: World)
    requires WellFormed(w)
  {
    && (forall i :: 0 <= i < |w.teams| ==> 0 <= w.teams[i].budget && w.teams[i].spent <= w.teams[i].budget)
    && (w.state.phase == Phase.Live ==> Affordable(w.teams, w.state.leadingTeam, w.state.currentBid))
    && (w.snapshot.Some? ==> Affordable(w.teams, w.snapshot.value.leadingTeam, w.snapshot.value.currentBid))
  }

  predicate Inv(w: World) {
    WellFormed(w) && Solvent(w)
  }

  /** The state at process start: idle, no snapshot, the given roster and teams. */
  function InitialWorld(players: seq<Player>, teams: seq<Team>): World {
    World(AuctionState(Phase.Idle, None, 0, None, [], []), None, players, teams)
  }

  // ---------------------------------------------------------------------------------------
  // Handlers

  /** admin:startAuction. */
  function StartAuction(w: World, playerId: int): (r: World)
    requires WellFormed(w)
    ensures WellFormed(r)
  {
    match FindPlayer(w.players, playerId)
    case None => w
    case Some(i) =>
      if w.players[i].status != Status.Available then w
      else w.(state := AuctionState(Phase.Live, Some(i), w.players[i].basePrice, None, [], w.state.soldPlayers),
              snapshot := None)
  }

  /** The id the reserve computation excludes (`currentPlayer?.id`). */
  function CurrentPlayerId(w: World): Option<int>
    requires WellFormed(w)
  {
    if w.state.currentPlayer.Some? then Some(w.players[w.state.currentPlayer.value].id) else None
  }

  /** `currentPlayer?.basePrice ?? 0`. */
  function BasePrice(w: World): int
    requires WellFormed(w)
  {
    if w.state.currentPlayer.Some? then w.players[w.state.currentPlayer.value].basePrice else 0
  }

  /** The placeBid update once every check has passed: snapshot, then the new leading bid. */
  function Accept(w: World, team: Team, amount: int, ts: int): World {
    w.(snapshot := Some(BidSnapshot(w.state.currentBid, w.state.leadingTeam, w.state.bidHistory)),
       state := w.state.(currentBid := amount,
                         leadingTeam := Some(TeamRef(team.id, team.name, team.color, team.logo)),
                         bidHistory := [BidEntry(team.name, team.color, team.logo, amount, ts)] + w.state.bidHistory))
  }

  /** placeBid: ignored outside a live round or for an unknown team, then the four checks in
      the source's order. */
  function PlaceBid(w: World, cfg: Config, teamId: string, amount: int, ts: int): (r: BidResult)
    requires WellFormed(w)
    ensures WellFormed(r.world)
  {
    if w.state.phase != Phase.Live then BidResult(w, Ignored)
    else match FindTeam(w.teams, teamId)
      case None => BidResult(w, Ignored)
      case Some(t) =>
        var team := w.teams[t];
        var remaining := team.budget - team.spent;
        var maxBid := MaxBid(team, w.players, CurrentPlayerId(w), cfg.minPlayersPerTeam);
        if amount < BasePrice(w) then BidResult(w, Rejected(BelowBasePrice))
        else if amount > remaining then BidResult(w, Rejected(InsufficientBudget))
        else if amount > maxBid then BidResult(w, Rejected(ReserveViolation))
        else if amount <= w.state.currentBid then BidResult(w, Rejected(StaleBid))
        else BidResult(Accept(w, team, amount, ts), Accepted)
  }

  /** admin:undoBid. */
  function UndoBid(w: World): (r: World)
    requires WellFormed(w)
    ensures WellFormed(r)
  {
    if w.snapshot.None? || w.state.phase != Phase.Live then w
    else
      var s := w.snapshot.value;
      w.(state := w.state.(currentBid := s.currentBid, leadingTeam := s.leadingTeam, bidHistory := s.bidHistory),
         snapshot := None)
  }

  /** The roster entry after a sale to `team` at `price`. */
  function SoldCopy(p: Player, team: Team, price: int): Player {
    p.(status := Status.Sold, soldTo := Some(team.name), soldPrice := Some(price))
  }

  /** admin:sold. */
  function MarkSold(w: World): (r: World)
    requires WellFormed(w)
    ensures WellFormed(r)
  {
    if w.state.phase != Phase.Live || w.state.leadingTeam.None? then w
    else
      var i := w.state.currentPlayer.value;
      var t := FindTeam(w.teams, w.state.leadingTeam.value.id).value;
      var team := w.teams[t];
      var price := w.state.currentBid;
      var p := SoldCopy(w.players[i], team, price);
      var teams' := w.teams[t := team.(spent := team.spent + price, players := team.players + [p])];
      FindTeamIds(w.teams, teams', w.state.leadingTeam.value.id);
      w.(players := w.players[i := p],
         teams := teams',
         state := w.state.(phase := Phase.Sold,
                           soldPlayers := w.state.soldPlayers + [SaleRecord(i, team.name, team.color, team.logo, price)]),
         snapshot := None)
  }

  /** admin:unsold: guarded only by the presence of a current player, so it also applies after a
      sale, and the roster entry is found again by id. */
  function MarkUnsold(w: World): (r: World)
    requires WellFormed(w)
    ensures WellFormed(r)
  {
    if w.state.currentPlayer.None? then w
    else
      var id := w.players[w.state.currentPlayer.value].id;
      var players' := match FindPlayer(w.players, id)
        case Some(j) => w.players[j := w.players[j].(status := Status.Unsold)]
        case None => w.players;
      w.(players := players', state := w.state.(phase := Phase.Unsold), snapshot := None)
  }

  /** admin:idle: no guard; the sales ledger is kept. */
  function ReturnToIdle(w: World): (r: World)
    requires WellFormed(w)
    ensures WellFormed(r)
  {
    w.(state := w.state.(phase := Phase.Idle, currentPlayer := None, currentBid := 0, leadingTeam := None, bidHistory := []),
       snapshot := None)
  }

  function ResetTeam(t: Team): Team {
    t.(spent := 0, players := [])
  }

  /** A sold or unsold player goes back to the pool without its sale fields. */
  function ResetPlayer(p: Player): Player {
    if p.status == Status.Sold || p.status == Status.Unsold
    then p.(status := Status.Available, soldTo := None, soldPrice := None)
    else p
  }

  /** The team pass: every team has spent nothing and owns nobody, and keeps its id, name,
      colour, logo and budget. */
  function ResetTeams(teams: seq<Team>): (r: seq<Team>)
    ensures |r| == |teams|
    ensures forall i :: 0 <= i < |r| ==> r[i].spent == 0 && r[i].players == []
    ensures forall i :: 0 <= i < |r| ==>
      r[i] == Team(teams[i].id, teams[i].name, teams[i].color, teams[i].logo, teams[i].budget, 0, [])
  {
    seq(|teams|, i requires 0 <= i < |teams| => ResetTeam(teams[i]))
  }

  /** The player pass: everybody ends available; a sold or unsold player loses its sale fields
      and keeps every other field, and an available player is untouched. */
  function ResetPlayers(players: seq<Player>): (r: seq<Player>)
    ensures |r| == |players|
    ensures forall i :: 0 <= i < |r| ==> r[i].status == Status.Available
    ensures forall i :: 0 <= i < |r| && players[i].status != Status.Available ==>
      var p := players[i];
      r[i] == Player(p.id, p.name, p.position, p.rating, p.basePrice, p.photo, Status.Available, None, None)
    ensures forall i :: 0 <= i < |r| && players[i].status == Status.Available ==> r[i] == players[i]
  {
    seq(|players|, i requires 0 <= i < |players| => ResetPlayer(players[i]))
  }

  /** admin:resetAllTeams. */
  function ResetAllTeams(w: World): (r: World)
    requires WellFormed(w)
    ensures WellFormed(r)
  {
    World(AuctionState(Phase.Idle, None, 0, None, [], []), None, ResetPlayers(w.players), ResetTeams(w.teams))
  }

  function Apply(w: World, cfg: Config, e: Event): (r: World)
    requires WellFormed(w)
    ensures WellFormed(r)
  {
    match e
    case Start(id) => StartAuction(w, id)
    case Bid(teamId, amount, ts) => PlaceBid(w, cfg, teamId, amount, ts).world
    case Undo => UndoBid(w)
    case Sell => MarkSold(w)
    case Unsell => MarkUnsold(w)
    case ToIdle => ReturnToIdle(w)
    case ResetAll => ResetAllTeams(w)
  }

  /** The events handled one at a time, in arrival order. */
  function Run(w: World, cfg: Config, events: seq<Event>): (r: World)
    requires WellFormed(w)
    ensures WellFormed(r)
    decreases |events|
  {
    if |events| == 0 then w else Run(Apply(w, cfg, events[0]), cfg, events[1..])
  }
}
