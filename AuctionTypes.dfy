/** Records shared by the auction engine: players, teams, the auction state and the
    one-slot undo snapshot, plus the first-match lookups the handlers use to resolve ids. */
module AuctionTypes {

  datatype Option<T> = None | Some(value: T)

  /** Lifecycle of a roster entry. */
  datatype Status = Available | Sold | Unsold

  /** A roster entry. `soldTo` and `soldPrice` are the optional fields that a sale adds and a
      full reset deletes; marking a player unsold leaves them as they were. */
  datatype Player = Player(
    id: int,
    name: string,
    position: string,
    rating: int,
    basePrice: int,
    photo: string,
    status: Status,
    soldTo: Option<string>,
    soldPrice: Option<int>)

  /** A team and the copies of the players it has bought. */
  datatype Team = Team(
    id: string,
    name: string,
    color: string,
    logo: string,
    budget: int,
    spent: int,
    players: seq<Player>)

  /** The lightweight copy of a team kept as the leading bidder. */
  datatype TeamRef = TeamRef(id: string, name: string, color: string, logo: string)

  /** One accepted bid; `ts` is the caller's clock reading. */
  datatype BidEntry = BidEntry(team: string, color: string, logo: string, amount: int, ts: int)

  /** One completed sale. `player` is the index of the live roster entry, which the ledger
      refers to rather than copies. */
  datatype SaleRecord = SaleRecord(player: nat, team: string, teamColor: string, teamLogo: string, price: int)

  datatype Phase = Idle | Live | Sold | Unsold

  /** The process-wide auction state; `currentPlayer` is an index into the roster. */
  datatype AuctionState = AuctionState(
    phase: Phase,
    currentPlayer: Option<nat>,
    currentBid: int,
    leadingTeam: Option<TeamRef>,
    bidHistory: seq<BidEntry>,
    soldPlayers: seq<SaleRecord>)

  /** What an accepted bid overwrites, kept for a single undo. */
  datatype BidSnapshot = BidSnapshot(currentBid: int, leadingTeam: Option<TeamRef>, bidHistory: seq<BidEntry>)

  /** The league settings the engine reads. */
  datatype Config = Config(minPlayersPerTeam: int, thresholdBid: int, highIncrement: int, lowIncrement: int)

  /** The roster's `find` by id: the first player with that id, if any. */
  function FindPlayer(players: seq<Player>, id: int): (r: Option<nat>)
    ensures r.Some? ==> r.value < |players| && players[r.value].id == id
    ensures r.Some? ==> forall j :: 0 <= j < r.value ==> players[j].id != id
    ensures r.None? ==> forall j :: 0 <= j < |players| ==> players[j].id != id
  {
    if |players| == 0 then None
    else if players[0].id == id then Some(0)
    else match FindPlayer(players[1..], id)
      case None => None
      case Some(k) => Some(k + 1)
  }

  /** The team store's `find` by id: the first team with that id, if any. */
  function FindTeam(teams: seq<Team>, id: string): (r: Option<nat>)
    ensures r.Some? ==> r.value < |teams| && teams[r.value].id == id
    ensures r.Some? ==> forall j :: 0 <= j < r.value ==> teams[j].id != id
    ensures r.None? ==> forall j :: 0 <= j < |teams| ==> teams[j].id != id
  {
    if |teams| == 0 then None
    else if teams[0].id == id then Some(0)
    else match FindTeam(teams[1..], id)
      case None => None
      case Some(k) => Some(k + 1)
  }

  /** A lookup depends only on the ids: replacing records without changing their ids
      resolves every id to the same index. */
  lemma {:induction false} FindTeamIds(teams: seq<Team>, teams': seq<Team>, id: string)
    requires |teams| == |teams'|
    requires forall i :: 0 <= i < |teams| ==> teams[i].id == teams'[i].id
    ensures FindTeam(teams, id) == FindTeam(teams', id)
  {
    if |teams| > 0 && teams[0].id != id {
      FindTeamIds(teams[1..], teams'[1..], id);
    }
  }
}
