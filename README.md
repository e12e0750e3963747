# Football auction engine in Dafny

This project models the live-auction engine of a football player auction server (`server.js`).
Admins open one round at a time for a player on the roster. Team managers place bids. An admin
then marks the player sold to the leading team or unsold, undoes the last bid, returns the
auction to idle, or resets every team and player.

Each team has a budget and a running `spent`. A bid is capped by the budget policy, which keeps
money back to fill the team's minimum squad.

The model has five modules:

- `AuctionTypes` (`AuctionTypes.dfy`):
  - the records: player, team, leading-team copy, bid entry, sale record, auction state, undo snapshot and league configuration;
  - the first-match lookups the handlers use to find a player or a team by id.
- `BudgetPolicy` (`BudgetPolicy.dfy`):
  - `getIncrement`;
  - `getTeamMaxBid`, as functions over values, plus the padding loop and the whole computation as methods proved equal to those functions;
  - lemmas about the result: the two branches, the pool being the cheapest eligible prices, the padding value, the reserve in closed form, the bounds;
  - worked examples.
- `AuctionEngine` (`AuctionEngine.dfy`):
  - each socket handler as a transition function on a `World` value: auction state, undo snapshot, roster and teams;
  - the well-formedness invariant (indices in range, unique player ids, a snapshot only in a live round with a leader, leaders that name a team);
  - the safety invariant `Solvent`;
  - `Apply` and `Run` for event sequences.
- `AuctionProperties` (`AuctionProperties.dfy`): what every handler promises, one lemma per promise, plus the safety invariant across any sequence of events.
- `AuctionServer` (`AuctionServer.dfy`): the class `Auction`.
  - It holds the server's mutable globals (`auctionState`, `previousBidSnapshot`, `players`, `teams`) as fields.
  - Its handler methods update those fields step by step, as the source does. `ResetAllTeams` keeps its two `forEach` passes as loops, one method each.
  - Every method is proved to leave exactly the state the matching `AuctionEngine` function computes, and to keep the invariant.

Representation choices:

- `currentPlayer` is an index into the roster.
  - In the source it is a reference to the roster object, which `admin:sold` mutates through.
  - The ledger entry of a sale likewise holds that index, not a copy.
  - The copy pushed onto the team's squad is a value: it is the player as it was at the sale.
- `leadingTeam` is a value copy of the team's id, name, colour and logo, as in the source.
- Bid refusals are reason codes (`Rejection`), not message strings.
- Staying silent (a bid outside a live round, or from an unknown team) is the `Ignored` outcome.
- The clock reading stored in a bid entry is the `ts` parameter.
- Numbers (budgets, prices, bids) are modelled as unbounded integers.

Two behaviours of the code that one might not expect, modelled as written:

- Padding the reserve pool (`server.js:63`):
  - One might expect a short pool to be padded with its cheapest price.
  - The code repeats the last element of the ascending pool, which is the largest.
  - `PadValueIsLargest` and `ExamplePaddingRepeatsDearest` state that behaviour. In the example the prices are 100 and 150 with three slots to fill, so the reserve is 400, not 350.
- Low bids (`server.js:167-179`):
  - A bid at or below the current bid is not always refused as a stale bid.
  - The stale-bid check comes last. A low bid that is also under the base price, over the remaining budget or over the cap is refused for that earlier reason.
  - `PlaceBidChecks` states the order. `LowBidNeverAccepted` states that a low bid is never accepted.

## Model

| member | source | states |
|---|---|---|
| AuctionTypes.FindPlayer | server.js:146 | The roster lookup by id returns the first index whose player has that id, and none exactly when no player has it |
| AuctionTypes.FindTeam | server.js:160 | The team lookup by id returns the first index whose team has that id, and none exactly when no team has it |
| AuctionTypes.FindTeamIds | server.js:213 | Replacing team records without changing their ids resolves every id to the same index, so a team charged by a sale is still found by the leader's id |
| BudgetPolicy.Increment | server.js:51-53 | The advisory step is always either the high or the low increment |
| BudgetPolicy.IncrementThreshold | server.js:51-53 | For every configuration the step is the high one strictly below the threshold and the low one from the threshold up |
| BudgetPolicy.IncrementNonIncreasing | server.js:51-53 | With a high step no smaller than the low one, a higher bid never gets a larger step |
| BudgetPolicy.SortAscending | server.js:62 | The numeric sort of the base prices is ascending, keeps the length and is a permutation of its input |
| BudgetPolicy.StillNeed | server.js:58 | The number of slots to reserve for is 0 exactly when the player under auction would complete the minimum squad, and otherwise fills the squad up to the minimum together with the current players and this one |
| BudgetPolicy.Eligible | server.js:61 | Computes the filter's test: the player is available and is not the one under auction, compared by id (outside a round only availability is tested); `EligiblePricesMembers` and `EligiblePricesCount` state what the filter keeps |
| BudgetPolicy.EligiblePrices | server.js:60-61 | There are never more eligible prices than players on the roster; `EligiblePricesCount` gives the exact count of each price |
| BudgetPolicy.EligiblePricesCount | server.js:60-61 | Each price occurs in the filtered list exactly as often as there are eligible players (available, not the one under auction) with that base price: one entry per eligible player, duplicates kept |
| BudgetPolicy.EligibleWithPriceStep | server.js:60-61 | The eligible players with a given price are those of the rest of the roster plus the first player exactly when it is eligible with that price |
| BudgetPolicy.EligiblePricesMembers | server.js:60-61 | A price is eligible exactly when some available player other than the one under auction (compared by id) has it as base price |
| BudgetPolicy.Repeat | server.js:63 | The padding run has the requested length and every entry is the pad value |
| BudgetPolicy.Pool | server.js:60-62 | Computes the first min(stillNeed, number eligible) entries of the ascending eligible prices; `PoolIsCheapest` states that these are the cheapest |
| BudgetPolicy.PadValue | server.js:63 | Computes what the padding pushes, the last pooled price or 0 for an empty pool; `PadValueIsLargest` states that it is the largest pooled price |
| BudgetPolicy.Padded | server.js:63 | Computes the pool followed by copies of its pad value up to `stillNeed` entries; `PaddedShape` and `PaddedSum` state its shape and total |
| BudgetPolicy.Reserve | server.js:60-64 | Computes the total of the padded pool; `ReserveWithoutPadding`, `ReserveWithPadding` and `ReserveNonNegative` state its value |
| BudgetPolicy.MaxBid | server.js:55-66 | Computes getTeamMaxBid; `MaxBidCases` and `MaxBidWithinRemaining` state its two branches and bounds, and `TeamMaxBid` is proved equal to it |
| BudgetPolicy.PadPool | server.js:63 | The padding loop leaves exactly the pool followed by copies of its last value (or 0) up to `stillNeed` entries, and a pool already that long unchanged |
| BudgetPolicy.TeamMaxBid | server.js:55-66 | The step-by-step computation of getTeamMaxBid equals `MaxBid`: the remaining budget when no slot needs reserving, otherwise max(0, remaining - reserve) |
| BudgetPolicy.MaxBidCases | server.js:59-65 | With no slot to reserve for the cap is exactly budget - spent; otherwise it is never negative, at least remaining - reserve, and equal to either 0 or remaining - reserve |
| BudgetPolicy.SumSortAscending | server.js:62-64 | Sorting the prices does not change their total |
| BudgetPolicy.SortedLastIsMax | server.js:62-63 | The last element of the ascending sort is the largest price |
| BudgetPolicy.PoolIsCheapest | server.js:60-62 | The pool has min(stillNeed, number eligible) entries, is a sub-multiset of the eligible prices, and no eligible price left out is cheaper than a pooled one |
| BudgetPolicy.CheapestPrefix | server.js:62 | The first k entries of the ascending sort are k cheapest entries of its input |
| BudgetPolicy.PaddedShape | server.js:63 | The padded pool has exactly `stillNeed` entries, starts with the pool, and every padding entry is the last pooled value, or 0 for an empty pool |
| BudgetPolicy.PadValueIsLargest | server.js:63 | For an ascending pool the padding value is its maximum, not its minimum |
| BudgetPolicy.ReserveWithoutPadding | server.js:62-64 | With at least `stillNeed` eligible players the reserve is the sum of the `stillNeed`-entry pool, with no padding |
| BudgetPolicy.ReserveWithPadding | server.js:62-64 | With fewer eligible players than slots the reserve is the sum of all eligible prices plus one dearest price per missing player, or 0 with none eligible |
| BudgetPolicy.PaddedSum | server.js:63-64 | Padding adds exactly one pad value per missing entry to the total |
| BudgetPolicy.MaxBidWithinRemaining | server.js:56-65 | With non-negative base prices and spent <= budget, the cap lies between 0 and the remaining budget |
| BudgetPolicy.ReserveNonNegative | server.js:60-64 | With non-negative base prices the reserve is never negative |
| BudgetPolicy.ExampleNoReserve | server.js:55-66 | Minimum 10, nine on the squad, 300 left: nothing is reserved and the cap is 300 |
| BudgetPolicy.ExampleReserve | server.js:55-66 | Minimum 10, seven on the squad, 300 left, the two cheapest other players at 100: the cap is 100 |
| BudgetPolicy.ExamplePaddingRepeatsDearest | server.js:60-65 | Three slots, available prices 150 and 100: the reserve is 100 + 150 + 150 = 400 and the cap of a team with 1000 left is 600 |
| AuctionEngine.InitialWorld | server.js:122-128 | Computes the state at process start: idle, no player, bid 0, no leader, empty history and ledger, no snapshot; `InitialSolvent` states that it satisfies the invariant |
| AuctionEngine.StartAuction | server.js:145-152 | Opening a round keeps the well-formedness invariant |
| AuctionEngine.CurrentPlayerId | server.js:61 | Computes the id the reserve excludes, that of the player under auction, or none outside a round |
| AuctionEngine.BasePrice | server.js:165 | Computes the current player's base price, or 0 without a current player |
| AuctionEngine.Accept | server.js:182-190 | Computes the accepted-bid update; `PlaceBidAccepted` states its effect and `UndoInvertsBid` that undo reverses it |
| AuctionEngine.PlaceBid | server.js:158-190 | A bid, accepted or not, keeps the well-formedness invariant |
| AuctionEngine.UndoBid | server.js:198-203 | Undo keeps the well-formedness invariant |
| AuctionEngine.SoldCopy | server.js:216-218 | Computes the roster entry marked sold to the team at the price; `MarkSoldSpec` states it |
| AuctionEngine.MarkSold | server.js:210-225 | A sale keeps the well-formedness invariant |
| AuctionEngine.MarkUnsold | server.js:233-238 | Marking unsold keeps the well-formedness invariant |
| AuctionEngine.ReturnToIdle | server.js:245-247 | Returning to idle keeps the well-formedness invariant |
| AuctionEngine.ResetTeam | server.js:253 | Computes one team with nothing spent and an empty squad; `ResetTeams` states the pass |
| AuctionEngine.ResetPlayer | server.js:255-258 | Computes one player returned to the pool when sold or unsold; `ResetPlayers` states the pass |
| AuctionEngine.ResetTeams | server.js:253 | The team pass keeps the number of teams; every team ends with spent 0 and an empty squad, keeping its id, name, colour, logo and budget |
| AuctionEngine.ResetPlayers | server.js:254-260 | The player pass keeps the roster length; every player ends available; a sold or unsold player loses its sale fields and keeps all its other fields; an available player is untouched |
| AuctionEngine.ResetAllTeams | server.js:252-262 | The full reset keeps the well-formedness invariant |
| AuctionEngine.Apply | server.js:145-265 | Any single handler keeps the well-formedness invariant |
| AuctionEngine.Run | server.js:145-265 | Any sequence of handlers, processed one at a time, keeps the well-formedness invariant |
| AuctionProperties.StartAuctionSpec | server.js:145-152 | A missing or unavailable player leaves the world unchanged; otherwise the round is live on that player at its base price, with no leader, an empty history, no snapshot and the ledger, roster and teams kept |
| AuctionProperties.StartAbortsLiveRound | server.js:145-147 | Starting is not guarded by the phase: in a live round it drops the leading bid without charging any team |
| AuctionProperties.PlaceBidIgnored | server.js:159-161 | Outside a live round, or for an unknown team id, the bid is ignored and nothing changes |
| AuctionProperties.PlaceBidChecks | server.js:163-179 | In a live round for a known team, each refusal reason holds exactly when its check is the first to fail in the order base price, remaining budget, getTeamMaxBid, current bid; acceptance holds exactly when all pass; a refusal changes nothing |
| AuctionProperties.PlaceBidAccepted | server.js:182-190 | An accepted bid saves exactly the old current bid, leader and history in the snapshot, sets the current bid to the amount (above the old one), makes the bidder the leader, prepends its entry to the history and changes nothing else |
| AuctionProperties.LowBidNeverAccepted | server.js:177-179 | A bid at or below the current bid is never accepted and changes nothing |
| AuctionProperties.FirstBidAboveBasePrice | server.js:150 | The first bid accepted in a freshly opened round is strictly above the player's base price |
| AuctionProperties.UndoBidSpec | server.js:198-203 | In a live round with a snapshot, undo restores the snapshot's bid, leader and history and drops the snapshot; otherwise it changes nothing |
| AuctionProperties.UndoInvertsBid | server.js:182-203 | Undo right after an accepted bid gives back the world before the bid, with no snapshot |
| AuctionProperties.UndoIsSingleLevel | server.js:203 | A second undo with no bid in between changes nothing |
| AuctionProperties.TwoBidsThenUndo | server.js:182-203 | After two accepted bids, one undo restores the state right after the first bid, and a further undo is a no-op |
| AuctionProperties.SnapshotClearedByRoundEnd | server.js:225 | After a sale, an unsold mark, a return to idle or a full reset, undo is a no-op |
| AuctionProperties.MarkSoldSpec | server.js:210-225 | Without a live round and a leader nothing changes; otherwise the leader's team is charged exactly the current bid and gets one copy of the sold player with every other team field kept, the player is sold to that team at that price, the phase is sold and the ledger grows by one record with current player, bid, leader and history kept, the snapshot is gone and no other team or player changes |
| AuctionProperties.SoldOncePerRound | server.js:211 | A second sale, and any bid, after a sale change nothing |
| AuctionProperties.MarkUnsoldSpec | server.js:233-238 | Without a current player nothing changes; otherwise exactly that player's status becomes unsold (its sale fields kept), the phase becomes unsold, the snapshot is gone and teams, ledger, bid and leader are untouched |
| AuctionProperties.UnsoldAfterSold | server.js:234-236 | Unsold is accepted after a sale: the player's status becomes unsold while the buying team keeps the player copy and the spend and the ledger keeps the sale |
| AuctionProperties.ReturnToIdleSpec | server.js:245-247 | From any phase the state becomes idle with no player, bid 0, no leader and an empty history, the ledger is kept, the snapshot is gone and the roster and teams are untouched |
| AuctionProperties.ResetAllTeamsSpec | server.js:252-262 | Every team has spent 0 and an empty squad with its other fields kept; every player is available without sale fields with its other fields kept, and available players are untouched; the state is a fresh idle one with an empty ledger and no snapshot |
| AuctionProperties.StartAuctionSolvent | server.js:145-152 | Opening a round keeps the safety invariant |
| AuctionProperties.PlaceBidSolvent | server.js:170-190 | A bid keeps the safety invariant: an accepted bid is within the bidder's remaining budget |
| AuctionProperties.UndoBidSolvent | server.js:198-203 | Undo keeps the safety invariant: the restored leader could pay the restored bid |
| AuctionProperties.MarkSoldSolvent | server.js:220 | Charging the leader the current bid keeps every team within its budget |
| AuctionProperties.MarkUnsoldSolvent | server.js:233-238 | Marking unsold keeps the safety invariant |
| AuctionProperties.ReturnToIdleSolvent | server.js:245-247 | Returning to idle keeps the safety invariant |
| AuctionProperties.ResetAllTeamsSolvent | server.js:252-262 | The full reset keeps the safety invariant |
| AuctionProperties.ApplySolvent | server.js:145-265 | Every handler keeps the safety invariant |
| AuctionProperties.RunSolvent | server.js:145-265 | Any sequence of events keeps the safety invariant |
| AuctionProperties.InitialSolvent | server.js:114-128 | A roster with unique ids and no sale fields on available players, teams with nothing spent and an idle auction satisfy the invariant |
| AuctionProperties.SpentNeverExceedsBudget | server.js:170-220 | From the initial state, after any sequence of events every team has spent <= budget, and in a live round the leading team could pay the current bid on top of what it has spent |
| AuctionServer.Auction.constructor | server.js:114-128 | The server starts with the given roster and teams, an idle auction with an empty ledger and no snapshot, and the invariant holds |
| AuctionServer.Auction.StartAuction | server.js:145-152 | The handler updates the fields to exactly `AuctionEngine.StartAuction` of the old state and keeps the invariant |
| AuctionServer.Auction.PlaceBid | server.js:158-190 | The handler's new fields and its outcome are exactly `AuctionEngine.PlaceBid` of the old state, with getTeamMaxBid computed by `TeamMaxBid`, and the invariant is kept |
| AuctionServer.Auction.UndoBid | server.js:198-203 | The handler updates the fields to exactly `AuctionEngine.UndoBid` of the old state and keeps the invariant |
| AuctionServer.Auction.MarkSold | server.js:210-225 | The handler's in-place updates of the player, the team, the state and the snapshot leave exactly `AuctionEngine.MarkSold` of the old state, and the invariant is kept |
| AuctionServer.Auction.MarkUnsold | server.js:233-238 | The handler updates the fields to exactly `AuctionEngine.MarkUnsold` of the old state and keeps the invariant |
| AuctionServer.Auction.ReturnToIdle | server.js:245-247 | The handler updates the fields to exactly `AuctionEngine.ReturnToIdle` of the old state and keeps the invariant |
| AuctionServer.Auction.ResetTeamsPass | server.js:253 | The in-place loop over the teams leaves exactly `AuctionEngine.ResetTeams` of the old teams and no other field changed |
| AuctionServer.Auction.ResetPlayersPass | server.js:254-260 | The in-place loop over the players leaves exactly `AuctionEngine.ResetPlayers` of the old roster and no other field changed |
| AuctionServer.Auction.ResetAllTeams | server.js:252-262 | The two passes over teams and players, then the fresh state, leave exactly `AuctionEngine.ResetAllTeams` of the old state, and the invariant is kept |

## Left out

- HTTP setup, static files and the image upload and download routes (`server.js:10-32`, `324-335`): network I/O and image decoding.
- Socket connection wiring and `broadcastState`: network pushes.
  - This includes the `io.emit` notifications `bidFlash`, `bidUndo`, `playerSold` and `playerUnsold`, and the delivery of `bidError` (`server.js:130-137`, `192-193`, `205`, `228`, `240`).
  - A handler's result is its new state, plus the bid outcome, which stands for the message the bidder is sent.
- `console.log` lines: logging only.
- `Date.now()` in a bid entry (`server.js:190`): the clock reading is the `ts` parameter of `PlaceBid`.
- `avatarUrl` (`server.js:47-49`, `111`): string formatting for an external image service.
- The text of the `bidError` messages (`server.js:168-178`), including the unclamped "need" count at line 174, which only affects the wording: refusals are reason codes.
- The admin password check and the settings update (`server.js:140-142`, `314-319`): authentication and settings plumbing. The configuration is a constant field of `Auction`.
- Roster and team editing (`addPlayer`, `editPlayer`, `removePlayer`, `resetPlayer`, `saveTeam`, `removeTeam`, `server.js:268-311`): plain storage.
  - The invariants assume these are not interleaved with the auction.
  - `saveTeam` can set a budget below `spent`, and `removeTeam` can make the leader's lookup in `admin:sold` fail.
- `editPlayer`'s replacement of the object that `currentPlayer` aliases: the index representation of `currentPlayer` does not capture reference identity.
- The seed roster and teams (`server.js:69-119`): the constructor takes any roster and teams. The worked examples use the seed league minimum of 10.
- Fractional or non-finite amounts and the rounding of double-precision arithmetic: the source's numbers are doubles, so a bid such as 150.5 passes its checks, while the model's numbers are integers.
- Type confusion in socket payloads, such as a non-numeric `amount` or a string `playerId`: all payloads are typed integers and strings.
- AuctionEngine.MarkSold: assumes the leading team resolves to a team. The well-formedness invariant guarantees this. In the source a failed lookup would throw after the player had already been marked sold, and that partial update is not modelled.
- Reference identity of the ledger's player: a sale record holds the roster index of the sold player, not a shared object. A later in-place change to that roster entry, by an unsold mark, is seen by reading the roster at that index. That matches what the source's aliasing shows, but object identity itself is not modelled.
