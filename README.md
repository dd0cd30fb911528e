# Single-table blackjack engine

A Dafny model of the game engine in `server.js`. The server runs one blackjack table named
"main", with five seats, a six-deck shoe and one dealer. Socket handlers change the table:

- sit down and stand up;
- start betting and place a bet;
- deal;
- hit and stand;
- disconnect.

A settlement step runs at the end of every round that reaches `nextTurn` or a disconnect. It pays each seat against the dealer's
hand, credits the player ledger and stores a hand history. Clients receive a view of the
table in which the dealer's hole card is masked while players act.

The model has four modules:

- `Cards` (`cards.dfy`): card texts, the rank parser, card values, the soft/hard Ace hand total
  and the natural-blackjack test.
- `Shoe` (`shoe.dfy`): the ordered six-deck fill, the Fisher–Yates pass, and the conservation
  invariant between the cards left in the shoe and the cards dealt from it.
- `Settlement` (`settlement.dfy`): the ordered outcome rules, the payouts and the ledger update
  for one hand.
- `Blackjack` (`table.dfy`): the table as a class. Its fields are:
  - the shoe and its id, with a ghost record of the cards dealt from the current shoe;
  - the phase;
  - the dealer's hand;
  - the seats;
  - the ledger;
  - the stored histories.

  Each handler of `server.js` is a method of the class. Each method states its reply and its
  new phase, dealer hand, seats, ledger and histories. For the shoe it states three things:
  - that the shoe is conserved;
  - whether the shoe was rebuilt;
  - which cards were dealt, in order (`Shoe.DrawnAs`). From one shoe they come off its top, one by one, and join the record of dealt cards. Across a rebuild, the first of them are the old shoe's top cards and the rest make up the new shoe's record.

  The per-seat loops of `dealNow` and `settleAndSave` call one method per seat (`DealSeat`,
  `SettleSeatAt`). The loops of `resetRound`, of the natural check and of the turn clearing
  keep the callback's body inside the loop. The table invariant `Valid` is kept by every
  handler. It requires:
  - the shoe is conserved;
  - no balance is negative;
  - seat numbers and sockets are distinct and below five;
  - `busted` holds exactly when the hand is over 21;
  - in the acting phase exactly the first seat still to act holds the turn, and outside it
    nobody does;
  - during betting the dealer has no cards and no seat has played.

Where the intended design and `server.js` differ, the model follows `server.js`:

- **Turn order is array order.** The turn goes to the first active seat in `table.seats`,
  which is join order, not seat-number order.
- **The dealer and payout phases after a deal.** When `dealNow` leaves nobody to act, the phase
  becomes dealer or payout and nothing ever settles the round (see Findings).
- **Repeated bets.** `placeBet` overwrites the seat's bet and debits the full amount on every
  accepted call.
- **Hands totalling 21.** `hit` never stands a hand automatically, not even at 21.
- **The broadcast view.** It includes each seat's socket id.

## Model

| member | source | states |
|---|---|---|
| Cards.ParseRank | server.js:83-85 | the rank is the one- or two-character prefix of the card text, and it is two characters exactly when the text starts with "10" |
| Cards.CardOf | server.js:69 | a card built as rank followed by suit parses back to that rank and that suit |
| Cards.CardText | server.js:69 | rank + suit is a card text; parseRank recovers the rank and the rest is the suit |
| Cards.CardSplit | server.js:83-85 | every card text is exactly its parsed rank followed by its suit letter |
| Cards.RanksListed | server.js:52 | the rank texts accepted by the model are exactly the entries of RANKS |
| Cards.SuitsListed | server.js:51 | the suit texts are exactly the entries of SUITS |
| Cards.CardVal | server.js:78-82 | the value of a rank; its range is stated by CardValRange |
| Cards.Reduce | server.js:93-95 | the Ace-demotion loop as a function; ReduceBest states where it lands |
| Cards.Total | server.js:86-97 | handTotal as a function; HandTotal computes it and TotalIsBest characterises it |
| Cards.IsBJ | server.js:98-100 | isBJ; IsBJIffAceAndTen characterises it |
| Cards.CardValRange | server.js:78-82 | cardVal is 11 exactly for an Ace, 10 exactly for 10/J/Q/K, and between 2 and 11 otherwise |
| Cards.HandTotal | server.js:86-97 | the two loops of handTotal compute Total: all Aces high, then demoted one by one while over 21 |
| Cards.SoftIsHardPlusAces | server.js:86-92 | the all-Aces-high sum is the all-Aces-low sum plus 10 per Ace |
| Cards.ReduceBest | server.js:93-95 | demoting Aces while bust lands on the largest non-bust value reachable, or the all-low value |
| Cards.TotalIsBest | server.js:86-97 | handTotal is the best total: the largest count ≤ 21 over every choice of Aces as 1 or 11, else the all-low sum, and always between the all-low and all-high sums |
| Cards.HardSumGrows | server.js:86-92 | one more card adds at least one to the all-low sum |
| Cards.NonEmptyTotal | server.js:86-97 | a non-empty hand totals at least 1 |
| Cards.TwoCardsNotBust | server.js:86-97 | no two-card hand is bust (two Aces count 12) |
| Cards.TwoCardSums | server.js:86-92 | the sums and the Ace count of a two-card hand are those of its two cards |
| Cards.IsBJIffAceAndTen | server.js:98-100 | isBJ holds exactly for two cards that are an Ace and a ten-valued card; three or more cards are never a natural |
| Cards.MaskIsNotACard | server.js:123 | the mask "##" is not the text of any card |
| Shoe.Deck | server.js:69 | one deck of 52 texts, 13 ranks in each of 4 suits; DeckCount shows each text once |
| Shoe.Ordered | server.js:67-70 | `decks` copies of the deck, 52 × decks cards |
| Shoe.Conserved | server.js:144-153 | every card text is SHOE_DECKS times in the shoe and the dealt cards together |
| Shoe.DrawnAs | server.js:144-153 | from one shoe, the cards dealt came off its top in order and joined the record of dealt cards; across a rebuild, the first of them are the top cards of the old shoe, as many as it held above 59, the new shoe and its record make 312 cards, and, unless more than 252 cards followed, there was one rebuild and the record is exactly the rest |
| Shoe.DrawnFromTop | server.js:150-153 | every card dealt from the shoe a run started with was that shoe's next top card |
| Shoe.DrawnTop | server.js:150-153 | a pop from a shoe of 60 cards or more takes its top card into the record |
| Shoe.DrawnFresh | server.js:144-153 | a card dealt from a shoe below 60 comes from a new shoe of 311 cards left, whose record is that card, and none comes from the old shoe |
| Shoe.DrawnInSequence | server.js:150-153 | dealing one run of cards and then another is dealing both runs in order, across a rebuild too |
| Shoe.OrderedCards | server.js:67-70 | the filling loops produce `decks` copies of one deck in suit-major order |
| Shoe.PushDeck | server.js:69 | one pass of the suit and rank loops appends exactly one deck |
| Shoe.Shuffle | server.js:71-75 | the Fisher–Yates pass keeps every card (the multiset is unchanged) |
| Shoe.MakeShoe | server.js:66-77 | makeShoe returns 52 × decks cards, each rank/suit text exactly `decks` times |
| Shoe.DeckCount | server.js:69 | each of the 52 texts occurs exactly once in a deck |
| Shoe.OrderedCount | server.js:67-70 | each text occurs exactly `decks` times before shuffling |
| Shoe.CountsMakeOrdered | server.js:66-77 | a sequence with every card text exactly `decks` times is a reordering of the unshuffled fill |
| Shoe.ConservedSize | server.js:144-153 | cards left plus cards dealt always make 312 cards until the shoe is rebuilt |
| Shoe.PopConserves | server.js:152 | popping the last card moves it from the shoe to the dealt cards and keeps the conservation |
| Settlement.Settle | server.js:309-319 | the ordered outcome rules; SettleByScore characterises them |
| Settlement.SettleByScore | server.js:309-319 | the ordered rules amount to a score comparison: a seat wins, pushes or loses as its score is higher, equal or lower than the dealer's; a lone natural wins 2.5 × bet rounded down, other wins 2 × bet, a push returns the bet, a loss pays nothing |
| Settlement.Credit | server.js:325-335 | the ledger entry gains exactly the payout and one hand; wins go up by one exactly on a win, losses exactly on a loss, pushes exactly on a push, so exactly one of the three goes up |
| Blackjack.FindIndex | server.js:285 | the first position satisfying the test, or none when no position does |
| Blackjack.SeatBySocket | server.js:137 | the first seat of the socket, or none when the socket has no seat |
| Blackjack.FirstActive | server.js:287 | the first seat holding cards and not done, or none |
| Blackjack.SeatAt | server.js:140 | the seat holding number `i`, none exactly when `i` is free |
| Blackjack.SeatOfSocket | server.js:137 | with distinct sockets, a seated socket finds its own seat |
| Blackjack.Without | server.js:199 | filtering the seats never lengthens them |
| Blackjack.WithoutOne | server.js:199 | filtering out a socket that holds exactly one seat removes exactly that seat and keeps the order |
| Blackjack.WithoutNone | server.js:199 | filtering out a socket without a seat changes nothing |
| Blackjack.SeatNumbersInRange | server.js:138-143 | seat numbers are distinct members of 0..4, one per seat |
| Blackjack.SeatsFit | server.js:138-143 | at most five seats, and every number is taken exactly when all five seats are filled |
| Blackjack.OneTurnHolder | server.js:253-256 | the invariant allows at most one turn holder, and none outside the acting phase |
| Blackjack.FindIndexAgree | server.js:287 | searches that agree element-wise find the same index |
| Blackjack.FirstActiveAgree | server.js:287 | changing what does not bear on "still to act" keeps the first active seat |
| Blackjack.RemoveSeat | server.js:199 | removing a seat between rounds keeps the table invariant |
| Blackjack.SeatAdded | server.js:189 | pushing a fresh seat at a free number for an unseated socket keeps the table invariant |
| Blackjack.ResetKeeps | server.js:154-160 | resetting every seat in the lobby gives a valid betting table with no dealer cards |
| Blackjack.BetKeeps | server.js:219 | a bet of at least 10 during betting keeps the table invariant |
| Blackjack.HitKeeps | server.js:268-270 | a hit that does not bust keeps the invariant with the turn where it was |
| Blackjack.SeatLeaves | server.js:270-278 | a seat marked done without the turn keeps the seats well formed with at most one turn, and with nobody active leaves no turn |
| Blackjack.DealerKeepsStandingHand | server.js:294-296 | a dealer hand already at 17 or more draws no card |
| Blackjack.DrawStep | server.js:294-296 | one draw below 17 keeps the draw well formed and raises the all-low sum, so the draw ends |
| Blackjack.NewSeat | server.js:189 | a pushed seat holds only its number, socket and name: no bet and nothing played |
| Blackjack.ResetSeat | server.js:157 | the bet is 0 and the seat is unplayed but for the turn flag, which resetRound leaves alone; number, socket, name and turn are kept |
| Blackjack.Marked | server.js:244-248 | only `done` changes, and the seat is done exactly when it already was or holds cards and it or the dealer has a natural |
| Blackjack.Public | server.js:129-132 | the seat fields the broadcast view exposes; SafeState and SafeStateMasks state the view |
| Blackjack.SettleSeat | server.js:307-322 | only the result and payout change; a seat with a bet and cards gets a result and a payout between 0 and 2.5 × bet |
| Blackjack.CreditSeat | server.js:325-335 | only a settled seat whose player exists is credited, by Credit |
| Blackjack.CreditSeatOthers | server.js:325-335 | crediting a seat leaves every other player's entry as it was |
| Blackjack.CreditAll | server.js:306-335 | the ledger after crediting the seats in order; CreditAllChips and CreditAllKeys state its effect |
| Blackjack.CreditAllKeys | server.js:325-335 | updateOne creates no player: settlement neither adds nor removes a ledger entry |
| Blackjack.Record | server.js:339-341 | the history line carries the result and payout the seat was settled with |
| Blackjack.Snapshots | server.js:305-341 | the history lines of the settled seats in seat order; SnapshotsSettled bounds them |
| Blackjack.SnapshotsSettled | server.js:306-341 | at most one history line per seat, each of a seat with a positive bet and cards |
| Blackjack.RoundEnd | server.js:302-363 | the table once settleAndSave has run; RoundEndAppends states its shape |
| Blackjack.RoundEndAppends | server.js:346-363 | the round ends in the lobby with the dealer's final hand, one hand history appended for the current shoe and the earlier ones kept |
| Blackjack.TurnPassed | server.js:283-300 | the table after nextTurn; TurnPassedPhase states its phase |
| Blackjack.TurnPassedPhase | server.js:283-300 | players keep acting exactly when a seat is left to act, else the round ends in the lobby; until then dealer, ledger and histories are untouched |
| Blackjack.TurnGiven | server.js:287-299 | the second step of nextTurn, from seats without a turn holder |
| Blackjack.AllCards | server.js:233-240 | the seats' hands in seat order, the order in which they are dealt |
| Blackjack.SettleSeats | server.js:306-322 | settling keeps the number of seats |
| Blackjack.CreditAllChips | server.js:325-335 | settlement credits each balance with exactly the payouts recorded on that player's settled seats and creates or drops no entry |
| Blackjack.CreditAllKeepsChips | server.js:325-335 | with non-negative bets settlement never makes a balance negative |
| Blackjack.SettleKeepsSeats | server.js:306-363 | settled seats keep their cards and form a valid lobby table |
| Blackjack.CreditStep | server.js:306-335 | crediting one more seat extends the prefix credit by that seat |
| Blackjack.SnapshotStep | server.js:340-342 | one more seat extends the history lines by its line when it settles |
| Blackjack.FirstTurn | server.js:285 | the first turn holder, or none when nobody holds the turn |
| Blackjack.ClearFirstTurn | server.js:285-286 | clearing the first turn holder keeps the number of seats |
| Blackjack.ClearFirstTurnClears | server.js:285-286 | with at most one turn holder, clearing the first clears every turn and changes nothing else |
| Blackjack.GiveTurn | server.js:287-290 | giving the turn to the first active seat when nobody holds it establishes the turn invariant and changes only that seat |
| Blackjack.SafeState | server.js:119-135 | the view has the table id, phase, shoe size and one public record per seat, and as many dealer entries as cards |
| Blackjack.SafeStateMasks | server.js:121-124 | only the first dealer card is masked, exactly while acting, and "##" appears exactly then |
| Blackjack.Table.Broadcast | server.js:119-135 | the view of the table's own state: its table id, phase, one public record per seat, the shoe's actual card count, and the mask exactly while acting with dealer cards |
| Blackjack.HoleCardHidden | server.js:121-124 | while acting the view does not depend on the dealer's first card |
| Blackjack.DealtRound | server.js:233-248 | the deal of an unplayed betting table leaves valid seats without a turn, each dealt as the rules say |
| Blackjack.TurnAfterDeal | server.js:251-256 | after the deal, the turn goes to the first seat still to act and the invariant holds |
| Blackjack.DealerNaturalStalls | server.js:257-260 | as written: after the dealer draws A♠ K♠ the deal ends in the payout phase, which no handler leaves |
| Blackjack.Table.constructor | server.js:106-114 | the table starts in the lobby with a full shoe, no dealer cards, no seats and the given ledger |
| Blackjack.Table.EnsureShoe | server.js:144-149 | a shoe below 60 cards is replaced by a full one with a new id; otherwise nothing changes |
| Blackjack.Table.Pop | server.js:152 | the last card leaves the shoe and joins the dealt cards |
| Blackjack.Table.DealCard | server.js:150-153 | the card comes from the top of the shoe, or from a freshly rebuilt one of 311 cards left when the shoe was below 60, and it joins the record of dealt cards |
| Blackjack.Table.SeatIndexFree | server.js:138-143 | the lowest free seat number, and -1 exactly when all five are taken |
| Blackjack.Table.SitDown | server.js:181-191 | a fresh seat at the lowest free number is appended, unless the caller has no name, the phase is wrong, the socket is seated or the table is full |
| Blackjack.Table.StandUp | server.js:193-201 | between rounds the caller's seat is removed; otherwise nothing changes |
| Blackjack.Table.ResetSeats | server.js:156-158 | every seat's round fields are reset |
| Blackjack.Table.ResetRound | server.js:154-160 | no dealer cards, every seat reset, phase betting |
| Blackjack.Table.StartBetting | server.js:203-208 | in the lobby the round is reset; otherwise nothing changes |
| Blackjack.Table.PlaceBet | server.js:210-223 | the refusals in order (below 10, not seated, not betting, not enough chips); an accepted bet replaces the seat's bet and is debited from its player |
| Blackjack.Table.TakeBet | server.js:219-220 | the bet is set and the whole amount leaves the player's balance |
| Blackjack.Table.DealSeat | server.js:234-239 | a seat with a bet gets two cards, the next two dealt; a seat without one gets none and is done; no other seat changes |
| Blackjack.Table.DealDealer | server.js:232 | the dealer's hand is the next two cards dealt |
| Blackjack.Table.DealPair | server.js:232 | `[dealCard(), dealCard()]` is two cards dealt in that order, off the top of the shoe |
| Blackjack.Table.DealCards | server.js:232-240 | the dealer's two cards and then the seats' hands, in seat order, are exactly the cards dealt; every seat is dealt as DealSeat says |
| Blackjack.Table.DealHands | server.js:233-240 | every seat is dealt as DealSeat says, and the hands, seat by seat, are exactly the cards dealt |
| Blackjack.Table.MarkNaturals | server.js:244-248 | a seat with cards is done when it or the dealer has a natural |
| Blackjack.Table.ClearTurns | server.js:253 | every seat loses the turn and nothing else changes |
| Blackjack.Table.DealNow | server.js:225-262 | accepted exactly during betting with a bet on the table, otherwise nothing changes; the round is dealt as the rules say, the phase is acting, dealer or payout, and the dealer's cards followed by the seats' hands are exactly the cards dealt |
| Blackjack.Table.DealRound | server.js:231-260 | the deal leaves a valid table dealt as the rules say, and the dealer's cards followed by the seats' hands are exactly the cards dealt |
| Blackjack.Table.CheckNaturals | server.js:243-260 | naturals are closed and the phase and turn are chosen; no hand changes |
| Blackjack.Table.OpenRound | server.js:251-260 | acting with the first active seat on turn, else payout after a dealer natural and dealer otherwise; no hand changes |
| Blackjack.Table.StartActing | server.js:252-256 | every turn is cleared and the first seat still to act gets it; no hand changes |
| Blackjack.Table.DealNowSettled | server.js:257-260 | corrected: an accepted deal deals the round as dealNow does and records those cards as drawn; when someone can act the table is left acting with the dealt hands and the ledger and history untouched; otherwise the dealer draws to 17 and the table is the settled round, back in the lobby with one more history record |
| Blackjack.Table.CloseDeal | server.js:257-260 | corrected: after the deal, an acting table is left as it is; one in the dealer or payout phase has the dealer draw to 17 and is settled back to the lobby with one more history record; the dealer's new cards follow the dealt ones off the shoe |
| Blackjack.Table.DealerPlay | server.js:294-296 | the dealer draws exactly while below 17 and ends at 17 or more; the drawn cards are exactly the cards dealt, in order |
| Blackjack.Table.DealerDraws | server.js:295 | one card is dealt and appended to the dealer's hand |
| Blackjack.Table.SettleSeatAt | server.js:307-342 | a seat with a bet and cards gets its result and payout and its player is credited; the history line is returned |
| Blackjack.Table.SettleAndSave | server.js:302-365 | every seat settled, the ledger credited in seat order, one history record with the shoe id, phase lobby |
| Blackjack.Table.DrawAndSettle | server.js:294-298 | the dealer draws to 17 with exactly the cards dealt, then the round ends as RoundEnd says |
| Blackjack.Table.PayRound | server.js:297-298 | the payout phase and settleAndSave end the round as RoundEnd says |
| Blackjack.Table.FinishRound | server.js:291-299 | the dealer phase, the draw and settlement, ending as RoundEnd says; the dealer's new cards are exactly the cards dealt |
| Blackjack.Table.ClearTurnHolder | server.js:285-286 | the turn holder found by findIndex loses the turn |
| Blackjack.Table.PassTurn | server.js:288-290 | the first active seat gets the turn and the phase is acting |
| Blackjack.Table.NextTurn | server.js:283-300 | the table becomes TurnPassed: the next active seat takes the turn, or the dealer draws to 17 and the round settles; unless the round ends the dealer, the shoe, its id and the dealt record are untouched, and the dealer's new cards are exactly the cards dealt |
| Blackjack.Table.PassOrFinish | server.js:287-299 | from seats without a turn holder the table becomes TurnGiven, with the same shoe facts as NextTurn |
| Blackjack.Table.Hit | server.js:264-272 | only the turn holder while acting gets a card, otherwise nothing changes; below bust the seat keeps the turn with the longer hand, a bust hand is closed and the turn moves on; the hit card and then any dealer cards are exactly the cards dealt |
| Blackjack.Table.HitAt | server.js:268-270 | the turn holder is dealt a card and plays it as HitTaken says; the card and then any dealer cards are the cards dealt, in order |
| Blackjack.Table.DrawForHit | server.js:268 | one card is dealt and recorded |
| Blackjack.Table.PlayCard | server.js:268-270 | the drawn card is added, and a bust closes the hand and moves the turn; unless that ends the round the dealer and the shoe are untouched |
| Blackjack.Table.Extend | server.js:268 | the longer hand replaces the seat's, which keeps the turn |
| Blackjack.Table.Bust | server.js:270 | the seat is marked busted and done, loses the turn and nextTurn runs, with NextTurn's shoe facts |
| Blackjack.Table.Stand | server.js:274-281 | only the turn holder while acting stands, otherwise nothing changes; the seat is stood and done and the turn moves on; unless the round ends the dealer and the shoe are untouched, and the dealer's new cards are exactly the cards dealt |
| Blackjack.Table.Disconnect | server.js:367-392 | between rounds the seat is removed; during a round it is kept but done; while acting the round ends when nobody is left, else the turn moves on; the shoe, its id and the dealt record change only when the dealer draws, and then by exactly the dealer's new cards |

## Left out

- Express, socket.io and all broadcasts: `tableState`, `playerChips`, `roundResult`, `welcome`, `errorMsg` and the delayed lobby broadcast (`setTimeout`). Handlers return a `Reply` instead, and `SafeState` is the broadcast view as a function.
- MongoDB: `Player` and `HandHistory` are the `accounts` map and the `history` sequence of the table. The awaits are synchronous steps, and ledger writes never fail.
- joinGame: the name check, trimming to 24 characters and account creation with 1000 chips. SitDown takes the socket's name as a parameter, where "" means "has not joined".
- `cryptoRand`, `Math.random` and the shuffle's random index: each `j` is any index in range. The shoe id is a counter that goes up on every rebuild, not a random string.
- The health route, logging, `script.js` and `public/client.js`.
- placeBet parsing (`Math.floor(Number(amount) || 0)`): the amount is already an integer.
- Blackjack.Table.DealNow: a card dealt after a rebuild is tied to the new shoe only through its record and `Conserved` (together they make a full shoe), not to a position in it, because the shuffle is arbitrary. Cards dealt before the rebuild are the old shoe's top cards, in order.
- Shoe.DrawnAs: for a run of more than 252 cards after the first rebuild, which could cross a second rebuild, it ties only the cards before the first rebuild and the cards in the last record. A rebuilt shoe holds 311 cards after its first card and is rebuilt again only below 60. No handler deals that many: a deal takes at most 12 cards, a hit one, and the dealer stops drawing once the hand holds 17 cards at the latest. The model does not prove this bound for each handler.
- Blackjack.Table.Hit: the card is a ghost out-parameter, because the handler returns nothing; it is tied to the shoe by the record of dealt cards.
- HandHistory's `ts` (server.js:36) and Player's `lastLogin` (server.js:25) are not modelled: both come from the clock.
- Blackjack.Table.DealCard: after a rebuild it states the size of the new shoe, not which card was drawn, because the shuffle is arbitrary.
- Seats are values in a sequence, not shared objects. `server.js` does keep references past a handler: the `.then` callback of settleAndSave reads `s.name` (server.js:335-337) and the history snapshot holds `cards: s.cards` for the asynchronous `HandHistory.create` (server.js:340-341, 346). No handler renames a seat, and a seat's cards array is replaced rather than changed in place when a round is reset or dealt (server.js:157, 235-237); `hit` pushes onto it (server.js:268) only while the seat is acting, so only onto the array dealt in the current round and before that round is settled. So nothing those references see can differ from the values the model records.
- The `dealing` phase exists only inside `dealNow` and is never seen between handlers.
- Settlement.Settle: the floating-point `Math.floor(bet * 2.5)` is the integer `(5 * bet) / 2`, which is equal for the non-negative integer bets the table holds.

## Findings

| source | as written | input that shows it | evidently intended | confidence | as-written member | corrected member |
|---|---|---|---|---|---|---|
| server.js:257-260 | a deal that leaves nobody to act sets the phase to payout (dealer natural) or dealer, and no handler ever settles the round or leaves that phase | bets placed, and the dealer is dealt A♠ K♠ | the dealer turns over, draws to 17 and the round is settled back to the lobby, as nextTurn does | high, not executed | Blackjack.DealerNaturalStalls | Blackjack.Table.DealNowSettled |

After a stall, every handler's contract shows the table stays put:
- `StartBetting` is ignored outside the lobby.
- `DealNow` is ignored outside betting.
- `Hit` and `Stand` are ignored outside acting.
- `SitDown` and `StandUp` are refused or ignored (ignored for a socket that has not joined, or has no seat).
- `Disconnect` keeps the phase.
