/// The single table "main": its seats, dealer hand, shoe and phase, the socket
/// handlers that change them, the dealer's draw, settlement against the ledger and
/// the view broadcast to clients.
module Blackjack {
  import opened Cards
  import opened Shoe
  import opened Settlement

  const TABLE_ID := "main"
  const MAX_SEATS := 5
  const MIN_BET := 10
  /** The dealer draws while the hand totals less than this. */
  const DEALER_STANDS := 17
  /** What clients see in place of the dealer's hole card. */
  const HIDDEN := "##"

  datatype Option<T> = None | Some(value: T)

  type SocketId = string

  datatype Phase = Lobby | Betting | Dealing | Acting | DealerTurn | Payout

  /** One seat. Fields a freshly pushed seat leaves unset read as 0, [], false or None. */
  datatype Seat = Seat(
    seat: nat, socketId: SocketId, name: string,
    bet: int, cards: seq<Card>,
    done: bool, busted: bool, stood: bool, turn: bool,
    result: Option<Outcome>, payout: int)

  /** Why a handler answered with an error message. */
  datatype Reason =
    | CannotSitNow | TableFull | RoundInProgress
    | BelowMinimumBet | NotSeated | NotBettingPhase | NotEnoughChips

  /** Accepted: the table changed; Ignored: the handler returned silently; Refused: it sent an error. */
  datatype Reply = Accepted | Ignored | Refused(reason: Reason)

  /** One seat's line in a stored hand history. */
  datatype SeatRecord = SeatRecord(name: string, bet: int, cards: seq<Card>, result: Outcome, payout: int)

  datatype HandRecord = HandRecord(table: string, shoeId: nat, seats: seq<SeatRecord>, dealer: seq<Card>)

  // ---------------------------------------------------------------- lookups

  /** The first position whose element satisfies `p`, like Array.prototype.findIndex. */
  function FindIndex<T>(s: seq<T>, p: T -> bool): (r: Option<nat>)
    ensures r.Some? ==> r.value < |s| && p(s[r.value]) && forall k | 0 <= k < r.value :: !p(s[k])
    ensures r.None? ==> forall k | 0 <= k < |s| :: !p(s[k])
  {
    if s == [] then None
    else if p(s[0]) then Some(0)
    else match FindIndex(s[1..], p)
      case None => None
      case Some(k) => Some(k + 1)
  }

  /** The seat of a socket: the first seat with that socket id. */
  function SeatBySocket(seats: seq<Seat>, id: SocketId): (r: Option<nat>)
    ensures r.Some? ==> r.value < |seats| && seats[r.value].socketId == id
    ensures r.Some? ==> forall k | 0 <= k < r.value :: seats[k].socketId != id
    ensures r.None? ==> forall k | 0 <= k < |seats| :: seats[k].socketId != id
  {
    FindIndex(seats, (s: Seat) => s.socketId == id)
  }

  /** A seat still has to act: it holds cards and is not done. */
  predicate Active(s: Seat)
  {
    |s.cards| > 0 && !s.done
  }

  function FirstActive(seats: seq<Seat>): (r: Option<nat>)
    ensures r.Some? ==> r.value < |seats| && Active(seats[r.value])
    ensures r.Some? ==> forall k | 0 <= k < r.value :: !Active(seats[k])
    ensures r.None? ==> forall k | 0 <= k < |seats| :: !Active(seats[k])
  {
    FindIndex(seats, Active)
  }

  /** Seat number `i` is occupied. */
  predicate Taken(seats: seq<Seat>, i: int)
  {
    exists k | 0 <= k < |seats| :: seats[k].seat == i
  }

  /** Two sequences whose elements agree on the tested property have the same first match. */
  lemma FindIndexAgree<T, U>(a: seq<T>, b: seq<U>, p: T -> bool, q: U -> bool)
    requires |a| == |b| && forall k | 0 <= k < |a| :: p(a[k]) == q(b[k])
    ensures FindIndex(a, p) == FindIndex(b, q)
  {
    var ra, rb := FindIndex(a, p), FindIndex(b, q);
    if ra.Some? && rb.Some? {
      assert !(ra.value < rb.value) && !(rb.value < ra.value);
    }
  }

  /** Changing what does not bear on Active leaves the first active seat where it was. */
  lemma FirstActiveAgree(a: seq<Seat>, b: seq<Seat>)
    requires |a| == |b| && forall k | 0 <= k < |a| :: Active(a[k]) == Active(b[k])
    ensures FirstActive(a) == FirstActive(b)
  {
    FindIndexAgree(a, b, Active, Active);
  }

  // ---------------------------------------------------------------- seats

  predicate SeatOk(s: Seat)
  {
    && s.seat < MAX_SEATS
    && s.bet >= 0
    && (s.busted <==> Total(s.cards) > BLACKJACK)
    && (s.busted ==> s.done)
  }

  /** Every seat is well formed and no two share a seat number or a socket. */
  predicate SeatsOk(seats: seq<Seat>)
  {
    && (forall k | 0 <= k < |seats| :: SeatOk(seats[k]))
    && (forall i, j | 0 <= i < j < |seats| :: seats[i].seat != seats[j].seat && seats[i].socketId != seats[j].socketId)
  }

  predicate NoTurn(seats: seq<Seat>)
  {
    forall k | 0 <= k < |seats| :: !seats[k].turn
  }

  predicate AtMostOneTurn(seats: seq<Seat>)
  {
    forall i, j | 0 <= i < j < |seats| :: !(seats[i].turn && seats[j].turn)
  }

  /** Outside the acting phase nobody holds the turn; in it, exactly the first active seat does. */
  predicate TurnOk(phase: Phase, seats: seq<Seat>)
  {
    && (phase == Acting ==> FirstActive(seats).Some?)
    && forall k | 0 <= k < |seats| :: seats[k].turn <==> (phase == Acting && FirstActive(seats) == Some(k))
  }

  /** At most one seat holds the turn at any time. */
  lemma OneTurnHolder(phase: Phase, seats: seq<Seat>)
    requires TurnOk(phase, seats)
    ensures AtMostOneTurn(seats)
    ensures phase != Acting ==> NoTurn(seats)
  {
  }

  /** A seat that has not yet taken part in the current round. */
  predicate Unplayed(s: Seat)
  {
    s.cards == [] && !s.done && !s.busted && !s.stood && !s.turn && s.result == None && s.payout == 0
  }

  predicate AllUnplayed(seats: seq<Seat>)
  {
    forall k | 0 <= k < |seats| :: Unplayed(seats[k])
  }

  /** The invariant on the table's seats, turns and phase between two handler calls:
      during betting the dealer has no cards and no seat has played yet. */
  predicate TableOk(phase: Phase, dealer: seq<Card>, seats: seq<Seat>)
  {
    && SeatsOk(seats)
    && TurnOk(phase, seats)
    && phase != Dealing
    && (phase == Betting ==> dealer == [] && AllUnplayed(seats))
  }

  /** The seat sitDown pushes: nothing but its number, socket and player name. */
  function NewSeat(seat: nat, id: SocketId, name: string): (r: Seat)
    ensures Unplayed(r) && r.bet == 0 && r.seat == seat && r.socketId == id && r.name == name
  {
    Seat(seat, id, name, 0, [], false, false, false, false, None, 0)
  }

  /** The per-seat part of resetRound. */
  function ResetSeat(s: Seat): (r: Seat)
    ensures r.bet == 0 && Unplayed(r.(turn := false))
    ensures r.seat == s.seat && r.socketId == s.socketId && r.name == s.name && r.turn == s.turn
  {
    s.(cards := [], bet := 0, done := false, busted := false, stood := false, result := None, payout := 0)
  }

  function SeatNumbers(seats: seq<Seat>): set<int>
  {
    if seats == [] then {} else SeatNumbers(seats[..|seats| - 1]) + {seats[|seats| - 1].seat}
  }

  lemma {:induction false} SeatNumbersCount(seats: seq<Seat>)
    requires forall i, j | 0 <= i < j < |seats| :: seats[i].seat != seats[j].seat
    ensures |SeatNumbers(seats)| == |seats|
    ensures forall x :: x in SeatNumbers(seats) <==> Taken(seats, x)
  {
    if seats != [] {
      var n := |seats| - 1;
      var p := seats[..n];
      assert forall k | 0 <= k < n :: p[k] == seats[k];
      SeatNumbersCount(p);
      assert forall k | 0 <= k < n :: p[k].seat != seats[n].seat;
      forall x ensures x in SeatNumbers(seats) <==> Taken(seats, x) {
        if Taken(seats, x) {
          var k :| 0 <= k < |seats| && seats[k].seat == x;
          if k < n { assert p[k].seat == x; }
        }
      }
    }
  }

  lemma SubsetCard<T>(a: set<T>, b: set<T>)
    requires a <= b
    ensures |a| <= |b| && (|a| == |b| ==> a == b)
    decreases |b|
  {
    if b != {} {
      var x :| x in b;
      SubsetCard(a - {x}, b - {x});
      if x in a {
        assert a == (a - {x}) + {x};
        assert b == (b - {x}) + {x};
      } else {
        assert a - {x} == a;
      }
    }
  }

  /** The seat numbers a table can hold. */
  const SEAT_RANGE: set<int> := {0, 1, 2, 3, 4}

  lemma SeatRangeSize()
    ensures |SEAT_RANGE| == MAX_SEATS
    ensures forall i :: i in SEAT_RANGE <==> 0 <= i < MAX_SEATS
  {
  }

  /** Valid seats use distinct numbers from SEAT_RANGE. */
  lemma SeatNumbersInRange(seats: seq<Seat>)
    requires SeatsOk(seats)
    ensures SeatNumbers(seats) <= SEAT_RANGE && |SeatNumbers(seats)| == |seats|
    ensures forall x :: x in SeatNumbers(seats) <==> Taken(seats, x)
  {
    SeatNumbersCount(seats);
    SeatRangeSize();
    forall x | x in SeatNumbers(seats) ensures x in SEAT_RANGE {
      var k :| 0 <= k < |seats| && seats[k].seat == x;
      assert SeatOk(seats[k]);
    }
  }

  /** Distinct seat numbers below MAX_SEATS: at most MAX_SEATS seats, and every
      number is taken exactly when all MAX_SEATS seats are filled. */
  lemma SeatsFit(seats: seq<Seat>)
    requires SeatsOk(seats)
    ensures |seats| <= MAX_SEATS
    ensures (forall i | 0 <= i < MAX_SEATS :: Taken(seats, i)) <==> |seats| == MAX_SEATS
  {
    SeatNumbersInRange(seats);
    SeatRangeSize();
    var used := SeatNumbers(seats);
    SubsetCard(used, SEAT_RANGE);
    if forall i | 0 <= i < MAX_SEATS :: Taken(seats, i) {
      assert SEAT_RANGE <= used;
      SubsetCard(SEAT_RANGE, used);
    }
    if |seats| == MAX_SEATS {
      assert used == SEAT_RANGE;
      forall i | 0 <= i < MAX_SEATS ensures Taken(seats, i) {
        assert i in used;
      }
    }
  }

  /** Socket ids are unique, so a seated socket finds its own seat. */
  lemma SeatOfSocket(seats: seq<Seat>, k: nat)
    requires SeatsOk(seats) && k < |seats|
    ensures SeatBySocket(seats, seats[k].socketId) == Some(k)
  {
    assert forall j | 0 <= j < |seats| && j != k :: seats[j].socketId != seats[k].socketId;
  }

  /** The seats whose socket is not `id`, in order (Array.prototype.filter). */
  function Without(seats: seq<Seat>, id: SocketId): (r: seq<Seat>)
    ensures |r| <= |seats|
  {
    if seats == [] then []
    else (if seats[0].socketId == id then [] else [seats[0]]) + Without(seats[1..], id)
  }

  lemma {:induction false} WithoutNone(seats: seq<Seat>, id: SocketId)
    requires forall k | 0 <= k < |seats| :: seats[k].socketId != id
    ensures Without(seats, id) == seats
  {
    if seats != [] {
      WithoutNone(seats[1..], id);
    }
  }

  /** Filtering out a socket that holds exactly seat `i` removes exactly that seat. */
  lemma {:induction false} WithoutOne(seats: seq<Seat>, id: SocketId, i: nat)
    requires i < |seats| && seats[i].socketId == id
    requires forall k | 0 <= k < |seats| && k != i :: seats[k].socketId != id
    ensures Without(seats, id) == seats[..i] + seats[i + 1..]
  {
    if i == 0 {
      WithoutNone(seats[1..], id);
    } else {
      WithoutOne(seats[1..], id, i - 1);
      assert seats[..i] == [seats[0]] + seats[1..][..i - 1];
      assert seats[i + 1..] == seats[1..][i..];
    }
  }

  /** Removing one seat between rounds keeps the table invariant. */
  lemma RemoveSeat(phase: Phase, dealer: seq<Card>, seats: seq<Seat>, i: nat)
    requires i < |seats| && TableOk(phase, dealer, seats) && (phase == Lobby || phase == Betting)
    ensures TableOk(phase, dealer, seats[..i] + seats[i + 1..])
  {
    var r := seats[..i] + seats[i + 1..];
    assert forall k | 0 <= k < |r| :: r[k] == seats[if k < i then k else k + 1];
  }

  /** A new seat in a free place for a socket not yet seated keeps the table invariant. */
  lemma SeatAdded(phase: Phase, dealer: seq<Card>, seats: seq<Seat>, s: Seat)
    requires TableOk(phase, dealer, seats) && (phase == Lobby || phase == Betting)
    requires Unplayed(s) && s.bet == 0 && s.seat < MAX_SEATS && !Taken(seats, s.seat)
    requires SeatBySocket(seats, s.socketId).None?
    ensures TableOk(phase, dealer, seats + [s])
  {
    var r := seats + [s];
    assert forall k | 0 <= k < |seats| :: r[k] == seats[k];
  }

  /** resetRound in the lobby opens a betting phase that satisfies the invariant. */
  lemma ResetKeeps(dealer: seq<Card>, seats: seq<Seat>, reset: seq<Seat>)
    requires TableOk(Lobby, dealer, seats)
    requires |reset| == |seats| && forall k | 0 <= k < |seats| :: reset[k] == ResetSeat(seats[k])
    ensures TableOk(Betting, [], reset)
  {
    assert forall k | 0 <= k < |seats| :: reset[k].seat == seats[k].seat && reset[k].socketId == seats[k].socketId;
  }

  /** A bet of at least the minimum during betting keeps the invariant. */
  lemma BetKeeps(dealer: seq<Card>, seats: seq<Seat>, i: nat, amount: int)
    requires TableOk(Betting, dealer, seats) && i < |seats| && amount >= MIN_BET
    ensures TableOk(Betting, dealer, seats[i := seats[i].(bet := amount)])
  {
  }

  /** A hit that does not bust keeps the hand active and the turn where it is. */
  lemma HitKeeps(dealer: seq<Card>, seats: seq<Seat>, k: nat, hand: seq<Card>)
    requires TableOk(Acting, dealer, seats) && k < |seats| && seats[k].turn
    requires hand != [] && Total(hand) <= BLACKJACK
    ensures TableOk(Acting, dealer, seats[k := seats[k].(cards := hand)])
  {
    var r := seats[k := seats[k].(cards := hand)];
    FirstActiveAgree(seats, r);
  }

  /** A seat marked done without the turn: the seats stay well formed and at most one
      turn is left; when nobody active remains, nobody holds the turn. */
  lemma SeatLeaves(phase: Phase, dealer: seq<Card>, seats: seq<Seat>, k: nat, s: Seat)
    requires TableOk(phase, dealer, seats) && k < |seats|
    requires SeatOk(s) && s.done && !s.turn
    requires s.seat == seats[k].seat && s.socketId == seats[k].socketId
    ensures var mid := seats[k := s];
      && SeatsOk(mid) && AtMostOneTurn(mid)
      && (phase != Acting && phase != Betting ==> TableOk(phase, dealer, mid))
      && (phase == Acting && FirstActive(mid).None? ==> NoTurn(mid))
  {
    var mid := seats[k := s];
    if phase == Acting {
      var t := FirstActive(seats).value;
      assert t != k ==> mid[t] == seats[t] && Active(mid[t]);
    }
  }

  // ---------------------------------------------------------------- dealer

  /** The dealer's draw: `after` extends `before`, reaches DEALER_STANDS and every hand
      in between (each point at which the dealer chose to draw) was below it. */
  ghost predicate DealerDrawn(before: seq<Card>, after: seq<Card>)
  {
    && |before| <= |after| && after[..|before|] == before
    && Total(after) >= DEALER_STANDS
    && forall n | |before| <= n < |after| :: Total(after[..n]) < DEALER_STANDS
  }

  /** A dealer hand that already stands draws nothing. */
  lemma DealerKeepsStandingHand(before: seq<Card>, after: seq<Card>)
    requires DealerDrawn(before, after) && Total(before) >= DEALER_STANDS
    ensures after == before
  {
    assert after[..|before|] == before;
    assert Total(after[..|before|]) >= DEALER_STANDS;
  }

  // ---------------------------------------------------------------- settlement

  /** settleAndSave skips seats without a positive bet or without cards. */
  predicate Settles(s: Seat)
  {
    s.bet > 0 && |s.cards| > 0
  }

  function SeatOutcome(s: Seat, dealer: seq<Card>): Settled
  {
    Settle(s.bet, s.cards, s.busted, dealer)
  }

  function SettleSeat(s: Seat, dealer: seq<Card>): (r: Seat)
    ensures r == s.(result := r.result, payout := r.payout)
    ensures Settles(s) ==> r.result.Some? && 0 <= r.payout <= (5 * s.bet) / 2
  {
    if Settles(s) then
      var st := SeatOutcome(s, dealer);
      s.(result := Some(st.result), payout := st.payout)
    else s
  }

  function SettleSeats(seats: seq<Seat>, dealer: seq<Card>): (r: seq<Seat>)
    ensures |r| == |seats|
  {
    seq(|seats|, k requires 0 <= k < |seats| => SettleSeat(seats[k], dealer))
  }

  /** The ledger after crediting one seat: only a settled seat whose player exists is credited. */
  function CreditSeat(acc: map<string, Account>, s: Seat, dealer: seq<Card>): map<string, Account>
  {
    if Settles(s) && s.name in acc then acc[s.name := Credit(acc[s.name], SeatOutcome(s, dealer))] else acc
  }

  /** The ledger after crediting the seats in order. */
  function CreditAll(acc: map<string, Account>, seats: seq<Seat>, dealer: seq<Card>): map<string, Account>
  {
    if seats == [] then acc
    else CreditSeat(CreditAll(acc, seats[..|seats| - 1], dealer), seats[|seats| - 1], dealer)
  }

  /** The history line of a settled seat. */
  function Record(s: Seat, dealer: seq<Card>): (r: SeatRecord)
    ensures Settles(s) ==> SettleSeat(s, dealer).result == Some(r.result) && SettleSeat(s, dealer).payout == r.payout
  {
    var st := SeatOutcome(s, dealer);
    SeatRecord(s.name, s.bet, s.cards, st.result, st.payout)
  }

  /** The history lines of the settled seats, in order. */
  function Snapshots(seats: seq<Seat>, dealer: seq<Card>): seq<SeatRecord>
  {
    if seats == [] then []
    else
      var s := seats[|seats| - 1];
      Snapshots(seats[..|seats| - 1], dealer) + if Settles(s) then [Record(s, dealer)] else []
  }

  /** Crediting the seats neither adds nor removes a player. */
  lemma {:induction false} CreditAllKeys(acc: map<string, Account>, seats: seq<Seat>, dealer: seq<Card>)
    ensures CreditAll(acc, seats, dealer).Keys == acc.Keys
  {
    if seats != [] {
      CreditAllKeys(acc, seats[..|seats| - 1], dealer);
    }
  }

  /** Crediting one seat touches only that seat's player. */
  lemma CreditSeatOthers(acc: map<string, Account>, s: Seat, dealer: seq<Card>, n: string)
    requires n in acc && n != s.name
    ensures n in CreditSeat(acc, s, dealer) && CreditSeat(acc, s, dealer)[n] == acc[n]
  {
  }

  /** The history holds at most one line per seat, and each line is a seat with a bet and cards. */
  lemma {:induction false} SnapshotsSettled(seats: seq<Seat>, dealer: seq<Card>)
    ensures |Snapshots(seats, dealer)| <= |seats|
    ensures forall j | 0 <= j < |Snapshots(seats, dealer)| ::
      Snapshots(seats, dealer)[j].bet > 0 && Snapshots(seats, dealer)[j].cards != []
  {
    if seats != [] {
      SnapshotsSettled(seats[..|seats| - 1], dealer);
    }
  }

  /** The payouts recorded on the seats of player `name` that were settled. */
  function RecordedPayouts(seats: seq<Seat>, name: string): int
  {
    if seats == [] then 0
    else
      var s := seats[|seats| - 1];
      RecordedPayouts(seats[..|seats| - 1], name) + (if Settles(s) && s.name == name then s.payout else 0)
  }

  /** Settlement credits each player's balance with exactly the payouts recorded on
      that player's settled seats, and touches no other ledger entry. */
  lemma {:induction false} CreditAllChips(acc: map<string, Account>, seats: seq<Seat>, dealer: seq<Card>, name: string)
    ensures name in CreditAll(acc, seats, dealer) <==> name in acc
    ensures name in acc ==>
      CreditAll(acc, seats, dealer)[name].chips == acc[name].chips + RecordedPayouts(SettleSeats(seats, dealer), name)
  {
    if seats != [] {
      var n := |seats| - 1;
      CreditAllChips(acc, seats[..n], dealer, name);
      assert SettleSeats(seats, dealer)[..n] == SettleSeats(seats[..n], dealer);
    }
  }

  predicate AccountsOk(acc: map<string, Account>)
  {
    forall n | n in acc :: acc[n].chips >= 0
  }

  /** With non-negative bets, settlement never makes a balance negative. */
  lemma {:induction false} CreditAllKeepsChips(acc: map<string, Account>, seats: seq<Seat>, dealer: seq<Card>)
    requires AccountsOk(acc) && forall k | 0 <= k < |seats| :: seats[k].bet >= 0
    ensures AccountsOk(CreditAll(acc, seats, dealer))
  {
    if seats != [] {
      var n := |seats| - 1;
      assert forall k | 0 <= k < n :: seats[..n][k] == seats[k];
      CreditAllKeepsChips(acc, seats[..n], dealer);
    }
  }

  /** Settling keeps every seat but its result and payout, so the lobby invariant holds after. */
  lemma SettleKeepsSeats(dealer: seq<Card>, seats: seq<Seat>)
    requires SeatsOk(seats) && NoTurn(seats)
    ensures TableOk(Lobby, dealer, SettleSeats(seats, dealer))
    ensures forall k | 0 <= k < |seats| :: SettleSeats(seats, dealer)[k].cards == seats[k].cards
  {
    var r := SettleSeats(seats, dealer);
    assert forall k | 0 <= k < |seats| :: r[k].seat == seats[k].seat && r[k].socketId == seats[k].socketId;
  }

  lemma CreditStep(acc: map<string, Account>, seats: seq<Seat>, i: nat, dealer: seq<Card>)
    requires i < |seats|
    ensures CreditAll(acc, seats[..i + 1], dealer) == CreditSeat(CreditAll(acc, seats[..i], dealer), seats[i], dealer)
  {
    assert seats[..i + 1][..i] == seats[..i];
  }

  lemma SnapshotStep(seats: seq<Seat>, i: nat, dealer: seq<Card>)
    requires i < |seats|
    ensures Snapshots(seats[..i + 1], dealer) ==
      Snapshots(seats[..i], dealer) + if Settles(seats[i]) then [Record(seats[i], dealer)] else []
  {
    assert seats[..i + 1][..i] == seats[..i];
  }

  // ---------------------------------------------------------------- turns

  predicate HasTurn(s: Seat)
  {
    s.turn
  }

  function FirstTurn(seats: seq<Seat>): (r: Option<nat>)
    ensures r.Some? ==> r.value < |seats| && seats[r.value].turn
    ensures r.Some? ==> forall k | 0 <= k < r.value :: !seats[k].turn
    ensures r.None? ==> NoTurn(seats)
  {
    FindIndex(seats, HasTurn)
  }

  /** The turn holder found by findIndex loses the turn. */
  function ClearFirstTurn(seats: seq<Seat>): (r: seq<Seat>)
    ensures |r| == |seats|
  {
    match FirstTurn(seats)
    case None => seats
    case Some(t) => seats[t := seats[t].(turn := false)]
  }

  /** With at most one turn holder, clearing the first clears every turn and nothing else. */
  lemma ClearFirstTurnClears(seats: seq<Seat>)
    requires AtMostOneTurn(seats)
    ensures forall k | 0 <= k < |seats| :: ClearFirstTurn(seats)[k] == seats[k].(turn := false)
    ensures NoTurn(ClearFirstTurn(seats))
    ensures SeatsOk(seats) ==> SeatsOk(ClearFirstTurn(seats))
  {
    var t := FirstTurn(seats);
    forall k | 0 <= k < |seats| ensures ClearFirstTurn(seats)[k] == seats[k].(turn := false) {
      if t.Some? && k != t.value {
        if k < t.value {
          assert !seats[k].turn;
        } else {
          assert !(seats[t.value].turn && seats[k].turn);
        }
      }
    }
  }

  /** Giving the turn to the first active seat when nobody holds it establishes the turn invariant. */
  lemma GiveTurn(dealer: seq<Card>, seats: seq<Seat>)
    requires SeatsOk(seats) && NoTurn(seats) && FirstActive(seats).Some?
    ensures var n := FirstActive(seats).value;
      var r := seats[n := seats[n].(turn := true)];
      && TableOk(Acting, dealer, r) && FirstActive(r) == FirstActive(seats)
      && forall k | 0 <= k < |seats| :: r[k] == seats[k].(turn := k == n)
  {
    var n := FirstActive(seats).value;
    var r := seats[n := seats[n].(turn := true)];
    FirstActiveAgree(seats, r);
  }

  // ---------------------------------------------------------------- the view

  datatype PublicSeat = PublicSeat(
    seat: nat, name: string, bet: int, cards: seq<Card>,
    done: bool, stood: bool, busted: bool, socketId: SocketId)

  datatype View = View(tableId: string, phase: Phase, dealer: seq<string>, seats: seq<PublicSeat>, shoeLeft: nat)

  function Public(s: Seat): PublicSeat
  {
    PublicSeat(s.seat, s.name, s.bet, s.cards, s.done, s.stood, s.busted, s.socketId)
  }

  /** safeState: the table as broadcast; while players act the dealer's first card is masked. */
  function SafeState(phase: Phase, dealer: seq<Card>, seats: seq<Seat>, shoeLeft: nat): (v: View)
    ensures v.tableId == TABLE_ID && v.phase == phase && v.shoeLeft == shoeLeft
    ensures |v.dealer| == |dealer| && |v.seats| == |seats|
    ensures forall k | 0 <= k < |seats| :: v.seats[k] == Public(seats[k])
  {
    var shown: seq<string> := dealer;
    View(TABLE_ID, phase,
         if phase == Acting && |shown| > 0 then shown[0 := HIDDEN] else shown,
         seq(|seats|, k requires 0 <= k < |seats| => Public(seats[k])),
         shoeLeft)
  }

  /** Only the hole card is masked, only while acting, and the mask never passes for a card. */
  lemma SafeStateMasks(phase: Phase, dealer: seq<Card>, seats: seq<Seat>, shoeLeft: nat)
    ensures var v := SafeState(phase, dealer, seats, shoeLeft);
      && (forall k | 0 < k < |dealer| :: v.dealer[k] == dealer[k])
      && (|dealer| > 0 ==> v.dealer[0] == if phase == Acting then HIDDEN else dealer[0])
      && (HIDDEN in v.dealer <==> phase == Acting && |dealer| > 0)
  {
    var v := SafeState(phase, dealer, seats, shoeLeft);
    MaskIsNotACard();
    if HIDDEN in v.dealer {
      var k :| 0 <= k < |v.dealer| && v.dealer[k] == HIDDEN;
      if !(phase == Acting && k == 0) {
        assert v.dealer[k] == dealer[k];
      }
    }
  }

  /** While players act the view does not depend on the hole card. */
  lemma HoleCardHidden(dealer1: seq<Card>, dealer2: seq<Card>, seats: seq<Seat>, shoeLeft: nat)
    requires |dealer1| == |dealer2| > 0 && dealer1[1..] == dealer2[1..]
    ensures SafeState(Acting, dealer1, seats, shoeLeft) == SafeState(Acting, dealer2, seats, shoeLeft)
  {
    var v1, v2 := SafeState(Acting, dealer1, seats, shoeLeft), SafeState(Acting, dealer2, seats, shoeLeft);
    forall k | 0 < k < |dealer1| ensures v1.dealer[k] == v2.dealer[k] {
      assert dealer1[k] == dealer1[1..][k - 1];
    }
    assert v1.dealer == v2.dealer;
  }

  // ---------------------------------------------------------------- dealing

  /** The seat holding seat number `i`, as the search in seatIndexFree finds it. */
  function SeatAt(seats: seq<Seat>, i: int): (r: Option<nat>)
    ensures r.None? <==> !Taken(seats, i)
    ensures r.Some? ==> r.value < |seats| && seats[r.value].seat == i
  {
    FindIndex(seats, (s: Seat) => s.seat == i)
  }

  predicate HasBet(s: Seat)
  {
    s.bet > 0
  }

  /** The first dealing loop of dealNow on one seat: two cards to a seat with a bet;
      a seat without one gets no cards and is done. */
  ghost predicate DealtCards(o: Seat, n: Seat)
  {
    && n == o.(cards := n.cards, done := n.done)
    && if o.bet > 0 then |n.cards| == 2 && n.done == o.done else n.cards == [] && n.done
  }

  /** The seats' cards, one hand after another in seat order, the order in which the first
      dealing loop of dealNow deals them. */
  function AllCards(seats: seq<Seat>): seq<Card>
  {
    if seats == [] then [] else AllCards(seats[..|seats| - 1]) + seats[|seats| - 1].cards
  }

  lemma AllCardsStep(seats: seq<Seat>, i: nat)
    requires i < |seats|
    ensures AllCards(seats[..i + 1]) == AllCards(seats[..i]) + seats[i].cards
  {
    assert seats[..i + 1][..i] == seats[..i];
  }

  /** `a` and `b` hold the same hands seat by seat. */
  ghost predicate SameCards(a: seq<Seat>, b: seq<Seat>)
  {
    |a| == |b| && forall k | 0 <= k < |a| :: a[k].cards == b[k].cards
  }

  lemma {:induction false} AllCardsSame(a: seq<Seat>, b: seq<Seat>)
    requires SameCards(a, b)
    ensures AllCards(a) == AllCards(b)
  {
    if a != [] {
      var n := |a| - 1;
      assert SameCards(a[..n], b[..n]);
      AllCardsSame(a[..n], b[..n]);
    }
  }

  /** The natural check of dealNow on one seat: a seat holding cards is done when it
      or the dealer has a natural. */
  function Marked(s: Seat, dealerBJ: bool): (r: Seat)
    ensures r == s.(done := r.done)
    ensures r.done <==> s.done || (|s.cards| > 0 && (IsBJ(s.cards) || dealerBJ))
  {
    if |s.cards| > 0 && (IsBJ(s.cards) || dealerBJ) then s.(done := true) else s
  }

  /** The whole deal of dealNow on one seat: two cards for a bet, and the seat is done
      exactly when it has a natural, the dealer has one, or it placed no bet. */
  ghost predicate Dealt(o: Seat, n: Seat, dealerBJ: bool)
  {
    && n == o.(cards := n.cards, done := n.done, turn := n.turn)
    && if o.bet > 0 then |n.cards| == 2 && (n.done <==> IsBJ(n.cards) || dealerBJ)
       else n.cards == [] && n.done
  }

  /** A deal from a betting table of unplayed seats leaves well-formed seats without a turn:
      two cards are never bust, and only the seats with a bet hold cards. */
  lemma DealtRound(start: seq<Seat>, hands: seq<Seat>, marked: seq<Seat>, dealerBJ: bool)
    requires SeatsOk(start) && AllUnplayed(start)
    requires |hands| == |start| && forall k | 0 <= k < |start| :: DealtCards(start[k], hands[k])
    requires |marked| == |hands| && forall k | 0 <= k < |hands| :: marked[k] == Marked(hands[k], dealerBJ)
    ensures SeatsOk(marked) && NoTurn(marked)
    ensures forall k | 0 <= k < |start| :: Dealt(start[k], marked[k], dealerBJ)
  {
    forall k | 0 <= k < |start|
      ensures SeatOk(marked[k]) && Dealt(start[k], marked[k], dealerBJ)
      ensures marked[k].seat == start[k].seat && marked[k].socketId == start[k].socketId
    {
      var h := hands[k];
      assert Unplayed(start[k]) && SeatOk(start[k]) && DealtCards(start[k], h);
      if start[k].bet > 0 {
        assert h.cards == [h.cards[0], h.cards[1]];
        TwoCardsNotBust(h.cards[0], h.cards[1]);
      }
    }
  }

  /** After the deal, the turn goes to the first seat still to act. */
  lemma TurnAfterDeal(dealer: seq<Card>, start: seq<Seat>, marked: seq<Seat>, dealerBJ: bool)
    requires SeatsOk(marked) && NoTurn(marked) && FirstActive(marked).Some?
    requires |dealer| == 2 && dealerBJ == IsBJ(dealer) && !dealerBJ
    requires |marked| == |start| && forall k | 0 <= k < |start| :: Dealt(start[k], marked[k], dealerBJ)
    ensures var n := FirstActive(marked).value;
      var r := marked[n := marked[n].(turn := true)];
      && TableOk(Acting, dealer, r) && FirstActive(r) == FirstActive(marked)
      && RoundDealt(start, dealer, r, Acting) && SameCards(marked, r)
  {
    GiveTurn(dealer, marked);
    var n := FirstActive(marked).value;
    var r := marked[n := marked[n].(turn := true)];
    assert forall k | 0 <= k < |start| :: Dealt(start[k], r[k], dealerBJ);
  }

  /** dealNow dealt the round from seats `start`: two dealer cards, every seat dealt as
      Dealt says, and the phase chosen by whether the dealer has a natural and whether a
      seat is left to act. */
  ghost predicate RoundDealt(start: seq<Seat>, dealer: seq<Card>, seats: seq<Seat>, phase: Phase)
  {
    && |dealer| == 2 && |seats| == |start|
    && (forall k | 0 <= k < |seats| :: Dealt(start[k], seats[k], IsBJ(dealer)))
    && phase == if IsBJ(dealer) then Payout else if FirstActive(seats).Some? then Acting else DealerTurn
  }

  /** The phases some handler moves the table on from: sitDown and startBetting in the
      lobby, dealNow in betting, hit and stand while players act. In the dealer and payout
      phases every handler is ignored or refused and keeps the phase. */
  predicate Live(phase: Phase)
  {
    phase == Lobby || phase == Betting || phase == Acting
  }

  /** A dealer natural, ace of spades and king of spades. */
  const DEALER_NATURAL: seq<Card> := ["AS", "KS"]

  /** dealNow as written: after a dealer natural it leaves the table in the payout phase,
      which no handler leaves again, whatever the seats hold. */
  lemma DealerNaturalStalls(start: seq<Seat>, seats: seq<Seat>, phase: Phase)
    requires RoundDealt(start, DEALER_NATURAL, seats, phase)
    ensures IsBJ(DEALER_NATURAL) && phase == Payout && !Live(phase)
  {
    IsBJIffAceAndTen(DEALER_NATURAL);
    assert ParseRank(DEALER_NATURAL[0]) == "A" && ParseRank(DEALER_NATURAL[1]) == "K";
  }

  // ---------------------------------------------------------------- dealer draw steps

  /** The dealer's draw so far: `now` extends `before` and every hand in between was below
      DEALER_STANDS. */
  ghost predicate DrawnSoFar(before: seq<Card>, now: seq<Card>)
  {
    && |before| <= |now| && now[..|before|] == before
    && forall n | |before| <= n < |now| :: Total(now[..n]) < DEALER_STANDS
  }

  /** One more card drawn below DEALER_STANDS keeps the draw well formed and raises the
      all-Aces-low sum, which stays below DEALER_STANDS before the draw. */
  lemma DrawStep(before: seq<Card>, now: seq<Card>, c: Card)
    requires DrawnSoFar(before, now) && Total(now) < DEALER_STANDS
    ensures DrawnSoFar(before, now + [c])
    ensures HardSum(now) < DEALER_STANDS && HardSum(now + [c]) > HardSum(now)
  {
    TotalIsBest(now);
    HardSumGrows(now, c);
    var next := now + [c];
    assert next[..|now|] == now;
    assert forall n | 0 <= n <= |now| :: next[..n] == now[..n];
  }

  // ---------------------------------------------------------------- round ends

  /** The parts of the table the handlers of a round change, as one value. */
  datatype Snapshot = Snapshot(
    phase: Phase, dealer: seq<Card>, seats: seq<Seat>,
    accounts: map<string, Account>, history: seq<HandRecord>)

  /** The table once the round has ended from seats `mid` with the dealer's final hand `d`:
      every seat settled, the ledger credited, one hand history stored under shoe `id`,
      and back in the lobby. */
  function RoundEnd(
    accounts: map<string, Account>, history: seq<HandRecord>, mid: seq<Seat>, d: seq<Card>, id: nat): Snapshot
  {
    Snapshot(Lobby, d, SettleSeats(mid, d), CreditAll(accounts, mid, d),
             history + [HandRecord(TABLE_ID, id, Snapshots(mid, d), d)])
  }

  /** The end of a round returns to the lobby with the dealer's final hand and appends exactly
      one hand history, for the current shoe, keeping the earlier ones. */
  lemma RoundEndAppends(
    accounts: map<string, Account>, history: seq<HandRecord>, mid: seq<Seat>, d: seq<Card>, id: nat)
    ensures var r := RoundEnd(accounts, history, mid, d, id);
      && r.phase == Lobby && r.dealer == d && |r.seats| == |mid|
      && |r.history| == |history| + 1 && r.history[..|history|] == history && r.history[|history|].shoeId == id
  {
    var r := RoundEnd(accounts, history, mid, d, id);
    assert r.history[..|history|] == history;
  }

  /** nextTurn from seats `mid` ends the round: once the turn holder loses the turn,
      no seat is left to act. */
  predicate EndsRound(mid: seq<Seat>)
  {
    FirstActive(ClearFirstTurn(mid)).None?
  }

  /** The table after nextTurn from seats `mid`: the turn holder loses the turn and the
      first active seat gets it, or, when none is left, the round ends with dealer hand `d`. */
  function TurnPassed(
    dealer: seq<Card>, accounts: map<string, Account>, history: seq<HandRecord>,
    mid: seq<Seat>, d: seq<Card>, id: nat): Snapshot
  {
    TurnGiven(dealer, accounts, history, ClearFirstTurn(mid), d, id)
  }

  /** nextTurn keeps players acting exactly when a seat is left to act, and until the round
      ends it leaves the dealer, the ledger and the histories alone. */
  lemma TurnPassedPhase(
    dealer: seq<Card>, accounts: map<string, Account>, history: seq<HandRecord>,
    mid: seq<Seat>, d: seq<Card>, id: nat)
    ensures var r := TurnPassed(dealer, accounts, history, mid, d, id);
      && r.phase == (if EndsRound(mid) then Lobby else Acting)
      && (!EndsRound(mid) ==> r.dealer == dealer && r.accounts == accounts && r.history == history)
  {
  }

  /** The second step of nextTurn, from seats `cleared` without a turn holder: the first
      active seat gets the turn, or, when none is left, the round ends with dealer hand `d`. */
  function TurnGiven(
    dealer: seq<Card>, accounts: map<string, Account>, history: seq<HandRecord>,
    cleared: seq<Seat>, d: seq<Card>, id: nat): Snapshot
  {
    match FirstActive(cleared)
    case Some(n) => Snapshot(Acting, dealer, cleared[n := cleared[n].(turn := true)], accounts, history)
    case None => RoundEnd(accounts, history, cleared, d, id)
  }

  /** hit at seat `k` of `seats` drew `card`: below bust the seat keeps the turn with the
      longer hand and nothing else changes; a bust hand is closed and the turn moves on. */
  ghost predicate HitTaken(
    dealer: seq<Card>, accounts: map<string, Account>, history: seq<HandRecord>,
    seats: seq<Seat>, k: nat, card: Card, a: Snapshot, id: nat)
    requires k < |seats|
  {
    var o := seats[k];
    var hand := o.cards + [card];
    if Total(hand) <= BLACKJACK then
      a == Snapshot(Acting, dealer, seats[k := o.(cards := hand)], accounts, history)
    else
      var mid := seats[k := o.(cards := hand, busted := true, done := true, turn := false)];
      && a == TurnPassed(dealer, accounts, history, mid, a.dealer, id)
      && (EndsRound(mid) ==> DealerDrawn(dealer, a.dealer))
  }

  // ---------------------------------------------------------------- the table

  class Table {
    var shoe: seq<Card>
    /** Identifies the current shoe; a new one is drawn whenever the shoe is rebuilt. */
    var shoeId: nat
    /** The cards dealt from the current shoe so far. */
    ghost var drawn: seq<Card>
    var phase: Phase
    var dealer: seq<Card>
    var seats: seq<Seat>
    /** The player ledger: chips and statistics by name. */
    var accounts: map<string, Account>
    /** The stored hand histories, oldest first. */
    var history: seq<HandRecord>

    ghost predicate Valid()
      reads this
    {
      Conserved(shoe, drawn) && AccountsOk(accounts) && TableOk(phase, dealer, seats)
    }

    function State(): Snapshot
      reads this
    {
      Snapshot(phase, dealer, seats, accounts, history)
    }

    /** safeState(): the view of this table that is broadcast to the clients. */
    function Broadcast(): (v: View)
      reads this
      ensures v.tableId == TABLE_ID && v.phase == phase && v.shoeLeft == |shoe|
      ensures |v.seats| == |seats| && forall k | 0 <= k < |seats| :: v.seats[k] == Public(seats[k])
      ensures HIDDEN in v.dealer <==> phase == Acting && dealer != []
    {
      SafeStateMasks(phase, dealer, seats, |shoe|);
      SafeState(phase, dealer, seats, |shoe|)
    }

    constructor (ledger: map<string, Account>)
      requires AccountsOk(ledger)
      ensures Valid()
      ensures phase == Lobby && dealer == [] && seats == [] && accounts == ledger && history == []
      ensures |shoe| == 52 * SHOE_DECKS && shoeId == 0 && drawn == []
    {
      var s := MakeShoe(SHOE_DECKS);
      shoe := s;
      shoeId := 0;
      drawn := [];
      phase := Lobby;
      dealer := [];
      seats := [];
      accounts := ledger;
      history := [];
    }

    /** ensureShoe: a shoe below LOW_WATER cards is replaced by a fresh one. */
    method EnsureShoe()
      requires Conserved(shoe, drawn)
      modifies this`shoe, this`shoeId, this`drawn
      ensures Conserved(shoe, drawn) && |shoe| >= LOW_WATER
      ensures old(|shoe|) < LOW_WATER ==> |shoe| == 52 * SHOE_DECKS && shoeId == old(shoeId) + 1 && drawn == []
      ensures old(|shoe|) >= LOW_WATER ==> shoe == old(shoe) && shoeId == old(shoeId) && drawn == old(drawn)
    {
      if |shoe| < LOW_WATER {
        shoe := MakeShoe(SHOE_DECKS);
        shoeId := shoeId + 1;
        drawn := [];
      }
    }

    /** dealCard: the top (last) card of the shoe, after replacing a low shoe. */
    method DealCard() returns (card: Card)
      requires Conserved(shoe, drawn)
      modifies this`shoe, this`shoeId, this`drawn
      ensures Conserved(shoe, drawn) && shoeId >= old(shoeId)
      ensures old(|shoe|) < LOW_WATER ==> shoeId == old(shoeId) + 1 && |shoe| == 52 * SHOE_DECKS - 1 && drawn == [card]
      ensures old(|shoe|) >= LOW_WATER ==> shoeId == old(shoeId) && shoe + [card] == old(shoe) && drawn == old(drawn) + [card]
      ensures DrawnAs(old(shoe), old(drawn), old(shoeId), shoe, drawn, shoeId, [card])
    {
      ghost var s0, d0, id0 := shoe, drawn, shoeId;
      EnsureShoe();
      card := Pop();
      if |s0| >= LOW_WATER {
        DrawnTop(s0, d0, id0, shoe, card);
      } else {
        DrawnFresh(s0, d0, id0, shoe, card);
      }
    }

    /** shoe.pop(): the last card leaves the shoe and joins the dealt cards. */
    method Pop() returns (card: Card)
      requires Conserved(shoe, drawn) && shoe != []
      modifies this`shoe, this`drawn
      ensures Conserved(shoe, drawn) && shoe + [card] == old(shoe) && drawn == old(drawn) + [card]
    {
      PopConserves(shoe, drawn);
      card := shoe[|shoe| - 1];
      shoe := shoe[..|shoe| - 1];
      drawn := drawn + [card];
    }

    /** seatIndexFree: the lowest free seat number, or -1 when all are taken. */
    method SeatIndexFree() returns (idx: int)
      ensures idx == -1 <==> forall i | 0 <= i < MAX_SEATS :: Taken(seats, i)
      ensures idx != -1 ==> 0 <= idx < MAX_SEATS && !Taken(seats, idx) && forall i | 0 <= i < idx :: Taken(seats, i)
    {
      for i := 0 to MAX_SEATS
        invariant forall j | 0 <= j < i :: Taken(seats, j)
      {
        var found := SeatAt(seats, i);
        if found.None? {
          return i;
        }
      }
      return -1;
    }

    method SitDown(sid: SocketId, name: string) returns (reply: Reply)
      requires Valid()
      modifies this`seats
      ensures Valid()
      ensures reply ==
        if name == "" then Ignored
        else if old(phase) != Lobby && old(phase) != Betting then Refused(CannotSitNow)
        else if SeatBySocket(old(seats), sid).Some? then Ignored
        else if forall i | 0 <= i < MAX_SEATS :: Taken(old(seats), i) then Refused(TableFull)
        else Accepted
      ensures reply == Accepted ==>
        && |seats| == |old(seats)| + 1 && seats[..|old(seats)|] == old(seats)
        && var s := seats[|old(seats)|];
           s == NewSeat(s.seat, sid, name) && !Taken(old(seats), s.seat)
           && forall i | 0 <= i < s.seat :: Taken(old(seats), i)
      ensures reply != Accepted ==> seats == old(seats)
    {
      if name == "" {
        return Ignored;
      }
      if phase != Lobby && phase != Betting {
        return Refused(CannotSitNow);
      }
      if SeatBySocket(seats, sid).Some? {
        return Ignored;
      }
      var idx := SeatIndexFree();
      if idx == -1 {
        return Refused(TableFull);
      }
      var s := NewSeat(idx, sid, name);
      SeatAdded(phase, dealer, seats, s);
      seats := seats + [s];
      assert seats[..|old(seats)|] == old(seats);
      reply := Accepted;
    }

    method StandUp(sid: SocketId) returns (reply: Reply)
      requires Valid()
      modifies this`seats
      ensures Valid()
      ensures var i := SeatBySocket(old(seats), sid);
        reply == if i.None? then Ignored
                 else if old(phase) != Lobby && old(phase) != Betting then Refused(RoundInProgress)
                 else Accepted
      ensures reply == Accepted ==>
        var i := SeatBySocket(old(seats), sid).value;
        seats == old(seats)[..i] + old(seats)[i + 1..]
      ensures reply != Accepted ==> seats == old(seats)
    {
      var i := SeatBySocket(seats, sid);
      if i.None? {
        return Ignored;
      }
      if phase != Lobby && phase != Betting {
        return Refused(RoundInProgress);
      }
      RemoveSeat(phase, dealer, seats, i.value);
      SeatOfSocket(seats, i.value);
      WithoutOne(seats, sid, i.value);
      seats := Without(seats, sid);
      reply := Accepted;
    }

    /** resetRound: clear the dealer and every seat's round state, then open betting. */
    method ResetRound()
      requires Valid() && phase == Lobby
      modifies this`dealer, this`seats, this`phase
      ensures Valid()
      ensures phase == Betting && dealer == []
      ensures |seats| == |old(seats)| && forall k | 0 <= k < |seats| :: seats[k] == ResetSeat(old(seats)[k])
    {
      ResetSeats();
      ResetKeeps(dealer, old(seats), seats);
      dealer := [];
      phase := Betting;
    }

    /** The seat loop of resetRound. */
    method ResetSeats()
      modifies this`seats
      ensures |seats| == |old(seats)| && forall k | 0 <= k < |seats| :: seats[k] == ResetSeat(old(seats)[k])
    {
      for i := 0 to |seats|
        invariant |seats| == |old(seats)|
        invariant forall k | 0 <= k < i :: seats[k] == ResetSeat(old(seats)[k])
        invariant forall k | i <= k < |seats| :: seats[k] == old(seats)[k]
      {
        seats := seats[i := ResetSeat(seats[i])];
      }
    }

    method StartBetting() returns (reply: Reply)
      requires Valid()
      modifies this`dealer, this`seats, this`phase
      ensures Valid()
      ensures reply == if old(phase) == Lobby then Accepted else Ignored
      ensures reply == Accepted ==>
        && phase == Betting && dealer == []
        && |seats| == |old(seats)| && forall k | 0 <= k < |seats| :: seats[k] == ResetSeat(old(seats)[k])
      ensures reply == Ignored ==> phase == old(phase) && dealer == old(dealer) && seats == old(seats)
    {
      if phase == Lobby {
        ResetRound();
        return Accepted;
      }
      return Ignored;
    }

    /** placeBet: the bet replaces the seat's previous one and the whole amount is
        debited from the player's balance on every accepted call. */
    method PlaceBet(sid: SocketId, amount: int) returns (reply: Reply)
      requires Valid()
      modifies this`seats, this`accounts
      ensures Valid()
      ensures var i := SeatBySocket(old(seats), sid);
        reply ==
          if amount < MIN_BET then Refused(BelowMinimumBet)
          else if i.None? then Refused(NotSeated)
          else if old(phase) != Betting then Refused(NotBettingPhase)
          else if old(seats)[i.value].name !in old(accounts) || old(accounts)[old(seats)[i.value].name].chips < amount then Refused(NotEnoughChips)
          else Accepted
      ensures reply == Accepted ==>
        var i := SeatBySocket(old(seats), sid).value;
        var name := old(seats)[i].name;
        && seats == old(seats)[i := old(seats)[i].(bet := amount)]
        && accounts == old(accounts)[name := old(accounts)[name].(chips := old(accounts)[name].chips - amount)]
      ensures reply != Accepted ==> seats == old(seats) && accounts == old(accounts)
    {
      var i := SeatBySocket(seats, sid);
      if amount < MIN_BET {
        reply := Refused(BelowMinimumBet);
      } else if i.None? {
        reply := Refused(NotSeated);
      } else if phase != Betting {
        reply := Refused(NotBettingPhase);
      } else if seats[i.value].name !in accounts || accounts[seats[i.value].name].chips < amount {
        reply := Refused(NotEnoughChips);
      } else {
        TakeBet(i.value, amount);
        reply := Accepted;
      }
    }

    /** The accepted placeBet: seat `i` bets `amount`, which leaves its player's balance. */
    method TakeBet(i: nat, amount: int)
      requires Valid() && phase == Betting && i < |seats| && amount >= MIN_BET
      requires seats[i].name in accounts && accounts[seats[i].name].chips >= amount
      modifies this`seats, this`accounts
      ensures Valid()
      ensures var name := old(seats)[i].name;
        && seats == old(seats)[i := old(seats)[i].(bet := amount)]
        && accounts == old(accounts)[name := old(accounts)[name].(chips := old(accounts)[name].chips - amount)]
    {
      var name := seats[i].name;
      BetKeeps(dealer, seats, i, amount);
      seats := seats[i := seats[i].(bet := amount)];
      accounts := accounts[name := accounts[name].(chips := accounts[name].chips - amount)];
    }

    /** The body of the first dealing loop of dealNow, for seat `i`. */
    method DealSeat(i: nat)
      requires Conserved(shoe, drawn) && i < |seats|
      modifies this`seats, this`shoe, this`shoeId, this`drawn
      ensures Conserved(shoe, drawn) && shoeId >= old(shoeId)
      ensures |seats| == |old(seats)| && seats == old(seats)[i := seats[i]]
      ensures DealtCards(old(seats)[i], seats[i])
      ensures DrawnAs(old(shoe), old(drawn), old(shoeId), shoe, drawn, shoeId, seats[i].cards)
    {
      if seats[i].bet > 0 {
        var a, b := DealPair();
        var hand := [a, b];
        seats := seats[i := seats[i].(cards := hand)];
        assert seats[i].cards == hand;
      } else {
        DrawnNothing(shoe, drawn, shoeId);
        seats := seats[i := seats[i].(cards := [], done := true)];
        assert seats[i].cards == [];
      }
    }

    /** The dealer's two cards, dealt before any seat's. */
    method DealDealer()
      requires Conserved(shoe, drawn)
      modifies this`dealer, this`shoe, this`shoeId, this`drawn
      ensures Conserved(shoe, drawn) && shoeId >= old(shoeId) && |dealer| == 2
      ensures DrawnAs(old(shoe), old(drawn), old(shoeId), shoe, drawn, shoeId, dealer)
    {
      var a, b := DealPair();
      dealer := [a, b];
    }

    /** `[dealCard(), dealCard()]`: two cards, dealt in this order. */
    method DealPair() returns (a: Card, b: Card)
      requires Conserved(shoe, drawn)
      modifies this`shoe, this`shoeId, this`drawn
      ensures Conserved(shoe, drawn) && shoeId >= old(shoeId)
      ensures DrawnAs(old(shoe), old(drawn), old(shoeId), shoe, drawn, shoeId, [a, b])
    {
      a := DealCard();
      ghost var s1, d1, id1 := shoe, drawn, shoeId;
      b := DealCard();
      DrawnPair(old(shoe), old(drawn), old(shoeId), s1, d1, id1, shoe, drawn, shoeId, a, b);
    }

    /** The first dealing loop of dealNow. */
    method DealHands()
      requires Conserved(shoe, drawn)
      modifies this`seats, this`shoe, this`shoeId, this`drawn
      ensures Conserved(shoe, drawn) && shoeId >= old(shoeId)
      ensures |seats| == |old(seats)| && forall k | 0 <= k < |seats| :: DealtCards(old(seats)[k], seats[k])
      ensures DrawnAs(old(shoe), old(drawn), old(shoeId), shoe, drawn, shoeId, AllCards(seats))
    {
      DrawnNothing(shoe, drawn, shoeId);
      for i := 0 to |seats|
        invariant Conserved(shoe, drawn) && shoeId >= old(shoeId)
        invariant |seats| == |old(seats)|
        invariant forall k | 0 <= k < i :: DealtCards(old(seats)[k], seats[k])
        invariant forall k | i <= k < |seats| :: seats[k] == old(seats)[k]
        invariant DrawnAs(old(shoe), old(drawn), old(shoeId), shoe, drawn, shoeId, AllCards(seats[..i]))
      {
        ghost var before, s1, d1, id1 := seats, shoe, drawn, shoeId;
        DealSeat(i);
        assert seats[..i] == before[..i];
        AllCardsStep(seats, i);
        DrawnInSequence(old(shoe), old(drawn), old(shoeId), s1, d1, id1, shoe, drawn, shoeId, AllCards(seats[..i]), seats[i].cards);
      }
      assert seats[..|seats|] == seats;
    }

    /** The natural check loop of dealNow. */
    method MarkNaturals(dealerBJ: bool)
      modifies this`seats
      ensures |seats| == |old(seats)| && forall k | 0 <= k < |seats| :: seats[k] == Marked(old(seats)[k], dealerBJ)
    {
      for i := 0 to |seats|
        invariant |seats| == |old(seats)|
        invariant forall k | 0 <= k < i :: seats[k] == Marked(old(seats)[k], dealerBJ)
        invariant forall k | i <= k < |seats| :: seats[k] == old(seats)[k]
      {
        if |seats[i].cards| > 0 {
          var bj := IsBJ(seats[i].cards);
          if bj || dealerBJ {
            seats := seats[i := seats[i].(done := true)];
          }
        }
      }
    }

    /** Every seat loses the turn. */
    method ClearTurns()
      modifies this`seats
      ensures |seats| == |old(seats)| && forall k | 0 <= k < |seats| :: seats[k] == old(seats)[k].(turn := false)
    {
      for i := 0 to |seats|
        invariant |seats| == |old(seats)|
        invariant forall k | 0 <= k < i :: seats[k] == old(seats)[k].(turn := false)
        invariant forall k | i <= k < |seats| :: seats[k] == old(seats)[k]
      {
        seats := seats[i := seats[i].(turn := false)];
      }
    }

    /** dealNow: with a bet on the table during betting, deal the round; otherwise nothing
        happens. */
    method DealNow() returns (reply: Reply)
      requires Valid()
      modifies this`shoe, this`shoeId, this`drawn, this`phase, this`dealer, this`seats
      ensures Valid()
      ensures reply == if old(phase) == Betting && exists k | 0 <= k < |old(seats)| :: HasBet(old(seats)[k]) then Accepted else Ignored
      ensures reply == Ignored ==> unchanged(this)
      ensures reply == Accepted ==> shoeId >= old(shoeId) && RoundDealt(old(seats), dealer, seats, phase)
      ensures reply == Accepted ==> DrawnAs(old(shoe), old(drawn), old(shoeId), shoe, drawn, shoeId, dealer + AllCards(seats))
    {
      if phase != Betting || |seats| == 0 || FindIndex(seats, HasBet).None? {
        return Ignored;
      }
      DealRound();
      reply := Accepted;
    }

    /** dealNow as evidently intended: when the deal leaves nobody to act, the dealer
        draws and the round is settled at once, so an accepted deal never leaves the table
        in the dealer or payout phase. */
    method DealNowSettled() returns (reply: Reply, ghost dealt: seq<Seat>, ghost d2: seq<Card>, ghost p: Phase)
      requires Valid()
      modifies this
      ensures Valid()
      ensures reply == if old(phase) == Betting && exists k | 0 <= k < |old(seats)| :: HasBet(old(seats)[k]) then Accepted else Ignored
      ensures reply == Ignored ==> unchanged(this)
      ensures reply == Accepted ==> Live(phase)
      ensures reply == Accepted && phase != Acting ==>
        phase == Lobby && |history| == |old(history)| + 1 && history[..|old(history)|] == old(history)
      ensures reply == Accepted ==> RoundDealt(old(seats), d2, dealt, p) && |d2| <= |dealer|
      ensures reply == Accepted ==> DrawnAs(old(shoe), old(drawn), old(shoeId), shoe, drawn, shoeId, d2 + AllCards(dealt) + dealer[|d2|..])
      ensures reply == Accepted && p == Acting ==> State() == Snapshot(Acting, d2, dealt, old(accounts), old(history))
      ensures reply == Accepted && p != Acting ==>
        DealerDrawn(d2, dealer) && State() == RoundEnd(old(accounts), old(history), dealt, dealer, shoeId)
    {
      reply := DealNow();
      dealt, d2, p := seats, dealer, phase;
      if reply == Accepted {
        CloseDeal(old(shoe), old(drawn), old(shoeId), d2 + AllCards(dealt));
      }
    }

    /** What DealNowSettled adds after the deal: a table left acting stays as it is, and
        one left in the dealer or payout phase is settled at once. `cards` are the cards the
        deal took, from the shoe `s0` with record `d0` under id `id0`. */
    method CloseDeal(ghost s0: seq<Card>, ghost d0: seq<Card>, ghost id0: nat, ghost cards: seq<Card>)
      requires Valid() && (phase == Acting || phase == DealerTurn || phase == Payout)
      requires DrawnAs(s0, d0, id0, shoe, drawn, shoeId, cards)
      modifies this
      ensures Valid() && Live(phase)
      ensures |old(dealer)| <= |dealer| && DrawnAs(s0, d0, id0, shoe, drawn, shoeId, cards + dealer[|old(dealer)|..])
      ensures old(phase) == Acting ==> unchanged(this)
      ensures old(phase) != Acting ==>
        && phase == Lobby && |history| == |old(history)| + 1 && history[..|old(history)|] == old(history)
        && DealerDrawn(old(dealer), dealer) && State() == RoundEnd(old(accounts), old(history), old(seats), dealer, shoeId)
    {
      if phase == Acting {
        assert cards + dealer[|dealer|..] == cards;
      } else {
        ghost var s1, d1, id1 := shoe, drawn, shoeId;
        OneTurnHolder(phase, seats);
        DrawAndSettle();
        DrawnInSequence(s0, d0, id0, s1, d1, id1, shoe, drawn, shoeId, cards, dealer[|old(dealer)|..]);
        assert history[..|old(history)|] == old(history);
      }
    }

    /** The deal of dealNow: two cards to the dealer and to every seat with a bet, naturals
        closed, then the phase and turn chosen by OpenRound. */
    method DealRound()
      requires Conserved(shoe, drawn) && AccountsOk(accounts) && SeatsOk(seats) && AllUnplayed(seats)
      modifies this`shoe, this`shoeId, this`drawn, this`phase, this`dealer, this`seats
      ensures Valid() && shoeId >= old(shoeId)
      ensures RoundDealt(old(seats), dealer, seats, phase)
      ensures DrawnAs(old(shoe), old(drawn), old(shoeId), shoe, drawn, shoeId, dealer + AllCards(seats))
    {
      ghost var start := seats;
      phase := Dealing;
      DealCards();
      CheckNaturals(start);
    }

    /** The dealing of dealNow: the dealer's two cards, then the seats' hands in seat order. */
    method DealCards()
      requires Conserved(shoe, drawn)
      modifies this`dealer, this`seats, this`shoe, this`shoeId, this`drawn
      ensures Conserved(shoe, drawn) && shoeId >= old(shoeId) && |dealer| == 2
      ensures |seats| == |old(seats)| && forall k | 0 <= k < |seats| :: DealtCards(old(seats)[k], seats[k])
      ensures DrawnAs(old(shoe), old(drawn), old(shoeId), shoe, drawn, shoeId, dealer + AllCards(seats))
    {
      DealDealer();
      ghost var s1, d1, id1 := shoe, drawn, shoeId;
      DealHands();
      DrawnInSequence(old(shoe), old(drawn), old(shoeId), s1, d1, id1, shoe, drawn, shoeId, dealer, AllCards(seats));
    }

    /** The natural check of dealNow on the freshly dealt seats, then OpenRound. */
    method CheckNaturals(ghost start: seq<Seat>)
      requires Conserved(shoe, drawn) && AccountsOk(accounts) && |dealer| == 2
      requires SeatsOk(start) && AllUnplayed(start)
      requires |seats| == |start| && forall k | 0 <= k < |start| :: DealtCards(start[k], seats[k])
      modifies this`phase, this`seats
      ensures Valid() && RoundDealt(start, dealer, seats, phase)
      ensures AllCards(seats) == AllCards(old(seats))
    {
      ghost var hands := seats;
      var dealerBJ := IsBJ(dealer);
      MarkNaturals(dealerBJ);
      DealtRound(start, hands, seats, dealerBJ);
      ghost var marked := seats;
      OpenRound(start, dealerBJ);
      assert SameCards(hands, seats) by {
        assert SameCards(hands, marked);
      }
      AllCardsSame(hands, seats);
    }

    /** The end of dealNow: without a dealer natural and with a seat still to act, the
        acting phase starts with the first such seat holding the turn; otherwise the phase
        becomes payout after a dealer natural and dealer otherwise. */
    method OpenRound(ghost start: seq<Seat>, dealerBJ: bool)
      requires Conserved(shoe, drawn) && AccountsOk(accounts) && SeatsOk(seats) && NoTurn(seats)
      requires |dealer| == 2 && dealerBJ == IsBJ(dealer)
      requires |seats| == |start| && forall k | 0 <= k < |start| :: Dealt(start[k], seats[k], dealerBJ)
      modifies this`phase, this`seats
      ensures Valid() && RoundDealt(start, dealer, seats, phase) && SameCards(old(seats), seats)
    {
      if !dealerBJ && FirstActive(seats).Some? {
        StartActing(start, dealerBJ);
      } else {
        phase := if dealerBJ then Payout else DealerTurn;
      }
    }

    /** The acting phase of dealNow: every turn is cleared and the first seat still to act
        gets it. */
    method StartActing(ghost start: seq<Seat>, dealerBJ: bool)
      requires Conserved(shoe, drawn) && AccountsOk(accounts) && SeatsOk(seats) && NoTurn(seats)
      requires |dealer| == 2 && dealerBJ == IsBJ(dealer) && !dealerBJ && FirstActive(seats).Some?
      requires |seats| == |start| && forall k | 0 <= k < |start| :: Dealt(start[k], seats[k], dealerBJ)
      modifies this`phase, this`seats
      ensures Valid() && RoundDealt(start, dealer, seats, phase) && SameCards(old(seats), seats)
    {
      phase := Acting;
      ghost var marked := seats;
      ClearTurns();
      assert seats == marked;
      TurnAfterDeal(dealer, start, seats, dealerBJ);
      var first := FirstActive(seats).value;
      seats := seats[first := seats[first].(turn := true)];
    }

    /** The dealer draws while the hand totals less than DEALER_STANDS. */
    method DealerPlay()
      requires Conserved(shoe, drawn)
      modifies this`dealer, this`shoe, this`shoeId, this`drawn
      ensures Conserved(shoe, drawn) && shoeId >= old(shoeId)
      ensures DealerDrawn(old(dealer), dealer) && DrawnAs(old(shoe), old(drawn), old(shoeId), shoe, drawn, shoeId, dealer[|old(dealer)|..])
    {
      var total := HandTotal(dealer);
      assert dealer[..|dealer|] == dealer;
      assert dealer[|dealer|..] == [];
      DrawnNothing(shoe, drawn, shoeId);
      while total < DEALER_STANDS
        invariant Conserved(shoe, drawn) && shoeId >= old(shoeId)
        invariant total == Total(dealer) && DrawnSoFar(old(dealer), dealer)
        invariant DrawnAs(old(shoe), old(drawn), old(shoeId), shoe, drawn, shoeId, dealer[|old(dealer)|..])
        decreases DEALER_STANDS - HardSum(dealer)
      {
        ghost var before, s1, d1, id1 := dealer, shoe, drawn, shoeId;
        var c := DealerDraws();
        DrawStep(old(dealer), before, c);
        DrawnOneMore(old(shoe), old(drawn), old(shoeId), s1, d1, id1, shoe, drawn, shoeId, old(dealer), before, c);
        total := HandTotal(dealer);
      }
    }

    /** One draw of the dealer's loop: `table.dealer.push(dealCard())`. */
    method DealerDraws() returns (c: Card)
      requires Conserved(shoe, drawn)
      modifies this`dealer, this`shoe, this`shoeId, this`drawn
      ensures Conserved(shoe, drawn) && shoeId >= old(shoeId)
      ensures dealer == old(dealer) + [c] && DrawnAs(old(shoe), old(drawn), old(shoeId), shoe, drawn, shoeId, [c])
    {
      c := DealCard();
      dealer := dealer + [c];
    }

    /** The body of the settlement loop of settleAndSave, for seat `i`: a seat with a bet
        and cards gets its result and payout, its player is credited, and its history
        line is returned. */
    method SettleSeatAt(i: nat) returns (line: seq<SeatRecord>)
      requires i < |seats|
      modifies this`seats, this`accounts
      ensures seats == old(seats)[i := SettleSeat(old(seats)[i], dealer)]
      ensures accounts == CreditSeat(old(accounts), old(seats)[i], dealer)
      ensures line == if Settles(old(seats)[i]) then [Record(old(seats)[i], dealer)] else []
    {
      var s := seats[i];
      line := [];
      if s.bet > 0 && |s.cards| > 0 {
        var st := Settle(s.bet, s.cards, s.busted, dealer);
        seats := seats[i := s.(result := Some(st.result), payout := st.payout)];
        if s.name in accounts {
          accounts := accounts[s.name := Credit(accounts[s.name], st)];
        }
        line := [SeatRecord(s.name, s.bet, s.cards, st.result, st.payout)];
      }
    }

    /** settleAndSave: settle every seat with a bet and cards against the dealer, credit
        the ledger, store the hand history and return to the lobby. */
    method SettleAndSave()
      requires phase == Payout
      modifies this`seats, this`accounts, this`history, this`phase
      ensures seats == SettleSeats(old(seats), dealer)
      ensures accounts == CreditAll(old(accounts), old(seats), dealer)
      ensures history == old(history) + [HandRecord(TABLE_ID, shoeId, Snapshots(old(seats), dealer), dealer)]
      ensures phase == Lobby
    {
      var snapshot: seq<SeatRecord> := [];
      for i := 0 to |seats|
        invariant |seats| == |old(seats)|
        invariant forall k | 0 <= k < i :: seats[k] == SettleSeat(old(seats)[k], dealer)
        invariant forall k | i <= k < |seats| :: seats[k] == old(seats)[k]
        invariant accounts == CreditAll(old(accounts), old(seats)[..i], dealer)
        invariant snapshot == Snapshots(old(seats)[..i], dealer)
        invariant history == old(history) && phase == Payout
      {
        CreditStep(old(accounts), old(seats), i, dealer);
        SnapshotStep(old(seats), i, dealer);
        var line := SettleSeatAt(i);
        snapshot := snapshot + line;
      }
      assert old(seats)[..|seats|] == old(seats);
      assert seats == SettleSeats(old(seats), dealer);
      history := history + [HandRecord(TABLE_ID, shoeId, snapshot, dealer)];
      phase := Lobby;
    }

    /** The dealer draws to DEALER_STANDS, then the payout phase settles the round. */
    method DrawAndSettle()
      requires Conserved(shoe, drawn) && AccountsOk(accounts) && SeatsOk(seats) && NoTurn(seats)
      modifies this
      ensures Valid() && shoeId >= old(shoeId)
      ensures State() == RoundEnd(old(accounts), old(history), old(seats), dealer, shoeId)
      ensures DealerDrawn(old(dealer), dealer) && DrawnAs(old(shoe), old(drawn), old(shoeId), shoe, drawn, shoeId, dealer[|old(dealer)|..])
    {
      DealerPlay();
      PayRound();
    }

    /** The payout phase: settleAndSave on the dealer's final hand. */
    method PayRound()
      requires Conserved(shoe, drawn) && AccountsOk(accounts) && SeatsOk(seats) && NoTurn(seats)
      modifies this`seats, this`accounts, this`history, this`phase
      ensures Valid()
      ensures State() == RoundEnd(old(accounts), old(history), old(seats), dealer, shoeId)
    {
      phase := Payout;
      SettleKeepsSeats(dealer, seats);
      CreditAllKeepsChips(accounts, seats, dealer);
      SettleAndSave();
    }

    /** The end of a round in nextTurn once nobody is left to act: the dealer phase,
        the dealer's draw, payout and settlement. */
    method FinishRound()
      requires Conserved(shoe, drawn) && AccountsOk(accounts) && SeatsOk(seats) && NoTurn(seats)
      modifies this
      ensures Valid() && shoeId >= old(shoeId)
      ensures State() == RoundEnd(old(accounts), old(history), old(seats), dealer, shoeId)
      ensures DealerDrawn(old(dealer), dealer) && DrawnAs(old(shoe), old(drawn), old(shoeId), shoe, drawn, shoeId, dealer[|old(dealer)|..])
    {
      phase := DealerTurn;
      DrawAndSettle();
    }

    /** The first step of nextTurn: the turn holder found by findIndex loses the turn. */
    method ClearTurnHolder()
      requires SeatsOk(seats) && AtMostOneTurn(seats)
      modifies this`seats
      ensures seats == ClearFirstTurn(old(seats)) && SeatsOk(seats) && NoTurn(seats)
    {
      ClearFirstTurnClears(seats);
      var t := FirstTurn(seats);
      if t.Some? {
        seats := seats[t.value := seats[t.value].(turn := false)];
      }
    }

    /** The turn goes to the first seat still to act. */
    method PassTurn()
      requires Conserved(shoe, drawn) && AccountsOk(accounts) && SeatsOk(seats) && NoTurn(seats)
      requires FirstActive(seats).Some?
      modifies this`seats, this`phase
      ensures Valid() && phase == Acting
      ensures var n := FirstActive(old(seats)).value; seats == old(seats)[n := old(seats)[n].(turn := true)]
      ensures State() == TurnGiven(dealer, accounts, history, old(seats), dealer, shoeId)
    {
      GiveTurn(dealer, seats);
      var n := FirstActive(seats).value;
      seats := seats[n := seats[n].(turn := true)];
      phase := Acting;
    }

    /** nextTurn: the turn passes to the first seat still to act, or the round ends. */
    method NextTurn()
      requires Conserved(shoe, drawn) && AccountsOk(accounts) && SeatsOk(seats) && AtMostOneTurn(seats)
      modifies this
      ensures Valid() && shoeId >= old(shoeId)
      ensures State() == TurnPassed(old(dealer), old(accounts), old(history), old(seats), dealer, shoeId)
      ensures EndsRound(old(seats)) ==> DealerDrawn(old(dealer), dealer)
      ensures !EndsRound(old(seats)) ==> dealer == old(dealer) && shoe == old(shoe) && shoeId == old(shoeId) && drawn == old(drawn)
      ensures |old(dealer)| <= |dealer| && DrawnAs(old(shoe), old(drawn), old(shoeId), shoe, drawn, shoeId, dealer[|old(dealer)|..])
    {
      ClearTurnHolder();
      PassOrFinish();
    }

    /** The rest of nextTurn once the turn holder has lost the turn. */
    method PassOrFinish()
      requires Conserved(shoe, drawn) && AccountsOk(accounts) && SeatsOk(seats) && NoTurn(seats)
      modifies this
      ensures Valid() && shoeId >= old(shoeId)
      ensures State() == TurnGiven(old(dealer), old(accounts), old(history), old(seats), dealer, shoeId)
      ensures FirstActive(old(seats)).None? ==> DealerDrawn(old(dealer), dealer)
      ensures FirstActive(old(seats)).Some? ==> dealer == old(dealer) && shoe == old(shoe) && shoeId == old(shoeId) && drawn == old(drawn)
      ensures |old(dealer)| <= |dealer| && DrawnAs(old(shoe), old(drawn), old(shoeId), shoe, drawn, shoeId, dealer[|old(dealer)|..])
    {
      var next := FirstActive(seats);
      if next.Some? {
        PassTurn();
        assert dealer[|dealer|..] == [];
        DrawnNothing(shoe, drawn, shoeId);
      } else {
        FinishRound();
      }
    }

    /** hit: only the seat holding the turn, and only while players act, takes a card. */
    method Hit(sid: SocketId) returns (reply: Reply, ghost card: Card)
      requires Valid()
      modifies this
      ensures Valid() && shoeId >= old(shoeId)
      ensures var i := SeatBySocket(old(seats), sid);
        reply == if old(phase) == Acting && i.Some? && old(seats)[i.value].turn then Accepted else Ignored
      ensures reply == Ignored ==> unchanged(this)
      ensures reply == Accepted ==> HitTaken(old(dealer), old(accounts), old(history), old(seats), SeatBySocket(old(seats), sid).value, card, State(), shoeId)
      ensures reply == Accepted ==>
        |old(dealer)| <= |dealer| && DrawnAs(old(shoe), old(drawn), old(shoeId), shoe, drawn, shoeId, [card] + dealer[|old(dealer)|..])
    {
      card :| true;
      if phase != Acting {
        reply := Ignored;
        return;
      }
      var i := SeatBySocket(seats, sid);
      if i.None? || !seats[i.value].turn {
        reply := Ignored;
        return;
      }
      card := HitAt(i.value);
      reply := Accepted;
    }

    /** The turn holder at `k` is dealt a card and plays it. */
    method HitAt(k: nat) returns (card: Card)
      requires Valid() && phase == Acting && k < |seats| && seats[k].turn
      modifies this
      ensures Valid() && shoeId >= old(shoeId)
      ensures HitTaken(old(dealer), old(accounts), old(history), old(seats), k, card, State(), shoeId)
      ensures |old(dealer)| <= |dealer| && DrawnAs(old(shoe), old(drawn), old(shoeId), shoe, drawn, shoeId, [card] + dealer[|old(dealer)|..])
    {
      ghost var held := dealer;
      card := DrawForHit();
      ghost var s1, d1, id1 := shoe, drawn, shoeId;
      PlayCard(k, card);
      DrawnInSequence(old(shoe), old(drawn), old(shoeId), s1, d1, id1, shoe, drawn, shoeId, [card], dealer[|held|..]);
    }

    /** The dealCard() of hit. */
    method DrawForHit() returns (c: Card)
      requires Conserved(shoe, drawn)
      modifies this`shoe, this`shoeId, this`drawn
      ensures Conserved(shoe, drawn) && shoeId >= old(shoeId)
      ensures DrawnAs(old(shoe), old(drawn), old(shoeId), shoe, drawn, shoeId, [c])
    {
      c := DealCard();
    }

    /** The turn holder at `k` takes the card `c`: a bust hand is closed and the turn moves
        on, any other hand keeps the turn. */
    method PlayCard(k: nat, c: Card)
      requires Valid() && phase == Acting && k < |seats| && seats[k].turn
      modifies this
      ensures Valid() && shoeId >= old(shoeId)
      ensures HitTaken(old(dealer), old(accounts), old(history), old(seats), k, c, State(), shoeId)
      ensures var o := old(seats)[k]; var hand := o.cards + [c];
        var mid := old(seats)[k := o.(cards := hand, busted := true, done := true, turn := false)];
        !(Total(hand) > BLACKJACK && EndsRound(mid)) ==> dealer == old(dealer) && shoe == old(shoe) && shoeId == old(shoeId) && drawn == old(drawn)
      ensures |old(dealer)| <= |dealer| && DrawnAs(old(shoe), old(drawn), old(shoeId), shoe, drawn, shoeId, dealer[|old(dealer)|..])
    {
      var hand := seats[k].cards + [c];
      var total := HandTotal(hand);
      if total > BLACKJACK {
        Bust(k, hand);
      } else {
        assert dealer[|dealer|..] == [];
        DrawnNothing(shoe, drawn, shoeId);
        Extend(k, hand);
      }
    }

    /** A hand `hand` that is not bust replaces the turn holder's; the turn stays. */
    method Extend(k: nat, hand: seq<Card>)
      requires Valid() && phase == Acting && k < |seats| && seats[k].turn
      requires hand != [] && Total(hand) <= BLACKJACK
      modifies this`seats
      ensures Valid() && seats == old(seats)[k := old(seats)[k].(cards := hand)]
    {
      HitKeeps(dealer, seats, k, hand);
      seats := seats[k := seats[k].(cards := hand)];
    }

    /** A bust hand `hand` at the turn holder `k` is closed and the turn moves on. */
    method Bust(k: nat, hand: seq<Card>)
      requires Valid() && phase == Acting && k < |seats| && seats[k].turn && Total(hand) > BLACKJACK
      modifies this
      ensures Valid() && shoeId >= old(shoeId)
      ensures var mid := old(seats)[k := old(seats)[k].(cards := hand, busted := true, done := true, turn := false)];
        && State() == TurnPassed(old(dealer), old(accounts), old(history), mid, dealer, shoeId)
        && (EndsRound(mid) ==> DealerDrawn(old(dealer), dealer))
        && (!EndsRound(mid) ==> dealer == old(dealer) && shoe == old(shoe) && shoeId == old(shoeId) && drawn == old(drawn))
      ensures |old(dealer)| <= |dealer| && DrawnAs(old(shoe), old(drawn), old(shoeId), shoe, drawn, shoeId, dealer[|old(dealer)|..])
    {
      var s := seats[k].(cards := hand, busted := true, done := true, turn := false);
      SeatLeaves(phase, dealer, seats, k, s);
      seats := seats[k := s];
      NextTurn();
    }

    method Stand(sid: SocketId) returns (reply: Reply)
      requires Valid()
      modifies this
      ensures Valid() && shoeId >= old(shoeId)
      ensures var i := SeatBySocket(old(seats), sid);
        reply == if old(phase) == Acting && i.Some? && old(seats)[i.value].turn then Accepted else Ignored
      ensures reply == Ignored ==> unchanged(this)
      ensures reply == Accepted ==>
        var i := SeatBySocket(old(seats), sid).value;
        var mid := old(seats)[i := old(seats)[i].(stood := true, done := true, turn := false)];
        && State() == TurnPassed(old(dealer), old(accounts), old(history), mid, dealer, shoeId)
        && (EndsRound(mid) ==> DealerDrawn(old(dealer), dealer))
        && (!EndsRound(mid) ==> dealer == old(dealer) && shoe == old(shoe) && shoeId == old(shoeId) && drawn == old(drawn))
      ensures |old(dealer)| <= |dealer| && DrawnAs(old(shoe), old(drawn), old(shoeId), shoe, drawn, shoeId, dealer[|old(dealer)|..])
    {
      assert dealer[|dealer|..] == [];
      DrawnNothing(shoe, drawn, shoeId);
      if phase != Acting {
        return Ignored;
      }
      var i := SeatBySocket(seats, sid);
      if i.None? || !seats[i.value].turn {
        return Ignored;
      }
      var k := i.value;
      var s := seats[k].(stood := true, done := true, turn := false);
      SeatLeaves(phase, dealer, seats, k, s);
      seats := seats[k := s];
      NextTurn();
      reply := Accepted;
    }

    /** disconnect: between rounds the seat is freed; during a round it is kept but marked
        done, and while players act the turn moves on or the round is finished. */
    method Disconnect(sid: SocketId)
      requires Valid()
      modifies this
      ensures Valid()
      ensures var i := SeatBySocket(old(seats), sid);
        if i.None? then unchanged(this)
        else if old(phase) == Lobby || old(phase) == Betting then
          && seats == old(seats)[..i.value] + old(seats)[i.value + 1..] && State() == old(State()).(seats := seats)
          && shoe == old(shoe) && shoeId == old(shoeId) && drawn == old(drawn)
        else
          var mid := old(seats)[i.value := old(seats)[i.value].(done := true, turn := false)];
          if old(phase) != Acting then
            State() == old(State()).(seats := mid) && shoe == old(shoe) && shoeId == old(shoeId) && drawn == old(drawn)
          else if FirstActive(mid).None? then
            && State() == RoundEnd(old(accounts), old(history), mid, dealer, shoeId)
            && DealerDrawn(old(dealer), dealer) && DrawnAs(old(shoe), old(drawn), old(shoeId), shoe, drawn, shoeId, dealer[|old(dealer)|..])
          else
            && State() == TurnPassed(old(dealer), old(accounts), old(history), mid, dealer, shoeId)
            && (EndsRound(mid) ==> DealerDrawn(old(dealer), dealer))
            && (!EndsRound(mid) ==> dealer == old(dealer) && shoe == old(shoe) && shoeId == old(shoeId) && drawn == old(drawn))
            && |old(dealer)| <= |dealer| && DrawnAs(old(shoe), old(drawn), old(shoeId), shoe, drawn, shoeId, dealer[|old(dealer)|..])
    {
      var i := SeatBySocket(seats, sid);
      if i.None? {
        return;
      }
      var k := i.value;
      if phase == Lobby || phase == Betting {
        RemoveSeat(phase, dealer, seats, k);
        SeatOfSocket(seats, k);
        WithoutOne(seats, sid, k);
        seats := Without(seats, sid);
        return;
      }
      var s := seats[k].(done := true, turn := false);
      SeatLeaves(phase, dealer, seats, k, s);
      seats := seats[k := s];
      if phase == Acting {
        if FirstActive(seats).None? {
          DrawAndSettle();
        } else {
          NextTurn();
        }
      }
    }
  }
}
