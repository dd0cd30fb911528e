/// Round settlement for one seat: the ordered outcome rules of settleAndSave,
/// the payout each outcome earns, and the ledger record it is credited to.
module Settlement {
  import opened Cards

  datatype Outcome = Push | WinBJ | Win | Lose

  datatype Settled = Settled(result: Outcome, payout: int)

  /** A player's ledger entry: chip balance and cumulative hand statistics. */
  datatype Account = Account(chips: int, hands: nat, wins: nat, losses: nat, pushes: nat)

  /** The outcome and payout of one hand against the dealer's final hand; the first
      matching rule wins. A natural pays floor(2.5 × bet), written (5 × bet) / 2. */
  function Settle(bet: int, cards: seq<Card>, busted: bool, dealer: seq<Card>): Settled
  {
    var dT := Total(dealer);
    var dealerBJ := IsBJ(dealer);
    var pT := Total(cards);
    if IsBJ(cards) && dealerBJ then Settled(Push, bet)
    else if IsBJ(cards) then Settled(WinBJ, (5 * bet) / 2)
    else if dealerBJ then Settled(Lose, 0)
    else if busted then Settled(Lose, 0)
    else if dT > BLACKJACK then Settled(Win, bet * 2)
    else if pT > dT then Settled(Win, bet * 2)
    else if pT < dT then Settled(Lose, 0)
    else Settled(Push, bet)
  }

  predicate IsWin(r: Outcome)
  {
    r == Win || r == WinBJ
  }

  /** How good a player's hand is: a natural beats every other hand, a bust hand loses to all. */
  function PlayerScore(cards: seq<Card>): int
  {
    if Total(cards) > BLACKJACK then -1 else if IsBJ(cards) then 22 else Total(cards)
  }

  /** How good the dealer's hand is: a bust dealer loses to every standing hand. */
  function DealerScore(dealer: seq<Card>): int
  {
    if Total(dealer) > BLACKJACK then 0 else if IsBJ(dealer) then 22 else Total(dealer)
  }

  /** The ordered rules amount to comparing scores: a seat wins exactly when its hand
      scores higher than the dealer's, pushes on equal scores and loses otherwise; it is
      paid 2.5 × bet (rounded down) for a natural against a non-natural, twice the bet for
      any other win, the bet back on a push and nothing on a loss. */
  lemma SettleByScore(bet: int, cards: seq<Card>, dealer: seq<Card>)
    requires cards != []
    ensures var st := Settle(bet, cards, Total(cards) > BLACKJACK, dealer);
      && (IsWin(st.result) <==> PlayerScore(cards) > DealerScore(dealer))
      && (st.result == Push <==> PlayerScore(cards) == DealerScore(dealer))
      && (st.result == Lose <==> PlayerScore(cards) < DealerScore(dealer))
      && (st.result == WinBJ <==> IsBJ(cards) && !IsBJ(dealer))
      && (st.result == WinBJ ==> 2 * st.payout <= 5 * bet < 2 * st.payout + 2)
      && (st.result == Win ==> st.payout == 2 * bet)
      && (st.result == Push ==> st.payout == bet)
      && (st.result == Lose ==> st.payout == 0)
  {
    NonEmptyTotal(cards);
    TotalIsBest(dealer);
  }

  /** The ledger update for one settled hand: the payout is credited and the
      statistics count one more hand and its outcome. */
  function Credit(a: Account, st: Settled): (b: Account)
    ensures b.chips - a.chips == st.payout && b.hands == a.hands + 1
    ensures b.wins + b.losses + b.pushes == a.wins + a.losses + a.pushes + 1
    ensures b.wins == a.wins + (if IsWin(st.result) then 1 else 0)
    ensures b.losses == a.losses + (if st.result == Lose then 1 else 0)
    ensures b.pushes == a.pushes + (if st.result == Push then 1 else 0)
  {
    a.(chips := a.chips + st.payout,
       hands := a.hands + 1,
       wins := a.wins + (if IsWin(st.result) then 1 else 0),
       losses := a.losses + (if st.result == Lose then 1 else 0),
       pushes := a.pushes + (if st.result == Push then 1 else 0))
  }
}
