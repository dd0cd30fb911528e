/// Card text and hand evaluation: the rank/suit alphabet, the rank parser,
/// card values, the soft/hard Ace total of a hand and the natural-blackjack test.
module Cards {

  const SUITS: seq<string> := ["S", "H", "D", "C"]
  const RANKS: seq<string> := ["A", "2", "3", "4", "5", "6", "7", "8", "9", "10", "J", "Q", "K"]

  /** The value a total must exceed for a hand to be bust. */
  const BLACKJACK := 21

  /** A rank text: one of "A", "2".."9", "J", "Q", "K", or "10". */
  predicate IsRankText(r: string)
  {
    || (|r| == 1 && (r[0] == 'A' || '2' <= r[0] <= '9' || r[0] == 'J' || r[0] == 'Q' || r[0] == 'K'))
    || (|r| == 2 && r[0] == '1' && r[1] == '0')
  }

  predicate IsSuitChar(ch: char)
  {
    ch == 'S' || ch == 'H' || ch == 'D' || ch == 'C'
  }

  type Rank = r: string | IsRankText(r) witness "A"
  type Suit = s: string | |s| == 1 && IsSuitChar(s[0]) witness "S"

  /** The rank part of a card text: "10" for texts starting with "10", else the first character. */
  function ParseRank(card: string): (r: string)
    requires card != []
    ensures 1 <= |r| <= 2 && |r| <= |card| && r == card[..|r|]
    ensures |r| == 2 <==> |card| >= 2 && card[..2] == "10"
  {
    if |card| >= 2 && card[0] == '1' && card[1] == '0' then "10" else [card[0]]
  }

  /** A card text is a rank followed by a single suit letter. */
  predicate IsCard(c: string)
  {
    c != [] && IsRankText(ParseRank(c)) && |c| == |ParseRank(c)| + 1 && IsSuitChar(c[|c| - 1])
  }

  type Card = c: string | IsCard(c) witness "AS"

  function RankOf(c: Card): Rank
  {
    ParseRank(c)
  }

  function SuitOf(c: Card): Suit
  {
    [c[|c| - 1]]
  }

  /** The rank texts are exactly the entries of RANKS. */
  lemma RanksListed(r: string)
    ensures IsRankText(r) <==> r in RANKS
  {
    if IsRankText(r) {
      if |r| == 2 {
        assert r == "10" == RANKS[9];
      } else {
        assert r == [r[0]];
      }
    }
  }

  /** The suit texts are exactly the entries of SUITS. */
  lemma SuitsListed(s: string)
    ensures (|s| == 1 && IsSuitChar(s[0])) <==> s in SUITS
  {
    if |s| == 1 {
      assert s == [s[0]];
    }
  }

  /** Every rank followed by every suit is a card text whose rank and suit parse back. */
  lemma CardText(r: Rank, s: Suit)
    ensures IsCard(r + s) && ParseRank(r + s) == r && (r + s)[|r|..] == s
  {
    var c := r + s;
    assert |s| == 1 && [c[|c| - 1]] == s;
    if r != "10" {
      assert |r| == 1 && r[0] != '1' && c[0] == r[0];
    }
  }

  /** A card text is exactly its rank text followed by its suit text. */
  lemma CardSplit(c: Card)
    ensures c == RankOf(c) + SuitOf(c)
  {
    var k := |ParseRank(c)|;
    assert c[..k] == ParseRank(c) && c[k..] == SuitOf(c);
    assert c == c[..k] + c[k..];
  }

  /** The card text `${r}${s}` built when a shoe is filled. */
  function CardOf(r: Rank, s: Suit): (c: Card)
    ensures RankOf(c) == r && SuitOf(c) == s
  {
    CardText(r, s);
    r + s
  }

  /** JavaScript's Number() on a string of decimal digits. */
  function DecimalValue(s: string): nat
  {
    if s == [] then 0
    else
      var d := s[|s| - 1];
      DecimalValue(s[..|s| - 1]) * 10 + (if '0' <= d <= '9' then d as int - '0' as int else 0)
  }

  /** The provisional value of a rank: Ace 11, face cards 10, number cards their face value. */
  function CardVal(r: Rank): (v: nat)
  {
    if r == "A" then 11
    else if r in ["J", "Q", "K"] then 10
    else DecimalValue(r)
  }

  /** The value of a rank when an Ace counts 1. */
  function HardVal(r: Rank): nat
  {
    if r == "A" then 1 else CardVal(r)
  }

  /** Number cards are worth their face value, face cards ten, and only the Ace eleven. */
  lemma CardValRange(r: Rank)
    ensures 2 <= CardVal(r) <= 11
    ensures CardVal(r) == 11 <==> r == "A"
    ensures CardVal(r) == 10 <==> r in ["10", "J", "Q", "K"]
    ensures 1 <= HardVal(r) <= 10
  {
    if |r| == 2 {
      assert r == "10";
      assert DecimalValue("10") == 10 by {
        assert "10"[..1] == "1";
        assert "1"[..0] == "";
      }
    } else {
      assert r == [r[0]] && r[..0] == [];
      assert r == "A" <==> r[0] == 'A';
      assert r in ["J", "Q", "K"] <==> r[0] == 'J' || r[0] == 'Q' || r[0] == 'K';
      assert r != "10";
      assert '2' <= r[0] <= '9' ==> DecimalValue(r) == r[0] as int - '0' as int;
    }
  }

  function Val(c: Card): nat
  {
    CardVal(RankOf(c))
  }

  function IsAce(c: Card): bool
  {
    RankOf(c) == "A"
  }

  /** The sum with every Ace counted 11. */
  function SoftSum(cards: seq<Card>): nat
  {
    if cards == [] then 0 else SoftSum(cards[..|cards| - 1]) + Val(cards[|cards| - 1])
  }

  /** The number of Aces in the hand. */
  function AceCount(cards: seq<Card>): nat
  {
    if cards == [] then 0 else AceCount(cards[..|cards| - 1]) + (if IsAce(cards[|cards| - 1]) then 1 else 0)
  }

  /** The sum with every Ace counted 1. */
  function HardSum(cards: seq<Card>): nat
  {
    if cards == [] then 0 else HardSum(cards[..|cards| - 1]) + HardVal(RankOf(cards[|cards| - 1]))
  }

  /** The value of the hand when exactly k of its Aces count 11 and the others 1. */
  function Counted(cards: seq<Card>, k: nat): int
  {
    HardSum(cards) + 10 * k
  }

  /** Demote Aces from 11 to 1, one at a time, while the sum is bust. */
  function Reduce(sum: int, aces: nat): int
    decreases aces
  {
    if sum > BLACKJACK && aces > 0 then Reduce(sum - 10, aces - 1) else sum
  }

  /** The hand total computed by handTotal. */
  function Total(cards: seq<Card>): int
  {
    Reduce(SoftSum(cards), AceCount(cards))
  }

  /** A natural: exactly two cards totalling 21. */
  predicate IsBJ(cards: seq<Card>)
  {
    |cards| == 2 && Total(cards) == BLACKJACK
  }

  /** handTotal: add the provisional values and count Aces, then demote Aces while bust. */
  method HandTotal(cards: seq<Card>) returns (total: int)
    ensures total == Total(cards)
  {
    var sum, aces := 0, 0;
    for i := 0 to |cards|
      invariant sum == SoftSum(cards[..i]) && aces == AceCount(cards[..i])
    {
      assert cards[..i + 1][..i] == cards[..i];
      var r := ParseRank(cards[i]);
      sum := sum + CardVal(r);
      if r == "A" {
        aces := aces + 1;
      }
    }
    assert cards[..|cards|] == cards;
    while sum > BLACKJACK && aces > 0
      invariant Reduce(sum, aces) == Total(cards)
      decreases aces
    {
      sum := sum - 10;
      aces := aces - 1;
    }
    total := sum;
  }

  lemma {:induction false} SoftIsHardPlusAces(cards: seq<Card>)
    ensures SoftSum(cards) == HardSum(cards) + 10 * AceCount(cards)
  {
    if cards != [] {
      SoftIsHardPlusAces(cards[..|cards| - 1]);
      CardValRange(RankOf(cards[|cards| - 1]));
    }
  }

  /** Reducing from all Aces high lands on the best reachable value: the largest one
      that is not bust if there is one, else the all-Aces-low value. */
  lemma {:induction false} ReduceBest(h: int, a: nat)
    ensures var t := Reduce(h + 10 * a, a);
      && h <= t <= h + 10 * a && (t - h) % 10 == 0
      && (t <= BLACKJACK ==> forall k: nat | k <= a && h + 10 * k <= BLACKJACK :: h + 10 * k <= t)
      && (t > BLACKJACK ==> t == h)
    decreases a
  {
    if h + 10 * a > BLACKJACK && a > 0 {
      assert h + 10 * a - 10 == h + 10 * (a - 1);
      ReduceBest(h, a - 1);
    }
  }

  /** handTotal returns the largest value not above 21 that the hand reaches by counting each
      Ace as 1 or 11, if there is one, and otherwise the value with every Ace counted 1; it
      never takes off more than 10 per Ace. */
  lemma TotalIsBest(cards: seq<Card>)
    ensures HardSum(cards) <= Total(cards) <= SoftSum(cards)
    ensures exists k: nat :: k <= AceCount(cards) && Total(cards) == Counted(cards, k)
    ensures Total(cards) <= BLACKJACK ==>
      forall k: nat | k <= AceCount(cards) && Counted(cards, k) <= BLACKJACK :: Counted(cards, k) <= Total(cards)
    ensures Total(cards) > BLACKJACK ==>
      Total(cards) == HardSum(cards) && forall k: nat | k <= AceCount(cards) :: Counted(cards, k) > BLACKJACK
  {
    var h, a := HardSum(cards), AceCount(cards);
    SoftIsHardPlusAces(cards);
    ReduceBest(h, a);
    var t := Reduce(h + 10 * a, a);
    assert Total(cards) == t;
    var k: nat := (t - h) / 10;
    assert t == h + 10 * k;
    assert Counted(cards, k) == t;
  }

  /** A hand made of one more card is worth at least one more with every Ace low. */
  lemma HardSumGrows(cards: seq<Card>, c: Card)
    ensures HardSum(cards + [c]) >= HardSum(cards) + 1
  {
    assert (cards + [c])[..|cards|] == cards;
    CardValRange(RankOf(c));
  }

  /** A non-empty hand is worth at least 1. */
  lemma NonEmptyTotal(cards: seq<Card>)
    requires cards != []
    ensures Total(cards) >= 1
  {
    assert cards == cards[..|cards| - 1] + [cards[|cards| - 1]];
    HardSumGrows(cards[..|cards| - 1], cards[|cards| - 1]);
    TotalIsBest(cards);
  }

  /** Two cards are never bust: two Aces count 12. */
  lemma TwoCardsNotBust(c0: Card, c1: Card)
    ensures Total([c0, c1]) <= BLACKJACK
  {
    TwoCardSums(c0, c1);
    CardValRange(RankOf(c0));
    CardValRange(RankOf(c1));
    TotalIsBest([c0, c1]);
  }

  lemma TwoCardSums(c0: Card, c1: Card)
    ensures SoftSum([c0, c1]) == Val(c0) + Val(c1)
    ensures HardSum([c0, c1]) == HardVal(RankOf(c0)) + HardVal(RankOf(c1))
    ensures AceCount([c0, c1]) == (if IsAce(c0) then 1 else 0) + (if IsAce(c1) then 1 else 0)
  {
    var cards := [c0, c1];
    assert cards[..1] == [c0];
    assert [c0][..0] == [];
    assert SoftSum([c0]) == Val(c0);
    assert HardSum([c0]) == HardVal(RankOf(c0));
    assert AceCount([c0]) == (if IsAce(c0) then 1 else 0);
  }

  /** A natural is exactly an Ace with a ten-valued card; a hand of three or more cards never is. */
  lemma IsBJIffAceAndTen(cards: seq<Card>)
    ensures IsBJ(cards) <==>
      |cards| == 2 && ((Val(cards[0]) == 11 && Val(cards[1]) == 10) || (Val(cards[0]) == 10 && Val(cards[1]) == 11))
  {
    if |cards| == 2 {
      assert cards == [cards[0], cards[1]];
      TwoCardSums(cards[0], cards[1]);
      CardValRange(RankOf(cards[0]));
      CardValRange(RankOf(cards[1]));
      var soft := SoftSum(cards);
      if soft > BLACKJACK {
        assert IsAce(cards[0]) && IsAce(cards[1]) && AceCount(cards) == 2;
        assert Reduce(soft, 2) == Reduce(12, 1) == 12;
      }
    }
  }

  /** The hidden hole card shown to clients is not the text of any card. */
  lemma MaskIsNotACard()
    ensures !IsCard("##")
  {
  }
}
