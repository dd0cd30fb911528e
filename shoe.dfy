/// The shoe: decks × 52 card texts in suit-major order, then shuffled in place
/// by Fisher–Yates with an arbitrary index drawn at each step.
module Shoe {
  import opened Cards

  /** The number of decks in the table's shoe. */
  const SHOE_DECKS := 6

  /** Below this many cards the shoe is replaced before a card is dealt. */
  const LOW_WATER := 60

  /** One deck in the order the filling loops push it: for each suit, every rank. */
  function Deck(): (d: seq<Card>)
    ensures |d| == |SUITS| * |RANKS|
  {
    seq(52, i requires 0 <= i < 52 => CardOf(RANKS[i % 13], SUITS[i / 13]))
  }

  lemma DeckAt(i: nat)
    requires i < 52
    ensures Deck()[i] == CardOf(RANKS[i % 13], SUITS[i / 13])
  {
  }

  /** `n` copies of `s`, one after another. */
  function Repeat<T>(s: seq<T>, n: nat): (r: seq<T>)
    ensures |r| == |s| * n
  {
    if n == 0 then [] else Repeat(s, n - 1) + s
  }

  /** `decks` copies of the deck, one after another, before shuffling. */
  function Ordered(decks: nat): (s: seq<Card>)
    ensures |s| == 52 * decks
  {
    Repeat(Deck(), decks)
  }

  /** An element occurring once in `s` occurs `n` times in `n` copies of it. */
  lemma {:induction false} RepeatCount<T>(s: seq<T>, n: nat, x: T)
    requires multiset(s)[x] == 1
    ensures multiset(Repeat(s, n))[x] == n
  {
    if n > 0 {
      assert multiset(Repeat(s, n)) == multiset(Repeat(s, n - 1)) + multiset(s);
      RepeatCount(s, n - 1, x);
    }
  }

  predicate NoDuplicates<T(==)>(s: seq<T>)
  {
    s == [] || (s[0] !in s[1..] && NoDuplicates(s[1..]))
  }

  lemma {:induction false} NoDuplicatesDistinct<T>(s: seq<T>, i: nat, j: nat)
    requires NoDuplicates(s) && i < j < |s|
    ensures s[i] != s[j]
  {
    if i == 0 {
      assert s[j] == s[1..][j - 1];
    } else {
      assert s[i] == s[1..][i - 1] && s[j] == s[1..][j - 1];
      NoDuplicatesDistinct(s[1..], i - 1, j - 1);
    }
  }

  lemma {:induction false} NoDuplicatesCount<T>(s: seq<T>, x: T)
    requires NoDuplicates(s)
    ensures multiset(s)[x] == if x in s then 1 else 0
  {
    if s != [] {
      assert s == [s[0]] + s[1..];
      NoDuplicatesCount(s[1..], x);
    }
  }

  /** Two equal elements at different positions make a multiset count of at least two. */
  lemma RepeatedCount<T>(s: seq<T>, a: nat, b: nat)
    requires a < b < |s| && s[a] == s[b]
    ensures multiset(s)[s[a]] >= 2
  {
    assert s == s[..b] + s[b..];
    assert s[a] in s[..b] && s[b] in s[b..];
  }

  /** The first character of each rank text, in the order of RANKS. */
  const RANK_HEADS: seq<char> := ['A', '2', '3', '4', '5', '6', '7', '8', '9', '1', 'J', 'Q', 'K']

  lemma RankHead(i: nat)
    requires i < |RANKS|
    ensures RANKS[i] != [] && RANKS[i][0] == RANK_HEADS[i]
  {
  }

  lemma RankHeadsDistinct(a: nat, b: nat)
    requires a < b < |RANK_HEADS|
    ensures RANK_HEADS[a] != RANK_HEADS[b]
  {
  }

  /** No two positions of RANKS hold the same text: their first characters already differ. */
  lemma RanksDistinct(a: nat, b: nat)
    requires a < b < |RANKS|
    ensures RANKS[a] != RANKS[b]
  {
    RankHead(a);
    RankHead(b);
    RankHeadsDistinct(a, b);
  }

  lemma SuitsDistinct(a: nat, b: nat)
    requires a < b < |SUITS|
    ensures SUITS[a] != SUITS[b]
  {
    var s: Suit := SUITS[a];
    assert multiset(SUITS)[s] == 1;
    if SUITS[a] == SUITS[b] {
      RepeatedCount(SUITS, a, b);
    }
  }

  /** The 52 texts of a deck are pairwise different. */
  lemma DeckDistinct(i: nat, j: nat)
    requires i < j < 52
    ensures Deck()[i] != Deck()[j]
  {
    DeckAt(i);
    DeckAt(j);
    if Deck()[i] == Deck()[j] {
      if i % 13 != j % 13 {
        if i % 13 < j % 13 { RanksDistinct(i % 13, j % 13); } else { RanksDistinct(j % 13, i % 13); }
      }
      if i / 13 != j / 13 {
        SuitsDistinct(i / 13, j / 13);
      }
      assert false;
    }
  }

  lemma DeckHasNoDuplicates()
    ensures NoDuplicates(Deck())
  {
    forall i, j | 0 <= i < j < |Deck()| ensures Deck()[i] != Deck()[j] {
      DeckDistinct(i, j);
    }
    DistinctNoDuplicates(Deck());
  }

  lemma DeckContains(c: Card)
    ensures c in Deck()
  {
    var r, s := RankOf(c), SuitOf(c);
    RanksListed(r);
    SuitsListed(s);
    var ri :| 0 <= ri < 13 && RANKS[ri] == r;
    var si :| 0 <= si < 4 && SUITS[si] == s;
    var k := 13 * si + ri;
    assert k % 13 == ri && k / 13 == si;
    CardSplit(c);
    DeckAt(k);
  }

  /** Every card text occurs exactly once in a deck. */
  lemma DeckCount(c: Card)
    ensures multiset(Deck())[c] == 1
  {
    DeckHasNoDuplicates();
    DeckContains(c);
    NoDuplicatesCount(Deck(), c);
  }

  lemma {:induction false} DistinctNoDuplicates<T>(s: seq<T>)
    requires forall i, j | 0 <= i < j < |s| :: s[i] != s[j]
    ensures NoDuplicates(s)
  {
    if s != [] {
      assert forall i, j | 0 <= i < j < |s[1..]| :: s[1..][i] == s[i + 1] && s[1..][j] == s[j + 1];
      DistinctNoDuplicates(s[1..]);
    }
  }

  /** Each rank/suit text occurs exactly `decks` times among `decks` decks. */
  lemma OrderedCount(decks: nat, c: Card)
    ensures multiset(Ordered(decks))[c] == decks
  {
    DeckCount(c);
    RepeatCount(Deck(), decks, c);
  }

  /** A hand of cards holding every card text exactly `decks` times is a reordering of
      the unshuffled shoe. */
  lemma CountsMakeOrdered(cards: seq<Card>, decks: nat)
    requires forall c: Card :: multiset(cards)[c] == decks
    ensures multiset(cards) == multiset(Ordered(decks))
  {
    forall c: Card ensures multiset(cards)[c] == multiset(Ordered(decks))[c] {
      OrderedCount(decks, c);
    }
    forall x: string | multiset(cards)[x] > 0 || multiset(Ordered(decks))[x] > 0
      ensures IsCard(x)
    {
    }
  }

  /** No card lost or made up: what is left in the shoe plus what was dealt from it
      holds every card text exactly SHOE_DECKS times, as a freshly built shoe does. */
  ghost predicate Conserved(left: seq<Card>, dealt: seq<Card>)
  {
    forall c: Card :: multiset(left)[c] + multiset(dealt)[c] == SHOE_DECKS
  }

  /** How many cards a shoe of `n` cards deals before it is rebuilt: dealCard pops while the
      shoe holds LOW_WATER cards or more, so it stops with LOW_WATER - 1 left. */
  function BeforeRebuild(n: nat): nat
  {
    if n < LOW_WATER then 0 else n - (LOW_WATER - 1)
  }

  /** `s` in reverse order: the order in which its cards come off the top (the end). */
  function Reversed<T>(s: seq<T>): seq<T>
  {
    if s == [] then [] else Reversed(s[1..]) + [s[0]]
  }

  lemma {:induction false} ReversedLength<T>(s: seq<T>)
    ensures |Reversed(s)| == |s|
  {
    if s != [] {
      ReversedLength(s[1..]);
    }
  }

  /** The j-th card of the reversal is the j-th card from the end. */
  lemma {:induction false} ReversedAt<T>(s: seq<T>, j: nat)
    requires j < |s|
    ensures |Reversed(s)| == |s| && Reversed(s)[j] == s[|s| - 1 - j]
  {
    ReversedLength(s);
    if j < |s| - 1 {
      ReversedAt(s[1..], j);
    }
  }

  /** Reversing a concatenation reverses the order of the parts. */
  lemma {:induction false} ReversedAppend<T>(a: seq<T>, b: seq<T>)
    ensures Reversed(a + b) == Reversed(b) + Reversed(a)
  {
    if a == [] {
      assert a + b == b;
    } else {
      assert (a + b)[1..] == a[1..] + b;
      ReversedAppend(a[1..], b);
    }
  }

  /** `cards`, dealt in this order, took the shoe from `s0` to `s1` and the record of cards
      dealt from it from `d0` under shoe id `id0` to `d1` under `id1`.
      From the same shoe, the cards came off its top one by one and were appended to the
      record. After a rebuild, which starts a new shoe with an empty record and a new id,
      the first BeforeRebuild(|s0|) cards came off the top of `s0`, the new shoe and its
      record make a full shoe, and the record holds the last of `cards`: all of them after
      the first when there was one rebuild, which is so whenever too few cards followed for
      the new shoe to fall below LOW_WATER again. */
  ghost predicate DrawnAs<T>(s0: seq<T>, d0: seq<T>, id0: nat, s1: seq<T>, d1: seq<T>, id1: nat, cards: seq<T>)
  {
    && id0 <= id1
    && if id1 == id0 then
         && d1 == d0 + cards && s0 == s1 + Reversed(cards)
         && (cards != [] ==> |s1| >= LOW_WATER - 1)
       else
         var k := BeforeRebuild(|s0|);
         && k <= |cards| && s0[|s0| - k..] == Reversed(cards[..k])
         && |s1| + |d1| == 52 * SHOE_DECKS
         && |d1| <= |cards| - k && d1 == cards[|cards| - |d1|..]
         && (|cards| - k <= 52 * SHOE_DECKS - LOW_WATER ==> id1 == id0 + 1)
         && (id1 == id0 + 1 ==> |d1| == |cards| - k)
  }

  /** Every card dealt from the shoe a run started with was that shoe's next top card. */
  lemma DrawnFromTop<T>(s0: seq<T>, d0: seq<T>, id0: nat, s1: seq<T>, d1: seq<T>, id1: nat, cards: seq<T>, i: nat)
    requires DrawnAs(s0, d0, id0, s1, d1, id1, cards)
    requires i < if id1 == id0 then |cards| else BeforeRebuild(|s0|)
    ensures i < |s0| && cards[i] == s0[|s0| - 1 - i]
  {
    if id1 == id0 {
      ReversedAt(cards, |cards| - 1 - i);
      assert s0[|s1| + (|cards| - 1 - i)] == Reversed(cards)[|cards| - 1 - i];
    } else {
      var k := BeforeRebuild(|s0|);
      ReversedAt(cards[..k], k - 1 - i);
      assert s0[|s0| - 1 - i] == s0[|s0| - k..][k - 1 - i];
    }
  }

  /** Dealing nothing leaves the shoe and the record as they were. */
  lemma DrawnNothing<T>(s: seq<T>, d: seq<T>, id: nat)
    ensures DrawnAs(s, d, id, s, d, id, [])
  {
    assert d + [] == d && s + Reversed<T>([]) == s;
  }

  /** One card popped from the top of a shoe of LOW_WATER cards or more. */
  lemma DrawnTop<T>(s0: seq<T>, d0: seq<T>, id: nat, s1: seq<T>, c: T)
    requires |s0| >= LOW_WATER && s1 + [c] == s0
    ensures DrawnAs(s0, d0, id, s1, d0 + [c], id, [c])
  {
    assert Reversed([c]) == Reversed<T>([]) + [c] == [c];
  }

  /** One card popped from a fresh shoe that replaced one below LOW_WATER. */
  lemma DrawnFresh<T>(s0: seq<T>, d0: seq<T>, id0: nat, s1: seq<T>, c: T)
    requires |s0| < LOW_WATER && |s1| == 52 * SHOE_DECKS - 1
    ensures DrawnAs(s0, d0, id0, s1, [c], id0 + 1, [c])
  {
    assert [c][..0] == [] && s0[|s0|..] == [] && [c][1 - 1..] == [c];
  }

  /** Dealing `a` and then `b` is dealing `a + b`. */
  lemma DrawnInSequence<T>(
    s0: seq<T>, d0: seq<T>, id0: nat, s1: seq<T>, d1: seq<T>, id1: nat,
    s2: seq<T>, d2: seq<T>, id2: nat, a: seq<T>, b: seq<T>)
    requires DrawnAs(s0, d0, id0, s1, d1, id1, a) && DrawnAs(s1, d1, id1, s2, d2, id2, b)
    ensures DrawnAs(s0, d0, id0, s2, d2, id2, a + b)
  {
    if id1 == id0 && id2 == id1 {
      SameThenSame(s0, d0, id0, s1, d1, id1, s2, d2, id2, a, b);
    } else if id1 == id0 {
      SameThenRebuilt(s0, d0, id0, s1, d1, id1, s2, d2, id2, a, b);
    } else if id2 == id1 {
      RebuiltThenSame(s0, d0, id0, s1, d1, id1, s2, d2, id2, a, b);
    } else {
      RebuiltTwice(s0, d0, id0, s1, d1, id1, s2, d2, id2, a, b);
    }
  }

  lemma SameThenSame<T>(
    s0: seq<T>, d0: seq<T>, id0: nat, s1: seq<T>, d1: seq<T>, id1: nat,
    s2: seq<T>, d2: seq<T>, id2: nat, a: seq<T>, b: seq<T>)
    requires DrawnAs(s0, d0, id0, s1, d1, id1, a) && DrawnAs(s1, d1, id1, s2, d2, id2, b)
    requires id1 == id0 && id2 == id1
    ensures DrawnAs(s0, d0, id0, s2, d2, id2, a + b)
  {
    ReversedAppend(a, b);
    assert d2 == d0 + (a + b);
    assert s0 == s2 + Reversed(a + b);
    if b == [] {
      assert s2 == s1;
    }
  }

  lemma SameThenRebuilt<T>(
    s0: seq<T>, d0: seq<T>, id0: nat, s1: seq<T>, d1: seq<T>, id1: nat,
    s2: seq<T>, d2: seq<T>, id2: nat, a: seq<T>, b: seq<T>)
    requires DrawnAs(s0, d0, id0, s1, d1, id1, a) && DrawnAs(s1, d1, id1, s2, d2, id2, b)
    requires id1 == id0 && id2 > id1
    ensures DrawnAs(s0, d0, id0, s2, d2, id2, a + b)
  {
    var kb := BeforeRebuild(|s1|);
    if a == [] {
      assert s0 == s1 && a + b == b;
    } else {
      ReversedLength(a);
      assert BeforeRebuild(|s0|) == |a| + kb;
      PrefixOfAppend(a, b, kb);
      ReversedAppend(a, b[..kb]);
      SuffixOfAppend(s1, Reversed(a), kb);
      TailOfAppendAll(a, b, |d2|);
    }
  }

  lemma PrefixOfAppend<T>(a: seq<T>, b: seq<T>, n: nat)
    requires n <= |b|
    ensures (a + b)[..|a| + n] == a + b[..n]
  {
  }

  lemma SuffixOfAppend<T>(s: seq<T>, r: seq<T>, n: nat)
    requires n <= |s|
    ensures (s + r)[|s| - n..] == s[|s| - n..] + r
  {
  }

  lemma TailOfAppendAll<T>(a: seq<T>, b: seq<T>, n: nat)
    requires n <= |b|
    ensures (a + b)[|a + b| - n..] == b[|b| - n..]
  {
  }

  lemma RebuiltThenSame<T>(
    s0: seq<T>, d0: seq<T>, id0: nat, s1: seq<T>, d1: seq<T>, id1: nat,
    s2: seq<T>, d2: seq<T>, id2: nat, a: seq<T>, b: seq<T>)
    requires DrawnAs(s0, d0, id0, s1, d1, id1, a) && DrawnAs(s1, d1, id1, s2, d2, id2, b)
    requires id1 > id0 && id2 == id1
    ensures DrawnAs(s0, d0, id0, s2, d2, id2, a + b)
  {
    var c := a + b;
    var k := BeforeRebuild(|s0|);
    ReversedLength(b);
    assert c[..k] == a[..k];
    assert c[|c| - |d2|..] == a[|a| - |d1|..] + b;
  }

  lemma RebuiltTwice<T>(
    s0: seq<T>, d0: seq<T>, id0: nat, s1: seq<T>, d1: seq<T>, id1: nat,
    s2: seq<T>, d2: seq<T>, id2: nat, a: seq<T>, b: seq<T>)
    requires DrawnAs(s0, d0, id0, s1, d1, id1, a) && DrawnAs(s1, d1, id1, s2, d2, id2, b)
    requires id1 > id0 && id2 > id1
    ensures DrawnAs(s0, d0, id0, s2, d2, id2, a + b)
  {
    var c := a + b;
    var k := BeforeRebuild(|s0|);
    assert c[..k] == a[..k];
    assert c[|c| - |d2|..] == b[|b| - |d2|..];
    // The second rebuild came only after the first shoe fell below LOW_WATER again.
    assert |c| - k >= |d1| + BeforeRebuild(|s1|) > 52 * SHOE_DECKS - LOW_WATER;
  }

  /** Dealing `a` and then `b` is dealing the pair `[a, b]`. */
  lemma DrawnPair<T>(
    s0: seq<T>, d0: seq<T>, id0: nat, s1: seq<T>, d1: seq<T>, id1: nat,
    s2: seq<T>, d2: seq<T>, id2: nat, a: T, b: T)
    requires DrawnAs(s0, d0, id0, s1, d1, id1, [a]) && DrawnAs(s1, d1, id1, s2, d2, id2, [b])
    ensures DrawnAs(s0, d0, id0, s2, d2, id2, [a, b])
  {
    PairOfSingles(a, b);
    DrawnInSequence(s0, d0, id0, s1, d1, id1, s2, d2, id2, [a], [b]);
  }

  lemma PairOfSingles<T>(a: T, b: T)
    ensures [a] + [b] == [a, b]
  {
  }

  /** A hand `held` that grew past `base` by cards dealt in order, and then by one more
      card `c`, grew past `base` by all of them. */
  lemma DrawnOneMore<T>(
    s0: seq<T>, d0: seq<T>, id0: nat, s1: seq<T>, d1: seq<T>, id1: nat,
    s2: seq<T>, d2: seq<T>, id2: nat, base: seq<T>, held: seq<T>, c: T)
    requires |base| <= |held|
    requires DrawnAs(s0, d0, id0, s1, d1, id1, held[|base|..]) && DrawnAs(s1, d1, id1, s2, d2, id2, [c])
    ensures DrawnAs(s0, d0, id0, s2, d2, id2, (held + [c])[|base|..])
  {
    DrawnInSequence(s0, d0, id0, s1, d1, id1, s2, d2, id2, held[|base|..], [c]);
    TailOfAppend(held, |base|, c);
  }

  lemma TailOfAppend<T>(s: seq<T>, n: nat, c: T)
    requires n <= |s|
    ensures (s + [c])[n..] == s[n..] + [c]
  {
  }

  /** What is left plus what was dealt always makes up a full shoe of 52 × SHOE_DECKS cards. */
  lemma ConservedSize(left: seq<Card>, dealt: seq<Card>)
    requires Conserved(left, dealt)
    ensures |left| + |dealt| == 52 * SHOE_DECKS
  {
    var all := left + dealt;
    assert multiset(all) == multiset(left) + multiset(dealt);
    CountsMakeOrdered(all, SHOE_DECKS);
    assert |all| == |multiset(all)| == |multiset(Ordered(SHOE_DECKS))| == |Ordered(SHOE_DECKS)|;
  }

  /** Dealing the last card of the shoe moves it from what is left to what was dealt. */
  lemma PopConserves(left: seq<Card>, dealt: seq<Card>)
    requires Conserved(left, dealt) && left != []
    ensures Conserved(left[..|left| - 1], dealt + [left[|left| - 1]])
    ensures left[..|left| - 1] + [left[|left| - 1]] == left
  {
    var n := |left| - 1;
    assert left == left[..n] + [left[n]];
    assert multiset(left) == multiset(left[..n]) + multiset{left[n]};
  }

  /** The Fisher–Yates pass of makeShoe: for i from the last index down to 1, swap
      a[i] with a[j] for some j in 0..i. The shuffle keeps every card. */
  method Shuffle(a: array<Card>)
    modifies a
    ensures multiset(a[..]) == multiset(old(a[..]))
  {
    var i := a.Length - 1;
    while i > 0
      invariant -1 <= i < a.Length
      invariant multiset(a[..]) == multiset(old(a[..]))
    {
      var j :| 0 <= j <= i;
      a[i], a[j] := a[j], a[i];
      i := i - 1;
    }
  }

  /** The next card pushed by the filling loops extends the deck prefix by one. */
  lemma DeckPrefixStep(si: nat, ri: nat)
    requires si < |SUITS| && ri < |RANKS|
    ensures Deck()[..13 * si + ri + 1] == Deck()[..13 * si + ri] + [CardOf(RANKS[ri], SUITS[si])]
  {
    var k := 13 * si + ri;
    assert k % 13 == ri && k / 13 == si;
    DeckAt(k);
    assert Deck()[..k + 1] == Deck()[..k] + [Deck()[k]];
  }

  /** The suit and rank loops of makeShoe: for each suit, push every rank. */
  method PushDeck(arr: seq<Card>) returns (r: seq<Card>)
    ensures r == arr + Deck()
  {
    r := arr;
    for si := 0 to |SUITS|
      invariant r == arr + Deck()[..13 * si]
    {
      for ri := 0 to |RANKS|
        invariant r == arr + Deck()[..13 * si + ri]
      {
        DeckPrefixStep(si, ri);
        r := r + [CardOf(RANKS[ri], SUITS[si])];
      }
    }
    assert Deck()[..52] == Deck();
  }

  /** The filling loops of makeShoe: one deck after another, `decks` times. */
  method OrderedCards(decks: nat) returns (arr: seq<Card>)
    ensures arr == Ordered(decks)
  {
    arr := [];
    for d := 0 to decks
      invariant arr == Repeat(Deck(), d)
    {
      arr := PushDeck(arr);
    }
  }

  /** makeShoe: push `decks` ordered decks, then shuffle. The result holds exactly
      decks × 52 cards and each rank/suit text exactly `decks` times. */
  method MakeShoe(decks: nat) returns (shoe: seq<Card>)
    ensures |shoe| == 52 * decks
    ensures forall c: Card :: multiset(shoe)[c] == decks
  {
    var arr := OrderedCards(decks);
    var a := new Card[|arr|](i requires 0 <= i < |arr| => arr[i]);
    assert a[..] == arr;
    Shuffle(a);
    shoe := a[..];
    assert |shoe| == |multiset(shoe)| == |multiset(arr)| == |arr|;
    forall c: Card ensures multiset(shoe)[c] == decks {
      OrderedCount(decks, c);
    }
  }
}
