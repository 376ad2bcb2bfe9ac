/** The card economy: for each side a draw pile, a discard pile and a hand.
    The system is a value; every operation returns the next value. */
module Cards {
  import opened Wrappers
  import opened GameTypes
  import opened Randomness

  /** The two sizes the card system reads from its constants. */
  datatype Config = Config(maxHandSize: nat, deckSize: nat)

  /** A hand of three cards and a deck of twelve cards per side. */
  const Intended := Config(3, 12)

  function Min(a: int, b: int): int { if a <= b then a else b }
  function Max(a: int, b: int): int { if a <= b then b else a }

  /** One side's cards: its draw pile, discard pile and hand. */
  datatype Side = Side(deck: DeckState, hand: HandState) {

    /** Every card the side owns, wherever it lies. */
    function Pool(): multiset<Card> {
      multiset(deck.cards) + multiset(deck.discardPile) + multiset(hand.cards)
    }

    /** How many more cards the hand accepts before drawCard refuses. */
    function Room(): nat {
      if |hand.cards| < hand.maxHandSize then hand.maxHandSize - |hand.cards| else 0
    }

    /** Cards the side can still draw: the draw pile and, after a
        reshuffle, the discard pile. */
    function Available(): nat {
      |deck.cards| + |deck.discardPile|
    }
  }

  datatype CardSystem = CardSystem(playerDeck: DeckState, aiDeck: DeckState,
                                   playerHand: HandState, aiHand: HandState)
  {
    /** The side chosen by the `isPlayer` flag every operation takes. */
    function SideOf(isPlayer: bool): Side {
      if isPlayer then Side(playerDeck, playerHand) else Side(aiDeck, aiHand)
    }

    function WithSide(isPlayer: bool, s: Side): CardSystem {
      if isPlayer then this.(playerDeck := s.deck, playerHand := s.hand)
      else this.(aiDeck := s.deck, aiHand := s.hand)
    }
  }

  /** Both hands have the capacity the constants give them; the constructor
      establishes this and no operation changes a capacity. */
  predicate WellFormed(cs: CardSystem, cfg: Config) {
    cs.playerHand.maxHandSize == cfg.maxHandSize
    && cs.aiHand.maxHandSize == cfg.maxHandSize
  }

  // ---------------------------------------------------------------------
  // Card creation
  // ---------------------------------------------------------------------

  function DigitChar(d: nat): char
    requires d < 10
  {
    ('0' as int + d) as char
  }

  /** The decimal text of `n`, as a template literal renders it. */
  function NatToString(n: nat): (s: string)
    ensures 1 <= |s|
    ensures forall k :: 0 <= k < |s| ==> '0' <= s[k] <= '9'
    decreases n
  {
    if n < 10 then [DigitChar(n)] else NatToString(n / 10) + [DigitChar(n % 10)]
  }

  /** Distinct numbers have distinct decimal texts. */
  lemma {:induction false} NatToStringInjective(n: nat, m: nat)
    ensures NatToString(n) == NatToString(m) ==> n == m
    decreases n
  {
    if NatToString(n) == NatToString(m) && n >= 10 && m >= 10 {
      var s := NatToString(n);
      {
        var pn := NatToString(n / 10);
        var pm := NatToString(m / 10);
        assert s == pn + [DigitChar(n % 10)];
        assert s == pm + [DigitChar(m % 10)];
        assert s[..|s| - 1] == pn && s[..|s| - 1] == pm;
        assert DigitChar(n % 10) == s[|s| - 1] == DigitChar(m % 10);
        NatToStringInjective(n / 10, m / 10);
      }
    }
  }

  const PlayerPrefix: string := "player_"
  const AiPrefix: string := "ai_"

  /** The `i`-th card initializeDecks pushes for a side. */
  function SideCard(isPlayer: bool, i: nat): Card {
    if isPlayer then
      Card(PlayerPrefix + NatToString(i), NormalX, Human, "X Normal", "Uma marca X básica")
    else
      Card(AiPrefix + NatToString(i), NormalO, Ai, "O Normal", "Uma marca O básica")
  }

  /** The cards a side's draw pile receives, in push order. */
  function SideCards(cfg: Config, isPlayer: bool): (r: seq<Card>)
    ensures |r| == cfg.deckSize
  {
    seq(cfg.deckSize, i requires 0 <= i => SideCard(isPlayer, i))
  }

  /** Card ids are distinct: within a side, and between the two sides. */
  lemma SideCardIdsDistinct(p: bool, i: nat, q: bool, j: nat)
    ensures SideCard(p, i).id == SideCard(q, j).id ==> p == q && i == j
  {
    var si, sj := SideCard(p, i).id, SideCard(q, j).id;
    if p != q {
      assert si[0] != sj[0];
    } else if si == sj {
      var pre := if p then PlayerPrefix else AiPrefix;
      assert si == pre + NatToString(i) && sj == pre + NatToString(j);
      assert si[|pre|..] == NatToString(i);
      assert sj[|pre|..] == NatToString(j);
      NatToStringInjective(i, j);
    }
  }

  /** Every card of a side's initial deck has that side's type and owner. */
  lemma SideCardsBelongToSide(cfg: Config, isPlayer: bool, c: Card)
    requires c in SideCards(cfg, isPlayer)
    ensures c.cardType == (if isPlayer then NormalX else NormalO)
    ensures c.playerType == (if isPlayer then Human else Ai)
  {
    var k :| 0 <= k < cfg.deckSize && SideCards(cfg, isPlayer)[k] == c;
  }

  /** The pushed cards of one side are pairwise different. */
  lemma SideCardsDistinct(cfg: Config, isPlayer: bool, i: nat, j: nat)
    requires i < j < cfg.deckSize
    ensures SideCards(cfg, isPlayer)[i].id != SideCards(cfg, isPlayer)[j].id
  {
    SideCardIdsDistinct(isPlayer, i, isPlayer, j);
  }

  // ---------------------------------------------------------------------
  // Shuffling
  // ---------------------------------------------------------------------

  function Swap<T>(s: seq<T>, i: nat, j: nat): (r: seq<T>)
    requires i < |s| && j < |s|
    ensures |r| == |s| && multiset(r) == multiset(s)
  {
    s[i := s[j]][j := s[i]]
  }

  /** The Fisher-Yates loop from position `i` down to 1; `rand(i)` is the
      Math.random() value drawn at position `i`. */
  function ShuffleFrom<T>(s: seq<T>, i: nat, rand: nat -> Draw): (r: seq<T>)
    requires i < |s|
    ensures |r| == |s| && multiset(r) == multiset(s)
    decreases i
  {
    if i == 0 then s
    else ShuffleFrom(Swap(s, i, RandomIndex(rand(i), i + 1)), i - 1, rand)
  }

  /** shuffleDeck's reordering of a pile: a permutation, whatever the draws. */
  function Shuffle<T>(s: seq<T>, rand: nat -> Draw): (r: seq<T>)
    ensures |r| == |s| && multiset(r) == multiset(s)
  {
    if |s| == 0 then s else ShuffleFrom(s, |s| - 1, rand)
  }

  /** shuffleDeck(deck): reorders the draw pile only. */
  function ShuffleDeck(d: DeckState, rand: nat -> Draw): (r: DeckState)
    ensures multiset(r.cards) == multiset(d.cards) && |r.cards| == |d.cards|
    ensures r.discardPile == d.discardPile
  {
    d.(cards := Shuffle(d.cards, rand))
  }


  // ---------------------------------------------------------------------
  // Construction and reset
  // ---------------------------------------------------------------------

  /** A system as the constructor and reset leave it: each draw pile a
      permutation of its side's cards, nothing discarded, empty hands. */
  predicate IsFresh(cs: CardSystem, cfg: Config) {
    WellFormed(cs, cfg)
    && (forall side: bool ::
          multiset(cs.SideOf(side).deck.cards) == multiset(SideCards(cfg, side))
          && cs.SideOf(side).deck.discardPile == [] && cs.SideOf(side).hand.cards == [])
  }

  /** initializeDecks: pushes each side's cards, then shuffles both piles. */
  function InitializeDecks(cs: CardSystem, cfg: Config,
                           randPlayer: nat -> Draw, randAi: nat -> Draw): (r: CardSystem)
    ensures forall side: bool :: multiset(r.SideOf(side).deck.cards)
              == multiset(cs.SideOf(side).deck.cards) + multiset(SideCards(cfg, side))
    ensures forall side: bool :: r.SideOf(side).hand == cs.SideOf(side).hand
              && r.SideOf(side).deck.discardPile == cs.SideOf(side).deck.discardPile
  {
    var p := cs.playerDeck.(cards := cs.playerDeck.cards + SideCards(cfg, true));
    var a := cs.aiDeck.(cards := cs.aiDeck.cards + SideCards(cfg, false));
    cs.(playerDeck := ShuffleDeck(p, randPlayer), aiDeck := ShuffleDeck(a, randAi))
  }

  /** The constructor; `randPlayer` and `randAi` are the draws of the two
      shuffles. */
  function NewCardSystem(cfg: Config, randPlayer: nat -> Draw, randAi: nat -> Draw)
    : (r: CardSystem)
    ensures IsFresh(r, cfg)
    ensures forall side: bool :: |r.SideOf(side).deck.cards| == cfg.deckSize
  {
    var empty := CardSystem(DeckState([], []), DeckState([], []),
                            HandState([], cfg.maxHandSize), HandState([], cfg.maxHandSize));
    InitializeDecks(empty, cfg, randPlayer, randAi)
  }

  /** reset(): whatever the system held, it is rebuilt as new. */
  function Reset(cs: CardSystem, cfg: Config, randPlayer: nat -> Draw, randAi: nat -> Draw)
    : (r: CardSystem)
    ensures IsFresh(r, cfg)
    ensures forall side: bool :: |r.SideOf(side).deck.cards| == cfg.deckSize
  {
    NewCardSystem(cfg, randPlayer, randAi)
  }

  // ---------------------------------------------------------------------
  // One side's operations
  // ---------------------------------------------------------------------

  /** reshuffleDeck: the discard pile, shuffled, replaces the draw pile. */
  function ReshuffleSide(s: Side, rand: nat -> Draw): (r: Side)
    ensures multiset(r.deck.cards) == multiset(s.deck.discardPile)
    ensures |r.deck.cards| == |s.deck.discardPile|
    ensures r.deck.discardPile == [] && r.hand == s.hand
    ensures r.Pool() + multiset(s.deck.cards) == s.Pool()
  {
    s.(deck := ShuffleDeck(DeckState(s.deck.discardPile, []), rand))
  }

  /** The pop-and-push at the heart of drawCard: the last card of a
      non-empty draw pile moves to the end of the hand. */
  function PopToHand(s: Side): (r: (Side, Card))
    requires |s.deck.cards| > 0
    ensures r.1 == s.deck.cards[|s.deck.cards| - 1]
    ensures r.0.deck == s.deck.(cards := s.deck.cards[..|s.deck.cards| - 1])
    ensures r.0.hand == s.hand.(cards := s.hand.cards + [r.1])
    ensures multiset(r.0.deck.cards) + multiset{r.1} == multiset(s.deck.cards)
    ensures r.0.Pool() == s.Pool()
  {
    var pile := s.deck.cards;
    var card := pile[|pile| - 1];
    assert pile == pile[..|pile| - 1] + [card];
    (Side(s.deck.(cards := pile[..|pile| - 1]), s.hand.(cards := s.hand.cards + [card])), card)
  }

  /** drawCard: refuses on a full hand; otherwise reshuffles an empty draw
      pile and moves the last card of the draw pile to the end of the hand. */
  function DrawFromSide(s: Side, rand: nat -> Draw): (r: (Side, Option<Card>))
    ensures r.1.Some? <==> s.Room() > 0 && s.Available() > 0
    ensures r.1.None? ==> r.0 == s
    ensures r.1.Some? && |s.deck.cards| > 0 ==>
              r.1.value == s.deck.cards[|s.deck.cards| - 1]
              && r.0.deck == s.deck.(cards := s.deck.cards[..|s.deck.cards| - 1])
    ensures r.1.Some? && |s.deck.cards| == 0 ==>
              r.0.deck.discardPile == []
              && multiset(r.0.deck.cards) + multiset{r.1.value} == multiset(s.deck.discardPile)
    ensures r.1.Some? ==> r.0.hand.cards == s.hand.cards + [r.1.value]
    ensures r.0.hand.maxHandSize == s.hand.maxHandSize
  {
    if |s.hand.cards| >= s.hand.maxHandSize then (s, None)
    else if |s.deck.cards| > 0 then
      var (s1, card) := PopToHand(s);
      (s1, Some(card))
    else if |s.deck.discardPile| == 0 then
      assert ReshuffleSide(s, rand) == s;
      (s, None)
    else
      var s1 := ReshuffleSide(s, rand);
      assert |s1.deck.cards| == |s.deck.discardPile|;
      var (s2, card) := PopToHand(s1);
      (s2, Some(card))
  }

  /** A draw moves one card within the side: nothing is lost or gained. */
  lemma DrawFromSideKeepsCards(s: Side, rand: nat -> Draw)
    ensures DrawFromSide(s, rand).0.Pool() == s.Pool()
  {
    var (r, c) := DrawFromSide(s, rand);
    if c.Some? {
      if |s.deck.cards| > 0 {
        assert r == PopToHand(s).0;
      } else {
        assert r == PopToHand(ReshuffleSide(s, rand)).0;
      }
    }
  }

  /** A successful draw takes one card of room and one available card. */
  lemma DrawFromSideCounts(s: Side, rand: nat -> Draw)
    ensures var (r, c) := DrawFromSide(s, rand);
            c.Some? ==> r.Available() == s.Available() - 1 && r.Room() == s.Room() - 1
  {
    var (r, c) := DrawFromSide(s, rand);
    if c.Some? {
      if |s.deck.cards| > 0 {
        assert r == PopToHand(s).0;
      } else {
        assert r == PopToHand(ReshuffleSide(s, rand)).0;
      }
    }
  }

  /** The drawCard call repeated `n` times, collecting the cards it returns. */
  function DrawRepeatedly(s: Side, n: nat, rand: nat -> Draw): (r: (Side, seq<Card>))
    decreases n
  {
    if n == 0 then (s, [])
    else
      var (s1, c) := DrawFromSide(s, rand);
      var (s2, rest) := DrawRepeatedly(s1, n - 1, rand);
      (s2, (if c.Some? then [c.value] else []) + rest)
  }

  /** A sequence of draws keeps every card of the side, and an empty
      discard pile stays empty. */
  lemma {:induction false} DrawRepeatedlyKeepsCards(s: Side, n: nat, rand: nat -> Draw)
    ensures var r := DrawRepeatedly(s, n, rand).0;
            r.Pool() == s.Pool() && r.hand.maxHandSize == s.hand.maxHandSize
            && (s.deck.discardPile == [] ==> r.deck.discardPile == [])
    decreases n
  {
    if n > 0 {
      var (s1, c) := DrawFromSide(s, rand);
      DrawFromSideKeepsCards(s, rand);
      DrawRepeatedlyKeepsCards(s1, n - 1, rand);
    }
  }

  /** `n` draws take as many cards as the count, the hand's room and the
      side's cards all allow, and append them to the hand in draw order. */
  lemma {:induction false} DrawRepeatedlyTakes(s: Side, n: nat, rand: nat -> Draw)
    ensures var (r, drawn) := DrawRepeatedly(s, n, rand);
            r.hand.cards == s.hand.cards + drawn
            && |drawn| == Min(n, Min(s.Room(), s.Available()))
            && r.Available() == s.Available() - |drawn|
    decreases n
  {
    if n > 0 {
      var (s1, c) := DrawFromSide(s, rand);
      DrawFromSideCounts(s, rand);
      DrawRepeatedlyTakes(s1, n - 1, rand);
      var (s2, rest) := DrawRepeatedly(s1, n - 1, rand);
      if c.Some? {
        AppendAssoc(s.hand.cards, [c.value], rest);
      } else {
        assert |rest| == 0;
      }
    }
  }

  lemma AppendAssoc<T>(a: seq<T>, b: seq<T>, c: seq<T>)
    ensures (a + b) + c == a + (b + c)
  {
  }

  /** findIndex by id: the position of the first card with that id. */
  function FindCard(cards: seq<Card>, id: string): (r: Option<nat>)
    ensures r.None? <==> forall k :: 0 <= k < |cards| ==> cards[k].id != id
    ensures r.Some? ==> r.value < |cards| && cards[r.value].id == id
                        && forall k :: 0 <= k < r.value ==> cards[k].id != id
    decreases |cards|
  {
    if |cards| == 0 then None
    else if cards[0].id == id then Some(0)
    else match FindCard(cards[1..], id)
      case None => None
      case Some(k) => Some(k + 1)
  }

  /** playCard: removes and returns the first hand card with the given id,
      the rest of the hand keeping its order; the piles are not touched. */
  function PlayFromSide(s: Side, cardId: string): (r: (Side, Option<Card>))
    ensures r.1.None? <==> forall c :: c in s.hand.cards ==> c.id != cardId
    ensures r.1.None? ==> r.0 == s
    ensures r.1.Some? ==>
              exists k :: 0 <= k < |s.hand.cards| && s.hand.cards[k] == r.1.value
                          && (forall j :: 0 <= j < k ==> s.hand.cards[j].id != cardId)
                          && r.0.hand.cards == s.hand.cards[..k] + s.hand.cards[k + 1..]
    ensures r.1.Some? ==>
              r.1.value.id == cardId
              && multiset(r.0.hand.cards) + multiset{r.1.value} == multiset(s.hand.cards)
    ensures r.0.deck == s.deck && r.0.hand.maxHandSize == s.hand.maxHandSize
  {
    match FindCard(s.hand.cards, cardId)
    case None => (s, None)
    case Some(k) =>
      var h := s.hand.cards;
      assert h == h[..k] + [h[k]] + h[k + 1..];
      (s.(hand := s.hand.(cards := h[..k] + h[k + 1..])), Some(h[k]))
  }

  /** discardCard: appends the card to the discard pile only. */
  function DiscardToSide(s: Side, card: Card): (r: Side)
    ensures r.deck.discardPile == s.deck.discardPile + [card]
    ensures r.deck.cards == s.deck.cards && r.hand == s.hand
    ensures r.Pool() == s.Pool() + multiset{card}
  {
    s.(deck := s.deck.(discardPile := s.deck.discardPile + [card]))
  }

  /** Playing a card and discarding it moves it from the hand to the
      discard pile: the side keeps every card. */
  lemma PlayThenDiscardKeepsPool(s: Side, cardId: string)
    ensures var (s1, c) := PlayFromSide(s, cardId);
            c.Some? ==> DiscardToSide(s1, c.value).Pool() == s.Pool()
  {
    var (s1, c) := PlayFromSide(s, cardId);
    if c.Some? {
      assert s1.Pool() + multiset{c.value} == s.Pool();
    }
  }

  /** The `while (hand < MAX_HAND_SIZE) drawCard` loop. It only ends when
      the side has enough cards, which the precondition demands. */
  function FillHand(s: Side, max: nat, rand: nat -> Draw): (r: (Side, seq<Card>))
    requires s.hand.maxHandSize == max
    requires |s.hand.cards| + s.Available() >= max
    ensures r.0.hand.cards == s.hand.cards + r.1
    ensures |r.0.hand.cards| == Max(|s.hand.cards|, max)
    ensures r.0.hand.maxHandSize == max
    ensures r.0.Pool() == s.Pool()
    ensures s.deck.discardPile == [] ==> r.0.deck.discardPile == []
    decreases max - |s.hand.cards|
  {
    if |s.hand.cards| >= max then (s, [])
    else
      var (s1, c) := DrawFromSide(s, rand);
      DrawFromSideKeepsCards(s, rand);
      DrawFromSideCounts(s, rand);
      var (s2, rest) := FillHand(s1, max, rand);
      AppendAssoc(s.hand.cards, [c.value], rest);
      (s2, (if c.Some? then [c.value] else []) + rest)
  }

  /** refillHandAfterScore as written: with at most one card in hand, the
      discard pile replaces the draw pile and the hand is drawn up to the
      maximum. Termination needs enough cards in hand and discard pile. */
  function RefillSide(s: Side, max: nat, rand: nat -> Draw): (r: (Side, seq<Card>))
    requires s.hand.maxHandSize == max
    requires |s.hand.cards| <= 1 ==> |s.hand.cards| + |s.deck.discardPile| >= max
    ensures |s.hand.cards| > 1 ==> r == (s, [])
    ensures |s.hand.cards| <= 1 ==>
              r.0.hand.cards == s.hand.cards + r.1
              && |r.0.hand.cards| == Max(|s.hand.cards|, max)
              && r.0.deck.discardPile == []
              && r.0.Pool() + multiset(s.deck.cards) == s.Pool()
    ensures r.0.hand.maxHandSize == max
  {
    if |s.hand.cards| > 1 then (s, [])
    else
      FillHand(ReshuffleSide(s, rand), max, rand)
  }

  /** The overwrite in reshuffleDeck loses cards: whenever the refill runs
      with a non-empty draw pile, the side ends with fewer cards. */
  lemma RefillDropsDrawPile(s: Side, max: nat, rand: nat -> Draw)
    requires s.hand.maxHandSize == max
    requires |s.hand.cards| <= 1 && |s.hand.cards| + |s.deck.discardPile| >= max
    requires |s.deck.cards| > 0
    ensures var r := RefillSide(s, max, rand).0;
            |r.Pool()| == |s.Pool()| - |s.deck.cards| && r.Pool() != s.Pool()
  {
    var r := RefillSide(s, max, rand).0;
    assert |r.Pool() + multiset(s.deck.cards)| == |s.Pool()|;
  }

  /** Without enough cards the refill loop never exits: after the
      reshuffle, any number of passes through its body leaves the hand short
      of the maximum, so the loop condition stays true. */
  lemma RefillLoopNeverExits(s: Side, max: nat, rand: nat -> Draw, passes: nat)
    requires |s.hand.cards| + |s.deck.discardPile| < max
    ensures |DrawRepeatedly(ReshuffleSide(s, rand), passes, rand).0.hand.cards| < max
  {
    DrawRepeatedlyTakes(ReshuffleSide(s, rand), passes, rand);
  }

  /** The refill as intended: the discard pile is shuffled together with
      the remaining draw pile, and the hand is drawn up to the maximum or
      until the side runs out of cards. */
  function RefillSideKeepingPile(s: Side, max: nat, rand: nat -> Draw): (r: (Side, seq<Card>))
    requires s.hand.maxHandSize == max
    ensures |s.hand.cards| > 1 ==> r == (s, [])
    ensures |s.hand.cards| <= 1 ==>
              r.0.hand.cards == s.hand.cards + r.1
              && |r.0.hand.cards| == Min(Max(|s.hand.cards|, max), |s.hand.cards| + s.Available())
              && r.0.deck.discardPile == []
    ensures r.0.Pool() == s.Pool()
    ensures r.0.hand.maxHandSize == max
  {
    if |s.hand.cards| > 1 then (s, [])
    else
      var s1 := ReshuffleKeepingPile(s, rand);
      var need := if |s.hand.cards| < max then max - |s.hand.cards| else 0;
      DrawRepeatedlyTakes(s1, need, rand);
      DrawRepeatedlyKeepsCards(s1, need, rand);
      DrawRepeatedly(s1, need, rand)
  }

  /** The intended reshuffle: draw pile and discard pile shuffled together. */
  function ReshuffleKeepingPile(s: Side, rand: nat -> Draw): (r: Side)
    ensures r.hand == s.hand && r.deck.discardPile == []
    ensures r.Pool() == s.Pool() && r.Available() == s.Available()
  {
    s.(deck := DeckState(Shuffle(s.deck.cards + s.deck.discardPile, rand), []))
  }

  // ---------------------------------------------------------------------
  // The system's operations: each acts on the side the flag selects
  // ---------------------------------------------------------------------

  /** The other side is untouched and the capacities are kept. */
  predicate OnlySideChanged(before: CardSystem, after: CardSystem, isPlayer: bool) {
    after.SideOf(!isPlayer) == before.SideOf(!isPlayer)
    && after.SideOf(isPlayer).hand.maxHandSize == before.SideOf(isPlayer).hand.maxHandSize
  }

  function ReshuffleDeck(cs: CardSystem, isPlayer: bool, rand: nat -> Draw): (r: CardSystem)
    ensures OnlySideChanged(cs, r, isPlayer)
    ensures r.SideOf(isPlayer) == ReshuffleSide(cs.SideOf(isPlayer), rand)
  {
    cs.WithSide(isPlayer, ReshuffleSide(cs.SideOf(isPlayer), rand))
  }

  function DrawCard(cs: CardSystem, isPlayer: bool, rand: nat -> Draw)
    : (r: (CardSystem, Option<Card>))
    ensures OnlySideChanged(cs, r.0, isPlayer)
    ensures (r.0.SideOf(isPlayer), r.1) == DrawFromSide(cs.SideOf(isPlayer), rand)
  {
    var (s, c) := DrawFromSide(cs.SideOf(isPlayer), rand);
    (cs.WithSide(isPlayer, s), c)
  }

  /** drawInitialHand: `MAX_HAND_SIZE` draws, the cards drawn in order. */
  function DrawInitialHand(cs: CardSystem, cfg: Config, isPlayer: bool, rand: nat -> Draw)
    : (r: (CardSystem, seq<Card>))
    ensures OnlySideChanged(cs, r.0, isPlayer)
    ensures r.0.SideOf(isPlayer).hand.cards == cs.SideOf(isPlayer).hand.cards + r.1
    ensures |r.1| == Min(cfg.maxHandSize,
                         Min(cs.SideOf(isPlayer).Room(), cs.SideOf(isPlayer).Available()))
    ensures r.0.SideOf(isPlayer).Pool() == cs.SideOf(isPlayer).Pool()
  {
    var (s, drawn) := DrawRepeatedly(cs.SideOf(isPlayer), cfg.maxHandSize, rand);
    DrawRepeatedlyTakes(cs.SideOf(isPlayer), cfg.maxHandSize, rand);
    DrawRepeatedlyKeepsCards(cs.SideOf(isPlayer), cfg.maxHandSize, rand);
    (cs.WithSide(isPlayer, s), drawn)
  }

  /** From a fresh system with the intended sizes, the opening hand holds
      three of the side's own cards and nine remain in the draw pile. */
  lemma InitialHandOfFreshSystem(cs: CardSystem, isPlayer: bool, rand: nat -> Draw)
    requires IsFresh(cs, Intended)
    ensures var (r, drawn) := DrawInitialHand(cs, Intended, isPlayer, rand);
            |drawn| == 3 && r.SideOf(isPlayer).hand.cards == drawn
            && |r.SideOf(isPlayer).deck.cards| == 9
            && multiset(drawn) <= multiset(SideCards(Intended, isPlayer))
  {
    var s := cs.SideOf(isPlayer);
    assert |s.deck.cards| == 12 by {
      assert |multiset(s.deck.cards)| == |multiset(SideCards(Intended, isPlayer))|;
    }
    DrawRepeatedlyTakes(s, 3, rand);
    DrawRepeatedlyKeepsCards(s, 3, rand);
    var (s2, drawn) := DrawRepeatedly(s, 3, rand);
    assert multiset(drawn) <= s2.Pool();
    assert DrawInitialHand(cs, Intended, isPlayer, rand) == (cs.WithSide(isPlayer, s2), drawn);
  }

  function PlayCard(cs: CardSystem, cardId: string, isPlayer: bool)
    : (r: (CardSystem, Option<Card>))
    ensures OnlySideChanged(cs, r.0, isPlayer)
    ensures (r.0.SideOf(isPlayer), r.1) == PlayFromSide(cs.SideOf(isPlayer), cardId)
  {
    var (s, c) := PlayFromSide(cs.SideOf(isPlayer), cardId);
    (cs.WithSide(isPlayer, s), c)
  }

  function DiscardCard(cs: CardSystem, card: Card, isPlayer: bool): (r: CardSystem)
    ensures OnlySideChanged(cs, r, isPlayer)
    ensures r.SideOf(isPlayer) == DiscardToSide(cs.SideOf(isPlayer), card)
  {
    cs.WithSide(isPlayer, DiscardToSide(cs.SideOf(isPlayer), card))
  }

  function RefillHandAfterScore(cs: CardSystem, cfg: Config, isPlayer: bool, rand: nat -> Draw)
    : (r: (CardSystem, seq<Card>))
    requires WellFormed(cs, cfg)
    requires |cs.SideOf(isPlayer).hand.cards| <= 1 ==>
               |cs.SideOf(isPlayer).hand.cards| + |cs.SideOf(isPlayer).deck.discardPile|
               >= cfg.maxHandSize
    ensures OnlySideChanged(cs, r.0, isPlayer) && WellFormed(r.0, cfg)
    ensures (r.0.SideOf(isPlayer), r.1) == RefillSide(cs.SideOf(isPlayer), cfg.maxHandSize, rand)
  {
    var (s, drawn) := RefillSide(cs.SideOf(isPlayer), cfg.maxHandSize, rand);
    (cs.WithSide(isPlayer, s), drawn)
  }

  function RefillHandKeepingPile(cs: CardSystem, cfg: Config, isPlayer: bool, rand: nat -> Draw)
    : (r: (CardSystem, seq<Card>))
    requires WellFormed(cs, cfg)
    ensures OnlySideChanged(cs, r.0, isPlayer) && WellFormed(r.0, cfg)
    ensures (r.0.SideOf(isPlayer), r.1)
            == RefillSideKeepingPile(cs.SideOf(isPlayer), cfg.maxHandSize, rand)
  {
    var (s, drawn) := RefillSideKeepingPile(cs.SideOf(isPlayer), cfg.maxHandSize, rand);
    (cs.WithSide(isPlayer, s), drawn)
  }
}
