/** The level generator and the occlusion check (js/utils/level.js).
    `Math.random` is a stream `rand` of draws in [0, 1): the k-th call reads
    `rand(k)`, and every method that draws takes the index of its first draw
    and returns the index of the next unused one. */
module Level {

  import opened Seqs
  import opened Cards
  import opened SymbolPools

  /** The symbol list holds 12 emojis; a symbol is an index into it. */
  const SymbolCount: nat := 12
  /** The default card box of the occlusion check. */
  const DefaultCardW: real := 90.0
  const DefaultCardH: real := 110.0
  /** Both boxes are shrunk by this much on their trailing edges. */
  const CoverTolerance: real := 5.0

  ghost predicate IsRandomStream(rand: nat -> real) {
    forall k: nat :: 0.0 <= rand(k) < 1.0
  }

  /** `Math.floor(r * m)` for a draw `r` in [0, 1): an index below `m`. */
  function RandomIndex(r: real, m: nat): (j: nat)
    requires 0.0 <= r < 1.0 && m > 0
    ensures j < m
  {
    assert 0.0 <= r * m as real < m as real by { ScaleBelow(r, m as real); }
    (r * m as real).Floor
  }

  lemma ScaleBelow(r: real, m: real)
    requires 0.0 <= r < 1.0 && m > 0.0
    ensures 0.0 <= r * m < m
  {
  }

  // ---------------------------------------------------------------------
  // Sizes of a level

  /** The card count of a scaled level (level 2 and beyond), rounded down to a
      multiple of 3 with `Math.floor(n / 3) * 3`. */
  function CardCount(level: int): (n: int)
    ensures n % 3 == 0
    ensures level == 2 ==> n == 66
    ensures n <= 150
    ensures n > 0 ==> level >= 0
  {
    var raw := if level == 2 then 66 else Min(150, 60 + (level - 2) * 21);
    raw / 3 * 3
  }

  /** The number of distinct symbols of a scaled level. */
  function TypeCount(level: int): (n: nat)
    ensures n > 0 && n <= SymbolCount
  {
    if level == 2 then 8 else 12
  }

  /** The number of layers of a scaled level: `Math.min(15, 6 + level * 2)`. */
  function MaxLayers(level: int): int {
    Min(15, 6 + level * 2)
  }

  /** How many cards `generateLevel(level)` returns. */
  function LevelSize(level: int): nat {
    if level == 1 then 18 else if CardCount(level) < 0 then 0 else CardCount(level)
  }

  /** Beyond level 2, every level adds 21 cards (7 triples) until the cap of
      150 is reached at level 7. */
  lemma {:induction false} CardCountGrowth(level: int)
    requires level >= 3
    ensures level <= 6 ==> CardCount(level) == 60 + (level - 2) * 21
    ensures level >= 7 ==> CardCount(level) == 150
    ensures level >= 4 ==> CardCount(level) == Min(150, CardCount(level - 1) + 21)
  {
    var k := level - 2;
    assert (60 + k * 21) % 3 == 0 by { assert 60 + k * 21 == 3 * (20 + 7 * k); }
    assert (60 + k * 21) / 3 * 3 == 60 + k * 21 by { assert 60 + k * 21 == 3 * (20 + 7 * k); }
    if level >= 7 {
      assert 60 + k * 21 >= 150;
    }
    if level == 3 {
    } else if level <= 7 {
      var k' := level - 3;
      assert 60 + k' * 21 == 3 * (20 + 7 * k');
      assert CardCount(level - 1) == 60 + k' * 21;
    } else {
      var k' := level - 3;
      assert 60 + k' * 21 >= 150;
      assert CardCount(level - 1) == 150;
    }
  }

  // ---------------------------------------------------------------------
  // Occlusion

  /** Only cards on the board or on the stage take part in occlusion. */
  predicate Eligible(s: CardState) {
    s == OnBoard || s == Staged
  }

  /** The rectangle test of the occlusion check, on boxes shrunk by
      `CoverTolerance` on their trailing edges. */
  predicate Overlaps(aX: real, aY: real, bX: real, bY: real, w: real, h: real) {
    aX < bX + w - CoverTolerance && aX + w - CoverTolerance > bX &&
    aY < bY + h - CoverTolerance && aY + h - CoverTolerance > bY
  }

  /** Whether card `a` is covered in `cards`: it is on the board or the stage
      and some card on the board or the stage lies on a strictly higher layer
      and overlaps it. */
  predicate Covered(cards: seq<Card>, a: Card, w: real, h: real)
    reads cards`state, cards`x, cards`y, a`state, a`x, a`y
  {
    Eligible(a.state) &&
    exists j :: 0 <= j < |cards| && Eligible(cards[j].state) && cards[j].layer > a.layer &&
                Overlaps(a.x, a.y, cards[j].x, cards[j].y, w, h)
  }

  /** The source skips the card's own index (`i === j`); a card never covers
      itself because its layer is not above its own, so `Covered` is the same
      as the test over the other indices. */
  lemma CoveredByOther(cards: seq<Card>, i: nat, w: real, h: real)
    requires i < |cards|
    ensures Covered(cards, cards[i], w, h) <==>
            Eligible(cards[i].state) &&
            exists j :: 0 <= j < |cards| && j != i && Eligible(cards[j].state) &&
                        cards[j].layer > cards[i].layer &&
                        Overlaps(cards[i].x, cards[i].y, cards[j].x, cards[j].y, w, h)
  {
  }

  /** A card on the board or stage with an eligible card on a higher layer at
      the same position is covered (for any box larger than the tolerance). */
  lemma CoveredBySameSpot(cards: seq<Card>, a: Card, j: nat, w: real, h: real)
    requires j < |cards| && Eligible(a.state) && Eligible(cards[j].state)
    requires cards[j].layer > a.layer && cards[j].x == a.x && cards[j].y == a.y
    requires w > CoverTolerance && h > CoverTolerance
    ensures Covered(cards, a, w, h)
  {
  }

  /** `updateCoverState`: recomputes `isCovered` for every card and changes
      nothing else; it returns the array it was given. Because the flags it
      computes depend only on fields it does not write, running it twice
      gives the same flags as running it once. */
  method UpdateCoverState(cards: seq<Card>, cardW: real, cardH: real) returns (r: seq<Card>)
    modifies cards`isCovered
    ensures r == cards
    ensures forall i {:trigger cards[i].isCovered} :: 0 <= i < |cards| ==>
              cards[i].isCovered == Covered(cards, cards[i], cardW, cardH)
  {
    for i := 0 to |cards|
      invariant forall k {:trigger cards[k].isCovered} :: 0 <= k < i ==>
                  cards[k].isCovered == Covered(cards, cards[k], cardW, cardH)
    {
      var cardA := cards[i];
      if cardA.state != OnBoard && cardA.state != Staged {
        cardA.isCovered := false;
        continue;
      }
      var isCovered := false;
      for j := 0 to |cards|
        invariant isCovered ==> Covered(cards, cardA, cardW, cardH)
        invariant !isCovered ==> forall k :: (0 <= k < j && Eligible(cards[k].state) &&
                    cards[k].layer > cardA.layer) ==>
                    !Overlaps(cardA.x, cardA.y, cards[k].x, cards[k].y, cardW, cardH)
      {
        var cardB := cards[j];
        if i == j || (cardB.state != OnBoard && cardB.state != Staged) {
          continue;
        }
        if cardB.layer > cardA.layer {
          if Overlaps(cardA.x, cardA.y, cardB.x, cardB.y, cardW, cardH) {
            isCovered := true;
            break;
          }
        }
      }
      cardA.isCovered := isCovered;
    }
    return cards;
  }

  /** Idempotence of the occlusion check: when every flag is already what
      the check computes, running it once more changes no flag. */
  method UpdateCoverStateAgain(cards: seq<Card>, cardW: real, cardH: real)
    requires forall i {:trigger cards[i].isCovered} :: 0 <= i < |cards| ==>
               cards[i].isCovered == Covered(cards, cards[i], cardW, cardH)
    modifies cards`isCovered
    ensures forall i {:trigger cards[i].isCovered} :: 0 <= i < |cards| ==>
              cards[i].isCovered == old(cards[i].isCovered)
  {
    var _ := UpdateCoverState(cards, cardW, cardH);
  }

  // ---------------------------------------------------------------------
  // Shuffling

  /** The number of draws a Fisher-Yates shuffle of `n` elements makes. */
  function ShuffleDraws(n: nat): nat {
    if n == 0 then 0 else n - 1
  }

  /** `shuffle`: an in-place Fisher-Yates shuffle; the result is a
      permutation of the input. */
  method Shuffle<T>(a: array<T>, rand: nat -> real, next: nat) returns (next': nat)
    requires IsRandomStream(rand)
    modifies a
    ensures multiset(a[..]) == old(multiset(a[..]))
    ensures next' == next + ShuffleDraws(a.Length)
  {
    var i := a.Length - 1;
    next' := next;
    while i > 0
      invariant -1 <= i < a.Length
      invariant a.Length > 0 ==> i >= 0
      invariant multiset(a[..]) == old(multiset(a[..]))
      invariant next' == next + (a.Length - 1 - i)
    {
      var j := RandomIndex(rand(next'), i + 1);
      a[i], a[j] := a[j], a[i];
      next' := next' + 1;
      i := i - 1;
    }
  }

  // ---------------------------------------------------------------------
  // The generator

  /** Where the generator puts a card before any scaling: a position in
      design pixels and a layer. */
  datatype Spot = Spot(x: real, y: real, layer: nat)

  /** Whether card `c` lies at spot `s`. */
  ghost predicate Placed(c: Card, s: Spot)
    reads c`x, c`y
  {
    c.x == s.x && c.y == s.y && c.layer == s.layer
  }

  /** The spot of tutorial card `i`: a 3x3 grid with gap 145 starting at
      (160, 240), replicated on layers 0 and 1, layer 0 shifted down by 12. */
  function TutorialSpot(i: nat): (s: Spot)
    ensures s.layer == i / 9
    ensures 160.0 <= s.x <= 450.0 && 240.0 <= s.y <= 542.0
  {
    var cell := i % 9;
    Spot(160.0 + (cell % 3) as real * 145.0,
         240.0 + (cell / 3) as real * 145.0 + (if i / 9 == 0 then 12.0 else 0.0),
         i / 9)
  }

  ghost predicate TutorialPlaced(c: Card, i: nat)
    reads c`x, c`y
  {
    Placed(c, TutorialSpot(i))
  }

  /** The spot of a scaled-level card whose five draws start at `k`: a grid
      column and a grid row of a 6x6 grid from (100, 180) with steps 90 and
      80, a jitter in [-20, 20) on each axis, and a layer below
      `MaxLayers(level)`, drawn in that order. */
  ghost function ScaledSpot(level: int, rand: nat -> real, k: nat): (s: Spot)
    requires IsRandomStream(rand) && MaxLayers(level) > 0
    ensures s.layer < MaxLayers(level)
    ensures 80.0 <= s.x < 570.0 && 160.0 <= s.y < 600.0
  {
    var gridX := RandomIndex(rand(k), 6);
    var gridY := RandomIndex(rand(k + 1), 6);
    Spot((750.0 - 550.0) / 2.0 + gridX as real * 90.0 + (rand(k + 2) - 0.5) * 40.0,
         180.0 + gridY as real * 80.0 + (rand(k + 3) - 0.5) * 40.0,
         RandomIndex(rand(k + 4), MaxLayers(level)))
  }

  /** The placement bounds of a scaled-level card. */
  ghost predicate ScaledPlaced(c: Card, level: int)
    reads c`x, c`y
  {
    0 <= c.layer < MaxLayers(level) &&
    80.0 <= c.x < 570.0 && 160.0 <= c.y < 600.0
  }

  /** The spot `generateLevel(level)` gives card `i` when its first draw is
      `rand(next)`: the tutorial grid for level 1; otherwise the placement
      draws follow the pool shuffle's draws, five per card. */
  ghost function DealtSpot(level: int, rand: nat -> real, next: nat, i: nat): Spot
    requires IsRandomStream(rand) && i < LevelSize(level)
  {
    if level == 1 then TutorialSpot(i)
    else ScaledSpot(level, rand, next + ShuffleDraws(LevelSize(level)) + 5 * i)
  }

  /** Whether dealt card `i` is covered in the dealt level, on the
      generator's box: some card on a strictly higher layer overlaps it. */
  ghost predicate DealtCovered(level: int, rand: nat -> real, next: nat, i: nat)
    requires IsRandomStream(rand) && i < LevelSize(level)
  {
    var a := DealtSpot(level, rand, next, i);
    exists j :: 0 <= j < LevelSize(level) && DealtSpot(level, rand, next, j).layer > a.layer &&
                Overlaps(a.x, a.y, DealtSpot(level, rand, next, j).x, DealtSpot(level, rand, next, j).y,
                         DefaultCardW, DefaultCardH)
  }

  /** On a dealt board, where every card is on the board at its spot, the
      occlusion check computes exactly `DealtCovered`. */
  lemma DealtCover(cards: seq<Card>, level: int, rand: nat -> real, next: nat)
    requires IsRandomStream(rand) && |cards| == LevelSize(level)
    requires forall k :: 0 <= k < |cards| ==>
               Placed(cards[k], DealtSpot(level, rand, next, k)) && cards[k].state == OnBoard
    ensures forall i {:trigger cards[i]} :: 0 <= i < |cards| ==>
              (Covered(cards, cards[i], DefaultCardW, DefaultCardH) <==> DealtCovered(level, rand, next, i))
  {
    forall i | 0 <= i < |cards|
      ensures Covered(cards, cards[i], DefaultCardW, DefaultCardH) <==> DealtCovered(level, rand, next, i)
    {
      var a := DealtSpot(level, rand, next, i);
      assert Placed(cards[i], a);
      if Covered(cards, cards[i], DefaultCardW, DefaultCardH) {
        var j :| 0 <= j < |cards| && Eligible(cards[j].state) && cards[j].layer > cards[i].layer &&
                 Overlaps(cards[i].x, cards[i].y, cards[j].x, cards[j].y, DefaultCardW, DefaultCardH);
        assert Placed(cards[j], DealtSpot(level, rand, next, j));
      }
      if DealtCovered(level, rand, next, i) {
        var j :| 0 <= j < LevelSize(level) && DealtSpot(level, rand, next, j).layer > a.layer &&
                 Overlaps(a.x, a.y, DealtSpot(level, rand, next, j).x, DealtSpot(level, rand, next, j).y,
                          DefaultCardW, DefaultCardH);
        assert Placed(cards[j], DealtSpot(level, rand, next, j));
      }
    }
  }

  /** Every tutorial card on layer 0 is covered by the layer-1 card of its grid
      cell, and no layer-1 card is covered. */
  lemma TutorialCover(cards: seq<Card>)
    requires |cards| == 18
    requires forall i :: 0 <= i < 18 ==> TutorialPlaced(cards[i], i) && cards[i].state == OnBoard
    ensures forall i {:trigger Covered(cards, cards[i], DefaultCardW, DefaultCardH)} :: 0 <= i < 18 ==> (Covered(cards, cards[i], DefaultCardW, DefaultCardH) <==> i < 9)
  {
    forall i | 0 <= i < 18
      ensures Covered(cards, cards[i], DefaultCardW, DefaultCardH) <==> i < 9
    {
      if i < 9 {
        assert TutorialPlaced(cards[i + 9], i + 9);
        assert (i + 9) % 9 == i % 9;
        assert Overlaps(cards[i].x, cards[i].y, cards[i + 9].x, cards[i + 9].y,
                        DefaultCardW, DefaultCardH);
      } else {
        forall j | 0 <= j < 18 ensures cards[j].layer <= cards[i].layer {
          assert TutorialPlaced(cards[j], j);
        }
      }
    }
  }

  /** The tutorial's cover flags, once computed: exactly the bottom layer is
      covered. */
  lemma TutorialCoverFlags(cards: seq<Card>)
    requires |cards| == 18
    requires forall i :: 0 <= i < 18 ==> TutorialPlaced(cards[i], i) && cards[i].state == OnBoard
    requires forall i {:trigger cards[i].isCovered} :: 0 <= i < 18 ==>
               cards[i].isCovered == Covered(cards, cards[i], DefaultCardW, DefaultCardH)
    ensures forall i {:trigger cards[i].isCovered} :: 0 <= i < 18 ==> (cards[i].isCovered <==> i < 9)
  {
    TutorialCover(cards);
  }

  /** A card as `generateLevel` creates it: id `i`, symbol `symbol`, on the
      board, at rest. */
  ghost predicate NewCard(c: Card, i: nat, symbol: nat)
    reads c`symbol, c`state, c`anim, c`scale, c`rotation, c`alpha
  {
    c.Valid() && c.id == i && c.symbol == symbol && c.state == OnBoard &&
    c.anim == IdleAnimation && c.scale == 1.0 && c.rotation == 0.0 && c.alpha == 1.0
  }

  /** The tutorial pool: six pushes of each of the first three symbols. */
  method BuildTutorialPool() returns (pool: seq<nat>)
    ensures pool == TutorialPool(TutorialSymbols)
    ensures |pool| == 18
  {
    pool := [];
    for m := 0 to TutorialSymbols
      invariant pool == TutorialPool(m)
    {
      for k := 0 to TutorialCopies
        invariant pool == TutorialPool(m) + Repeat(m, k)
      {
        pool := pool + [m];
      }
    }
  }

  /** The scaled pool: `triples` pushes of three copies of the next symbol. */
  method BuildTriplePool(triples: nat, typeCount: nat) returns (pool: seq<nat>)
    requires typeCount > 0
    ensures pool == TriplePool(triples, typeCount)
  {
    pool := [];
    for i := 0 to triples
      invariant pool == TriplePool(i, typeCount)
    {
      var symbol := TripleSymbol(i, typeCount);
      pool := pool + [symbol, symbol, symbol];
    }
  }

  /** Copies a pool into an array and shuffles it in place. */
  method ShufflePool<T>(pool: seq<T>, rand: nat -> real, next: nat) returns (shuffled: seq<T>, next': nat)
    requires IsRandomStream(rand)
    ensures |shuffled| == |pool| && multiset(shuffled) == multiset(pool)
    ensures next' == next + ShuffleDraws(|pool|)
  {
    var arr := new T[|pool|](i requires 0 <= i < |pool| => pool[i]);
    assert arr[..] == pool;
    next' := Shuffle(arr, rand, next);
    shuffled := arr[..];
  }

  /** The placement loop of the tutorial level. */
  method PlaceTutorial(symbols: seq<nat>) returns (cards: seq<Card>)
    requires |symbols| == 18
    ensures |cards| == 18 && Distinct(cards) && Symbols(cards) == symbols
    ensures forall i :: 0 <= i < 18 ==>
              fresh(cards[i]) && NewCard(cards[i], i, symbols[i]) && TutorialPlaced(cards[i], i)
  {
    cards := [];
    var startX, startY, gap, offset := 160.0, 240.0, 145.0, 12.0;
    for i := 0 to 18
      invariant |cards| == i && Distinct(cards)
      invariant forall k :: 0 <= k < i ==>
                  fresh(cards[k]) && NewCard(cards[k], k, symbols[k]) && TutorialPlaced(cards[k], k)
    {
      var layer := i / 9;
      var indexInLayer := i % 9;
      var yOffset := if layer == 0 then offset else 0.0;
      var card := new Card(CardData(i, symbols[i],
                                    startX + (indexInLayer % 3) as real * gap,
                                    startY + (indexInLayer / 3) as real * gap + yOffset,
                                    layer, false, OnBoard));
      cards := cards + [card];
    }
  }

  /** The placement loop of a scaled level: each card draws a grid column, a
      grid row, a jitter on each axis and a layer, in that order. */
  method PlaceScaled(symbols: seq<nat>, level: int, rand: nat -> real, next: nat)
    returns (cards: seq<Card>, next': nat)
    requires IsRandomStream(rand)
    requires |symbols| > 0 ==> MaxLayers(level) > 0
    ensures |cards| == |symbols| && Distinct(cards) && Symbols(cards) == symbols
    ensures forall i :: 0 <= i < |cards| ==>
              fresh(cards[i]) && NewCard(cards[i], i, symbols[i]) &&
              Placed(cards[i], ScaledSpot(level, rand, next + 5 * i))
    ensures next' == next + 5 * |symbols|
  {
    cards := [];
    next' := next;
    var startX := (750.0 - 550.0) / 2.0;
    var startY := 180.0;
    var maxLayers := MaxLayers(level);
    for i := 0 to |symbols|
      invariant |cards| == i && Distinct(cards) && next' == next + 5 * i
      invariant forall k :: 0 <= k < i ==>
                  fresh(cards[k]) && NewCard(cards[k], k, symbols[k]) &&
                  Placed(cards[k], ScaledSpot(level, rand, next + 5 * k))
    {
      var gridX := RandomIndex(rand(next'), 6);
      var gridY := RandomIndex(rand(next' + 1), 6);
      var offsetX := (rand(next' + 2) - 0.5) * 40.0;
      var offsetY := (rand(next' + 3) - 0.5) * 40.0;
      var layer := RandomIndex(rand(next' + 4), maxLayers);
      next' := next' + 5;
      var card := new Card(CardData(i, symbols[i],
                                    startX + gridX as real * 90.0 + offsetX,
                                    startY + gridY as real * 80.0 + offsetY,
                                    layer, false, OnBoard));
      cards := cards + [card];
    }
  }

  lemma MultipleOfThree(k: nat)
    ensures (3 * k) % 3 == 0
  {
  }

  /** The shuffled tutorial pool: six copies of each of three symbols. */
  method ShuffledTutorialPool(rand: nat -> real, next: nat) returns (symbols: seq<nat>, next': nat)
    requires IsRandomStream(rand)
    ensures |symbols| == 18
    ensures forall t: nat :: multiset(symbols)[t] == if t < TutorialSymbols then TutorialCopies else 0
    ensures next' == next + 17
  {
    var pool := BuildTutorialPool();
    symbols, next' := ShufflePool(pool, rand, next);
    forall t: nat ensures multiset(symbols)[t] == if t < TutorialSymbols then TutorialCopies else 0 {
      TutorialPoolCount(TutorialSymbols, t);
      CountIsMultiplicity(pool, t);
    }
  }

  /** The shuffled pool of a scaled level: `CardCount(level) / 3` triples
      over the first `TypeCount(level)` symbols. */
  method ShuffledTriplePool(level: int, rand: nat -> real, next: nat) returns (symbols: seq<nat>, next': nat)
    requires IsRandomStream(rand)
    ensures |symbols| == (if CardCount(level) < 0 then 0 else CardCount(level))
    ensures forall i :: 0 <= i < |symbols| ==> symbols[i] < TypeCount(level)
    ensures forall t: nat :: multiset(symbols)[t] % 3 == 0
    ensures next' == next + ShuffleDraws(|symbols|)
  {
    var cardCount := CardCount(level);
    var typeCount := TypeCount(level);
    var triples: nat := if cardCount < 0 then 0 else cardCount / 3;
    var pool := BuildTriplePool(triples, typeCount);
    symbols, next' := ShufflePool(pool, rand, next);
    forall i | 0 <= i < |symbols| ensures symbols[i] < typeCount {
      assert symbols[i] in multiset(pool);
    }
    forall t: nat ensures multiset(symbols)[t] % 3 == 0 {
      TriplePoolCounts(triples, typeCount, t);
      CountIsMultiplicity(pool, t);
      MultipleOfThree(TriplesOf(triples, typeCount, t));
    }
  }

  /** The tutorial branch of `generateLevel`. */
  method GenerateTutorial(rand: nat -> real, next: nat) returns (cards: seq<Card>, next': nat)
    requires IsRandomStream(rand)
    ensures |cards| == 18 && Distinct(cards)
    ensures forall i :: 0 <= i < 18 ==> fresh(cards[i])
    ensures forall i :: 0 <= i < 18 ==> NewCard(cards[i], i, cards[i].symbol)
    ensures forall i :: 0 <= i < 18 ==> TutorialPlaced(cards[i], i)
    ensures forall t: nat :: multiset(Symbols(cards))[t] == if t < TutorialSymbols then TutorialCopies else 0
    ensures forall i {:trigger cards[i].isCovered} :: 0 <= i < 18 ==>
              cards[i].isCovered == Covered(cards, cards[i], DefaultCardW, DefaultCardH)
    ensures forall i {:trigger cards[i].isCovered} :: 0 <= i < 18 ==> (cards[i].isCovered <==> i < 9)
    ensures next' == next + 17
  {
    var symbols;
    symbols, next' := ShuffledTutorialPool(rand, next);
    cards := PlaceTutorial(symbols);
    cards := UpdateCoverState(cards, DefaultCardW, DefaultCardH);
    TutorialCoverFlags(cards);
    assert Symbols(cards) == symbols;
  }

  /** The branch of `generateLevel` for level 2 and beyond. */
  method GenerateScaled(level: int, rand: nat -> real, next: nat) returns (cards: seq<Card>, next': nat)
    requires IsRandomStream(rand)
    ensures |cards| == (if CardCount(level) < 0 then 0 else CardCount(level)) && Distinct(cards)
    ensures forall i :: 0 <= i < |cards| ==> fresh(cards[i])
    ensures forall i :: 0 <= i < |cards| ==> NewCard(cards[i], i, cards[i].symbol)
    ensures forall i :: 0 <= i < |cards| ==>
              Placed(cards[i], ScaledSpot(level, rand, next + ShuffleDraws(|cards|) + 5 * i)) &&
              ScaledPlaced(cards[i], level) && cards[i].symbol < TypeCount(level)
    ensures forall t: nat :: multiset(Symbols(cards))[t] % 3 == 0
    ensures forall i {:trigger cards[i].isCovered} :: 0 <= i < |cards| ==>
              cards[i].isCovered == Covered(cards, cards[i], DefaultCardW, DefaultCardH)
    ensures next' == next + ShuffleDraws(|cards|) + 5 * |cards|
  {
    var symbols;
    symbols, next' := ShuffledTriplePool(level, rand, next);
    ghost var first := next';
    cards, next' := DealScaled(symbols, level, rand, next');
    assert first == next + ShuffleDraws(|cards|);
    forall i | 0 <= i < |cards|
      ensures Placed(cards[i], ScaledSpot(level, rand, next + ShuffleDraws(|cards|) + 5 * i))
    {
      assert Placed(cards[i], ScaledSpot(level, rand, first + 5 * i));
    }
  }

  /** The placement loop followed by the cover pass, on an already shuffled pool. */
  method DealScaled(symbols: seq<nat>, level: int, rand: nat -> real, next: nat)
    returns (cards: seq<Card>, next': nat)
    requires IsRandomStream(rand)
    requires |symbols| > 0 ==> MaxLayers(level) > 0
    ensures |cards| == |symbols| && Distinct(cards) && Symbols(cards) == symbols
    ensures forall i :: 0 <= i < |cards| ==> fresh(cards[i]) && NewCard(cards[i], i, symbols[i])
    ensures forall i :: 0 <= i < |cards| ==>
              Placed(cards[i], ScaledSpot(level, rand, next + 5 * i)) && ScaledPlaced(cards[i], level)
    ensures forall i {:trigger cards[i].isCovered} :: 0 <= i < |cards| ==>
              cards[i].isCovered == Covered(cards, cards[i], DefaultCardW, DefaultCardH)
    ensures next' == next + 5 * |symbols|
  {
    cards, next' := PlaceScaled(symbols, level, rand, next);
    cards := UpdateCoverState(cards, DefaultCardW, DefaultCardH);
  }

  /** `generateLevel`: the tutorial for level 1, a scaled level otherwise.
      Every symbol occurs a multiple of 3 times, so the board can be cleared
      in principle. */
  method GenerateLevel(level: int, rand: nat -> real, next: nat)
    returns (cards: seq<Card>, next': nat)
    requires IsRandomStream(rand)
    ensures |cards| == LevelSize(level) && Distinct(cards)
    ensures forall i :: 0 <= i < |cards| ==> fresh(cards[i]) && NewCard(cards[i], i, cards[i].symbol)
    ensures forall i :: 0 <= i < |cards| ==> Placed(cards[i], DealtSpot(level, rand, next, i))
    ensures forall i {:trigger cards[i].isCovered} :: 0 <= i < |cards| ==>
              cards[i].isCovered == Covered(cards, cards[i], DefaultCardW, DefaultCardH)
    ensures forall i {:trigger cards[i].isCovered} :: 0 <= i < |cards| ==>
              (cards[i].isCovered <==> DealtCovered(level, rand, next, i))
    ensures forall t: nat :: multiset(Symbols(cards))[t] % 3 == 0
    // The tutorial level.
    ensures level == 1 ==> forall i :: 0 <= i < 18 ==> TutorialPlaced(cards[i], i)
    ensures level == 1 ==> forall t: nat :: multiset(Symbols(cards))[t] == if t < TutorialSymbols then TutorialCopies else 0
    ensures level == 1 ==> forall i {:trigger cards[i].isCovered} :: 0 <= i < 18 ==> (cards[i].isCovered <==> i < 9)
    // The scaled levels.
    ensures level != 1 ==> forall i :: 0 <= i < |cards| ==>
              ScaledPlaced(cards[i], level) && cards[i].symbol < TypeCount(level)
    ensures next' == next + ShuffleDraws(|cards|) + (if level == 1 then 0 else 5 * |cards|)
  {
    if level == 1 {
      cards, next' := GenerateTutorial(rand, next);
      forall t: nat ensures multiset(Symbols(cards))[t] % 3 == 0 {
        MultipleOfThree(if t < TutorialSymbols then 2 else 0);
      }
    } else {
      cards, next' := GenerateScaled(level, rand, next);
    }
    DealtCover(cards, level, rand, next);
  }
}
