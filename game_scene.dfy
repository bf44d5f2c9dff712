/** The round controller (js/scenes/GameScene.js): the seven-card slot, the
    stage of cards moved out by the remove tool, the three tool counters, the
    one-step undo record, tap routing, match detection and the win and loss
    checks.

    Each `setTimeout` callback is a step method of its own (`Settle`,
    `ClearStart`, `ClearRemove`, and `RefreshCover` after a shuffle); a step
    that schedules one returns what the callback captures. `wx.setStorageSync('maxLevel', …)` is
    the field `storedMaxLevel`, and switching to the result scene is the field
    `outcome`. */
module Scene {

  import opened Seqs
  import opened Cards
  import opened SymbolPools
  import opened Level
  import opened SlotRules

  /** The undo record `lastCard`: the tapped card and where it stood. */
  datatype UndoRecord = UndoRecord(card: Card, originX: real, originY: real)

  /** Which result scene, if any, the controller has switched to. */
  datatype Outcome = Playing | Won | Lost

  /** A button rectangle. */
  datatype Rect = Rect(x: real, y: real, width: real, height: real)

  /** `hitTest(rect, x, y)`: the inclusive point-in-rectangle test of the
      buttons. */
  predicate InRect(r: Rect, px: real, py: real) {
    px >= r.x && px <= r.x + r.width && py >= r.y && py <= r.y + r.height
  }

  /** A visible card that is not cleared is hit exactly when the tap lies in
      the rectangle the card occupies. */
  lemma CardHitIsRectHit(c: Card, px: real, py: real, w: real, h: real)
    ensures c.HitTest(px, py, w, h) <==>
            c.alpha > 0.0 && c.state != Cleared && InRect(Rect(c.x, c.y, w, h), px, py)
  {
  }

  // ---------------------------------------------------------------------
  // Filters over card sequences (the `filter(...)` calls of the controller)

  /** How many cards of `s` are in state `st`. */
  function CountState(s: seq<Card>, st: CardState): (n: nat)
    reads s`state
    ensures n <= |s|
  {
    if s == [] then 0
    else CountState(s[..|s| - 1], st) + (if s[|s| - 1].state == st then 1 else 0)
  }

  /** No card of `s` is in state `st` exactly when the count is zero, and
      every card is exactly when the count is the length of `s`. */
  lemma {:induction false} CountStateMeaning(s: seq<Card>, st: CardState)
    ensures CountState(s, st) == 0 <==> forall i :: 0 <= i < |s| ==> s[i].state != st
    ensures CountState(s, st) == |s| <==> forall i :: 0 <= i < |s| ==> s[i].state == st
  {
    if s != [] {
      var init := s[..|s| - 1];
      CountStateMeaning(init, st);
      assert forall i :: 0 <= i < |init| ==> init[i] == s[i];
    }
  }

  /** The cards of `s` in state `st`, in order. */
  function WithState(s: seq<Card>, st: CardState): (r: seq<Card>)
    reads s`state
    ensures |r| == CountState(s, st)
    ensures forall i :: 0 <= i < |r| ==> r[i] in s && r[i].state == st
    ensures forall i :: 0 <= i < |s| && s[i].state == st ==> s[i] in r
  {
    if s == [] then []
    else WithState(s[..|s| - 1], st) + (if s[|s| - 1].state == st then [s[|s| - 1]] else [])
  }

  /** The symbols of the settled (state 1) cards of `s`, in order: what the
      `counts` loop of `checkMatch` sees. */
  function SettledSymbols(s: seq<Card>): (r: seq<nat>)
    reads s`state, s`symbol
    ensures |r| <= |s|
  {
    if s == [] then []
    else SettledSymbols(s[..|s| - 1]) + (if s[|s| - 1].state == InSlot then [s[|s| - 1].symbol] else [])
  }

  /** The settled cards of symbol `t` in `s`, in order. */
  function SettledOfSymbol(s: seq<Card>, t: nat): (r: seq<Card>)
    reads s`state, s`symbol
    ensures forall i :: 0 <= i < |r| ==> r[i] in s && r[i].state == InSlot && r[i].symbol == t
    ensures forall i :: 0 <= i < |s| && s[i].state == InSlot && s[i].symbol == t ==> s[i] in r
  {
    if s == [] then []
    else SettledOfSymbol(s[..|s| - 1], t) +
         (if s[|s| - 1].state == InSlot && s[|s| - 1].symbol == t then [s[|s| - 1]] else [])
  }

  /** As many settled cards of `t` as its count among the settled symbols. */
  lemma {:induction false} SettledOfSymbolCount(s: seq<Card>, t: nat)
    ensures |SettledOfSymbol(s, t)| == Count(SettledSymbols(s), t)
  {
    if s != [] {
      var init, last := s[..|s| - 1], s[|s| - 1];
      SettledOfSymbolCount(init, t);
      var tail: seq<nat> := if last.state == InSlot then [last.symbol] else [];
      CountConcat(SettledSymbols(init), tail, t);
      if last.state == InSlot {
        assert Count(tail, t) == (if last.symbol == t then 1 else 0) by {
          assert tail[..0] == [];
        }
      }
    }
  }

  /** A sub-sequence of a sequence without repetitions has none either. */
  lemma {:induction false} SettledOfSymbolDistinct(s: seq<Card>, t: nat)
    requires Distinct(s)
    ensures Distinct(SettledOfSymbol(s, t))
  {
    if s != [] {
      var init := s[..|s| - 1];
      assert Distinct(init);
      SettledOfSymbolDistinct(init, t);
      assert s[|s| - 1] !in init;
    }
  }

  /** The cards of a state taken from cards without repetitions have none
      either. */
  lemma {:induction false} WithStateDistinct(s: seq<Card>, st: CardState)
    requires Distinct(s)
    ensures Distinct(WithState(s, st))
  {
    if s != [] {
      var init := s[..|s| - 1];
      assert Distinct(init);
      WithStateDistinct(init, st);
      assert s[|s| - 1] !in init;
    }
  }

  /** The cards `checkMatch` marks: nothing below three slot cards, otherwise
      the first three settled cards of the chosen symbol, in slot order. */
  function MatchedCards(slot: seq<Card>): (r: Option<seq<Card>>)
    reads slot`state, slot`symbol
    ensures r.Some? ==> |r.value| == MatchSize
  {
    if |slot| < 3 then None
    else
      match MatchSymbol(SettledSymbols(slot))
      case None => None
      case Some(t) =>
        MatchSymbolMeaning(SettledSymbols(slot));
        SettledOfSymbolCount(slot, t);
        Some(SettledOfSymbol(slot, t)[..MatchSize])
  }

  /** What the match check removes: three distinct settled slot cards of one
      symbol, the first three of that symbol in slot order, of a symbol whose
      settled count reaches three while every symbol settled earlier in the
      slot has fewer; and no cards exactly when no symbol reaches three. */
  lemma MatchedCardsMeaning(slot: seq<Card>)
    requires Distinct(slot)
    ensures MatchedCards(slot).Some? ==>
              var m := MatchedCards(slot).value;
              var t := m[0].symbol;
              Distinct(m) &&
              (forall i :: 0 <= i < |m| ==> m[i] in slot && m[i].state == InSlot && m[i].symbol == t) &&
              m <= SettledOfSymbol(slot, t) &&
              Count(SettledSymbols(slot), t) >= MatchSize &&
              (forall u :: (u in SettledSymbols(slot) &&
                            IndexOf(SettledSymbols(slot), u) < IndexOf(SettledSymbols(slot), t)) ==>
                           Count(SettledSymbols(slot), u) < MatchSize)
    ensures MatchedCards(slot).None? <==> NoTriple(slot)
  {
    if MatchedCards(slot).Some? {
      MatchedCardsFound(slot);
    }
    NoMatchMeaning(slot);
  }

  /** The found case of `MatchedCardsMeaning`. */
  lemma MatchedCardsFound(slot: seq<Card>)
    requires Distinct(slot) && MatchedCards(slot).Some?
    ensures var m := MatchedCards(slot).value;
            var t := m[0].symbol;
            Distinct(m) &&
            (forall i :: 0 <= i < |m| ==> m[i] in slot && m[i].state == InSlot && m[i].symbol == t) &&
            m <= SettledOfSymbol(slot, t) &&
            Count(SettledSymbols(slot), t) >= MatchSize &&
            (forall u :: (u in SettledSymbols(slot) &&
                          IndexOf(SettledSymbols(slot), u) < IndexOf(SettledSymbols(slot), t)) ==>
                         Count(SettledSymbols(slot), u) < MatchSize)
  {
    var ss := SettledSymbols(slot);
    MatchedCardsPick(slot);
    var t := MatchSymbol(ss).value;
    FirstSettledOf(slot, t);
    MatchSymbolMeaning(ss);
  }

  /** A match is the first three settled cards of the chosen symbol. */
  lemma MatchedCardsPick(slot: seq<Card>)
    requires MatchedCards(slot).Some?
    ensures MatchSymbol(SettledSymbols(slot)).Some?
    ensures var t := MatchSymbol(SettledSymbols(slot)).value;
            |SettledOfSymbol(slot, t)| >= MatchSize &&
            MatchedCards(slot).value == SettledOfSymbol(slot, t)[..MatchSize]
  {
    var ss := SettledSymbols(slot);
    MatchSymbolMeaning(ss);
    SettledOfSymbolCount(slot, MatchSymbol(ss).value);
  }

  /** The first three settled cards of `t` are distinct slot cards of
      symbol `t`. */
  lemma FirstSettledOf(slot: seq<Card>, t: nat)
    requires Distinct(slot) && |SettledOfSymbol(slot, t)| >= MatchSize
    ensures var m := SettledOfSymbol(slot, t)[..MatchSize];
            m[0].symbol == t && Distinct(m) && m <= SettledOfSymbol(slot, t) &&
            forall i :: 0 <= i < |m| ==> m[i] in slot && m[i].state == InSlot && m[i].symbol == t
  {
    SettledOfSymbolDistinct(slot, t);
  }

  /** The shape of a match: three distinct slot cards of one symbol. */
  lemma MatchedCardsShape(slot: seq<Card>)
    requires Distinct(slot)
    ensures MatchedCards(slot).Some? ==>
              var m := MatchedCards(slot).value;
              Distinct(m) && forall i :: 0 <= i < |m| ==> m[i] in slot && m[i].symbol == m[0].symbol
  {
    MatchedCardsMeaning(slot);
  }

  /** A cleared match: distinct cards of `slot`, all of one symbol and all
      marked cleared. */
  ghost predicate ClearedMatch(slot: seq<Card>, m: seq<Card>)
    reads m`state, m`symbol
  {
    Distinct(m) && forall i :: 0 <= i < |m| ==> m[i] in slot && m[i].state == Cleared && m[i].symbol == m[0].symbol
  }

  /** No symbol has three settled cards in `slot`. */
  ghost predicate NoTriple(slot: seq<Card>)
    reads slot`state, slot`symbol
  {
    forall u :: |SettledOfSymbol(slot, u)| < MatchSize
  }

  /** No match is found exactly when no symbol has three settled cards. */
  lemma NoMatchMeaning(slot: seq<Card>)
    ensures MatchedCards(slot).None? <==> NoTriple(slot)
  {
    var ss := SettledSymbols(slot);
    MatchSymbolMeaning(ss);
    if MatchedCards(slot).None? {
      forall u ensures |SettledOfSymbol(slot, u)| < MatchSize {
        SettledOfSymbolCount(slot, u);
        if |slot| < 3 {
          CountBound(ss, u);
        }
      }
    } else {
      var t := MatchSymbol(ss).value;
      SettledOfSymbolCount(slot, t);
    }
  }

  /** The (x, y) positions of `s`, in order. */
  function Positions(s: seq<Card>): (r: seq<(real, real)>)
    reads s`x, s`y
    ensures |r| == |s| && forall i :: 0 <= i < |s| ==> r[i] == (s[i].x, s[i].y)
  {
    if s == [] then [] else [(s[0].x, s[0].y)] + Positions(s[1..])
  }

  /** What a tap may change about a card, as a value. */
  datatype Looks = Looks(state: CardState, scale: real, anim: Animation, isCovered: bool)

  /** The looks of the cards of `s`, in order. */
  function LooksOf(s: seq<Card>): (r: seq<Looks>)
    reads s`state, s`scale, s`anim, s`isCovered
    ensures |r| == |s| && forall i :: 0 <= i < |s| ==> r[i] == Looks(s[i].state, s[i].scale, s[i].anim, s[i].isCovered)
  {
    if s == [] then [] else [Looks(s[0].state, s[0].scale, s[0].anim, s[0].isCovered)] + LooksOf(s[1..])
  }

  /** The animation targets of `s`, in order. */
  function Targets(s: seq<Card>): (r: seq<(real, real)>)
    reads s`anim
    ensures |r| == |s| && forall i :: 0 <= i < |s| ==> r[i] == (s[i].anim.targetX, s[i].anim.targetY)
  {
    if s == [] then [] else [(s[0].anim.targetX, s[0].anim.targetY)] + Targets(s[1..])
  }

  /** The two Fisher-Yates loops of the shuffle tool: the positions first,
      then the symbols, each a permutation drawn from the random stream. */
  method ShuffleBoth(positions: seq<(real, real)>, types: seq<nat>, rand: nat -> real, next: nat)
    returns (positions': seq<(real, real)>, types': seq<nat>, next': nat)
    requires IsRandomStream(rand)
    ensures |positions'| == |positions| && multiset(positions') == multiset(positions)
    ensures |types'| == |types| && multiset(types') == multiset(types)
    ensures next' == next + ShuffleDraws(|positions|) + ShuffleDraws(|types|)
  {
    var n1;
    positions', n1 := ShufflePool(positions, rand, next);
    types', next' := ShufflePool(types, rand, n1);
  }

  /** The assignment loop of the shuffle tool: card `i` takes symbol
      `types[i]` and starts a shuffle animation to `pos[i]`. */
  method ApplyShuffle(active: seq<Card>, pos: seq<(real, real)>, types: seq<nat>)
    requires Distinct(active) && |pos| == |active| && |types| == |active|
    modifies active`symbol, active`anim
    ensures Symbols(active) == types && Targets(active) == pos
    ensures forall i :: 0 <= i < |active| ==>
              active[i].anim == Animation(true, Shuffle, active[i].x, active[i].y, pos[i].0, pos[i].1, 0.0, ShuffleDuration)
  {
    for i := 0 to |active|
      invariant forall k :: 0 <= k < i ==>
                  active[k].symbol == types[k] &&
                  active[k].anim == Animation(true, Shuffle, active[k].x, active[k].y, pos[k].0, pos[k].1, 0.0, ShuffleDuration)
    {
      var c := active[i];
      c.symbol := types[i];
      c.StartShuffleAnimation(pos[i].0, pos[i].1);
    }
  }

  /** The staging loop of the remove tool: card `i` of `moved` is marked
      staged and flies to `(startX + i * step, y)`. */
  method StageAll(moved: seq<Card>, startX: real, step: real, y: real)
    requires Distinct(moved)
    modifies moved`state, moved`anim
    ensures forall i :: 0 <= i < |moved| ==>
              moved[i].state == Staged &&
              moved[i].anim == Animation(true, Fly, moved[i].x, moved[i].y, startX + i as real * step, y, 0.0, FlyDuration)
  {
    for i := 0 to |moved|
      invariant forall k :: 0 <= k < i ==> moved[k].state == Staged
      invariant forall k :: 0 <= k < i ==>
                  moved[k].anim == Animation(true, Fly, moved[k].x, moved[k].y, startX + k as real * step, y, 0.0, FlyDuration)
    {
      StageCard(moved[i], startX + i as real * step, y);
    }
  }

  /** One card of the staging loop: marked staged, flying to (tx, ty). */
  method StageCard(c: Card, tx: real, ty: real)
    modifies c`state, c`anim
    ensures c.state == Staged && c.anim == Animation(true, Fly, c.x, c.y, tx, ty, 0.0, FlyDuration)
  {
    c.state := Staged;
    c.StartFlyAnimation(tx, ty);
  }

  /** The symbols of `s` depend on nothing but the cards' symbols. */
  twostate lemma SymbolsFrame(s: seq<Card>)
    requires forall i :: 0 <= i < |s| ==> s[i].symbol == old(s[i].symbol)
    ensures Symbols(s) == old(Symbols(s))
  {
  }

  lemma {:induction false} SymbolsInsert(s: seq<Card>, k: nat, c: Card)
    requires k <= |s|
    ensures Symbols(InsertAt(s, k, c)) == InsertAt(Symbols(s), k, c.symbol)
  {
    var r := InsertAt(s, k, c);
    if k == 0 {
      assert r == [c] + s && r[1..] == s;
    } else {
      SymbolsInsert(s[1..], k - 1, c);
      assert r == [s[0]] + InsertAt(s[1..], k - 1, c) && r[1..] == InsertAt(s[1..], k - 1, c);
    }
  }

  lemma SymbolsRemove(s: seq<Card>, k: nat)
    requires k < |s|
    ensures Symbols(RemoveAt(s, k)) == RemoveAt(Symbols(s), k)
  {
  }

  lemma SymbolsDrop(s: seq<Card>, m: nat)
    requires m <= |s|
    ensures Symbols(s[m..]) == Symbols(s)[m..]
  {
  }

  /** The splice loop of the clear-removal step: each card of `drop` that is
      still in `s` is spliced out at its index. */
  method SpliceOut(s: seq<Card>, drop: seq<Card>) returns (r: seq<Card>)
    requires Distinct(s)
    ensures r == Except(s, drop)
  {
    r := s;
    ExceptNone(r, []);
    for i := 0 to |drop|
      invariant r == Except(s, drop[..i])
    {
      var idx := IndexOf(r, drop[i]);
      if idx > -1 {
        ExceptDistinct(s, drop[..i]);
        RemoveIsExcept(r, drop[i]);
        r := RemoveAt(r, idx);
      } else {
        ExceptNone(r, [drop[i]]);
      }
      ExceptStep(s, drop, i);
    }
    assert drop[..|drop|] == drop;
  }

  /** A design-pixel coordinate in screen pixels. */
  function Scaled(v: real, factor: real): real {
    v * factor
  }

  /** A scale factor applied to every position: `data.x = toPx(data.x)`. */
  method ScalePositions(cards: seq<Card>, factor: real)
    requires Distinct(cards)
    modifies cards`x, cards`y
    ensures forall i :: 0 <= i < |cards| ==>
              cards[i].x == Scaled(old(cards[i].x), factor) && cards[i].y == Scaled(old(cards[i].y), factor)
  {
    for i := 0 to |cards|
      invariant forall k :: 0 <= k < i ==>
                  cards[k].x == Scaled(old(cards[k].x), factor) && cards[k].y == Scaled(old(cards[k].y), factor)
      invariant forall k :: i <= k < |cards| ==> cards[k].x == old(cards[k].x) && cards[k].y == old(cards[k].y)
    {
      cards[i].x := cards[i].x * factor;
      cards[i].y := cards[i].y * factor;
    }
  }

  /** Every symbol occurs a multiple of three times. */
  ghost predicate InTriples(s: seq<nat>) {
    forall t: nat :: multiset(s)[t] % 3 == 0
  }

  /** One frame of animation for every card of `s`. */
  method AdvanceAll(s: seq<Card>, dt: real, sinPi: real -> real, pi: real)
    requires Distinct(s) && forall i :: 0 <= i < |s| ==> s[i].Valid()
    modifies s`x, s`y, s`scale, s`rotation, s`alpha, s`anim
    ensures forall i :: 0 <= i < |s| ==> s[i].Valid()
    ensures forall i :: 0 <= i < |s| ==>
              old(s[i].anim).duration > 0.0 && (s[i].anim, s[i].CurrentPose()) == Advance(old(s[i].anim), old(s[i].CurrentPose()), dt, sinPi, pi)
  {
    for i := 0 to |s|
      invariant forall k :: 0 <= k < |s| ==> s[k].Valid()
      invariant forall k :: 0 <= k < i ==>
                  (s[k].anim, s[k].CurrentPose()) == Advance(old(s[k].anim), old(s[k].CurrentPose()), dt, sinPi, pi)
      invariant forall k :: i <= k < |s| ==> s[k].anim == old(s[k].anim) && s[k].CurrentPose() == old(s[k].CurrentPose())
    {
      var _ := s[i].UpdateAnimation(dt, sinPi, pi);
    }
  }

  /** The cards of a new round of `level`: the generated level with every
      position multiplied by `factor`. The cover flags keep the values the
      generator computed on the unscaled positions. */
  method RoundCards(level: int, factor: real, rand: nat -> real, next: nat) returns (cards: seq<Card>)
    requires IsRandomStream(rand)
    ensures |cards| == LevelSize(level) && FreshRound(cards)
    ensures forall i :: 0 <= i < |cards| ==> Dealt(cards[i], i, level, factor, rand, next)
    ensures forall i :: 0 <= i < |cards| ==> fresh(cards[i])
  {
    var next';
    cards, next' := GenerateLevel(level, rand, next);
    assert FreshRound(cards);
    ScaleDealt(cards, level, factor, rand, next);
  }

  /** `ScalePositions` on a dealt level: the dealt spots, scaled. */
  method ScaleDealt(cards: seq<Card>, level: int, factor: real, rand: nat -> real, next: nat)
    requires IsRandomStream(rand) && Distinct(cards) && |cards| == LevelSize(level)
    requires forall i :: 0 <= i < |cards| ==> Placed(cards[i], DealtSpot(level, rand, next, i))
    requires forall i {:trigger cards[i].isCovered} :: 0 <= i < |cards| ==>
               (cards[i].isCovered <==> DealtCovered(level, rand, next, i))
    modifies cards`x, cards`y
    ensures forall i :: 0 <= i < |cards| ==> Dealt(cards[i], i, level, factor, rand, next)
  {
    label Generated:
    ScalePositions(cards, factor);
    forall i | 0 <= i < |cards| ensures Dealt(cards[i], i, level, factor, rand, next) {
      assert old@Generated(Placed(cards[i], DealtSpot(level, rand, next, i)));
      assert cards[i].isCovered == old@Generated(cards[i].isCovered);
    }
  }

  /** Card `i` of a round of `level` dealt from the draws starting at
      `rand(next)`: at the generator's spot scaled by `factor`, on the
      generator's layer, with the cover flag the generator computed on the
      unscaled spots and its own 90x110 box. */
  ghost predicate Dealt(c: Card, i: nat, level: int, factor: real, rand: nat -> real, next: nat)
    requires IsRandomStream(rand) && i < LevelSize(level)
    reads c`x, c`y, c`isCovered
  {
    var s := DealtSpot(level, rand, next, i);
    c.x == Scaled(s.x, factor) && c.y == Scaled(s.y, factor) && c.layer == s.layer &&
    (c.isCovered <==> DealtCovered(level, rand, next, i))
  }

  /** A round as it is dealt: every card carries its index as its id and
      lies on the board at rest, and every symbol occurs a multiple of three
      times. */
  ghost predicate FreshRound(cards: seq<Card>)
    reads cards`state, cards`anim, cards`symbol
  {
    (forall i :: 0 <= i < |cards| ==>
       cards[i].id == i && cards[i].state == OnBoard && cards[i].anim == IdleAnimation) &&
    InTriples(Symbols(cards))
  }

  /** Two frames of animation: what a staged card receives per `update`,
      once from the card list and once from the stage list. */
  function AdvanceTwice(a: Animation, p: Pose, dt: real, sinPi: real -> real, pi: real): (Animation, Pose)
    requires a.duration > 0.0
  {
    var once := Advance(a, p, dt, sinPi, pi);
    Advance(once.0, once.1, dt, sinPi, pi)
  }

  /** Every card's cover flag is what `Covered` says. */
  ghost predicate CoverFlagsHold(cards: seq<Card>, w: real, h: real)
    reads cards`isCovered, cards`state, cards`x, cards`y
  {
    forall i {:trigger cards[i].isCovered} :: 0 <= i < |cards| ==>
      cards[i].isCovered == Covered(cards, cards[i], w, h)
  }

  // ---------------------------------------------------------------------
  // The match check's scans (`checkMatch`)

  /** `keys` and `counts` describe the `counts` object after counting the
      symbols `s`: the keys are the distinct symbols in order of first
      occurrence, and each key maps to its number of occurrences. */
  ghost predicate CountsOf(keys: seq<nat>, counts: map<nat, nat>, s: seq<nat>) {
    keys == Dedup(s) &&
    (forall u :: u in counts <==> u in keys) &&
    (forall u :: u in counts ==> counts[u] == Count(s, u))
  }

  /** The `counts` loop over the settled slot cards. */
  method CountSettled(slot: seq<Card>) returns (keys: seq<nat>, counts: map<nat, nat>)
    ensures CountsOf(keys, counts, SettledSymbols(slot))
  {
    keys, counts := [], map[];
    for i := 0 to |slot|
      invariant CountsOf(keys, counts, SettledSymbols(slot[..i]))
    {
      var c := slot[i];
      ghost var before := SettledSymbols(slot[..i]);
      SettledSymbolsStep(slot, i);
      if c.state == InSlot {
        CountStep(before, c.symbol, keys, counts);
        if c.symbol !in counts {
          keys := keys + [c.symbol];
        }
        var prev := if c.symbol in counts then counts[c.symbol] else 0;
        counts := counts[c.symbol := prev + 1];
      }
    }
    assert slot[..|slot|] == slot;
  }

  lemma SettledSymbolsStep(slot: seq<Card>, i: nat)
    requires i < |slot|
    ensures slot[i].state == InSlot ==> SettledSymbols(slot[..i + 1]) == SettledSymbols(slot[..i]) + [slot[i].symbol]
    ensures slot[i].state != InSlot ==> SettledSymbols(slot[..i + 1]) == SettledSymbols(slot[..i])
  {
    assert slot[..i + 1][..i] == slot[..i];
  }

  /** Counting one more occurrence of `x`: a new key goes to the end of the
      key order, and the key's count goes up by one. */
  lemma CountStep(before: seq<nat>, x: nat, keys: seq<nat>, counts: map<nat, nat>)
    requires CountsOf(keys, counts, before)
    ensures CountsOf(if x in counts then keys else keys + [x],
                     counts[x := (if x in counts then counts[x] else 0) + 1], before + [x])
  {
    var after := before + [x];
    assert after[..|before|] == before;
    if x !in counts {
      CountAbsent(before, x);
    }
  }

  /** The `for … in counts` loop: the first key whose count reaches three. */
  method FirstReachingKey(keys: seq<nat>, counts: map<nat, nat>, ghost ss: seq<nat>) returns (r: Option<nat>)
    requires forall u :: u in keys ==> u in counts && counts[u] == Count(ss, u)
    ensures r == FirstReaching(keys, ss)
  {
    assert keys[0..] == keys;
    for j := 0 to |keys|
      invariant FirstReaching(keys[j..], ss) == FirstReaching(keys, ss)
    {
      if counts[keys[j]] >= MatchSize {
        return Some(keys[j]);
      }
      assert keys[j..][1..] == keys[j + 1..];
    }
    return None;
  }

  /** The `filter` of `checkMatch`: the settled cards of symbol `t`. */
  method SettledOf(slot: seq<Card>, t: nat) returns (found: seq<Card>)
    ensures found == SettledOfSymbol(slot, t)
  {
    found := [];
    for i := 0 to |slot|
      invariant found == SettledOfSymbol(slot[..i], t)
    {
      assert slot[..i + 1][..i] == slot[..i];
      if slot[i].state == InSlot && slot[i].symbol == t {
        found := found + [slot[i]];
      }
    }
    assert slot[..|slot|] == slot;
  }

  /** The scans of `checkMatch` together: nothing below three slot cards,
      otherwise the first three settled cards of the first symbol whose
      count reaches three. */
  method FindMatch(slot: seq<Card>) returns (r: Option<seq<Card>>)
    ensures r == MatchedCards(slot)
  {
    if |slot| < 3 {
      return None;
    }
    var keys, counts := CountSettled(slot);
    label Counted:
    ghost var ss := SettledSymbols(slot);
    var t := FirstReachingKey(keys, counts, ss);
    if t.None? {
      SettledSymbolsFrame@Counted(slot);
      MatchedCardsBy(slot, t);
      return None;
    }
    var found := SettledOf(slot, t.value);
    SettledSymbolsFrame@Counted(slot);
    MatchedCardsBy(slot, t);
    r := Some(found[..MatchSize]);
  }

  /** The settled symbols depend only on the cards' states and symbols. */
  twostate lemma SettledSymbolsFrame(slot: seq<Card>)
    requires forall i :: 0 <= i < |slot| ==> slot[i].state == old(slot[i].state) && slot[i].symbol == old(slot[i].symbol)
    ensures SettledSymbols(slot) == old(SettledSymbols(slot))
  {
  }

  /** The matched cards depend only on the slot cards' states and symbols. */
  twostate lemma MatchedCardsFrame(slot: seq<Card>)
    requires forall i :: 0 <= i < |slot| ==> slot[i].state == old(slot[i].state) && slot[i].symbol == old(slot[i].symbol)
    ensures MatchedCards(slot) == old(MatchedCards(slot))
  {
    SettledSymbolsFrame(slot);
  }

  /** `MatchedCards` in terms of the chosen symbol. */
  lemma MatchedCardsBy(slot: seq<Card>, t: Option<nat>)
    requires |slot| >= 3 && t == MatchSymbol(SettledSymbols(slot))
    ensures t.None? ==> MatchedCards(slot).None?
    ensures t.Some? ==> |SettledOfSymbol(slot, t.value)| >= MatchSize &&
                        MatchedCards(slot) == Some(SettledOfSymbol(slot, t.value)[..MatchSize])
  {
    if t.Some? {
      SettledOfSymbolCount(slot, t.value);
    }
  }

  /** `matchedCards.forEach(c => { c.state = 2; })`. */
  method MarkCleared(m: seq<Card>)
    modifies m`state
    ensures forall i :: 0 <= i < |m| ==> m[i].state == Cleared
  {
    for i := 0 to |m|
      invariant forall k :: 0 <= k < i ==> m[k].state == Cleared
    {
      m[i].state := Cleared;
    }
  }

  // ---------------------------------------------------------------------
  // The controller

  class GameScene {
    const currentLevel: int
    const width: real
    const height: real
    /** `game.rpx2px`: the screen width over the 750-unit design width. */
    const rpx2px: real
    const cardWidth: real
    const cardHeight: real
    /** The cards of the round; the array is never replaced after set-up. */
    const cards: seq<Card>
    var slotCards: seq<Card>
    var holdingCards: seq<Card>
    var isGameOver: bool
    /** `toolLimits.undo`, `toolLimits.shuffle`, `toolLimits.remove`. */
    var undoLeft: int
    var shuffleLeft: int
    var removeLeft: int
    var lastCard: Option<UndoRecord>
    /** The persisted `maxLevel` entry. */
    var storedMaxLevel: int
    var outcome: Outcome

    /** `game.toPx`: design units to screen pixels. */
    function ToPx(rpx: real): real {
      rpx * rpx2px
    }

    /** The x of slot position `i`: seven card cells of width `toPx(80)`
        with gaps `toPx(10)`, centred in a bar `toPx(40)` narrower than the
        screen. */
    function SlotTargetX(i: nat): real {
      var slotW := width - ToPx(40.0);
      var slotX := (width - slotW) / 2.0;
      var cardSlotW := ToPx(80.0);
      var cardGap := ToPx(10.0);
      var innerStartX := slotX + (slotW - (7.0 * cardSlotW + 6.0 * cardGap)) / 2.0;
      innerStartX + i as real * (cardSlotW + cardGap)
    }

    /** The y of the slot row: a card centred vertically in the `toPx(200)`
        high slot band, `toPx(200)` below the top of the `toPx(450)` footer. */
    function SlotTargetY(): real {
      var footerY := height - ToPx(450.0);
      var slotY := footerY + ToPx(200.0);
      var slotH := ToPx(200.0);
      slotY + (slotH - cardHeight) / 2.0
    }

    /** Neighbouring slot positions are one cell plus one gap apart, and the
        row of seven cells has equal margins on both sides of the screen. */
    lemma SlotGeometry(i: nat)
      ensures SlotTargetX(i + 1) - SlotTargetX(i) == ToPx(80.0) + ToPx(10.0)
      ensures SlotTargetX(0) == width - (SlotTargetX(6) + ToPx(80.0))
    {
    }

    /** The x at which staged card `i` of `n` moved out lands: a centred row
        with a gap of 10 (screen pixels, not design units). */
    function StageX(n: nat, i: nat): real {
      var startX := (width - (n as real * (cardWidth + 10.0))) / 2.0;
      startX + i as real * (cardWidth + 10.0)
    }

    function StageY(): real {
      height - ToPx(450.0)
    }

    /** A tap at (px, py) can take card `c`: it is not covered and it is hit. */
    predicate Tappable(c: Card, px: real, py: real)
      reads c
    {
      !c.isCovered && c.HitTest(px, py, cardWidth, cardHeight)
    }

    /** The invariant of a round: every card's animation has a positive
        duration, and the slot and stage are laid out as `Layout` says. */
    ghost predicate Valid()
      reads this`slotCards, this`holdingCards, this`lastCard, cards`anim, cards`state, cards`symbol
    {
      AnimsValid() && Layout()
    }

    ghost predicate AnimsValid()
      reads cards`anim
    {
      forall i :: 0 <= i < |cards| ==> cards[i].Valid()
    }

    ghost predicate Layout()
      reads this`slotCards, this`holdingCards, this`lastCard, cards`state, cards`symbol
    {
      LayoutOf(slotCards, holdingCards, lastCard)
    }

    /** The cards of the round are distinct, as each carries its index as
        its id. */
    lemma CardsDistinct()
      requires forall i :: 0 <= i < |cards| ==> cards[i].id == i
      ensures Distinct(cards)
    {
    }

    /** The cards of the round carry their indices as ids; the slot and the
        stage hold cards of the round, each once, and never the same card; the slot holds at most seven cards, each on its way in,
        settled or being cleared, and it is grouped by symbol. */
    ghost predicate LayoutOf(slot: seq<Card>, holding: seq<Card>, last: Option<UndoRecord>)
      reads cards`state, cards`symbol
    {
      (forall i :: 0 <= i < |cards| ==> cards[i].id == i) &&
      (forall i :: 0 <= i < |slot| ==> slot[i] in cards) &&
      (forall i :: 0 <= i < |holding| ==> holding[i] in cards) &&
      Distinct(slot) && Distinct(holding) &&
      (forall i :: 0 <= i < |slot| ==> slot[i] !in holding) &&
      |slot| <= MaxSlot &&
      (forall i :: 0 <= i < |slot| ==> slot[i].state in {InFlight, InSlot, Cleared}) &&
      Grouped(Symbols(slot)) &&
      (last.Some? ==> last.value.card in cards)
    }

    /** Inserting a card in flight, from neither the slot nor the stage, at
        a place that keeps the slot grouped keeps the layout. */
    lemma LayoutInsert(slot: seq<Card>, holding: seq<Card>, last: Option<UndoRecord>, k: nat, card: Card)
      requires LayoutOf(slot, holding, last) && |slot| < MaxSlot && k <= |slot|
      requires card in cards && card !in slot && card !in holding && card.state == InFlight
      requires Grouped(InsertAt(Symbols(slot), k, card.symbol))
      ensures LayoutOf(InsertAt(slot, k, card), holding, last)
    {
      InsertMembers(slot, holding, last, k, card);
      DistinctInsert(slot, k, card);
      SymbolsInsert(slot, k, card);
    }

    /** Every card of the grown slot is a card of the board, off the stage and
        in a slot state. */
    lemma InsertMembers(slot: seq<Card>, holding: seq<Card>, last: Option<UndoRecord>, k: nat, card: Card)
      requires LayoutOf(slot, holding, last) && k <= |slot|
      requires card in cards && card !in holding && card.state == InFlight
      ensures var r := InsertAt(slot, k, card);
              forall i :: 0 <= i < |r| ==> r[i] in cards && r[i] !in holding && r[i].state in {InFlight, InSlot, Cleared}
    {
      var r := InsertAt(slot, k, card);
      forall i | 0 <= i < |r|
        ensures r[i] in cards && r[i] !in holding && r[i].state in {InFlight, InSlot, Cleared}
      {
        if i != k {
          var j := if i < k then i else i - 1;
          assert r[i] == slot[j];
        }
      }
    }

    /** Splicing a card out of the slot keeps the layout. */
    lemma LayoutRemove(slot: seq<Card>, holding: seq<Card>, last: Option<UndoRecord>, k: nat)
      requires LayoutOf(slot, holding, last) && k < |slot|
      ensures LayoutOf(RemoveAt(slot, k), holding, last)
    {
      var r := RemoveAt(slot, k);
      assert forall i :: 0 <= i < |r| ==> r[i] in slot;
      SymbolsRemove(slot, k);
      RemoveKeepsGrouped(Symbols(slot), k);
      DistinctRemove(slot, k);
    }

    /** Splicing a card out of the stage keeps the layout. */
    lemma LayoutUnstage(slot: seq<Card>, holding: seq<Card>, last: Option<UndoRecord>, k: nat)
      requires LayoutOf(slot, holding, last) && k < |holding|
      ensures LayoutOf(slot, RemoveAt(holding, k), last)
      ensures holding[k] !in RemoveAt(holding, k) && holding[k] !in slot
    {
      DistinctRemove(holding, k);
    }

    /** Moving the first `m` slot cards to the end of the stage keeps the
        layout. */
    lemma LayoutMove(slot: seq<Card>, holding: seq<Card>, last: Option<UndoRecord>, m: nat)
      requires LayoutOf(slot, holding, last) && m <= |slot|
      ensures LayoutOf(slot[m..], holding + slot[..m], last)
      ensures Distinct(slot[..m]) && forall i :: 0 <= i < m ==> slot[i] !in slot[m..]
      ensures forall j :: 0 <= j < |slot| - m ==> slot[m..][j] !in slot[..m]
    {
      var s, h := slot[m..], holding + slot[..m];
      MoveFront(slot, holding, m);
      assert forall i :: 0 <= i < |s| ==> s[i] in cards;
      assert forall i :: 0 <= i < |h| ==> h[i] in cards;
      assert forall i :: 0 <= i < |s| ==> s[i].state in {InFlight, InSlot, Cleared};
      SymbolsDrop(slot, m);
      DropKeepsGrouped(Symbols(slot), m);
    }

    /** Dropping the undo record keeps the layout. */
    lemma LayoutForget(slot: seq<Card>, holding: seq<Card>, last: Option<UndoRecord>)
      requires LayoutOf(slot, holding, last)
      ensures LayoutOf(slot, holding, None)
    {
    }

    /** The layout depends only on the controller's own fields and on the
        states and symbols of the slot cards. */
    twostate lemma LayoutFrame()
      requires old(Layout())
      requires slotCards == old(slotCards) && holdingCards == old(holdingCards) && lastCard == old(lastCard)
      requires forall i :: 0 <= i < |slotCards| ==>
                 slotCards[i].state in {InFlight, InSlot, Cleared} && slotCards[i].symbol == old(slotCards[i].symbol)
      ensures Layout()
    {
      assert Symbols(slotCards) == old(Symbols(slotCards));
    }

    /** The invariant depends only on the controller's own fields and on the
        cards' animations, states and symbols. */
    twostate lemma ValidFrame()
      requires old(Valid())
      requires slotCards == old(slotCards) && holdingCards == old(holdingCards)
      requires lastCard == old(lastCard) || (lastCard.Some? && lastCard.value.card in cards)
      requires forall c :: c in cards ==>
                 c.anim == old(c.anim) && c.state == old(c.state) && c.symbol == old(c.symbol)
      ensures Valid()
    {
      forall i | 0 <= i < |slotCards| ensures slotCards[i].state == old(slotCards[i].state) {
        assert slotCards[i] in cards;
      }
      SymbolsFrame(slotCards);
    }

    /** The invariant survives any change of the cards' states that leaves
        every slot card on its way in, settled or being cleared. */
    twostate lemma StatesFrame()
      requires old(Valid())
      requires slotCards == old(slotCards) && holdingCards == old(holdingCards) && lastCard == old(lastCard)
      requires forall i :: 0 <= i < |cards| ==> cards[i].anim == old(cards[i].anim) && cards[i].symbol == old(cards[i].symbol)
      requires forall i :: 0 <= i < |slotCards| ==> slotCards[i].state in {InFlight, InSlot, Cleared}
      ensures Valid()
    {
      forall i | 0 <= i < |slotCards| ensures slotCards[i].symbol == old(slotCards[i].symbol) {
        assert slotCards[i] in cards;
      }
      forall i | 0 <= i < |cards| ensures cards[i].Valid() {
        assert old(cards[i].Valid());
      }
      LayoutFrame();
    }

    /** Changing one card's animation to a valid one keeps every animation
        valid. */
    twostate lemma AnimsFrame(card: Card)
      requires old(AnimsValid()) && card.Valid()
      requires forall i :: 0 <= i < |cards| && cards[i] != card ==> cards[i].anim == old(cards[i].anim)
      ensures AnimsValid()
    {
      forall i | 0 <= i < |cards| ensures cards[i].Valid() {
        if cards[i] != card {
          assert old(cards[i].Valid());
        }
      }
    }

    /** The constructor and `initGame`: generates the level, scales every
        position into screen pixels, and starts with an empty slot and stage
        and two uses of each tool. */
    constructor (level: int, screenWidth: real, screenHeight: real, storedMax: int,
                 rand: nat -> real, next: nat)
      requires IsRandomStream(rand)
      ensures Valid()
      ensures currentLevel == level && width == screenWidth && height == screenHeight
      ensures rpx2px == screenWidth / 750.0
      ensures cardWidth == ToPx(90.0) && cardHeight == ToPx(110.0)
      ensures |cards| == LevelSize(level) && FreshRound(cards)
      ensures forall i :: 0 <= i < |cards| ==> Dealt(cards[i], i, level, rpx2px, rand, next)
      ensures slotCards == [] && holdingCards == [] && lastCard == None
      ensures undoLeft == 2 && shuffleLeft == 2 && removeLeft == 2
      ensures !isGameOver && outcome == Playing && storedMaxLevel == storedMax
    {
      var factor := screenWidth / 750.0;
      var generated := RoundCards(level, factor, rand, next);
      currentLevel, width, height, rpx2px := level, screenWidth, screenHeight, factor;
      cardWidth, cardHeight := 90.0 * factor, 110.0 * factor;
      cards := generated;
      slotCards, holdingCards, isGameOver := [], [], false;
      undoLeft, shuffleLeft, removeLeft := 2, 2, 2;
      lastCard := None;
      storedMaxLevel, outcome := storedMax, Playing;
      new;
      InitialValid();
    }

    /** A round of valid cards with an empty slot and stage is valid. */
    lemma InitialValid()
      requires slotCards == [] && holdingCards == [] && lastCard == None
      requires FreshRound(cards)
      ensures Valid()
    {
      assert Symbols(slotCards) == [];
    }

    /** `update`: one frame for every card, and a second one for every card
        on the stage, which is also in the card list. */
    method Update(dt: real, sinPi: real -> real, pi: real)
      requires Valid()
      modifies cards`x, cards`y, cards`scale, cards`rotation, cards`alpha, cards`anim
      ensures Valid()
      ensures forall i :: 0 <= i < |cards| ==>
                var c := cards[i];
                (c.anim, c.CurrentPose()) ==
                  if c in holdingCards then AdvanceTwice(old(c.anim), old(c.CurrentPose()), dt, sinPi, pi)
                  else Advance(old(c.anim), old(c.CurrentPose()), dt, sinPi, pi)
    {
      CardsDistinct();
      AdvanceFrame(dt, sinPi, pi);
      LayoutFrame();
    }

    /** The two loops of `update`, over the card list and then the stage. */
    method AdvanceFrame(dt: real, sinPi: real -> real, pi: real)
      requires Distinct(cards) && Distinct(holdingCards) && AnimsValid()
      requires forall i :: 0 <= i < |holdingCards| ==> holdingCards[i] in cards
      modifies cards`x, cards`y, cards`scale, cards`rotation, cards`alpha, cards`anim
      ensures AnimsValid()
      ensures forall i :: 0 <= i < |cards| ==>
                var c := cards[i];
                (c.anim, c.CurrentPose()) ==
                  if c in holdingCards then AdvanceTwice(old(c.anim), old(c.CurrentPose()), dt, sinPi, pi)
                  else Advance(old(c.anim), old(c.CurrentPose()), dt, sinPi, pi)
    {
      AdvanceAll(cards, dt, sinPi, pi);
      AdvanceAll(holdingCards, dt, sinPi, pi);
      forall i | 0 <= i < |cards|
        ensures var c := cards[i];
                (c.anim, c.CurrentPose()) ==
                  if c in holdingCards then AdvanceTwice(old(c.anim), old(c.CurrentPose()), dt, sinPi, pi)
                  else Advance(old(c.anim), old(c.CurrentPose()), dt, sinPi, pi)
      {
        var c := cards[i];
        if c in holdingCards {
          var j := IndexOf(holdingCards, c);
          assert holdingCards[j] == c;
        }
      }
    }

    // -------------------------------------------------------------------
    // Slot layout

    /** What `updateSlotLayout` does to the card at slot index `i` whose
        animation was `before`: a settled card at rest more than one pixel
        away (horizontally) from slot position `i` flies there; any other card
        keeps its animation. */
    function RelaidAnim(c: Card, i: nat, before: Animation): Animation
      reads c`state, c`x, c`y
    {
      if c.state == InSlot && !before.animating && Abs(c.x - SlotTargetX(i)) > 1.0 then
        Animation(true, Fly, c.x, c.y, SlotTargetX(i), SlotTargetY(), 0.0, FlyDuration)
      else before
    }

    /** A relaid card ends up animating towards its slot position or keeps
        its animation, and a card that is on its way already is left alone. */
    lemma RelaidAnimMeaning(c: Card, i: nat, before: Animation)
      ensures RelaidAnim(c, i, before) == before ||
              (RelaidAnim(c, i, before).animating && RelaidAnim(c, i, before).kind == Fly &&
               RelaidAnim(c, i, before).targetX == SlotTargetX(i) && RelaidAnim(c, i, before).targetY == SlotTargetY())
      ensures before.animating || c.state != InSlot ==> RelaidAnim(c, i, before) == before
      ensures Abs(c.x - SlotTargetX(i)) <= 1.0 ==> RelaidAnim(c, i, before) == before
    {
    }

    /** `updateSlotLayout`. */
    method UpdateSlotLayout()
      requires Valid()
      modifies slotCards`anim
      ensures Valid()
      ensures forall i :: 0 <= i < |slotCards| ==>
                var c := slotCards[i]; c.anim == RelaidAnim(c, i, old(c.anim))
      ensures CoverFlagsHold(cards, cardWidth, cardHeight) == old(CoverFlagsHold(cards, cardWidth, cardHeight))
    {
      RelaySlot();
      LayoutFrame();
    }

    /** The loop of `updateSlotLayout`: each slot card in turn is relaid. */
    method RelaySlot()
      requires Distinct(slotCards) && AnimsValid()
      modifies slotCards`anim
      ensures AnimsValid()
      ensures forall i :: 0 <= i < |slotCards| ==>
                var c := slotCards[i]; c.anim == RelaidAnim(c, i, old(c.anim))
    {
      for i := 0 to |slotCards|
        invariant AnimsValid()
        invariant forall k :: 0 <= k < i ==> var c := slotCards[k]; c.anim == RelaidAnim(c, k, old(c.anim))
        invariant forall k :: i <= k < |slotCards| ==> slotCards[k].anim == old(slotCards[k].anim)
      {
        var c := slotCards[i];
        if c.state == InSlot && !c.anim.animating && Abs(c.x - SlotTargetX(i)) > 1.0 {
          label Before:
          c.StartFlyAnimation(SlotTargetX(i), SlotTargetY());
          AnimsFrame@Before(c);
        }
      }
    }

    // -------------------------------------------------------------------
    // Tap routing

    /** The first card of the stage list `s` a tap at (px, py) can take: the
        `for … of` scan over `holdingCards`. */
    function FirstTappable(s: seq<Card>, px: real, py: real): (r: Option<Card>)
      reads s
      ensures r.Some? ==> r.value in s && Tappable(r.value, px, py)
      ensures r.Some? ==> forall j :: 0 <= j < IndexOf(s, r.value) ==> !Tappable(s[j], px, py)
      ensures r.None? <==> forall j :: 0 <= j < |s| ==> !Tappable(s[j], px, py)
    {
      if s == [] then None
      else if Tappable(s[0], px, py) then Some(s[0])
      else FirstTappable(s[1..], px, py)
    }

    /** A card the board scan may take: on the board or staged, and
        tappable. */
    predicate BoardCandidate(c: Card, px: real, py: real)
      reads c
    {
      (c.state == OnBoard || c.state == Staged) && Tappable(c, px, py)
    }

    /** The index of the card the board scan takes. The scan runs over the
        cards stably sorted by descending layer, so it takes a candidate of
        the highest layer, and of the lowest index among candidates of that
        layer. */
    function TopCandidate(s: seq<Card>, px: real, py: real): (r: Option<nat>)
      reads s
      ensures r.Some? ==> r.value < |s| && BoardCandidate(s[r.value], px, py)
      ensures r.Some? ==> forall j :: 0 <= j < |s| && BoardCandidate(s[j], px, py) ==>
                s[j].layer < s[r.value].layer || (s[j].layer == s[r.value].layer && r.value <= j)
      ensures r.None? <==> forall j :: 0 <= j < |s| ==> !BoardCandidate(s[j], px, py)
    {
      if s == [] then None
      else
        var n := |s| - 1;
        var best := TopCandidate(s[..n], px, py);
        if BoardCandidate(s[n], px, py) && (best.None? || s[n].layer > s[best.value].layer) then Some(n)
        else best
    }

    /** The stage scan of `onTouchEnd`. */
    method PickHolding(px: real, py: real) returns (r: Option<Card>)
      ensures r == FirstTappable(holdingCards, px, py)
    {
      for i := 0 to |holdingCards|
        invariant FirstTappable(holdingCards[i..], px, py) == FirstTappable(holdingCards, px, py)
      {
        if Tappable(holdingCards[i], px, py) {
          return Some(holdingCards[i]);
        }
        assert holdingCards[i..][1..] == holdingCards[i + 1..];
      }
      return None;
    }

    /** The board scan of `onTouchEnd`, over the cards in layer order. */
    method PickBoard(px: real, py: real) returns (r: Option<Card>)
      ensures r == if TopCandidate(cards, px, py).Some? then Some(cards[TopCandidate(cards, px, py).value]) else None
    {
      var best: Option<nat> := None;
      for i := 0 to |cards|
        invariant best == TopCandidate(cards[..i], px, py)
      {
        assert cards[..i + 1][..i] == cards[..i];
        if BoardCandidate(cards[i], px, py) && (best.None? || cards[i].layer > cards[best.value].layer) {
          best := Some(i);
        }
      }
      assert cards[..|cards|] == cards;
      r := if best.Some? then Some(cards[best.value]) else None;
    }

    // -------------------------------------------------------------------
    // Taking a card

    /** The insertion scan of `handleCardClick`: `findIndex` for the first
        card of symbol `t`, then the walk to the end of its run. */
    method FindInsertionIndex(t: nat) returns (k: nat)
      ensures k == InsertionPoint(Symbols(slotCards), t)
    {
      ghost var s := Symbols(slotCards);
      k := |slotCards|;
      var first := 0;
      while first < |slotCards| && slotCards[first].symbol != t
        invariant first <= |slotCards| && t !in s[..first]
      {
        assert s[..first + 1] == s[..first] + [s[first]];
        first := first + 1;
      }
      if first < |slotCards| {
        IndexOfUnique(s, t, first);
        var i := first;
        while i < |slotCards| && slotCards[i].symbol == t
          invariant first <= i <= |slotCards|
          invariant RunEnd(s, i, t) == RunEnd(s, first, t)
          invariant k == if i == first then |slotCards| else i
        {
          k := i + 1;
          i := i + 1;
        }
      } else {
        assert s[..first] == s;
      }
    }

    /** A click that took `card`, against the slot `slot0` and the looks
        `before` of the cards before it: the card is spliced into the slot
        behind the first run of its symbol, marked in flight, enlarged by the
        click effect, flies to its slot position and becomes the undo record;
        the cover flags are recomputed and the other slot cards are laid out
        again; every other card keeps its state and scale, and every card
        outside the slot other than `card` keeps its animation. */
    ghost predicate Took(card: Card, slot0: seq<Card>, before: seq<Looks>)
      reads this, cards, slotCards, slot0, card
    {
      var k := InsertionPoint(Symbols(slot0), card.symbol);
      slotCards == InsertAt(slot0, k, card) &&
      card.state == InFlight && card.scale == ClickScale &&
      card.anim == Animation(true, Fly, card.x, card.y, SlotTargetX(k), SlotTargetY(), 0.0, FlyDuration) &&
      lastCard == Some(UndoRecord(card, card.x, card.y)) &&
      |before| == |cards| &&
      (forall i :: 0 <= i < |slotCards| && slotCards[i] != card ==>
         var c := slotCards[i]; 0 <= c.id < |before| && c.anim == RelaidAnim(c, i, before[c.id].anim)) &&
      (forall i :: 0 <= i < |cards| && cards[i] != card ==>
         cards[i].state == before[i].state && cards[i].scale == before[i].scale) &&
      (forall i :: 0 <= i < |cards| && cards[i] != card && cards[i] !in slotCards ==>
         cards[i].anim == before[i].anim) &&
      CoverFlagsHold(cards, cardWidth, cardHeight)
    }

    /** A tap that takes nothing, against the slot `slot0`, the undo record
        `last0` and the looks `before` of the cards before it: all are as
        they were. */
    ghost predicate Untouched(slot0: seq<Card>, last0: Option<UndoRecord>, before: seq<Looks>)
      reads this, cards
    {
      slotCards == slot0 && lastCard == last0 && LooksOf(cards) == before
    }

    /** `handleCardClick`: with the slot full, nothing happens; otherwise the
        card is taken into the slot. The settle-and-match step that the
        source runs on a timer is returned for the caller to run. */
    method HandleCardClick(card: Card) returns (settle: Option<Card>)
      requires Valid() && card in cards && card !in slotCards && card !in holdingCards
      modifies this`slotCards, this`lastCard, cards`state, cards`scale, cards`anim, cards`isCovered
      ensures Valid()
      ensures old(|slotCards|) >= MaxSlot ==> settle == None && Untouched(old(slotCards), old(lastCard), old(LooksOf(cards)))
      ensures old(|slotCards|) < MaxSlot ==> settle == Some(card) && Took(card, old(slotCards), old(LooksOf(cards)))
    {
      if |slotCards| >= MaxSlot {
        return None;
      }
      ghost var slot0 := slotCards;
      ClickIn(card);
      SymbolsFrame(slot0);
      TookShown(card);
      settle := Some(card);
    }

    /** `handleCardClick` once the slot has room. */
    method ClickIn(card: Card)
      requires Valid() && card in cards && card !in slotCards && card !in holdingCards
      requires |slotCards| < MaxSlot
      modifies this`slotCards, this`lastCard, cards`state, cards`scale, cards`anim, cards`isCovered
      ensures Valid()
      ensures var k := InsertionPoint(old(Symbols(slotCards)), card.symbol);
              slotCards == InsertAt(old(slotCards), k, card) &&
              card.state == InFlight && card.scale == ClickScale &&
              card.anim == Animation(true, Fly, card.x, card.y, SlotTargetX(k), SlotTargetY(), 0.0, FlyDuration) &&
              lastCard == Some(UndoRecord(card, card.x, card.y)) &&
              (forall i :: 0 <= i < |slotCards| && slotCards[i] != card ==>
                 var c := slotCards[i]; c.anim == RelaidAnim(c, i, old(c.anim))) &&
              (forall i :: 0 <= i < |cards| && cards[i] != card ==>
                 cards[i].state == old(cards[i].state) && cards[i].scale == old(cards[i].scale)) &&
              (forall i :: 0 <= i < |cards| && cards[i] != card && cards[i] !in slotCards ==>
                 cards[i].anim == old(cards[i].anim)) &&
              CoverFlagsHold(cards, cardWidth, cardHeight)
    {
      var k := TakeCard(card);
      Launch(card, k);
    }

    /** The facts `TakeCard` and `Launch` establish, packaged as `Took`. */
    twostate lemma TookShown(card: Card)
      requires Symbols(old(slotCards)) == old(Symbols(slotCards))
      requires slotCards == InsertAt(old(slotCards), InsertionPoint(old(Symbols(slotCards)), card.symbol), card)
      requires forall i :: 0 <= i < |slotCards| ==> slotCards[i] in cards
      requires forall i :: 0 <= i < |cards| ==> cards[i].id == i
      requires card.state == InFlight && card.scale == ClickScale
      requires var k := InsertionPoint(old(Symbols(slotCards)), card.symbol);
               card.anim == Animation(true, Fly, card.x, card.y, SlotTargetX(k), SlotTargetY(), 0.0, FlyDuration)
      requires lastCard == Some(UndoRecord(card, card.x, card.y))
      requires forall i :: 0 <= i < |slotCards| && slotCards[i] != card ==>
                 var c := slotCards[i]; c.anim == RelaidAnim(c, i, old(c.anim))
      requires forall i :: 0 <= i < |cards| && cards[i] != card ==>
                 cards[i].state == old(cards[i].state) && cards[i].scale == old(cards[i].scale)
      requires forall i :: 0 <= i < |cards| && cards[i] != card && cards[i] !in slotCards ==>
                 cards[i].anim == old(cards[i].anim)
      requires CoverFlagsHold(cards, cardWidth, cardHeight)
      ensures Took(card, old(slotCards), old(LooksOf(cards)))
    {
      ghost var before := old(LooksOf(cards));
      forall i | 0 <= i < |slotCards| && slotCards[i] != card
        ensures 0 <= slotCards[i].id < |before| && slotCards[i].anim == RelaidAnim(slotCards[i], i, before[slotCards[i].id].anim)
      {
        var j :| 0 <= j < |cards| && cards[j] == slotCards[i];
      }
    }

    /** The first half of `handleCardClick`: the click effect, then the
        splice behind the first run of the card's symbol and the in-flight
        mark. */
    method TakeCard(card: Card) returns (k: nat)
      requires Valid() && card in cards && card !in slotCards && card !in holdingCards
      requires |slotCards| < MaxSlot
      modifies this`slotCards, card`state, card`scale
      ensures Valid()
      ensures k == InsertionPoint(old(Symbols(slotCards)), card.symbol)
      ensures slotCards == InsertAt(old(slotCards), k, card)
      ensures card.state == InFlight && card.scale == ClickScale
    {
      card.TriggerClickEffect();
      ValidFrame();
      SymbolsFrame(slotCards);
      k := InsertSlot(card);
    }

    /** The splice of `handleCardClick` and the in-flight mark. */
    method InsertSlot(card: Card) returns (k: nat)
      requires Valid() && card in cards && card !in slotCards && card !in holdingCards
      requires |slotCards| < MaxSlot
      modifies this`slotCards, card`state
      ensures Valid()
      ensures k == InsertionPoint(old(Symbols(slotCards)), card.symbol)
      ensures slotCards == InsertAt(old(slotCards), k, card) && card.state == InFlight
    {
      ghost var before := Symbols(slotCards);
      k := FindInsertionIndex(card.symbol);
      assert Symbols(slotCards) == before && Valid();
      PlaceCard(card, k);
    }

    /** The in-flight mark and the splice at the insertion point `k`. */
    method PlaceCard(card: Card, k: nat)
      requires Valid() && card in cards && card !in slotCards && card !in holdingCards
      requires |slotCards| < MaxSlot && k == InsertionPoint(Symbols(slotCards), card.symbol)
      modifies this`slotCards, card`state
      ensures Valid() && slotCards == InsertAt(old(slotCards), k, card) && card.state == InFlight
    {
      MarkInFlight(card);
      SpliceIn(card, k);
    }

    /** A card outside the slot set in flight keeps the invariant. */
    method MarkInFlight(card: Card)
      requires Valid() && card !in slotCards
      modifies card`state
      ensures Valid() && card.state == InFlight
      ensures Symbols(slotCards) == old(Symbols(slotCards))
    {
      card.state := InFlight;
      SymbolsFrame(slotCards);
      LayoutFrame();
    }

    /** The splice itself: the card in flight enters the slot at its
        insertion point. */
    method SpliceIn(card: Card, k: nat)
      requires Valid() && card in cards && card !in slotCards && card !in holdingCards
      requires |slotCards| < MaxSlot && card.state == InFlight
      requires k == InsertionPoint(Symbols(slotCards), card.symbol)
      modifies this`slotCards
      ensures Valid() && slotCards == InsertAt(old(slotCards), k, card)
    {
      InsertKeepsGrouped(Symbols(slotCards), card.symbol);
      LayoutInsert(slotCards, holdingCards, lastCard, k, card);
      slotCards := InsertAt(slotCards, k, card);
    }

    /** The second half of `handleCardClick`: the card at slot index `k`
        flies there, the cover flags and the slot layout are refreshed, and
        the card becomes the undo record. */
    method Launch(card: Card, k: nat)
      requires Valid() && k < |slotCards| && slotCards[k] == card && card.state == InFlight
      modifies this`lastCard, cards`isCovered, slotCards`anim
      ensures Valid()
      ensures card.anim == Animation(true, Fly, card.x, card.y, SlotTargetX(k), SlotTargetY(), 0.0, FlyDuration)
      ensures forall i :: 0 <= i < |slotCards| && slotCards[i] != card ==>
                var c := slotCards[i]; c.anim == RelaidAnim(c, i, old(c.anim))
      ensures CoverFlagsHold(cards, cardWidth, cardHeight)
      ensures lastCard == Some(UndoRecord(card, card.x, card.y))
    {
      FlyAndRelay(card, k);
      Record(card);
    }

    /** The card at slot index `k` starts flying there; then the cover flags
        and the rest of the slot are refreshed, which leaves a card in flight
        alone. */
    method FlyAndRelay(card: Card, k: nat)
      requires Valid() && k < |slotCards| && slotCards[k] == card && card.state == InFlight
      modifies cards`isCovered, slotCards`anim
      ensures Valid()
      ensures card.anim == Animation(true, Fly, card.x, card.y, SlotTargetX(k), SlotTargetY(), 0.0, FlyDuration)
      ensures forall i :: 0 <= i < |slotCards| && slotCards[i] != card ==>
                var c := slotCards[i]; c.anim == RelaidAnim(c, i, old(c.anim))
      ensures CoverFlagsHold(cards, cardWidth, cardHeight)
    {
      FlyIn(card, k);
      RefreshAndRelay();
    }

    /** The card at slot index `k` starts flying to slot position `k`. */
    method FlyIn(card: Card, k: nat)
      requires Valid() && k < |slotCards| && slotCards[k] == card
      modifies card`anim
      ensures Valid()
      ensures card.anim == Animation(true, Fly, card.x, card.y, SlotTargetX(k), SlotTargetY(), 0.0, FlyDuration)
    {
      card.StartFlyAnimation(SlotTargetX(k), SlotTargetY());
      AnimsFrame(card);
      LayoutFrame();
    }

    /** The refreshes after a tap or an undo: the cover flags are recomputed
        and the slot is laid out again. */
    method RefreshAndRelay()
      requires Valid()
      modifies cards`isCovered, slotCards`anim
      ensures Valid() && CoverFlagsHold(cards, cardWidth, cardHeight)
      ensures forall i :: 0 <= i < |slotCards| ==>
                var c := slotCards[i]; c.anim == RelaidAnim(c, i, old(c.anim))
    {
      RefreshCover();
      UpdateSlotLayout();
    }

    /** The undo record of `handleCardClick`: the tapped card and where it
        stands. */
    method Record(card: Card)
      requires Valid() && card in cards
      modifies this`lastCard
      ensures Valid()
      ensures lastCard == Some(UndoRecord(card, card.x, card.y))
    {
      lastCard := Some(UndoRecord(card, card.x, card.y));
      ValidFrame();
    }

    /** Undoing a tap right away restores the slot: the tapped card is found
        where it was inserted and splicing it out gives back the old slot. */
    lemma UndoRestoresSlot(s: seq<Card>, c: Card)
      requires c !in s
      ensures var t := InsertAt(s, InsertionPoint(Symbols(s), c.symbol), c);
              IndexOf(t, c) == InsertionPoint(Symbols(s), c.symbol) && RemoveAt(t, IndexOf(t, c)) == s
    {
      InsertRemoveRoundTrip(s, InsertionPoint(Symbols(s), c.symbol), c);
    }

    /** `onTouchEnd`, card part: a tappable stage card is spliced out of the
        stage first, whether or not the slot can take it; otherwise the top
        tappable board or staged card is taken. */
    method OnTouchEnd(px: real, py: real) returns (settle: Option<Card>)
      requires Valid()
      modifies this`slotCards, this`holdingCards, this`lastCard, cards`state, cards`scale, cards`anim, cards`isCovered
      ensures Valid()
      ensures var h := old(FirstTappable(holdingCards, px, py));
              h.Some? ==>
                holdingCards == RemoveAt(old(holdingCards), IndexOf(old(holdingCards), h.value)) &&
                (old(|slotCards|) < MaxSlot ==> settle == Some(h.value) && Took(h.value, old(slotCards), old(LooksOf(cards)))) &&
                (old(|slotCards|) >= MaxSlot ==> settle == None && Untouched(old(slotCards), old(lastCard), old(LooksOf(cards))))
      ensures var h, b := old(FirstTappable(holdingCards, px, py)), old(TopCandidate(cards, px, py));
              h.None? && b.Some? ==>
                holdingCards == old(holdingCards) &&
                (old(|slotCards|) < MaxSlot ==> settle == Some(cards[b.value]) && Took(cards[b.value], old(slotCards), old(LooksOf(cards)))) &&
                (old(|slotCards|) >= MaxSlot ==> settle == None && Untouched(old(slotCards), old(lastCard), old(LooksOf(cards))))
      ensures var h, b := old(FirstTappable(holdingCards, px, py)), old(TopCandidate(cards, px, py));
              h.None? && b.None? ==>
                settle == None && holdingCards == old(holdingCards) && Untouched(old(slotCards), old(lastCard), old(LooksOf(cards)))
    {
      ghost var before := LooksOf(cards);
      var held := PickHolding(px, py);
      assert LooksOf(cards) == before && Valid();
      if held.Some? {
        settle := TapStaged(held.value);
        return;
      }
      settle := TapBoard(px, py);
    }

    /** A tap that hits no stage card: the board scan, then the click on the
        card it finds. */
    method TapBoard(px: real, py: real) returns (settle: Option<Card>)
      requires Valid() && FirstTappable(holdingCards, px, py).None?
      modifies this`slotCards, this`lastCard, cards`state, cards`scale, cards`anim, cards`isCovered
      ensures Valid()
      ensures var b := old(TopCandidate(cards, px, py));
              b.Some? ==>
                (old(|slotCards|) < MaxSlot ==> settle == Some(cards[b.value]) && Took(cards[b.value], old(slotCards), old(LooksOf(cards)))) &&
                (old(|slotCards|) >= MaxSlot ==> settle == None && Untouched(old(slotCards), old(lastCard), old(LooksOf(cards))))
      ensures old(TopCandidate(cards, px, py)).None? ==> settle == None && Untouched(old(slotCards), old(lastCard), old(LooksOf(cards)))
    {
      ghost var before := LooksOf(cards);
      var picked := PickBoard(px, py);
      assert LooksOf(cards) == before && Valid();
      if picked.Some? {
        settle := HandleCardClick(picked.value);
        return;
      }
      settle := None;
    }

    /** A tap on a stage card: it leaves the stage, then is handled as a
        click, which leaves it out when the slot is full. */
    method TapStaged(card: Card) returns (settle: Option<Card>)
      requires Valid() && card in holdingCards
      modifies this`slotCards, this`holdingCards, this`lastCard, cards`state, cards`scale, cards`anim, cards`isCovered
      ensures Valid()
      ensures holdingCards == RemoveAt(old(holdingCards), IndexOf(old(holdingCards), card))
      ensures old(|slotCards|) < MaxSlot ==> settle == Some(card) && Took(card, old(slotCards), old(LooksOf(cards)))
      ensures old(|slotCards|) >= MaxSlot ==> settle == None && Untouched(old(slotCards), old(lastCard), old(LooksOf(cards)))
    {
      var idx := IndexOf(holdingCards, card);
      if idx > -1 {
        Unstage(idx);
      }
      settle := HandleCardClick(card);
    }

    /** The splice of a tapped card out of the stage list. */
    method Unstage(idx: nat)
      requires Valid() && idx < |holdingCards|
      modifies this`holdingCards
      ensures Valid()
      ensures holdingCards == RemoveAt(old(holdingCards), idx)
      ensures old(holdingCards)[idx] !in holdingCards && old(holdingCards)[idx] !in slotCards
    {
      LayoutUnstage(slotCards, holdingCards, lastCard, idx);
      holdingCards := RemoveAt(holdingCards, idx);
    }

    // -------------------------------------------------------------------
    // Settling, matching and clearing

    /** `checkMatch`: the matched cards are marked cleared. The later clear
        steps receive them. */
    method CheckMatch() returns (matched: Option<seq<Card>>)
      requires Valid()
      modifies cards`state
      ensures Valid() && slotCards == old(slotCards)
      ensures matched == old(MatchedCards(slotCards))
      ensures forall i :: 0 <= i < |cards| ==>
                cards[i].state == if matched.Some? && cards[i] in matched.value then Cleared else old(cards[i].state)
      ensures matched.Some? ==> ClearedMatch(slotCards, matched.value)
      ensures matched.None? ==> NoTriple(slotCards)
    {
      matched := FindMatch(slotCards);
      MatchedCardsFrame(slotCards);
      if matched.None? {
        ValidFrame();
        NoMatchMeaning(slotCards);
        return;
      }
      MatchedCardsShape(slotCards);
      MarkMatched(matched.value);
    }

    /** The marking of `checkMatch`: slot cards become cleared. */
    method MarkMatched(m: seq<Card>)
      requires Valid() && forall i :: 0 <= i < |m| ==> m[i] in slotCards
      modifies m`state
      ensures Valid()
      ensures forall i :: 0 <= i < |m| ==> m[i].state == Cleared
    {
      MarkCleared(m);
      forall i | 0 <= i < |slotCards| ensures slotCards[i].state in {InFlight, InSlot, Cleared} {
        if slotCards[i] !in m {
          assert slotCards[i].state == old(slotCards[i].state);
        }
      }
      StatesFrame();
    }

    /** The board is cleared: no card left on the board and an empty slot. */
    predicate BoardCleared()
      reads this`slotCards, cards`state
    {
      CountState(cards, OnBoard) == 0 && |slotCards| == 0
    }

    /** The loss condition of `checkGameStatus`: nothing in flight, at least
        seven settled cards, and nothing being cleared. */
    predicate Jammed()
      reads this`slotCards, slotCards`state
    {
      CountState(slotCards, InFlight) == 0 && CountState(slotCards, InSlot) >= MaxSlot &&
      CountState(slotCards, Cleared) == 0
    }

    /** A round is lost only on a full slot of settled cards. */
    lemma JammedMeansFull()
      requires |slotCards| <= MaxSlot && Jammed()
      ensures |slotCards| == MaxSlot
      ensures forall i :: 0 <= i < |slotCards| ==> slotCards[i].state == InSlot
    {
      CountStateMeaning(slotCards, InSlot);
    }

    /** A won round has no loss condition. */
    lemma ClearedIsNotJammed()
      requires BoardCleared()
      ensures !Jammed()
    {
    }

    /** `checkGameStatus`. */
    method CheckGameStatus()
      requires Valid()
      modifies this`isGameOver, this`storedMaxLevel, this`outcome
      ensures Valid()
      ensures isGameOver == (old(isGameOver) || BoardCleared())
      ensures storedMaxLevel == if BoardCleared() then currentLevel + 1 else old(storedMaxLevel)
      ensures outcome == if Jammed() then Lost else old(outcome)
      ensures outcome == Lost && old(outcome) != Lost ==>
                |slotCards| == MaxSlot && forall i :: 0 <= i < |slotCards| ==> slotCards[i].state == InSlot
    {
      if CountState(cards, OnBoard) == 0 && |slotCards| == 0 {
        isGameOver, storedMaxLevel := true, currentLevel + 1;
      }
      CheckJam();
    }

    /** The loss check of `checkGameStatus`: a slot with nothing in flight,
        at least seven settled cards and nothing being cleared loses. */
    method CheckJam()
      requires |slotCards| <= MaxSlot
      modifies this`outcome
      ensures outcome == if Jammed() then Lost else old(outcome)
      ensures outcome == Lost && old(outcome) != Lost ==>
                |slotCards| == MaxSlot && forall i :: 0 <= i < |slotCards| ==> slotCards[i].state == InSlot
    {
      if CountState(slotCards, InFlight) > 0 {
        return;
      }
      if CountState(slotCards, InSlot) >= MaxSlot {
        if CountState(slotCards, Cleared) == 0 {
          outcome := Lost;
          JammedMeansFull();
        }
      }
    }

    /** `checkWin`. */
    method CheckWin()
      requires Valid()
      modifies this`storedMaxLevel, this`outcome
      ensures Valid()
      ensures storedMaxLevel == if BoardCleared() then currentLevel + 1 else old(storedMaxLevel)
      ensures outcome == if BoardCleared() then Won else old(outcome)
    {
      if CountState(cards, OnBoard) == 0 && |slotCards| == 0 {
        storedMaxLevel := currentLevel + 1;
        outcome := Won;
      }
    }

    /** The settle step scheduled by a tap: the card is marked settled, then
        the match check and the status check run. A loss is declared only on
        a full slot of settled cards in which no symbol is settled three
        times. */
    method Settle(card: Card) returns (matched: Option<seq<Card>>)
      requires Valid() && card in cards
      modifies cards`state, this`isGameOver, this`storedMaxLevel, this`outcome
      ensures Valid() && slotCards == old(slotCards) && holdingCards == old(holdingCards)
      ensures isGameOver == (old(isGameOver) || BoardCleared())
      ensures storedMaxLevel == if BoardCleared() then currentLevel + 1 else old(storedMaxLevel)
      ensures outcome == if Jammed() then Lost else old(outcome)
      ensures outcome == Lost && old(outcome) != Lost ==>
                matched.None? && |slotCards| == MaxSlot &&
                forall i :: 0 <= i < |slotCards| ==> slotCards[i].state == InSlot
    {
      matched := SettleAndMatch(card);
      CheckGameStatus();
    }

    /** The card-state half of the settle step: the card is marked settled,
        then `checkMatch` runs. */
    method SettleAndMatch(card: Card) returns (matched: Option<seq<Card>>)
      requires Valid() && card in cards
      modifies cards`state
      ensures Valid()
      ensures forall i :: 0 <= i < |cards| ==>
                cards[i].state == if matched.Some? && cards[i] in matched.value then Cleared
                                  else if cards[i] == card then InSlot else old(cards[i].state)
      ensures matched.Some? ==> |matched.value| == MatchSize && ClearedMatch(slotCards, matched.value)
      ensures matched.None? ==> NoTriple(slotCards)
      ensures matched.Some? ==> !Jammed()
    {
      SettleCard(card);
      matched := CheckMatch();
      if matched.Some? {
        MatchedCardsMeaningAfter(matched.value);
      }
    }

    /** `card.state = 1`: the tapped card has landed. */
    method SettleCard(card: Card)
      requires Valid() && card in cards
      modifies card`state
      ensures Valid() && card.state == InSlot
    {
      card.state := InSlot;
      StatesFrame();
    }

    /** After the check, the matched cards are cleared slot cards of one
        symbol, so no loss is declared on that slot. */
    lemma MatchedCardsMeaningAfter(m: seq<Card>)
      requires Layout()
      requires |m| == MatchSize && forall i :: 0 <= i < |m| ==> m[i] in slotCards && m[i].state == Cleared
      ensures !Jammed()
    {
      var i := IndexOf(slotCards, m[0]);
      assert slotCards[i].state == Cleared;
      CountStateMeaning(slotCards, Cleared);
    }

    /** The clear-start step: every matched card flies, shrinking and fading,
        to the point `toPx(200)` above the middle one. */
    method ClearStart(matched: seq<Card>)
      requires Valid() && |matched| == MatchSize
      requires forall i :: 0 <= i < |matched| ==> matched[i] in cards
      modifies matched`anim
      ensures Valid()
      ensures forall i :: 0 <= i < |matched| ==>
                matched[i].anim == Animation(true, Match, matched[i].x, matched[i].y,
                                             matched[1].x, matched[1].y - ToPx(200.0), 0.0, MatchDuration)
    {
      var targetX := matched[1].x;
      var targetY := matched[1].y - ToPx(200.0);
      for i := 0 to |matched|
        invariant AnimsValid()
        invariant forall k :: 0 <= k < i ==>
                    matched[k].anim == Animation(true, Match, matched[k].x, matched[k].y, targetX, targetY, 0.0, MatchDuration)
      {
        matched[i].StartMatchAnimation(targetX, targetY);
      }
      LayoutFrame();
    }

    /** The splices of the clear-removal step. */
    method RemoveMatched(matched: seq<Card>)
      requires Valid()
      modifies this`slotCards
      ensures Valid()
      ensures slotCards == Except(old(slotCards), matched)
    {
      ghost var slot := slotCards;
      assert LayoutOf(slot, holdingCards, lastCard);
      slotCards := SpliceOut(slotCards, matched);
      LayoutExcept(slot, holdingCards, lastCard, matched);
    }

    /** Taking any cards out of the slot keeps the layout. */
    lemma {:induction false} LayoutExcept(slot: seq<Card>, holding: seq<Card>, last: Option<UndoRecord>, drop: seq<Card>)
      requires LayoutOf(slot, holding, last)
      ensures LayoutOf(Except(slot, drop), holding, last)
    {
      if drop == [] {
        ExceptNone(slot, drop);
      } else {
        var n := |drop| - 1;
        assert drop[..n + 1] == drop;
        LayoutExcept(slot, holding, last, drop[..n]);
        var s := Except(slot, drop[..n]);
        ExceptStep(slot, drop, n);
        if drop[n] in s {
          RemoveIsExcept(s, drop[n]);
          LayoutRemove(s, holding, last, IndexOf(s, drop[n]));
        } else {
          ExceptNone(s, [drop[n]]);
        }
      }
    }

    /** The clear-removal step: the matched cards leave the slot, which keeps
        the order of the rest; the slot is laid out again, then the win check
        and the status check run. */
    method ClearRemove(matched: seq<Card>)
      requires Valid()
      modifies this`slotCards, slotCards`anim, this`isGameOver, this`storedMaxLevel, this`outcome
      ensures Valid()
      ensures slotCards == Except(old(slotCards), matched)
      ensures isGameOver == (old(isGameOver) || BoardCleared())
      ensures storedMaxLevel == if BoardCleared() then currentLevel + 1 else old(storedMaxLevel)
      ensures outcome == if BoardCleared() then Won else if Jammed() then Lost else old(outcome)
    {
      RemoveAndRelay(matched);
      FinishClear();
    }

    /** The splices of the clear-removal step and the new slot layout. */
    method RemoveAndRelay(matched: seq<Card>)
      requires Valid()
      modifies this`slotCards, slotCards`anim
      ensures Valid()
      ensures slotCards == Except(old(slotCards), matched)
      ensures forall i :: 0 <= i < |slotCards| ==>
                var c := slotCards[i]; c.anim == RelaidAnim(c, i, old(c.anim))
    {
      RemoveMatched(matched);
      UpdateSlotLayout();
    }

    /** The checks that end the clear-removal step: a cleared board is won,
        and is never declared lost. */
    method FinishClear()
      requires Valid()
      modifies this`isGameOver, this`storedMaxLevel, this`outcome
      ensures Valid()
      ensures isGameOver == (old(isGameOver) || BoardCleared())
      ensures storedMaxLevel == if BoardCleared() then currentLevel + 1 else old(storedMaxLevel)
      ensures outcome == if BoardCleared() then Won else if Jammed() then Lost else old(outcome)
    {
      if BoardCleared() {
        ClearedIsNotJammed();
      }
      CheckWin();
      CheckGameStatus();
    }

    /** `updateCoverState` on the round's cards: every cover flag is
        recomputed; the shuffle tool schedules it as a step of its own. */
    method RefreshCover()
      requires Valid()
      modifies cards`isCovered
      ensures Valid()
      ensures CoverFlagsHold(cards, cardWidth, cardHeight)
    {
      var _ := UpdateCoverState(cards, cardWidth, cardHeight);
      ValidFrame();
    }

    // -------------------------------------------------------------------
    // Tools

    /** The undo tool applies: a use is left, there is an undo record, and
        its card is still in the slot. */
    predicate UndoApplies()
      reads this`undoLeft, this`lastCard, this`slotCards
    {
      undoLeft > 0 && lastCard.Some? && lastCard.value.card in slotCards
    }

    /** `useUndo`: the recorded card leaves the slot, goes back on the board
        and flies back to where it stood; one use is spent and the record is
        dropped; the cover flags and the slot layout are refreshed. When the
        tool does not apply nothing changes, and a record whose card has left
        the slot is kept. */
    method UseUndo()
      requires Valid()
      modifies this`slotCards, this`undoLeft, this`lastCard, cards`state, cards`anim, cards`isCovered
      ensures Valid()
      ensures !old(UndoApplies()) ==>
                slotCards == old(slotCards) && undoLeft == old(undoLeft) && lastCard == old(lastCard) &&
                forall i :: 0 <= i < |cards| ==> unchanged(cards[i])
      ensures old(UndoApplies()) ==>
                var r := old(lastCard).value;
                slotCards == RemoveAt(old(slotCards), old(IndexOf(slotCards, r.card))) &&
                r.card.state == OnBoard &&
                r.card.anim == Animation(true, Fly, r.card.x, r.card.y, r.originX, r.originY, 0.0, FlyDuration) &&
                undoLeft == old(undoLeft) - 1 && lastCard == None &&
                (forall i :: 0 <= i < |slotCards| ==> var c := slotCards[i]; c.anim == RelaidAnim(c, i, old(c.anim))) &&
                (forall i :: 0 <= i < |cards| && cards[i] != r.card ==> cards[i].state == old(cards[i].state)) &&
                (forall i :: 0 <= i < |cards| && cards[i] != r.card && cards[i] !in slotCards ==>
                   cards[i].anim == old(cards[i].anim)) &&
                CoverFlagsHold(cards, cardWidth, cardHeight)
    {
      if undoLeft <= 0 || lastCard.None? {
        return;
      }
      var r := lastCard.value;
      var idx := IndexOf(slotCards, r.card);
      if idx > -1 {
        TakeBack(idx, r);
      }
    }

    /** The undo once it applies: the recorded card leaves slot index `idx`
        for its origin, then cover flags and slot layout are refreshed. Only
        that card changes state, and only it and the slot cards change
        animation. */
    method TakeBack(idx: nat, r: UndoRecord)
      requires Valid() && idx < |slotCards| && slotCards[idx] == r.card
      modifies this`slotCards, this`undoLeft, this`lastCard, cards`state, cards`anim, cards`isCovered
      ensures Valid()
      ensures slotCards == RemoveAt(old(slotCards), idx) && r.card.state == OnBoard
      ensures r.card.anim == Animation(true, Fly, r.card.x, r.card.y, r.originX, r.originY, 0.0, FlyDuration)
      ensures undoLeft == old(undoLeft) - 1 && lastCard == None
      ensures forall i :: 0 <= i < |slotCards| ==> var c := slotCards[i]; c.anim == RelaidAnim(c, i, old(c.anim))
      ensures forall i :: 0 <= i < |cards| && cards[i] != r.card ==> cards[i].state == old(cards[i].state)
      ensures forall i :: 0 <= i < |cards| && cards[i] != r.card && cards[i] !in slotCards ==>
                cards[i].anim == old(cards[i].anim)
      ensures CoverFlagsHold(cards, cardWidth, cardHeight)
    {
      UndoStep(idx, r);
      RefreshAndRelay();
    }

    /** The state changes of `useUndo`, before the refreshes. */
    method UndoStep(idx: nat, r: UndoRecord)
      requires Valid() && idx < |slotCards| && slotCards[idx] == r.card
      modifies this`slotCards, this`undoLeft, this`lastCard, r.card`state, r.card`anim
      ensures Valid()
      ensures slotCards == RemoveAt(old(slotCards), idx) && r.card !in slotCards
      ensures r.card.state == OnBoard
      ensures r.card.anim == Animation(true, Fly, r.card.x, r.card.y, r.originX, r.originY, 0.0, FlyDuration)
      ensures undoLeft == old(undoLeft) - 1 && lastCard == None
    {
      UnslotCard(idx);
      SendBack(r.card, r.originX, r.originY);
      undoLeft := undoLeft - 1;
      LayoutForget(slotCards, holdingCards, lastCard);
      lastCard := None;
    }

    /** The splice of a card out of the slot. */
    method UnslotCard(idx: nat)
      requires Valid() && idx < |slotCards|
      modifies this`slotCards
      ensures Valid()
      ensures slotCards == RemoveAt(old(slotCards), idx) && old(slotCards)[idx] !in slotCards
    {
      LayoutRemove(slotCards, holdingCards, lastCard, idx);
      DistinctRemove(slotCards, idx);
      slotCards := RemoveAt(slotCards, idx);
    }

    /** A card out of the slot goes back on the board and flies to (x, y). */
    method SendBack(card: Card, x: real, y: real)
      requires Valid() && card in cards && card !in slotCards
      modifies card`state, card`anim
      ensures Valid() && card.state == OnBoard
      ensures card.anim == Animation(true, Fly, card.x, card.y, x, y, 0.0, FlyDuration)
    {
      card.state := OnBoard;
      StatesFrame();
      card.StartFlyAnimation(x, y);
      AnimsFrame(card);
      LayoutFrame();
    }

    /** `useShuffle`: when a use is left and some card is on the board, the
        positions and the symbols of the cards on the board are shuffled
        separately, each card takes its new symbol and starts a shuffle
        animation to its new position, and one use is spent. The cover flags
        are recomputed by the later `RefreshCover` step. */
    method UseShuffle(rand: nat -> real, next: nat) returns (next': nat)
      requires Valid() && IsRandomStream(rand)
      modifies this`shuffleLeft, WithState(cards, OnBoard)`symbol, WithState(cards, OnBoard)`anim
      ensures Valid()
      ensures old(shuffleLeft) <= 0 || old(|WithState(cards, OnBoard)|) == 0 ==>
                shuffleLeft == old(shuffleLeft) && next' == next &&
                forall i :: 0 <= i < |cards| ==> unchanged(cards[i])
      ensures old(shuffleLeft) > 0 && old(|WithState(cards, OnBoard)|) > 0 ==>
                var active := old(WithState(cards, OnBoard));
                shuffleLeft == old(shuffleLeft) - 1 &&
                next' == next + 2 * ShuffleDraws(|active|) &&
                multiset(Symbols(active)) == multiset(old(Symbols(active))) &&
                multiset(Targets(active)) == multiset(old(Positions(active))) &&
                (forall i :: 0 <= i < |active| ==>
                   active[i].anim == Animation(true, Shuffle, active[i].x, active[i].y,
                                               active[i].anim.targetX, active[i].anim.targetY, 0.0, ShuffleDuration))
    {
      if shuffleLeft <= 0 || |WithState(cards, OnBoard)| == 0 {
        return next;
      }
      next' := ShuffleBoard(WithState(cards, OnBoard), rand, next);
    }

    /** The shuffle proper, once a use is left and the board is not empty. */
    method ShuffleBoard(active: seq<Card>, rand: nat -> real, next: nat) returns (next': nat)
      requires Valid() && IsRandomStream(rand) && active == WithState(cards, OnBoard)
      modifies this`shuffleLeft, active`symbol, active`anim
      ensures Valid() && shuffleLeft == old(shuffleLeft) - 1
      ensures next' == next + 2 * ShuffleDraws(|active|)
      ensures multiset(Symbols(active)) == multiset(old(Symbols(active)))
      ensures multiset(Targets(active)) == multiset(old(Positions(active)))
      ensures forall i :: 0 <= i < |active| ==>
                active[i].anim == Animation(true, Shuffle, active[i].x, active[i].y,
                                            active[i].anim.targetX, active[i].anim.targetY, 0.0, ShuffleDuration)
    {
      var positions, types;
      positions, types, next' := ShuffleBoth(Positions(active), Symbols(active), rand, next);
      Redeal(active, positions, types);
    }

    /** The use is spent and the cards on the board take the shuffled
        symbols and fly to the shuffled positions. */
    method Redeal(active: seq<Card>, positions: seq<(real, real)>, types: seq<nat>)
      requires Valid() && active == WithState(cards, OnBoard)
      requires |positions| == |active| && |types| == |active|
      modifies this`shuffleLeft, active`symbol, active`anim
      ensures Valid() && shuffleLeft == old(shuffleLeft) - 1
      ensures Symbols(active) == types && Targets(active) == positions
      ensures forall i :: 0 <= i < |active| ==>
                active[i].anim == Animation(true, Shuffle, active[i].x, active[i].y,
                                            positions[i].0, positions[i].1, 0.0, ShuffleDuration)
    {
      SpendShuffle();
      assert active == WithState(cards, OnBoard);
      Reassign(active, positions, types);
    }

    /** `toolLimits.shuffle--`. */
    method SpendShuffle()
      requires Valid()
      modifies this`shuffleLeft
      ensures Valid() && shuffleLeft == old(shuffleLeft) - 1
    {
      shuffleLeft := shuffleLeft - 1;
    }

    /** The cards on the board take the shuffled symbols and fly to the
        shuffled positions. */
    method Reassign(active: seq<Card>, positions: seq<(real, real)>, types: seq<nat>)
      requires Valid() && active == WithState(cards, OnBoard)
      requires |positions| == |active| && |types| == |active|
      modifies active`symbol, active`anim
      ensures Valid()
      ensures Symbols(active) == types && Targets(active) == positions
      ensures forall i :: 0 <= i < |active| ==>
                active[i].anim == Animation(true, Shuffle, active[i].x, active[i].y,
                                            positions[i].0, positions[i].1, 0.0, ShuffleDuration)
    {
      CardsDistinct();
      WithStateDistinct(cards, OnBoard);
      ApplyShuffle(active, positions, types);
      forall i | 0 <= i < |cards| ensures cards[i].Valid() {
        if cards[i] !in active {
          assert old(cards[i].Valid());
        }
      }
      forall i | 0 <= i < |slotCards| ensures slotCards[i].symbol == old(slotCards[i].symbol) {
        assert slotCards[i] !in active;
      }
      LayoutFrame();
    }

    /** `useRemove`: with a use left and a card in the slot, the first three
        slot cards (all of them when fewer) leave the slot for the end of the
        stage, staged and flying to a centred row above the tool bar; the
        use is spent and the rest of the slot is laid out again. */
    method UseRemove()
      requires Valid()
      modifies this`slotCards, this`holdingCards, this`removeLeft, slotCards`state, slotCards`anim
      ensures Valid()
      ensures old(removeLeft) <= 0 || old(|slotCards|) == 0 ==>
                slotCards == old(slotCards) && holdingCards == old(holdingCards) &&
                removeLeft == old(removeLeft) && forall i :: 0 <= i < |cards| ==> unchanged(cards[i])
      ensures old(removeLeft) > 0 && old(|slotCards|) > 0 ==>
                var m := Min(MatchSize, old(|slotCards|));
                var moved := old(slotCards[..m]);
                slotCards == old(slotCards[m..]) && holdingCards == old(holdingCards) + moved &&
                removeLeft == old(removeLeft) - 1 &&
                (forall i :: 0 <= i < m ==>
                   moved[i].state == Staged &&
                   moved[i].anim == Animation(true, Fly, moved[i].x, moved[i].y, StageX(m, i), StageY(), 0.0, FlyDuration)) &&
                (forall i :: 0 <= i < |slotCards| ==> var c := slotCards[i]; c.anim == RelaidAnim(c, i, old(c.anim))) &&
                (forall i :: 0 <= i < |slotCards| ==> var c := slotCards[i]; c.state == old(c.state)) &&
                (forall i :: 0 <= i < |cards| && cards[i] !in old(slotCards) ==> unchanged(cards[i]))
    {
      if removeLeft <= 0 || |slotCards| == 0 {
        return;
      }
      RemoveFront();
    }

    /** The removal proper, once a use is left and the slot is not empty. */
    method RemoveFront()
      requires Valid() && |slotCards| > 0
      modifies this`slotCards, this`holdingCards, this`removeLeft, slotCards`state, slotCards`anim
      ensures Valid()
      ensures var m := Min(MatchSize, old(|slotCards|));
              var moved := old(slotCards[..m]);
              slotCards == old(slotCards[m..]) && holdingCards == old(holdingCards) + moved &&
              removeLeft == old(removeLeft) - 1 &&
              (forall i :: 0 <= i < m ==>
                 moved[i].state == Staged &&
                 moved[i].anim == Animation(true, Fly, moved[i].x, moved[i].y, StageX(m, i), StageY(), 0.0, FlyDuration)) &&
              (forall i :: 0 <= i < |slotCards| ==> var c := slotCards[i]; c.anim == RelaidAnim(c, i, old(c.anim))) &&
              (forall i :: 0 <= i < |slotCards| ==> var c := slotCards[i]; c.state == old(c.state))
    {
      var m: nat := Min(MatchSize, |slotCards|);
      MoveToStage(m);
      UpdateSlotLayout();
    }

    /** The first `m` slot cards move to the end of the stage, staged and
        flying to their places in the row; the other slot cards keep their state and
        animations. */
    method MoveToStage(m: nat)
      requires Valid() && m <= |slotCards|
      modifies this`slotCards, this`holdingCards, this`removeLeft, slotCards[..m]`state, slotCards[..m]`anim
      ensures Valid()
      ensures slotCards == old(slotCards[m..]) && holdingCards == old(holdingCards + slotCards[..m])
      ensures removeLeft == old(removeLeft) - 1
      ensures forall i :: 0 <= i < m ==>
                var c := old(slotCards[i]);
                c !in slotCards && c.state == Staged &&
                c.anim == Animation(true, Fly, c.x, c.y, StageX(m, i), StageY(), 0.0, FlyDuration)
      ensures forall i :: 0 <= i < |slotCards| ==>
                var c := slotCards[i]; c.state == old(c.state) && c.anim == old(c.anim)
    {
      var moved := slotCards[..m];
      Detach(m);
      StageMoved(moved);
    }

    /** The first `m` slot cards leave the slot for the end of the stage,
        and the use is spent. */
    method Detach(m: nat)
      requires Valid() && m <= |slotCards|
      modifies this`slotCards, this`holdingCards, this`removeLeft
      ensures Valid()
      ensures slotCards == old(slotCards[m..]) && holdingCards == old(holdingCards + slotCards[..m])
      ensures removeLeft == old(removeLeft) - 1
      ensures Distinct(old(slotCards[..m]))
      ensures forall i :: 0 <= i < m ==> old(slotCards[i]) !in slotCards
      ensures forall j :: 0 <= j < |slotCards| ==> slotCards[j] !in old(slotCards[..m])
    {
      ghost var slot, holding := slotCards, holdingCards;
      assert LayoutOf(slot, holding, lastCard);
      slotCards, holdingCards, removeLeft := slotCards[m..], holdingCards + slotCards[..m], removeLeft - 1;
      LayoutMove(slot, holding, lastCard, m);
    }

    /** Staging cards outside the slot: each is marked staged and flies to
        its place in the centred row; the invariant is kept. */
    method StageMoved(moved: seq<Card>)
      requires Valid() && Distinct(moved)
      requires forall i :: 0 <= i < |moved| ==> moved[i] !in slotCards
      modifies moved`state, moved`anim
      ensures Valid()
      ensures forall i :: 0 <= i < |moved| ==>
                moved[i].state == Staged &&
                moved[i].anim == Animation(true, Fly, moved[i].x, moved[i].y, StageX(|moved|, i), StageY(), 0.0, FlyDuration)
    {
      StageAll(moved, (width - |moved| as real * (cardWidth + 10.0)) / 2.0, cardWidth + 10.0, StageY());
      forall i | 0 <= i < |cards| ensures cards[i].Valid() {
        if cards[i] !in moved {
          assert old(cards[i].Valid());
        }
      }
      forall i | 0 <= i < |slotCards| ensures slotCards[i].state == old(slotCards[i].state) {
        assert slotCards[i] !in moved;
      }
      LayoutFrame();
    }
  }
}
