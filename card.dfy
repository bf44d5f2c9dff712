/** The card entity (js/entities/Card.js): identity, placement, lifecycle
    state, the cover flag, and a small animation machine that moves the card
    toward a target and reports the frame on which it arrives. */
module Cards {

  import opened Seqs

  /** Lifecycle states; the source stores them as the numbers
      0 (on the board), 1 (in the slot), 2 (matching, then cleared),
      3 (in flight toward the slot) and 4 (staged by the remove tool). */
  datatype CardState = OnBoard | InSlot | Cleared | InFlight | Staged

  /** The kinds of animation; `NoAnim` is the empty kind a new card has. */
  datatype AnimKind = NoAnim | Fly | Shuffle | Match

  /** The plain record the level generator produces and a card is built from.
      `symbol` is the index of the card's emoji in the symbol list. */
  datatype CardData = CardData(id: int, symbol: nat, x: real, y: real, layer: int,
                               isCovered: bool, state: CardState)

  /** The animation fields of a card: running or not, kind, start and target
      position, progress in [0, 1] and duration in seconds. */
  datatype Animation = Animation(animating: bool, kind: AnimKind,
                                 startX: real, startY: real,
                                 targetX: real, targetY: real,
                                 progress: real, duration: real)

  /** What the renderer draws: position, scale, rotation and opacity. */
  datatype Pose = Pose(x: real, y: real, scale: real, rotation: real, alpha: real)

  const FlyDuration: real := 0.35
  const ShuffleDuration: real := 0.6
  const MatchDuration: real := 0.3
  const ClickScale: real := 1.15
  /** The height of the upward arc of a fly animation. */
  const JumpHeight: real := 40.0

  /** The animation fields of a freshly built card. */
  const IdleAnimation := Animation(false, NoAnim, 0.0, 0.0, 0.0, 0.0, 0.0, 0.3)

  /** The easing of the fly animation (quadratic ease-in-out). */
  function EaseInOutQuad(t: real): (e: real)
    ensures t == 0.0 ==> e == 0.0
    ensures t == 1.0 ==> e == 1.0
    ensures 0.0 <= t <= 1.0 ==> 0.0 <= e <= 1.0
  {
    if t < 0.5 then
      assert 0.0 <= t ==> t * t <= 0.25 by { if 0.0 <= t { MulBounded(t, t); } }
      2.0 * t * t
    else
      var u := -2.0 * t + 2.0;
      assert 0.0 <= t <= 1.0 ==> 0.0 <= u * u <= 1.0 by {
        if 0.0 <= t <= 1.0 { assert 0.0 <= u <= 1.0; MulBounded(u, u); }
      }
      1.0 - u * u / 2.0
  }

  /** The easing of the match animation (cubic ease-out). */
  function EaseOutCubic(t: real): (e: real)
    ensures t == 0.0 ==> e == 0.0
    ensures t == 1.0 ==> e == 1.0
    ensures 0.0 <= t <= 1.0 ==> 0.0 <= e <= 1.0
  {
    var u := 1.0 - t;
    assert 0.0 <= t <= 1.0 ==> 0.0 <= u * u * u <= 1.0 by {
      if 0.0 <= t <= 1.0 { MulBounded(u, u); MulBounded(u * u, u); }
    }
    1.0 - u * u * u
  }

  /** The easing of the shuffle animation (cubic ease-in-out). */
  function EaseInOutCubic(t: real): (e: real)
    ensures t == 0.0 ==> e == 0.0
    ensures t == 1.0 ==> e == 1.0
    ensures 0.0 <= t <= 1.0 ==> 0.0 <= e <= 1.0
  {
    if t < 0.5 then
      assert 0.0 <= t ==> 0.0 <= t * t * t <= 0.25 by {
        if 0.0 <= t { MulBounded(t, t); MulBounded(t * t, t); }
      }
      4.0 * t * t * t
    else
      var u := -2.0 * t + 2.0;
      assert t <= 1.0 ==> 0.0 <= u * u * u <= 1.0 by {
        if t <= 1.0 { MulBounded(u, u); MulBounded(u * u, u); }
      }
      1.0 - u * u * u / 2.0
  }

  lemma MulBounded(a: real, b: real)
    requires 0.0 <= a <= 1.0 && 0.0 <= b <= 1.0
    ensures 0.0 <= a * b <= a && a * b <= b
  {
  }

  /** Linear interpolation from `a` to `b` by the eased fraction `e`. */
  function Lerp(a: real, b: real, e: real): (r: real)
    ensures e == 0.0 ==> r == a
    ensures e == 1.0 ==> r == b
  {
    a + (b - a) * e
  }

  /** The scale of a matching card: 1 for the first half, then shrinking
      linearly to 0. */
  function MatchScale(t: real): (s: real)
    ensures t < 0.5 ==> s == 1.0
    ensures t == 1.0 ==> s == 0.0
    ensures t <= 1.0 ==> 0.0 <= s <= 1.0
  {
    if t < 0.5 then 1.0 else RealMax(0.0, 1.0 - (t - 0.5) * 2.0)
  }

  /** The opacity of a matching card. */
  function MatchAlpha(t: real): (a: real)
    ensures t == 0.0 ==> a == 1.0
    ensures t == 1.0 ==> a == 0.0
    ensures 0.0 <= t <= 1.0 ==> 0.0 <= a <= 1.0
  {
    assert 0.0 <= t <= 1.0 ==> t * t <= 1.0 by {
      if 0.0 <= t <= 1.0 { MulBounded(t, t); }
    }
    1.0 - t * t
  }

  /** The frame-time effect of `updateAnimation` on a card's animation fields
      and pose. `sinPi(t)` stands for `Math.sin(Math.PI * t)` and `pi` for
      `Math.PI`; they only feed the fly arc, the fly and shuffle scale and the
      shuffle rotation. */
  function Advance(a: Animation, p: Pose, dt: real, sinPi: real -> real, pi: real):
    (r: (Animation, Pose))
    requires a.duration > 0.0
    // Not animating: only the click pulse decays, never below 1.
    ensures !a.animating ==> r.0 == a
    ensures !a.animating ==> r.1 == p.(scale := r.1.scale)
    ensures !a.animating && p.scale > 1.0 ==> r.1.scale == RealMax(1.0, p.scale - 2.0 * dt)
    ensures !a.animating && p.scale <= 1.0 ==> r.1.scale == p.scale
    // Animating: progress advances by dt / duration, clamped to 1, and the
    // animation stops exactly when progress reaches 1.
    ensures a.animating ==> r.0 == a.(progress := r.0.progress, animating := r.0.animating)
    ensures a.animating ==> r.0.progress == RealMin(1.0, a.progress + dt / a.duration)
    ensures a.animating ==> (r.0.animating <==> r.0.progress < 1.0)
    // On the final frame the card stands on its target.
    ensures a.animating && !r.0.animating && a.kind != NoAnim ==> r.1.x == a.targetX
    ensures a.animating && !r.0.animating && (a.kind == Match || a.kind == Shuffle) ==>
              r.1.y == a.targetY
    // A match animation keeps scale and opacity in [0, 1].
    ensures a.animating && a.kind == Match && 0.0 <= r.0.progress ==>
              0.0 <= r.1.scale <= 1.0 && 0.0 <= r.1.alpha <= 1.0
    ensures a.animating && a.kind == Match && r.0.progress < 0.5 ==> r.1.scale == 1.0
  {
    if !a.animating then
      var s := if p.scale > 1.0 then RealMax(1.0, p.scale - dt * 2.0) else p.scale;
      (a, p.(scale := s))
    else
      var progress := a.progress + dt / a.duration;
      var a' := if progress >= 1.0 then a.(progress := 1.0, animating := false)
                else a.(progress := progress);
      var t := a'.progress;
      var p' := match a.kind
        case Fly =>
          var e := EaseInOutQuad(t);
          p.(x := Lerp(a.startX, a.targetX, e),
             y := Lerp(a.startY, a.targetY, e) + -JumpHeight * sinPi(t),
             scale := 1.1 - 0.1 * sinPi(t))
        case Match =>
          var e := EaseOutCubic(t);
          p.(x := Lerp(a.startX, a.targetX, e), y := Lerp(a.startY, a.targetY, e),
             scale := MatchScale(t), alpha := MatchAlpha(t))
        case Shuffle =>
          var e := EaseInOutCubic(t);
          p.(x := Lerp(a.startX, a.targetX, e), y := Lerp(a.startY, a.targetY, e),
             rotation := pi * 2.0 * t, scale := 1.0 - sinPi(t) * 0.4)
        case NoAnim => p;
      (a', p')
  }

  /** The symbols of a sequence of cards, in order. */
  function Symbols(cards: seq<Card>): (r: seq<nat>)
    reads cards`symbol
    ensures |r| == |cards|
    ensures forall i :: 0 <= i < |cards| ==> r[i] == cards[i].symbol
  {
    if cards == [] then [] else [cards[0].symbol] + Symbols(cards[1..])
  }

  class Card {
    const id: int
    var symbol: nat
    var x: real
    var y: real
    const layer: int
    var state: CardState
    var isCovered: bool
    var scale: real
    var rotation: real
    var alpha: real
    var anim: Animation

    /** Every animation the card can run has a positive duration. */
    ghost predicate Valid()
      reads this`anim
    {
      anim.duration > 0.0
    }

    function CurrentPose(): Pose
      reads this
    {
      Pose(x, y, scale, rotation, alpha)
    }

    constructor (data: CardData)
      ensures Valid()
      ensures id == data.id && symbol == data.symbol && x == data.x && y == data.y
      ensures layer == data.layer && state == data.state && isCovered == data.isCovered
      ensures scale == 1.0 && rotation == 0.0 && alpha == 1.0 && anim == IdleAnimation
    {
      id, symbol, x, y, layer := data.id, data.symbol, data.x, data.y, data.layer;
      state, isCovered := data.state, data.isCovered;
      scale, rotation, alpha := 1.0, 0.0, 1.0;
      anim := IdleAnimation;
    }

    /** Flight toward the slot, the stage, a new slot index or an undo origin. */
    method StartFlyAnimation(targetX: real, targetY: real)
      modifies this`anim
      ensures Valid()
      ensures anim == Animation(true, Fly, x, y, targetX, targetY, 0.0, FlyDuration)
    {
      anim := Animation(true, Fly, x, y, targetX, targetY, 0.0, FlyDuration);
    }

    method StartShuffleAnimation(targetX: real, targetY: real)
      modifies this`anim
      ensures Valid()
      ensures anim == Animation(true, Shuffle, x, y, targetX, targetY, 0.0, ShuffleDuration)
    {
      anim := Animation(true, Shuffle, x, y, targetX, targetY, 0.0, ShuffleDuration);
    }

    method StartMatchAnimation(targetX: real, targetY: real)
      modifies this`anim
      ensures Valid()
      ensures anim == Animation(true, Match, x, y, targetX, targetY, 0.0, MatchDuration)
    {
      anim := Animation(true, Match, x, y, targetX, targetY, 0.0, MatchDuration);
    }

    /** The scale pulse of a tap; it decays in `UpdateAnimation`. */
    method TriggerClickEffect()
      modifies this`scale
      ensures scale == ClickScale
    {
      scale := ClickScale;
    }

    /** One frame: advances the animation by `dt` seconds and returns true
        exactly on the frame on which the animation completes. */
    method UpdateAnimation(dt: real, sinPi: real -> real, pi: real) returns (done: bool)
      requires Valid()
      modifies this`x, this`y, this`scale, this`rotation, this`alpha, this`anim
      ensures Valid()
      ensures (anim, CurrentPose()) == Advance(old(anim), old(CurrentPose()), dt, sinPi, pi)
      ensures done <==> old(anim.animating) && !anim.animating
      ensures state == old(state) && symbol == old(symbol) && isCovered == old(isCovered)
    {
      ghost var expected := Advance(anim, CurrentPose(), dt, sinPi, pi);
      if !anim.animating && scale > 1.0 {
        scale := scale - dt * 2.0;
        if scale < 1.0 {
          scale := 1.0;
        }
      }
      if !anim.animating {
        return false;
      }
      var progress := anim.progress + dt / anim.duration;
      var running := true;
      if progress >= 1.0 {
        progress := 1.0;
        running := false;
      }
      anim := anim.(progress := progress, animating := running);
      var t := progress;
      if anim.kind == Fly {
        var ease := EaseInOutQuad(t);
        x := Lerp(anim.startX, anim.targetX, ease);
        var jump := -JumpHeight * sinPi(t);
        y := Lerp(anim.startY, anim.targetY, ease) + jump;
        scale := 1.1 - 0.1 * sinPi(t);
      } else if anim.kind == Match {
        var ease := EaseOutCubic(t);
        x := Lerp(anim.startX, anim.targetX, ease);
        y := Lerp(anim.startY, anim.targetY, ease);
        scale := MatchScale(t);
        alpha := MatchAlpha(t);
      } else if anim.kind == Shuffle {
        var ease := EaseInOutCubic(t);
        x := Lerp(anim.startX, anim.targetX, ease);
        y := Lerp(anim.startY, anim.targetY, ease);
        rotation := pi * 2.0 * t;
        scale := 1.0 - sinPi(t) * 0.4;
      }
      assert anim == expected.0;
      assert CurrentPose() == expected.1;
      done := !anim.animating;
    }

    /** The card's own tap test: an invisible or cleared card is never hit;
        otherwise the test is an inclusive box at the card's current position. */
    predicate HitTest(touchX: real, touchY: real, cardW: real, cardH: real): (hit: bool)
      reads this
      ensures hit ==> alpha > 0.0 && state != Cleared
      ensures hit ==> x <= touchX <= x + cardW && y <= touchY <= y + cardH
      ensures (alpha > 0.0 && state != Cleared && x <= touchX <= x + cardW &&
               y <= touchY <= y + cardH) ==> hit
    {
      if alpha <= 0.0 || state == Cleared then false
      else touchX >= x && touchX <= x + cardW && touchY >= y && touchY <= y + cardH
    }
  }
}
