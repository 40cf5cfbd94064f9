/** The animated star field behind every page
    (src/components/StarryBackground.tsx): a density-based set of stars
    rebuilt on every resize, a mouse target normalised to [-1, 1], an
    eased mouse that follows it, and per-frame draw positions with a
    parallax shift and a sine bounce. The sine values and `Math.random()`
    draws are parameters. */
module StarryBackground {

  /** One star per this many square pixels. */
  const PixelsPerStar: nat := 4000
  /** `Math.PI` as the double the browser holds. */
  const Pi: real := 3.141592653589793
  const EaseRate: real := 0.05
  /** `20 * star.speed * 5`: the parallax gain per unit of speed. */
  const ParallaxGain: real := 100.0
  const BounceAmplitude: real := 5.0
  const TwinkleAmplitude: real := 0.1

  datatype FieldStar = FieldStar(
    x: real,
    y: real,
    baseX: real,
    baseY: real,
    size: real,
    opacity: real,
    speed: real,
    offset: real)

  /** The six `Math.random()` calls made for one star, in source order. */
  datatype FieldDraws = FieldDraws(x: real, y: real, size: real, opacity: real, speed: real, offset: real)

  predicate Unit(r: real) { 0.0 <= r < 1.0 }

  predicate ValidDraws(d: FieldDraws) {
    Unit(d.x) && Unit(d.y) && Unit(d.size) && Unit(d.opacity) && Unit(d.speed) && Unit(d.offset)
  }

  /** `Math.floor((width * height) / 4000)`. */
  function StarCount(width: nat, height: nat): (n: nat)
    ensures n * PixelsPerStar <= width * height < (n + 1) * PixelsPerStar
  {
    (width * height) / PixelsPerStar
  }

  /** A full-HD window holds 518 stars. */
  lemma FullHdCount()
    ensures StarCount(1920, 1080) == 518
  {
  }

  /** `Math.random() * extent`: a coordinate in [0, extent), or 0 when
      the extent is 0. */
  function Scale(a: real, extent: nat): (r: real)
    ensures Unit(a) ==> 0.0 <= r <= extent as real
    ensures Unit(a) && extent > 0 ==> r < extent as real
  {
    var e := extent as real;
    if Unit(a) then
      UnitTimes(a, e);
      a * e
    else
      a * e
  }

  /** A fraction in [0, 1) of a non-negative extent lies in [0, extent],
      strictly below a positive one. */
  lemma UnitTimes(a: real, e: real)
    requires Unit(a) && 0.0 <= e
    ensures 0.0 <= a * e <= e
    ensures e > 0.0 ==> a * e < e
  {
    assert e - a * e == (1.0 - a) * e;
  }

  /** A star whose position and stored base coincide, inside the window,
      with its size, opacity, speed and phase in their ranges. */
  predicate InField(width: nat, height: nat, s: FieldStar) {
    s.x == s.baseX && s.y == s.baseY &&
    0.0 <= s.x <= width as real && 0.0 <= s.y <= height as real &&
    (width > 0 ==> s.x < width as real) && (height > 0 ==> s.y < height as real) &&
    0.5 <= s.size < 2.5 && 0.1 <= s.opacity < 0.6 &&
    0.01 <= s.speed < 0.06 && 0.0 <= s.offset < 2.0 * Pi
  }

  /** One star of `initStars`. */
  function MakeStar(width: nat, height: nat, d: FieldDraws): (s: FieldStar)
    ensures s.x == s.baseX && s.y == s.baseY
    ensures ValidDraws(d) ==> InField(width, height, s)
  {
    var x := Scale(d.x, width);
    var y := Scale(d.y, height);
    FieldStar(x, y, x, y, d.size * 2.0 + 0.5, d.opacity * 0.5 + 0.1,
              d.speed * 0.05 + 0.01, d.offset * Pi * 2.0)
  }

  /** `initStars`: a fresh list of `StarCount` stars, the i-th built from
      the i-th set of draws. */
  method InitStars(width: nat, height: nat, draws: seq<FieldDraws>) returns (stars: seq<FieldStar>)
    requires |draws| >= StarCount(width, height)
    ensures |stars| == StarCount(width, height)
    ensures forall i :: 0 <= i < |stars| ==> stars[i] == MakeStar(width, height, draws[i])
    ensures (forall i :: 0 <= i < |draws| ==> ValidDraws(draws[i])) ==>
      forall i :: 0 <= i < |stars| ==> InField(width, height, stars[i])
  {
    var count := StarCount(width, height);
    stars := [];
    for i := 0 to count
      invariant |stars| == i
      invariant forall k :: 0 <= k < i ==> stars[k] == MakeStar(width, height, draws[k])
    {
      stars := stars + [MakeStar(width, height, draws[i])];
    }
  }

  /** `(client / extent) * 2 - 1`. */
  function Normalize(client: real, extent: nat): (r: real)
    requires extent > 0
    ensures 0.0 <= client <= extent as real ==> -1.0 <= r <= 1.0
    ensures client == 0.0 ==> r == -1.0
    ensures client == extent as real ==> r == 1.0
  {
    (client / extent as real) * 2.0 - 1.0
  }

  /** Normalising loses nothing: the client coordinate can be recovered. */
  lemma NormalizeInverse(client: real, extent: nat)
    requires extent > 0
    ensures (Normalize(client, extent) + 1.0) / 2.0 * extent as real == client
  {
  }

  /** One easing step of the drawn mouse toward the target: the gap
      shrinks to 95% and the mouse never overshoots. */
  function Ease(m: real, target: real): (r: real)
    ensures target - r == (target - m) * (1.0 - EaseRate)
    ensures m <= target ==> m <= r <= target
    ensures target <= m ==> target <= r <= m
  {
    m + (target - m) * EaseRate
  }

  function Pow(b: real, k: nat): real {
    if k == 0 then 1.0 else b * Pow(b, k - 1)
  }

  lemma {:induction false} PowBounds(k: nat)
    ensures 0.0 < Pow(1.0 - EaseRate, k) <= 1.0
  {
    if k > 0 {
      PowBounds(k - 1);
    }
  }

  /** `k` frames of easing toward a fixed target. */
  function EaseN(m: real, target: real, k: nat): real
    decreases k
  {
    if k == 0 then m else EaseN(Ease(m, target), target, k - 1)
  }

  /** After `k` frames the gap to a fixed target is `0.95^k` of the
      original gap, so the mouse closes in without ever reaching or
      passing the target. */
  lemma {:induction false} EaseNGap(m: real, target: real, k: nat)
    ensures target - EaseN(m, target, k) == (target - m) * Pow(1.0 - EaseRate, k)
    ensures 0.0 < Pow(1.0 - EaseRate, k) <= 1.0
    decreases k
  {
    PowBounds(k);
    if k > 0 {
      var q := 1.0 - EaseRate;
      var e := Ease(m, target);
      EaseNGap(e, target, k - 1);
      assert EaseN(m, target, k) == EaseN(e, target, k - 1);
      assert target - e == (target - m) * q;
      assert Pow(q, k) == q * Pow(q, k - 1);
      assert ((target - m) * q) * Pow(q, k - 1) == (target - m) * (q * Pow(q, k - 1));
    }
  }

  lemma ProductBound(a: real, b: real)
    requires -1.0 <= a <= 1.0 && 0.0 <= b
    ensures -b <= a * b <= b
  {
    if a >= 0.0 {
      assert (1.0 - a) * b >= 0.0;
    } else {
      assert (1.0 + a) * b >= 0.0;
    }
  }

  /** `mouse * 20 * star.speed * 5`. */
  function Parallax(mouse: real, speed: real): (r: real)
    ensures -1.0 <= mouse <= 1.0 && 0.0 <= speed ==> -ParallaxGain * speed <= r <= ParallaxGain * speed
  {
    if -1.0 <= mouse <= 1.0 && 0.0 <= speed then
      ProductBound(mouse, speed);
      mouse * 20.0 * speed * 5.0
    else
      mouse * 20.0 * speed * 5.0
  }

  /** Where and how brightly one star is drawn in a frame. */
  datatype Drawn = Drawn(x: real, y: real, radius: real, alpha: real)

  /** The draw of one star, given the eased mouse and the two sine
      values of the frame (`bounceSin` for the bounce, `twinkleSin` for
      the twinkle). */
  function Draw(s: FieldStar, mx: real, my: real, bounceSin: real, twinkleSin: real): (d: Drawn)
    ensures d.radius == s.size
    ensures 0.01 <= s.speed < 0.06 && 0.1 <= s.opacity < 0.6 &&
            -1.0 <= mx <= 1.0 && -1.0 <= my <= 1.0 &&
            -1.0 <= bounceSin <= 1.0 && -1.0 <= twinkleSin <= 1.0 ==>
      s.baseX - 6.0 < d.x < s.baseX + 6.0 &&
      s.baseY - 11.0 < d.y < s.baseY + 11.0 &&
      0.0 <= d.alpha < 0.7
  {
    Drawn(s.baseX + Parallax(mx, s.speed),
          s.baseY + bounceSin * BounceAmplitude + Parallax(my, s.speed),
          s.size,
          s.opacity + twinkleSin * TwinkleAmplitude)
  }

  /** The effect's closure state: the window size, the star list and
      the drawn and target mouse positions. */
  class StarField {
    var width: nat
    var height: nat
    var stars: seq<FieldStar>
    var mouseX: real
    var mouseY: real
    var targetX: real
    var targetY: real

    /** Both mouse positions lie in the normalised square. */
    ghost predicate Valid()
      reads this
    {
      -1.0 <= mouseX <= 1.0 && -1.0 <= mouseY <= 1.0 &&
      -1.0 <= targetX <= 1.0 && -1.0 <= targetY <= 1.0
    }

    /** Mounting: mouse state at zero, then `handleResize` for the
        current window. */
    constructor(w: nat, h: nat, draws: seq<FieldDraws>)
      requires |draws| >= StarCount(w, h)
      ensures Valid() && width == w && height == h
      ensures mouseX == 0.0 && mouseY == 0.0 && targetX == 0.0 && targetY == 0.0
      ensures |stars| == StarCount(w, h)
      ensures forall i :: 0 <= i < |stars| ==> stars[i] == MakeStar(w, h, draws[i])
    {
      var initial := InitStars(w, h, draws);
      mouseX, mouseY, targetX, targetY := 0.0, 0.0, 0.0, 0.0;
      width, height := w, h;
      stars := initial;
    }

    /** `handleResize`: records the new size and rebuilds the stars;
        the mouse state is kept. */
    method Resize(w: nat, h: nat, draws: seq<FieldDraws>)
      requires |draws| >= StarCount(w, h)
      modifies this`width, this`height, this`stars
      ensures width == w && height == h
      ensures |stars| == StarCount(w, h)
      ensures forall i :: 0 <= i < |stars| ==> stars[i] == MakeStar(w, h, draws[i])
    {
      width, height := w, h;
      stars := InitStars(w, h, draws);
    }

    /** `handleMouseMove`: only the target moves. */
    method MouseMove(clientX: real, clientY: real)
      requires width > 0 && height > 0
      modifies this`targetX, this`targetY
      ensures targetX == Normalize(clientX, width) && targetY == Normalize(clientY, height)
      ensures old(Valid()) && 0.0 <= clientX <= width as real && 0.0 <= clientY <= height as real ==> Valid()
    {
      targetX := Normalize(clientX, width);
      targetY := Normalize(clientY, height);
    }

    /** `animate`: ease the mouse one step, then draw every star in
        order; the stars themselves are not changed. */
    method Frame(bounceSins: seq<real>, twinkleSins: seq<real>) returns (drawn: seq<Drawn>)
      requires |bounceSins| == |stars| && |twinkleSins| == |stars|
      modifies this`mouseX, this`mouseY
      ensures mouseX == Ease(old(mouseX), targetX) && mouseY == Ease(old(mouseY), targetY)
      ensures old(Valid()) ==> Valid()
      ensures |drawn| == |stars|
      ensures forall i :: 0 <= i < |drawn| ==>
        drawn[i] == Draw(stars[i], mouseX, mouseY, bounceSins[i], twinkleSins[i])
    {
      mouseX := Ease(mouseX, targetX);
      mouseY := Ease(mouseY, targetY);
      drawn := [];
      for i := 0 to |stars|
        invariant |drawn| == i
        invariant forall k :: 0 <= k < i ==>
          drawn[k] == Draw(stars[k], mouseX, mouseY, bounceSins[k], twinkleSins[k])
      {
        drawn := drawn + [Draw(stars[i], mouseX, mouseY, bounceSins[i], twinkleSins[i])];
      }
    }
  }
}
