/** The star trail that follows the mouse (src/components/StarCursor.tsx):
    mouse moves schedule at most one star per throttle window, and every
    animation frame moves, turns, shrinks and fades each star and drops the
    ones that have faded out.

    Opacity is kept in hundredths, so a fresh star has 100 and a frame
    takes 2 away. */
module StarCursor {

  const FullOpacity: int := 100
  const FadeStep: int := 2
  /** `slice(-15)`: how many older stars survive a spawn. */
  const KeptOnSpawn: nat := 15
  const MaxStars: nat := KeptOnSpawn + 1

  datatype Star = Star(
    id: real,
    x: real,
    y: real,
    opacity: int,
    scale: real,
    rotation: real,
    vx: real,
    vy: real)

  /** The random numbers createStar draws: `id` stands for
      `Date.now() + Math.random()`, every other field for one
      `Math.random()` call. */
  datatype Draws = Draws(id: real, dx: real, dy: real, scale: real, rotation: real, vx: real, vy: real)

  predicate Unit(r: real) { 0.0 <= r < 1.0 }

  /** What `Math.random()` guarantees of each draw. */
  predicate ValidDraws(d: Draws) {
    Unit(d.dx) && Unit(d.dy) && Unit(d.scale) && Unit(d.rotation) && Unit(d.vx) && Unit(d.vy)
  }

  /** A new star near the mouse: full opacity, placed within 15 pixels
      of the mouse on each axis, scale in [0.3, 0.8), rotation in
      [0, 360) and a velocity of less than one pixel per frame per axis. */
  function CreateStar(x: real, y: real, d: Draws): (s: Star)
    ensures s.opacity == FullOpacity && s.id == d.id
    ensures ValidDraws(d) ==>
      x - 15.0 <= s.x < x + 15.0 && y - 15.0 <= s.y < y + 15.0
    ensures ValidDraws(d) ==> 0.3 <= s.scale < 0.8 && 0.0 <= s.rotation < 360.0
    ensures ValidDraws(d) ==> -1.0 <= s.vx < 1.0 && -1.0 <= s.vy < 1.0
  {
    Star(d.id,
         x + (d.dx - 0.5) * 30.0,
         y + (d.dy - 0.5) * 30.0,
         FullOpacity,
         d.scale * 0.5 + 0.3,
         d.rotation * 360.0,
         (d.vx - 0.5) * 2.0,
         (d.vy - 0.5) * 2.0)
  }

  /** One frame for one star: it keeps its identity and velocity, moves by
      its velocity, fades by one step and shrinks. */
  function Advance(s: Star): (r: Star)
    ensures r.id == s.id && r.vx == s.vx && r.vy == s.vy
    ensures r.x - s.x == s.vx && r.y - s.y == s.vy
    ensures r.opacity < s.opacity
    ensures s.scale > 0.0 ==> 0.0 < r.scale < s.scale
  {
    s.(x := s.x + s.vx, y := s.y + s.vy, opacity := s.opacity - FadeStep,
       rotation := s.rotation + 2.0, scale := s.scale * 0.99)
  }

  /** Every star of the trail advanced by one frame. */
  function AdvanceAll(stars: seq<Star>): (r: seq<Star>)
    ensures |r| == |stars|
    ensures forall i :: 0 <= i < |stars| ==> r[i] == Advance(stars[i])
  {
    if stars == [] then [] else [Advance(stars[0])] + AdvanceAll(stars[1..])
  }

  /** One animation frame for the whole trail: advance every star, then
      keep those whose opacity is still positive, in order. */
  function Tick(stars: seq<Star>): (r: seq<Star>)
    ensures |r| <= |stars|
    ensures forall i :: 0 <= i < |r| ==> r[i].opacity > 0
    ensures forall i :: 0 <= i < |stars| && stars[i].opacity > FadeStep ==> Advance(stars[i]) in r
    ensures forall j :: 0 <= j < |r| ==> r[j] in AdvanceAll(stars)
  {
    if stars == [] then []
    else
      var a := Advance(stars[0]);
      (if a.opacity > 0 then [a] else []) + Tick(stars[1..])
  }

  /** The frame treats each star on its own and keeps the order. */
  lemma {:induction false} TickAppend(a: seq<Star>, b: seq<Star>)
    ensures Tick(a + b) == Tick(a) + Tick(b)
    decreases |a|
  {
    if a == [] {
      assert a + b == b;
    } else {
      assert (a + b)[1..] == a[1..] + b;
      TickAppend(a[1..], b);
    }
  }

  /** One star alone survives a frame exactly when its advanced opacity
      is still positive; with `TickAppend` this determines `Tick`. */
  lemma TickOne(s: Star)
    ensures Tick([s]) == if Advance(s).opacity > 0 then [Advance(s)] else []
  {
    assert [s][1..] == [];
  }

  /** Every star that survives a frame has faded by one step. */
  lemma {:induction false} TickFades(stars: seq<Star>, m: int)
    requires forall i :: 0 <= i < |stars| ==> stars[i].opacity <= m
    ensures forall i :: 0 <= i < |Tick(stars)| ==> Tick(stars)[i].opacity <= m - FadeStep
    decreases |stars|
  {
    if stars != [] {
      TickFades(stars[1..], m);
    }
  }

  /** `k` animation frames in a row. */
  function Ticks(stars: seq<Star>, k: nat): seq<Star>
    decreases k
  {
    if k == 0 then stars else Ticks(Tick(stars), k - 1)
  }

  /** Visible stars whose opacity is at most `2k` hundredths are all
      gone after `k` frames. */
  lemma {:induction false} FadedAfter(stars: seq<Star>, k: nat)
    requires forall i :: 0 <= i < |stars| ==> 0 < stars[i].opacity <= FadeStep * k
    ensures Ticks(stars, k) == []
    decreases k
  {
    if k > 0 {
      TickFades(stars, FadeStep * k);
      FadedAfter(Tick(stars), k - 1);
    }
  }

  /** `k` frames applied to one star alone. */
  function AdvanceN(s: Star, k: nat): Star
    decreases k
  {
    if k == 0 then s else AdvanceN(Advance(s), k - 1)
  }

  /** A lone star with more than `2k` hundredths of opacity is still there
      after `k` frames, faded by `2k`. */
  lemma {:induction false} LoneStarSurvives(s: Star, k: nat)
    requires s.opacity > FadeStep * k
    ensures Ticks([s], k) == [AdvanceN(s, k)]
    ensures AdvanceN(s, k).opacity == s.opacity - FadeStep * k
    decreases k
  {
    if k > 0 {
      assert Tick([s]) == [Advance(s)];
      LoneStarSurvives(Advance(s), k - 1);
    }
  }

  /** A freshly created star is drawn for 49 more frames and is removed
      by the 50th. */
  lemma FreshStarLifetime(x: real, y: real, d: Draws)
    ensures Ticks([CreateStar(x, y, d)], 49) != []
    ensures Ticks([CreateStar(x, y, d)], 50) == []
  {
    var s := CreateStar(x, y, d);
    LoneStarSurvives(s, 49);
    assert [s][0] == s;
    FadedAfter([s], 50);
  }

  /** `[...prev.slice(-15), newStar]`: the newest star is appended after
      the last fifteen older ones. */
  function Spawn(stars: seq<Star>, star: Star): (r: seq<Star>)
    ensures |r| <= MaxStars && |r| >= 1 && r[|r| - 1] == star
    ensures |stars| < MaxStars ==> r == stars + [star]
    ensures |stars| >= MaxStars ==> |r| == MaxStars
    ensures forall i :: 0 <= i < |r| - 1 ==> r[i] == stars[|stars| - (|r| - 1) + i]
  {
    var start := if |stars| > KeptOnSpawn then |stars| - KeptOnSpawn else 0;
    stars[start..] + [star]
  }

  /** The mounted component: its star list, the last mouse position,
      and the throttle timer that is pending between a move and the
      spawn it schedules. */
  class StarTrail {
    var stars: seq<Star>
    var mouseX: real
    var mouseY: real
    /** A spawn timer is scheduled. */
    var pending: bool
    /** The mouse position the scheduled spawn captured. */
    var pendingX: real
    var pendingY: real

    /** At most sixteen stars, each still visible and never brighter than
        a fresh one. */
    ghost predicate Valid()
      reads this
    {
      |stars| <= MaxStars &&
      forall i :: 0 <= i < |stars| ==> 0 < stars[i].opacity <= FullOpacity
    }

    constructor()
      ensures Valid() && stars == [] && !pending
      ensures mouseX == 0.0 && mouseY == 0.0
    {
      stars := [];
      mouseX, mouseY := 0.0, 0.0;
      pending := false;
      pendingX, pendingY := 0.0, 0.0;
    }

    /** `handleMouseMove`: always records the mouse; schedules a spawn
        at this position only when none is pending. */
    method Move(x: real, y: real)
      modifies this
      ensures mouseX == x && mouseY == y && pending
      ensures old(pending) ==> pendingX == old(pendingX) && pendingY == old(pendingY)
      ensures !old(pending) ==> pendingX == x && pendingY == y
      ensures stars == old(stars)
    {
      mouseX, mouseY := x, y;
      if !pending {
        pending := true;
        pendingX, pendingY := x, y;
      }
    }

    /** The throttle timer fires: one star at the captured position. */
    method FireSpawn(d: Draws)
      requires Valid() && pending
      modifies this
      ensures Valid() && !pending
      ensures stars == Spawn(old(stars), CreateStar(old(pendingX), old(pendingY), d))
      ensures mouseX == old(mouseX) && mouseY == old(mouseY)
    {
      stars := Spawn(stars, CreateStar(pendingX, pendingY, d));
      pending := false;
    }

    /** `animateStars`: one frame. */
    method Frame()
      requires Valid()
      modifies this`stars
      ensures Valid() && stars == Tick(old(stars))
    {
      TickFades(stars, FullOpacity);
      stars := Tick(stars);
    }
  }

  /** A burst of mouse moves before the timer fires schedules a single
      spawn, at the first position of the burst. */
  method MoveBurst(t: StarTrail, xs: seq<real>, ys: seq<real>)
    requires |xs| == |ys| && |xs| > 0 && !t.pending
    modifies t
    ensures t.pending && t.pendingX == xs[0] && t.pendingY == ys[0]
    ensures t.mouseX == xs[|xs| - 1] && t.mouseY == ys[|ys| - 1]
    ensures t.stars == old(t.stars)
  {
    t.Move(xs[0], ys[0]);
    var i := 1;
    while i < |xs|
      invariant 1 <= i <= |xs|
      invariant t.pending && t.pendingX == xs[0] && t.pendingY == ys[0]
      invariant t.mouseX == xs[i - 1] && t.mouseY == ys[i - 1]
      invariant t.stars == old(t.stars)
    {
      t.Move(xs[i], ys[i]);
      i := i + 1;
    }
  }
}
