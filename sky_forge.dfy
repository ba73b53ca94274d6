/** The climbing platformer: a player square that runs left and right,
    jumps from platforms, and falls under gravity, while the platforms
    scroll upwards and those leaving the top are replaced at the bottom. */
module SkyForge {
  import opened Arcade

  const PlayerW: real := 22.0
  const PlayerH: real := 22.0
  const Speed: int := 4
  const JumpPower: real := 10.0
  const StartHp: int := 100
  /** `gravity = 0.55` and `scrollSpeed = 0.7`, as exact rationals. */
  const Gravity: real := 0.55
  const ScrollSpeed: real := 0.7
  const PlatformCount: nat := 12
  const PlatformWidthMin: real := 80.0
  const PlatformWidthMax: real := 140.0
  const PlatformHeight: real := 12.0
  /** The penalty for falling out of the bottom of the field. */
  const FallDamage: int := 30
  const RecycleScore: int := 5

  /** A platform `{x, y, w, h}`. */
  datatype Platform = Platform(x: real, y: real, w: real, h: real)

  /** The two draws that size and place a platform horizontally. */
  datatype Roll = Roll(uw: real, ux: real)

  /** The three draws for a platform recycled to the bottom: size,
      horizontal place, and depth below the bottom edge. */
  datatype Spawn = Spawn(uw: real, ux: real, uy: real)

  predicate ValidRoll(r: Roll) {
    0.0 <= r.uw < 1.0 && 0.0 <= r.ux < 1.0
  }

  predicate ValidSpawn(s: Spawn) {
    0.0 <= s.uw < 1.0 && 0.0 <= s.ux < 1.0 && 0.0 <= s.uy < 1.0
  }

  /** A platform at depth y, `PLATFORM_WIDTH_MIN + u*(MAX - MIN)` wide and
      placed at `max(0, min(width - w, u*(width - w)))`: its width lies in
      [80, 140) and, on a canvas wide enough, it lies inside the canvas. */
  function PlatformAt(width: real, uw: real, ux: real, y: real): (p: Platform)
    requires 0.0 <= uw < 1.0 && 0.0 <= ux < 1.0
    ensures PlatformWidthMin <= p.w < PlatformWidthMax && p.h == PlatformHeight && p.y == y
    ensures PlatformWidthMax <= width ==> 0.0 <= p.x && p.x + p.w <= width
    ensures width < p.w ==> p.x == 0.0
  {
    var w := PlatformWidthMin + uw * (PlatformWidthMax - PlatformWidthMin);
    Platform(MaxMin(0.0, width - w, ux * (width - w)), y, w, PlatformHeight)
  }

  /** The vertical distance between the platforms `generatePlatforms`
      lays out: `Math.floor(canvas.height / (PLATFORM_COUNT - 1))`. */
  function Spacing(height: nat): (s: nat)
    ensures (PlatformCount - 1) * s <= height < (PlatformCount - 1) * (s + 1)
  {
    height / (PlatformCount - 1)
  }

  /** The depth of the i-th generated platform, `height - i * spacing`. */
  function Depth(height: nat, i: nat): real {
    (height - i * Spacing(height)) as real
  }

  /** `generatePlatforms` with its draws: the i-th platform sits at depth
      `height - i * spacing`, and each lies inside a canvas wide enough for
      the widest platform. */
  function Generated(width: nat, height: nat, rolls: seq<Roll>): (ps: seq<Platform>)
    requires forall i :: 0 <= i < |rolls| ==> ValidRoll(rolls[i])
    ensures |ps| == |rolls|
    ensures forall i :: 0 <= i < |ps| ==> ps[i].y == Depth(height, i)
    ensures forall i :: 0 <= i < |ps| ==> PlatformWidthMin <= ps[i].w < PlatformWidthMax && ps[i].h == PlatformHeight
    ensures PlatformWidthMax <= width as real ==>
      forall i :: 0 <= i < |ps| ==> 0.0 <= ps[i].x && ps[i].x + ps[i].w <= width as real
  {
    if rolls == [] then []
    else
      var n := |rolls| - 1;
      assert ValidRoll(rolls[n]);
      Generated(width, height, rolls[..n]) + [PlatformAt(width as real, rolls[n].uw, rolls[n].ux, Depth(height, n))]
  }

  lemma GeneratedStep(width: nat, height: nat, rolls: seq<Roll>, i: nat)
    requires i < |rolls| && forall k :: 0 <= k < |rolls| ==> ValidRoll(rolls[k])
    ensures ValidRoll(rolls[i])
    ensures Generated(width, height, rolls[..i + 1]) ==
            Generated(width, height, rolls[..i]) + [PlatformAt(width as real, rolls[i].uw, rolls[i].ux, Depth(height, i))]
  {
    assert rolls[..i + 1][..i] == rolls[..i];
  }

  /** The spacing is the largest that fits eleven gaps into the canvas, so
      the first platform sits on the bottom edge and the twelfth at the top
      edge or less than 11 pixels below it. */
  lemma GeneratedSpan(width: nat, height: nat, rolls: seq<Roll>)
    requires |rolls| == PlatformCount && forall i :: 0 <= i < |rolls| ==> ValidRoll(rolls[i])
    ensures var ps := Generated(width, height, rolls);
      ps[0].y == height as real && 0.0 <= ps[PlatformCount - 1].y < (PlatformCount - 1) as real
  {
    var s := Spacing(height);
    assert height == 11 * s + height % 11;
  }

  // ---------------------------------------------------------------------
  // Landing

  /** The player's vertical state: depth, vertical speed, on-ground flag. */
  datatype Body = Body(y: real, vy: real, onGround: bool)

  function Abs(v: real): real {
    if v < 0.0 then -v else v
  }

  /** The landing test against one platform, with the player at column x:
      the player overlaps it horizontally, is falling (vy >= 0), and its
      feet lie in the band from the platform's top down by
      `max(12, |vy|)`. */
  predicate Lands(x: real, b: Body, p: Platform) {
    var band := if 12.0 < Abs(b.vy) then Abs(b.vy) else 12.0;
    x + PlayerW > p.x && x < p.x + p.w &&
    b.y + PlayerH >= p.y && b.y + PlayerH <= p.y + band &&
    b.vy >= 0.0
  }

  /** One pass of the landing loop: a landing snaps the feet to the
      platform's top, stops the fall and sets the on-ground flag. */
  function Land(x: real, b: Body, p: Platform): Body {
    if Lands(x, b, p) then Body(p.y - PlayerH, 0.0, true) else b
  }

  /** The landing loop over the platforms in order; each test sees the
      state the previous ones left. */
  function LandAll(x: real, b: Body, ps: seq<Platform>): Body {
    if ps == [] then b else Land(x, LandAll(x, b, ps[..|ps| - 1]), ps[|ps| - 1])
  }

  /** Starting from the on-ground flag cleared: if the loop lands the
      player at all, it stands still on top of one of the platforms;
      otherwise depth and speed are untouched; and any platform the
      player would land on from the state before the loop makes it land. */
  lemma {:induction false} LandAllSpec(x: real, b: Body, ps: seq<Platform>)
    requires !b.onGround
    ensures var r := LandAll(x, b, ps);
      && (r.onGround ==> r.vy == 0.0 && exists p :: p in ps && r.y == p.y - PlayerH)
      && (!r.onGround ==> r == b)
      && ((exists p :: p in ps && Lands(x, b, p)) ==> r.onGround)
  {
    if ps != [] {
      var init := ps[..|ps| - 1];
      var last := ps[|ps| - 1];
      LandAllSpec(x, b, init);
      assert ps == init + [last];
      var m := LandAll(x, b, init);
      var r := LandAll(x, b, ps);
      if r.onGround {
        if Lands(x, m, last) {
          assert r.y == last.y - PlayerH;
        } else {
          var p :| p in init && m.y == p.y - PlayerH;
          assert p in ps;
        }
      }
      if exists p :: p in ps && Lands(x, b, p) {
        var p :| p in ps && Lands(x, b, p);
        if p !in init {
          assert p == last;
          if !m.onGround {
            assert m == b;
          }
        }
      }
    }
  }

  // ---------------------------------------------------------------------
  // Scrolling and recycling

  /** Every platform moved up by the scroll speed. */
  function Scrolled(ps: seq<Platform>): (r: seq<Platform>)
    ensures |r| == |ps|
    ensures forall i :: 0 <= i < |ps| ==> r[i] == ps[i].(y := ps[i].y - ScrollSpeed)
    ensures forall i :: 0 <= i < |ps| ==> r[i].y < ps[i].y
  {
    seq(|ps|, i requires 0 <= i < |ps| => ps[i].(y := ps[i].y - ScrollSpeed))
  }

  /** Has the platform moved off the top (`y + h < -10`)? */
  predicate OffTop(p: Platform) {
    p.y + p.h < -10.0
  }

  /** The platforms the recycle loop keeps, in their order. */
  function Kept(ps: seq<Platform>): seq<Platform> {
    if ps == [] then [] else (if OffTop(ps[0]) then [] else [ps[0]]) + Kept(ps[1..])
  }

  /** How many platforms the recycle loop replaces. */
  function Removed(ps: seq<Platform>): (n: nat)
    ensures n <= |ps|
  {
    if ps == [] then 0 else (if OffTop(ps[0]) then 1 else 0) + Removed(ps[1..])
  }

  /** A replacement platform, at or up to 80 below the bottom edge. */
  function NewPlatform(width: nat, height: nat, s: Spawn): (p: Platform)
    requires ValidSpawn(s)
    ensures height as real <= p.y < height as real + 80.0
    ensures PlatformWidthMin <= p.w < PlatformWidthMax && p.h == PlatformHeight
  {
    PlatformAt(width as real, s.uw, s.ux, height as real + s.uy * 80.0)
  }

  /** The replacements built from the spawn draws, in order. */
  function Fresh(width: nat, height: nat, ss: seq<Spawn>): (r: seq<Platform>)
    requires forall i :: 0 <= i < |ss| ==> ValidSpawn(ss[i])
    ensures |r| == |ss|
    ensures forall p :: p in r ==> height as real <= p.y
  {
    if ss == [] then []
    else Fresh(width, height, ss[..|ss| - 1]) + [NewPlatform(width, height, ss[|ss| - 1])]
  }

  /** The recycle loop removes exactly the platforms off the top and
      appends as many replacements, so the count does not change. */
  lemma {:induction false} RecycleKeepsCount(ps: seq<Platform>)
    ensures |Kept(ps)| + Removed(ps) == |ps|
  {
    if ps != [] {
      RecycleKeepsCount(ps[1..]);
    }
  }

  /** The kept platforms are exactly the old ones still on screen. */
  lemma {:induction false} KeptMembers(ps: seq<Platform>)
    ensures forall p :: p in Kept(ps) <==> p in ps && !OffTop(p)
  {
    if ps != [] {
      KeptMembers(ps[1..]);
      assert ps == [ps[0]] + ps[1..];
    }
  }

  /** The recycle loop keeps each platform still on screen as often as it
      occurs, and no platform off the top. */
  lemma {:induction false} KeptCounts(ps: seq<Platform>)
    ensures forall p :: multiset(Kept(ps))[p] == if OffTop(p) then 0 else multiset(ps)[p]
  {
    if ps != [] {
      KeptCounts(ps[1..]);
      assert ps == [ps[0]] + ps[1..];
    }
  }

  /** Nothing is removed exactly when no platform is off the top. */
  lemma {:induction false} NothingRemoved(ps: seq<Platform>)
    ensures Removed(ps) == 0 <==> forall p :: p in ps ==> !OffTop(p)
    ensures Removed(ps) == 0 ==> Kept(ps) == ps
  {
    if ps != [] {
      NothingRemoved(ps[1..]);
      assert ps == [ps[0]] + ps[1..];
      assert forall p :: p in ps[1..] ==> p in ps;
    }
  }

  lemma FreshStep(width: nat, height: nat, ss: seq<Spawn>, k: nat)
    requires k < |ss| && forall i :: 0 <= i < |ss| ==> ValidSpawn(ss[i])
    ensures Fresh(width, height, ss[..k + 1]) == Fresh(width, height, ss[..k]) + [NewPlatform(width, height, ss[k])]
  {
    assert ss[..k + 1][..k] == ss[..k];
  }

  lemma KeptStep(ps: seq<Platform>, i: nat)
    requires i < |ps|
    ensures Kept(ps[i..]) == (if OffTop(ps[i]) then [] else [ps[i]]) + Kept(ps[i + 1..])
    ensures Removed(ps[i..]) == (if OffTop(ps[i]) then 1 else 0) + Removed(ps[i + 1..])
  {
    assert ps[i..][1..] == ps[i + 1..];
  }

  lemma Prefix<T>(ps: seq<T>, i: nat, tail: seq<T>)
    requires i < |ps|
    ensures ps[..i + 1] + tail == ps[..i] + ([ps[i]] + tail)
    ensures (ps[..i + 1] + tail)[i] == ps[i]
  {
    assert ps[..i + 1] == ps[..i] + [ps[i]];
  }

  lemma SpliceOut<T>(a: seq<T>, v: T, tail: seq<T>)
    ensures (a + ([v] + tail))[..|a|] + (a + ([v] + tail))[|a| + 1..] == a + tail
  {
    var s := a + ([v] + tail);
    assert s[..|a|] == a;
    assert s[|a| + 1..] == tail;
  }

  /** One step of the reverse recycle loop, on the list as the loop
      holds it: platforms before i untouched, then the kept ones after i,
      then the replacements so far. */
  lemma RecycleStep(width: nat, height: nat, ps: seq<Platform>, i: nat, ss: seq<Spawn>, used: nat)
    requires i < |ps| && forall k :: 0 <= k < |ss| ==> ValidSpawn(ss[k])
    requires used <= |ss| && (OffTop(ps[i]) ==> used < |ss|)
    ensures var cur := ps[..i + 1] + (Kept(ps[i + 1..]) + Fresh(width, height, ss[..used]));
      && cur[i] == ps[i]
      && (OffTop(ps[i]) ==>
            && Removed(ps[i..]) == Removed(ps[i + 1..]) + 1
            && (cur[..i] + cur[i + 1..]) + [NewPlatform(width, height, ss[used])] ==
               ps[..i] + (Kept(ps[i..]) + Fresh(width, height, ss[..used + 1])))
      && (!OffTop(ps[i]) ==>
            && Removed(ps[i..]) == Removed(ps[i + 1..])
            && cur == ps[..i] + (Kept(ps[i..]) + Fresh(width, height, ss[..used])))
  {
    var tail := Kept(ps[i + 1..]) + Fresh(width, height, ss[..used]);
    KeptStep(ps, i);
    Prefix(ps, i, tail);
    if OffTop(ps[i]) {
      SpliceOut(ps[..i], ps[i], tail);
      FreshStep(width, height, ss, used);
    }
  }

  // ---------------------------------------------------------------------
  // One tick, stage by stage

  /** Everything `update` reads or writes besides the canvas size. */
  datatype Session = Session(x: real, y: real, dx: int, vy: real, onGround: bool, hp: int,
                             platforms: seq<Platform>, score: int, started: bool)

  /** Score only grows by 5 or resets, so it stays a non-negative multiple
      of 5; hp only drops by 30 from 100 and is floored at 0, so it is one
      of 100, 70, 40, 10, 0; a running game has hp left and exactly 12
      platforms. */
  predicate SessionValid(s: Session) {
    && s.score >= 0 && s.score % RecycleScore == 0
    && 0 <= s.hp <= StartHp && (s.hp == 0 || (StartHp - s.hp) % FallDamage == 0)
    && (s.started ==> s.hp > 0 && |s.platforms| == PlatformCount)
  }

  /** Horizontal movement clamped to the canvas, then gravity. */
  function Moved(width: nat, s: Session): Session {
    s.(x := ClampSpan(s.x + (s.dx * Speed) as real, PlayerW, width as real),
       vy := s.vy + Gravity, y := s.y + s.vy + Gravity)
  }

  /** The landing loop, from the on-ground flag cleared. */
  function Landed(s: Session): Session {
    var b := LandAll(s.x, Body(s.y, s.vy, false), s.platforms);
    s.(y := b.y, vy := b.vy, onGround := b.onGround)
  }

  /** The scroll loop. */
  function ScrolledUp(s: Session): Session {
    s.(platforms := Scrolled(s.platforms))
  }

  /** The recycle loop with its spawn draws. */
  function Recycled(width: nat, height: nat, s: Session, ss: seq<Spawn>): Session
    requires |ss| >= |s.platforms| && forall i :: 0 <= i < |ss| ==> ValidSpawn(ss[i])
  {
    var n := Removed(s.platforms);
    s.(platforms := Kept(s.platforms) + Fresh(width, height, ss[..n]), score := s.score + RecycleScore * n)
  }

  /** The fall penalty. */
  function Penalized(width: nat, height: nat, s: Session): Session {
    if s.y <= height as real + 40.0 then s
    else if s.hp - FallDamage <= 0 then s.(hp := 0, started := false)
    else s.(hp := s.hp - FallDamage, y := 40.0, vy := 0.0,
            x := MaxMin(10.0, width as real - PlayerW - 10.0, s.x))
  }

  /** One tick of `update`: nothing before the start, the five stages
      in order after it. */
  function Step(width: nat, height: nat, s: Session, ss: seq<Spawn>): Session
    requires |ss| >= |s.platforms| && forall i :: 0 <= i < |ss| ==> ValidSpawn(ss[i])
  {
    if !s.started then s
    else Penalized(width, height, Recycled(width, height, ScrolledUp(Landed(Moved(width, s))), ss))
  }

  /** After the movement stage the player lies inside the canvas
      horizontally, provided the canvas is at least as wide as the player. */
  lemma MovedInside(width: nat, s: Session)
    requires PlayerW <= width as real
    ensures 0.0 <= Moved(width, s).x <= width as real - PlayerW
    ensures Moved(width, s).vy == s.vy + Gravity && Moved(width, s).y == s.y + Moved(width, s).vy
  {
  }

  /** The fall penalty never leaves hp negative: either nothing happens,
      or hp drops by exactly 30 and stays positive and the player respawns
      at rest 40 below the top, at least 10 in from either side, or hp is
      set to exactly 0 and the game ends. */
  lemma PenaltySpec(width: nat, height: nat, s: Session)
    requires s.hp >= 0
    ensures var r := Penalized(width, height, s);
      && r.hp >= 0
      && r.dx == s.dx && r.onGround == s.onGround && r.platforms == s.platforms && r.score == s.score
      && (s.y <= height as real + 40.0 ==> r == s)
      && (s.y > height as real + 40.0 ==>
            (r.hp == 0 <==> s.hp <= FallDamage) &&
            (r.hp == 0 ==> !r.started && r.x == s.x && r.y == s.y && r.vy == s.vy) &&
            (r.hp > 0 ==> r.hp == s.hp - FallDamage && r.started == s.started && r.y == 40.0 && r.vy == 0.0 &&
                          (PlayerW + 20.0 <= width as real ==> 10.0 <= r.x <= width as real - PlayerW - 10.0)))
  {
  }

  /** The recycle stage keeps the number of platforms and adds 5 points
      per platform replaced; every platform it leaves is an old one still
      on screen or a new one at or below the bottom edge. */
  lemma RecycledSpec(width: nat, height: nat, s: Session, ss: seq<Spawn>)
    requires |ss| >= |s.platforms| && forall i :: 0 <= i < |ss| ==> ValidSpawn(ss[i])
    ensures var r := Recycled(width, height, s, ss);
      && |r.platforms| == |s.platforms|
      && r.score == s.score + RecycleScore * (|s.platforms| - |Kept(s.platforms)|)
      && forall p :: p in r.platforms ==> (p in s.platforms && !OffTop(p)) || height as real <= p.y
  {
    RecycleKeepsCount(s.platforms);
    KeptMembers(s.platforms);
    var n := Removed(s.platforms);
    var r := Recycled(width, height, s, ss);
    forall p | p in r.platforms
      ensures (p in s.platforms && !OffTop(p)) || height as real <= p.y
    {
      if p !in Kept(s.platforms) {
        assert p in Fresh(width, height, ss[..n]);
      }
    }
  }

  lemma MultipleStep(a: int, k: nat, m: int)
    requires m > 0 && a % m == 0
    ensures (a + m * k) % m == 0
  {
    DivUnique(a + m * k, m, a / m + k, 0);
  }

  /** Every tick keeps the session invariant. */
  lemma StepValid(width: nat, height: nat, s: Session, ss: seq<Spawn>)
    requires |ss| >= |s.platforms| && forall i :: 0 <= i < |ss| ==> ValidSpawn(ss[i])
    requires SessionValid(s)
    ensures SessionValid(Step(width, height, s, ss))
  {
    if s.started {
      var m := ScrolledUp(Landed(Moved(width, s)));
      RecycledSpec(width, height, m, ss);
      RecycleKeepsCount(m.platforms);
      MultipleStep(s.score, Removed(m.platforms), RecycleScore);
      var r := Recycled(width, height, m, ss);
      assert SessionValid(r);
      if r.y > height as real + 40.0 && r.hp - FallDamage > 0 {
        assert StartHp - (r.hp - FallDamage) == (StartHp - r.hp) + FallDamage;
        MultipleStep(StartHp - r.hp, 1, FallDamage);
      }
    }
  }

  /** Before the start, or after game over, a tick changes nothing. */
  lemma StoppedStepIsIdle(width: nat, height: nat, s: Session, ss: seq<Spawn>)
    requires |ss| >= |s.platforms| && forall i :: 0 <= i < |ss| ==> ValidSpawn(ss[i])
    requires !s.started
    ensures Step(width, height, s, ss) == s
  {
  }

  // ---------------------------------------------------------------------
  // The session

  /** The game's globals: the canvas size (whole pixels), the player's
      position, intent, vertical state and hp, the platforms, the score and
      the started flag. */
  class Game {
    const width: nat
    const height: nat
    var x: real
    var y: real
    var dx: int
    var vy: real
    var onGround: bool
    var hp: int
    var platforms: seq<Platform>
    var score: int
    var started: bool

    ghost function Current(): Session
      reads this
    {
      Session(x, y, dx, vy, onGround, hp, platforms, score, started)
    }

    ghost predicate Valid()
      reads this
    {
      SessionValid(Current())
    }

    /** The state at page load, on a canvas of the given size. */
    constructor (width: nat, height: nat)
      ensures this.width == width && this.height == height
      ensures Current() == Session(240.0, 400.0, 0, 0.0, true, StartHp, [], 0, false)
      ensures Valid()
    {
      this.width, this.height := width, height;
      x, y, dx, vy, onGround, hp := 240.0, 400.0, 0, 0.0, true, StartHp;
      platforms, score, started := [], 0, false;
    }

    /** `generatePlatforms`: the list is rebuilt with twelve platforms
        spaced evenly upwards from the bottom edge. */
    method GeneratePlatforms(rolls: seq<Roll>)
      requires |rolls| == PlatformCount && forall i :: 0 <= i < |rolls| ==> ValidRoll(rolls[i])
      modifies this
      ensures Current() == old(Current()).(platforms := Generated(width, height, rolls))
    {
      platforms := [];
      var spacing := height / (PlatformCount - 1);
      var i := 0;
      while i < PlatformCount
        invariant 0 <= i <= PlatformCount
        invariant platforms == Generated(width, height, rolls[..i])
        invariant Current() == old(Current()).(platforms := platforms)
      {
        GeneratedStep(width, height, rolls, i);
        var py := (height - i * spacing) as real;
        assert py == Depth(height, i);
        platforms := platforms + [PlatformAt(width as real, rolls[i].uw, rolls[i].ux, py)];
        i := i + 1;
      }
      assert rolls[..i] == rolls;
    }

    /** `startGame` up to its `update()` call, which the caller makes as a
        separate tick: full hp, the player centred 100 above the bottom at
        rest, no score, fresh platforms; the on-ground flag is left as it
        was. */
    method StartGame(rolls: seq<Roll>)
      requires |rolls| == PlatformCount && forall i :: 0 <= i < |rolls| ==> ValidRoll(rolls[i])
      modifies this
      ensures Current() == Session(width as real / 2.0 - PlayerW / 2.0, height as real - 100.0, 0, 0.0,
                                   old(onGround), StartHp, Generated(width, height, rolls), 0, true)
      ensures Valid()
    {
      started := true;
      hp := StartHp;
      x := width as real / 2.0 - PlayerW / 2.0;
      y := height as real - 100.0;
      vy := 0.0;
      dx := 0;
      score := 0;
      GeneratePlatforms(rolls);
    }

    /** `resetGame` is `startGame`. */
    method ResetGame(rolls: seq<Roll>)
      requires |rolls| == PlatformCount && forall i :: 0 <= i < |rolls| ==> ValidRoll(rolls[i])
      modifies this
      ensures Current() == Session(width as real / 2.0 - PlayerW / 2.0, height as real - 100.0, 0, 0.0,
                                   old(onGround), StartHp, Generated(width, height, rolls), 0, true)
      ensures Valid()
    {
      StartGame(rolls);
    }

    /** `gameOver` clears the started flag and nothing else. */
    method GameOver()
      modifies this
      ensures Current() == old(Current()).(started := false)
    {
      started := false;
    }

    /** `doJump`: only from the ground, it launches the player upwards and
        leaves the ground; in the air it changes nothing. */
    method DoJump()
      modifies this
      ensures Current() == if old(onGround) then old(Current()).(vy := -JumpPower, onGround := false) else old(Current())
    {
      if onGround {
        vy := -JumpPower;
        onGround := false;
      }
    }

    /** The movement lines of `update`: intent times speed, the hard clamp,
        then gravity. */
    method MoveAndFall()
      modifies this
      ensures Current() == Moved(width, old(Current()))
    {
      x := x + (dx * Speed) as real;
      if x < 0.0 { x := 0.0; }
      if x + PlayerW > width as real { x := width as real - PlayerW; }
      vy := vy + Gravity;
      y := y + vy;
    }

    /** The landing loop of `update`. */
    method LandOnPlatforms()
      modifies this
      ensures Current() == Landed(old(Current()))
    {
      onGround := false;
      var k := 0;
      while k < |platforms|
        invariant 0 <= k <= |platforms|
        invariant Body(y, vy, onGround) == LandAll(x, Body(old(y), old(vy), false), platforms[..k])
        invariant Current() == old(Current()).(y := y, vy := vy, onGround := onGround)
      {
        assert platforms[..k + 1][..k] == platforms[..k];
        var p := platforms[k];
        var band := if 12.0 < Abs(vy) then Abs(vy) else 12.0;
        if x + PlayerW > p.x && x < p.x + p.w && y + PlayerH >= p.y && y + PlayerH <= p.y + band && vy >= 0.0 {
          y := p.y - PlayerH;
          vy := 0.0;
          onGround := true;
        }
        k := k + 1;
      }
      assert platforms[..k] == platforms;
    }

    /** The scroll loop of `update`: every platform moves up. */
    method ScrollPlatforms()
      modifies this
      ensures Current() == ScrolledUp(old(Current()))
    {
      var i := 0;
      while i < |platforms|
        invariant 0 <= i <= |platforms| == |old(platforms)|
        invariant platforms[..i] == Scrolled(old(platforms))[..i]
        invariant platforms[i..] == old(platforms)[i..]
        invariant Current() == old(Current()).(platforms := platforms)
      {
        assert platforms[i] == old(platforms)[i] by {
          assert platforms[i..][0] == old(platforms)[i..][0];
        }
        platforms := platforms[i := platforms[i].(y := platforms[i].y - ScrollSpeed)];
        i := i + 1;
      }
      assert platforms == platforms[..i];
    }

    /** The body of the recycle loop for a platform off the top: it is
        spliced out, a replacement is pushed at the end, and 5 points are
        scored. */
    method Replace(i: nat, spawn: Spawn)
      requires i < |platforms| && ValidSpawn(spawn)
      modifies this
      ensures Current() == old(Current()).(
        platforms := (old(platforms)[..i] + old(platforms)[i + 1..]) + [NewPlatform(width, height, spawn)],
        score := old(score) + RecycleScore)
    {
      platforms := platforms[..i] + platforms[i + 1..];
      platforms := platforms + [NewPlatform(width, height, spawn)];
      score := score + RecycleScore;
    }

    /** The reverse recycle loop of `update`: each platform off the top is
        spliced out and a replacement pushed at the end, for 5 points each.
        The replacements use the spawn draws in order. */
    method RecyclePlatforms(spawns: seq<Spawn>)
      requires |spawns| >= |platforms| && forall i :: 0 <= i < |spawns| ==> ValidSpawn(spawns[i])
      modifies this
      ensures Current() == Recycled(width, height, old(Current()), spawns)
    {
      ghost var ps := platforms;
      var used := 0;
      var i := |platforms|;
      assert ps[i..] == [] && ps[..i] == ps;
      while i > 0
        invariant 0 <= i <= |ps|
        invariant used == Removed(ps[i..]) && used <= |ps| - i
        invariant platforms == ps[..i] + (Kept(ps[i..]) + Fresh(width, height, spawns[..used]))
        invariant Current() == old(Current()).(platforms := platforms, score := old(score) + RecycleScore * used)
      {
        i := i - 1;
        RecycleStep(width, height, ps, i, spawns, used);
        if platforms[i].y + platforms[i].h < -10.0 {
          Replace(i, spawns[used]);
          used := used + 1;
        }
      }
      assert ps[0..] == ps;
    }

    /** The fall penalty of `update`. */
    method FallPenalty()
      modifies this
      ensures Current() == Penalized(width, height, old(Current()))
    {
      if y > height as real + 40.0 {
        hp := hp - FallDamage;
        if hp <= 0 {
          hp := 0;
          GameOver();
          return;
        } else {
          y := 40.0;
          vy := 0.0;
          x := MaxMin(10.0, width as real - PlayerW - 10.0, x);
        }
      }
    }

    /** One tick of `update`, with the draws for any platforms it
        recycles. */
    method Update(spawns: seq<Spawn>)
      requires |spawns| >= |platforms| && forall i :: 0 <= i < |spawns| ==> ValidSpawn(spawns[i])
      modifies this
      ensures Current() == Step(width, height, old(Current()), spawns)
      ensures old(Valid()) ==> Valid()
    {
      if Valid() {
        StepValid(width, height, Current(), spawns);
      }
      if !started {
        return;
      }
      MoveAndFall();
      LandOnPlatforms();
      ScrollPlatforms();
      RecyclePlatforms(spawns);
      FallPenalty();
    }

    /** The keydown handler: ignored before the start; the arrows set the
        horizontal intent and ArrowUp jumps. */
    method KeyDown(code: string)
      modifies this
      ensures !old(started) ==> Current() == old(Current())
      ensures old(started) && code == "ArrowLeft" ==> Current() == old(Current()).(dx := -1)
      ensures old(started) && code == "ArrowRight" ==> Current() == old(Current()).(dx := 1)
      ensures old(started) && code == "ArrowUp" ==>
        Current() == if old(onGround) then old(Current()).(vy := -JumpPower, onGround := false) else old(Current())
      ensures code != "ArrowLeft" && code != "ArrowRight" && code != "ArrowUp" ==> Current() == old(Current())
    {
      if !started {
        return;
      }
      if code == "ArrowLeft" { dx := -1; }
      if code == "ArrowRight" { dx := 1; }
      if code == "ArrowUp" { DoJump(); }
    }

    /** The keyup handler, active whether or not the game runs: a
        horizontal arrow stops horizontal motion. */
    method KeyUp(code: string)
      modifies this
      ensures Current() == if code == "ArrowLeft" || code == "ArrowRight" then old(Current()).(dx := 0) else old(Current())
    {
      if code == "ArrowLeft" || code == "ArrowRight" { dx := 0; }
    }
  }
}
