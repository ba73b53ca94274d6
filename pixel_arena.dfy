/** The top-down shooter: a player square that moves with the arrow keys
    and fires bullets upwards, and enemies that spawn at a fixed interval,
    fall, and are destroyed by a bullet or by touching the player. */
module PixelArena {
  import opened Arcade

  const PlayerSize: real := 20.0
  const Speed: int := 4
  const StartX: real := 250.0
  const StartY: real := 250.0
  const StartHp: int := 100
  const SpawnPeriod: nat := 60
  const ContactDamage: int := 10
  const HitScore: int := 10

  /** A bullet `{x, y, w, h, dy}`; it travels up by dy each tick. */
  datatype Bullet = Bullet(x: real, y: real, w: real, h: real, dy: real) {
    function Bounds(): Box {
      Box(x, y, w, h)
    }
  }

  /** An enemy `{x, y, w, h, dx, dy}`; it falls by dy each tick. */
  datatype Enemy = Enemy(x: real, y: real, w: real, h: real, dx: real, dy: real) {
    function Bounds(): Box {
      Box(x, y, w, h)
    }
  }

  /** The player's rectangle at (x, y). */
  function PlayerBox(x: real, y: real): Box {
    Box(x, y, PlayerSize, PlayerSize)
  }

  /** `spawnEnemy` with the three draws of `Math.random()`: somewhere along
      the top strip, falling at a speed between 2 and 4. */
  function NewEnemy(u1: real, u2: real, u3: real): (e: Enemy)
    requires 0.0 <= u1 < 1.0 && 0.0 <= u2 < 1.0 && 0.0 <= u3 < 1.0
    ensures 0.0 <= e.x < 480.0 && 0.0 <= e.y < 20.0
    ensures e.w == 20.0 && e.h == 20.0 && e.dx == 0.0
    ensures 2.0 <= e.dy < 4.0
  {
    Enemy(u1 * 480.0, u2 * 20.0, 20.0, 20.0, 0.0, 2.0 + u3 * 2.0)
  }

  /** The bullet `shoot` fires from the player at (x, y): 10 x 10, centred
      over the player, just above it, moving up by 6. */
  function Shot(x: real, y: real): (b: Bullet)
    ensures b.x + b.w / 2.0 == x + PlayerSize / 2.0 && b.y + b.h == y
    ensures b.w == 10.0 && b.h == 10.0 && b.dy == 6.0
  {
    Bullet(x + PlayerSize / 2.0 - 5.0, y - 10.0, 10.0, 10.0, 6.0)
  }

  // ---------------------------------------------------------------------
  // Bullets

  /** The bullets after one tick: each moves up by its dy, and those now
      above the top edge are gone. */
  function Advanced(bs: seq<Bullet>): (r: seq<Bullet>)
    ensures |r| <= |bs|
    ensures forall b :: b in r ==> b.y >= 0.0
  {
    if bs == [] then []
    else
      var b := bs[|bs| - 1].(y := bs[|bs| - 1].y - bs[|bs| - 1].dy);
      Advanced(bs[..|bs| - 1]) + (if b.y < 0.0 then [] else [b])
  }

  /** Every bullet still on screen is an old bullet moved up by its dy,
      and every old bullet that is still at or below the top edge after
      moving is on screen. */
  lemma {:induction false} AdvancedMembers(bs: seq<Bullet>)
    ensures forall b :: b in Advanced(bs) ==> exists a :: a in bs && b == a.(y := a.y - a.dy)
    ensures forall a :: a in bs && a.y - a.dy >= 0.0 ==> a.(y := a.y - a.dy) in Advanced(bs)
  {
    if bs != [] {
      var init := bs[..|bs| - 1];
      var last := bs[|bs| - 1];
      AdvancedMembers(init);
      assert bs == init + [last];
      forall b | b in Advanced(bs)
        ensures exists a :: a in bs && b == a.(y := a.y - a.dy)
      {
        if b in Advanced(init) {
          var a :| a in init && b == a.(y := a.y - a.dy);
          assert a in bs;
        } else {
          assert b == last.(y := last.y - last.dy);
        }
      }
    }
  }

  /** Every bullet moved up by its dy, before the top-edge test. */
  function Flown(bs: seq<Bullet>): (r: seq<Bullet>)
    ensures |r| == |bs|
  {
    seq(|bs|, i requires 0 <= i < |bs| => bs[i].(y := bs[i].y - bs[i].dy))
  }

  /** The bullet loop keeps every moved bullet at or below the top edge
      as often as it occurs, and drops every one above it. */
  lemma {:induction false} AdvancedCounts(bs: seq<Bullet>)
    ensures forall b :: multiset(Advanced(bs))[b] == if b.y < 0.0 then 0 else multiset(Flown(bs))[b]
  {
    if bs != [] {
      var init := bs[..|bs| - 1];
      AdvancedCounts(init);
      assert Flown(bs) == Flown(init) + [Flown(bs)[|bs| - 1]];
    }
  }

  /** The bullets that do not overlap the rectangle `target`, in order. */
  function Missing(bs: seq<Bullet>, target: Box): (r: seq<Bullet>)
    ensures |r| <= |bs|
  {
    if bs == [] then []
    else Missing(bs[..|bs| - 1], target) + (if Overlaps(bs[|bs| - 1].Bounds(), target) then [] else [bs[|bs| - 1]])
  }

  /** The bullets kept by the test against one enemy are exactly those
      that miss it. */
  lemma {:induction false} MissingMembers(bs: seq<Bullet>, target: Box)
    ensures forall b :: b in Missing(bs, target) <==> b in bs && !Overlaps(b.Bounds(), target)
  {
    if bs != [] {
      var init := bs[..|bs| - 1];
      MissingMembers(init, target);
      assert bs == init + [bs[|bs| - 1]];
    }
  }

  /** The test against one enemy keeps each missing bullet as often as
      it occurs, and no hitting bullet at all. */
  lemma {:induction false} MissingCounts(bs: seq<Bullet>, target: Box)
    ensures forall b ::
      multiset(Missing(bs, target))[b] == if Overlaps(b.Bounds(), target) then 0 else multiset(bs)[b]
  {
    if bs != [] {
      var init := bs[..|bs| - 1];
      MissingCounts(init, target);
      assert bs == init + [bs[|bs| - 1]];
    }
  }

  /** A bullet overlapping the target is destroyed, so the test leaves
      strictly fewer bullets. */
  lemma {:induction false} MissingDrops(bs: seq<Bullet>, target: Box)
    requires exists b :: b in bs && Overlaps(b.Bounds(), target)
    ensures |Missing(bs, target)| < |bs|
  {
    var b :| b in bs && Overlaps(b.Bounds(), target);
    var init := bs[..|bs| - 1];
    assert bs == init + [bs[|bs| - 1]];
    if !Overlaps(bs[|bs| - 1].Bounds(), target) {
      assert b in init;
      MissingDrops(init, target);
    }
  }

  // ---------------------------------------------------------------------
  // One tick of the enemy loop

  /** What the enemy loop carries from one enemy to the next: hp, the
      started flag, score, the live bullets, and the enemies kept so far. */
  datatype Tally = Tally(hp: int, started: bool, score: int, bullets: seq<Bullet>, kept: seq<Enemy>)

  /** The fallen version of an enemy. */
  function Fallen(e: Enemy): Enemy {
    e.(y := e.y + e.dy)
  }

  /** One enemy falls by its dy; touching the player costs 10 hp and, at 0
      or below, ends the game; every bullet overlapping it is destroyed and
      scores 10; it stays only if neither happened. */
  function Meet(t: Tally, player: Box, e: Enemy): Tally {
    var f := Fallen(e);
    var contact := Overlaps(player, f.Bounds());
    var hp := if contact then t.hp - ContactDamage else t.hp;
    var rest := Missing(t.bullets, f.Bounds());
    var hits := |t.bullets| - |rest|;
    Tally(hp,
          if contact && hp <= 0 then false else t.started,
          t.score + HitScore * hits,
          rest,
          if contact || hits > 0 then t.kept else t.kept + [f])
  }

  /** One enemy's turn keeps it, fallen, exactly when it touches neither
      the player nor any live bullet; a contact or a bullet hit removes it
      and leaves the kept enemies as they were. */
  lemma MeetKept(t: Tally, player: Box, e: Enemy)
    ensures Meet(t, player, e).kept ==
      if !Overlaps(player, Fallen(e).Bounds()) &&
         (forall b :: b in t.bullets ==> !Overlaps(b.Bounds(), Fallen(e).Bounds()))
      then t.kept + [Fallen(e)]
      else t.kept
  {
    var target := Fallen(e).Bounds();
    if forall b :: b in t.bullets ==> !Overlaps(b.Bounds(), target) {
      MissingAll(t.bullets, target);
    } else {
      MissingDrops(t.bullets, target);
    }
  }

  /** The enemy loop over es, in order. */
  function MeetAll(t: Tally, player: Box, es: seq<Enemy>): Tally {
    if es == [] then t else Meet(MeetAll(t, player, es[..|es| - 1]), player, es[|es| - 1])
  }

  /** How many of the enemies, once fallen, touch the player. */
  function Contacts(player: Box, es: seq<Enemy>): nat {
    if es == [] then 0
    else
      var e := es[|es| - 1];
      Contacts(player, es[..|es| - 1]) + (if Overlaps(player, Fallen(e).Bounds()) then 1 else 0)
  }

  /** Score rises by exactly 10 for every bullet the loop destroys, hp
      falls by exactly 10 for every enemy that touches the player, and the
      game stops exactly when some contact brings hp to 0 or below. */
  lemma {:induction false} MeetAllCounts(t: Tally, player: Box, es: seq<Enemy>)
    ensures var r := MeetAll(t, player, es);
      && |r.bullets| <= |t.bullets|
      && r.score == t.score + HitScore * (|t.bullets| - |r.bullets|)
      && r.hp == t.hp - ContactDamage * Contacts(player, es)
      && (r.started <==> t.started && (Contacts(player, es) == 0 || r.hp > 0))
  {
    if es != [] {
      MeetAllCounts(t, player, es[..|es| - 1]);
    }
  }

  /** A surviving bullet is an old one that overlaps no fallen enemy. */
  lemma {:induction false} MeetAllBullets(t: Tally, player: Box, es: seq<Enemy>)
    ensures var r := MeetAll(t, player, es);
      && (forall b :: b in r.bullets ==> b in t.bullets)
      && (forall b, e :: b in r.bullets && e in es ==> !Overlaps(b.Bounds(), Fallen(e).Bounds()))
  {
    if es != [] {
      var init := es[..|es| - 1];
      var e := es[|es| - 1];
      MeetAllBullets(t, player, init);
      var m := MeetAll(t, player, init);
      MissingMembers(m.bullets, Fallen(e).Bounds());
      assert es == init + [e];
    }
  }

  /** The enemies the loop keeps, starting from none: each is a fallen
      enemy that does not touch the player, at most one per enemy. */
  lemma {:induction false} MeetAllKept(t: Tally, player: Box, es: seq<Enemy>)
    requires t.kept == []
    ensures var r := MeetAll(t, player, es);
      && |r.kept| <= |es|
      && (forall f :: f in r.kept ==> !Overlaps(player, f.Bounds()) && exists e :: e in es && f == Fallen(e))
  {
    if es != [] {
      var init := es[..|es| - 1];
      var e := es[|es| - 1];
      MeetAllKept(t, player, init);
      assert es == init + [e];
      var m := MeetAll(t, player, init);
      forall f | f in MeetAll(t, player, es).kept
        ensures exists e' :: e' in es && f == Fallen(e')
      {
        if f in m.kept {
          var e' :| e' in init && f == Fallen(e');
          assert e' in es;
        } else {
          assert f == Fallen(e);
        }
      }
    }
  }

  /** A fallen enemy that touches neither the player nor any bullet that
      was live when the loop began is kept. */
  lemma {:induction false} MeetAllKeepsUntouched(t: Tally, player: Box, es: seq<Enemy>)
    ensures forall e ::
      (e in es && !Overlaps(player, Fallen(e).Bounds()) &&
       (forall b :: b in t.bullets ==> !Overlaps(b.Bounds(), Fallen(e).Bounds()))) ==>
      Fallen(e) in MeetAll(t, player, es).kept
  {
    if es != [] {
      var init := es[..|es| - 1];
      var e := es[|es| - 1];
      MeetAllKeepsUntouched(t, player, init);
      MeetAllBullets(t, player, init);
      assert es == init + [e];
      var m := MeetAll(t, player, init);
      if !Overlaps(player, Fallen(e).Bounds()) &&
         (forall b :: b in t.bullets ==> !Overlaps(b.Bounds(), Fallen(e).Bounds())) {
        MissingAll(m.bullets, Fallen(e).Bounds());
      }
    }
  }

  /** When no bullet overlaps the target, all of them are kept. */
  lemma {:induction false} MissingAll(bs: seq<Bullet>, target: Box)
    requires forall b :: b in bs ==> !Overlaps(b.Bounds(), target)
    ensures Missing(bs, target) == bs
  {
    if bs != [] {
      MissingAll(bs[..|bs| - 1], target);
      assert bs == bs[..|bs| - 1] + [bs[|bs| - 1]];
    }
  }

  // ---------------------------------------------------------------------
  // The session

  /** The arena's globals: the canvas size, the player's position, intent,
      and hp, the live bullets and enemies, the score, the started flag and
      the spawn counter. */
  class Game {
    const width: real
    const height: real
    var x: real
    var y: real
    var dx: int
    var dy: int
    var hp: int
    var bullets: seq<Bullet>
    var enemies: seq<Enemy>
    var score: int
    var started: bool
    var spawnTimer: nat

    /** Score is only ever reset to 0 or raised by 10, so it stays a
        non-negative multiple of 10. */
    ghost predicate Valid()
      reads this
    {
      score >= 0 && score % HitScore == 0
    }

    /** The state at page load, on a canvas of the given size. */
    constructor (width: real, height: real)
      ensures this.width == width && this.height == height
      ensures x == StartX && y == StartY && dx == 0 && dy == 0 && hp == StartHp
      ensures bullets == [] && enemies == [] && score == 0 && !started && spawnTimer == 0
      ensures Valid()
    {
      this.width, this.height := width, height;
      x, y, dx, dy, hp := StartX, StartY, 0, 0, StartHp;
      bullets, enemies := [], [];
      score, started, spawnTimer := 0, false, 0;
    }

    /** `resetGame`: the player back at (250, 250) with full hp, no bullets
        or enemies, score and timer 0; the intent and the started flag are
        left as they were. */
    method ResetGame()
      modifies this
      ensures x == StartX && y == StartY && hp == StartHp
      ensures bullets == [] && enemies == [] && score == 0 && spawnTimer == 0
      ensures dx == old(dx) && dy == old(dy) && started == old(started)
      ensures Valid()
    {
      x, y, hp := StartX, StartY, StartHp;
      bullets, enemies, score, spawnTimer := [], [], 0, 0;
    }

    /** `startGame` up to its first `update()`, which the caller makes as
        a separate tick. */
    method StartGame()
      modifies this
      ensures started
      ensures x == StartX && y == StartY && hp == StartHp
      ensures bullets == [] && enemies == [] && score == 0 && spawnTimer == 0
      ensures dx == old(dx) && dy == old(dy)
      ensures Valid()
    {
      started := true;
      ResetGame();
    }

    /** `gameOver` clears the started flag and nothing else. */
    method GameOver()
      modifies this
      ensures !started
      ensures x == old(x) && y == old(y) && dx == old(dx) && dy == old(dy) && hp == old(hp)
      ensures bullets == old(bullets) && enemies == old(enemies)
      ensures score == old(score) && spawnTimer == old(spawnTimer)
    {
      started := false;
    }

    /** `shoot` appends one bullet above the player and changes nothing
        else. */
    method Shoot()
      modifies this
      ensures bullets == old(bullets) + [Shot(x, y)]
      ensures x == old(x) && y == old(y) && dx == old(dx) && dy == old(dy) && hp == old(hp)
      ensures enemies == old(enemies) && score == old(score)
      ensures started == old(started) && spawnTimer == old(spawnTimer)
    {
      bullets := bullets + [Shot(x, y)];
    }

    /** `spawnEnemy` appends one enemy built from three draws. */
    method SpawnEnemy(u1: real, u2: real, u3: real)
      requires 0.0 <= u1 < 1.0 && 0.0 <= u2 < 1.0 && 0.0 <= u3 < 1.0
      modifies this
      ensures enemies == old(enemies) + [NewEnemy(u1, u2, u3)]
      ensures x == old(x) && y == old(y) && dx == old(dx) && dy == old(dy) && hp == old(hp)
      ensures bullets == old(bullets) && score == old(score)
      ensures started == old(started) && spawnTimer == old(spawnTimer)
    {
      enemies := enemies + [NewEnemy(u1, u2, u3)];
    }

    /** The bullet pass of `update`: every bullet moves up and those above
        the top edge are dropped. */
    method AdvanceBullets()
      modifies this
      ensures bullets == Advanced(old(bullets))
      ensures x == old(x) && y == old(y) && dx == old(dx) && dy == old(dy) && hp == old(hp)
      ensures enemies == old(enemies) && score == old(score)
      ensures started == old(started) && spawnTimer == old(spawnTimer)
    {
      var live := [];
      var i := 0;
      while i < |bullets|
        invariant 0 <= i <= |bullets|
        invariant live == Advanced(bullets[..i])
      {
        var b := bullets[i].(y := bullets[i].y - bullets[i].dy);
        assert bullets[..i + 1][..i] == bullets[..i];
        if b.y >= 0.0 {
          live := live + [b];
        }
        i := i + 1;
      }
      assert bullets[..i] == bullets;
      bullets := live;
    }

    /** The bullet loop inside the enemy loop: every bullet overlapping
        the target is destroyed and scores 10. */
    method Strike(target: Box)
      modifies this
      ensures bullets == Missing(old(bullets), target)
      ensures score == old(score) + HitScore * (|old(bullets)| - |bullets|)
      ensures x == old(x) && y == old(y) && dx == old(dx) && dy == old(dy) && hp == old(hp)
      ensures enemies == old(enemies) && started == old(started) && spawnTimer == old(spawnTimer)
      ensures old(Valid()) ==> Valid()
    {
      var rest := [];
      var j := 0;
      while j < |bullets|
        invariant 0 <= j <= |bullets|
        invariant rest == Missing(bullets[..j], target)
        invariant score == old(score) + HitScore * (j - |rest|)
        invariant score >= old(score) && score % HitScore == old(score) % HitScore
        invariant x == old(x) && y == old(y) && dx == old(dx) && dy == old(dy) && hp == old(hp)
        invariant enemies == old(enemies) && started == old(started) && spawnTimer == old(spawnTimer)
        invariant bullets == old(bullets)
      {
        assert bullets[..j + 1][..j] == bullets[..j];
        if Overlaps(bullets[j].Bounds(), target) {
          score := score + HitScore;
        } else {
          rest := rest + [bullets[j]];
        }
        j := j + 1;
      }
      assert bullets[..j] == bullets;
      bullets := rest;
    }

    /** The body of the enemy loop for one enemy e, given the enemies kept
        so far: e falls, a contact with the player costs 10 hp (and ends the
        game at 0 or below), every bullet overlapping it is destroyed for 10
        points, and it is kept only if neither happened. */
    method Engage(e: Enemy, kept: seq<Enemy>) returns (kept': seq<Enemy>)
      modifies this
      ensures Tally(hp, started, score, bullets, kept') ==
              Meet(Tally(old(hp), old(started), old(score), old(bullets), kept), PlayerBox(x, y), e)
      ensures x == old(x) && y == old(y) && dx == old(dx) && dy == old(dy)
      ensures enemies == old(enemies) && spawnTimer == old(spawnTimer)
      ensures old(Valid()) ==> Valid()
    {
      var f := Fallen(e);
      var contact := false;
      if Overlaps(PlayerBox(x, y), f.Bounds()) {
        hp := hp - ContactDamage;
        contact := true;
        if hp <= 0 {
          GameOver();
        }
      }
      var before := bullets;
      Strike(f.Bounds());
      var hit := |bullets| < |before|;
      kept' := if contact || hit then kept else kept + [f];
    }

    /** The enemy loop of `update`, followed by the removal of the enemies
        marked as destroyed. */
    method EngageAll()
      modifies this
      ensures Tally(hp, started, score, bullets, enemies) ==
              MeetAll(Tally(old(hp), old(started), old(score), old(bullets), []), PlayerBox(x, y), old(enemies))
      ensures x == old(x) && y == old(y) && dx == old(dx) && dy == old(dy)
      ensures spawnTimer == old(spawnTimer)
      ensures old(Valid()) ==> Valid()
    {
      ghost var t0 := Tally(hp, started, score, bullets, []);
      var es := enemies;
      var kept := [];
      var k := 0;
      while k < |es|
        invariant 0 <= k <= |es|
        invariant x == old(x) && y == old(y) && dx == old(dx) && dy == old(dy)
        invariant spawnTimer == old(spawnTimer) && enemies == es
        invariant Tally(hp, started, score, bullets, kept) == MeetAll(t0, PlayerBox(x, y), es[..k])
        invariant old(Valid()) ==> Valid()
      {
        assert es[..k + 1][..k] == es[..k];
        kept := Engage(es[k], kept);
        k := k + 1;
      }
      assert es[..k] == es;
      enemies := kept;
    }

    /** One tick of `update`. Before the start (or after game over) the tick
        does nothing. Otherwise: the player moves by its intent times the
        speed and is clamped to the canvas, the bullets advance, the timer
        counts one and on a multiple of 60 an enemy is spawned from the
        draws, and the enemy loop runs against the player's new box. */
    method Update(u1: real, u2: real, u3: real)
      requires 0.0 <= u1 < 1.0 && 0.0 <= u2 < 1.0 && 0.0 <= u3 < 1.0
      requires Valid()
      modifies this
      ensures Valid()
      ensures !old(started) ==>
        x == old(x) && y == old(y) && hp == old(hp) && bullets == old(bullets) &&
        enemies == old(enemies) && score == old(score) && !started && spawnTimer == old(spawnTimer)
      ensures old(started) ==>
        && x == ClampSpan(old(x) + (old(dx) * Speed) as real, PlayerSize, width)
        && y == ClampSpan(old(y) + (old(dy) * Speed) as real, PlayerSize, height)
        && spawnTimer == old(spawnTimer) + 1
        && var spawned := if Fires(spawnTimer, SpawnPeriod) then [NewEnemy(u1, u2, u3)] else [];
           Tally(hp, started, score, bullets, enemies) ==
           MeetAll(Tally(old(hp), true, old(score), Advanced(old(bullets)), []),
                   PlayerBox(x, y), old(enemies) + spawned)
      ensures dx == old(dx) && dy == old(dy)
    {
      if !started {
        return;
      }
      x := ClampSpan(x + (dx * Speed) as real, PlayerSize, width);
      y := ClampSpan(y + (dy * Speed) as real, PlayerSize, height);
      AdvanceBullets();
      spawnTimer := spawnTimer + 1;
      ghost var spawned: seq<Enemy> := if Fires(spawnTimer, SpawnPeriod) then [NewEnemy(u1, u2, u3)] else [];
      if spawnTimer % SpawnPeriod == 0 {
        SpawnEnemy(u1, u2, u3);
      }
      assert enemies == old(enemies) + spawned;
      EngageAll();
    }

    /** The keydown handler: ignored before the start; the arrows set the
        intent and Space fires. */
    method KeyDown(code: string)
      modifies this
      ensures !old(started) ==> dx == old(dx) && dy == old(dy) && bullets == old(bullets)
      ensures old(started) ==>
        && dx == (if code == "ArrowLeft" then -1 else if code == "ArrowRight" then 1 else old(dx))
        && dy == (if code == "ArrowUp" then -1 else if code == "ArrowDown" then 1 else old(dy))
        && bullets == old(bullets) + (if code == "Space" then [Shot(x, y)] else [])
      ensures x == old(x) && y == old(y) && hp == old(hp) && enemies == old(enemies)
      ensures score == old(score) && started == old(started) && spawnTimer == old(spawnTimer)
    {
      if !started {
        return;
      }
      if code == "ArrowLeft" { dx := -1; }
      if code == "ArrowRight" { dx := 1; }
      if code == "ArrowUp" { dy := -1; }
      if code == "ArrowDown" { dy := 1; }
      if code == "Space" { Shoot(); }
    }

    /** The keyup handler, active whether or not the game runs: a
        horizontal arrow stops horizontal motion, a vertical one vertical
        motion. */
    method KeyUp(code: string)
      modifies this
      ensures dx == (if code == "ArrowLeft" || code == "ArrowRight" then 0 else old(dx))
      ensures dy == (if code == "ArrowUp" || code == "ArrowDown" then 0 else old(dy))
      ensures x == old(x) && y == old(y) && hp == old(hp) && bullets == old(bullets)
      ensures enemies == old(enemies) && score == old(score)
      ensures started == old(started) && spawnTimer == old(spawnTimer)
    {
      if code == "ArrowLeft" || code == "ArrowRight" { dx := 0; }
      if code == "ArrowUp" || code == "ArrowDown" { dy := 0; }
    }
  }
}
