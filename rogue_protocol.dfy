/** The dodge-and-collect game: a player square steered with the arrow
    keys, enemies that fall from above and cost hp on contact, and items
    that fall more slowly and score on pickup. */
module RogueProtocol {
  import opened Arcade

  const PlayerSize: real := 20.0
  const Speed: int := 4
  const StartX: real := 240.0
  const StartY: real := 400.0
  const StartHp: int := 100
  const EnemyPeriod: nat := 80
  const ItemPeriod: nat := 200
  /** Below this y a falling entity is off the bottom of the field. */
  const Bottom: real := 500.0
  const ContactDamage: int := 10
  const PickupScore: int := 5

  /** An enemy or an item `{x, y, w, h, dy}`; both fall by dy each tick. */
  datatype Faller = Faller(x: real, y: real, w: real, h: real, dy: real) {
    function Bounds(): Box {
      Box(x, y, w, h)
    }
  }

  /** The player's rectangle at (x, y). */
  function PlayerBox(x: real, y: real): Box {
    Box(x, y, PlayerSize, PlayerSize)
  }

  /** `spawnEnemy` with its two draws: 20 x 20, just above the top edge,
      falling at a speed between 2 and 4. */
  function NewEnemy(u1: real, u2: real): (e: Faller)
    requires 0.0 <= u1 < 1.0 && 0.0 <= u2 < 1.0
    ensures 0.0 <= e.x < 480.0 && e.y == -20.0 && e.w == 20.0 && e.h == 20.0
    ensures 2.0 <= e.dy < 4.0
  {
    Faller(u1 * 480.0, -20.0, 20.0, 20.0, 2.0 + u2 * 2.0)
  }

  /** `spawnItem` with its two draws: 15 x 15, just above the top edge,
      falling at a speed between 1.5 and 2.5. */
  function NewItem(u1: real, u2: real): (it: Faller)
    requires 0.0 <= u1 < 1.0 && 0.0 <= u2 < 1.0
    ensures 0.0 <= it.x < 480.0 && it.y == -20.0 && it.w == 15.0 && it.h == 15.0
    ensures 1.5 <= it.dy < 2.5
  {
    Faller(u1 * 480.0, -20.0, 15.0, 15.0, 1.5 + u2)
  }

  // ---------------------------------------------------------------------
  // Spawn timers

  /** Enemies and items spawn on the same tick exactly when the counter is
      a multiple of 400, the least common multiple of 80 and 200. */
  lemma BothSpawn(t: nat)
    ensures Fires(t, EnemyPeriod) && Fires(t, ItemPeriod) <==> Fires(t, 400)
  {
    var q, r := t / 400, t % 400;
    assert t == 400 * q + r;
    DivUnique(t, 80, 5 * q + r / 80, r % 80);
    DivUnique(t, 200, 2 * q + r / 200, r % 200);
    if r % 80 == 0 && r % 200 == 0 {
      var k := r / 200;
      assert r == 200 * k;
      assert k == 0 || k == 1;
      if k == 1 {
        DivUnique(200, 80, 2, 40);
      }
    }
  }

  // ---------------------------------------------------------------------
  // The falling entities

  /** The entity after one tick of falling. */
  function Fall(f: Faller): Faller {
    f.(y := f.y + f.dy)
  }

  /** Has the entity left the field at the bottom (`y > 500`)? */
  predicate OffScreen(f: Faller) {
    f.y > Bottom
  }

  /** Does the fallen entity touch the player? */
  predicate Touches(player: Box, f: Faller) {
    Overlaps(player, Fall(f).Bounds())
  }

  /** Does the entity survive the tick: still on the field after falling
      and not touching the player? */
  predicate Stays(player: Box, f: Faller) {
    !OffScreen(Fall(f)) && !Touches(player, f)
  }

  /** The entities the loop keeps, fallen, in their old order. */
  function Survivors(player: Box, fs: seq<Faller>): (r: seq<Faller>)
    ensures |r| <= |fs|
  {
    if fs == [] then []
    else
      var f := fs[|fs| - 1];
      Survivors(player, fs[..|fs| - 1]) + (if Stays(player, f) then [Fall(f)] else [])
  }

  /** How many of the entities touch the player this tick. */
  function Contacts(player: Box, fs: seq<Faller>): (n: nat)
    ensures n <= |fs|
  {
    if fs == [] then 0
    else Contacts(player, fs[..|fs| - 1]) + (if Touches(player, fs[|fs| - 1]) then 1 else 0)
  }

  /** An entity that touches the player never survives: the survivors and
      the contacts together number at most the entities. */
  lemma {:induction false} ContactsRemoved(player: Box, fs: seq<Faller>)
    ensures |Survivors(player, fs)| + Contacts(player, fs) <= |fs|
  {
    if fs != [] {
      ContactsRemoved(player, fs[..|fs| - 1]);
    }
  }

  /** Every survivor is an entity that, fallen, is on the field and clear
      of the player. */
  lemma {:induction false} SurvivorsSound(player: Box, fs: seq<Faller>)
    ensures forall g :: g in Survivors(player, fs) ==>
      !OffScreen(g) && !Overlaps(player, g.Bounds()) && exists f :: f in fs && g == Fall(f)
  {
    if fs != [] {
      var init := fs[..|fs| - 1];
      var last := fs[|fs| - 1];
      SurvivorsSound(player, init);
      assert fs == init + [last];
      forall g | g in Survivors(player, fs)
        ensures exists f :: f in fs && g == Fall(f)
      {
        if g in Survivors(player, init) {
          var f :| f in init && g == Fall(f);
          assert f in fs;
        } else {
          assert g == Fall(last);
        }
      }
    }
  }

  /** Every entity after one tick of falling, before any test. */
  function Falls(fs: seq<Faller>): (r: seq<Faller>)
    ensures |r| == |fs|
  {
    seq(|fs|, i requires 0 <= i < |fs| => Fall(fs[i]))
  }

  /** The loop keeps each fallen entity on the field and clear of the
      player as often as it occurs, and no other entity. */
  lemma {:induction false} SurvivorsCounts(player: Box, fs: seq<Faller>)
    ensures forall g ::
      multiset(Survivors(player, fs))[g] ==
        if OffScreen(g) || Overlaps(player, g.Bounds()) then 0 else multiset(Falls(fs))[g]
  {
    if fs != [] {
      var init := fs[..|fs| - 1];
      SurvivorsCounts(player, init);
      assert Falls(fs) == Falls(init) + [Fall(fs[|fs| - 1])];
    }
  }

  /** Every entity that stays is among the survivors. */
  lemma {:induction false} SurvivorsComplete(player: Box, fs: seq<Faller>)
    ensures forall f :: f in fs && Stays(player, f) ==> Fall(f) in Survivors(player, fs)
  {
    if fs != [] {
      var init := fs[..|fs| - 1];
      SurvivorsComplete(player, init);
      assert fs == init + [fs[|fs| - 1]];
    }
  }

  // ---------------------------------------------------------------------
  // The session

  /** The game's globals: the canvas size, the player's position, intent
      and hp, the enemies and items on the field, the score, the started
      flag and the spawn counter. */
  class Game {
    const width: real
    const height: real
    var x: real
    var y: real
    var dx: int
    var dy: int
    var hp: int
    var enemies: seq<Faller>
    var items: seq<Faller>
    var score: int
    var started: bool
    var spawnTimer: nat

    /** Score is only ever reset to 0 or raised by 5, so it stays a
        non-negative multiple of 5. */
    ghost predicate Valid()
      reads this
    {
      score >= 0 && score % PickupScore == 0
    }

    /** The state at page load, on a canvas of the given size. */
    constructor (width: real, height: real)
      ensures this.width == width && this.height == height
      ensures x == StartX && y == StartY && dx == 0 && dy == 0 && hp == StartHp
      ensures enemies == [] && items == [] && score == 0 && !started && spawnTimer == 0
      ensures Valid()
    {
      this.width, this.height := width, height;
      x, y, dx, dy, hp := StartX, StartY, 0, 0, StartHp;
      enemies, items := [], [];
      score, started, spawnTimer := 0, false, 0;
    }

    /** `startGame` up to its `update()` call, which the caller makes as a
        separate tick: full hp, no score, an empty field and the timer at
        0; the player stays where it was. */
    method StartGame()
      modifies this
      ensures started && hp == StartHp && score == 0
      ensures enemies == [] && items == [] && spawnTimer == 0
      ensures x == old(x) && y == old(y) && dx == old(dx) && dy == old(dy)
      ensures Valid()
    {
      started := true;
      hp, score := StartHp, 0;
      enemies, items := [], [];
      spawnTimer := 0;
    }

    /** `resetGame` is `startGame`. */
    method ResetGame()
      modifies this
      ensures started && hp == StartHp && score == 0
      ensures enemies == [] && items == [] && spawnTimer == 0
      ensures x == old(x) && y == old(y) && dx == old(dx) && dy == old(dy)
      ensures Valid()
    {
      StartGame();
    }

    /** `gameOver` clears the started flag and nothing else. */
    method GameOver()
      modifies this
      ensures !started
      ensures x == old(x) && y == old(y) && dx == old(dx) && dy == old(dy) && hp == old(hp)
      ensures enemies == old(enemies) && items == old(items)
      ensures score == old(score) && spawnTimer == old(spawnTimer)
    {
      started := false;
    }

    /** One enemy of the enemy loop: it falls; contact costs 10 hp and at 0
        or below ends the game; it stays only if it is still on the field
        and did not touch the player. */
    method EnemyStep(e: Faller) returns (keep: bool)
      modifies this
      ensures keep == Stays(PlayerBox(x, y), e)
      ensures hp == old(hp) - (if Touches(PlayerBox(x, y), e) then ContactDamage else 0)
      ensures started == (if Touches(PlayerBox(x, y), e) && hp <= 0 then false else old(started))
      ensures x == old(x) && y == old(y) && dx == old(dx) && dy == old(dy)
      ensures enemies == old(enemies) && items == old(items)
      ensures score == old(score) && spawnTimer == old(spawnTimer)
    {
      var f := Fall(e);
      keep := true;
      if f.y > Bottom {
        keep := false;
      }
      if Overlaps(PlayerBox(x, y), f.Bounds()) {
        hp := hp - ContactDamage;
        keep := false;
        if hp <= 0 {
          GameOver();
        }
      }
    }

    /** The enemy loop of `update`, followed by the removal of the enemies
        marked as gone: hp falls by 10 per contact and the game ends exactly
        when some contact brings hp to 0 or below. */
    method SweepEnemies()
      modifies this
      ensures enemies == Survivors(PlayerBox(x, y), old(enemies))
      ensures hp == old(hp) - ContactDamage * Contacts(PlayerBox(x, y), old(enemies))
      ensures started == (old(started) && (Contacts(PlayerBox(x, y), old(enemies)) == 0 || hp > 0))
      ensures x == old(x) && y == old(y) && dx == old(dx) && dy == old(dy)
      ensures items == old(items) && score == old(score) && spawnTimer == old(spawnTimer)
    {
      var es := enemies;
      var kept := [];
      var k := 0;
      while k < |es|
        invariant 0 <= k <= |es|
        invariant x == old(x) && y == old(y) && dx == old(dx) && dy == old(dy)
        invariant enemies == es && items == old(items) && score == old(score) && spawnTimer == old(spawnTimer)
        invariant kept == Survivors(PlayerBox(x, y), es[..k])
        invariant hp == old(hp) - ContactDamage * Contacts(PlayerBox(x, y), es[..k])
        invariant started == (old(started) && (Contacts(PlayerBox(x, y), es[..k]) == 0 || hp > 0))
      {
        assert es[..k + 1][..k] == es[..k];
        var keep := EnemyStep(es[k]);
        if keep {
          kept := kept + [Fall(es[k])];
        }
        k := k + 1;
      }
      assert es[..k] == es;
      enemies := kept;
    }

    /** The item loop of `update`, followed by the removal of the items
        marked as gone: 5 points per item picked up. */
    method SweepItems()
      modifies this
      ensures items == Survivors(PlayerBox(x, y), old(items))
      ensures score == old(score) + PickupScore * Contacts(PlayerBox(x, y), old(items))
      ensures x == old(x) && y == old(y) && dx == old(dx) && dy == old(dy) && hp == old(hp)
      ensures enemies == old(enemies) && started == old(started) && spawnTimer == old(spawnTimer)
      ensures old(Valid()) ==> Valid()
    {
      var its := items;
      var kept := [];
      var k := 0;
      while k < |its|
        invariant 0 <= k <= |its|
        invariant x == old(x) && y == old(y) && dx == old(dx) && dy == old(dy) && hp == old(hp)
        invariant enemies == old(enemies) && started == old(started) && spawnTimer == old(spawnTimer)
        invariant items == its
        invariant kept == Survivors(PlayerBox(x, y), its[..k])
        invariant score == old(score) + PickupScore * Contacts(PlayerBox(x, y), its[..k])
        invariant score >= old(score) && score % PickupScore == old(score) % PickupScore
      {
        assert its[..k + 1][..k] == its[..k];
        var f := Fall(its[k]);
        var keep := true;
        if f.y > Bottom {
          keep := false;
        }
        if Overlaps(PlayerBox(x, y), f.Bounds()) {
          score := score + PickupScore;
          keep := false;
        }
        if keep {
          kept := kept + [f];
        }
        k := k + 1;
      }
      assert its[..k] == its;
      items := kept;
    }

    /** The spawn step of `update`: the timer counts one, then an enemy
        is appended on a multiple of 80 and an item on a multiple of 200. */
    method Spawn(u1: real, u2: real, u3: real, u4: real)
      requires 0.0 <= u1 < 1.0 && 0.0 <= u2 < 1.0 && 0.0 <= u3 < 1.0 && 0.0 <= u4 < 1.0
      modifies this
      ensures spawnTimer == old(spawnTimer) + 1
      ensures enemies == old(enemies) + (if Fires(spawnTimer, EnemyPeriod) then [NewEnemy(u1, u2)] else [])
      ensures items == old(items) + (if Fires(spawnTimer, ItemPeriod) then [NewItem(u3, u4)] else [])
      ensures x == old(x) && y == old(y) && dx == old(dx) && dy == old(dy) && hp == old(hp)
      ensures score == old(score) && started == old(started)
    {
      spawnTimer := spawnTimer + 1;
      if spawnTimer % EnemyPeriod == 0 {
        enemies := enemies + [NewEnemy(u1, u2)];
      } else {
        assert enemies == enemies + [];
      }
      if spawnTimer % ItemPeriod == 0 {
        items := items + [NewItem(u3, u4)];
      } else {
        assert items == items + [];
      }
    }

    /** One tick of `update`. Before the start (or after game over) the tick
        does nothing. Otherwise: the player moves by its intent times the
        speed and is clamped to the canvas, the timer counts one, an enemy
        spawns on a multiple of 80 and an item on a multiple of 200, and
        the enemy and item loops run against the player's new box. */
    method Update(u1: real, u2: real, u3: real, u4: real)
      requires 0.0 <= u1 < 1.0 && 0.0 <= u2 < 1.0 && 0.0 <= u3 < 1.0 && 0.0 <= u4 < 1.0
      requires Valid()
      modifies this
      ensures Valid()
      ensures !old(started) ==>
        x == old(x) && y == old(y) && hp == old(hp) && enemies == old(enemies) &&
        items == old(items) && score == old(score) && !started && spawnTimer == old(spawnTimer)
      ensures old(started) ==>
        && x == ClampSpan(old(x) + (old(dx) * Speed) as real, PlayerSize, width)
        && y == ClampSpan(old(y) + (old(dy) * Speed) as real, PlayerSize, height)
        && spawnTimer == old(spawnTimer) + 1
        && var es := old(enemies) + (if Fires(spawnTimer, EnemyPeriod) then [NewEnemy(u1, u2)] else []);
           var its := old(items) + (if Fires(spawnTimer, ItemPeriod) then [NewItem(u3, u4)] else []);
           var player := PlayerBox(x, y);
           && enemies == Survivors(player, es)
           && items == Survivors(player, its)
           && hp == old(hp) - ContactDamage * Contacts(player, es)
           && started == (Contacts(player, es) == 0 || hp > 0)
           && score == old(score) + PickupScore * Contacts(player, its)
      ensures dx == old(dx) && dy == old(dy)
    {
      if !started {
        return;
      }
      x := ClampSpan(x + (dx * Speed) as real, PlayerSize, width);
      y := ClampSpan(y + (dy * Speed) as real, PlayerSize, height);
      Spawn(u1, u2, u3, u4);
      SweepEnemies();
      SweepItems();
    }

    /** The keydown handler: ignored before the start; the arrows set the
        intent. */
    method KeyDown(code: string)
      modifies this
      ensures !old(started) ==> dx == old(dx) && dy == old(dy)
      ensures old(started) ==>
        && dx == (if code == "ArrowLeft" then -1 else if code == "ArrowRight" then 1 else old(dx))
        && dy == (if code == "ArrowUp" then -1 else if code == "ArrowDown" then 1 else old(dy))
      ensures x == old(x) && y == old(y) && hp == old(hp) && enemies == old(enemies) && items == old(items)
      ensures score == old(score) && started == old(started) && spawnTimer == old(spawnTimer)
    {
      if !started {
        return;
      }
      if code == "ArrowLeft" { dx := -1; }
      if code == "ArrowRight" { dx := 1; }
      if code == "ArrowUp" { dy := -1; }
      if code == "ArrowDown" { dy := 1; }
    }

    /** The keyup handler, active whether or not the game runs: a
        horizontal arrow stops horizontal motion, a vertical one vertical
        motion. */
    method KeyUp(code: string)
      modifies this
      ensures dx == (if code == "ArrowLeft" || code == "ArrowRight" then 0 else old(dx))
      ensures dy == (if code == "ArrowUp" || code == "ArrowDown" then 0 else old(dy))
      ensures x == old(x) && y == old(y) && hp == old(hp) && enemies == old(enemies) && items == old(items)
      ensures score == old(score) && started == old(started) && spawnTimer == old(spawnTimer)
    {
      if code == "ArrowLeft" || code == "ArrowRight" { dx := 0; }
      if code == "ArrowUp" || code == "ArrowDown" { dy := 0; }
    }
  }
}
