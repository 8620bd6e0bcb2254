/** The game engine's state as a value, and what one operation of the engine
    does to it. The GameEngine class in module Engine is proved to change its
    state exactly as these functions say; the lemmas here state what the
    game promises about them. */
module Simulation {
  import opened Geometry
  import opened Entities

  /** The score at which the game is won. */
  const MaxScore: int := 25
  /** Enemies are squares of this side. */
  const EnemySide: real := 15.0
  /** Traps are squares of this side. */
  const TrapSide: real := 20.0
  /** Enemies spawned at construction and on every reset. */
  const StartEnemies: int := 5

  /** Everything the engine holds: the player's rectangle and trap counter,
      the enemies and traps in insertion order, the score and the game-over flag. */
  datatype World = World(player: Rect, activeTraps: int, enemies: seq<EnemyState>,
                         traps: seq<Rect>, score: int, gameOver: bool)

  /** What the engine keeps true between operations: the trap counter counts
      the traps on the field and never exceeds the cap, and a game that is
      not over has not reached the winning score. */
  predicate Inv(w: World)
  {
    w.activeTraps == |w.traps| && w.activeTraps <= MaxTraps &&
    0 <= w.score && (!w.gameOver ==> w.score < MaxScore)
  }

  // ----- randomness -----

  /** The four random draws SpawnEnemy makes, in the order it makes them. */
  datatype Draw = Draw(x: int, y: int, dx: real, dy: real)

  /** A value Random.Next(0, n) can return for n >= 0: one in [0, n), or 0 when n == 0. */
  predicate NextInRange(v: int, n: int)
  {
    if n == 0 then v == 0 else 0 <= v < n
  }

  /** Draws SpawnEnemy can make on a field of this size; NextDouble() * 4 - 2 lies in [-2, 2). */
  predicate ValidDraw(d: Draw, fieldWidth: int, fieldHeight: int)
  {
    NextInRange(d.x, fieldWidth - EnemySide.Floor) && NextInRange(d.y, fieldHeight - EnemySide.Floor) &&
    -2.0 <= d.dx < 2.0 && -2.0 <= d.dy < 2.0
  }

  predicate ValidDraws(ds: seq<Draw>, fieldWidth: int, fieldHeight: int)
  {
    forall i :: 0 <= i < |ds| ==> ValidDraw(ds[i], fieldWidth, fieldHeight)
  }

  /** The enemy SpawnEnemy creates from its draws. */
  function Spawned(d: Draw): EnemyState
  {
    EnemyState(Rect(d.x as real, d.y as real, EnemySide, EnemySide), d.dx, d.dy)
  }

  /** The enemies a run of SpawnEnemy calls appends, one per draw. */
  function Spawns(ds: seq<Draw>): (r: seq<EnemyState>)
    ensures |r| == |ds|
    ensures forall i :: 0 <= i < |ds| ==> r[i] == Spawned(ds[i])
  {
    if ds == [] then [] else Spawns(ds[..|ds| - 1]) + [Spawned(ds[|ds| - 1])]
  }

  /** One more SpawnEnemy call appends the enemy of the next draw. */
  lemma SpawnsExtend(ds: seq<Draw>, i: int)
    requires 0 <= i < |ds|
    ensures Spawns(ds[..i + 1]) == Spawns(ds[..i]) + [Spawned(ds[i])]
  {
    assert ds[..i + 1][..i] == ds[..i];
  }

  /** A freshly spawned enemy lies inside the field and is slower than 2 per axis. */
  lemma SpawnedFits(d: Draw, fieldWidth: int, fieldHeight: int)
    requires EnemySide <= fieldWidth as real && EnemySide <= fieldHeight as real
    requires ValidDraw(d, fieldWidth, fieldHeight)
    ensures var e := Spawned(d);
      0.0 <= e.box.x && e.box.x + e.box.w <= fieldWidth as real &&
      0.0 <= e.box.y && e.box.y + e.box.h <= fieldHeight as real &&
      Abs(e.dx) <= 2.0 && Abs(e.dy) <= 2.0
  {
  }

  // ----- traps -----

  /** The index of the first trap the rectangle collides with, or |traps| if none. */
  function FirstHit(box: Rect, traps: seq<Rect>): (j: nat)
    ensures j <= |traps|
    ensures j < |traps| ==> Collides(box, traps[j])
    ensures forall i :: 0 <= i < j ==> !Collides(box, traps[i])
  {
    if traps == [] then 0
    else if Collides(box, traps[0]) then 0
    else 1 + FirstHit(box, traps[1..])
  }

  /** PlaceTrap: below the cap, one trap the size of a trap at the player's
      position is appended and counted. */
  function PlaceTrapWorld(w: World): World
  {
    if w.activeTraps < MaxTraps then
      w.(traps := w.traps + [Rect(w.player.x, w.player.y, TrapSide, TrapSide)],
         activeTraps := w.activeTraps + 1)
    else w
  }

  lemma PlaceTrapBehaviour(w: World)
    requires Inv(w)
    ensures var r := PlaceTrapWorld(w);
      Inv(r) &&
      (w.activeTraps < MaxTraps ==>
         r.traps == w.traps + [Rect(w.player.x, w.player.y, TrapSide, TrapSide)] &&
         r.activeTraps == w.activeTraps + 1 &&
         r == w.(traps := r.traps, activeTraps := r.activeTraps)) &&
      (w.activeTraps == MaxTraps ==> r == w)
  {
  }

  // ----- one tick -----

  /** One iteration of the trap phase: move the enemy, then, if it overlaps a
      trap, remove it with the first such trap and score; otherwise keep it. */
  function Step(w: World, e: EnemyState, fieldWidth: real, fieldHeight: real): World
  {
    var m := Moved(e, fieldWidth, fieldHeight);
    var j := FirstHit(m.box, w.traps);
    if j < |w.traps| then
      w.(traps := w.traps[..j] + w.traps[j + 1..],
         activeTraps := w.activeTraps - 1,
         score := w.score + 1,
         gameOver := w.gameOver || w.score + 1 >= MaxScore)
    else
      w.(enemies := w.enemies + [m])
  }

  /** An enemy that overlaps some trap after its move is removed with the
      first trap it overlaps, one trap counter decrement and one point; one
      that overlaps none is kept, moved, and nothing else changes. */
  lemma StepOutcome(w: World, e: EnemyState, fieldWidth: real, fieldHeight: real)
    ensures var r := Step(w, e, fieldWidth, fieldHeight);
      var m := Moved(e, fieldWidth, fieldHeight);
      r.player == w.player &&
      if exists i :: 0 <= i < |w.traps| && Collides(m.box, w.traps[i]) then
        r.enemies == w.enemies &&
        (exists j :: 0 <= j < |w.traps| && Collides(m.box, w.traps[j]) &&
                     (forall i :: 0 <= i < j ==> !Collides(m.box, w.traps[i])) &&
                     r.traps == w.traps[..j] + w.traps[j + 1..]) &&
        r.activeTraps == w.activeTraps - 1 && r.score == w.score + 1 &&
        r.gameOver == (w.gameOver || r.score >= MaxScore)
      else
        r == w.(enemies := w.enemies + [m])
  {
  }

  /** The trap phase over a snapshot of the enemies, one Step per enemy in
      order; w.enemies collects the enemies that survive. */
  function TrapPhase(w: World, es: seq<EnemyState>, fieldWidth: real, fieldHeight: real): World
    decreases |es|
  {
    if es == [] then w
    else Step(TrapPhase(w, es[..|es| - 1], fieldWidth, fieldHeight), es[|es| - 1], fieldWidth, fieldHeight)
  }

  /** Running the phase over one more enemy of the snapshot is one more Step. */
  lemma TrapPhaseExtend(w: World, es: seq<EnemyState>, k: int, fieldWidth: real, fieldHeight: real)
    requires 0 <= k < |es|
    ensures TrapPhase(w, es[..k + 1], fieldWidth, fieldHeight)
            == Step(TrapPhase(w, es[..k], fieldWidth, fieldHeight), es[k], fieldWidth, fieldHeight)
  {
    assert es[..k + 1][..k] == es[..k];
  }

  /** The state after the trap phase of a tick. */
  function AfterTraps(w: World, fieldWidth: int, fieldHeight: int): World
  {
    TrapPhase(w.(enemies := []), w.enemies, fieldWidth as real, fieldHeight as real)
  }

  /** Some enemy overlaps the player. */
  predicate OverlapsPlayer(es: seq<EnemyState>, player: Rect)
  {
    exists i :: 0 <= i < |es| && Collides(es[i].box, player)
  }

  /** The difficulty rule: every fifth point allows one more enemy. */
  predicate SpawnDue(w: World)
  {
    w.score > 0 && w.score % 5 == 0 && |w.enemies| < w.score / 5 + 5
  }

  /** Reset: player back at (50, 50) with no traps, score 0, fresh enemies;
      the game-over flag is left as it was. */
  function ResetWorld(w: World, ds: seq<Draw>): World
  {
    World(w.player.(x := 50.0, y := 50.0), 0, Spawns(ds), [], 0, w.gameOver)
  }

  /** Update: one tick of the game. */
  function Tick(w: World, fieldWidth: int, fieldHeight: int, spawn: Draw, ds: seq<Draw>): World
  {
    if w.gameOver then w
    else
      var mid := AfterTraps(w, fieldWidth, fieldHeight);
      if OverlapsPlayer(mid.enemies, mid.player) then ResetWorld(mid, ds)
      else if SpawnDue(mid) then mid.(enemies := mid.enemies + [Spawned(spawn)])
      else mid
  }

  // ----- properties of the trap phase -----

  /** Bookkeeping of the trap phase: every snapshot enemy is either kept or
      removed together with exactly one trap, one trap counter decrement and
      one point; the score never falls; the game is over afterwards exactly
      when it was before or some point reached the winning score. */
  lemma {:induction false} PhaseAccounting(w: World, es: seq<EnemyState>, fieldWidth: real, fieldHeight: real)
    ensures var r := TrapPhase(w, es, fieldWidth, fieldHeight);
      var scored := r.score - w.score;
      r.player == w.player &&
      0 <= scored <= |es| &&
      |r.traps| == |w.traps| - scored &&
      r.activeTraps == w.activeTraps - scored &&
      |r.enemies| == |w.enemies| + |es| - scored &&
      r.gameOver == (w.gameOver || (scored > 0 && r.score >= MaxScore))
    decreases |es|
  {
    if es != [] {
      PhaseAccounting(w, es[..|es| - 1], fieldWidth, fieldHeight);
    }
  }

  /** The enemies the trap phase keeps are the earlier ones followed by moved
      snapshot enemies. */
  lemma {:induction false} PhaseKeepsMovedEnemies(w: World, es: seq<EnemyState>, fieldWidth: real, fieldHeight: real)
    ensures var r := TrapPhase(w, es, fieldWidth, fieldHeight);
      |w.enemies| <= |r.enemies| && r.enemies[..|w.enemies|] == w.enemies &&
      forall i :: |w.enemies| <= i < |r.enemies| ==>
        exists k :: 0 <= k < |es| && r.enemies[i] == Moved(es[k], fieldWidth, fieldHeight)
    decreases |es|
  {
    if es != [] {
      var es' := es[..|es| - 1];
      PhaseKeepsMovedEnemies(w, es', fieldWidth, fieldHeight);
      var q := TrapPhase(w, es', fieldWidth, fieldHeight);
      var r := TrapPhase(w, es, fieldWidth, fieldHeight);
      forall i | |w.enemies| <= i < |r.enemies|
        ensures exists k :: 0 <= k < |es| && r.enemies[i] == Moved(es[k], fieldWidth, fieldHeight)
      {
        if i < |q.enemies| {
          var k :| 0 <= k < |es'| && q.enemies[i] == Moved(es'[k], fieldWidth, fieldHeight);
          assert es'[k] == es[k];
        } else {
          assert r.enemies[i] == Moved(es[|es| - 1], fieldWidth, fieldHeight);
        }
      }
    }
  }

  /** The trap phase keeps the engine's invariant. */
  lemma PhasePreservesInv(w: World, es: seq<EnemyState>, fieldWidth: real, fieldHeight: real)
    requires Inv(w)
    ensures Inv(TrapPhase(w, es, fieldWidth, fieldHeight))
  {
    PhaseAccounting(w, es, fieldWidth, fieldHeight);
  }

  // ----- properties of a tick -----

  /** A tick of a finished game changes nothing. */
  lemma TickWhenOver(w: World, fieldWidth: int, fieldHeight: int, spawn: Draw, ds: seq<Draw>)
    requires w.gameOver
    ensures Tick(w, fieldWidth, fieldHeight, spawn, ds) == w
  {
  }

  /** Reset leaves a won game over, so every later tick changes nothing. */
  lemma ResetKeepsGameOver(w: World, ds: seq<Draw>, fieldWidth: int, fieldHeight: int,
                           spawn: Draw, ds': seq<Draw>)
    requires w.gameOver
    ensures ResetWorld(w, ds).gameOver
    ensures Tick(ResetWorld(w, ds), fieldWidth, fieldHeight, spawn, ds') == ResetWorld(w, ds)
  {
    TickWhenOver(ResetWorld(w, ds), fieldWidth, fieldHeight, spawn, ds');
  }

  /** A tick keeps the engine's invariant. */
  lemma TickPreservesInv(w: World, fieldWidth: int, fieldHeight: int, spawn: Draw, ds: seq<Draw>)
    requires Inv(w)
    ensures Inv(Tick(w, fieldWidth, fieldHeight, spawn, ds))
  {
    if !w.gameOver {
      PhasePreservesInv(w.(enemies := []), w.enemies, fieldWidth as real, fieldHeight as real);
    }
  }

  /** An enemy left on the player after the trap phase resets the game, and
      nothing is spawned in that tick. */
  lemma TickOnContact(w: World, fieldWidth: int, fieldHeight: int, spawn: Draw, ds: seq<Draw>)
    requires !w.gameOver && |ds| == StartEnemies
    requires var mid := AfterTraps(w, fieldWidth, fieldHeight);
      OverlapsPlayer(mid.enemies, mid.player)
    ensures var r := Tick(w, fieldWidth, fieldHeight, spawn, ds);
      r.player == w.player.(x := 50.0, y := 50.0) &&
      r.activeTraps == 0 && r.traps == [] && r.score == 0 &&
      |r.enemies| == StartEnemies && r.enemies == Spawns(ds) &&
      r.gameOver == AfterTraps(w, fieldWidth, fieldHeight).gameOver
  {
    PhaseAccounting(w.(enemies := []), w.enemies, fieldWidth as real, fieldHeight as real);
  }

  /** Without contact, a tick keeps the player where it was, never lowers the
      score, and adds at most one enemy, only when the difficulty rule asks for it. */
  lemma TickWithoutContact(w: World, fieldWidth: int, fieldHeight: int, spawn: Draw, ds: seq<Draw>)
    requires !w.gameOver
    requires var mid := AfterTraps(w, fieldWidth, fieldHeight);
      !OverlapsPlayer(mid.enemies, mid.player)
    ensures var r := Tick(w, fieldWidth, fieldHeight, spawn, ds);
      var mid := AfterTraps(w, fieldWidth, fieldHeight);
      r.player == w.player && r.score >= w.score &&
      r.traps == mid.traps && r.activeTraps == mid.activeTraps &&
      r.score == mid.score && r.gameOver == mid.gameOver &&
      |mid.enemies| <= |r.enemies| <= |mid.enemies| + 1 &&
      r.enemies[..|mid.enemies|] == mid.enemies &&
      (|r.enemies| == |mid.enemies| + 1 ==> r.enemies[|mid.enemies|] == Spawned(spawn)) &&
      (|r.enemies| == |mid.enemies| + 1 <==>
         mid.score > 0 && mid.score % 5 == 0 && |mid.enemies| < mid.score / 5 + 5)
  {
    PhaseAccounting(w.(enemies := []), w.enemies, fieldWidth as real, fieldHeight as real);
  }

  /** Reset always lands in the same start state, whatever state it starts
      from; only the randomly drawn enemies differ. */
  lemma ResetIsCanonical(w: World, w': World, ds: seq<Draw>, ds': seq<Draw>)
    requires w.player.w == w'.player.w && w.player.h == w'.player.h && w.gameOver == w'.gameOver
    ensures Inv(ResetWorld(w, ds))
    ensures ResetWorld(w, ds).(enemies := []) == ResetWorld(w', ds').(enemies := [])
    ensures ResetWorld(ResetWorld(w, ds'), ds) == ResetWorld(w, ds)
  {
  }

  // ----- scenarios -----

  /** An enemy at rest on a trap: one tick removes both and scores one point. */
  lemma EnemyOnTrapScores(spawn: Draw, ds: seq<Draw>)
    ensures var e := EnemyState(Rect(100.0, 100.0, 15.0, 15.0), 0.0, 0.0);
      var w := World(Rect(50.0, 50.0, 20.0, 20.0), 1, [e], [Rect(100.0, 100.0, TrapSide, TrapSide)], 0, false);
      var r := Tick(w, 500, 500, spawn, ds);
      r.enemies == [] && r.traps == [] && r.activeTraps == 0 && r.score == 1 && !r.gameOver
  {
    var e := EnemyState(Rect(100.0, 100.0, 15.0, 15.0), 0.0, 0.0);
    var w := World(Rect(50.0, 50.0, 20.0, 20.0), 1, [e], [Rect(100.0, 100.0, TrapSide, TrapSide)], 0, false);
    var start := w.(enemies := []);
    assert [e][..0] == [];
    assert TrapPhase(start, [], 500.0, 500.0) == start;
    assert FirstHit(Moved(e, 500.0, 500.0).box, w.traps) == 0;
    assert AfterTraps(w, 500, 500) == Step(start, e, 500.0, 500.0);
  }

  /** The winning point does not stop the trap phase: with 24 points and two
      enemies resting on two traps, one tick ends the game at 26 points. */
  lemma ScoringContinuesAfterWin(spawn: Draw, ds: seq<Draw>)
    ensures var e1 := EnemyState(Rect(100.0, 100.0, 15.0, 15.0), 0.0, 0.0);
      var e2 := EnemyState(Rect(200.0, 200.0, 15.0, 15.0), 0.0, 0.0);
      var t1 := Rect(100.0, 100.0, TrapSide, TrapSide);
      var t2 := Rect(200.0, 200.0, TrapSide, TrapSide);
      var w := World(Rect(400.0, 400.0, 20.0, 20.0), 2, [e1, e2], [t1, t2], 24, false);
      var r := Tick(w, 500, 500, spawn, ds);
      r.score == 26 && r.gameOver && r.enemies == [] && r.traps == []
  {
    var e1 := EnemyState(Rect(100.0, 100.0, 15.0, 15.0), 0.0, 0.0);
    var e2 := EnemyState(Rect(200.0, 200.0, 15.0, 15.0), 0.0, 0.0);
    var t1 := Rect(100.0, 100.0, TrapSide, TrapSide);
    var t2 := Rect(200.0, 200.0, TrapSide, TrapSide);
    var w := World(Rect(400.0, 400.0, 20.0, 20.0), 2, [e1, e2], [t1, t2], 24, false);
    var start := w.(enemies := []);
    TrapPhaseExtend(start, [e1, e2], 0, 500.0, 500.0);
    TrapPhaseExtend(start, [e1, e2], 1, 500.0, 500.0);
    assert [e1, e2][..0] == [] && [e1, e2][..2] == [e1, e2];
    assert TrapPhase(start, [], 500.0, 500.0) == start;
    assert FirstHit(Moved(e1, 500.0, 500.0).box, [t1, t2]) == 0;
    var q := World(w.player, 1, [], [t2], 25, true);
    assert Step(start, e1, 500.0, 500.0) == q by {
      assert [t1, t2][..0] + [t1, t2][1..] == [t2];
    }
    assert FirstHit(Moved(e2, 500.0, 500.0).box, [t2]) == 0;
    var mid := World(w.player, 0, [], [], 26, true);
    assert Step(q, e2, 500.0, 500.0) == mid by {
      assert [t2][..0] + [t2][1..] == [];
    }
    assert AfterTraps(w, 500, 500) == mid;
    assert !OverlapsPlayer(mid.enemies, mid.player) && !SpawnDue(mid);
  }
}
