/** The GameEngine: it owns the player, the enemy and trap lists, the score and
    the game-over flag, and changes them in place. Each operation is proved to
    change the engine's state exactly as the matching function of module
    Simulation says, and to keep the engine's invariant. */
module Engine {
  import opened Geometry
  import opened Entities
  import opened Simulation

  /** No object appears twice. */
  predicate Distinct<T(==)>(s: seq<T>)
  {
    s == [] || (s[0] !in s[1..] && Distinct(s[1..]))
  }

  /** Appending an element not yet present keeps a sequence free of repetitions. */
  lemma {:induction false} DistinctAppend<T>(s: seq<T>, x: T)
    requires Distinct(s) && x !in s
    ensures Distinct(s + [x])
    decreases |s|
  {
    if s != [] {
      assert (s + [x])[1..] == s[1..] + [x];
      DistinctAppend(s[1..], x);
    }
  }

  /** List.Remove: drop the first element equal to x (for objects: the same object). */
  function RemoveFirst<T(==)>(s: seq<T>, x: T): (r: seq<T>)
    ensures x !in s ==> r == s
    ensures x in s ==> |r| == |s| - 1
  {
    if s == [] then []
    else if s[0] == x then s[1..]
    else [s[0]] + RemoveFirst(s[1..], x)
  }

  /** Removing an element that does not occur earlier removes exactly that occurrence. */
  lemma {:induction false} RemoveFirstAfterPrefix<T>(a: seq<T>, x: T, b: seq<T>)
    requires x !in a
    ensures RemoveFirst(a + [x] + b, x) == a + b
    decreases |a|
  {
    if a == [] {
      assert a + [x] + b == [x] + b;
    } else {
      calc {
        RemoveFirst(a + [x] + b, x);
      == { assert (a + [x] + b)[0] == a[0] && (a + [x] + b)[1..] == a[1..] + [x] + b; }
        [a[0]] + RemoveFirst(a[1..] + [x] + b, x);
      == { RemoveFirstAfterPrefix(a[1..], x, b); }
        [a[0]] + (a[1..] + b);
      == { assert a == [a[0]] + a[1..]; }
        a + b;
      }
    }
  }

  /** Dropping one element of a sequence without repetitions leaves none,
      and the dropped element occurs nowhere else. */
  lemma {:induction false} DistinctWithout<T>(a: seq<T>, x: T, b: seq<T>)
    requires Distinct(a + [x] + b)
    ensures Distinct(a + b) && x !in a && x !in b
    decreases |a|
  {
    if a == [] {
      assert a + [x] + b == [x] + b && ([x] + b)[1..] == b && a + b == b;
    } else {
      assert (a + [x] + b)[1..] == a[1..] + [x] + b;
      DistinctWithout(a[1..], x, b);
      assert (a + b)[1..] == a[1..] + b;
      assert a[0] !in a[1..] + b by {
        assert a[0] !in a[1..] + [x] + b;
        forall y | y in a[1..] + b ensures y in a[1..] + [x] + b {
        }
      }
    }
  }

  /** The suffix from k is the element at k followed by the suffix after it. */
  lemma SplitAt<T>(pre: seq<T>, s: seq<T>, k: int)
    requires 0 <= k < |s|
    ensures s[k..] == [s[k]] + s[k + 1..] && s[k..][1..] == s[k + 1..]
    ensures pre + s[k..] == pre + [s[k]] + s[k + 1..]
  {
  }

  /** The inner loop of Update over the traps: the index of the first trap the
      rectangle overlaps, or |traps| when there is none. */
  method FindTrapHit(box: Rect, traps: seq<Rect>) returns (j: nat)
    ensures j <= |traps|
    ensures j < |traps| ==> Collides(box, traps[j])
    ensures forall i :: 0 <= i < j ==> !Collides(box, traps[i])
    ensures j == FirstHit(box, traps)
  {
    j := 0;
    while j < |traps|
      invariant j <= |traps|
      invariant forall i :: 0 <= i < j ==> !Collides(box, traps[i])
    {
      if Collides(box, traps[j]) {
        return;
      }
      j := j + 1;
    }
  }

  /** The states of a list of enemies, in order. */
  function EnemyStates(es: seq<Enemy>): (r: seq<EnemyState>)
    reads es
    ensures |r| == |es|
  {
    if es == [] then [] else [es[0].State()] + EnemyStates(es[1..])
  }

  lemma {:induction false} EnemyStatesAt(es: seq<Enemy>, i: int)
    requires 0 <= i < |es|
    ensures EnemyStates(es)[i] == es[i].State()
    decreases |es|
  {
    if i > 0 {
      EnemyStatesAt(es[1..], i - 1);
    }
  }

  lemma {:induction false} EnemyStatesAppend(es: seq<Enemy>, e: Enemy)
    ensures EnemyStates(es + [e]) == EnemyStates(es) + [e.State()]
    decreases |es|
  {
    if es != [] {
      assert (es + [e])[1..] == es[1..] + [e];
      EnemyStatesAppend(es[1..], e);
    } else {
      assert es + [e] == [e];
    }
  }

  /** The states of enemies none of which has changed are the same. */
  twostate lemma {:induction false} EnemyStatesUnchanged(es: seq<Enemy>)
    requires forall i :: 0 <= i < |es| ==> unchanged(es[i])
    ensures EnemyStates(es) == old(EnemyStates(es))
    decreases |es|
  {
    if es != [] {
      EnemyStatesUnchanged(es[1..]);
    }
  }

  class GameEngine {
    const fieldWidth: int
    const fieldHeight: int
    const player: Player
    var enemies: seq<Enemy>
    var traps: seq<Rect>
    var score: int
    var gameOver: bool
    /** The objects the engine owns: itself, its player and every enemy it holds. */
    ghost var Repr: set<object>

    /** The engine's state with the given enemy list in place of its own. */
    ghost function View(es: seq<Enemy>): World
      reads this, player, es
    {
      World(player.Box(), player.activeTraps, EnemyStates(es), traps, score, gameOver)
    }

    ghost function State(): World
      reads this, player, enemies
    {
      View(enemies)
    }

    ghost predicate Valid()
      reads this, player, enemies
    {
      this in Repr && player in Repr && (forall e :: e in enemies ==> e in Repr) &&
      EnemySide <= fieldWidth as real && EnemySide <= fieldHeight as real &&
      Distinct(enemies) && Inv(State())
    }

    /** Random.Next refuses an empty range, so the field must fit an enemy. */
    constructor (width: int, height: int, draws: seq<Draw>)
      requires EnemySide <= width as real && EnemySide <= height as real
      requires |draws| == StartEnemies && ValidDraws(draws, width, height)
      ensures Valid()
      ensures fieldWidth == width && fieldHeight == height
      ensures State() == World(Rect(50.0, 50.0, 20.0, 20.0), 0, Spawns(draws), [], 0, false)
      ensures fresh(Repr)
    {
      fieldWidth := width;
      fieldHeight := height;
      player := new Player(50.0, 50.0, 20.0, 20.0);
      enemies := [];
      traps := [];
      score := 0;
      gameOver := false;
      new;
      Repr := {this, player};
      for i := 0 to StartEnemies
        invariant Valid()
        invariant State() == World(Rect(50.0, 50.0, 20.0, 20.0), 0, Spawns(draws[..i]), [], 0, false)
        invariant fresh(Repr)
      {
        SpawnsExtend(draws, i);
        SpawnEnemy(draws[i]);
      }
      assert draws[..StartEnemies] == draws;
    }

    /** Appends one enemy built from the random draws. */
    method SpawnEnemy(d: Draw)
      requires Valid() && ValidDraw(d, fieldWidth, fieldHeight)
      modifies this
      ensures Valid()
      ensures State() == old(State()).(enemies := old(State()).enemies + [Spawned(d)])
      ensures |enemies| == |old(enemies)| + 1 && enemies[..|old(enemies)|] == old(enemies)
      ensures fresh(enemies[|enemies| - 1])
      ensures Repr == old(Repr) + {enemies[|enemies| - 1]}
    {
      var e := new Enemy(d.x as real, d.y as real, EnemySide, EnemySide, d.dx, d.dy);
      DistinctAppend(enemies, e);
      enemies := enemies + [e];
      Repr := Repr + {e};
      EnemyStatesAppend(old(enemies), e);
    }

    /** The loop of Update over the enemies against the player. */
    method PlayerHit() returns (hit: bool)
      ensures hit <==> exists i :: 0 <= i < |enemies| && Collides(enemies[i].Box(), player.Box())
      ensures hit == OverlapsPlayer(State().enemies, State().player)
    {
      var i := 0;
      while i < |enemies|
        invariant 0 <= i <= |enemies|
        invariant forall k :: 0 <= k < i ==> !Collides(enemies[k].Box(), player.Box())
        invariant forall k :: 0 <= k < i ==> !Collides(State().enemies[k].box, State().player)
      {
        EnemyStatesAt(enemies, i);
        if Collides(enemies[i].Box(), player.Box()) {
          EnemyStatesAt(enemies, i);
          return true;
        }
        i := i + 1;
      }
      return false;
    }

    /** The enemy overlaps trap j: remove both, give back the trap and score;
        the winning point ends the game. */
    method CatchEnemy(enemy: Enemy, j: nat, ghost kept: seq<Enemy>, ghost rest: seq<Enemy>)
      requires enemies == kept + [enemy] + rest && Distinct(enemies) && j < |traps|
      modifies this, player`activeTraps
      ensures enemies == kept + rest && Distinct(enemies)
      ensures traps == old(traps[..j] + traps[j + 1..])
      ensures player.activeTraps == old(player.activeTraps) - 1 && score == old(score) + 1
      ensures gameOver == (old(gameOver) || score >= MaxScore)
      ensures Repr == old(Repr)
    {
      DistinctWithout(kept, enemy, rest);
      RemoveFirstAfterPrefix(kept, enemy, rest);
      enemies := RemoveFirst(enemies, enemy);
      traps := traps[..j] + traps[j + 1..];
      player.activeTraps := player.activeTraps - 1;
      score := score + 1;
      if score >= MaxScore {
        gameOver := true;
      }
    }

    /** Enemy.Move inside Update's loop, then the inner loop over the traps;
        nothing but the enemy changes. */
    method MoveAndFindTrap(enemy: Enemy, ghost kept: seq<Enemy>, ghost rest: seq<Enemy>) returns (j: nat)
      requires enemy !in kept && enemy !in rest
      modifies enemy
      ensures enemy.State() == Moved(old(enemy.State()), fieldWidth as real, fieldHeight as real)
      ensures j == FirstHit(enemy.Box(), traps)
      ensures EnemyStates(kept) == old(EnemyStates(kept)) && EnemyStates(rest) == old(EnemyStates(rest))
    {
      enemy.Move(fieldWidth as real, fieldHeight as real);
      j := FindTrapHit(enemy.Box(), traps);
      EnemyStatesUnchanged(kept);
      EnemyStatesUnchanged(rest);
    }

    /** One pass of Update's loop over the snapshot: move the enemy, then
        remove it together with the first trap it overlaps, and score. */
    method MoveAndTrap(enemy: Enemy, ghost kept: seq<Enemy>, ghost rest: seq<Enemy>) returns (caught: bool)
      requires enemies == kept + [enemy] + rest && Distinct(enemies)
      modifies this, player`activeTraps, enemy
      ensures enemies == (if caught then kept else kept + [enemy]) + rest
      ensures Distinct(enemies)
      ensures EnemyStates(rest) == old(EnemyStates(rest))
      ensures View(if caught then kept else kept + [enemy])
              == Step(old(View(kept)), old(enemy.State()), fieldWidth as real, fieldHeight as real)
      ensures Repr == old(Repr)
    {
      DistinctWithout(kept, enemy, rest);
      ghost var v0 := View(kept);
      ghost var e0 := enemy.State();
      var j := MoveAndFindTrap(enemy, kept, rest);
      caught := j < |traps|;
      ghost var m := Moved(e0, fieldWidth as real, fieldHeight as real);
      assert View(kept) == v0;
      if caught {
        ghost var rs := EnemyStates(rest);
        CatchEnemy(enemy, j, kept, rest);
        assert EnemyStates(rest) == rs;
        assert View(kept) == v0.(traps := traps, activeTraps := player.activeTraps,
                                 score := score, gameOver := gameOver);
        assert Step(v0, e0, fieldWidth as real, fieldHeight as real)
            == v0.(traps := v0.traps[..j] + v0.traps[j + 1..], activeTraps := v0.activeTraps - 1,
                   score := v0.score + 1, gameOver := v0.gameOver || v0.score + 1 >= MaxScore);
      } else {
        EnemyStatesAppend(kept, enemy);
        assert View(kept + [enemy]) == v0.(enemies := v0.enemies + [m]);
      }
    }

    /** The first part of Update: move every enemy of a snapshot of the list,
        removing each one that lands on a trap together with that trap. */
    method MoveEnemies()
      requires Valid()
      modifies this, player`activeTraps, enemies
      ensures Valid()
      ensures State() == AfterTraps(old(State()), fieldWidth, fieldHeight)
      ensures Repr == old(Repr)
    {
      ghost var w0 := State();
      RunTrapPhase();
      PhasePreservesInv(w0.(enemies := []), w0.enemies, fieldWidth as real, fieldHeight as real);
    }

    /** The loop of MoveEnemies, proved against the fold TrapPhase. */
    method RunTrapPhase()
      requires Distinct(enemies)
      modifies this, player`activeTraps, enemies
      ensures Distinct(enemies)
      ensures State() == TrapPhase(old(State()).(enemies := []), old(State()).enemies,
                                   fieldWidth as real, fieldHeight as real)
      ensures forall e :: e in enemies ==> e in old(enemies)
      ensures Repr == old(Repr)
    {
      ghost var w0 := State();
      ghost var start := w0.(enemies := []);
      var snapshot := enemies;
      ghost var kept: seq<Enemy> := [];
      var k := 0;
      while k < |snapshot|
        invariant 0 <= k <= |snapshot|
        invariant enemies == kept + snapshot[k..]
        invariant Distinct(enemies)
        invariant EnemyStates(snapshot[k..]) == w0.enemies[k..]
        invariant View(kept) == TrapPhase(start, w0.enemies[..k], fieldWidth as real, fieldHeight as real)
        invariant forall e :: e in kept ==> e in snapshot
        invariant Repr == old(Repr)
      {
        var enemy := snapshot[k];
        ghost var rest := snapshot[k + 1..];
        SplitAt(kept, snapshot, k);
        SplitAt([], w0.enemies, k);
        TrapPhaseExtend(start, w0.enemies, k, fieldWidth as real, fieldHeight as real);
        assert EnemyStates(rest) == w0.enemies[k + 1..];
        var caught := MoveAndTrap(enemy, kept, rest);
        if !caught {
          kept := kept + [enemy];
        }
        k := k + 1;
      }
      assert w0.enemies[..|snapshot|] == w0.enemies;
      assert enemies == kept;
    }

    method Update(spawn: Draw, resetDraws: seq<Draw>)
      requires Valid()
      requires ValidDraw(spawn, fieldWidth, fieldHeight)
      requires |resetDraws| == StartEnemies && ValidDraws(resetDraws, fieldWidth, fieldHeight)
      modifies Repr
      ensures Valid()
      ensures State() == Tick(old(State()), fieldWidth, fieldHeight, spawn, resetDraws)
      ensures fresh(Repr - old(Repr))
    {
      if gameOver {
        return;
      }
      MoveEnemies();
      var hit := PlayerHit();
      if hit {
        Reset(resetDraws);
        return;
      }
      if score > 0 && score % 5 == 0 && |enemies| < score / 5 + 5 {
        SpawnEnemy(spawn);
      }
    }

    method PlaceTrap()
      requires Valid()
      modifies this, player`activeTraps
      ensures Valid()
      ensures State() == PlaceTrapWorld(old(State()))
      ensures enemies == old(enemies) && Repr == old(Repr)
    {
      if player.activeTraps < player.maxTraps {
        traps := traps + [Rect(player.x, player.y, TrapSide, TrapSide)];
        player.activeTraps := player.activeTraps + 1;
      }
    }

    method Reset(draws: seq<Draw>)
      requires Valid()
      requires |draws| == StartEnemies && ValidDraws(draws, fieldWidth, fieldHeight)
      modifies this, player
      ensures Valid()
      ensures State() == ResetWorld(old(State()), draws)
      ensures fresh(Repr - old(Repr))
    {
      player.x := 50.0;
      player.y := 50.0;
      player.activeTraps := 0;
      enemies := [];
      traps := [];
      score := 0;
      ghost var w0 := State();
      assert w0 == ResetWorld(old(State()), []);
      for i := 0 to StartEnemies
        invariant Valid()
        invariant State() == w0.(enemies := Spawns(draws[..i]))
        invariant fresh(Repr - old(Repr))
      {
        SpawnsExtend(draws, i);
        SpawnEnemy(draws[i]);
      }
      assert draws[..StartEnemies] == draws;
    }
  }
}
