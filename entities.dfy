/** The moving game objects: the player, whose moves are clamped to the field,
    and the enemies, which bounce off the field's walls. */
module Entities {
  import opened Geometry

  /** How many traps the player may have on the field at once. */
  const MaxTraps: int := 5

  function Abs(v: real): real { if v < 0.0 then -v else v }

  /** Distance between two points on a line. */
  function Dist(a: real, b: real): real { Abs(a - b) }

  /** Math.Clamp: the point of [lo, hi] nearest to v. */
  function Clamp(v: real, lo: real, hi: real): (r: real)
    requires lo <= hi
    ensures lo <= r <= hi
    ensures lo <= v <= hi ==> r == v
    ensures forall z :: lo <= z <= hi ==> Dist(r, v) <= Dist(z, v)
  {
    if v < lo then lo else if v > hi then hi else v
  }

  /** An enemy's rectangle and velocity, in field units per tick. */
  datatype EnemyState = EnemyState(box: Rect, dx: real, dy: real)

  /** The rectangle lies partly left of 0 or right of the field on the x axis. */
  predicate OutX(r: Rect, fieldWidth: real) { r.x < 0.0 || r.x + r.w > fieldWidth }

  /** The rectangle lies partly above 0 or below the field on the y axis. */
  predicate OutY(r: Rect, fieldHeight: real) { r.y < 0.0 || r.y + r.h > fieldHeight }

  /** One Enemy.Move: shift by the velocity, then reflect each velocity
      component whose axis is out of the field at the new position. */
  function Moved(e: EnemyState, fieldWidth: real, fieldHeight: real): (r: EnemyState)
    ensures r.box.x == e.box.x + e.dx && r.box.y == e.box.y + e.dy
    ensures r.box.w == e.box.w && r.box.h == e.box.h
    ensures Abs(r.dx) == Abs(e.dx) && Abs(r.dy) == Abs(e.dy)
    ensures r.dx == e.dx || r.dx == -e.dx
    ensures r.dy == e.dy || r.dy == -e.dy
    ensures e.dx != 0.0 ==> (r.dx == -e.dx <==> OutX(r.box, fieldWidth))
    ensures e.dy != 0.0 ==> (r.dy == -e.dy <==> OutY(r.box, fieldHeight))
  {
    var box := e.box.(x := e.box.x + e.dx, y := e.box.y + e.dy);
    EnemyState(box,
               if OutX(box, fieldWidth) then -e.dx else e.dx,
               if OutY(box, fieldHeight) then -e.dy else e.dy)
  }

  /** A player of any size standing in the top-left corner and moved by
      (-10, -10) stays in the corner. */
  method CornerIsSticky(width: real, height: real, fieldWidth: real, fieldHeight: real)
    returns (x: real, y: real)
    requires 0.0 <= width <= fieldWidth && 0.0 <= height <= fieldHeight
    ensures x == 0.0 && y == 0.0
  {
    var p := new Player(0.0, 0.0, width, height);
    p.Move(-10.0, -10.0, fieldWidth, fieldHeight);
    x, y := p.x, p.y;
  }

  class Player {
    var x: real
    var y: real
    const width: real
    const height: real
    const maxTraps: int := MaxTraps
    var activeTraps: int

    constructor (x: real, y: real, width: real, height: real)
      ensures Box() == Rect(x, y, width, height) && activeTraps == 0
    {
      this.x := x;
      this.y := y;
      this.width := width;
      this.height := height;
      activeTraps := 0;
    }

    function Box(): Rect
      reads this
    {
      Rect(x, y, width, height)
    }

    /** Math.Clamp refuses an empty range, so the field must be at least as
        large as the player. */
    method Move(dx: real, dy: real, fieldWidth: real, fieldHeight: real)
      requires width <= fieldWidth && height <= fieldHeight
      modifies this`x, this`y
      ensures x == Clamp(old(x) + dx, 0.0, fieldWidth - width)
      ensures y == Clamp(old(y) + dy, 0.0, fieldHeight - height)
      ensures 0.0 <= x <= fieldWidth - width && 0.0 <= y <= fieldHeight - height
    {
      x := Clamp(x + dx, 0.0, fieldWidth - width);
      y := Clamp(y + dy, 0.0, fieldHeight - height);
    }
  }

  class Enemy {
    var x: real
    var y: real
    const width: real
    const height: real
    var dx: real
    var dy: real

    constructor (x: real, y: real, width: real, height: real, dx: real, dy: real)
      ensures State() == EnemyState(Rect(x, y, width, height), dx, dy)
    {
      this.x := x;
      this.y := y;
      this.width := width;
      this.height := height;
      this.dx := dx;
      this.dy := dy;
    }

    function Box(): Rect
      reads this
    {
      Rect(x, y, width, height)
    }

    function State(): EnemyState
      reads this
    {
      EnemyState(Box(), dx, dy)
    }

    method Move(fieldWidth: real, fieldHeight: real)
      modifies this
      ensures State() == Moved(old(State()), fieldWidth, fieldHeight)
    {
      x := x + dx;
      y := y + dy;
      if x < 0.0 || x + width > fieldWidth {
        dx := -dx;
      }
      if y < 0.0 || y + height > fieldHeight {
        dy := -dy;
      }
    }
  }
}
