/**
 * Paddle movement from key or drag input, shared by the clients and by
 * the server-side bot.
 */
module InputHandler {
  import opened Common
  import opened GameElements

  // Key bits of the input mask.
  const NONE: bv32 := 0
  const UP: bv32 := 1
  const DOWN: bv32 := 2

  /** A position that is updated in place (a paddle position or a mesh position). */
  class MutableVector2 {
    var x: real
    var y: real

    constructor (x0: real, y0: real)
      ensures x == x0 && y == y0
    {
      x := x0;
      y := y0;
    }
  }

  /** Pointer dragging state: `pointerId` -1 means no drag in progress. */
  datatype DraggingData = DraggingData(pointerId: int, targetX: Option<real>)

  const MinPaddleX: real := AreaMinX + PaddleHalfWidth
  const MaxPaddleX: real := AreaMaxX - PaddleHalfWidth

  function Min(a: real, b: real): real { if a <= b then a else b }
  function Max(a: real, b: real): real { if a >= b then a else b }

  /** `Math.min(Math.max(v, lo), hi)` */
  function Clamp(v: real, lo: real, hi: real): (r: real)
    requires lo <= hi
    ensures lo <= r <= hi
    ensures lo <= v <= hi ==> r == v
  {
    Min(Max(v, lo), hi)
  }

  /** Whether there is any input to act on. */
  predicate HasInput(keyInput: bv32, drag: DraggingData)
  {
    !(keyInput == NONE && drag.pointerId == -1)
  }

  /** The direction of movement, in [-1, 1], before scaling by speed and time. */
  function Direction(x: real, keyInput: bv32, drag: DraggingData): (d: real)
    ensures -1.0 <= d <= 1.0
  {
    if drag.pointerId != -1 then
      (if drag.targetX.Some? then Clamp((drag.targetX.value - x) * 3.0, -1.0, 1.0) else 0.0)
    else
      (if keyInput & UP != 0 then 1.0 else 0.0) - (if keyInput & DOWN != 0 then 1.0 else 0.0)
  }

  /** The paddle's x after one input step. */
  function NewX(x: real, keyInput: bv32, drag: DraggingData, deltaTime: real): real
  {
    if !HasInput(keyInput, drag) then x
    else
      var d := Direction(x, keyInput, drag);
      if d == 0.0 then x
      else Clamp(x + d * (PaddleSpeed * deltaTime), MinPaddleX, MaxPaddleX)
  }

  /**
   * `handlePlayerInput`: moves the paddle position to `NewX`; the mesh, when
   * there is one, follows it whenever there was a direction to move in and
   * is left alone otherwise; the y coordinate never changes.
   */
  method HandlePlayerInput(position: MutableVector2, mesh: MutableVector2?, keyInput: bv32,
                           drag: DraggingData, deltaTime: real)
    modifies position`x, (if mesh != null then {mesh} else {})`x
    ensures position.x == NewX(old(position.x), keyInput, drag, deltaTime)
    ensures position.y == old(position.y)
    ensures mesh != null && position.x != old(position.x) ==> mesh.x == position.x
    ensures mesh != null ==>
      mesh.x == if HasInput(keyInput, drag) && Direction(old(position.x), keyInput, drag) != 0.0 then position.x else old(mesh.x)
  {
    if keyInput == NONE && drag.pointerId == -1 {
      return;
    }
    var deltaX: real := 0.0;
    if drag.pointerId != -1 {
      if drag.targetX.Some? {
        var distanceToTarget := drag.targetX.value - position.x;
        deltaX := Min(Max(distanceToTarget * 3.0, -1.0), 1.0);
      }
    } else {
      deltaX := (if keyInput & UP != 0 then 1.0 else 0.0) - (if keyInput & DOWN != 0 then 1.0 else 0.0);
    }
    assert deltaX == Direction(position.x, keyInput, drag);
    if deltaX == 0.0 {
      return;
    }
    deltaX := deltaX * (PaddleSpeed * deltaTime);
    position.x := Min(Max(position.x + deltaX, MinPaddleX), MaxPaddleX);
    if mesh != null {
      mesh.x := position.x;
    }
  }

  /** `handleAIInput`: a drag towards the ball's x with no keys pressed. */
  method HandleAIInput(position: MutableVector2, mesh: MutableVector2?, ball: Ball, deltaTime: real)
    modifies position`x, (if mesh != null then {mesh} else {})`x
    ensures position.x == NewX(old(position.x), NONE, AiDrag(ball), deltaTime)
    ensures position.y == old(position.y)
  {
    HandlePlayerInput(position, mesh, NONE, AiDrag(ball), deltaTime);
  }

  function AiDrag(ball: Ball): (drag: DraggingData)
    ensures drag.pointerId != -1 && drag.targetX == Some(ball.position.x)
  {
    DraggingData(-2, Some(ball.position.x))
  }

  /** Without keys and without a drag the paddle stays where it is. */
  lemma NoInputNoMove(x: real, drag: DraggingData, deltaTime: real)
    requires drag.pointerId == -1
    ensures NewX(x, NONE, drag, deltaTime) == x
  {
  }

  /** A drag wins over keys: the direction follows the target and ignores the keys. */
  lemma DragTakesPrecedence(x: real, k1: bv32, k2: bv32, drag: DraggingData)
    requires drag.pointerId != -1
    ensures Direction(x, k1, drag) == Direction(x, k2, drag)
    ensures drag.targetX.None? ==> Direction(x, k1, drag) == 0.0
    ensures drag.targetX.Some? ==>
              (Direction(x, k1, drag) > 0.0 <==> drag.targetX.value > x) &&
              (Direction(x, k1, drag) < 0.0 <==> drag.targetX.value < x)
  {
  }

  /** UP alone goes up, DOWN alone goes down, both together cancel out. */
  lemma KeyDirection(x: real, keyInput: bv32)
    ensures var d := Direction(x, keyInput, DraggingData(-1, None));
      (keyInput & 3 == UP ==> d == 1.0) &&
      (keyInput & 3 == DOWN ==> d == -1.0) &&
      (keyInput & 3 == 3 ==> d == 0.0) &&
      (keyInput & 3 == 0 ==> d == 0.0)
  {
    var k := keyInput & 3;
    assert keyInput & UP == k & UP && keyInput & DOWN == k & DOWN;
  }

  /** Whenever the paddle moves it ends inside [-2.5, 2.5]. */
  lemma MoveStaysInBounds(x: real, keyInput: bv32, drag: DraggingData, deltaTime: real)
    ensures NewX(x, keyInput, drag, deltaTime) != x ==>
              -2.5 <= NewX(x, keyInput, drag, deltaTime) <= 2.5
  {
  }

  /** From inside the bounds, one step moves the paddle by at most paddleSpeed * deltaTime. */
  lemma StepBounded(x: real, keyInput: bv32, drag: DraggingData, deltaTime: real)
    requires deltaTime >= 0.0
    requires MinPaddleX <= x <= MaxPaddleX
    ensures -PaddleSpeed * deltaTime <= NewX(x, keyInput, drag, deltaTime) - x <= PaddleSpeed * deltaTime
    ensures MinPaddleX <= NewX(x, keyInput, drag, deltaTime) <= MaxPaddleX
  {
    if HasInput(keyInput, drag) {
      var d := Direction(x, keyInput, drag);
      if d != 0.0 {
        var s := d * (PaddleSpeed * deltaTime);
        assert -1.0 * (PaddleSpeed * deltaTime) <= s <= 1.0 * (PaddleSpeed * deltaTime) by {
          MulBounds(d, PaddleSpeed * deltaTime);
        }
      }
    }
  }

  lemma MulBounds(d: real, m: real)
    requires -1.0 <= d <= 1.0 && m >= 0.0
    ensures -m <= d * m <= m
  {
  }

  /** The bot never moves away from the ball, and stays put when level with it. */
  lemma AiFollowsBall(x: real, ball: Ball, deltaTime: real)
    requires deltaTime >= 0.0
    requires MinPaddleX <= x <= MaxPaddleX
    ensures ball.position.x > x ==> NewX(x, NONE, AiDrag(ball), deltaTime) >= x
    ensures ball.position.x < x ==> NewX(x, NONE, AiDrag(ball), deltaTime) <= x
    ensures ball.position.x == x ==> NewX(x, NONE, AiDrag(ball), deltaTime) == x
  {
    var drag := AiDrag(ball);
    var d := Direction(x, NONE, drag);
    DragTakesPrecedence(x, NONE, NONE, drag);
    if d != 0.0 {
      var v := x + d * (PaddleSpeed * deltaTime);
      if d > 0.0 {
        MulNonNeg(d, PaddleSpeed * deltaTime);
      } else {
        MulNonNeg(-d, PaddleSpeed * deltaTime);
      }
    }
  }

  lemma MulNonNeg(a: real, b: real)
    requires a >= 0.0 && b >= 0.0
    ensures a * b >= 0.0
  {
  }
}
