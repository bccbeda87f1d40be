/** The two per-tick tests that read the pipe list: the collision test, which
    ends the run, and the score test, which counts a pipe whose right edge
    sits exactly on the score column. */
module Checks {
  import opened Pipes
  import opened Physics

  /** The bird's left edge; the bird never moves horizontally. */
  const BirdX: real := 100.0
  /** Side of the bird's square. */
  const BirdSize: real := 30.0
  /** A pipe scores when its right edge is exactly at this x. */
  const ScoreLine: real := 98.0

  /** The collision condition for one pipe and the bird's top y. */
  predicate Collides(p: Pipe, bird: real)
  {
    p.x < BirdX + BirdSize && p.x + PipeWidth > BirdX &&
    (bird < p.height || bird + BirdSize > p.height + Gap)
  }

  /** Some pipe of the list collides with the bird. */
  predicate AnyCollision(ps: seq<Pipe>, bird: real)
  {
    exists i :: 0 <= i < |ps| && Collides(ps[i], bird)
  }

  // ---------------------------------------------------------------------
  // An independent geometric reading of the collision condition

  /** An axis-aligned rectangle; y grows downwards. */
  datatype Rect = Rect(left: real, top: real, right: real, bottom: real)

  /** Two rectangles share interior points. */
  predicate Overlap(a: Rect, b: Rect)
  {
    a.left < b.right && b.left < a.right && a.top < b.bottom && b.top < a.bottom
  }

  /** The square the bird is drawn in. */
  function BirdRect(bird: real): Rect
  {
    Rect(BirdX, bird, BirdX + BirdSize, bird + BirdSize)
  }

  /** The block drawn above a pipe's gap. */
  function TopBlock(p: Pipe): Rect
  {
    Rect(p.x, 0.0, p.x + PipeWidth, p.height)
  }

  /** The block drawn below a pipe's gap, down to the bottom of the field. */
  function BottomBlock(p: Pipe): Rect
  {
    Rect(p.x, p.height + Gap, p.x + PipeWidth, FieldHeight)
  }

  /** While the bird's top is inside the field (strictly above its bottom),
      the collision condition holds exactly when the bird's square overlaps
      one of the two blocks drawn for the pipe. */
  lemma CollidesIsOverlap(p: Pipe, bird: real)
    requires 0.0 <= bird < FieldHeight
    ensures Collides(p, bird) <==> Overlap(BirdRect(bird), TopBlock(p)) || Overlap(BirdRect(bird), BottomBlock(p))
  {
  }

  /** A bird at the very top against a pipe at x = 100 whose gap spans
      300..450 hits the top block. */
  lemma CollisionAtTop()
    ensures Collides(Pipe(100.0, 300.0), 0.0)
    ensures AnyCollision([Pipe(100.0, 300.0)], 0.0)
  {
    assert Collides([Pipe(100.0, 300.0)][0], 0.0);
  }

  /** The same pipe lets a bird at 350 (square 350..380, inside the gap) through. */
  lemma NoCollisionInsideGap()
    ensures !Collides(Pipe(100.0, 300.0), 350.0)
    ensures !AnyCollision([Pipe(100.0, 300.0)], 350.0)
  {
  }

  // ---------------------------------------------------------------------
  // Scoring

  /** The score test: the pipe's right edge is exactly on the score column. */
  predicate Scores(p: Pipe)
  {
    p.x + PipeWidth == ScoreLine
  }

  /** How many points one tick adds: one per pipe of the list that passes
      the score test, counted in list order as the tick's `forEach` loop does. */
  function ScoreGain(ps: seq<Pipe>): (n: nat)
    ensures n <= |ps|
    ensures n == 0 <==> forall i :: 0 <= i < |ps| ==> !Scores(ps[i])
  {
    if ps == [] then 0
    else ScoreGain(ps[..|ps| - 1]) + (if Scores(ps[|ps| - 1]) then 1 else 0)
  }

  /** In a strictly ascending list at most one pipe sits on the score
      column, so a tick adds at most one point. */
  lemma {:induction false} ScoreGainAtMostOne(ps: seq<Pipe>)
    requires StrictlyAscending(ps)
    ensures ScoreGain(ps) <= 1
  {
    if ps != [] {
      var init := ps[..|ps| - 1];
      assert StrictlyAscending(init);
      if Scores(ps[|ps| - 1]) {
        forall i | 0 <= i < |init|
          ensures !Scores(init[i])
        {
          assert init[i] == ps[i];
        }
      } else {
        ScoreGainAtMostOne(init);
      }
    }
  }

  /** No pipe passes the score test on two different ticks of its life. */
  lemma ScoresAtMostOnce(p: Pipe, k1: nat, k2: nat)
    requires Scores(ShiftBy(p, k1)) && Scores(ShiftBy(p, k2))
    ensures k1 == k2
  {
  }

  /** A pipe that scores on one tick survives it and does not score on the
      next one, so the score loop never counts it twice in a row. */
  lemma ScoredPipeMovesOn(ps: seq<Pipe>, p: Pipe)
    requires p in ps && Scores(p)
    ensures ShiftBy(p, 1) in Advance(ps) && !Scores(ShiftBy(p, 1))
  {
    AdvanceIsShiftByOne(ps, p);
  }

  /** The exact equality test is hit by every spawned pipe, because the
      scroll speed divides 800 - 38: after exactly 381 shifts, and no other
      number, the pipe is at x = 38, still on screen. The tick after the one
      that made the 381st shift reads it there and adds the point. */
  lemma SpawnedPipeScoresOnce(h: real, k: nat)
    ensures Scores(ShiftBy(Pipe(SpawnX, h), k)) <==> k == 381
    ensures OnScreen(ShiftBy(Pipe(SpawnX, h), 381))
  {
  }
}
