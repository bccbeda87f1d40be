/** The obstacle list of the game and the pure updater that advances it by
    one tick: move every pipe left, drop the ones that left the field, and
    append a freshly drawn pipe when the newest one has moved far enough. */
module Pipes {
  import Physics

  /** Width of a pipe, in pixels. */
  const PipeWidth: real := 60.0
  /** Height of the opening between a pipe's top block and its bottom block. */
  const Gap: real := 150.0
  /** Distance every pipe moves to the left per tick. */
  const ScrollSpeed: real := 2.0
  /** A new pipe appears once the newest pipe is left of this x. */
  const SpawnThreshold: real := 300.0
  /** x at which new pipes appear: the right edge of the 800-pixel field. */
  const SpawnX: real := 800.0
  /** Smallest gap-top height of a new pipe. */
  const MinHeight: real := 100.0
  /** Width of the range the gap-top height is drawn from. */
  const HeightSpan: real := 400.0 - Gap

  /** One obstacle: its left edge and the y of the top of its gap. */
  datatype Pipe = Pipe(x: real, height: real)

  /** A pipe moved k ticks to the left, its height kept. */
  function ShiftBy(p: Pipe, k: nat): Pipe
  {
    p.(x := p.x - ScrollSpeed * k as real)
  }

  /** The `map` step: every pipe moves one tick to the left. */
  function Shift(ps: seq<Pipe>): seq<Pipe>
  {
    seq(|ps|, i requires 0 <= i < |ps| => ShiftBy(ps[i], 1))
  }

  /** The `filter` condition: the pipe's left edge is right of -PipeWidth. */
  predicate OnScreen(p: Pipe)
  {
    p.x > -PipeWidth
  }

  /** The `filter` step: keeps exactly the pipes that are on screen. */
  function KeepOnScreen(ps: seq<Pipe>): (qs: seq<Pipe>)
    ensures |qs| <= |ps|
    ensures forall q :: q in qs <==> q in ps && OnScreen(q)
  {
    if ps == [] then []
    else (if OnScreen(ps[0]) then [ps[0]] else []) + KeepOnScreen(ps[1..])
  }

  /** The surviving pipes of one tick: shifted, then filtered. */
  function Advance(ps: seq<Pipe>): seq<Pipe>
  {
    KeepOnScreen(Shift(ps))
  }

  /** The spawn condition, read on the list as it was before the tick. */
  predicate NeedsSpawn(ps: seq<Pipe>)
  {
    |ps| == 0 || ps[|ps| - 1].x < SpawnThreshold
  }

  /** The gap-top height of a new pipe, for a random draw `r` in [0, 1). */
  function SpawnHeight(r: real): (h: real)
    requires 0.0 <= r < 1.0
    ensures MinHeight <= h < MinHeight + HeightSpan
    ensures h + Gap < Physics.FieldHeight
  {
    r * HeightSpan + MinHeight
  }

  /** The pipe list updater of one tick, `r` standing for the random draw. */
  function NextPipes(ps: seq<Pipe>, r: real): (qs: seq<Pipe>)
    requires 0.0 <= r < 1.0
    ensures |qs| <= |ps| + 1
    ensures forall q :: q in qs ==> OnScreen(q)
  {
    var kept := Advance(ps);
    if NeedsSpawn(ps) then kept + [Pipe(SpawnX, SpawnHeight(r))] else kept
  }

  /** Pipes are listed from left to right, each strictly right of the one before. */
  ghost predicate StrictlyAscending(ps: seq<Pipe>)
  {
    forall i, j :: 0 <= i < j < |ps| ==> ps[i].x < ps[j].x
  }

  /** Where a pipe may be: on screen, not right of the spawn point, its gap
      top in the range new pipes are drawn from. */
  predicate WellPlaced(p: Pipe)
  {
    OnScreen(p) && p.x <= SpawnX && MinHeight <= p.height < MinHeight + HeightSpan
  }

  /** The invariant the pipe list keeps from the empty list on. */
  ghost predicate ValidPipes(ps: seq<Pipe>)
  {
    StrictlyAscending(ps) && forall p :: p in ps ==> WellPlaced(p)
  }

  // ---------------------------------------------------------------------
  // The shift and the filter

  /** The shift keeps list order: shifting a concatenation shifts each part in place. */
  lemma ShiftAppend(a: seq<Pipe>, b: seq<Pipe>)
    ensures Shift(a + b) == Shift(a) + Shift(b)
  {
  }

  /** A pipe is in the shifted list exactly when it came from a pipe
      ScrollSpeed to its right with the same height. */
  lemma ShiftMembers(ps: seq<Pipe>)
    ensures forall q :: q in Shift(ps) <==> Pipe(q.x + ScrollSpeed, q.height) in ps
  {
    forall q: Pipe | Pipe(q.x + ScrollSpeed, q.height) in ps
      ensures q in Shift(ps)
    {
      var i :| 0 <= i < |ps| && ps[i] == Pipe(q.x + ScrollSpeed, q.height);
      assert Shift(ps)[i] == q;
    }
  }

  /** The filter keeps the relative order: it distributes over concatenation. */
  lemma {:induction false} KeepOnScreenAppend(a: seq<Pipe>, b: seq<Pipe>)
    ensures KeepOnScreen(a + b) == KeepOnScreen(a) + KeepOnScreen(b)
  {
    if a == [] {
      assert a + b == b;
    } else {
      assert (a + b)[0] == a[0];
      assert (a + b)[1..] == a[1..] + b;
      KeepOnScreenAppend(a[1..], b);
    }
  }

  /** A list with one more pipe on its right end stays strictly ascending
      when that pipe is right of all the others. */
  lemma SnocAscending(ps: seq<Pipe>, p: Pipe)
    requires StrictlyAscending(ps)
    requires forall q :: q in ps ==> q.x < p.x
    ensures StrictlyAscending(ps + [p])
  {
  }

  /** A list with one more pipe on its left end stays strictly ascending
      when that pipe is left of all the others. */
  lemma ConsAscending(p: Pipe, ps: seq<Pipe>)
    requires StrictlyAscending(ps)
    requires forall q :: q in ps ==> p.x < q.x
    ensures StrictlyAscending([p] + ps)
  {
  }

  /** Dropping pipes from a strictly ascending list leaves it strictly ascending. */
  lemma {:induction false} KeepOnScreenAscending(ps: seq<Pipe>)
    requires StrictlyAscending(ps)
    ensures StrictlyAscending(KeepOnScreen(ps))
  {
    if ps != [] {
      var rest := KeepOnScreen(ps[1..]);
      assert StrictlyAscending(ps[1..]) by {
        forall i, j | 0 <= i < j < |ps[1..]|
          ensures ps[1..][i].x < ps[1..][j].x
        {
          assert ps[1..][i] == ps[i + 1] && ps[1..][j] == ps[j + 1];
        }
      }
      KeepOnScreenAscending(ps[1..]);
      if OnScreen(ps[0]) {
        forall q | q in rest
          ensures ps[0].x < q.x
        {
          var k :| 0 <= k < |ps[1..]| && ps[1..][k] == q;
          assert q == ps[k + 1];
        }
        ConsAscending(ps[0], rest);
      } else {
        assert KeepOnScreen(ps) == rest;
      }
    }
  }

  // ---------------------------------------------------------------------
  // What a tick does to the pipes

  /** The survivors of a tick are exactly the pipes that, moved ScrollSpeed
      to the left with their height kept, are still on screen. */
  lemma AdvanceMembers(ps: seq<Pipe>)
    ensures forall q :: q in Advance(ps) <==> OnScreen(q) && Pipe(q.x + ScrollSpeed, q.height) in ps
  {
    ShiftMembers(ps);
  }

  /** One tick moves a pipe by exactly one shift: a pipe of the list whose
      shifted position is still on screen is among the survivors there. */
  lemma AdvanceIsShiftByOne(ps: seq<Pipe>, p: Pipe)
    requires p in ps && OnScreen(ShiftBy(p, 1))
    ensures ShiftBy(p, 1) in Advance(ps)
  {
    AdvanceMembers(ps);
    assert Pipe(ShiftBy(p, 1).x + ScrollSpeed, ShiftBy(p, 1).height) == p;
  }

  /** The survivors keep their relative order: advancing a concatenation
      advances each part in place. */
  lemma AdvanceAppend(a: seq<Pipe>, b: seq<Pipe>)
    ensures Advance(a + b) == Advance(a) + Advance(b)
  {
    ShiftAppend(a, b);
    KeepOnScreenAppend(Shift(a), Shift(b));
  }

  /** A tick never adds a pipe besides the spawned one. */
  lemma AdvanceLength(ps: seq<Pipe>)
    ensures |Advance(ps)| <= |ps|
  {
  }

  /** The survivors of a strictly ascending list are strictly ascending. */
  lemma AdvanceAscending(ps: seq<Pipe>)
    requires StrictlyAscending(ps)
    ensures StrictlyAscending(Advance(ps))
  {
    KeepOnScreenAscending(Shift(ps));
  }

  /** Where the filter's boundary lies: the filter reads the shifted x, so a
      pipe survives a tick exactly when its x is greater than
      -PipeWidth + ScrollSpeed (-58). A pipe at -PipeWidth + 1 is dropped;
      one at -PipeWidth + 4, the leftmost even x that survives, moves to
      -PipeWidth + 2. */
  lemma OffScreenBoundary(x: real, h: real)
    ensures Advance([Pipe(x, h)]) ==
      if x > -PipeWidth + ScrollSpeed then [Pipe(x - ScrollSpeed, h)] else []
    ensures Advance([Pipe(-PipeWidth + 1.0, h)]) == []
    ensures Advance([Pipe(-PipeWidth + 4.0, h)]) == [Pipe(-PipeWidth + 2.0, h)]
  {
    assert Shift([Pipe(x, h)]) == [Pipe(x - ScrollSpeed, h)];
    assert Shift([Pipe(-PipeWidth + 1.0, h)]) == [Pipe(-PipeWidth - 1.0, h)];
    assert Shift([Pipe(-PipeWidth + 4.0, h)]) == [Pipe(-PipeWidth + 2.0, h)];
  }

  /** The spawn rule: the tick appends exactly one pipe, at SpawnX with the
      drawn height, at the end of the survivors if and only if the list was
      empty or its last pipe was left of SpawnThreshold; otherwise the new
      list is exactly the survivors. */
  lemma SpawnRule(ps: seq<Pipe>, r: real)
    requires 0.0 <= r < 1.0
    ensures var qs := NextPipes(ps, r);
      (|qs| == |Advance(ps)| + 1 <==> NeedsSpawn(ps)) &&
      (NeedsSpawn(ps) ==> qs[..|qs| - 1] == Advance(ps) && qs[|qs| - 1] == Pipe(SpawnX, SpawnHeight(r))) &&
      (!NeedsSpawn(ps) ==> qs == Advance(ps))
  {
  }

  /** Every pipe of a strictly ascending list is at or left of its last one. */
  lemma LastIsRightmost(ps: seq<Pipe>)
    requires StrictlyAscending(ps) && ps != []
    ensures forall p :: p in ps ==> p.x <= ps[|ps| - 1].x
  {
  }

  /** A tick keeps the pipe list strictly ascending. */
  lemma NextPipesAscending(ps: seq<Pipe>, r: real)
    requires 0.0 <= r < 1.0
    requires StrictlyAscending(ps)
    ensures StrictlyAscending(NextPipes(ps, r))
  {
    var kept := Advance(ps);
    AdvanceAscending(ps);
    if NeedsSpawn(ps) {
      AdvanceMembers(ps);
      if ps != [] {
        LastIsRightmost(ps);
      }
      forall q | q in kept
        ensures q.x < SpawnX
      {
        assert Pipe(q.x + ScrollSpeed, q.height) in ps;
      }
      SnocAscending(kept, Pipe(SpawnX, SpawnHeight(r)));
    }
  }

  /** A tick keeps every pipe well placed. */
  lemma NextPipesWellPlaced(ps: seq<Pipe>, r: real)
    requires 0.0 <= r < 1.0
    requires forall p :: p in ps ==> WellPlaced(p)
    ensures forall q :: q in NextPipes(ps, r) ==> WellPlaced(q)
  {
    AdvanceMembers(ps);
    forall q | q in NextPipes(ps, r)
      ensures WellPlaced(q)
    {
      if q in Advance(ps) {
        assert WellPlaced(Pipe(q.x + ScrollSpeed, q.height));
      }
    }
  }

  /** The pipe list invariant holds of the empty list and survives every tick. */
  lemma NextPipesValid(ps: seq<Pipe>, r: real)
    requires 0.0 <= r < 1.0
    requires ValidPipes(ps)
    ensures ValidPipes(NextPipes(ps, r))
  {
    NextPipesAscending(ps, r);
    NextPipesWellPlaced(ps, r);
  }
}
