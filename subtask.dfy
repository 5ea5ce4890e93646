/**
 * One budgeted stage of an arena build (ArenaBuildSubtask).
 *
 * Each update() walks the shared region cursor, calling the stage's callback
 * on the current position and then advancing the cursor, until either the
 * callback has reported `iterationsPerTick` real changes in this call or the
 * cursor is exhausted. Callbacks that report no change cost nothing.
 *
 * The callback's side effects (block writes, in the arena builder) are
 * threaded through a value of the generic type W: a callback takes the
 * current environment and position and returns the new environment and
 * whether it changed anything.
 */
module BuildSubtask {
  import opened Region

  type Callback<!W> = (W, Coord) -> (W, bool)

  /** What one run of the loop leaves behind. */
  datatype Tick<W> = Tick(cursor: Cursor, world: W, visited: seq<Coord>, changed: nat)

  /** Distance of v from the far end of its axis; 0 once it is past the end. */
  function Remaining(v: int, max: int): nat
  {
    if v <= max then max - v + 1 else 0
  }

  /**
   * The loop of update(), with `changed` changes already counted and the
   * positions `visited` already handed to the callback in this call.
   */
  function Drive<W>(b: Box, c: Cursor, w: W, budget: int, cb: Callback<W>, changed: nat, visited: seq<Coord>): Tick<W>
    decreases if c.done then 0 else 1, Remaining(c.pos.y, b.max.y), Remaining(c.pos.x, b.max.x), Remaining(c.pos.z, b.max.z)
  {
    if changed >= budget || c.done then Tick(c, w, visited, changed)
    else
      var r := cb(w, c.pos);
      Drive(b, Step(b, c), r.0, budget, cb, if r.1 then changed + 1 else changed, visited + [c.pos])
  }

  /** One complete update() call. */
  function OneUpdate<W>(b: Box, c: Cursor, w: W, budget: int, cb: Callback<W>): Tick<W>
  {
    Drive(b, c, w, budget, cb, 0, [])
  }

  /** Callbacks that never report a change (every position already at its target). */
  ghost predicate NeverChanges<W(!new)>(cb: Callback<W>)
  {
    forall w, p :: !cb(w, p).1
  }

  /** Callbacks that always report a change. */
  ghost predicate AlwaysChanges<W(!new)>(cb: Callback<W>)
  {
    forall w, p :: cb(w, p).1
  }

  // ---------------------------------------------------------------------
  // One update() call
  // ---------------------------------------------------------------------

  /**
   * No more than `budget` callbacks report a change, and the loop stops only
   * on reaching the budget or on exhausting the cursor.
   */
  lemma {:induction false} DriveBudget<W>(b: Box, c: Cursor, w: W, budget: int, cb: Callback<W>, changed: nat, visited: seq<Coord>)
    requires changed <= budget
    ensures Drive(b, c, w, budget, cb, changed, visited).changed <= budget
    ensures Drive(b, c, w, budget, cb, changed, visited).cursor.done
            || Drive(b, c, w, budget, cb, changed, visited).changed == budget
    decreases if c.done then 0 else 1, Remaining(c.pos.y, b.max.y), Remaining(c.pos.x, b.max.x), Remaining(c.pos.z, b.max.z)
  {
    if changed < budget && !c.done {
      var r := cb(w, c.pos);
      DriveBudget(b, Step(b, c), r.0, budget, cb, if r.1 then changed + 1 else changed, visited + [c.pos]);
    }
  }

  /**
   * Every callback is followed by exactly one cursor advance: the positions
   * handed to the callback are the successive cursor positions, and the final
   * cursor lies as many steps on as there were callbacks.
   */
  lemma {:induction false} DriveTrace<W>(b: Box, c: Cursor, w: W, budget: int, cb: Callback<W>, changed: nat, visited: seq<Coord>)
    ensures var t := Drive(b, c, w, budget, cb, changed, visited);
            |t.visited| >= |visited| && t.visited[..|visited|] == visited
            && t.cursor == Steps(b, c, |t.visited| - |visited|)
            && t.changed <= changed + (|t.visited| - |visited|)
            && forall i :: 0 <= i < |t.visited| - |visited| ==>
                 !Steps(b, c, i).done && t.visited[|visited| + i] == Steps(b, c, i).pos
    decreases if c.done then 0 else 1, Remaining(c.pos.y, b.max.y), Remaining(c.pos.x, b.max.x), Remaining(c.pos.z, b.max.z)
  {
    if changed < budget && !c.done {
      var r := cb(w, c.pos);
      var changed' := if r.1 then changed + 1 else changed;
      var visited' := visited + [c.pos];
      DriveTrace(b, Step(b, c), r.0, budget, cb, changed', visited');
      var t := Drive(b, c, w, budget, cb, changed, visited);
      var n := |t.visited| - |visited|;
      assert t.visited[..|visited'|] == visited';
      assert t.visited[..|visited|] == visited by {
        assert t.visited[..|visited|] == visited'[..|visited|];
      }
      assert Steps(b, c, n) == Steps(b, Step(b, c), n - 1);
      forall i | 0 <= i < n
        ensures !Steps(b, c, i).done && t.visited[|visited| + i] == Steps(b, c, i).pos
      {
        if i > 0 {
          assert Steps(b, c, i) == Steps(b, Step(b, c), i - 1);
        }
      }
    }
  }

  /** On a cursor that is already done, update() calls no callback and changes nothing. */
  lemma UpdateWhenDone<W>(b: Box, c: Cursor, w: W, budget: int, cb: Callback<W>)
    requires c.done
    ensures OneUpdate(b, c, w, budget, cb) == Tick(c, w, [], 0)
  {
  }

  /** With callbacks that never report a change, one update() (any positive budget) exhausts the cursor. */
  lemma {:induction false} DriveNoChanges<W(!new)>(b: Box, c: Cursor, w: W, budget: int, cb: Callback<W>, visited: seq<Coord>)
    requires NeverChanges(cb) && budget > 0
    ensures Drive(b, c, w, budget, cb, 0, visited).cursor.done
    ensures Drive(b, c, w, budget, cb, 0, visited).changed == 0
    decreases if c.done then 0 else 1, Remaining(c.pos.y, b.max.y), Remaining(c.pos.x, b.max.x), Remaining(c.pos.z, b.max.z)
  {
    if !c.done {
      var r := cb(w, c.pos);
      assert !r.1;
      DriveNoChanges(b, Step(b, c), r.0, budget, cb, visited + [c.pos]);
    }
  }

  function Min(a: int, b: int): int { if a <= b then a else b }

  /**
   * With callbacks that always report a change, a call that starts on the
   * i-th position of a fresh scan with `changed` changes counted advances the
   * scan by exactly min(budget - changed, Volume - i) positions.
   */
  lemma {:induction false} DriveAllChanges<W(!new)>(b: Box, i: nat, w: W, budget: int, cb: Callback<W>, changed: nat, visited: seq<Coord>)
    requires WellFormed(b) && AlwaysChanges(cb) && changed <= budget && i <= Volume(b)
    ensures var t := Drive(b, Steps(b, Start(b), i), w, budget, cb, changed, visited);
            t.cursor == Steps(b, Start(b), Min(i + budget - changed, Volume(b)))
            && t.changed == changed + Min(budget - changed, Volume(b) - i)
    decreases Volume(b) - i
  {
    var c := Steps(b, Start(b), i);
    if i == Volume(b) {
      ScanLength(b, i);
    } else if changed < budget {
      ScanPosition(b, i);
      StepsSplit(b, Start(b), i, 1);
      var r := cb(w, c.pos);
      assert r.1;
      DriveAllChanges(b, i + 1, r.0, budget, cb, changed + 1, visited + [c.pos]);
    }
  }

  // ---------------------------------------------------------------------
  // Successive update() calls
  // ---------------------------------------------------------------------

  /** The cursor and environment after k update() calls. */
  function Updates<W>(b: Box, c: Cursor, w: W, budget: int, cb: Callback<W>, k: nat): (Cursor, W)
    decreases k
  {
    if k == 0 then (c, w)
    else
      var t := OneUpdate(b, c, w, budget, cb);
      Updates(b, t.cursor, t.world, budget, cb, k - 1)
  }

  /** k * budget, one call's budget at a time. */
  lemma MulStep(k: nat, budget: int)
    requires k > 0 && budget >= 1
    ensures k * budget == (k - 1) * budget + budget && (k - 1) * budget >= 0
  {
    Distribute(k - 1, 1, budget);
    MulNonNegative(k - 1, budget);
  }

  /** One update() call with all changes: the first call's cursor, and the remaining calls from there. */
  lemma UpdatesFirstCall<W(!new)>(b: Box, i: nat, w: W, budget: int, cb: Callback<W>, k: nat)
    requires WellFormed(b) && AlwaysChanges(cb) && budget >= 1 && i <= Volume(b) && k > 0
    ensures var t := OneUpdate(b, Steps(b, Start(b), i), w, budget, cb);
            && t.cursor == Steps(b, Start(b), Min(i + budget, Volume(b)))
            && Updates(b, Steps(b, Start(b), i), w, budget, cb, k) == Updates(b, t.cursor, t.world, budget, cb, k - 1)
  {
    DriveAllChanges(b, i, w, budget, cb, 0, []);
  }

  /**
   * With every callback reporting a change and budget >= 1, k update() calls
   * from a fresh cursor leave it min(k * budget, Volume) positions on.
   */
  lemma {:induction false} UpdatesAllChanges<W(!new)>(b: Box, i: nat, w: W, budget: int, cb: Callback<W>, k: nat)
    requires WellFormed(b) && AlwaysChanges(cb) && budget >= 1 && i <= Volume(b)
    ensures Updates(b, Steps(b, Start(b), i), w, budget, cb, k).0 == Steps(b, Start(b), Min(i + k * budget, Volume(b)))
    decreases k
  {
    if k > 0 {
      UpdatesFirstCall(b, i, w, budget, cb, k);
      var t := OneUpdate(b, Steps(b, Start(b), i), w, budget, cb);
      var i' := Min(i + budget, Volume(b));
      UpdatesAllChanges(b, i', t.world, budget, cb, k - 1);
      MulStep(k, budget);
    }
  }

  lemma {:induction false} UpdatesWhenDone<W>(b: Box, c: Cursor, w: W, budget: int, cb: Callback<W>, k: nat)
    requires c.done
    ensures Updates(b, c, w, budget, cb, k).0 == c
    decreases k
  {
    if k > 0 {
      UpdatesWhenDone(b, c, w, budget, cb, k - 1);
    }
  }

  /** ceil(n / d) for d >= 1 is the least k with k * d >= n. */
  lemma CeilDiv(n: nat, d: int)
    requires d >= 1
    ensures (n + d - 1) / d * d >= n
    ensures n > 0 ==> ((n + d - 1) / d - 1) * d < n
  {
    var q := (n + d - 1) / d;
    var r := (n + d - 1) % d;
    assert q * d + r == n + d - 1;
  }

  /**
   * With N positions, every callback reporting a change and budget b >= 1,
   * the cursor is done after exactly ceil(N / b) update() calls and not before.
   */
  lemma UpdatesNeededAllChanges<W(!new)>(b: Box, w: W, budget: int, cb: Callback<W>)
    requires WellFormed(b) && AlwaysChanges(cb) && budget >= 1
    ensures var k := (Volume(b) + budget - 1) / budget;
            Updates(b, Start(b), w, budget, cb, k).0.done
            && !Updates(b, Start(b), w, budget, cb, k - 1).0.done
  {
    var n := Volume(b);
    var k := (n + budget - 1) / budget;
    CeilDiv(n, budget);
    assert Steps(b, Start(b), 0) == Start(b);
    UpdatesAllChanges(b, 0, w, budget, cb, k);
    ScanLength(b, Min(k * budget, n));
    UpdatesAllChanges(b, 0, w, budget, cb, k - 1);
    assert (k - 1) * budget < n;
    ScanLength(b, Min((k - 1) * budget, n));
  }

  // ---------------------------------------------------------------------
  // The mutable subtask
  // ---------------------------------------------------------------------

  class ArenaBuildSubtask<W> {
    const iter: RegionIterator
    const iterationsPerTick: int
    const onUpdate: Callback<W>

    constructor (iter: RegionIterator, iterationsPerTick: int, onUpdate: Callback<W>)
      ensures this.iter == iter && this.iterationsPerTick == iterationsPerTick && this.onUpdate == onUpdate
    {
      this.iter := iter;
      this.iterationsPerTick := iterationsPerTick;
      this.onUpdate := onUpdate;
    }

    /** update(): returns whether the iter is done after the call. */
    method Update(w: W) returns (w': W, done: bool)
      modifies iter
      ensures var t := OneUpdate(iter.bounds, old(iter.State()), w, iterationsPerTick, onUpdate);
              iter.State() == t.cursor && w' == t.world
      ensures done == iter.done
    {
      var updated: nat := 0;
      ghost var visited: seq<Coord> := [];
      w' := w;
      while updated < iterationsPerTick && !iter.IsDone()
        invariant Drive(iter.bounds, iter.State(), w', iterationsPerTick, onUpdate, updated, visited)
               == OneUpdate(iter.bounds, old(iter.State()), w, iterationsPerTick, onUpdate)
        decreases if iter.done then 0 else 1, Remaining(iter.y, iter.bounds.max.y),
                  Remaining(iter.x, iter.bounds.max.x), Remaining(iter.z, iter.bounds.max.z)
      {
        var r := onUpdate(w', Coord(iter.GetX(), iter.GetY(), iter.GetZ()));
        w' := r.0;
        if r.1 {
          updated := updated + 1;
        }
        visited := visited + [iter.State().pos];
        iter.Update();
      }
      done := iter.IsDone();
    }
  }
}
