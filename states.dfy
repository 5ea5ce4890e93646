/**
 * The sequential stage queue of an arena build (ArenaBuildStates).
 *
 * update() calls update() on the subtask at index `state` and moves `state`
 * on by one when that subtask reports that it is done; the next subtask gets
 * its first call on the following update(). The queue is done once `state`
 * has passed the last subtask.
 *
 * The timing properties are proved on a pure model of the queue in which
 * stage i reports done on its needs[i]-th call: the queue then needs exactly
 * needs[0] + ... + needs[n-1] update() calls, and stage j gets its first call
 * only after every earlier stage has had all of its calls.
 */
module BuildStates {
  import opened Region
  import opened BuildSubtask

  // ---------------------------------------------------------------------
  // Pure model of the queue
  // ---------------------------------------------------------------------

  /** Index of the current stage and the calls it has had so far. */
  datatype Progress = Progress(stage: nat, calls: nat)

  function Fresh(): Progress { Progress(0, 0) }

  predicate QueueDone(needs: seq<nat>, p: Progress)
  {
    p.stage >= |needs|
  }

  /** Every stage needs at least one call before it reports done. */
  predicate Positive(needs: seq<nat>)
  {
    forall i :: 0 <= i < |needs| ==> needs[i] >= 1
  }

  /** One update() of the queue. */
  function Advance(needs: seq<nat>, p: Progress): Progress
  {
    if QueueDone(needs, p) then p
    else if p.calls + 1 >= needs[p.stage] then Progress(p.stage + 1, 0)
    else Progress(p.stage, p.calls + 1)
  }

  /** n successive update() calls. */
  function Run(needs: seq<nat>, p: Progress, n: nat): Progress
    decreases n
  {
    if n == 0 then p else Run(needs, Advance(needs, p), n - 1)
  }

  /** Sum of the needs of all stages. */
  function Total(needs: seq<nat>): nat
  {
    if needs == [] then 0 else Total(needs[..|needs| - 1]) + needs[|needs| - 1]
  }

  /** Each update() leaves the stage index where it was or moves it on by one, and only on a report. */
  lemma AdvanceMonotone(needs: seq<nat>, p: Progress)
    ensures Advance(needs, p).stage == p.stage
            || (Advance(needs, p).stage == p.stage + 1 && p.stage < |needs| && p.calls + 1 >= needs[p.stage])
  {
  }

  lemma {:induction false} RunSplit(needs: seq<nat>, p: Progress, m: nat, n: nat)
    ensures Run(needs, p, m + n) == Run(needs, Run(needs, p, m), n)
    decreases m
  {
    if m > 0 {
      RunSplit(needs, Advance(needs, p), m - 1, n);
    }
  }

  /** The stage index never decreases over any number of calls. */
  lemma {:induction false} RunMonotone(needs: seq<nat>, p: Progress, n: nat)
    ensures Run(needs, p, n).stage >= p.stage
    decreases n
  {
    if n > 0 {
      RunMonotone(needs, Advance(needs, p), n - 1);
    }
  }

  /** update() on a done queue does nothing, however often it is called. */
  lemma {:induction false} RunWhenDone(needs: seq<nat>, p: Progress, n: nat)
    requires QueueDone(needs, p)
    ensures Run(needs, p, n) == p
    decreases n
  {
    if n > 0 {
      RunWhenDone(needs, Advance(needs, p), n - 1);
    }
  }

  /** Within a stage, fewer calls than it needs leave the queue on that stage. */
  lemma {:induction false} RunWithinStage(needs: seq<nat>, j: nat, c: nat)
    requires j < |needs| && c < needs[j]
    ensures Run(needs, Progress(j, 0), c) == Progress(j, c)
    decreases c
  {
    if c > 0 {
      RunWithinStage(needs, j, c - 1);
      RunSplit(needs, Progress(j, 0), c - 1, 1);
    }
  }

  /** A stage that needs k calls moves the queue to the next stage after exactly k calls. */
  lemma RunWholeStage(needs: seq<nat>, j: nat)
    requires Positive(needs) && j < |needs|
    ensures Run(needs, Progress(j, 0), needs[j]) == Progress(j + 1, 0)
  {
    RunWithinStage(needs, j, needs[j] - 1);
    RunSplit(needs, Progress(j, 0), needs[j] - 1, 1);
  }

  /** Stage j gets its first call after exactly needs[0] + ... + needs[j-1] calls. */
  lemma {:induction false} StageStart(needs: seq<nat>, j: nat)
    requires Positive(needs) && j <= |needs|
    ensures Run(needs, Fresh(), Total(needs[..j])) == Progress(j, 0)
  {
    if j > 0 {
      StageStart(needs, j - 1);
      assert needs[..j][..j - 1] == needs[..j - 1];
      RunWholeStage(needs, j - 1);
      RunSplit(needs, Fresh(), Total(needs[..j - 1]), needs[j - 1]);
    }
  }

  /** Fewer calls than the needs of stages 0..j-1 together leave the queue on one of those stages. */
  lemma {:induction false} BeforeStage(needs: seq<nat>, j: nat, n: nat)
    requires Positive(needs) && j <= |needs| && n < Total(needs[..j])
    ensures Run(needs, Fresh(), n).stage < j
  {
    assert j > 0;
    var before := Total(needs[..j - 1]);
    assert needs[..j][..j - 1] == needs[..j - 1];
    if n < before {
      BeforeStage(needs, j - 1, n);
    } else {
      StageStart(needs, j - 1);
      RunSplit(needs, Fresh(), before, n - before);
      RunWithinStage(needs, j - 1, n - before);
    }
  }

  /** A queue whose stages need needs[i] calls each is done after exactly Total(needs) calls and not before. */
  lemma QueueCalls(needs: seq<nat>, n: nat)
    requires Positive(needs)
    ensures n < Total(needs) ==> !QueueDone(needs, Run(needs, Fresh(), n))
    ensures n >= Total(needs) ==> QueueDone(needs, Run(needs, Fresh(), n))
  {
    assert needs[..|needs|] == needs;
    if n < Total(needs) {
      BeforeStage(needs, |needs|, n);
    } else {
      StageStart(needs, |needs|);
      RunSplit(needs, Fresh(), Total(needs), n - Total(needs));
      RunWhenDone(needs, Run(needs, Fresh(), Total(needs)), n - Total(needs));
    }
  }

  // ---------------------------------------------------------------------
  // The pure model against the subtasks
  // ---------------------------------------------------------------------

  /** The update() calls a subtask needs when every callback reports a change: ceil(Volume / budget). */
  function Needed(b: Box, budget: int): nat
    requires WellFormed(b) && budget >= 1
  {
    (Volume(b) + budget - 1) / budget
  }

  /** c * budget <= (k - 1) * budget < Volume for c < k = Needed(b, budget). */
  lemma BelowNeeded(b: Box, budget: int, c: nat)
    requires WellFormed(b) && budget >= 1 && c < Needed(b, budget)
    ensures c * budget < Volume(b)
    ensures c + 1 < Needed(b, budget) ==> (c + 1) * budget < Volume(b)
    ensures c + 1 == Needed(b, budget) ==> (c + 1) * budget >= Volume(b)
  {
    var k := Needed(b, budget);
    CeilDiv(Volume(b), budget);
    assert (k - 1) * budget < Volume(b);
    Distribute(c, k - 1 - c, budget);
    MulNonNegative(k - 1 - c, budget);
    if c + 1 < k {
      Distribute(c + 1, k - 2 - c, budget);
      MulNonNegative(k - 2 - c, budget);
    }
  }

  /**
   * Stage `stage` of the pure model, after c calls, stands for a subtask
   * whose cursor is c * budget positions into its scan. With every callback
   * reporting a change and needs[stage] == Needed(b, budget), one update()
   * of that subtask moves the queue exactly as Advance does: the stage index
   * grows by one exactly when the subtask reports done, and otherwise the
   * cursor stands c + 1 budgets into the scan.
   */
  lemma UpdateAdvances<W(!new)>(needs: seq<nat>, b: Box, w: W, budget: int, cb: Callback<W>, stage: nat, c: nat)
    requires WellFormed(b) && AlwaysChanges(cb) && budget >= 1
    requires stage < |needs| && needs[stage] == Needed(b, budget) && c < needs[stage]
    ensures var t := OneUpdate(b, Steps(b, Start(b), c * budget), w, budget, cb);
            var p := Advance(needs, Progress(stage, c));
            && p.stage == stage + (if t.cursor.done then 1 else 0)
            && (p.stage == stage ==> p.calls == c + 1 && t.cursor == Steps(b, Start(b), p.calls * budget))
  {
    BelowNeeded(b, budget, c);
    MulNonNegative(c, budget);
    Distribute(c, 1, budget);
    DriveAllChanges(b, c * budget, w, budget, cb, 0, []);
    ScanLength(b, Min(c * budget + budget, Volume(b)));
  }

  // ---------------------------------------------------------------------
  // The mutable queue
  // ---------------------------------------------------------------------

  class ArenaBuildStates<W(!new)> {
    var subtasks: seq<ArenaBuildSubtask<W>>
    var state: nat

    constructor ()
      ensures subtasks == [] && state == 0
    {
      subtasks := [];
      state := 0;
    }

    /** addTask: appends at the end, so subtasks keep their insertion order. */
    method AddTask(task: ArenaBuildSubtask<W>)
      modifies this
      ensures subtasks == old(subtasks) + [task] && state == old(state)
    {
      subtasks := subtasks + [task];
    }

    predicate IsDone()
      reads this
    {
      state >= |subtasks|
    }

    /**
     * update(): nothing on a done queue; otherwise exactly one subtask, the
     * one at index `state`, is updated, and `state` moves on by one exactly
     * when that subtask reports done.
     */
    method Update(w: W) returns (w': W)
      modifies this, if state < |subtasks| then {subtasks[state].iter} else {}
      ensures subtasks == old(subtasks)
      ensures old(IsDone()) ==> state == old(state) && w' == w
      ensures !old(IsDone()) ==>
                var task := subtasks[old(state)];
                var t := OneUpdate(task.iter.bounds, old(task.iter.State()), w, task.iterationsPerTick, task.onUpdate);
                task.iter.State() == t.cursor && w' == t.world
                && state == old(state) + (if t.cursor.done then 1 else 0)
    {
      if IsDone() {
        w' := w;
        return;
      }
      var task := subtasks[state];
      var done;
      w', done := task.Update(w);
      if done {
        state := state + 1;
      }
    }

    /**
     * update() seen through the pure model: when the current subtask's
     * callbacks always report a change and it stands c budgets into its
     * scan, the queue moves from Progress(state, c) to Advance of it, and a
     * subtask that stays current stands one budget further on.
     */
    method TrackedUpdate(w: W, ghost needs: seq<nat>, ghost c: nat) returns (w': W, ghost p: Progress)
      requires |needs| == |subtasks|
      requires state < |subtasks| ==>
                 var task := subtasks[state];
                 var b := task.iter.bounds;
                 && WellFormed(b) && AlwaysChanges(task.onUpdate) && task.iterationsPerTick >= 1
                 && needs[state] == Needed(b, task.iterationsPerTick) && c < needs[state]
                 && task.iter.State() == Steps(b, Start(b), c * task.iterationsPerTick)
      modifies this, if state < |subtasks| then {subtasks[state].iter} else {}
      ensures subtasks == old(subtasks)
      ensures p == Advance(needs, Progress(old(state), c)) && state == p.stage
      ensures state == old(state) < |subtasks| ==>
                var task := subtasks[state];
                task.iter.State() == Steps(task.iter.bounds, Start(task.iter.bounds), p.calls * task.iterationsPerTick)
    {
      if state < |subtasks| {
        var task := subtasks[state];
        UpdateAdvances(needs, task.iter.bounds, w, task.iterationsPerTick, task.onUpdate, state, c);
      }
      w' := Update(w);
      p := Advance(needs, Progress(old(state), c));
    }
  }
}
