// The reconciler under interleaving: between its unlocked scan and each of its
// transactions the rest of the system, other sweeps included, commits anything.
module RotationSweep {
  import opened Clock
  import opened Wrappers
  import opened RotationTables
  import opened RotationLives
  import opened RotationRefinement
  import opened RotationService

  /** The sweep as part of one history: what the others commit, then the
      transaction for the row, for every scanned row. */
  function History(now: Time, scan: seq<nat>, others: seq<seq<Step>>): seq<Step>
    requires |others| == |scan|
    decreases |scan|
  {
    if scan == [] then [] else others[0] + [ReconcileStep(scan[0], now)] + History(now, scan[1..], others[1..])
  }

  function CompletedIn(t: Tables): set<nat> {
    set r | r in t.rotations && t.rotations[r].status == Completed
  }

  /** The rotations that were not completed right before the sweep's own
      transaction for them and were completed right after it. */
  function OwnCompletions(t: Tables, now: Time, scan: seq<nat>, others: seq<seq<Step>>): seq<nat>
    requires |others| == |scan|
    decreases |scan|
  {
    if scan == [] then []
    else
      var before := Run(t, others[0]);
      var after := Apply(before, ReconcileStep(scan[0], now));
      (if scan[0] in CompletedIn(after) - CompletedIn(before) then [scan[0]] else [])
      + OwnCompletions(after, now, scan[1..], others[1..])
  }

  lemma HistoryUnrolls(t: Tables, now: Time, scan: seq<nat>, others: seq<seq<Step>>)
    requires |others| == |scan| && scan != []
    ensures Run(t, History(now, scan, others))
         == Run(Apply(Run(t, others[0]), ReconcileStep(scan[0], now)), History(now, scan[1..], others[1..]))
  {
    var own, rest := [ReconcileStep(scan[0], now)], History(now, scan[1..], others[1..]);
    assert History(now, scan, others) == others[0] + (own + rest);
    RunAppend(t, others[0], own + rest);
    assert (own + rest)[1..] == rest;
  }

  lemma ReconcileSucceeds(t: Tables, lives: Lives, r: nat, now: Time)
    requires Represents(t, lives)
    ensures ReconcileRow(t, r, now).result.Ok?
  {
    ReconcileRefines(t, lives, r, now);
  }

  lemma OwnStep(t: Tables, r: nat, now: Time)
    requires ReconcileRow(t, r, now).result.Ok?
    ensures var o := ReconcileRow(t, r, now);
            o.result == Ok(r in CompletedIn(o.tables) - CompletedIn(t))
  {
  }

  lemma SweepUnrolls(t: Tables, now: Time, scan: seq<nat>, others: seq<seq<Step>>)
    requires |others| == |scan| && scan != []
    requires ReconcileRow(Run(t, others[0]), scan[0], now).result.Ok?
    ensures var o := ReconcileRow(Run(t, others[0]), scan[0], now);
            var own := if o.result.value then 1 else 0;
            && Sweep(t, now, scan, others) == Resume(own, Sweep(o.tables, now, scan[1..], others[1..]))
            && |OwnCompletions(t, now, scan, others)| == own + |OwnCompletions(o.tables, now, scan[1..], others[1..])|
  {
    OwnStep(Run(t, others[0]), scan[0], now);
  }

  predicate NeverFails(t: Tables, now: Time, scan: seq<nat>, others: seq<seq<Step>>)
    requires |others| == |scan|
    decreases |scan|
  {
    scan == [] ||
    var o := ReconcileRow(Run(t, others[0]), scan[0], now);
    o.result.Ok? && NeverFails(o.tables, now, scan[1..], others[1..])
  }

  lemma {:induction false} SweepSucceeds(t: Tables, lives: Lives, now: Time, scan: seq<nat>, others: seq<seq<Step>>)
    requires Represents(t, lives) && |others| == |scan|
    ensures NeverFails(t, now, scan, others)
    decreases |scan|
  {
    if scan != [] {
      var u, mid := Run(t, others[0]), FollowAll(t, lives, others[0]);
      RunRefines(t, lives, others[0]);
      ReconcileSucceeds(u, mid, scan[0], now);
      StepRefines(u, mid, ReconcileStep(scan[0], now));
      SweepSucceeds(ReconcileRow(u, scan[0], now).tables, Follow(u, mid, ReconcileStep(scan[0], now)), now, scan[1..], others[1..]);
    }
  }

  /** A sweep that meets no error does exactly what its transactions do at their
      place in the history, and counts the rotations it completed itself. */
  lemma {:induction false} SweepCounts(t: Tables, now: Time, scan: seq<nat>, others: seq<seq<Step>>)
    requires |others| == |scan| && NeverFails(t, now, scan, others)
    ensures Sweep(t, now, scan, others)
         == SweepOutcome(Run(t, History(now, scan, others)), |OwnCompletions(t, now, scan, others)|, None)
    decreases |scan|
  {
    if scan != [] {
      SweepUnrolls(t, now, scan, others);
      SweepCounts(ReconcileRow(Run(t, others[0]), scan[0], now).tables, now, scan[1..], others[1..]);
      HistoryUnrolls(t, now, scan, others);
    }
  }

  // ----- nothing overdue is left behind ----------------------------------------

  /** No confirmation in these steps happens before now. */
  predicate ConfirmsFrom(steps: seq<Step>, now: Time) {
    forall i :: 0 <= i < |steps| && steps[i].ConfirmStep? ==> now <= steps[i].now
  }

  ghost predicate LongGraces(t: Tables) {
    forall r :: r in t.rotations ==> t.rotations[r].graceMinutes >= MIN_GRACE_MINUTES
  }

  /** A step at or after now makes no rotation overdue at now: a fresh grace
      period lasts at least a minute. */
  lemma StepLeavesOverdue(t: Tables, s: Step, now: Time)
    requires Numbered(t) && LongGraces(t) && (s.ConfirmStep? ==> now <= s.now)
    ensures Overdue(Apply(t, s), now) <= Overdue(t, now)
  {
  }

  lemma GracesAreLong(t: Tables, lives: Lives)
    requires Represents(t, lives)
    ensures LongGraces(t)
  {
    forall r | r in t.rotations ensures t.rotations[r].graceMinutes >= MIN_GRACE_MINUTES {
      assert RotationFits(t.rotations[r], r, lives[t.rotations[r].deviceId]);
    }
  }

  lemma {:induction false} RunLeavesOverdue(t: Tables, lives: Lives, steps: seq<Step>, now: Time)
    requires Represents(t, lives) && ConfirmsFrom(steps, now)
    ensures Overdue(Run(t, steps), now) <= Overdue(t, now)
    decreases |steps|
  {
    if steps != [] {
      GracesAreLong(t, lives);
      StepLeavesOverdue(t, steps[0], now);
      StepRefines(t, lives, steps[0]);
      RunLeavesOverdue(Apply(t, steps[0]), Follow(t, lives, steps[0]), steps[1..], now);
    }
  }

  /** The sweep's own transaction clears its row. */
  lemma OwnStepClears(t: Tables, r: nat, now: Time)
    requires ReconcileRow(t, r, now).result.Ok?
    ensures var after := Apply(t, ReconcileStep(r, now));
            Overdue(after, now) <= Overdue(t, now) - {r}
  {
  }

  lemma {:induction false} SweepClears(t: Tables, lives: Lives, now: Time, scan: seq<nat>, others: seq<seq<Step>>)
    requires Represents(t, lives) && |others| == |scan|
    requires forall i :: 0 <= i < |others| ==> ConfirmsFrom(others[i], now)
    ensures forall r :: r in Overdue(Run(t, History(now, scan, others)), now) ==> r in Overdue(t, now) && r !in scan
    decreases |scan|
  {
    if scan != [] {
      var step := ReconcileStep(scan[0], now);
      var u, mid := Run(t, others[0]), FollowAll(t, lives, others[0]);
      RunRefines(t, lives, others[0]);
      RunLeavesOverdue(t, lives, others[0], now);
      ReconcileSucceeds(u, mid, scan[0], now);
      OwnStepClears(u, scan[0], now);
      StepRefines(u, mid, step);
      SweepClears(Apply(u, step), Follow(u, mid, step), now, scan[1..], others[1..]);
      HistoryUnrolls(t, now, scan, others);
    }
  }

  /** The whole reconciler, started in a reachable state: no error, the tables
      still represent device lives, an exact count, and, when the clock never
      runs backwards, no rotation left in grace past its deadline. */
  lemma SweepIsCorrect(steps: seq<Step>, now: Time, scan: seq<nat>, others: seq<seq<Step>>)
    requires ScanOf(Run(EMPTY, steps), now, scan) && |others| == |scan|
    ensures var t := Run(EMPTY, steps);
            var o := Sweep(t, now, scan, others);
            && o.error == None
            && o.tables == Run(EMPTY, steps + History(now, scan, others))
            && o.completed == |OwnCompletions(t, now, scan, others)|
            && ((forall i :: 0 <= i < |others| ==> ConfirmsFrom(others[i], now)) ==> Overdue(o.tables, now) == {})
  {
    var t := Run(EMPTY, steps);
    ReachableRepresents(steps);
    SweepSucceeds(t, LivesOf(steps), now, scan, others);
    SweepCounts(t, now, scan, others);
    RunAppend(EMPTY, steps, History(now, scan, others));
    if forall i :: 0 <= i < |others| ==> ConfirmsFrom(others[i], now) {
      SweepClears(t, LivesOf(steps), now, scan, others);
    }
  }
}
