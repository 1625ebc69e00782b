/**
 The claim that is to keep OTA tasks apart (main/app_main_stateless.c): when two of them run, over every sequence of
 commands and of tasks that end.
 */
module OtaClaim {
  import opened CommandRuntime

  /** An OTA command is executed, with or without the resources for a task; or a running task ends without a restart. */
  datatype Event = Attempt(resources: bool) | TaskEnds

  const NO_TASK := OtaFlag(false, 0)

  predicate Enabled(f: OtaFlag, e: Event) { e.Attempt? || f.tasks > 0 }

  function Apply(f: OtaFlag, e: Event): OtaFlag
    requires Enabled(f, e)
  {
    match e
    case Attempt(resources) => OtaStart(f, resources)
    case TaskEnds => OtaFlag(false, f.tasks - 1)
  }

  ghost predicate Run(fs: seq<OtaFlag>, es: seq<Event>) {
    && |fs| == |es| + 1 && fs[0] == NO_TASK
    && forall i :: 0 <= i < |es| ==> Enabled(fs[i], es[i]) && fs[i + 1] == Apply(fs[i], es[i])
  }

  /** From `i` on no task has ended. */
  predicate NoEnd(es: seq<Event>, i: nat, j: nat)
    requires j <= |es|
  {
    forall k :: i <= k < j ==> es[k].Attempt?
  }

  /** An attempt at `i` that could start a task, and no task ended since. */
  predicate Starts(es: seq<Event>, i: nat, j: nat)
    requires j <= |es|
  {
    i < j && es[i] == Attempt(true) && NoEnd(es, i, j)
  }

  /** An attempt starts a task, a later one is refused, and a third arrives before any task ends. */
  predicate Collides(es: seq<Event>, i: nat, k: nat)
    requires k < |es|
  {
    i + 1 < k && Starts(es, i, k) && es[k] == Attempt(true)
  }

  ghost predicate NoCollision(es: seq<Event>, j: nat)
    requires j <= |es|
  {
    forall i, k :: 0 <= i < k < j ==> !Collides(es, i, k)
  }

  ghost predicate SomeStart(es: seq<Event>, j: nat)
    requires j <= |es|
  {
    exists i: nat :: Starts(es, i, j)
  }

  /** What the flag says as long as no attempts collided. */
  ghost predicate Accurate(f: OtaFlag, es: seq<Event>, j: nat)
    requires j <= |es|
  {
    && f.tasks <= 1
    && (f.tasks == 1 <==> SomeStart(es, j))
    && (f.active <==> j > 0 && es[j - 1] == Attempt(true) && !SomeStart(es, j - 1))
  }

  lemma StartsLater(es: seq<Event>, j: nat)
    requires j < |es|
    ensures SomeStart(es, j + 1) <==> es[j].Attempt? && (SomeStart(es, j) || es[j] == Attempt(true))
  {
    var n := j + 1;
    if i: nat :| Starts(es, i, n) {
      assert i < j ==> Starts(es, i, j);
    }
    if es[j].Attempt? {
      if i: nat :| Starts(es, i, j) { assert Starts(es, i, j + 1); }
      if es[j] == Attempt(true) { assert Starts(es, j, j + 1); }
    }
  }

  lemma AttemptKeeps(f: OtaFlag, es: seq<Event>, j: nat)
    requires j < |es| && Accurate(f, es, j) && es[j].Attempt? && NoCollision(es, j + 1)
    ensures Accurate(Apply(f, es[j]), es, j + 1)
  {
    StartsLater(es, j);
    if j > 0 { StartsLater(es, j - 1); }
    if es[j] == Attempt(true) && SomeStart(es, j) && !f.active {
      SecondWouldCollide(f, es, j);
    }
  }

  /** With a task running and its claim gone, one more attempt is a collision. */
  lemma SecondWouldCollide(f: OtaFlag, es: seq<Event>, j: nat)
    requires j < |es| && Accurate(f, es, j) && es[j] == Attempt(true) && SomeStart(es, j) && !f.active
    ensures !NoCollision(es, j + 1)
  {
    var i: nat :| Starts(es, i, j);
    if i + 1 < j {
      assert Collides(es, i, j);
    } else {
      var h: nat :| Starts(es, h, j - 1);
      assert Collides(es, h, j);
    }
  }

  lemma EndKeeps(f: OtaFlag, es: seq<Event>, j: nat)
    requires j < |es| && Accurate(f, es, j) && es[j].TaskEnds? && Enabled(f, es[j])
    ensures Accurate(Apply(f, es[j]), es, j + 1)
  {
    StartsLater(es, j);
  }

  lemma {:induction false} FlagIsAccurate(fs: seq<OtaFlag>, es: seq<Event>, j: nat)
    requires Run(fs, es) && j <= |es| && NoCollision(es, j)
    ensures Accurate(fs[j], es, j)
  {
    if j > 0 {
      assert NoCollision(es, j - 1);
      FlagIsAccurate(fs, es, j - 1);
      assert Enabled(fs[j - 1], es[j - 1]) && fs[j - 1 + 1] == Apply(fs[j - 1], es[j - 1]);
      if es[j - 1].Attempt? {
        AttemptKeeps(fs[j - 1], es, j - 1);
      } else {
        EndKeeps(fs[j - 1], es, j - 1);
      }
    }
  }

  /** At the first collision the second task starts. */
  lemma CollisionStartsASecond(fs: seq<OtaFlag>, es: seq<Event>, i: nat, k: nat)
    requires Run(fs, es) && k < |es| && NoCollision(es, k) && i < k && Collides(es, i, k)
    ensures fs[k + 1].tasks == 2
  {
    FlagIsAccurate(fs, es, k);
    assert Starts(es, i, k - 1) && SomeStart(es, k - 1) && SomeStart(es, k);
    assert fs[k + 1] == Apply(fs[k], es[k]);
  }

  ghost predicate TwoTasksBy(fs: seq<OtaFlag>, j: nat)
    requires j < |fs|
  {
    exists k :: 0 <= k <= j && fs[k].tasks >= 2
  }

  /**
   Over every run: two OTA tasks run at some instant if and only if an OTA command started a task, another was executed
   and a further one with the resources for a task followed, with no task ending in between.
   */
  lemma {:induction false} TwoTasksExactly(fs: seq<OtaFlag>, es: seq<Event>, j: nat)
    requires Run(fs, es) && j <= |es|
    ensures TwoTasksBy(fs, j) <==> !NoCollision(es, j)
  {
    if NoCollision(es, j) {
      forall k | 0 <= k <= j ensures fs[k].tasks < 2 {
        assert NoCollision(es, k);
        FlagIsAccurate(fs, es, k);
      }
    } else {
      TwoTasksExactly(fs, es, j - 1);
      if NoCollision(es, j - 1) {
        var i, k :| 0 <= i < k < j && Collides(es, i, k);
        assert k == j - 1;
        CollisionStartsASecond(fs, es, i, k);
        assert fs[j].tasks >= 2;
      }
    }
  }
}
