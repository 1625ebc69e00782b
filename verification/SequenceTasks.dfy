/**
 The sequence state in memory under tasks that share it without a lock (main/app_main.c, components/pm_network): each
 operation copies the state, persists its changed copy, and assigns the copy back if that succeeded. `SequenceStore`
 proves that numbers are never reused and acknowledgements never go back when operations do not overlap; here it is
 proved exactly which overlaps do that. The floor is not raised here.
 */
module SequenceTasks {
  import opened Esp
  import opened SequenceStore

  /** `pm_sequence_next` is two such operations: it reserves a block if it must, then claims a number. */
  datatype Op = Reserve | Claim | Report(value: U64)

  /** `version` counts the assignments that had happened when the copy was made. */
  datatype Task = Idle | Copied(op: Op, copy: SeqState, version: nat)

  /**
   `issuedAt` is the number of assignments after which the last number was handed out, `raisedAt` that after which the
   acknowledgement last rose. `issued` and `reported` are the numbers and acknowledgements returned with ESP_OK.
   */
  datatype Shared = Shared(mem: SeqState, tasks: map<nat, Task>, issued: seq<U64>, version: nat, issuedAt: nat,
                           reported: seq<U64>, raisedAt: nat)

  /** `Fail` is a persist that returned an error. */
  datatype Event = Copy(task: nat, op: Op) | Assign(task: nat) | Fail(task: nat)

  predicate Applicable(m: SeqState, op: Op) {
    match op
    case Reserve => CanAllocate(m) && m.next > m.reserved
    case Claim => m.next < U64_MAX
    case Report(value) => m.acknowledged < value <= m.maximumSeen
  }

  function Changed(m: SeqState, op: Op): SeqState
    requires Applicable(m, op)
  {
    match op
    case Reserve => WithBlock(m)
    case Claim => Allocated(m)
    case Report(value) => m.(acknowledged := value)
  }

  predicate Enabled(w: Shared, e: Event) {
    match e
    case Copy(i, op) => i in w.tasks && w.tasks[i].Idle? && Applicable(w.mem, op)
    case Assign(i) => i in w.tasks && w.tasks[i].Copied? && Applicable(w.tasks[i].copy, w.tasks[i].op)
    case Fail(i) => i in w.tasks && w.tasks[i].Copied?
  }

  function Apply(w: Shared, e: Event): Shared
    requires Enabled(w, e)
  {
    match e
    case Copy(i, op) => w.(tasks := w.tasks[i := Copied(op, w.mem, w.version)])
    case Assign(i) =>
      var t := w.tasks[i];
      var claims := t.op.Claim?;
      var mem' := Changed(t.copy, t.op);
      Shared(mem', w.tasks[i := Idle], if claims then w.issued + [t.copy.next] else w.issued,
            w.version + 1, if claims then w.version + 1 else w.issuedAt,
            if t.op.Report? then w.reported + [t.op.value] else w.reported,
            if mem'.acknowledged > w.mem.acknowledged then w.version + 1 else w.raisedAt)
    case Fail(i) => w.(tasks := w.tasks[i := Idle])
  }

  /** Numbers are handed out in increasing order, and memory is past all of them. */
  predicate Fresh(w: Shared) {
    Increasing(w.issued) && forall k :: 0 <= k < |w.issued| ==> w.issued[k] < w.mem.next
  }

  /** A number was handed out between the copy and the assignment. */
  predicate Overtaken(w: Shared, e: Event)
    requires Enabled(w, e)
  {
    e.Assign? && w.tasks[e.task].version < w.issuedAt
  }

  function LastIssued(w: Shared): int { if w.issued == [] then -1 else w.issued[|w.issued| - 1] }

  /** A copy made since the last number has memory's next number, an older one at most the number handed out. */
  predicate TaskSound(w: Shared, t: Task) {
    t.Copied? ==>
      t.version <= w.version && Applicable(t.copy, t.op) &&
      if t.version >= w.issuedAt then t.copy.next == w.mem.next else t.copy.next <= LastIssued(w)
  }

  predicate Inv(w: Shared) {
    w.issuedAt <= w.version && (w.issued == [] ==> w.issuedAt == 0) && forall i :: i in w.tasks ==>
      TaskSound(w, w.tasks[i])
  }

  /** One event keeps numbers fresh if and only if it is not an assignment that was overtaken. */
  lemma EventIsFreshExactly(w: Shared, e: Event)
    requires Inv(w) && Fresh(w) && Enabled(w, e)
    ensures Fresh(Apply(w, e)) <==> !Overtaken(w, e)
    ensures !Overtaken(w, e) ==> Inv(Apply(w, e))
  {
    if e.Assign? {
      var t, w' := w.tasks[e.task], Apply(w, e);
      assert TaskSound(w, t);
      if Overtaken(w, e) {
        assert w.issued[|w.issued| - 1] == LastIssued(w);
        if t.op.Claim? { assert w'.issued[|w.issued|] == t.copy.next && w'.issued[|w.issued| - 1] == LastIssued(w); }
      } else {
        AssignKeepsInv(w, e);
      }
    }
  }

  lemma AssignKeepsInv(w: Shared, e: Event)
    requires Inv(w) && Fresh(w) && Enabled(w, e) && e.Assign? && !Overtaken(w, e)
    ensures Inv(Apply(w, e))
  {
    var w' := Apply(w, e);
    forall i | i in w'.tasks ensures TaskSound(w', w'.tasks[i]) {
      assert TaskSound(w, w.tasks[i]) && TaskSound(w, w.tasks[e.task]);
    }
  }

  /* ---- Acknowledgements ---- */

  /** Memory acknowledges everything that was reported as acknowledged. */
  predicate Kept(w: Shared) { forall k :: 0 <= k < |w.reported| ==> w.reported[k] <= w.mem.acknowledged }

  /** The acknowledgement rose between the copy and the assignment, and what is assigned acknowledges less. */
  predicate Forgets(w: Shared, e: Event)
    requires Enabled(w, e)
  {
    e.Assign? && var t := w.tasks[e.task];
    t.version < w.raisedAt && (t.op.Report? ==> t.op.value < w.mem.acknowledged)
  }

  /** A copy made since the acknowledgement last rose has memory's, an older one acknowledges less. */
  predicate CopySound(w: Shared, t: Task) {
    t.Copied? ==>
      t.version <= w.version && Applicable(t.copy, t.op) &&
      if t.version >= w.raisedAt then t.copy.acknowledged == w.mem.acknowledged
      else t.copy.acknowledged < w.mem.acknowledged
  }

  predicate InvReports(w: Shared) {
    w.raisedAt <= w.version && (w.raisedAt > 0 ==> w.mem.acknowledged in w.reported) && forall i :: i in w.tasks ==>
      CopySound(w, w.tasks[i])
  }

  /** One event keeps what was reported if and only if it is not an assignment that forgets. */
  lemma EventKeepsExactly(w: Shared, e: Event)
    requires InvReports(w) && Kept(w) && Enabled(w, e)
    ensures Kept(Apply(w, e)) <==> !Forgets(w, e)
    ensures !Forgets(w, e) ==> InvReports(Apply(w, e))
    ensures !Forgets(w, e) ==> Apply(w, e).mem.acknowledged >= w.mem.acknowledged
  {
    var w' := Apply(w, e);
    if e.Assign? {
      var t := w.tasks[e.task];
      assert CopySound(w, t);
      forall k | 0 <= k < |w.reported| ensures w'.reported[k] == w.reported[k] {}
      if t.op.Report? { assert w'.reported[|w.reported|] == t.op.value; }
      if Forgets(w, e) {
        var k :| 0 <= k < |w.reported| && w.reported[k] == w.mem.acknowledged;
        assert w'.reported[k] > w'.mem.acknowledged;
      }
    }
    if !Forgets(w, e) {
      forall i | i in w'.tasks ensures CopySound(w', w'.tasks[i]) { assert CopySound(w, w.tasks[i]); }
    }
  }

  /* ---- Runs ---- */

  ghost predicate Run(ws: seq<Shared>, es: seq<Event>) {
    && |ws| == |es| + 1 && ws[0].issued == ws[0].reported == []
    && ws[0].version == ws[0].issuedAt == ws[0].raisedAt == 0
    && (forall i :: i in ws[0].tasks ==> ws[0].tasks[i].Idle?)
    && forall i :: 0 <= i < |es| ==> Enabled(ws[i], es[i]) && ws[i + 1] == Apply(ws[i], es[i])
  }

  ghost predicate NoneOvertaken(ws: seq<Shared>, es: seq<Event>, j: nat)
    requires Run(ws, es) && j < |ws|
  {
    forall i :: 0 <= i < j ==> !Overtaken(ws[i], es[i])
  }

  /**
   For every interleaving of any number of tasks: numbers stay increasing, with memory past them, at every instant if
   and only if no operation assigns a copy that it made before a number was handed out in between.
   */
  lemma {:induction false} FreshExactly(ws: seq<Shared>, es: seq<Event>, j: nat)
    requires Run(ws, es) && j < |ws|
    ensures (forall k :: 0 <= k <= j ==> Fresh(ws[k])) <==> NoneOvertaken(ws, es, j)
    ensures NoneOvertaken(ws, es, j) ==> Inv(ws[j])
    decreases j
  {
    if j > 0 {
      FreshExactly(ws, es, j - 1);
      assert Enabled(ws[j - 1], es[j - 1]) && ws[j - 1 + 1] == Apply(ws[j - 1], es[j - 1]);
      assert NoneOvertaken(ws, es, j) <==> NoneOvertaken(ws, es, j - 1) && !Overtaken(ws[j - 1], es[j - 1]);
      if NoneOvertaken(ws, es, j - 1) { EventIsFreshExactly(ws[j - 1], es[j - 1]); }
    }
  }

  ghost predicate NoneForgets(ws: seq<Shared>, es: seq<Event>, j: nat)
    requires Run(ws, es) && j < |ws|
  {
    forall i :: 0 <= i < j ==> !Forgets(ws[i], es[i])
  }

  /**
   For every interleaving: memory acknowledges all that was reported, at every instant, if and only if no operation
   assigns a copy that is older than the last rise and acknowledges less.
   */
  lemma {:induction false} KeptExactly(ws: seq<Shared>, es: seq<Event>, j: nat)
    requires Run(ws, es) && j < |ws|
    ensures (forall k :: 0 <= k <= j ==> Kept(ws[k])) <==> NoneForgets(ws, es, j)
    ensures NoneForgets(ws, es, j) ==> InvReports(ws[j])
    decreases j
  {
    if j > 0 {
      KeptExactly(ws, es, j - 1);
      assert Enabled(ws[j - 1], es[j - 1]) && ws[j - 1 + 1] == Apply(ws[j - 1], es[j - 1]);
      assert NoneForgets(ws, es, j) <==> NoneForgets(ws, es, j - 1) && !Forgets(ws[j - 1], es[j - 1]);
      if NoneForgets(ws, es, j - 1) { EventKeepsExactly(ws[j - 1], es[j - 1]); }
    }
  }

  const START := SeqState(5, 68, 4, 3, 0, 1)

  /** The shortest such run: an acknowledgement is overtaken by a number, which is then handed out a second time. */
  lemma OvertakenReportReusesANumber() returns (ws: seq<Shared>, es: seq<Event>)
    ensures Run(ws, es) && |es| == 6 && Overtaken(ws[3], es[3])
    ensures es == [Copy(0, Report(4)), Copy(1, Claim), Assign(1), Assign(0), Copy(1, Claim), Assign(1)]
    ensures ws[6].issued == [5, 5]
  {
    es := [Copy(0, Report(4)), Copy(1, Claim), Assign(1), Assign(0), Copy(1, Claim), Assign(1)];
    var w0 := Shared(START, map[0 := Idle, 1 := Idle], [], 0, 0, [], 0);
    var w1 := Apply(w0, es[0]);
    var w2 := Apply(w1, es[1]);
    var w3 := Apply(w2, es[2]);
    assert w3.issued == [5] && w3.mem.next == 6 && w3.tasks[0] == Copied(Report(4), START, 0);
    var w4 := Apply(w3, es[3]);
    assert w4.mem.next == 5 && w4.tasks[1].Idle?;
    var w5 := Apply(w4, es[4]);
    var w6 := Apply(w5, es[5]);
    ws := [w0, w1, w2, w3, w4, w5, w6];
  }

  /** The shortest run that forgets: a number overtakes an acknowledgement, which memory then no longer holds. */
  lemma OvertakenClaimForgetsAReport() returns (ws: seq<Shared>, es: seq<Event>)
    ensures Run(ws, es) && es == [Copy(0, Claim), Copy(1, Report(4)), Assign(1), Assign(0)] && Forgets(ws[3], es[3])
    ensures ws[4].reported == [4] && ws[4].mem.acknowledged == 3
  {
    es := [Copy(0, Claim), Copy(1, Report(4)), Assign(1), Assign(0)];
    var w0 := Shared(START, map[0 := Idle, 1 := Idle], [], 0, 0, [], 0);
    var w1 := Apply(w0, es[0]);
    var w2 := Apply(w1, es[1]);
    var w3 := Apply(w2, es[2]);
    assert w3.reported == [4] && w3.mem.acknowledged == 4 && w3.tasks[0] == Copied(Claim, START, 0);
    var w4 := Apply(w3, es[3]);
    ws := [w0, w1, w2, w3, w4];
  }
}
