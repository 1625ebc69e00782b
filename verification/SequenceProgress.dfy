/**
 When the sequence store can still hand out a number (components/pm_storage/pm_sequence.c): exactly which contents
 of NVS leave a run that does, for every content and under every fault.
 */
module SequenceProgress {
  import opened Esp
  import opened SequenceStore

  const NEVER: int := U32_MAX + 1

  /**
   How many successful persists the next number is away: one in the reserved block, two with a new block, three if
   the floor must be raised first to get back below an abandoned reservation.
   */
  function Need(m: SeqState): int {
    if m.next < U64_MAX && m.next <= m.reserved then 1
    else if CanAllocate(m) then 2
    else if m.resetGeneration < U32_MAX && m.maximumSeen <= U64_MAX - BLOCK then 3
    else NEVER
  }

  predicate Able(n: Nvs, m: SeqState) { Accepts(n, m) && m.generation + Need(m) <= U32_MAX }

  /** Something a start-up can see: load succeeds, the selector is usable, and generations and numbers are left. */
  predicate CanIssue(n: Nvs) {
    match Choose(n)
    case FirstBoot => Accepts(n, FRESH)
    case Refused(_) => false
    case Chosen(s) => Resumable(s) && Able(n, Resumed(s))
  }

  ghost predicate RunFrom(n: Nvs, ws: seq<World>) { Run(ws) && ws[0] == World(n, None, [], []) }

  /** Some run from a reboot hands out a number. */
  ghost predicate SomeRunCanIssue(n: Nvs) { exists ws: seq<World> :: RunFrom(n, ws) && ws[|ws| - 1].issued != [] }

  /* ---- Otherwise nothing ever helps ---- */

  predicate Hopeless(w: World) {
    !CanIssue(w.nvs) &&
    (w.mem.Some? ==>
     !Able(w.nvs, w.mem.value) && GenerationsUpTo(w.nvs, w.mem.value.generation + 1) && Choose(w.nvs) != FirstBoot)
  }

  /** No write brings the next number nearer than by one persist, before or after a reboot. */
  predicate NoNearer(m: SeqState, c: SeqState) {
    c.generation == m.generation && Need(c) + 1 >= Need(m) && (Resumable(c) ==> Need(Resumed(c)) + 1 >= Need(m))
  }

  lemma PersistIsHopeless(n: Nvs, m: SeqState, c: SeqState, n': Nvs)
    requires !CanIssue(n) && !Able(n, m) && GenerationsUpTo(n, m.generation + 1) && Choose(n) != FirstBoot
    requires PersistMay(n, c, n') && NoNearer(m, c)
    ensures !CanIssue(n') && !Able(n', m) && GenerationsUpTo(n', m.generation + 1) && Choose(n') != FirstBoot
    ensures Accepts(n, c) ==> !Able(n', Bumped(c))
  {
    if Accepts(n, c) {
      BumpedIsUnable(n, m, c);
      if n' == WithTarget(n, Torn) {
        TornIsHopeless(n, n');
      } else if n' != n {
        WrittenIsHopeless(n, m, c, n');
      }
    }
  }

  /** With one generation used up, the written state is no more able than the one in memory. */
  lemma BumpedIsUnable(n: Nvs, m: SeqState, c: SeqState)
    requires Accepts(n, c) && !Able(n, m) && NoNearer(m, c)
    ensures Bumped(c).generation + Need(Bumped(c)) > U32_MAX
    ensures Resumable(Bumped(c)) ==> Resumed(Bumped(c)).generation + Need(Resumed(Bumped(c))) > U32_MAX
  {
    ResumedAfterBump(c);
  }

  lemma TornIsHopeless(n: Nvs, n': Nvs)
    requires n' == WithTarget(n, Torn)
    ensures Choose(n').Refused?
  {
  }

  lemma WrittenIsHopeless(n: Nvs, m: SeqState, c: SeqState, n': Nvs)
    requires Accepts(n, c) && c.generation == m.generation && GenerationsUpTo(n, m.generation + 1)
    requires n' == WithTarget(n, Stored(Bumped(c))) || n' == Committed(n, c)
    requires Resumable(Bumped(c)) ==> Resumed(Bumped(c)).generation + Need(Resumed(Bumped(c))) > U32_MAX
    ensures !CanIssue(n') && Choose(n') != FirstBoot && GenerationsUpTo(n', m.generation + 1)
  {
    NewestIsChosen(n', TargetIsA(n), Bumped(c));
  }

  /** No slot is newer than the written one, so load finds that state or refuses. */
  lemma NewestIsChosen(n: Nvs, inA: bool, s: SeqState)
    requires (if inA then n.a else n.b) == Stored(s) && GenerationsUpTo(n, s.generation)
    ensures Choose(n).Refused? || Choose(n) == Chosen(s)
  {
  }

  lemma ResumedAfterBump(c: SeqState)
    requires c.generation < U32_MAX
    ensures Need(Bumped(c)) == Need(c) && (Resumable(Bumped(c)) <==> Resumable(c))
    ensures Resumable(c) ==> Resumed(Bumped(c)) == Bumped(Resumed(c)) && Need(Bumped(Resumed(c))) == Need(Resumed(c))
  {
  }

  lemma BlockIsNoNearer(m: SeqState)
    requires CanAllocate(m) && m.next > m.reserved
    ensures NoNearer(m, WithBlock(m))
  {
  }

  lemma AcknowledgedIsNoNearer(m: SeqState, value: U64)
    ensures NoNearer(m, m.(acknowledged := value))
  {
  }

  lemma FlooredIsNoNearer(m: SeqState, floor: U64, resetGeneration: U32)
    requires m.maximumSeen <= floor < U64_MAX && m.resetGeneration < resetGeneration
    ensures NoNearer(m, Floored(m, floor, resetGeneration))
  {
  }

  /** A number that is reserved but cannot be claimed: the generation is exhausted or the selector unusable. */
  lemma AllocateIsHopeless(w: World, n: Nvs, m: SeqState, w': World)
    requires !CanIssue(n) && !Able(n, m) && GenerationsUpTo(n, m.generation + 1) && Choose(n) != FirstBoot
    requires m.next <= m.reserved && m.next < U64_MAX && AllocateStep(w, n, m, w')
    ensures Hopeless(w') && w'.issued == w.issued
  {
  }

  lemma NextIsHopeless(w: World, w': World)
    requires Hopeless(w) && w.mem.Some? && NextStep(w, w')
    ensures Hopeless(w') && w'.issued == w.issued
  {
    var m := w.mem.value;
    if w'.nvs == w.nvs && Silent(w, m, w') {
    } else if m.next <= m.reserved {
      AllocateIsHopeless(w, w.nvs, m, w');
    } else {
      BlockIsNoNearer(m);
      if PersistMay(w.nvs, WithBlock(m), w'.nvs) && Silent(w, m, w') {
        PersistIsHopeless(w.nvs, m, WithBlock(m), w'.nvs);
      } else {
        PersistIsHopeless(w.nvs, m, WithBlock(m), Committed(w.nvs, WithBlock(m)));
        AllocateIsHopeless(w, Committed(w.nvs, WithBlock(m)), Bumped(WithBlock(m)), w');
      }
    }
  }

  lemma ReportIsHopeless(w: World, c: SeqState, w': World)
    requires Hopeless(w) && w.mem.Some? && NoNearer(w.mem.value, c) && ReportStep(w, c, w')
    ensures Hopeless(w') && w'.issued == w.issued
  {
    PersistIsHopeless(w.nvs, w.mem.value, c, w'.nvs);
  }

  lemma LoadIsHopeless(w: World, w': World)
    requires Hopeless(w) && LoadStep(w, w')
    ensures Hopeless(w') && w'.issued == w.issued
  {
  }

  lemma StepIsHopeless(w: World, w': World)
    requires Hopeless(w) && Step(w, w')
    ensures Hopeless(w') && w'.issued == w.issued
  {
    if w' == w.(mem := None) {
    } else if LoadStep(w, w') {
      LoadIsHopeless(w, w');
    } else if NextStep(w, w') {
      NextIsHopeless(w, w');
    } else if value: U64 :| AcknowledgeStep(w, value, w') {
      AcknowledgedIsNoNearer(w.mem.value, value);
      if !(w'.nvs == w.nvs && w'.issued == w.issued && (w'.mem == w.mem || w'.mem.None?)) {
        ReportIsHopeless(w, w.mem.value.(acknowledged := value), w');
      }
    } else {
      var floor: U64, generation: U32 :| RaiseFloorStep(w, floor, generation, w');
      if !(w'.nvs == w.nvs && w'.issued == w.issued && (w'.mem == w.mem || w'.mem.None?)) {
        FlooredIsNoNearer(w.mem.value, floor, generation);
        ReportIsHopeless(w, Floored(w.mem.value, floor, generation), w');
      }
    }
  }

  lemma {:induction false} HopelessForever(ws: seq<World>, j: nat)
    requires Run(ws) && Hopeless(ws[0]) && j < |ws|
    ensures Hopeless(ws[j]) && ws[j].issued == []
    decreases j
  {
    if j > 0 {
      HopelessForever(ws, j - 1);
      assert Step(ws[j - 1], ws[j]);
      StepIsHopeless(ws[j - 1], ws[j]);
    }
  }

  /* ---- A run that hands out a number ---- */

  /** Load, when nothing fails. */
  function Started(n: Nvs): World
    requires CanIssue(n)
  {
    match Choose(n)
    case FirstBoot => World(Committed(n, FRESH), Some(Bumped(FRESH)), [], [])
    case Chosen(s) => World(n, Some(Resumed(s)), [], [])
  }

  lemma StartIsAStep(n: Nvs)
    requires CanIssue(n)
    ensures Step(World(n, None, [], []), Started(n)) && Able(Started(n).nvs, Started(n).mem.value)
  {
    assert LoadStep(World(n, None, [], []), Started(n));
  }

  /** Next, when nothing fails. */
  lemma NextIssues(w: World) returns (w': World)
    requires w.mem.Some? && Able(w.nvs, w.mem.value) && Need(w.mem.value) <= 2
    ensures Step(w, w') && w'.issued == w.issued + [w.mem.value.next]
  {
    var m := w.mem.value;
    if m.next <= m.reserved {
      w' := World(Committed(w.nvs, Allocated(m)), Some(Bumped(Allocated(m))), w.issued + [m.next], w.acked);
      assert AllocateStep(w, w.nvs, m, w');
    } else {
      var n2, m2 := Committed(w.nvs, WithBlock(m)), Bumped(WithBlock(m));
      w' := World(Committed(n2, Allocated(m2)), Some(Bumped(Allocated(m2))), w.issued + [m2.next], w.acked);
      assert AllocateStep(w, n2, m2, w');
    }
    assert NextStep(w, w');
  }

  lemma FloorHelps(w: World) returns (w': World)
    requires w.mem.Some? && Able(w.nvs, w.mem.value) && Need(w.mem.value) == 3
    ensures Step(w, w') && w'.issued == w.issued && w'.mem.Some? && Able(w'.nvs, w'.mem.value) &&
            Need(w'.mem.value) == 2
  {
    var m := w.mem.value;
    var g: U32 := m.resetGeneration + 1;
    var c := Floored(m, m.maximumSeen, g);
    w' := World(Committed(w.nvs, c), Some(Bumped(c)), w.issued, w.acked + [c.acknowledged]);
    assert ReportStep(w, c, w');
    assert RaiseFloorStep(w, m.maximumSeen, g, w');
  }

  lemma SomeRunIssues(n: Nvs) returns (ws: seq<World>)
    requires CanIssue(n)
    ensures RunFrom(n, ws) && ws[|ws| - 1].issued != []
  {
    StartIsAStep(n);
    var w0, w1 := World(n, None, [], []), Started(n);
    if Need(w1.mem.value) <= 2 {
      var w2 := NextIssues(w1);
      ws := [w0, w1, w2];
    } else {
      var w2 := FloorHelps(w1);
      var w3 := NextIssues(w2);
      ws := [w0, w1, w2, w3];
    }
  }

  /**
   For every content of NVS: some run from a reboot hands out a number if and only if load succeeds, the selector is
   usable, and enough generations and numbers are left.
   */
  lemma IssuesExactly(n: Nvs)
    ensures SomeRunCanIssue(n) <==> CanIssue(n)
  {
    if CanIssue(n) {
      var ws := SomeRunIssues(n);
    } else {
      forall ws: seq<World> | RunFrom(n, ws) ensures ws[|ws| - 1].issued == [] {
        HopelessForever(ws, |ws| - 1);
      }
    }
  }

  /**
   A cut on the very first boot after the slot and before the selector: every later load succeeds, but no number is
   ever handed out, because persist refuses a missing selector.
   */
  lemma FirstBootCutIsStuck()
    ensures var n := Nvs(Missing, Missing, None); var cut := WithTarget(n, Stored(Bumped(FRESH)));
            PersistMay(n, FRESH, cut) && Loadable(cut) && !CanIssue(cut) &&
            !SomeRunCanIssue(cut)
  {
    IssuesExactly(WithTarget(Nvs(Missing, Missing, None), Stored(Bumped(FRESH))));
  }

  /** One torn slot is enough: load refuses it for ever, whatever the other slot holds. */
  lemma TornSlotIsStuck(n: Nvs)
    requires n.a.Torn? || n.b.Torn?
    ensures !Loadable(n) && !SomeRunCanIssue(n)
  {
    IssuesExactly(n);
  }
}
