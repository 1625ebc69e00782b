/**
 One device with both journals (main/app_main.c): credential rotation and destructive commands share the ledger and
 the configuration. Each prepare looks at the other journal; nothing later does, not even the configuration commit
 of a data reset.
 */
module JointJournals {
  import opened Esp
  import opened ConfigTypes
  import opened CommitCommand
  import Commands = CommandLedger
  import Sequence = SequenceStore
  import Rotation = RotationTypes
  import Destructive = DestructiveTypes

  datatype Durable = Durable(
    rotation: Rotation.Journal, destructive: Destructive.Journal, config: Nvs, ledger: Commands.Ledger,
    sequence: Sequence.SeqState, stored: set<U64>, base: Config, ram: Destructive.Ram, wiped: bool, late: bool)

  function MarksOf(c: Config): Destructive.Marks { Destructive.Marks(c.floor, c.acknowledged, c.resetGeneration) }

  function RotationView(d: Durable): Rotation.Durable { Rotation.Durable(d.rotation, d.config, d.ledger, d.base) }

  function DestructiveView(d: Durable): Destructive.Durable {
    Destructive.Durable(
      d.destructive, d.ledger, d.sequence, d.stored, MarksOf(d.base), d.ram, d.wiped, d.late)
  }

  function RotationPhase(d: Durable): nat { Rotation.Phase(RotationView(d)) }

  function DestructivePhase(d: Durable): nat { Destructive.Phase(DestructiveView(d)) }

  function WithRotation(d: Durable, r: Rotation.Durable): Durable {
    d.(rotation := r.journal, config := r.config, ledger := r.ledger, base := r.base)
  }

  /** Everything of a destructive state but the marks, which are part of the configuration. */
  function WithDestructive(d: Durable, x: Destructive.Durable): Durable {
    d.(destructive := x.journal, ledger := x.ledger, sequence := x.sequence, stored := x.stored,
       ram := x.ram, wiped := x.wiped, late := x.late)
  }

  /* ---- Steps ---- */

  /** The rotation's writes. A rotation is prepared only while nothing destructive is prepared or under way. */
  ghost predicate RotationStep(d: Durable, d': Durable) {
    var r, r' := RotationView(d), RotationView(d');
    && d' == WithRotation(d, r')
    && (|| (Rotation.JournalStep(r, r') &&
            (RotationPhase(d) == Rotation.NONE != RotationPhase(d') ==> DestructivePhase(d) == Destructive.NONE))
        || (exists blob :: Rotation.MayFill(r, blob) && r' == Rotation.Filled(r, blob))
        || (Rotation.MaySwitch(r) && r' == Rotation.Switched(r)))
  }

  /** `PM_COMMAND_APPLY_CONFIGURATION`: refused during a rotation, and it keeps the marks of a reset. */
  ghost predicate ApplyStep(d: Durable, d': Durable) {
    exists c ::
      Rotation.MayRebase(RotationView(d), c) && MarksOf(c) == MarksOf(d.base) &&
      d' == WithRotation(d, Rotation.Rebased(RotationView(d), c))
  }

  /** Destructive writes. A preparation is made only while no rotation is under way. */
  ghost predicate DestructiveStep(d: Durable, d': Durable) {
    var x, x' := DestructiveView(d), DestructiveView(d');
    && d' == WithDestructive(d, x')
    && (|| (Destructive.JournalStep(x, x') &&
            (DestructivePhase(d) == Destructive.NONE != DestructivePhase(d') ==> RotationPhase(d) == Rotation.NONE))
        || (exists s :: Destructive.SequenceStep(x, s) && x' == x.(sequence := s))
        || Destructive.CardStep(x, x')
        || Destructive.WaitStep(x, x')
        || Destructive.OutsideStep(x, x'))
  }

  /** `persist_reset_configuration` is called at this point and asks nothing about a rotation. */
  predicate ResetDue(d: Durable) {
    var r := Destructive.Current(DestructiveView(d));
    d.config.active.Some? && r.kind.DataReset? && r.phase == Destructive.STORAGE_FORMAT_DURABLE &&
    Destructive.MarksError(MarksOf(d.base), r) == OK
  }

  function ResetConfig(d: Durable): Config {
    var r := Destructive.Current(DestructiveView(d));
    d.base.(floor := r.floor, acknowledged := r.floor, resetGeneration := r.resetGeneration)
  }

  ghost predicate ResetStep(d: Durable, d': Durable) {
    && ResetDue(d)
    && (|| d' == d.(config := With(d.config, Other(d.config.active.value), Stored(ResetConfig(d))))
        || (At(d.config, Other(d.config.active.value)) == Stored(ResetConfig(d)) && Validate(ResetConfig(d)) == OK &&
            d' == d.(config := d.config.(active := Some(Other(d.config.active.value))), base := ResetConfig(d))))
  }

  /** Ledger writes respect the commit commands of both journals. */
  ghost predicate SharedLedgerStep(d: Durable, d': Durable) {
    && d' == d.(ledger := d'.ledger)
    && LedgerStep(d.ledger, Rotation.Watched(Rotation.Record(RotationView(d))), d'.ledger)
    && LedgerStep(d.ledger, Destructive.Watched(DestructiveView(d)), d'.ledger)
  }

  ghost predicate Step(d: Durable, d': Durable) {
    RotationStep(d, d') || ApplyStep(d, d') || DestructiveStep(d, d') || ResetStep(d, d') || SharedLedgerStep(d, d')
  }

  /* ---- Every step keeps both promises, and keeps the journals apart ---- */

  predicate Safe(d: Durable) {
    && Rotation.Safe(RotationView(d)) && Destructive.Safe(DestructiveView(d))
    && (RotationPhase(d) == Rotation.NONE || DestructivePhase(d) == Destructive.NONE)
  }

  /** A change of configuration that keeps the marks is nothing to the destructive journal. */
  lemma MarksAreKept(d: Durable, d': Durable)
    requires Safe(d) && DestructiveView(d') == DestructiveView(d)
    ensures Destructive.Safe(DestructiveView(d')) && DestructivePhase(d') == DestructivePhase(d)
  {
  }

  lemma RotationStepIsSafe(d: Durable, d': Durable)
    requires Safe(d) && RotationStep(d, d')
    ensures Safe(d')
  {
    var r, r' := RotationView(d), RotationView(d');
    assert Rotation.Step(r, r') by {
      if !Rotation.JournalStep(r, r') { assert Rotation.ConfigStep(r, r'); }
    }
    Rotation.StepIsSafe(r, r');
    assert r'.ledger == r.ledger;
    MarksAreKept(d, d');
  }

  lemma ApplyStepIsSafe(d: Durable, d': Durable)
    requires Safe(d) && ApplyStep(d, d')
    ensures Safe(d')
  {
    var c :| Rotation.MayRebase(RotationView(d), c) && MarksOf(c) == MarksOf(d.base) &&
      d' == WithRotation(d, Rotation.Rebased(RotationView(d), c));
    Rotation.RebaseIsSafe(RotationView(d), c);
    MarksAreKept(d, d');
  }

  lemma OnlyJournalStepsMove(x: Destructive.Durable, x': Destructive.Durable)
    requires Destructive.CardStep(x, x') || Destructive.WaitStep(x, x') || Destructive.OutsideStep(x, x')
    ensures x'.journal == x.journal
  {
  }

  lemma DestructiveStepKeepsApart(d: Durable, d': Durable)
    requires DestructiveStep(d, d') && (RotationPhase(d) == Rotation.NONE || DestructivePhase(d) == Destructive.NONE)
    ensures RotationPhase(d) == Rotation.NONE || DestructivePhase(d') == Destructive.NONE
  {
    var x, x' := DestructiveView(d), DestructiveView(d');
    if !Destructive.JournalStep(x, x') && !(exists s :: Destructive.SequenceStep(x, s) && x' == x.(sequence := s)) {
      OnlyJournalStepsMove(x, x');
    }
  }

  lemma DestructiveStepIsSafe(d: Durable, d': Durable)
    requires Safe(d) && DestructiveStep(d, d')
    ensures Safe(d')
  {
    DestructiveStepKeepsApart(d, d');
    Destructive.StepIsSafe(DestructiveView(d), DestructiveView(d'));
    assert RotationView(d') == RotationView(d) by { DestructiveStepLeavesLedger(d, d'); }
  }

  lemma DestructiveStepLeavesLedger(d: Durable, d': Durable)
    requires DestructiveStep(d, d')
    ensures d'.ledger == d.ledger && RotationView(d') == RotationView(d)
  {
  }

  /** At the point of a reset's configuration commit no rotation is under way, so it is an ordinary change at rest. */
  lemma ResetStepIsSafe(d: Durable, d': Durable)
    requires Safe(d) && ResetStep(d, d')
    ensures Safe(d') && RotationPhase(d) == Rotation.NONE
  {
    var r, c := RotationView(d), ResetConfig(d);
    if d' == d.(config := With(d.config, Other(d.config.active.value), Stored(c))) {
      Rotation.FillIsSafe(r, Stored(c));
      assert RotationView(d') == Rotation.Filled(r, Stored(c));
      MarksAreKept(d, d');
    } else {
      assert Rotation.MayRebase(r, c);
      Rotation.RebaseIsSafe(r, c);
      assert RotationView(d') == Rotation.Rebased(r, c);
      Destructive.MarksAreSafe(DestructiveView(d), MarksOf(c));
    }
  }

  lemma SharedLedgerStepIsSafe(d: Durable, d': Durable)
    requires Safe(d) && SharedLedgerStep(d, d')
    ensures Safe(d')
  {
    Rotation.LedgerIsSafe(RotationView(d), d'.ledger);
    Destructive.LedgerIsSafe(DestructiveView(d), d'.ledger);
  }

  lemma StepIsSafe(d: Durable, d': Durable)
    requires Safe(d) && Step(d, d')
    ensures Safe(d')
  {
    if RotationStep(d, d') {
      RotationStepIsSafe(d, d');
    } else if ApplyStep(d, d') {
      ApplyStepIsSafe(d, d');
    } else if DestructiveStep(d, d') {
      DestructiveStepIsSafe(d, d');
    } else if ResetStep(d, d') {
      ResetStepIsSafe(d, d');
    } else {
      SharedLedgerStepIsSafe(d, d');
    }
  }

  /* ---- What follows for every run ---- */

  predicate Initial(d: Durable) { Rotation.Initial(RotationView(d)) && Destructive.Initial(DestructiveView(d)) }

  ghost predicate StepAt(trace: seq<Durable>, i: nat)
    requires i + 1 < |trace|
  {
    Step(trace[i], trace[i + 1])
  }

  ghost predicate Run(trace: seq<Durable>) {
    |trace| > 0 && Initial(trace[0]) && forall i | 0 <= i < |trace| - 1 :: StepAt(trace, i)
  }

  /** Over every run with power cuts: a rotation and a destructive command are never both prepared or under way. */
  lemma {:induction false} NeverBothUnderWay(trace: seq<Durable>, j: nat)
    requires Run(trace) && j < |trace|
    ensures Safe(trace[j])
    ensures RotationPhase(trace[j]) == Rotation.NONE || DestructivePhase(trace[j]) == Destructive.NONE
    decreases j
  {
    if j > 0 {
      NeverBothUnderWay(trace, j - 1);
      assert StepAt(trace, j - 1);
      StepIsSafe(trace[j - 1], trace[j]);
    }
  }

  /**
   So the configuration commit of a data reset, which asks nothing about a rotation, never meets one: it never writes
   over a staged candidate and never selects one, and what boots after it is the configuration from before with the
   three marks of the reset.
   */
  lemma ResetNeverMeetsACandidate(trace: seq<Durable>, i: nat)
    requires Run(trace) && i + 1 < |trace| && ResetStep(trace[i], trace[i + 1])
    ensures RotationPhase(trace[i]) == RotationPhase(trace[i + 1]) == Rotation.NONE
    ensures var before, after := Load(trace[i].config), Load(trace[i + 1].config);
            var r := Destructive.Current(DestructiveView(trace[i]));
            && before.Some? && after.Some? && r.kind.DataReset?
            && (after == before ||
                after.value == before.value.(floor := r.floor, acknowledged := r.floor,
                                             resetGeneration := r.resetGeneration))
  {
    NeverBothUnderWay(trace, i);
    NeverBothUnderWay(trace, i + 1);
    ResetStepIsSafe(trace[i], trace[i + 1]);
  }

  /* ---- Everything proved of one journal holds beside the other ---- */

  lemma ResetIsAConfigStep(d: Durable, d': Durable)
    requires Safe(d) && ResetStep(d, d')
    ensures Rotation.ConfigStep(RotationView(d), RotationView(d'))
  {
    var r, c := RotationView(d), ResetConfig(d);
    ResetStepIsSafe(d, d');
    if d' == d.(config := With(d.config, Other(d.config.active.value), Stored(c))) {
      assert Rotation.MayFill(r, Stored(c)) && RotationView(d') == Rotation.Filled(r, Stored(c));
    } else {
      assert Rotation.MayRebase(r, c) && RotationView(d') == Rotation.Rebased(r, c);
    }
  }

  lemma RotationProjects(d: Durable, d': Durable)
    requires Safe(d) && Step(d, d')
    ensures Rotation.Step(RotationView(d), RotationView(d'))
  {
    var r, r' := RotationView(d), RotationView(d');
    if RotationStep(d, d') {
      if !Rotation.JournalStep(r, r') { assert Rotation.ConfigStep(r, r'); }
    } else if ApplyStep(d, d') {
      assert Rotation.ConfigStep(r, r');
    } else if DestructiveStep(d, d') {
      DestructiveStepLeavesLedger(d, d');
    } else if ResetStep(d, d') {
      ResetIsAConfigStep(d, d');
    }
  }

  lemma RotationKeepsMarks(d: Durable, d': Durable)
    requires Safe(d) && RotationStep(d, d')
    ensures DestructiveView(d') == DestructiveView(d)
  {
  }

  lemma ResetIsAMarksStep(d: Durable, d': Durable)
    requires Safe(d) && ResetStep(d, d')
    ensures Destructive.Step(DestructiveView(d), DestructiveView(d'))
  {
    var x := DestructiveView(d);
    if d'.base != d.base {
      assert Destructive.MarksStep(x, MarksOf(ResetConfig(d))) &&
             DestructiveView(d') == x.(marks := MarksOf(ResetConfig(d)));
    }
  }

  lemma DestructiveProjects(d: Durable, d': Durable)
    requires Safe(d) && Step(d, d')
    ensures Destructive.Step(DestructiveView(d), DestructiveView(d'))
  {
    if RotationStep(d, d') {
      RotationKeepsMarks(d, d');
    } else if ResetStep(d, d') {
      ResetIsAMarksStep(d, d');
    }
  }

  function RotationViews(trace: seq<Durable>): seq<Rotation.Durable> {
    seq(|trace|, i requires 0 <= i < |trace| => RotationView(trace[i]))
  }

  function DestructiveViews(trace: seq<Durable>): seq<Destructive.Durable> {
    seq(|trace|, i requires 0 <= i < |trace| => DestructiveView(trace[i]))
  }

  /**
   What this device does to one journal is a run of that journal alone, so rotation safety, the irreversible commit and
   the format that is never repeated hold of it unchanged.
   */
  lemma ProjectionsAreRuns(trace: seq<Durable>)
    requires Run(trace)
    ensures Rotation.Run(RotationViews(trace)) && Destructive.Run(DestructiveViews(trace))
  {
    forall i | 0 <= i < |trace| - 1 ensures Rotation.StepAt(RotationViews(trace), i) &&
      Destructive.StepAt(DestructiveViews(trace), i) {
      NeverBothUnderWay(trace, i);
      assert StepAt(trace, i);
      RotationProjects(trace[i], trace[i + 1]);
      DestructiveProjects(trace[i], trace[i + 1]);
    }
  }
}
