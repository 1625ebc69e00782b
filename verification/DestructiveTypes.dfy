/**
 The journal of the destructive commands (main/app_main.c), storage format and data reset: what is durable, and
 what the journal promises. Power may be lost between any two writes; NVS calls themselves do not fail here.
 */
module DestructiveTypes {
  import opened Esp
  import Commands = CommandLedger
  import opened CommitCommand
  import Sequence = SequenceStore

  // The command types have their own, retained enumeration; all that matters is that they differ.
  const FORMAT_STORAGE_COMMIT: nat := 8
  const DATA_RESET_COMMIT: nat := 13

  const NONE: nat := 0
  const PREPARED: nat := 1
  const COMMIT_INTENT: nat := 2
  const SEQUENCE_FLOOR_DURABLE: nat := 3
  const STORAGE_FORMAT_DURABLE: nat := 4
  const RESET_CONFIG_DURABLE: nat := 5
  const RESULT_DURABLE: nat := 6
  const RESULT_ACKNOWLEDGED: nat := 7

  datatype Kind = FormatStorage | DataReset

  /** An empty token or session is a zeroized one. */
  datatype Record = Record(
    generation: U32, kind: Kind, phase: nat, prepareId: string, commitId: string, token: string, session: string,
    expires: U64, resetGeneration: U32, serverFloor: U64, floor: U64)

  const NO_RECORD := Record(0, FormatStorage, NONE, "", "", "", "", 0, 0, 0, 0)

  /** `prepare_record_valid`. */
  predicate RecordValid(r: Record) {
    && r.generation != 0 && PREPARED <= r.phase <= RESULT_ACKNOWLEDGED && |r.prepareId| == Commands.ID_MAX
    && if r.phase == PREPARED then r.commitId == "" && r.expires != 0 && r.session != "" && r.token != ""
       else |r.commitId| == Commands.ID_MAX && r.token == "" &&
            match r.kind
            case FormatStorage => r.phase != SEQUENCE_FLOOR_DURABLE && r.phase != RESET_CONFIG_DURABLE
            case DataReset => r.resetGeneration != 0 && r.floor >= r.serverFloor
  }

  /** The phase after `phase`: formatting skips the two phases that only a reset has. */
  function Next(kind: Kind, phase: nat): nat {
    if kind.FormatStorage? && (phase == COMMIT_INTENT || phase == STORAGE_FORMAT_DURABLE) then phase + 2 else phase + 1
  }

  /** How many records a transaction has written when it reaches a phase. */
  function Ordinal(kind: Kind, phase: nat): nat {
    if kind.DataReset? || phase <= COMMIT_INTENT then phase
    else if phase <= STORAGE_FORMAT_DURABLE then 3
    else if phase <= RESULT_DURABLE then 4
    else 5
  }

  /* ---- The two-key journal ---- */

  datatype Journal = Journal(a: Option<Record>, b: Option<Record>)

  const EMPTY_JOURNAL := Journal(None, None)

  function WithRecord(j: Journal, r: Record): Journal {
    if r.generation % 2 == 1 then j.(a := Some(r)) else j.(b := Some(r))
  }

  /** `prepare_state_load`, `NO_RECORD` standing for not found. */
  function Loaded(j: Journal): Record {
    if j.a.Some? && (j.b.None? || j.a.value.generation >= j.b.value.generation) then j.a.value
    else if j.b.Some? then j.b.value
    else NO_RECORD
  }

  predicate SameTransaction(r: Record, s: Record) {
    r.kind == s.kind && r.prepareId == s.prepareId && r.resetGeneration == s.resetGeneration &&
    r.serverFloor == s.serverFloor && r.floor == s.floor
  }

  predicate RecordSound(r: Record) { RecordValid(r) && r.generation == Ordinal(r.kind, r.phase) }

  /** Two records are consecutive ones of the same transaction; a record alone is the first, or the last but one. */
  predicate JournalSound(j: Journal) {
    && (j.a.Some? ==> RecordSound(j.a.value) && j.a.value.generation % 2 == 1)
    && (j.b.Some? ==> RecordSound(j.b.value) && j.b.value.generation % 2 == 0)
    && (j.a.Some? && j.b.None? ==> j.a.value.phase == PREPARED)
    && (j.b.Some? && j.a.None? ==> j.b.value.phase == RESULT_DURABLE)
    && (j.a.Some? && j.b.Some? ==>
          SameTransaction(j.a.value, j.b.value) &&
          (j.a.value.phase != PREPARED ==> j.a.value.commitId == j.b.value.commitId) &&
          (j.a.value.phase == Next(j.b.value.kind, j.b.value.phase) ||
           j.b.value.phase == Next(j.a.value.kind, j.a.value.phase)))
  }

  /**
   A cut between erasing key A and key B. An unconfirmed preparation is gone at once; an acknowledged transaction
   always falls back, exactly one phase, to RESULT_DURABLE. From any other phase erasure would go further back.
   */
  lemma EraseFallsBack(j: Journal)
    requires JournalSound(j) && Loaded(j).phase != NONE
    ensures var before, after := Loaded(j).phase, Loaded(j.(a := None)).phase;
            && (before == PREPARED ==> after == NONE)
            && (before == RESULT_ACKNOWLEDGED ==> after == RESULT_DURABLE)
            && (after != before && after != NONE <==> Loaded(j).generation % 2 == 1 && before != PREPARED)
  {
  }

  /* ---- The state of a device ---- */

  /** Of the configuration only what a reset changes is shown. */
  datatype Marks = Marks(floor: U64, acknowledged: U64, resetGeneration: U32)

  /** What the control task has sent to the storage task and not been answered for. */
  datatype Message = FormatCard | OtherWork

  /**
   What a boot clears: whether an erasure of the journal is under way, the command ids whose results were
   acknowledged, and the control task's dealings with the storage task. `note` is the task notification that is
   pending; `reported` says that the last wait for a format returned success and nothing was recorded since.
   */
  datatype Ram = Ram(
    erasing: bool, inbox: set<string>, queue: seq<Message>, waiting: bool, note: Option<bool>, reported: bool)

  const FRESH_RAM := Ram(false, {}, [], false, None, false)

  /**
   `stored` is the set of telemetry records on the card. The last two are not stored anywhere: whether the card was
   formatted since the last commit intent was recorded, and whether since then a format was asked for while the
   storage task still owed an answer.
   */
  datatype Durable = Durable(
    journal: Journal, ledger: Commands.Ledger, sequence: Sequence.SeqState, stored: set<U64>, marks: Marks, ram: Ram,
    wiped: bool, late: bool)

  function Current(d: Durable): Record { Loaded(d.journal) }

  function Phase(d: Durable): nat { Current(d).phase }

  function CommitKind(kind: Kind): nat { if kind.FormatStorage? then FORMAT_STORAGE_COMMIT else DATA_RESET_COMMIT }

  function CommitOf(r: Record): Watch { Watching(r.commitId, CommitKind(r.kind)) }

  /** The journal depends on the commit command until its result is acknowledged, but not after it fell back. */
  function Watched(d: Durable): Watch {
    var r := Current(d);
    if COMMIT_INTENT <= r.phase < RESULT_DURABLE || (r.phase == RESULT_DURABLE && d.journal.a.Some?)
    then CommitOf(r) else Nobody
  }

  predicate FloorRaised(s: Sequence.SeqState, r: Record) {
    s.resetGeneration == r.resetGeneration && s.maximumSeen >= r.floor && s.acknowledged >= r.floor
  }

  /** The card may be formatted now. */
  predicate FormatDue(r: Record) {
    r.phase == if r.kind.FormatStorage? then COMMIT_INTENT else SEQUENCE_FLOOR_DURABLE
  }

  /** Every answer is the one that was waited for. */
  predicate Answered(d: Durable) {
    && (FormatCard in d.ram.queue ==> FormatDue(Current(d)))
    && (d.ram.reported ==> d.wiped && FormatCard !in d.ram.queue)
    && (d.ram.waiting ==>
          || (d.ram.queue == [FormatCard] && d.ram.note.None?)
          || (d.ram.queue == [] && (d.ram.note == Some(true) ==> d.wiped)))
    && (Phase(d) >= STORAGE_FORMAT_DURABLE ==> d.wiped)
  }

  /** The promise at every instant: each phase from the commit intent on says what has durably happened. */
  predicate Safe(d: Durable) {
    var r := Current(d);
    && JournalSound(d.journal) && Keeps(d.ledger, Watched(d), r.phase == RESULT_DURABLE)
    && d.sequence.acknowledged <= d.sequence.maximumSeen
    && (!d.late ==> Answered(d))
    && (r.kind.DataReset? && r.phase >= SEQUENCE_FLOOR_DURABLE ==> FloorRaised(d.sequence, r))
    && (r.kind.DataReset? && r.phase >= RESET_CONFIG_DURABLE ==> d.marks == Marks(r.floor, r.floor, r.resetGeneration))
  }

  /* ---- The steps: single writes, under what the source checks before it makes them ---- */

  function Persisted(d: Durable, r: Record): Durable {
    var intent := r.phase == COMMIT_INTENT;
    d.(journal := WithRecord(d.journal, r), ram := d.ram.(reported := false),
       wiped := d.wiped && !intent, late := if intent then FormatCard in d.ram.queue else d.late)
  }

  /** The operation that writes record `r` after the loaded one has seen this. */
  predicate Follows(d: Durable, r: Record) {
    var p := Current(d);
    && RecordValid(r) && r.generation == p.generation + 1 && !d.ram.waiting
    && (if p.phase == NONE then r.phase == PREPARED
        else
          SameTransaction(p, r) && r.phase == Next(p.kind, p.phase) &&
          (p.phase != PREPARED ==> r.commitId == p.commitId))
    && (r.phase == COMMIT_INTENT ==> HasUnfinished(d.ledger, CommitOf(r)))
    && (r.phase == RESULT_DURABLE ==> HasSucceeded(d.ledger, CommitOf(r)))
    && (r.phase == STORAGE_FORMAT_DURABLE ==> d.ram.reported)
    && (r.kind.DataReset? && r.phase == SEQUENCE_FLOOR_DURABLE ==> FloorRaised(d.sequence, r))
    && (r.kind.DataReset? && r.phase == RESET_CONFIG_DURABLE ==> d.marks == Marks(r.floor, r.floor, r.resetGeneration))
    && (r.phase == RESULT_ACKNOWLEDGED ==> r.commitId in d.ram.inbox)
  }

  predicate MayErase(d: Durable) { Phase(d) <= PREPARED || Phase(d) == RESULT_ACKNOWLEDGED }

  function ErasedA(d: Durable): Durable { d.(journal := d.journal.(a := None), ram := d.ram.(erasing := true)) }

  /** The second half of an erasure, in the same boot as the first. */
  predicate MayEraseB(d: Durable) { d.ram.erasing && d.journal.a.None? }

  function ErasedB(d: Durable): Durable { d.(journal := d.journal.(b := None), ram := d.ram.(erasing := false)) }

  ghost predicate JournalStep(d: Durable, d': Durable) {
    || (exists r :: Follows(d, r) && d' == Persisted(d, r))
    || (MayErase(d) && d' == ErasedA(d))
    || (MayEraseB(d) && d' == ErasedB(d))
  }

  /** `pm_sequence_raise_floor`: what it refuses. */
  function FloorError(s: Sequence.SeqState, floor: U64, resetGeneration: U32): EspErr {
    if floor == U64_MAX then INVALID_ARG
    else if resetGeneration == s.resetGeneration then
      if s.maximumSeen == floor && s.next == floor + 1 && s.reserved == floor && s.acknowledged == floor
      then OK else INVALID_STATE
    else if floor < s.maximumSeen || resetGeneration < s.resetGeneration then INVALID_ARG
    else if s.generation == U32_MAX then INVALID_STATE
    else OK
  }

  predicate SequenceKeeps(s: Sequence.SeqState, s': Sequence.SeqState) {
    && s'.resetGeneration == s.resetGeneration && s'.maximumSeen >= s.maximumSeen
    && s.acknowledged <= s'.acknowledged <= s'.maximumSeen
  }

  /** Numbers are issued and acknowledged at any time; the floor is raised at the commit intent of a reset. */
  predicate SequenceStep(d: Durable, s': Sequence.SeqState) {
    var r, s := Current(d), d.sequence;
    || SequenceKeeps(s, s')
    || (&& r.kind.DataReset? && r.phase == COMMIT_INTENT
        && FloorError(s, r.floor, r.resetGeneration) == OK && s.generation < U32_MAX
        && s' == Sequence.Bumped(Sequence.Floored(s, r.floor, r.resetGeneration)))
  }

  /** `persist_reset_configuration`: what it refuses. */
  function MarksError(m: Marks, r: Record): EspErr {
    if m == Marks(r.floor, r.floor, r.resetGeneration) then OK
    else if m.resetGeneration >= r.resetGeneration || m.floor > r.floor || m.acknowledged > r.floor then INVALID_STATE
    else OK
  }

  predicate MarksStep(d: Durable, m: Marks) {
    var r := Current(d);
    && r.kind.DataReset? && r.phase == STORAGE_FORMAT_DURABLE
    && MarksError(d.marks, r) == OK && m == Marks(r.floor, r.floor, r.resetGeneration)
  }

  /* ---- The card ---- */

  function Appended(d: Durable, sequence: U64): Durable { d.(stored := d.stored + {sequence}) }

  /** `reclaim_acknowledged_segments` unlinks whole segments, of acknowledged records only. */
  function Reclaimed(d: Durable, gone: set<U64>): Durable { d.(stored := d.stored - gone) }

  predicate MayReclaim(d: Durable, gone: set<U64>) { forall q :: q in gone ==> q <= d.sequence.acknowledged }

  /** `pm_storage_recover_authenticated_format` sends its message and waits, with any older notification cleared. */
  function Asked(d: Durable): Durable {
    d.(ram := d.ram.(queue := d.ram.queue + [FormatCard], waiting := true, note := None, reported := false),
       late := d.late || d.ram.queue != [])
  }

  predicate MayAsk(d: Durable) { !d.ram.waiting && FormatDue(Current(d)) }

  /** Other work of the control task that was not answered in time. */
  function AskedOther(d: Durable): Durable { d.(ram := d.ram.(queue := d.ram.queue + [OtherWork])) }

  /** The storage task serves the oldest message; a format, whole or not, leaves whatever it leaves. */
  function Served(d: Durable, left: set<U64>, result: bool): Durable
    requires d.ram.queue != []
  {
    var ram := d.ram.(queue := d.ram.queue[1..], note := Some(result));
    if d.ram.queue[0].FormatCard? then d.(stored := left, ram := ram, wiped := d.wiped || result) else d.(ram := ram)
  }

  predicate MayServe(d: Durable, left: set<U64>, result: bool) {
    d.ram.queue != [] && (d.ram.queue[0].FormatCard? && result ==> left == {})
  }

  /** The wait ends with whatever notification there is, or with the timeout. */
  function Woken(d: Durable): Durable
    requires d.ram.note.Some?
  {
    d.(ram := d.ram.(waiting := false, note := None, reported := d.ram.note.value))
  }

  function GivenUp(d: Durable): Durable { d.(ram := d.ram.(waiting := false)) }

  ghost predicate CardStep(d: Durable, d': Durable) {
    || (exists sequence :: d' == Appended(d, sequence))
    || (exists gone :: MayReclaim(d, gone) && d' == Reclaimed(d, gone))
    || (exists left, result :: MayServe(d, left, result) && d' == Served(d, left, result))
  }

  ghost predicate WaitStep(d: Durable, d': Durable) {
    || (MayAsk(d) && d' == Asked(d))
    || (!d.ram.waiting && d' == AskedOther(d))
    || (d.ram.waiting && d.ram.note.Some? && d' == Woken(d))
    || (d.ram.waiting && d' == GivenUp(d))
  }

  /** A boot, or the acknowledgement of a result by the server. */
  ghost predicate OutsideStep(d: Durable, d': Durable) {
    || d' == d
    || d' == d.(ram := FRESH_RAM)
    || (exists id :: d' == d.(ram := d.ram.(inbox := d.ram.inbox + {id})))
  }

  /** One write or other event. None of these guards mentions what is to be proved. */
  ghost predicate Step(d: Durable, d': Durable) {
    || OutsideStep(d, d')
    || JournalStep(d, d')
    || (exists s :: SequenceStep(d, s) && d' == d.(sequence := s))
    || (exists m :: MarksStep(d, m) && d' == d.(marks := m))
    || CardStep(d, d')
    || WaitStep(d, d')
    || (LedgerStep(d.ledger, Watched(d), d'.ledger) && d' == d.(ledger := d'.ledger))
  }

  /* ---- Every step keeps the promise ---- */

  /** Every record that the server has not acknowledged is kept. */
  predicate Kept(d: Durable, d': Durable) {
    forall q :: q in d.stored && q > d'.sequence.acknowledged ==> q in d'.stored
  }

  predicate Moves(r: Record, r': Record) {
    && (r.phase == NONE ==> r'.phase == NONE || r'.phase == PREPARED)
    && (r.phase != NONE && r'.phase != NONE ==>
          && SameTransaction(r, r') && (r.phase != PREPARED ==> r'.commitId == r.commitId)
          && (r'.phase == r.phase || r'.phase == Next(r.kind, r.phase) ||
              (r.phase == RESULT_ACKNOWLEDGED && r'.phase == RESULT_DURABLE)))
    && (r.phase != NONE && r'.phase == NONE ==> r.phase == PREPARED || r.phase == RESULT_DURABLE)
  }

  /** What one step does to the loaded record and to the card. */
  predicate Edge(d: Durable, d': Durable) {
    && Moves(Current(d), Current(d'))
    && d.sequence.acknowledged <= d'.sequence.acknowledged
    && (FormatCard in d.ram.queue || Kept(d, d'))
    && (FormatCard in d'.ram.queue ==> FormatCard in d.ram.queue || FormatDue(Current(d)))
  }

  lemma RecordFollows(j: Journal, r: Record)
    requires JournalSound(j) && RecordSound(r)
    requires if Loaded(j).phase == NONE then r.phase == PREPARED
             else SameTransaction(Loaded(j), r) && r.phase == Next(Loaded(j).kind, Loaded(j).phase) &&
                  (Loaded(j).phase != PREPARED ==> r.commitId == Loaded(j).commitId)
    ensures JournalSound(WithRecord(j, r)) && Loaded(WithRecord(j, r)) == r
    ensures r.phase != PREPARED ==> WithRecord(j, r).a.Some? && WithRecord(j, r).b.Some?
  {
  }

  /** What the operations saw in the ledger is what the promise asks for. */
  lemma FollowsMeans(d: Durable, r: Record)
    requires Safe(d) && Follows(d, r)
    ensures RecordSound(r)
    ensures COMMIT_INTENT <= r.phase <= RESULT_DURABLE ==> Keeps(d.ledger, CommitOf(r), r.phase == RESULT_DURABLE)
  {
    if r.phase == COMMIT_INTENT { UnfinishedIsHeld(d.ledger, CommitOf(r)); }
    if r.phase == RESULT_DURABLE { SucceededIsHeld(d.ledger, CommitOf(r)); }
  }

  lemma PersistIsSafe(d: Durable, r: Record)
    requires Safe(d) && Follows(d, r)
    ensures Safe(Persisted(d, r)) && Edge(d, Persisted(d, r)) && Current(Persisted(d, r)) == r
  {
    FollowsMeans(d, r);
    RecordFollows(d.journal, r);
  }

  lemma EraseAIsSafe(d: Durable)
    requires Safe(d) && MayErase(d)
    ensures Safe(ErasedA(d)) && Edge(d, ErasedA(d))
    ensures Phase(ErasedA(d)) == NONE || (Phase(d) == RESULT_ACKNOWLEDGED && Phase(ErasedA(d)) == RESULT_DURABLE)
  {
  }

  lemma EraseBIsSafe(d: Durable)
    requires Safe(d) && MayEraseB(d)
    ensures Safe(ErasedB(d)) && Edge(d, ErasedB(d)) && ErasedB(d).journal == EMPTY_JOURNAL
  {
  }

  lemma JournalStepIsSafe(d: Durable, d': Durable)
    requires Safe(d) && JournalStep(d, d')
    ensures Safe(d') && Edge(d, d')
  {
    if r :| Follows(d, r) && d' == Persisted(d, r) {
      PersistIsSafe(d, r);
    } else if MayErase(d) && d' == ErasedA(d) {
      EraseAIsSafe(d);
    } else {
      EraseBIsSafe(d);
    }
  }

  lemma LedgerIsSafe(d: Durable, l: Commands.Ledger)
    requires Safe(d) && LedgerStep(d.ledger, Watched(d), l)
    ensures Safe(d.(ledger := l)) && Edge(d, d.(ledger := l))
  {
    StepKeeps(d.ledger, Watched(d), Phase(d) == RESULT_DURABLE, l);
  }

  lemma SequenceIsSafe(d: Durable, s: Sequence.SeqState)
    requires Safe(d) && SequenceStep(d, s)
    ensures Safe(d.(sequence := s)) && Edge(d, d.(sequence := s))
  {
  }

  lemma MarksAreSafe(d: Durable, m: Marks)
    requires Safe(d) && MarksStep(d, m)
    ensures Safe(d.(marks := m)) && Edge(d, d.(marks := m))
  {
  }

  /** Steps that leave everything in NVS alone. */
  lemma CardOnlyIsSafe(d: Durable, d': Durable)
    requires Safe(d) && (!d'.late ==> Answered(d'))
    requires d'.journal == d.journal && d'.ledger == d.ledger && d'.sequence == d.sequence && d'.marks == d.marks
    requires FormatCard in d.ram.queue || Kept(d, d')
    requires FormatCard in d'.ram.queue ==> FormatCard in d.ram.queue || FormatDue(Current(d))
    ensures Safe(d') && Edge(d, d')
  {
  }

  lemma ServeIsAnswered(d: Durable, left: set<U64>, result: bool)
    requires Answered(d) && MayServe(d, left, result)
    ensures Answered(Served(d, left, result))
  {
    assert d.ram.queue == [d.ram.queue[0]] + d.ram.queue[1..];
  }

  /** Serving destroys records only if there is a format in the queue, and puts none there. */
  lemma ServeLeaves(d: Durable, left: set<U64>, result: bool)
    requires MayServe(d, left, result)
    ensures FormatCard in d.ram.queue || Served(d, left, result).stored == d.stored
    ensures FormatCard in Served(d, left, result).ram.queue ==> FormatCard in d.ram.queue
  {
    assert d.ram.queue == [d.ram.queue[0]] + d.ram.queue[1..];
  }

  lemma ServeIsSafe(d: Durable, left: set<U64>, result: bool)
    requires Safe(d) && MayServe(d, left, result)
    ensures Safe(Served(d, left, result)) && Edge(d, Served(d, left, result))
  {
    var d' := Served(d, left, result);
    if !d.late { ServeIsAnswered(d, left, result); }
    ServeLeaves(d, left, result);
    CardOnlyIsSafe(d, d');
  }

  lemma CardIsSafe(d: Durable, d': Durable)
    requires Safe(d) && CardStep(d, d')
    ensures Safe(d') && Edge(d, d')
  {
    if left, result :| MayServe(d, left, result) && d' == Served(d, left, result) {
      ServeIsSafe(d, left, result);
    } else {
      CardOnlyIsSafe(d, d');
    }
  }

  lemma WaitIsAnswered(d: Durable, d': Durable)
    requires Answered(d) && WaitStep(d, d') && !d'.late
    ensures Answered(d')
  {
    if MayAsk(d) && d' == Asked(d) { assert d'.ram.queue == [FormatCard]; }
  }

  lemma WaitIsSafe(d: Durable, d': Durable)
    requires Safe(d) && WaitStep(d, d')
    ensures Safe(d') && Edge(d, d')
  {
    if !d'.late { WaitIsAnswered(d, d'); }
    CardOnlyIsSafe(d, d');
  }

  lemma OutsideIsSafe(d: Durable, d': Durable)
    requires Safe(d) && OutsideStep(d, d')
    ensures Safe(d') && Edge(d, d')
  {
    CardOnlyIsSafe(d, d');
  }

  lemma StepIsSafe(d: Durable, d': Durable)
    requires Safe(d) && Step(d, d')
    ensures Safe(d') && Edge(d, d')
  {
    if OutsideStep(d, d') {
      OutsideIsSafe(d, d');
    } else if JournalStep(d, d') {
      JournalStepIsSafe(d, d');
    } else if s :| SequenceStep(d, s) && d' == d.(sequence := s) {
      SequenceIsSafe(d, s);
    } else if m :| MarksStep(d, m) && d' == d.(marks := m) {
      MarksAreSafe(d, m);
    } else if CardStep(d, d') {
      CardIsSafe(d, d');
    } else if WaitStep(d, d') {
      WaitIsSafe(d, d');
    } else {
      LedgerIsSafe(d, d'.ledger);
    }
  }

  /* ---- What follows for every run ---- */

  /** A device without a journal. */
  predicate Initial(d: Durable) {
    && d.journal == EMPTY_JOURNAL && Sane(d.ledger) && d.ram == FRESH_RAM && !d.late
    && d.sequence.acknowledged <= d.sequence.maximumSeen
  }

  ghost predicate StepAt(trace: seq<Durable>, i: nat)
    requires i + 1 < |trace|
  {
    Step(trace[i], trace[i + 1])
  }

  /** The states after each write or event, from a device at rest on, through any number of boots and power cuts. */
  ghost predicate Run(trace: seq<Durable>) {
    |trace| > 0 && Initial(trace[0]) && forall i | 0 <= i < |trace| - 1 :: StepAt(trace, i)
  }

  lemma {:induction false} RunIsSafe(trace: seq<Durable>, j: nat)
    requires Run(trace) && j < |trace|
    ensures Safe(trace[j]) && (j > 0 ==> Edge(trace[j - 1], trace[j]))
    decreases j
  {
    if j > 0 {
      RunIsSafe(trace, j - 1);
      assert StepAt(trace, j - 1);
      StepIsSafe(trace[j - 1], trace[j]);
    }
  }

  ghost predicate Reaches(trace: seq<Durable>, d: Durable) { Run(trace) && trace[|trace| - 1] == d }

  lemma ReachedIsSafe(trace: seq<Durable>, d: Durable)
    requires Reaches(trace, d)
    ensures Safe(d)
  {
    RunIsSafe(trace, |trace| - 1);
  }

  lemma Extends(trace: seq<Durable>, d: Durable, d': Durable)
    requires Reaches(trace, d) && Step(d, d')
    ensures Reaches(trace + [d'], d')
  {
    forall i | 0 <= i < |trace| ensures StepAt(trace + [d'], i) {
      assert i < |trace| - 1 ==> StepAt(trace, i);
    }
  }

  lemma PersistExtends(trace: seq<Durable>, d: Durable, r: Record)
    requires Reaches(trace, d) && Follows(d, r)
    ensures Reaches(trace + [Persisted(d, r)], Persisted(d, r)) && Current(Persisted(d, r)) == r
  {
    ReachedIsSafe(trace, d);
    PersistIsSafe(d, r);
    assert JournalStep(d, Persisted(d, r));
    Extends(trace, d, Persisted(d, r));
  }

  lemma EraseAExtends(trace: seq<Durable>, d: Durable)
    requires Reaches(trace, d) && MayErase(d)
    ensures Reaches(trace + [ErasedA(d)], ErasedA(d))
  {
    assert JournalStep(d, ErasedA(d));
    Extends(trace, d, ErasedA(d));
  }

  lemma EraseBExtends(trace: seq<Durable>, d: Durable)
    requires Reaches(trace, d) && MayEraseB(d)
    ensures Reaches(trace + [ErasedB(d)], ErasedB(d))
  {
    assert JournalStep(d, ErasedB(d));
    Extends(trace, d, ErasedB(d));
  }

  lemma LedgerExtends(trace: seq<Durable>, d: Durable, l: Commands.Ledger)
    requires Reaches(trace, d) && LedgerStep(d.ledger, Watched(d), l)
    ensures Reaches(trace + [d.(ledger := l)], d.(ledger := l))
  {
    Extends(trace, d, d.(ledger := l));
  }

  lemma SequenceExtends(trace: seq<Durable>, d: Durable, s: Sequence.SeqState)
    requires Reaches(trace, d) && SequenceStep(d, s)
    ensures Reaches(trace + [d.(sequence := s)], d.(sequence := s))
  {
    Extends(trace, d, d.(sequence := s));
  }

  lemma MarksExtend(trace: seq<Durable>, d: Durable, m: Marks)
    requires Reaches(trace, d) && MarksStep(d, m)
    ensures Reaches(trace + [d.(marks := m)], d.(marks := m))
  {
    Extends(trace, d, d.(marks := m));
  }

  lemma ServeExtends(trace: seq<Durable>, d: Durable, left: set<U64>, result: bool)
    requires Reaches(trace, d) && MayServe(d, left, result)
    ensures Reaches(trace + [Served(d, left, result)], Served(d, left, result))
  {
    assert CardStep(d, Served(d, left, result));
    Extends(trace, d, Served(d, left, result));
  }

  lemma StoreExtends(trace: seq<Durable>, d: Durable, gone: set<U64>, q: U64)
    requires Reaches(trace, d) && MayReclaim(d, gone)
    ensures Reaches(trace + [Reclaimed(d, gone)], Reclaimed(d, gone))
    ensures Reaches(trace + [Appended(d, q)], Appended(d, q))
  {
    assert CardStep(d, Reclaimed(d, gone)) && CardStep(d, Appended(d, q));
    Extends(trace, d, Reclaimed(d, gone));
    Extends(trace, d, Appended(d, q));
  }

  lemma WaitExtends(trace: seq<Durable>, d: Durable, d': Durable)
    requires Reaches(trace, d) && WaitStep(d, d')
    ensures Reaches(trace + [d'], d')
  {
    Extends(trace, d, d');
  }

  lemma OutsideExtends(trace: seq<Durable>, d: Durable, d': Durable)
    requires Reaches(trace, d) && OutsideStep(d, d')
    ensures Reaches(trace + [d'], d')
  {
    Extends(trace, d, d');
  }

  /** No new transaction is prepared between the two instants. */
  predicate Undisturbed(trace: seq<Durable>, i: nat, j: nat)
    requires i <= j < |trace|
  {
    forall k :: i <= k <= j ==> Phase(trace[k]) != PREPARED
  }

  /** The transaction has only moved on, fallen back by the one phase, or ended. */
  predicate Later(r: Record, r': Record) {
    r'.phase == NONE ||
    (SameTransaction(r, r') &&
     (r'.phase >= r.phase || (r.phase == RESULT_ACKNOWLEDGED && r'.phase == RESULT_DURABLE)))
  }

  /**
   No format is repeated. Once STORAGE_FORMAT_DURABLE was loaded with no format left in the storage task's queue,
   whatever power cuts follow, the transaction never formats again: it only moves on, falls back from
   RESULT_ACKNOWLEDGED to RESULT_DURABLE, or ends, and every record that is not acknowledged is kept.
   */
  lemma {:induction false} NoFormatIsRepeated(trace: seq<Durable>, i: nat, j: nat)
    requires Run(trace) && i <= j < |trace| && Undisturbed(trace, i, j)
    requires Phase(trace[i]) >= STORAGE_FORMAT_DURABLE && FormatCard !in trace[i].ram.queue
    ensures Later(Current(trace[i]), Current(trace[j])) && FormatCard !in trace[j].ram.queue
    ensures forall q :: q in trace[i].stored && q > trace[j].sequence.acknowledged ==> q in trace[j].stored
    ensures trace[i].sequence.acknowledged <= trace[j].sequence.acknowledged
    decreases j
  {
    if i < j {
      assert Undisturbed(trace, i, j - 1);
      NoFormatIsRepeated(trace, i, j - 1);
      RunIsSafe(trace, j);
      assert !FormatDue(Current(trace[j - 1]));
    }
  }

  /**
   That phase is recorded only for a card that was formatted, with no further format queued, unless a format was asked
   for while the storage task still owed the control task an answer.
   */
  lemma FormatIsDurable(trace: seq<Durable>, i: nat)
    requires Run(trace) && i < |trace| && Phase(trace[i]) >= STORAGE_FORMAT_DURABLE && !trace[i].late
    ensures trace[i].wiped && FormatCard !in trace[i].ram.queue
  {
    RunIsSafe(trace, i);
  }

  /**
   Records that are not acknowledged are lost only to a transaction whose commit intent is durable, whose commit command
   is in the ledger and, for a reset, whose sequence floor is already raised; or to a format that was asked for while
   an answer was still owed.
   */
  lemma RecordsAreLostOnlyToACommit(trace: seq<Durable>, i: nat)
    requires Run(trace) && i + 1 < |trace| && !Kept(trace[i], trace[i + 1])
    ensures FormatCard in trace[i].ram.queue
    ensures !trace[i].late ==>
              var r, s := Current(trace[i]), trace[i].sequence;
              && r.phase == (if r.kind.FormatStorage? then COMMIT_INTENT else SEQUENCE_FLOOR_DURABLE)
              && (exists c :: c in trace[i].ledger.entries && Commissions(c, r))
              && (r.kind.DataReset? ==>
                    s.resetGeneration == r.resetGeneration && s.maximumSeen >= r.floor && s.acknowledged >= r.floor)
  {
    RunIsSafe(trace, i);
    RunIsSafe(trace, i + 1);
    if !trace[i].late { HeldIsThere(trace[i]); }
  }

  /** The entry is the commit command of this transaction: unfinished, or successful with its result to be fetched. */
  predicate Commissions(c: Commands.Command, r: Record) {
    && c.id == r.commitId && c.kind == (if r.kind.FormatStorage? then 8 else 13)
    && (c.state.Accepted? || c.state.Running? || (c.state.Succeeded? && c.ackRequired))
  }

  lemma HeldIsThere(d: Durable)
    requires Safe(d) && COMMIT_INTENT <= Phase(d) < RESULT_DURABLE
    ensures exists c :: c in d.ledger.entries && Commissions(c, Current(d))
  {
    var i :| 0 <= i < |d.ledger.entries| && Pinned(d.ledger.entries[i], CommitOf(Current(d)), false);
    assert d.ledger.entries[i] in d.ledger.entries && Commissions(d.ledger.entries[i], Current(d));
  }

  /**
   What is loaded at any instant of any run: the token is there exactly until the commit intent, the commit command is
   named from then on, and each phase of a reset says what is durable in the sequence store and the configuration.
   */
  lemma PhasesMean(trace: seq<Durable>, j: nat)
    requires Run(trace) && j < |trace|
    ensures var r, s := Current(trace[j]), trace[j].sequence;
            && r.phase <= 7 && (r.phase == 0 ==> r == NO_RECORD) && (r.phase > 0 ==> |r.prepareId| == 36)
            && (r.phase == 1 ==> r.token != "" && r.session != "" && r.commitId == "" && r.expires != 0)
            && (r.phase > 1 ==> r.token == "" && |r.commitId| == 36)
            && (1 < r.phase < 6 ==> exists c :: c in trace[j].ledger.entries && Commissions(c, r))
            && (r.kind.DataReset? && r.phase > 1 ==> r.resetGeneration > 0 && r.floor >= r.serverFloor)
            && (r.kind.DataReset? && r.phase >= 3 ==>
                  s.resetGeneration == r.resetGeneration && s.maximumSeen >= r.floor && s.acknowledged >= r.floor)
            && (r.kind.DataReset? && r.phase >= 5 ==> trace[j].marks == Marks(r.floor, r.floor, r.resetGeneration))
  {
    RunIsSafe(trace, j);
    if COMMIT_INTENT <= Phase(trace[j]) < RESULT_DURABLE { HeldIsThere(trace[j]); }
  }

  /** The phases, by number: a format takes 1, 2, 4, 6, 7, a reset all of them; 7 may fall back to 6. */
  lemma PhasesFollow(trace: seq<Durable>, j: nat)
    requires Run(trace) && j + 1 < |trace|
    ensures var r, r' := Current(trace[j]), Current(trace[j + 1]);
            var p, p' := r.phase, r'.phase;
            && (r.kind.FormatStorage? ==> p in {0, 1, 2, 4, 6, 7})
            && (p' != p ==>
                  || (p == 0 && p' == 1)
                  || (p == 1 && p' in {0, 2})
                  || (p == 2 && p' == (if r.kind.FormatStorage? then 4 else 3))
                  || (p == 3 && p' == 4)
                  || (p == 4 && p' == (if r.kind.FormatStorage? then 6 else 5))
                  || (p == 5 && p' == 6)
                  || (p == 6 && p' in {0, 7})
                  || (p == 7 && p' == 6))
            && (p > 0 && p' > 0 ==>
                  r'.kind == r.kind && r'.prepareId == r.prepareId && r'.floor == r.floor &&
                  r'.serverFloor == r.serverFloor && r'.resetGeneration == r.resetGeneration)
            && (p > 1 && p' > 0 ==> r'.commitId == r.commitId)
  {
    RunIsSafe(trace, j);
    RunIsSafe(trace, j + 1);
  }

  /* ---- A format that was given up on ---- */

  /** While a format is left in the queue, serving the queue wipes the card, whatever the phase. */
  lemma {:induction false} QueuedFormatWipes(d: Durable) returns (more: seq<Durable>)
    requires FormatCard in d.ram.queue
    ensures |more| > 0 && Step(d, more[0]) && forall i | 0 <= i < |more| - 1 :: StepAt(more, i)
    ensures more[|more| - 1].stored == {} && Current(more[|more| - 1]) == Current(d)
    decreases |d.ram.queue|
  {
    var d' := Served(d, {}, true);
    assert MayServe(d, {}, true) && CardStep(d, d');
    if d.ram.queue[0].FormatCard? {
      more := [d'];
    } else {
      assert d.ram.queue == [d.ram.queue[0]] + d'.ram.queue;
      var rest := QueuedFormatWipes(d');
      more := [d'] + rest;
      forall i | 0 <= i < |more| - 1 ensures StepAt(more, i) {
        assert i > 0 ==> StepAt(rest, i - 1);
      }
    }
  }

  /** The phase record that a finished format lets the control task write. */
  function FormatRecord(r: Record): Record {
    r.(phase := STORAGE_FORMAT_DURABLE, generation := if r.generation == U32_MAX then 0 else r.generation + 1)
  }

  /**
   How the phase comes to be recorded with a format still queued: the wait for a format times out, the retry queues a
   second one and is woken by the notification of the first.
   */
  lemma TimedOutFormatIsRepeated(d: Durable) returns (run: seq<Durable>)
    requires Safe(d) && FormatDue(Current(d)) && d.ram == FRESH_RAM
    ensures |run| == 7 && run[0] == d && forall i | 0 <= i < |run| - 1 :: StepAt(run, i)
    ensures run[1] == Asked(run[0]) && run[2] == GivenUp(run[1]) && run[3] == Asked(run[2])
    ensures Phase(run[6]) == STORAGE_FORMAT_DURABLE && run[6].ram.queue == [FormatCard]
  {
    var asked := Asked(d);
    var timedOut := GivenUp(asked);
    var again := Asked(timedOut);
    var served := Served(again, {}, true);
    var woken := Woken(served);
    var r := FormatRecord(Current(d));
    var recorded := Persisted(woken, r);
    run := [d, asked, timedOut, again, served, woken, recorded];
    assert again.ram.queue == [FormatCard, FormatCard];
    assert WaitStep(d, asked) && WaitStep(asked, timedOut) && WaitStep(timedOut, again) && WaitStep(served, woken);
    assert MayServe(again, {}, true) && CardStep(again, served);
    assert Follows(woken, r) && JournalStep(woken, recorded);
    RecordFollows(d.journal, r);
    forall i | 0 <= i < |run| - 1 ensures StepAt(run, i) {
      assert i == 0 || i == 1 || i == 2 || i == 3 || i == 4 || i == 5;
    }
  }

  /* ---- A journal that fell back ---- */

  /** Between the two erasures of an acknowledged transaction a boot finds this. */
  predicate FellBack(d: Durable) { Phase(d) == RESULT_DURABLE && d.journal.a.None? && !d.ram.erasing }

  /** It stays so, and refuses every new preparation, as long as its commit command is not acknowledged again. */
  lemma {:induction false} FallenBackWaits(trace: seq<Durable>, i: nat, j: nat)
    requires Run(trace) && i <= j < |trace| && FellBack(trace[i])
    requires forall k :: i <= k < j ==> Current(trace[i]).commitId !in trace[k].ram.inbox
    ensures FellBack(trace[j]) && trace[j].journal == trace[i].journal
    decreases j
  {
    if i < j {
      FallenBackWaits(trace, i, j - 1);
      RunIsSafe(trace, j - 1);
      assert StepAt(trace, j - 1);
      FallenBackStays(trace[j - 1], trace[j]);
    }
  }

  lemma FallenBackStays(d: Durable, d': Durable)
    requires Safe(d) && Step(d, d') && FellBack(d) && Current(d).commitId !in d.ram.inbox
    ensures FellBack(d') && d'.journal == d.journal
  {
  }

  /** Acknowledged again, it can be recorded as such at once, and only then. */
  lemma FallenBackLeavesExactly(d: Durable)
    requires Safe(d) && FellBack(d) && !d.ram.waiting
    ensures (exists r :: Follows(d, r)) <==> Current(d).commitId in d.ram.inbox
  {
    var r := Current(d).(phase := RESULT_ACKNOWLEDGED, generation := Current(d).generation + 1);
    if Current(d).commitId in d.ram.inbox { assert Follows(d, r); }
  }
}
