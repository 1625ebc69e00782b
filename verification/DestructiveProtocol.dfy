/**
 The operations of the destructive commands (main/app_main.c). As in `RotationProtocol`, every write may be the last
 before a power cut, and `Durably()` says that everything ever durable is a run of the protocol.
 */
module DestructiveProtocol {
  import opened Esp
  import opened DestructiveTypes
  import Commands = CommandLedger
  import opened CommitCommand
  import Sequence = SequenceStore

  function Numbered(candidate: Record, generation: U32): Record {
    candidate.(generation := if generation == U32_MAX then 0 else generation + 1)
  }

  function PersistError(r: Record): EspErr {
    if r.generation == 0 then INVALID_SIZE else if !RecordValid(r) then INVALID_ARG else OK
  }

  /** The transaction meets no refusal: nothing was allocated or reconfigured since it was prepared. */
  predicate Unobstructed(s: Sequence.SeqState, m: Marks, l: Commands.Ledger, r: Record) {
    && l.generation < U32_MAX
    && (exists i :: 0 <= i < |l.entries| && Pinned(l.entries[i], CommitOf(r), false) && !l.entries[i].state.Accepted?)
    && (r.kind.DataReset? && r.phase == COMMIT_INTENT ==> FloorError(s, r.floor, r.resetGeneration) == OK)
    && (r.kind.DataReset? && r.phase <= STORAGE_FORMAT_DURABLE ==> MarksError(m, r) == OK)
  }

  /** What a prepare command's payload must say; a format has no generation and no floor. */
  function PrepareError(kind: Kind, token: string, resetGeneration: U32, s: Sequence.SeqState): EspErr {
    if token == "" || (kind.DataReset? && (s.resetGeneration == U32_MAX || resetGeneration != s.resetGeneration + 1))
    then INVALID_ARG else OK
  }

  /** What authorises a commit: the same boot, the same token, in time, and for a reset the same numbers. */
  function CommitError(r: Record, session: string, kind: Kind, request: CommitRequest, commitId: string,
                       now: U64): EspErr {
    if |request.prepareId| != Commands.ID_MAX then INVALID_ARG
    else if r.kind != kind || r.phase != PREPARED then INVALID_STATE
    else if now > r.expires then TIMEOUT
    else if request.prepareId != r.prepareId || r.session != session || r.token != request.token ||
            (kind.DataReset? && (request.resetGeneration != r.resetGeneration || request.floor != r.floor))
    then INVALID_CRC
    else if |commitId| != Commands.ID_MAX then INVALID_STATE
    else OK
  }

  datatype CommitRequest = CommitRequest(prepareId: string, token: string, resetGeneration: U32, floor: U64)

  const EXPIRY_US: int := 600_000_000

  /** The change may be written, unless the generation of the ledger is exhausted. */
  predicate EntryMayChange(d: Durable, i: nat, c: Commands.Command) {
    d.ledger.generation == U32_MAX || EntryStep(d.ledger, Watched(d), i, c)
  }

  /** No result with this id is waiting to be acknowledged. */
  predicate Unpinned(l: Commands.Ledger, id: string) {
    forall i :: 0 <= i < |l.entries| && l.entries[i].id == id ==> !l.entries[i].ackRequired
  }

  class Device {
    const reliable: bool
    var journal: Journal
    var ledger: Commands.Ledger
    var sequence: Sequence.SeqState
    var stored: set<U64>
    var marks: Marks
    var on: bool
    var record: Record
    var session: string
    var ram: Ram
    ghost var wiped: bool
    ghost var late: bool
    ghost var trace: seq<Durable>

    ghost function D(): Durable
      reads this
    {
      Durable(journal, ledger, sequence, stored, marks, ram, wiped, late)
    }

    ghost predicate Durably()
      reads this
    {
      Reaches(trace, D())
    }

    ghost predicate Booted()
      reads this
    {
      on && record == Current(D()) && !ram.waiting && Safe(D())
    }

    constructor (ledger: Commands.Ledger, sequence: Sequence.SeqState, stored: set<U64>, marks: Marks, reliable: bool)
      requires Sane(ledger) && sequence.acknowledged <= sequence.maximumSeen
      ensures Durably() && !on && this.reliable == reliable
      ensures D() == Durable(EMPTY_JOURNAL, ledger, sequence, stored, marks, FRESH_RAM, false, false)
    {
      journal, this.ledger, this.sequence, this.stored, this.marks := EMPTY_JOURNAL, ledger, sequence, stored, marks;
      this.reliable, on, record, session, ram := reliable, false, NO_RECORD, "", FRESH_RAM;
      wiped, late := false, false;
      trace := [Durable(EMPTY_JOURNAL, ledger, sequence, stored, marks, FRESH_RAM, false, false)];
    }

    /* ---- Single writes ---- */

    ghost method Note()
      requires Reaches(trace + [D()], D())
      modifies this`trace
      ensures Durably() && trace == old(trace) + [D()]
    {
      trace := trace + [D()];
    }

    method PutRecord(r: Record) returns (o: Outcome)
      requires Durably() && on && Follows(D(), r)
      modifies this`journal, this`on, this`trace, this`ram, this`wiped, this`late
      ensures Durably() && old(trace) <= trace && (reliable ==> o.Ok())
      ensures if o.Ok() then on && D() == Persisted(old(D()), r)
              else o.PowerCut? && (D() == old(D()) || D() == Persisted(old(D()), r))
    {
      PersistExtends(trace, D(), r);
      var s := Power(reliable);
      on := s.Alive?;
      if !s.CutBefore? {
        journal := WithRecord(journal, r);
        wiped := wiped && r.phase != COMMIT_INTENT;
        late := if r.phase == COMMIT_INTENT then FormatCard in ram.queue else late;
        ram := ram.(reported := false);
        Note();
      }
      o := if s.Alive? then Returned(OK) else PowerCut;
    }

    method EraseKeyA() returns (o: Outcome)
      requires Durably() && on && MayErase(D())
      modifies this`journal, this`on, this`trace, this`ram
      ensures Durably() && old(trace) <= trace && (reliable ==> o.Ok())
      ensures D() == old(D()) || D() == ErasedA(old(D()))
      ensures if o.Ok() then on && D() == ErasedA(old(D())) else o.PowerCut?
    {
      var s := Power(reliable);
      on := s.Alive?;
      if !s.CutBefore? {
        EraseAExtends(trace, D());
        journal, ram := journal.(a := None), ram.(erasing := true);
        Note();
      }
      o := if s.Alive? then Returned(OK) else PowerCut;
    }

    method EraseKeyB() returns (o: Outcome)
      requires Durably() && on && MayEraseB(D())
      modifies this`journal, this`on, this`trace, this`ram
      ensures Durably() && old(trace) <= trace && (reliable ==> o.Ok())
      ensures D() == old(D()) || D() == ErasedB(old(D()))
      ensures if o.Ok() then on && D() == ErasedB(old(D())) else o.PowerCut?
    {
      var s := Power(reliable);
      on := s.Alive?;
      if !s.CutBefore? {
        EraseBExtends(trace, D());
        journal, ram := journal.(b := None), ram.(erasing := false);
        Note();
      }
      o := if s.Alive? then Returned(OK) else PowerCut;
    }

    method PutLedger(l: Commands.Ledger) returns (o: Outcome)
      requires Durably() && on && LedgerStep(ledger, Watched(D()), l)
      modifies this`ledger, this`on, this`trace
      ensures Durably() && old(trace) <= trace && (reliable ==> o.Ok())
      ensures if o.Ok() then on && ledger == l else o.PowerCut? && (ledger == l || ledger == old(ledger))
      ensures Safe(D())
    {
      var s := Power(reliable);
      on := s.Alive?;
      if !s.CutBefore? {
        LedgerExtends(trace, D(), l);
        ledger := l;
        Note();
      }
      o := if s.Alive? then Returned(OK) else PowerCut;
      ReachedIsSafe(trace, D());
    }

    /** The sequence store moves on for other reasons, or its floor is raised by this transaction. */
    method PutSequence(s': Sequence.SeqState) returns (o: Outcome)
      requires Durably() && Booted()
      requires SequenceStep(D(), s')
      modifies this`sequence, this`on, this`trace
      ensures Durably() && old(trace) <= trace && (reliable ==> o.Ok())
      ensures if o.Ok() then on && sequence == s' else o.PowerCut?
      ensures Safe(D())
    {
      var s := Power(reliable);
      on := s.Alive?;
      if !s.CutBefore? {
        SequenceExtends(trace, D(), s');
        sequence := s';
        Note();
      }
      o := if s.Alive? then Returned(OK) else PowerCut;
      ReachedIsSafe(trace, D());
    }

    method PutMarks(m: Marks) returns (o: Outcome)
      requires Durably() && Booted() && MarksStep(D(), m)
      modifies this`marks, this`on, this`trace
      ensures Durably() && old(trace) <= trace && (reliable ==> o.Ok())
      ensures if o.Ok() then on && marks == m else o.PowerCut?
      ensures Safe(D())
    {
      var s := Power(reliable);
      on := s.Alive?;
      if !s.CutBefore? {
        MarksExtend(trace, D(), m);
        marks := m;
        Note();
      }
      o := if s.Alive? then Returned(OK) else PowerCut;
      ReachedIsSafe(trace, D());
    }

    /* ---- The card ---- */

    /** `storage_task` serves the oldest message of the control task. A format may fail, having destroyed anything. */
    method Serve()
      requires Durably() && ram.queue != []
      modifies this`stored, this`trace, this`ram, this`wiped
      ensures Durably() && old(trace) <= trace && ram.note.Some? && ram.queue == old(ram.queue)[1..]
      ensures ram.waiting == old(ram.waiting) && (old(ram.queue)[0].OtherWork? ==> stored == old(stored))
      ensures old(ram.queue)[0].FormatCard? && ram.note.value ==> stored == {} && wiped
      ensures Current(D()) == old(Current(D()))
      ensures reliable ==> ram.note == Some(true)
    {
      var left: set<U64> := *;
      var worked: bool := *;
      worked := worked || reliable;
      if worked { left := {}; }
      var format := ram.queue[0].FormatCard?;
      ServeExtends(trace, D(), left, worked);
      ram := ram.(queue := ram.queue[1..], note := Some(worked));
      stored, wiped := if format then left else stored, wiped || (format && worked);
      assert D() == Served(old(D()), left, worked);
      Note();
    }

    /** The control task's wait ends, with the notification there is or with the timeout. */
    method EndWait() returns (o: Outcome)
      requires Durably() && on && ram.waiting
      modifies this`trace, this`ram
      ensures Durably() && old(trace) <= trace && !ram.waiting && ram.queue == old(ram.queue)
      ensures o == Returned(if old(ram.note).None? then TIMEOUT else if old(ram.note).value then OK else FAIL)
      ensures o.Ok() <==> old(ram.note) == Some(true)
      ensures o.Ok() ==> ram.reported
    {
      WaitExtends(trace, D(), if ram.note.Some? then Woken(D()) else GivenUp(D()));
      o := Returned(if ram.note.None? then TIMEOUT else if ram.note.value then OK else FAIL);
      if ram.note.Some? {
        ram := ram.(waiting := false, note := None, reported := ram.note.value);
      } else {
        ram := ram.(waiting := false);
      }
      Note();
    }

    /**
     `pm_storage_recover_authenticated_format`. If the storage task owed no answer, success means that the card is
     empty and no format is left to be served; otherwise the answer may be to something else.
     */
    method Format() returns (o: Outcome)
      requires Durably() && Booted() && FormatDue(record)
      modifies this`stored, this`on, this`trace, this`ram, this`wiped, this`late
      ensures Durably() && old(trace) <= trace && (o.Returned? ==> Booted())
      ensures o.Ok() ==> ram.reported
      ensures o.Ok() && old(ram.queue) == [] ==> stored == {} && wiped && ram.queue == []
      ensures reliable ==> o.Ok()
    {
      Ask();
      var inTime: bool := *;
      if inTime || reliable { Serve(); }
      var s := Power(reliable);
      on := s.Alive?;
      if s.Alive? { o := EndWait(); } else { o := PowerCut; }
      ReachedIsSafe(trace, D());
    }

    /** The message is sent, with any older notification cleared. */
    method Ask()
      requires Durably() && Booted() && FormatDue(record)
      modifies this`trace, this`ram, this`late
      ensures Durably() && old(trace) <= trace && on && record == Current(D())
      ensures ram.queue == old(ram.queue) + [FormatCard] && ram.waiting && ram.note.None?
    {
      WaitExtends(trace, D(), Asked(D()));
      late := late || ram.queue != [];
      ram := ram.(queue := ram.queue + [FormatCard], waiting := true, note := None, reported := false);
      Note();
    }

    /** Other work of the control task that times out: its message stays in the queue. */
    method GiveUpOnOtherWork()
      requires Durably() && Booted()
      modifies this`trace, this`ram
      ensures Durably() && old(trace) <= trace && Booted() && ram.queue == old(ram.queue) + [OtherWork]
    {
      WaitExtends(trace, D(), AskedOther(D()));
      ram := ram.(queue := ram.queue + [OtherWork]);
      Note();
      ReachedIsSafe(trace, D());
    }

    /** `append_record`: telemetry goes on being stored, and makes room by unlinking acknowledged segments first. */
    method Append(q: U64, gone: set<U64>) returns (o: Outcome)
      requires Durably() && Booted() && MayReclaim(D(), gone)
      modifies this`stored, this`on, this`trace
      ensures Durably() && old(trace) <= trace && (o.Returned? ==> Booted() && q in stored)
      ensures forall x :: x in old(stored) && x > sequence.acknowledged ==> x in stored
    {
      StoreExtends(trace, D(), gone, q);
      stored := stored - gone;
      Note();
      var s := Power(reliable);
      on := s.Alive?;
      if !s.CutBefore? {
        StoreExtends(trace, D(), {}, q);
        stored := stored + {q};
        Note();
      }
      o := if s.Alive? then Returned(OK) else PowerCut;
      ReachedIsSafe(trace, D());
    }

    /** The server acknowledges the result of a command. */
    method Arrive(id: string)
      requires Durably() && Booted()
      modifies this`trace, this`ram
      ensures Durably() && old(trace) <= trace && Booted() && ram == old(ram).(inbox := old(ram).inbox + {id})
    {
      OutsideExtends(trace, D(), D().(ram := ram.(inbox := ram.inbox + {id})));
      ram := ram.(inbox := ram.inbox + {id});
      Note();
      ReachedIsSafe(trace, D());
    }

    /* ---- The journal ---- */

    /** `prepare_state_persist`. */
    method StatePersist(candidate: Record) returns (o: Outcome)
      requires Durably() && Booted()
      requires PersistError(Numbered(candidate, record.generation)) == OK ==>
                 Follows(D(), Numbered(candidate, record.generation))
      modifies this`journal, this`on, this`trace, this`record, this`ram, this`wiped, this`late
      ensures Durably() && old(trace) <= trace && (o.Returned? ==> Booted())
      ensures var r := Numbered(candidate, old(record).generation);
              && (o.Ok() ==> PersistError(r) == OK && record == r)
              && ram.queue == old(ram).queue && (o.Returned? && !o.Ok() ==> ram == old(ram))
              && (o.Returned? && !o.Ok() ==> o.err == PersistError(r) && record == old(record) && D() == old(D()))
              && (o.PowerCut? ==> Current(D()) == old(record) || (PersistError(r) == OK && Current(D()) == r))
              && (reliable ==> o == Returned(PersistError(r)))
    {
      var r := Numbered(candidate, record.generation);
      o := Returned(PersistError(r));
      if o.Ok() {
        PersistIsSafe(D(), r);
        o := PutRecord(r);
        if o.Ok() { record := r; }
      }
      ReachedIsSafe(trace, D());
    }

    /** `persist_prepare_phase`. */
    method PersistPhase(phase: nat) returns (o: Outcome)
      requires Durably() && Booted() && COMMIT_INTENT <= record.phase < RESULT_ACKNOWLEDGED &&
               phase == Next(record.kind, record.phase)
      requires phase == STORAGE_FORMAT_DURABLE ==> ram.reported
      requires phase == RESULT_ACKNOWLEDGED ==> record.commitId in ram.inbox
      requires phase == RESULT_DURABLE ==> HasSucceeded(ledger, CommitOf(record))
      requires record.kind.DataReset? && phase == SEQUENCE_FLOOR_DURABLE ==> FloorRaised(sequence, record)
      requires record.kind.DataReset? && phase == RESET_CONFIG_DURABLE ==>
                 marks == Marks(record.floor, record.floor, record.resetGeneration)
      modifies this`journal, this`on, this`trace, this`record, this`ram, this`wiped, this`late
      ensures Durably() && old(trace) <= trace && (o.Returned? ==> Booted())
      ensures o.Ok() ==>
                record.phase == phase && SameTransaction(old(record), record) && record.commitId == old(record).commitId
      ensures (o.Ok() || o.PowerCut?) && ram.queue == old(ram).queue
      ensures reliable ==> o.Ok()
    {
      o := StatePersist(record.(phase := phase));
    }

    /** `prepare_state_erase_persisted`: key A, then key B. */
    method ErasePersisted() returns (o: Outcome)
      requires Durably() && on && MayErase(D()) && !ram.waiting
      modifies this`journal, this`on, this`trace, this`ram
      ensures Durably() && old(trace) <= trace && (reliable ==> o.Ok()) && !ram.waiting
      ensures || D() == old(D()) || Phase(D()) == NONE
              || (old(Phase(D())) == RESULT_ACKNOWLEDGED && Phase(D()) == RESULT_DURABLE)
      ensures if o.Ok() then on && journal == EMPTY_JOURNAL else o.PowerCut?
      ensures Safe(D())
    {
      ReachedIsSafe(trace, D());
      EraseAIsSafe(D());
      o := EraseKeyA();
      ReachedIsSafe(trace, D());
      if o.Ok() {
        EraseBIsSafe(D());
        o := EraseKeyB();
      }
      ReachedIsSafe(trace, D());
    }

    /** `prepare_state_clear`. */
    method Clear() returns (o: Outcome)
      requires Durably() && Booted() && (record.phase <= PREPARED || record.phase == RESULT_ACKNOWLEDGED)
      modifies this`journal, this`on, this`trace, this`record, this`ram
      ensures Durably() && old(trace) <= trace && (o.Returned? ==> Booted() && o.Ok() && record == NO_RECORD)
      ensures reliable ==> o.Ok()
      ensures old(record).phase <= PREPARED ==> Phase(D()) <= PREPARED
    {
      o := ErasePersisted();
      if o.Ok() { record := NO_RECORD; }
    }

    /** `prepare_state_boot_load`: a preparation does not survive a boot. */
    method BootLoad(session: string) returns (o: Outcome)
      requires Durably()
      modifies this`journal, this`on, this`trace, this`record, this`session, this`ram
      ensures Durably() && old(trace) <= trace && (o.Returned? ==> Booted() && o.Ok()) && (reliable ==> o.Ok())
      ensures o.Ok() ==> record == if old(Phase(D())) == PREPARED then NO_RECORD else old(Current(D()))
    {
      OutsideExtends(trace, D(), D().(ram := FRESH_RAM));
      ram := FRESH_RAM;
      Note();
      ReachedIsSafe(trace, D());
      this.session, on, record := session, true, Loaded(journal);
      o := Returned(OK);
      if record.phase <= PREPARED { o := Clear(); }
      ReachedIsSafe(trace, D());
    }

    /** `prepare_state_expire_if_needed`, at a non-negative time. */
    method ExpireIfNeeded(now: U64) returns (o: Outcome)
      requires Durably() && Booted()
      modifies this`journal, this`on, this`trace, this`record, this`ram
      ensures Durably() && old(trace) <= trace && (o.Returned? ==> Booted() && o.Ok())
      ensures old(record).phase >= COMMIT_INTENT ==> o.Ok() && D() == old(D()) && record == old(record)
      ensures o.Ok() && record.phase == PREPARED ==> now <= record.expires
      ensures o.Ok() && old(record).phase == PREPARED && now <= old(record).expires ==>
                D() == old(D()) && record == old(record)
    {
      o := Returned(OK);
      if record.phase == PREPARED && now > record.expires { o := Clear(); }
    }

    /* ---- The ledger ---- */

    method ChangeEntry(i: nat, c: Commands.Command) returns (o: Outcome)
      requires Durably() && on && i < Commands.SIZE && EntryMayChange(D(), i, c)
      modifies this`ledger, this`on, this`trace
      ensures Durably() && old(trace) <= trace && (o.Returned? ==> on)
      ensures o.Ok() ==>
                old(ledger.generation) < U32_MAX && ledger == Commands.Bumped(Commands.Changed(old(ledger), i, c))
      ensures o.Returned? && !o.Ok() ==> ledger == old(ledger)
      ensures reliable && old(ledger.generation) < U32_MAX ==> o.Ok()
      ensures Safe(D())
    {
      o := Resource(reliable);
      if o.Ok() {
        o := Returned(INVALID_STATE);
        if ledger.generation < U32_MAX {
          assert EntryStep(ledger, Watched(D()), i, c);
          o := PutLedger(Commands.Bumped(Commands.Changed(ledger, i, c)));
        }
      }
      ReachedIsSafe(trace, D());
    }

    /** A new command is admitted to the ledger, as `CommandLedger.Store.Accept` does it. */
    method AcceptCommand(incoming: Commands.Incoming, now: int, i: nat, l': Commands.Ledger) returns (o: Outcome)
      requires Durably() && Booted() && AcceptStep(ledger, incoming, now, i, l')
      modifies this`ledger, this`on, this`trace
      ensures Durably() && old(trace) <= trace && (o.Returned? ==> Booted())
      ensures o.Ok() ==> ledger == l'
    {
      o := PutLedger(l');
    }

    /** Whatever the rest of the firmware does to an entry that the journal does not own. */
    method ChangeOther(i: nat, c: Commands.Command) returns (o: Outcome)
      requires Durably() && Booted() && i < Commands.SIZE && ledger.entries[i].id != ""
      requires record.phase >= COMMIT_INTENT ==>
                 ledger.entries[i].kind != CommitKind(record.kind) || ledger.entries[i].id != record.commitId
      requires Commands.CommandValid(c) && c.id == ledger.entries[i].id && c.key == ledger.entries[i].key &&
               c.kind == ledger.entries[i].kind
      modifies this`ledger, this`on, this`trace
      ensures Durably() && old(trace) <= trace && (o.Returned? ==> Booted())
      ensures o.Ok() ==> ledger.entries == old(ledger.entries)[i := c]
    {
      o := ChangeEntry(i, c);
    }

    /* ---- The protocol ---- */

    /** `begin_durable_commit_intent`: the token is gone from the record that makes the commit durable. */
    method BeginIntent(i: nat) returns (o: Outcome)
      requires Durably() && Booted() && i < Commands.SIZE && record.phase == PREPARED &&
               |ledger.entries[i].id| == Commands.ID_MAX
      requires ledger.entries[i].kind == CommitKind(record.kind) &&
               (ledger.entries[i].state.Accepted? || ledger.entries[i].state.Running?)
      modifies this`journal, this`on, this`trace, this`record, this`ram, this`wiped, this`late
      ensures Durably() && old(trace) <= trace && (o.Returned? ==> Booted())
      ensures o.Ok() ==>
                record.phase == COMMIT_INTENT && record.token == "" && record.commitId == ledger.entries[i].id &&
                SameTransaction(old(record), record) && record.session == "" && ram.queue == old(ram.queue)
      ensures o.Returned? && !o.Ok() ==> record == old(record)
      ensures reliable ==>
                (o.Ok() <==>
                 old(record).kind.FormatStorage? ||
                 (old(record).resetGeneration != 0 && old(record).floor >= old(record).serverFloor))
    {
      assert Is(ledger.entries[i], Watching(ledger.entries[i].id, CommitKind(record.kind))) &&
             Unfinished(ledger.entries[i]);
      o := StatePersist(record.(phase := COMMIT_INTENT, commitId := ledger.entries[i].id, token := "", session := ""));
    }

    method RaiseFloor() returns (o: Outcome)
      requires Durably() && Booted() && record.kind.DataReset? && record.phase == COMMIT_INTENT
      modifies this`sequence, this`on, this`trace
      ensures Durably() && old(trace) <= trace && (o.Returned? ==> Booted())
      ensures o.Ok() ==>
                && sequence.resetGeneration == record.resetGeneration && sequence.next == record.floor + 1
                && sequence.maximumSeen == sequence.acknowledged == sequence.reserved == record.floor
      ensures o.Returned? && !o.Ok() ==> sequence == old(sequence)
      ensures reliable ==>
                (o.Ok() <==>
                 var s, floor := old(sequence), record.floor;
                 && floor < U64_MAX
                 && if s.resetGeneration == record.resetGeneration
                    then s.maximumSeen == s.acknowledged == s.reserved == floor && s.next == floor + 1
                    else s.maximumSeen <= floor && s.resetGeneration < record.resetGeneration &&
                         s.generation < U32_MAX)
      ensures reliable && FloorError(old(sequence), record.floor, record.resetGeneration) == OK ==> o.Ok()
    {
      o := Returned(FloorError(sequence, record.floor, record.resetGeneration));
      if o.Ok() && record.resetGeneration != sequence.resetGeneration {
        o := PutSequence(Sequence.Bumped(Sequence.Floored(sequence, record.floor, record.resetGeneration)));
      }
    }

    /** The four stages of `resume_destructive_transaction`, each with its own phase. */
    method ResumeFloor() returns (o: Outcome)
      requires Durably() && Booted() && record.kind.DataReset? && record.phase == COMMIT_INTENT
      modifies this`sequence, this`journal, this`on, this`trace, this`record, this`ram, this`wiped, this`late
      ensures Durably() && old(trace) <= trace && (o.Returned? ==> Booted())
      ensures o.Ok() ==>
                record.phase == SEQUENCE_FLOOR_DURABLE && SameTransaction(old(record), record) &&
                record.commitId == old(record).commitId && ram.queue == old(ram.queue)
      ensures o.Returned? && !o.Ok() ==> record == old(record)
      ensures reliable && FloorError(old(sequence), old(record).floor, old(record).resetGeneration) == OK ==> o.Ok()
    {
      o := RaiseFloor();
      if o.Ok() { o := PersistPhase(SEQUENCE_FLOOR_DURABLE); }
    }

    method ResumeFormat() returns (o: Outcome)
      requires Durably() && Booted() && FormatDue(record)
      modifies this`stored, this`journal, this`on, this`trace, this`record, this`ram, this`wiped, this`late
      ensures Durably() && old(trace) <= trace && (o.Returned? ==> Booted())
      ensures o.Ok() ==>
                record.phase == STORAGE_FORMAT_DURABLE && SameTransaction(old(record), record) &&
                record.commitId == old(record).commitId
      ensures o.Ok() && old(ram.queue) == [] ==> stored == {} && ram.queue == []
      ensures o.Returned? && !o.Ok() ==> record == old(record)
      ensures reliable ==> o.Ok()
    {
      o := Format();
      if o.Ok() { o := PersistPhase(STORAGE_FORMAT_DURABLE); }
    }

    method ResumeConfig() returns (o: Outcome)
      requires Durably() && Booted() && record.kind.DataReset? && record.phase == STORAGE_FORMAT_DURABLE
      modifies this`marks, this`journal, this`on, this`trace, this`record, this`ram, this`wiped, this`late
      ensures Durably() && old(trace) <= trace && (o.Returned? ==> Booted())
      ensures o.Ok() ==>
                record.phase == RESET_CONFIG_DURABLE && SameTransaction(old(record), record) &&
                record.commitId == old(record).commitId
      ensures o.Returned? && !o.Ok() ==> record == old(record) && marks == old(marks)
      ensures o.Ok() ==>
                marks.floor == marks.acknowledged == record.floor &&
                marks.resetGeneration == record.resetGeneration && ram.queue == old(ram.queue)
      ensures reliable ==>
                (o.Ok() <==>
                 || old(marks) == Marks(old(record).floor, old(record).floor, old(record).resetGeneration)
                 || (old(marks).resetGeneration < old(record).resetGeneration &&
                     old(marks).floor <= old(record).floor && old(marks).acknowledged <= old(record).floor))
      ensures reliable && MarksError(old(marks), old(record)) == OK ==> o.Ok()
    {
      var wanted := Marks(record.floor, record.floor, record.resetGeneration);
      o := Returned(MarksError(marks, record));
      if o.Ok() && marks != wanted {
        o := Resource(reliable);
        if o.Ok() { o := PutMarks(wanted); }
      }
      if o.Ok() { o := PersistPhase(RESET_CONFIG_DURABLE); }
    }

    /** `persist_destructive_command_result`, then RESULT_DURABLE. */
    method ResumeResult() returns (o: Outcome)
      requires Durably() && Booted() && COMMIT_INTENT <= record.phase &&
               Next(record.kind, record.phase) == RESULT_DURABLE
      modifies this`ledger, this`journal, this`on, this`trace, this`record, this`ram, this`wiped, this`late
      ensures Durably() && old(trace) <= trace && (o.Returned? ==> Booted())
      ensures o.Ok() ==>
                record.phase == RESULT_DURABLE && record.commitId == old(record).commitId &&
                SameTransaction(old(record), record) && ram.queue == old(ram.queue) && ResultIsPinned()
      ensures o.Returned? && !o.Ok() ==> record == old(record)
      ensures reliable && old(Unobstructed(sequence, marks, ledger, record)) ==> o.Ok()
    {
      var i := FindCommit();
      var c := ledger.entries[i];
      if c.state.Accepted? { return Returned(INVALID_STATE); }
      o := ChangeEntry(i, Commands.Transitioned(c.(ackRequired := true), Commands.Succeeded, 100, 0));
      if o.Ok() {
        assert Is(ledger.entries[i], CommitOf(record)) && ledger.entries[i].state.Succeeded?;
        assert ResultIsPinned() by { assert ledger.entries[i].id == record.commitId && ledger.entries[i].ackRequired; }
        o := PersistPhase(RESULT_DURABLE);
      }
    }

    /** The commit command is always found: it was never evicted. */
    method FindCommit() returns (i: nat)
      requires Durably() && Booted() && COMMIT_INTENT <= record.phase < RESULT_DURABLE
      ensures i < Commands.SIZE && Pinned(ledger.entries[i], CommitOf(record), false)
      ensures Unobstructed(sequence, marks, ledger, record) ==> !ledger.entries[i].state.Accepted?
    {
      i := Commands.FindCommand(ledger, record.commitId);
      ghost var j :| 0 <= j < Commands.SIZE && Pinned(ledger.entries[j], CommitOf(record), false);
      assert i <= j && ledger.entries[i].id == ledger.entries[j].id;
    }

    /** A reset has taken place: its floor is below everything still to be handed out, and its marks are set. */
    ghost predicate IsReset()
      reads this
    {
      && sequence.resetGeneration == record.resetGeneration
      && sequence.maximumSeen >= record.floor && sequence.acknowledged >= record.floor
      && marks.floor == marks.acknowledged == record.floor && marks.resetGeneration == record.resetGeneration
    }

    /** The commit command has succeeded, and its entry stays until the result is acknowledged. */
    ghost predicate ResultIsPinned()
      reads this
    {
      exists i :: 0 <= i < |ledger.entries| && ledger.entries[i].id == record.commitId &&
                  ledger.entries[i].state.Succeeded? && ledger.entries[i].ackRequired
    }

    /**
     `resume_destructive_transaction`. A resume that returns OK has carried the transaction to RESULT_DURABLE; with
     no cut and no obstruction it does.
     */
    method Resume() returns (o: Outcome)
      requires Durably() && Booted()
      modifies this
      ensures Durably() && old(trace) <= trace && (o.Returned? ==> Booted())
      ensures old(record).phase < COMMIT_INTENT || old(record).phase >= RESULT_DURABLE ==>
                o.Ok() && D() == old(D()) && record == old(record)
      ensures o.Ok() && COMMIT_INTENT <= old(record).phase < RESULT_DURABLE ==>
                record.phase == RESULT_DURABLE && SameTransaction(old(record), record)
      ensures o.Ok() && COMMIT_INTENT <= old(record).phase < STORAGE_FORMAT_DURABLE && old(ram.queue) == [] ==>
                stored == {} && ram.queue == []
      ensures o.Ok() && old(record).kind.DataReset? && COMMIT_INTENT <= old(record).phase < RESULT_DURABLE ==> IsReset()
      ensures o.Ok() && COMMIT_INTENT <= old(record).phase < RESULT_DURABLE ==> ResultIsPinned()
      ensures reliable && old(Unobstructed(sequence, marks, ledger, record)) ==> o.Ok()
      ensures o.Returned? ==> record.commitId == old(record).commitId
    {
      o := Returned(OK);
      if record.phase < COMMIT_INTENT || record.phase >= RESULT_DURABLE { return; }
      if record.kind.DataReset? && record.phase == COMMIT_INTENT {
        o := ResumeFloor();
        if !o.Ok() { return; }
      }
      o := ResumeRest();
    }

    method ResumeRest() returns (o: Outcome)
      requires Durably() && Booted() && COMMIT_INTENT <= record.phase < RESULT_DURABLE
      requires record.kind.DataReset? ==> record.phase != COMMIT_INTENT
      modifies this
      ensures Durably() && old(trace) <= trace && (o.Returned? ==> Booted())
      ensures o.Ok() ==> record.phase == RESULT_DURABLE && SameTransaction(old(record), record) && ResultIsPinned()
      ensures o.Ok() && old(record).phase < STORAGE_FORMAT_DURABLE && old(ram.queue) == [] ==>
                stored == {} && ram.queue == []
      ensures reliable && old(Unobstructed(sequence, marks, ledger, record)) ==> o.Ok()
      ensures o.Returned? ==> record.commitId == old(record).commitId
    {
      if FormatDue(record) {
        o := ResumeFormat();
        if !o.Ok() { return; }
        KeepsUnobstructed(old(record), record, sequence, marks, ledger);
      }
      o := ResumeFormatted();
    }

    /** What is left when the card needs no more formatting. */
    method ResumeFormatted() returns (o: Outcome)
      requires Durably() && Booted() && COMMIT_INTENT <= record.phase < RESULT_DURABLE && !FormatDue(record)
      requires record.kind.DataReset? ==> record.phase != COMMIT_INTENT
      modifies this`ledger, this`marks, this`journal, this`on, this`trace, this`record, this`ram, this`wiped, this`late
      ensures Durably() && old(trace) <= trace && (o.Returned? ==> Booted())
      ensures o.Ok() ==>
                record.phase == RESULT_DURABLE && SameTransaction(old(record), record) && ResultIsPinned() &&
                ram.queue == old(ram.queue)
      ensures reliable && old(Unobstructed(sequence, marks, ledger, record)) ==> o.Ok()
      ensures o.Returned? ==> record.commitId == old(record).commitId
    {
      if record.kind.DataReset? && record.phase == STORAGE_FORMAT_DURABLE {
        o := ResumeConfig();
        if !o.Ok() { return; }
        KeepsUnobstructed(old(record), record, sequence, marks, ledger);
      }
      o := ResumeResult();
    }

    /** `destructive_cleanup_acknowledged`. */
    method CleanupAcknowledged() returns (o: Outcome)
      requires Durably() && Booted() && record.phase == RESULT_ACKNOWLEDGED
      modifies this
      ensures Durably() && old(trace) <= trace && (o.Returned? ==> Booted())
      ensures o.Ok() ==> record == NO_RECORD && Unpinned(ledger, old(record).commitId)
    {
      var i := Commands.FindCommand(ledger, record.commitId);
      o := Returned(OK);
      if i < Commands.SIZE {
        if !ledger.entries[i].state.Succeeded? { return Returned(INVALID_STATE); }
        if ledger.entries[i].ackRequired { o := ChangeEntry(i, ledger.entries[i].(ackRequired := false)); }
      }
      assert o.Ok() ==> Unpinned(ledger, record.commitId);
      if o.Ok() { o := Clear(); }
    }

    /** The server has acknowledged the result of command `id`. */
    method ResultAcknowledged(id: string) returns (o: Outcome)
      requires Durably() && Booted()
      modifies this
      ensures Durably() && old(trace) <= trace && (o.Returned? ==> Booted())
      ensures old(record).phase != RESULT_DURABLE || id != old(record).commitId ==>
                o.Ok() && D().(ram := old(ram)) == old(D()) && record == old(record)
      ensures o.Ok() && old(record).phase == RESULT_DURABLE && id == old(record).commitId ==> record == NO_RECORD
    {
      Arrive(id);
      o := Returned(OK);
      if record.phase == RESULT_DURABLE && id == record.commitId {
        o := PersistPhase(RESULT_ACKNOWLEDGED);
        if o.Ok() { o := CleanupAcknowledged(); }
      }
    }

    /** The destructive journal's part of a boot and of the first pass of the control loop. */
    method Boot(session: string) returns (o: Outcome)
      requires Durably()
      modifies this
      ensures Durably() && old(trace) <= trace && (o.Returned? ==> Booted())
      ensures o.Ok() ==> record.phase == NONE || record.phase == RESULT_DURABLE
      ensures o.Ok() && old(Phase(D())) <= PREPARED ==> record == NO_RECORD && stored == old(stored)
      ensures reliable && COMMIT_INTENT <= old(Phase(D())) &&
              old(Unobstructed(sequence, marks, ledger, Current(D()))) && old(Phase(D())) < RESULT_DURABLE ==>
                o.Ok() && record.phase == RESULT_DURABLE
    {
      o := BootLoad(session);
      if o.Ok() {
        if record.phase == RESULT_ACKNOWLEDGED { o := CleanupAcknowledged(); } else { o := Resume(); }
      }
    }

    /* ---- Commands ---- */

    /** A prepare command: it first forgets an earlier preparation, and is refused while a transaction is durable. */
    method Prepare(kind: Kind, i: nat, token: string, resetGeneration: U32, serverFloor: U64, now: U64, otherIdle: bool)
      returns (o: Outcome)
      requires Durably() && Booted() && i < Commands.SIZE && now + EXPIRY_US <= U64_MAX
      modifies this
      ensures Durably() && old(trace) <= trace && (o.Returned? ==> Booted()) && stored == old(stored)
      ensures old(record).phase >= COMMIT_INTENT || !otherIdle ==>
                o.Returned? && !o.Ok() && D() == old(D()) && record == old(record)
      ensures o.Ok() ==>
                record.phase == PREPARED && record.kind == kind && record.token == token && record.session == session &&
                         record.prepareId == old(ledger.entries[i].id)
      ensures o.Ok() ==> Prepares(kind, token, resetGeneration, serverFloor, now)
      ensures reliable ==>
                (o.Ok() <==>
                 && old(record).phase < COMMIT_INTENT && otherIdle && token != "" && session != ""
                 && |old(ledger.entries)[i].id| == 36
                 && (kind.DataReset? ==> resetGeneration == old(sequence).resetGeneration + 1))
      ensures !o.Ok() && (token == "" || (kind.DataReset? && resetGeneration != old(sequence).resetGeneration + 1)) ==>
                o == Returned(INVALID_ARG) || o == PowerCut
      ensures o.Returned? && !o.Ok() ==> record == NO_RECORD || record == old(record)
    {
      var active := record.phase >= COMMIT_INTENT || !otherIdle;
      if active {
        return Returned(if PrepareError(kind, token, resetGeneration, sequence) != OK then INVALID_ARG
                        else INVALID_STATE);
      }
      o := Clear();
      if o.Ok() { o := Returned(PrepareError(kind, token, resetGeneration, sequence)); }
      if o.Ok() { o := Resource(reliable); }
      if o.Ok() { o := WritePreparation(kind, i, token, resetGeneration, serverFloor, now); }
      if !o.Ok() && o.Returned? { o := Forget(o.err); }
    }

    /**
     The preparation in memory is the one the command asks for: ten minutes long, and for a reset with the next
     generation and a floor that neither the server nor the device has passed, so that it can be raised to.
     */
    ghost predicate Prepares(kind: Kind, token: string, resetGeneration: U32, serverFloor: U64, now: U64)
      reads this
    {
      && record.phase == 1 && record.commitId == "" && token != "" && session != ""
      && record.expires == now + 600_000_000
      && (kind.DataReset? ==>
            && record.resetGeneration == resetGeneration == sequence.resetGeneration + 1
            && record.serverFloor == serverFloor
            && record.floor == (if serverFloor > sequence.maximumSeen then serverFloor else sequence.maximumSeen))
    }

    /** The floor of a reset is the server's, or what the device has seen if that is more. */
    method WritePreparation(kind: Kind, i: nat, token: string, resetGeneration: U32, serverFloor: U64, now: U64)
      returns (o: Outcome)
      requires Durably() && Booted() && record == NO_RECORD && i < Commands.SIZE && now + EXPIRY_US <= U64_MAX
      requires PrepareError(kind, token, resetGeneration, sequence) == OK
      modifies this`journal, this`on, this`trace, this`record, this`ram, this`wiped, this`late
      ensures Durably() && old(trace) <= trace && (o.Returned? ==> Booted())
      ensures o.Ok() ==>
                record.phase == PREPARED && record.kind == kind && record.token == token && record.session == session &&
                record.prepareId == ledger.entries[i].id
      ensures o.Ok() ==> Prepares(kind, token, resetGeneration, serverFloor, now)
      ensures reliable ==> (o.Ok() <==> session != "" && |ledger.entries[i].id| == 36)
      ensures o.Returned? && !o.Ok() ==> record == NO_RECORD
    {
      var floor := if serverFloor > sequence.maximumSeen then serverFloor else sequence.maximumSeen;
      var r := Record(0, kind, PREPARED, ledger.entries[i].id, "", token, session, now + EXPIRY_US, 0, 0, 0);
      o := StatePersist(if kind.FormatStorage? then r
                        else r.(resetGeneration := resetGeneration, serverFloor := serverFloor, floor := floor));
    }

    /** What every refusal does: the preparation is cleared, and the error reported. */
    method Forget(err: EspErr) returns (o: Outcome)
      requires Durably() && Booted() && record.phase <= PREPARED && err != OK
      modifies this`journal, this`on, this`trace, this`record, this`ram
      ensures Durably() && old(trace) <= trace && Phase(D()) <= PREPARED
      ensures o == PowerCut || (o == Returned(err) && Booted() && record == NO_RECORD)
    {
      o := Clear();
      if o.Ok() { o := Returned(err); }
    }

    /**
     A commit command. Nothing is destroyed unless it is authorised: by the boot session, the token and the identifier
     of the preparation, in time, and for a reset by its numbers. A refused command forgets the preparation.
     */
    method Commit(kind: Kind, i: nat, request: CommitRequest, now: U64) returns (o: Outcome, pending: bool)
      requires Durably() && Booted() && i < Commands.SIZE && ledger.entries[i].kind == CommitKind(kind)
      requires ledger.entries[i].state.Accepted? || ledger.entries[i].state.Running?
      modifies this
      ensures Durably() && old(trace) <= trace && (o.Returned? ==> Booted())
      ensures o.Ok() || pending || (old(record).phase < COMMIT_INTENT && Phase(D()) >= COMMIT_INTENT) ||
              stored != old(stored) || sequence != old(sequence) || marks != old(marks) ==>
                && old(record).phase == PREPARED && old(record).kind == kind
                && request.prepareId == old(record).prepareId && request.token == old(record).token
                && old(record).session == old(session) && now <= old(record).expires
                && (kind.DataReset? ==>
                      request.resetGeneration == old(record).resetGeneration && request.floor == old(record).floor)
      ensures && reliable && old(record).phase == PREPARED && old(record).kind == kind
              && request.prepareId == old(record).prepareId && request.token == old(record).token
              && old(record).session == old(session) && now <= old(record).expires
              && |old(ledger.entries)[i].id| == 36
              && old(ledger.entries)[i].state.Running? && old(ledger.generation) < U32_MAX
              && (kind.DataReset? ==>
                    && request.resetGeneration == old(record).resetGeneration && request.floor == old(record).floor
                    && old(record).serverFloor <= old(record).floor < U64_MAX
                    && old(sequence).maximumSeen <= old(record).floor && old(sequence).generation < U32_MAX
                    && old(sequence).resetGeneration < old(record).resetGeneration
                    && old(marks).floor <= old(record).floor && old(marks).acknowledged <= old(record).floor
                    && old(marks).resetGeneration < old(record).resetGeneration) ==>
                o.Ok()
      ensures old(record).phase >= COMMIT_INTENT ==> !o.Ok() && !pending && D() == old(D()) && record == old(record)
      ensures |request.prepareId| != 36 ==> o == Returned(INVALID_ARG) || o == PowerCut
      ensures |request.prepareId| == 36 && (old(record).phase != PREPARED || old(record).kind != kind) ==>
                o == Returned(INVALID_STATE) || o == PowerCut
      ensures |request.prepareId| == 36 && old(record).phase == PREPARED && old(record).kind == kind ==>
                var r := old(record);
                && (now > r.expires ==> o == Returned(TIMEOUT) || o == PowerCut)
                && (now <= r.expires &&
                    (|| request.prepareId != r.prepareId || request.token != r.token || r.session != old(session)
                     || (kind.DataReset? &&
                         (request.resetGeneration != r.resetGeneration || request.floor != r.floor))) ==>
                      o == Returned(INVALID_CRC) || o == PowerCut)
      ensures o.Ok() ==>
                record.phase == RESULT_DURABLE && record.commitId == old(ledger.entries)[i].id && ResultIsPinned()
      ensures o.Ok() && old(ram.queue) == [] ==> stored == {}
      ensures o.Ok() && kind.DataReset? ==>
                IsReset() && record.floor == request.floor && record.resetGeneration == request.resetGeneration
      ensures o.Returned? && !o.Ok() && !pending ==> record == old(record) || record == NO_RECORD
      ensures o.Returned? && !o.Ok() && !pending && old(record).phase < COMMIT_INTENT ==> record == NO_RECORD
      ensures pending && o.Returned? ==> record.commitId == old(ledger.entries)[i].id
    {
      pending := false;
      assert record.phase == PREPARED ==> RecordValid(record);
      var prior := record.phase >= COMMIT_INTENT;
      o := Returned(CommitError(record, session, kind, request, ledger.entries[i].id, now));
      if o.Ok() {
        o := BeginIntent(i);
        if o.Ok() {
          o := ResumeIntent(i);
          pending := !o.Ok();
          return;
        }
      }
      if o.Returned? && !prior { o := Forget(o.err); }
    }

    /** What a commit command does once its intent is durable. */
    method ResumeIntent(i: nat) returns (o: Outcome)
      requires Durably() && Booted() && i < Commands.SIZE && record.phase == COMMIT_INTENT
      requires ledger.entries[i].kind == CommitKind(record.kind) && ledger.entries[i].id == record.commitId
      modifies this
      ensures Durably() && old(trace) <= trace && (o.Returned? ==> Booted())
      ensures o.Ok() ==>
                record.phase == RESULT_DURABLE && SameTransaction(old(record), record) && ResultIsPinned()
      ensures o.Ok() && old(ram.queue) == [] ==> stored == {}
      ensures o.Ok() && old(record).kind.DataReset? ==> IsReset()
      ensures o.Returned? ==> record.commitId == old(record).commitId
      ensures && reliable && old(ledger.entries)[i].state.Running? && old(ledger.generation) < U32_MAX
              && (old(record).kind.DataReset? ==>
                    && old(record).floor < U64_MAX && old(sequence).maximumSeen <= old(record).floor
                    && old(sequence).generation < U32_MAX
                    && old(sequence).resetGeneration < old(record).resetGeneration
                    && old(marks).floor <= old(record).floor && old(marks).acknowledged <= old(record).floor
                    && old(marks).resetGeneration < old(record).resetGeneration) ==>
                o.Ok()
    {
      assert ledger.entries[i].state.Running? ==> Pinned(ledger.entries[i], CommitOf(record), false);
      o := Resume();
    }

    /** The transition that ends the execution of the commit command, on which the journal still depends. */
    method FinishCommit(i: nat, pending: bool, code: int) returns (o: Outcome)
      requires Durably() && Booted() && i < Commands.SIZE && ledger.entries[i].id != "" &&
               (!pending ==> ledger.entries[i].state.Succeeded?)
      modifies this`ledger, this`on, this`trace
      ensures Durably() && old(trace) <= trace && (o.Returned? ==> Booted())
      ensures o.Ok() ==>
                var was := old(ledger.entries)[i];
                ledger.entries == old(ledger.entries)[
                  i := if pending then was.(state := Commands.Running, code := code)
                       else was.(state := Commands.Succeeded, progress := 100, code := 0)]
    {
      var c := ledger.entries[i];
      if pending && Commands.Final(c.state) { return Returned(INVALID_STATE); }
      o := ChangeEntry(i, if pending then Commands.Transitioned(c, Commands.Running, c.progress, code)
                       else Commands.Transitioned(c, Commands.Succeeded, 100, 0));
    }
  }

  /** The stages leave what later stages are refused for untouched. */
  lemma KeepsUnobstructed(r: Record, r': Record, s: Sequence.SeqState, m: Marks, l: Commands.Ledger)
    requires SameTransaction(r, r') && r'.commitId == r.commitId && COMMIT_INTENT < r'.phase && r.phase <= r'.phase
    ensures Unobstructed(s, m, l, r) ==> Unobstructed(s, m, l, r')
  {
    if Unobstructed(s, m, l, r) {
      var i :| 0 <= i < |l.entries| && Pinned(l.entries[i], CommitOf(r), false) && !l.entries[i].state.Accepted?;
      assert Pinned(l.entries[i], CommitOf(r'), false);
    }
  }
}
