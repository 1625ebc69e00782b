/**
 The operations of the credential rotation (main/app_main.c). Each NVS write may be the last thing before a power
 cut. `trace` records what was durable after every write, so that `Durably()` says every operation, cut or not, only
 extends a run of the protocol.
 */
module RotationProtocol {
  import opened Esp
  import opened ConfigTypes
  import opened RotationTypes
  import Commands = CommandLedger
  import opened CommitCommand
  import CommandRuntime

  datatype PrepareRequest = PrepareRequest(rotationId: string, secret: seq<U8>, fingerprint: seq<U8>, expires: int)

  /** What a rotation command asks for; `Malformed` stands for a payload that is refused. */
  datatype Request =
    | Malformed
    | Prepare(p: PrepareRequest)
    | Cancel(cancelId: string)
    | Commit(commitId: string, fingerprint: seq<U8>)

  /* ---- What the operations decide from ---- */

  function Numbered(candidate: Rotation, generation: U32): Rotation {
    candidate.(generation := if generation == U32_MAX then 0 else generation + 1)
  }

  function PersistError(r: Rotation): EspErr {
    if r.generation == 0 then INVALID_SIZE else if !RecordValid(r) then INVALID_ARG else OK
  }

  /** `pm_config_discard_staged`. */
  function DiscardError(n: Nvs, slot: U8, generation: U32): EspErr {
    if !IsSlot(slot) || generation == 0 then INVALID_ARG
    else if n.active == Some(slot) then INVALID_STATE
    else if At(n, slot).Missing? then OK
    else if ReadError(At(n, slot)) != OK then ReadError(At(n, slot))
    else if At(n, slot).c.generation != generation then INVALID_STATE
    else OK
  }

  /** `command_owned_by_durable_journal`. */
  predicate Owned(c: Commands.Command, r: Rotation) {
    c.kind == ROTATE_CREDENTIALS && r.phase != NONE && (c.id == r.prepareId || c.id == r.commitId)
  }

  /** `credential_rotation_prepare`, before anything is written. */
  function PrepareError(p: PrepareRequest, deadline: int, r: Rotation, c: Config, now: Option<int>,
                        otherIdle: bool): EspErr {
    if !CanonicalUuid(p.rotationId) then INVALID_ARG
    else if now.None? then INVALID_STATE
    else if now.value > deadline || p.expires <= now.value then TIMEOUT
    else if r.phase != NONE || !otherIdle || c.generation == U32_MAX then INVALID_STATE
    else if p.secret != p.fingerprint then INVALID_CRC
    else OK
  }

  /** What `credential_rotation_commit` checks before it looks at the candidate. */
  function CommitError(r: Rotation, rotationId: string, fingerprint: seq<U8>, deadline: int, now: Option<int>): EspErr {
    if !CanonicalUuid(rotationId) then INVALID_ARG
    else if now.None? then INVALID_STATE
    else if now.value > deadline || now.value > r.expires then TIMEOUT
    else if r.phase != CONFIG_STAGED || rotationId != r.rotationId || fingerprint != r.fingerprint then INVALID_CRC
    else OK
  }

  /** What a boot makes of an OTA command, by the checkpoint the installation left. */
  function OtaOutcome(c: Commands.Command, ota: CommandRuntime.OtaCheckpoint): Commands.Command {
    var code := if ota.lastError == 0 then ErrorCode(INVALID_STATE) else ota.lastError;
    match ota.stage
    case OtaValid => Commands.Reconciled(c, Commands.Succeeded, 0, "ota_post_boot_valid")
    case OtaRolledBack => Commands.Reconciled(c, Commands.RolledBack, code, "ota_rolled_back")
    case OtaFailed => Commands.Reconciled(c, Commands.Failed, code, "ota_post_boot_failed")
    case OtaOther => Commands.Reconciled(c, Commands.Failed, code, "ota_outcome_unavailable")
  }

  /** An entry of the journal is left alone, any other is reconciled. */
  predicate DoneWith(r: Rotation, was: Commands.Command, now: Commands.Command, waits: bool,
                     ota: CommandRuntime.OtaCheckpoint) {
    if was.kind == ROTATE_CREDENTIALS && r.phase != NONE && (was.id == r.prepareId || was.id == r.commitId)
    then now == was && !waits
    else ReconciledAs(was, now, waits, ota)
  }

  /** The first `n` entries are dealt with, the others as they were. */
  predicate DoneUpTo(r: Rotation, found: seq<Commands.Command>, entries: seq<Commands.Command>, queue: seq<nat>,
                     ota: CommandRuntime.OtaCheckpoint, n: nat) {
    && |entries| == |found|
    && (forall i :: 0 <= i < |found| && i < n ==> DoneWith(r, found[i], entries[i], i in queue, ota))
    && forall i :: n <= i < |found| ==> entries[i] == found[i]
  }

  lemma OneMoreDone(r: Rotation, found: seq<Commands.Command>, before: seq<Commands.Command>, waiting: seq<nat>,
                    after: seq<Commands.Command>, queue: seq<nat>, ota: CommandRuntime.OtaCheckpoint, i: nat)
    requires DoneUpTo(r, found, before, waiting, ota, i) && i < |found| == |after| && after == before[i := after[i]]
    requires (queue == waiting || queue == waiting + [i]) && i !in waiting
    requires DoneWith(r, found[i], after[i], queue != waiting, ota)
    ensures DoneUpTo(r, found, after, queue, ota, i + 1)
  {
    forall j ensures j in queue <==> j in waiting || (j == i && queue != waiting) {
      if queue != waiting { assert queue[|waiting|] == i; }
    }
  }

  /** What becomes of an entry at a boot: as in the stateless runtime, but a failed installation is told apart. */
  predicate ReconciledAs(was: Commands.Command, now: Commands.Command, waits: bool, ota: CommandRuntime.OtaCheckpoint) {
    if ota.stage.OtaFailed? && CommandRuntime.Interrupted(was) && CommandRuntime.InstalledOver(was)
    then
      !waits && now == was.(state := Commands.Failed, text := "ota_post_boot_failed", evidence := "",
                            code := if ota.lastError == 0 then 0x103 else ota.lastError)
    else CommandRuntime.ReconciledAs(was, now, waits, ota)
  }

  /** What the boot action makes of an entry that it ends. */
  function Ended(c: Commands.Command, ota: CommandRuntime.OtaCheckpoint): Commands.Command {
    match Commands.BootActionOf(c)
    case CompleteReboot => Commands.Reconciled(c, Commands.Succeeded, 0, "reboot_observed")
    case FailInterrupted =>
      Commands.Reconciled(c, Commands.Failed, ErrorCode(INVALID_STATE), "interrupted_by_reboot")
    case ReconcileOta => OtaOutcome(c, ota)
    case _ => c
  }

  lemma EndedIsReconciled(c: Commands.Command, ota: CommandRuntime.OtaCheckpoint)
    requires Commands.CommandValid(c)
    ensures ReconciledAs(c, Ended(c, ota), Commands.BootActionOf(c).Requeue?, ota)
    ensures Commands.BootActionOf(c).Ignore? || Commands.BootActionOf(c).Requeue? ==> Ended(c, ota) == c
    ensures Commands.CommandValid(Ended(c, ota)) && Ended(c, ota).id == c.id && Ended(c, ota).key == c.key &&
            Ended(c, ota).kind == c.kind
  {
  }

  /** The change may be written, unless the generation of the ledger is exhausted. */
  predicate EntryMayChange(d: Durable, i: nat, c: Commands.Command) {
    d.ledger.generation == U32_MAX || EntryStep(d.ledger, Watched(Record(d)), i, c)
  }

  /** The same commands are in the same places, and only rotation commands with the given ids may have changed state. */
  predicate Touches(l: Commands.Ledger, l': Commands.Ledger, ids: set<string>) {
    |l'.entries| == |l.entries| &&
    forall j :: 0 <= j < |l.entries| ==>
      l'.entries[j].id == l.entries[j].id && l'.entries[j].kind == l.entries[j].kind &&
      (l.entries[j].kind != ROTATE_CREDENTIALS || l.entries[j].id !in ids ==> l'.entries[j].state == l.entries[j].state)
  }

  /** The command that a resume moves: the prepare command, or after the commit the commit command. */
  function Moved(r: Rotation): set<string> { if r.phase <= CONFIG_STAGED then {r.prepareId} else {r.commitId} }

  /** What waits for execution are distinct, unfinished entries, none of them the commit command in progress. */
  predicate QueueSound(l: Commands.Ledger, queue: seq<nat>, w: Watch) {
    && (forall k :: 0 <= k < |queue| ==>
          && queue[k] < |l.entries| && l.entries[queue[k]].id != ""
          && Unfinished(l.entries[queue[k]]) && !Is(l.entries[queue[k]], w))
    && (forall k, m :: 0 <= k < m < |queue| ==> queue[k] != queue[m])
  }

  /** No rotation command with one of these ids waits. */
  predicate NoneWaits(l: Commands.Ledger, queue: seq<nat>, ids: set<string>) {
    forall k :: 0 <= k < |queue| && queue[k] < |l.entries| && l.entries[queue[k]].kind == ROTATE_CREDENTIALS ==>
      l.entries[queue[k]].id !in ids
  }

  /** The journal depends on the command it depended on, on one of these, or on none. */
  predicate WatchMoves(w: Watch, w': Watch, ids: set<string>) {
    w'.Nobody? || w' == w || (w'.id in ids && w'.kind == ROTATE_CREDENTIALS)
  }

  /** An operation that only touches commands that do not wait leaves the queue sound. */
  lemma QueueKept(l: Commands.Ledger, l': Commands.Ledger, queue: seq<nat>, w: Watch, w': Watch, ids: set<string>)
    requires QueueSound(l, queue, w) && Touches(l, l', ids) && WatchMoves(w, w', ids) && NoneWaits(l, queue, ids)
    ensures QueueSound(l', queue, w')
  {
  }

  /** No result with this id is waiting to be acknowledged. */
  predicate Unpinned(l: Commands.Ledger, id: string) {
    forall i :: 0 <= i < |l.entries| && l.entries[i].id == id ==> !l.entries[i].ackRequired
  }

  /** The payload with this id, which holds the new secret, is gone from the ledger. */
  predicate Redacted(l: Commands.Ledger, id: string) {
    forall i :: 0 <= i < |l.entries| && l.entries[i].id == id ==> l.entries[i].redacted && l.entries[i].payload == ""
  }

  /** The prepare command with this id is in the ledger and not finished. */
  predicate Preparing(l: Commands.Ledger, id: string) {
    |id| == Commands.ID_MAX &&
    exists i :: 0 <= i < |l.entries| && l.entries[i].id == id && l.entries[i].kind == ROTATE_CREDENTIALS &&
                Unfinished(l.entries[i])
  }

  predicate Prepared(l: Commands.Ledger, id: string) {
    exists i :: 0 <= i < |l.entries| && l.entries[i].id == id && l.entries[i].state.Succeeded?
  }

  /** What is admitted takes an entry that nothing waits for, and is not the command the journal depends on. */
  lemma NotWaiting(
    l: Commands.Ledger, queue: seq<nat>, w: Watch, done: bool, incoming: Commands.Incoming, now: int, i: nat,
      l': Commands.Ledger)
    requires QueueSound(l, queue, w) && AcceptStep(l, incoming, now, i, l') && Keeps(l, w, done)
    ensures i !in queue && QueueSound(l', queue, w) && (now <= incoming.expires ==> QueueSound(l', queue + [i], w))
  {
    var k :| 0 <= k < Commands.SIZE && Commands.IsNextRecyclable(l, k) && i == Commands.Cyclic(l.next, k);
    assert Commands.RecyclableAt(l, k);
    assert Commands.Recyclable(l.entries[i]);
    if w.Watching? {
      var j :| 0 <= j < |l.entries| && Pinned(l.entries[j], w, done);
      assert !Commands.Matches(l.entries[j], incoming);
    }
  }

  /**
   What becomes of a queue when a prepare command is delivered again after its entry was evicted. It is admitted and
   waits; a resume finishes it without executing it; then another command takes its entry and waits there too. The
   same entry is then queued twice, so that command is executed twice.
   */
  lemma RedeliveredPrepareIsOvertaken(
    l: Commands.Ledger, prepare: Commands.Incoming, other: Commands.Incoming, now: int)
    returns (admitted: Commands.Ledger, resumed: Commands.Ledger, overtaken: Commands.Ledger)
    requires Sane(l) && l.next == 0 && l.entries[0] == Commands.EMPTY && l.generation + 3 <= U32_MAX
    requires forall j :: 1 <= j < Commands.SIZE ==> l.entries[j].id != "" && Unfinished(l.entries[j])
    requires forall j :: 0 <= j < Commands.SIZE ==>
               !Commands.Matches(l.entries[j], prepare) && !Commands.Matches(l.entries[j], other)
    requires Commands.WellFormed(prepare) && Commands.WellFormed(other) && prepare.kind == ROTATE_CREDENTIALS
    requires prepare.id != other.id && prepare.key != other.key && now <= prepare.expires && now <= other.expires
    ensures AcceptStep(l, prepare, now, 0, admitted) && QueueSound(admitted, [0], Nobody)
    ensures var c := Commands.Transitioned(admitted.entries[0], Commands.Succeeded, 100, 0);
            EntryStep(admitted, Nobody, 0, c) && resumed == Commands.Bumped(Commands.Changed(admitted, 0, c))
    ensures !QueueSound(resumed, [0], Nobody) && AcceptStep(resumed, other, now, 0, overtaken)
    ensures overtaken.entries[0].id == other.id && !QueueSound(overtaken, [0] + [0], Nobody)
  {
    admitted := Commands.Bumped(Commands.Placed(l, 0, Commands.Admitted(prepare, now)));
    FirstIsNext(l);
    var c := Commands.Transitioned(admitted.entries[0], Commands.Succeeded, 100, 0);
    resumed := Commands.Bumped(Commands.Changed(admitted, 0, c));
    overtaken := Commands.Bumped(Commands.Placed(resumed, 0, Commands.Admitted(other, now)));
    Commands.PlacedIsSound(l, 0, prepare, now);
    Commands.ChangedIsSound(admitted, 0, c);
    LastIsNext(resumed);
    assert ([0] + [0])[0] == ([0] + [0])[1];
  }

  lemma FirstIsNext(l: Commands.Ledger)
    requires Commands.LedgerValid(l) && l.next == 0 && Commands.Recyclable(l.entries[0])
    ensures Commands.IsNextRecyclable(l, 0) && Commands.Cyclic(l.next, 0) == 0
  {
  }

  /** Going once around from entry 1, only entry 0 can be recycled. */
  lemma LastIsNext(l: Commands.Ledger)
    requires Commands.LedgerValid(l) && l.next == 1 && Commands.Recyclable(l.entries[0])
    requires forall j :: 1 <= j < Commands.SIZE ==> !Commands.Recyclable(l.entries[j])
    ensures Commands.IsNextRecyclable(l, 7) && Commands.Cyclic(l.next, 7) == 0
  {
  }

  class Device {
    const reliable: bool
    var journal: Journal
    var config: Nvs
    var ledger: Commands.Ledger
    var on: bool
    var record: Rotation
    var current: Config
    var redactionRetry: bool
    var queue: seq<nat>
    ghost var base: Config
    ghost var trace: seq<Durable>

    ghost function D(): Durable
      reads this
    {
      Durable(journal, config, ledger, base)
    }

    /** Everything that was ever durable is a run of the protocol. */
    ghost predicate Durably()
      reads this
    {
      Reaches(trace, D()) && Safe(D())
    }

    /** Memory agrees with what would be loaded. */
    ghost predicate Booted()
      reads this
    {
      on && record == Record(D()) && Booting(D()) == Some(current)
    }

    /** A resume at this time will finish a prepare command that waits to be executed. */
    ghost predicate Disturbs(now: Option<int>)
      reads this
    {
      && CANDIDATE_PERSISTED <= record.phase <= CONFIG_STAGED && now.Some? && now.value <= record.expires
      && !NoneWaits(ledger, queue, {record.prepareId})
    }

    ghost predicate Queued()
      reads this
    {
      QueueSound(ledger, queue, Watched(record))
    }

    constructor (config: Nvs, ledger: Commands.Ledger, ghost base: Config, reliable: bool)
      requires Initial(Durable(EMPTY_JOURNAL, config, ledger, base))
      ensures Durably() && !on && D() == Durable(EMPTY_JOURNAL, config, ledger, base) && this.reliable == reliable
    {
      journal, this.config, this.ledger, this.base := EMPTY_JOURNAL, config, ledger, base;
      this.reliable, on, record, redactionRetry, current, queue := reliable, false, NO_ROTATION, false, *, [];
      trace := [Durable(EMPTY_JOURNAL, config, ledger, base)];
    }

    /* ---- Single NVS writes ---- */

    ghost method Note()
      requires Reaches(trace + [D()], D()) && Safe(D())
      modifies this`trace
      ensures Durably() && trace == old(trace) + [D()]
    {
      trace := trace + [D()];
    }

    method PutRecord(r: Rotation) returns (o: Outcome)
      requires Durably() && on && Follows(D(), r)
      modifies this`journal, this`on, this`trace
      ensures Durably() && old(trace) <= trace && (reliable ==> o.Ok())
      ensures if o.Ok() then on && D() == Persisted(old(D()), r)
              else o.PowerCut? && (D() == old(D()) || D() == Persisted(old(D()), r))
    {
      PersistExtends(trace, D(), r);
      var s := Power(reliable);
      on := s.Alive?;
      if !s.CutBefore? {
        journal := WithRecord(journal, r);
        Note();
      }
      o := if s.Alive? then Returned(OK) else PowerCut;
    }

    /** Fills or erases the inactive configuration slot. */
    method PutInactive(blob: Blob) returns (o: Outcome)
      requires Durably() && on
      requires record == Record(D()) && MayFill(D(), blob)
      modifies this`config, this`on, this`trace
      ensures Durably() && old(trace) <= trace && (reliable ==> o.Ok()) && Record(D()) == record
      ensures config.active == old(config).active
      ensures if o.Ok() then on && D() == Filled(old(D()), blob) else o.PowerCut?
    {
      FillIsSafe(D(), blob);
      FillExtends(trace, D(), blob);
      var s := Power(reliable);
      on := s.Alive?;
      if !s.CutBefore? {
        config := With(config, Other(config.active.value), blob);
        Note();
      }
      o := if s.Alive? then Returned(OK) else PowerCut;
    }

    method PutSelector() returns (o: Outcome)
      requires Durably() && on && record == Record(D()) && MaySwitch(D())
      modifies this`config, this`on, this`trace
      ensures Durably() && old(trace) <= trace && (reliable ==> o.Ok())
      ensures if o.Ok() then on && D() == Switched(old(D())) && Booting(D()) == Some(Candidate(base, record))
              else o.PowerCut?
    {
      SwitchExtends(trace, D());
      var s := Power(reliable);
      on := s.Alive?;
      if !s.CutBefore? {
        config := config.(active := Some(record.slot));
        Note();
      }
      o := if s.Alive? then Returned(OK) else PowerCut;
    }

    method PutLedger(l: Commands.Ledger) returns (o: Outcome)
      requires Durably() && on && LedgerStep(ledger, Watched(Record(D())), l)
      modifies this`ledger, this`on, this`trace
      ensures Durably() && old(trace) <= trace && (reliable ==> o.Ok())
      ensures if o.Ok() then on && ledger == l else o.PowerCut? && (ledger == l || ledger == old(ledger))
    {
      LedgerExtends(trace, D(), l);
      var s := Power(reliable);
      on := s.Alive?;
      if !s.CutBefore? {
        ledger := l;
        Note();
      }
      o := if s.Alive? then Returned(OK) else PowerCut;
    }

    method EraseKeyA() returns (o: Outcome)
      requires Durably() && on && MayErase(D())
      modifies this`journal, this`on, this`trace, this`base
      ensures Durably() && old(trace) <= trace && (reliable ==> o.Ok())
      ensures Record(D()) == old(Record(D())) || Record(D()) == NO_ROTATION
      ensures if o.Ok() then on && journal.a.None? else o.PowerCut?
    {
      EraseAIsSafe(D());
      EraseAExtends(trace, D());
      var s := Power(reliable);
      on := s.Alive?;
      if !s.CutBefore? {
        base := Erased(D(), journal.(a := None)).base;
        journal := journal.(a := None);
        Note();
      }
      o := if s.Alive? then Returned(OK) else PowerCut;
    }

    method EraseKeyB() returns (o: Outcome)
      requires Durably() && on && journal.a.None? && MayErase(D())
      modifies this`journal, this`on, this`trace, this`base
      ensures Durably() && old(trace) <= trace && (reliable ==> o.Ok())
      ensures Record(D()) == old(Record(D())) || Record(D()) == NO_ROTATION
      ensures if o.Ok() then on && journal == EMPTY_JOURNAL else o.PowerCut?
    {
      EraseBIsSafe(D());
      EraseBExtends(trace, D());
      var s := Power(reliable);
      on := s.Alive?;
      if !s.CutBefore? {
        base := Erased(D(), journal.(b := None)).base;
        journal := journal.(b := None);
        Note();
      }
      o := if s.Alive? then Returned(OK) else PowerCut;
    }

    /* ---- The journal ---- */

    /** `rotation_state_persist`. */
    method StatePersist(candidate: Rotation) returns (o: Outcome)
      requires Durably() && Booted()
      requires PersistError(Numbered(candidate, record.generation)) == OK ==>
                 Follows(D(), Numbered(candidate, record.generation))
      modifies this`journal, this`on, this`trace, this`record
      ensures Durably() && old(trace) <= trace && (o.Returned? ==> Booted())
      ensures var r := Numbered(candidate, old(record).generation);
              && (o.Ok() ==> PersistError(r) == OK && record == r && D() == Persisted(old(D()), r))
              && (o.Returned? && !o.Ok() ==> o.err == PersistError(r) && record == old(record) && D() == old(D()))
              && (o.PowerCut? ==> D() == old(D()) || (PersistError(r) == OK && D() == Persisted(old(D()), r)))
              && (reliable ==> o == Returned(PersistError(r)))
    {
      var r := Numbered(candidate, record.generation);
      o := Returned(PersistError(r));
      if o.Ok() {
        o := PutRecord(r);
        if o.Ok() {
          PersistIsSafe(old(D()), r);
          record := r;
        }
      }
    }

    /** `rotation_state_erase_persisted`: key A, then key B. */
    method ErasePersisted() returns (o: Outcome)
      requires Durably() && on && MayErase(D())
      modifies this`journal, this`on, this`trace, this`base
      ensures Durably() && old(trace) <= trace && (reliable ==> o.Ok())
      ensures Record(D()) == old(Record(D())) || Record(D()) == NO_ROTATION
      ensures if o.Ok() then on && journal == EMPTY_JOURNAL else o.PowerCut?
    {
      o := EraseKeyA();
      if o.Ok() { o := EraseKeyB(); }
    }

    /* ---- The ledger ---- */

    /** The end of every ledger operation: the changed entry is written unless the generation is exhausted. */
    method ChangeEntry(i: nat, c: Commands.Command) returns (o: Outcome)
      requires Durably() && on && i < Commands.SIZE && EntryMayChange(D(), i, c)
      modifies this`ledger, this`on, this`trace
      ensures c.state == old(ledger.entries[i].state) ==> Touches(old(ledger), ledger, {})
      ensures old(ledger.entries[i].kind) == ROTATE_CREDENTIALS ==>
                Touches(old(ledger), ledger, {old(ledger.entries[i].id)})
      ensures Durably() && old(trace) <= trace
      ensures o.Returned? ==> on
      ensures o.Ok() ==>
                old(ledger.generation) < U32_MAX && ledger == Commands.Bumped(Commands.Changed(old(ledger), i, c))
      ensures o.Returned? && !o.Ok() ==> ledger == old(ledger)
      ensures reliable && old(ledger.generation) < U32_MAX ==> o.Ok()
    {
      o := Resource(reliable);
      if o.Ok() {
        if ledger.generation == U32_MAX { return Returned(INVALID_STATE); }
        assert EntryStep(ledger, Watched(Record(D())), i, c);
        o := PutLedger(Commands.Bumped(Commands.Changed(ledger, i, c)));
      }
    }

    /** `command_transition_locked`. */
    method Transition(i: nat, state: Commands.State, progress: nat, code: int) returns (o: Outcome)
      requires Durably() && Booted() && i < Commands.SIZE && ledger.entries[i].id != ""
      requires !Commands.Final(ledger.entries[i].state) || state == ledger.entries[i].state ==>
                 progress > 100 ||
                 EntryMayChange(D(), i, Commands.Transitioned(ledger.entries[i], state, progress, code))
      modifies this`ledger, this`on, this`trace
      ensures Touches(old(ledger), ledger, {old(ledger.entries[i].id)}) ||
              old(ledger.entries[i].kind) != ROTATE_CREDENTIALS
      ensures Durably() && old(trace) <= trace && (o.Returned? ==> Booted())
      ensures o.Ok() ==> old(ledger.generation) < U32_MAX &&
                         var c := Commands.Transitioned(old(ledger.entries[i]), state, progress, code);
                         ledger == Commands.Bumped(Commands.Changed(old(ledger), i, c))
      ensures o.Returned? && !o.Ok() ==> ledger == old(ledger)
      ensures reliable && old(ledger.generation) < U32_MAX && old(ledger.entries)[i].progress <= progress <= 100 &&
              !Commands.Final(old(ledger.entries)[i].state) ==>
                o.Ok()
    {
      var c := ledger.entries[i];
      if progress > 100 || progress < c.progress { return Returned(INVALID_ARG); }
      if Commands.Final(c.state) && state != c.state { return Returned(INVALID_STATE); }
      o := ChangeEntry(i, Commands.Transitioned(c, state, progress, code));
    }

    /** Whatever the rest of the firmware does to an entry that the journal does not own and that is not waiting. */
    method ChangeOther(i: nat, c: Commands.Command) returns (o: Outcome)
      requires Durably() && Booted() && Queued() && i < Commands.SIZE && !Owned(ledger.entries[i], record) &&
               i !in queue
      requires ledger.entries[i].id != "" && Commands.CommandValid(c) && c.id == ledger.entries[i].id &&
               c.key == ledger.entries[i].key && c.kind == ledger.entries[i].kind
      modifies this`ledger, this`on, this`trace
      ensures Durably() && old(trace) <= trace && (o.Returned? ==> Booted() && Queued())
      ensures o.Ok() ==> ledger.entries == old(ledger.entries)[i := c]
      ensures o.Returned? && !o.Ok() ==> ledger == old(ledger)
    {
      o := ChangeEntry(i, c);
    }

    /** A new command is admitted to the ledger, as `CommandLedger.Store.Accept` does it, and queued unless expired. */
    method AcceptCommand(incoming: Commands.Incoming, now: int, i: nat, l': Commands.Ledger) returns (o: Outcome)
      requires Durably() && Booted() && Queued() && AcceptStep(ledger, incoming, now, i, l')
      modifies this`ledger, this`on, this`trace, this`queue
      ensures Durably() && old(trace) <= trace && (o.Returned? ==> Booted() && Queued())
      ensures o.Ok() ==> ledger == l' && queue == if now <= incoming.expires then old(queue) + [i] else old(queue)
    {
      NotWaiting(ledger, queue, Watched(record), record.phase == RESULT_DURABLE, incoming, now, i, l');
      o := PutLedger(l');
      if o.Ok() && now <= incoming.expires { queue := queue + [i]; }
    }

    /* ---- The protocol ---- */

    /** `rotation_clear_prepared`: refused from COMMIT_INTENT on; otherwise it never leaves the candidate behind. */
    method ClearPrepared() returns (o: Outcome)
      requires Durably() && Booted()
      modifies this
      ensures queue == old(queue)
      ensures Durably() && old(trace) <= trace && (o.Returned? ==> Booted())
      ensures old(record).phase >= COMMIT_INTENT ==>
                o == Returned(INVALID_STATE) && D() == old(D()) && record == old(record)
      ensures Record(D()) == old(Record(D())) || Record(D()) == NO_ROTATION
      ensures o.Ok() ==> record == NO_ROTATION && current == old(current)
      ensures Record(D()) == NO_ROTATION && old(record).phase == CONFIG_STAGED ==> At(config, old(record).slot).Missing?
      ensures o.Ok() && old(record).phase == CANDIDATE_PERSISTED ==>
                var blob := At(config, Other(config.active.value));
                blob.Missing? || (blob.Stored? && blob.c.generation != old(record).candidateGeneration)
      ensures old(record).phase == CANDIDATE_PERSISTED ==>
                var blob := At(old(config), Other(old(config).active.value));
                blob.Stored? && blob.c.generation != old(record).candidateGeneration ==> config == old(config)
      ensures reliable && old(record).phase == CONFIG_STAGED ==> o.Ok()
      ensures config.active == old(config).active
      ensures ledger == old(ledger)
      ensures o.Returned? && !o.Ok() ==> record == old(record)
    {
      if record.phase >= COMMIT_INTENT { return Returned(INVALID_STATE); }
      o := Returned(OK);
      if record.phase != NONE {
        o := Discard(if record.phase == CONFIG_STAGED then record.slot else Other(config.active.value));
      }
      if o.Ok() {
        o := ErasePersisted();
        if o.Ok() { record := NO_ROTATION; }
      }
    }

    /**
     `pm_config_discard_staged` and, while the slot is not recorded, `pm_config_discard_inactive_generation`,
     which leaves a configuration of another generation alone.
     */
    method Discard(slot: U8) returns (o: Outcome)
      requires Durably() && Booted() && CANDIDATE_PERSISTED <= record.phase <= CONFIG_STAGED
      requires slot == if record.phase == CONFIG_STAGED then record.slot else Other(config.active.value)
      modifies this`config, this`on, this`trace
      ensures Durably() && old(trace) <= trace && (o.Returned? ==> Booted()) && Record(D()) == record
      ensures o.Ok() && record.phase == CONFIG_STAGED ==> At(config, slot).Missing?
      ensures o.Ok() ==>
                At(config, slot).Missing? ||
                (At(config, slot).Stored? && At(config, slot).c.generation != record.candidateGeneration)
      ensures config.active == old(config).active
      ensures At(old(config), slot).Stored? && At(old(config), slot).c.generation != record.candidateGeneration ==>
                config == old(config)
      ensures reliable && record.phase == CONFIG_STAGED ==> o.Ok()
    {
      o := Resource(reliable);
      if o.Ok() {
        var err := DiscardError(config, slot, record.candidateGeneration);
        if record.phase == CANDIDATE_PERSISTED && err == INVALID_STATE { return; }
        o := Returned(err);
        if err == OK && !At(config, slot).Missing? { o := PutInactive(Missing); }
      }
    }

    /** `rotation_stage_candidate`. */
    method StageCandidate() returns (o: Outcome)
      requires Durably() && Booted() && record.phase == CANDIDATE_PERSISTED
      modifies this`config, this`on, this`trace, this`journal, this`record
      ensures Durably() && old(trace) <= trace && (o.Returned? ==> Booted())
      ensures o.Ok() ==>
                && record.phase == CONFIG_STAGED && config.active.Some? && record.slot == Other(config.active.value)
                && record.candidateGeneration == current.generation + 1
                && At(config, record.slot) ==
                   Stored(current.(generation := record.candidateGeneration, secret := record.fingerprint,
                                   secretLength := 32))
      ensures Phase(D()) <= CONFIG_STAGED && (reliable ==> o.Ok()) && (o.Ok() ==> SameRotation(old(record), record))
      ensures o.Returned? && !o.Ok() ==> record == old(record)
    {
      o := Resource(reliable);
      if o.Ok() {
        var candidate :=
          current.(generation := record.candidateGeneration, secret := record.secret, secretLength := SECRET_SIZE);
        var slot := Other(config.active.value);
        o := PutInactive(Stored(candidate));
        if o.Ok() { o := StatePersist(record.(phase := CONFIG_STAGED, slot := slot)); }
      }
    }

    /** `rotation_persist_prepare_result`. */
    method PersistPrepareResult() returns (o: Outcome)
      requires Durably() && Booted() && record.phase == CONFIG_STAGED
      modifies this`ledger, this`on, this`trace
      ensures Touches(old(ledger), ledger, {record.prepareId})
      ensures Durably() && old(trace) <= trace && (o.Returned? ==> Booted())
      ensures o.Ok() ==> Prepared(ledger, record.prepareId)
      ensures o.Ok() && old(Redacted(ledger, record.prepareId)) ==> Redacted(ledger, record.prepareId)
      ensures reliable && old(ledger.generation) < U32_MAX && old(Preparing(ledger, record.prepareId)) ==> o.Ok()
    {
      var i := Commands.FindCommand(ledger, record.prepareId);
      if i == Commands.SIZE || ledger.entries[i].kind != ROTATE_CREDENTIALS { return Returned(NOT_FOUND); }
      if ledger.entries[i].state.Succeeded? { return Returned(OK); }
      if !Unfinished(ledger.entries[i]) { return Returned(INVALID_STATE); }
      o := Transition(i, Commands.Succeeded, 100, 0);
      assert o.Ok() ==> ledger.entries[i].id == record.prepareId && ledger.entries[i].state.Succeeded?;
    }

    /** `rotation_activate_candidate`: the candidate is read back before and after the selector is switched to it. */
    method ActivateCandidate() returns (o: Outcome)
      requires Durably() && Booted() && record.phase == COMMIT_INTENT
      modifies this`config, this`on, this`trace, this`journal, this`record, this`current
      ensures Durably() && old(trace) <= trace && (o.Returned? ==> Booted())
      ensures o.Ok() ==>
                record.phase == CONFIG_ACTIVATED && SameRotation(old(record), record) &&
                record.prepareId == old(record).prepareId && record.commitId == old(record).commitId
      ensures o.Ok() ==>
                current == base.(generation := record.candidateGeneration, secret := record.fingerprint,
                                 secretLength := 32)
      ensures reliable ==> o.Ok()
      ensures o.Returned? && !o.Ok() ==> record == old(record)
    {
      o := SwitchToCandidate();
      if o.Ok() { o := Resource(reliable); }
      if o.Ok() { o := StatePersist(record.(phase := CONFIG_ACTIVATED)); }
    }

    method SwitchToCandidate() returns (o: Outcome)
      requires Durably() && Booted() && record.phase == COMMIT_INTENT
      modifies this`config, this`on, this`trace, this`current
      ensures Durably() && old(trace) <= trace && (o.Returned? ==> Booted())
      ensures o.Ok() ==> config.active == Some(record.slot) && current == Candidate(base, record)
      ensures reliable ==> o.Ok()
    {
      o := Resource(reliable);
      if o.Ok() {
        o := Returned(StagedError(config, record.slot, record.candidateGeneration, record.fingerprint));
      }
      if o.Ok() && config.active != Some(record.slot) { o := PutSelector(); }
      if o.Ok() { current := At(config, record.slot).c; }
    }

    /** `rotation_persist_commit_result`: the result is pinned in the ledger before the phase moves on. */
    method PersistCommitResult() returns (o: Outcome)
      requires Durably() && Booted() && record.phase == CONFIG_ACTIVATED
      modifies this`ledger, this`on, this`trace, this`journal, this`record
      ensures Touches(old(ledger), ledger, {old(record).commitId})
      ensures Durably() && old(trace) <= trace && (o.Returned? ==> Booted())
      ensures o.Ok() ==>
                record.phase == RESULT_DURABLE && SameRotation(old(record), record) &&
                record.prepareId == old(record).prepareId && record.commitId == old(record).commitId
      ensures reliable && old(ledger.generation) < U32_MAX ==> o.Ok()
      ensures o.Returned? && !o.Ok() ==> record == old(record)
    {
      var i := FindCommit();
      o := Returned(OK);
      if !ledger.entries[i].state.Succeeded? {
        o := ChangeEntry(i, Commands.Transitioned(ledger.entries[i].(ackRequired := true), Commands.Succeeded, 100, 0));
      }
      if o.Ok() {
        assert Is(ledger.entries[i], Watched(record)) && ledger.entries[i].state.Succeeded?;
        o := StatePersist(record.(phase := RESULT_DURABLE));
      }
    }

    /** The commit command is always found, and unfinished or finished: it was never evicted. */
    method FindCommit() returns (i: nat)
      requires Durably() && Booted() && COMMIT_INTENT <= record.phase <= RESULT_DURABLE
      ensures i < Commands.SIZE && Pinned(ledger.entries[i], Watched(record), record.phase == RESULT_DURABLE)
    {
      i := Commands.FindCommand(ledger, record.commitId);
      ghost var j :| 0 <= j < Commands.SIZE &&
        Pinned(ledger.entries[j], Watched(record), record.phase == RESULT_DURABLE);
      assert i <= j && ledger.entries[i].id == ledger.entries[j].id;
    }

    /** `resume_rotation_transaction`. From COMMIT_INTENT on, a resume that is not cut short reaches RESULT_DURABLE. */
    method Resume(now: Option<int>) returns (o: Outcome)
      requires Durably() && Booted()
      modifies this
      ensures Touches(old(ledger), ledger, Moved(old(record))) && queue == old(queue)
      ensures o.Returned? ==> WatchMoves(old(Watched(record)), Watched(record), Moved(old(record)))
      ensures old(Queued()) && o.Returned? && !old(Disturbs(now)) ==> Queued()
      ensures old(Queued()) && o.Ok() ==> (Queued() <==> !old(Disturbs(now)))
      ensures Durably() && old(trace) <= trace && (o.Returned? ==> Booted())
      ensures COMMIT_INTENT <= old(record).phase <= CONFIG_ACTIVATED && o.Ok() ==> record.phase == RESULT_DURABLE
      ensures COMMIT_INTENT <= old(record).phase <= CONFIG_ACTIVATED && reliable && old(ledger.generation) < U32_MAX ==>
                o.Ok()
      ensures old(record).phase == NONE || old(record).phase >= RESULT_DURABLE ==> o.Ok() && D() == old(D())
      ensures old(record).phase <= CONFIG_STAGED ==> Phase(D()) <= CONFIG_STAGED
      ensures o.Returned? && old(record).phase <= CONFIG_STAGED ==> record.phase <= CONFIG_STAGED
      ensures o.Returned? && record.phase >= COMMIT_INTENT ==> record.commitId == old(record).commitId
    {
      if CANDIDATE_PERSISTED <= record.phase <= CONFIG_STAGED {
        o := ResumePrepare(now);
      } else {
        o := ResumeCommit();
      }
      if old(Queued()) && o.Returned? && !old(Disturbs(now)) && D() != old(D()) {
        QueueKept(old(ledger), ledger, queue, old(Watched(record)), Watched(record), Moved(old(record)));
      }
    }

    /** The first half: until the commit, and only with a trusted time before the expiry. */
    method ResumePrepare(now: Option<int>) returns (o: Outcome)
      requires Durably() && Booted() && CANDIDATE_PERSISTED <= record.phase <= CONFIG_STAGED
      modifies this
      ensures Touches(old(ledger), ledger, {old(record).prepareId}) && queue == old(queue)
      ensures o.Returned? ==> WatchMoves(old(Watched(record)), Watched(record), {old(record).prepareId})
      ensures Durably() && old(trace) <= trace && (o.Returned? ==> Booted())
      ensures Phase(D()) <= CONFIG_STAGED
      ensures now.None? || now.value > old(record).expires ==> o.Ok() && D() == old(D())
      ensures o.Ok() && now.Some? && now.value <= old(record).expires ==>
                record.phase == CONFIG_STAGED && SameRotation(old(record), record) &&
                Prepared(ledger, record.prepareId) && Redacted(ledger, record.prepareId)
      ensures reliable && old(ledger.generation) <= U32_MAX - 2 && old(Preparing(ledger, record.prepareId)) ==> o.Ok()
    {
      if now.None? || now.value > record.expires { return Returned(OK); }
      o := RedactPrepare();
      if o.Ok() && record.phase == CANDIDATE_PERSISTED { o := StageCandidate(); }
      if o.Ok() { o := PersistPrepareResult(); }
    }

    /** `command_zeroize_payload_locked` on the prepare command. */
    method RedactPrepare() returns (o: Outcome)
      requires Durably() && Booted() && CANDIDATE_PERSISTED <= record.phase <= CONFIG_STAGED
      modifies this`ledger, this`on, this`trace, this`redactionRetry
      ensures Touches(old(ledger), ledger, {record.prepareId})
      ensures Durably() && old(trace) <= trace && (o.Returned? ==> Booted())
      ensures o.Ok() ==> Redacted(ledger, record.prepareId)
      ensures old(Preparing(ledger, record.prepareId)) ==> Preparing(ledger, record.prepareId)
      ensures reliable && old(ledger.generation) < U32_MAX && old(Preparing(ledger, record.prepareId)) ==> o.Ok()
      ensures o.Ok() ==> ledger.generation <= old(ledger.generation) + 1
    {
      var i := Commands.FindCommand(ledger, record.prepareId);
      if i == Commands.SIZE { return Returned(NOT_FOUND); }
      o := Returned(OK);
      if !ledger.entries[i].redacted || redactionRetry {
        o := ChangeEntry(i, ledger.entries[i].(payload := "", redacted := true));
        redactionRetry := !o.Ok();
      }
    }

    /** The second half. */
    method ResumeCommit() returns (o: Outcome)
      requires Durably() && Booted() && (record.phase == NONE || record.phase >= COMMIT_INTENT)
      modifies this
      ensures Touches(old(ledger), ledger, {old(record).commitId}) && queue == old(queue)
      ensures o.Returned? ==> WatchMoves(old(Watched(record)), Watched(record), {old(record).commitId})
      ensures Durably() && old(trace) <= trace && (o.Returned? ==> Booted())
      ensures COMMIT_INTENT <= old(record).phase <= CONFIG_ACTIVATED && o.Ok() ==> record.phase == RESULT_DURABLE
      ensures COMMIT_INTENT <= old(record).phase <= CONFIG_ACTIVATED && reliable && old(ledger.generation) < U32_MAX ==>
                o.Ok()
      ensures old(record).phase == NONE || old(record).phase >= RESULT_DURABLE ==>
                o.Ok() && D() == old(D()) && record == old(record)
      ensures o.Returned? ==> record.commitId == old(record).commitId
      ensures base == old(base) && (o.Ok() && old(record).phase != NONE ==> SameRotation(old(record), record))
    {
      o := Returned(OK);
      if record.phase == COMMIT_INTENT { o := ActivateCandidate(); }
      if o.Ok() && record.phase == CONFIG_ACTIVATED { o := PersistCommitResult(); }
    }

    /** `rotation_expire_if_needed`. */
    method ExpireIfNeeded(now: Option<int>) returns (o: Outcome)
      requires Durably() && Booted()
      modifies this
      ensures Touches(old(ledger), ledger, {}) && queue == old(queue)
      ensures o.Returned? ==> WatchMoves(old(Watched(record)), Watched(record), {})
      ensures old(Queued()) && o.Returned? ==> Queued()
      ensures Durably() && old(trace) <= trace && (o.Returned? ==> Booted())
      ensures old(record).phase >= COMMIT_INTENT ==> o.Ok() && D() == old(D()) && record == old(record)
      ensures now.None? || now.value <= old(record).expires ==> D() == old(D()) && record == old(record) && o.Ok()
      ensures o.Ok() && now.Some? && now.value > old(record).expires && old(record).phase < COMMIT_INTENT ==>
                record == NO_ROTATION
      ensures ledger == old(ledger)
    {
      o := Returned(OK);
      if CANDIDATE_PERSISTED <= record.phase < COMMIT_INTENT && now.Some? && now.value > record.expires {
        o := ClearPrepared();
      }
      if old(Queued()) && o.Returned? {
        QueueKept(old(ledger), ledger, queue, old(Watched(record)), Watched(record), {});
      }
    }

    /** `rotation_cleanup_acknowledged`. */
    method CleanupAcknowledged() returns (o: Outcome)
      requires Durably() && Booted() && record.phase == RESULT_ACKNOWLEDGED
      modifies this
      ensures Touches(old(ledger), ledger, {}) && queue == old(queue)
      ensures o.Returned? ==> WatchMoves(old(Watched(record)), Watched(record), {})
      ensures Durably() && old(trace) <= trace && (o.Returned? ==> Booted())
      ensures o.Ok() ==> record == NO_ROTATION && current == old(current)
      ensures Record(D()) == old(record) || Record(D()) == NO_ROTATION
      ensures Record(D()) == NO_ROTATION ==>
                Unpinned(ledger, old(record).commitId) && At(config, Other(config.active.value)).Missing?
    {
      o := AcknowledgeResult();
      if o.Ok() { o := PutInactive(Missing); }
      if o.Ok() {
        o := ErasePersisted();
        if o.Ok() { record := NO_ROTATION; }
      }
    }

    /** `pm_command_acknowledge_result` on the commit command, which may have been evicted since. */
    method AcknowledgeResult() returns (o: Outcome)
      requires Durably() && Booted() && record.phase == RESULT_ACKNOWLEDGED
      modifies this`ledger, this`on, this`trace
      ensures Touches(old(ledger), ledger, {})
      ensures Durably() && old(trace) <= trace && (o.Returned? ==> Booted())
      ensures o.Ok() ==> Unpinned(ledger, record.commitId)
    {
      var i := Commands.FindCommand(ledger, record.commitId);
      if i == Commands.SIZE { return Returned(OK); }
      if !ledger.entries[i].state.Succeeded? { return Returned(INVALID_STATE); }
      o := Returned(OK);
      if ledger.entries[i].ackRequired { o := ChangeEntry(i, ledger.entries[i].(ackRequired := false)); }
    }

    /** The server has acknowledged the result of command `id`. */
    method ResultAcknowledged(id: string) returns (o: Outcome)
      requires Durably() && Booted()
      modifies this
      ensures Touches(old(ledger), ledger, {}) && queue == old(queue)
      ensures o.Returned? ==> WatchMoves(old(Watched(record)), Watched(record), {})
      ensures old(Queued()) && o.Returned? ==> Queued()
      ensures Durably() && old(trace) <= trace && (o.Returned? ==> Booted())
      ensures old(record).phase != RESULT_DURABLE || id != old(record).commitId ==>
                o.Ok() && D() == old(D()) && record == old(record)
      ensures o.Ok() && old(record).phase == RESULT_DURABLE && id == old(record).commitId ==> record == NO_ROTATION
    {
      o := Returned(OK);
      if record.phase == RESULT_DURABLE && id == record.commitId {
        o := StatePersist(record.(phase := RESULT_ACKNOWLEDGED));
        if o.Ok() { o := CleanupAcknowledged(); }
      }
      if old(Queued()) && o.Returned? {
        QueueKept(old(ledger), ledger, queue, old(Watched(record)), Watched(record), {});
      }
    }

    /** What is loaded at boot, before anything is decided. */
    method BootLoad() returns (o: Outcome)
      requires Durably()
      modifies this
      ensures queue == []
      ensures Durably() && old(trace) <= trace && (o.Returned? ==> Booted()) && ledger == old(ledger)
      ensures Record(D()) == old(Record(D())) && (o.Ok() || o.PowerCut?) && (reliable ==> o.Ok())
    {
      on, redactionRetry, queue := true, false, [];
      current := At(config, config.active.value).c;
      record := Loaded(journal);
      o := Returned(OK);
      if record.phase == NONE {
        o := ErasePersisted();
      }
    }

    /** The rotation's part of `app_main`: a boot that is not cut short completes a durable commit intent. */
    method Boot(now: Option<int>) returns (o: Outcome)
      requires Durably()
      modifies this
      ensures o.Returned? ==> Queued() && queue == []
      ensures Durably() && old(trace) <= trace && (o.Returned? ==> Booted())
      ensures COMMIT_INTENT <= old(Phase(D())) <= CONFIG_ACTIVATED && o.Ok() ==> record.phase == RESULT_DURABLE
      ensures COMMIT_INTENT <= old(Phase(D())) <= CONFIG_ACTIVATED && reliable && old(ledger.generation) < U32_MAX ==>
                o.Ok()
      ensures o.Ok() && old(Phase(D())) == RESULT_ACKNOWLEDGED ==> record == NO_ROTATION
    {
      o := BootLoad();
      if o.Ok() { o := ExpireIfNeeded(now); }
      if o.Ok() {
        if record.phase == RESULT_ACKNOWLEDGED {
          o := CleanupAcknowledged();
        } else if record.phase != RESULT_DURABLE {
          o := Resume(now);
        }
      }
    }

    /* ---- Commands ---- */

    /** `credential_rotation_prepare`; `otherIdle` says that no destructive command is prepared or under way. */
    method PrepareRotation(i: nat, p: PrepareRequest, now: Option<int>, otherIdle: bool)
      returns (o: Outcome, pending: bool)
      requires Durably() && Booted() && i < Commands.SIZE
      modifies this
      ensures Touches(old(ledger), ledger, {old(ledger.entries[i].id)}) && queue == old(queue)
      ensures o.Returned? ==> WatchMoves(old(Watched(record)), Watched(record), {old(ledger.entries[i].id)})
      ensures Durably() && old(trace) <= trace && (o.Returned? ==> Booted())
      ensures o.Ok() || pending || record != old(record) || D() != old(D()) ==>
                && CanonicalUuid(p.rotationId) && p.secret == p.fingerprint
                && now.Some? && now.value <= old(ledger.entries)[i].expires && now.value < p.expires
                && old(record).phase == NONE && otherIdle && old(current).generation < U32_MAX
      ensures !CanonicalUuid(p.rotationId) ==> o == Returned(INVALID_ARG)
      ensures CanonicalUuid(p.rotationId) && now.None? ==> o == Returned(INVALID_STATE)
      ensures CanonicalUuid(p.rotationId) && now.Some? ==>
                var late := now.value > old(ledger.entries)[i].expires || now.value >= p.expires;
                var busy := old(record).phase != NONE || !otherIdle || old(current).generation == U32_MAX;
                && (late ==> o == Returned(TIMEOUT))
                && (!late && busy ==> o == Returned(INVALID_STATE))
                && (!late && !busy && p.secret != p.fingerprint ==> o == Returned(INVALID_CRC))
      ensures && reliable && CanonicalUuid(p.rotationId) && p.secret == p.fingerprint != []
              && p.expires >= EARLIEST_EXPIRY
              && now.Some? && now.value <= old(ledger.entries)[i].expires && now.value < p.expires
              && old(record).phase == NONE && otherIdle && old(current).generation < U32_MAX
              && CanonicalUuid(old(ledger.entries)[i].id) && old(ledger.entries)[i].kind == ROTATE_CREDENTIALS
              && Unfinished(old(ledger.entries)[i]) && old(ledger.generation) <= U32_MAX - 2 ==>
                o.Ok()
      ensures old(record).phase == NONE ==> Phase(D()) <= CONFIG_STAGED
      ensures o.Returned? && record.phase >= COMMIT_INTENT ==> record == old(record)
      ensures o.Ok() ==>
                record.phase == CONFIG_STAGED && record.rotationId == p.rotationId &&
                record.fingerprint == p.fingerprint && record.expires == p.expires &&
                record.prepareId == old(ledger.entries)[i].id &&
                record.candidateGeneration == old(current).generation + 1 &&
                Prepared(ledger, record.prepareId) && Redacted(ledger, record.prepareId)
      ensures pending ==> !o.Ok()
    {
      pending := false;
      o := Returned(PrepareError(p, ledger.entries[i].expires, record, current, now, otherIdle));
      if o.Ok() {
        var r :=
          Rotation(0, CANDIDATE_PERSISTED, p.rotationId, ledger.entries[i].id, "", p.fingerprint, p.secret, p.expires,
                          current.generation + 1, 0);
        o := StatePersist(r);
        if o.Ok() {
          o := ResumePrepare(now);
          pending := !o.Ok();
        }
      }
    }

    /**
     `credential_rotation_commit`. The intent is written only for the staged rotation the command names, before it
     expires, and while the candidate is whole.
     */
    method CommitRotation(i: nat, rotationId: string, fingerprint: seq<U8>, now: Option<int>)
      returns (o: Outcome, pending: bool)
      requires Durably() && Booted() && i < Commands.SIZE
      requires ledger.entries[i].kind == ROTATE_CREDENTIALS && Unfinished(ledger.entries[i])
      modifies this
      ensures Touches(old(ledger), ledger, {old(ledger.entries[i].id)}) && queue == old(queue)
      ensures o.Returned? ==> WatchMoves(old(Watched(record)), Watched(record), {old(ledger.entries[i].id)})
      ensures Durably() && old(trace) <= trace && (o.Returned? ==> Booted())
      ensures o.Ok() ==> record.phase == RESULT_DURABLE && record.commitId == old(ledger.entries[i].id)
      ensures o.Ok() || pending || (old(record).phase < COMMIT_INTENT && Phase(D()) >= COMMIT_INTENT) ||
              ledger != old(ledger) || config.active != old(config).active ==>
                && old(record).phase == CONFIG_STAGED && rotationId == old(record).rotationId
                && fingerprint == old(record).fingerprint
                && now.Some? && now.value <= old(ledger.entries)[i].expires && now.value <= old(record).expires
                && At(old(config), old(record).slot) ==
                   Stored(old(current).(generation := old(current).generation + 1, secret := fingerprint,
                                        secretLength := 32))
      ensures && reliable && CanonicalUuid(old(ledger.entries)[i].id) && old(ledger.generation) < U32_MAX
              && old(record).phase == CONFIG_STAGED && rotationId == old(record).rotationId
              && fingerprint == old(record).fingerprint
              && now.Some? && now.value <= old(ledger.entries)[i].expires && now.value <= old(record).expires
              && At(old(config), old(record).slot).Stored? ==>
                o.Ok()
      ensures !CanonicalUuid(rotationId) ==> o == Returned(INVALID_ARG)
      ensures CanonicalUuid(rotationId) && now.None? ==> o == Returned(INVALID_STATE)
      ensures CanonicalUuid(rotationId) && now.Some? ==>
                var late := now.value > old(ledger.entries)[i].expires || now.value > old(record).expires;
                var mine := old(record).phase == CONFIG_STAGED && rotationId == old(record).rotationId &&
                            fingerprint == old(record).fingerprint;
                && (late ==> o == Returned(TIMEOUT) || o == PowerCut)
                && (!late && !mine ==> o == Returned(INVALID_CRC) && D() == old(D()))
      ensures o.Ok() ==>
                current == old(current).(generation := old(current).generation + 1, secret := fingerprint,
                                         secretLength := 32)
      ensures pending ==> !o.Ok()
      ensures !o.Ok() && !pending ==> Record(D()) == old(record) || Record(D()) == NO_ROTATION ||
                                      Phase(D()) >= COMMIT_INTENT
      ensures o.Returned? && !o.Ok() && !pending ==> record == old(record) || record == NO_ROTATION
      ensures pending && o.Returned? ==> COMMIT_INTENT <= record.phase && record.commitId == old(ledger.entries[i].id)
    {
      pending := false;
      var err := CommitError(record, rotationId, fingerprint, ledger.entries[i].expires, now);
      if err != OK {
        if err == TIMEOUT && NONE < record.phase < COMMIT_INTENT {
          o := ClearPrepared();
          if o.PowerCut? { return; }
        }
        return Returned(err), pending;
      }
      o, pending := CommitStaged(i);
    }

    /** The second half: the candidate is checked, the intent written without the secret, and the rest resumed. */
    method CommitStaged(i: nat) returns (o: Outcome, pending: bool)
      requires Durably() && Booted() && i < Commands.SIZE && record.phase == CONFIG_STAGED
      requires ledger.entries[i].kind == ROTATE_CREDENTIALS && Unfinished(ledger.entries[i])
      modifies this
      ensures Touches(old(ledger), ledger, {old(ledger.entries[i].id)}) && queue == old(queue)
      ensures o.Returned? ==> WatchMoves(old(Watched(record)), Watched(record), {old(ledger.entries[i].id)})
      ensures Durably() && old(trace) <= trace && (o.Returned? ==> Booted())
      ensures o.Ok() ==> record.phase == RESULT_DURABLE && record.commitId == old(ledger.entries[i].id)
      ensures D() != old(D()) || o.Ok() || pending ==>
                At(old(config), old(record).slot) ==
                Stored(old(current).(generation := old(current).generation + 1, secret := old(record).fingerprint,
                                     secretLength := 32))
      ensures reliable && CanonicalUuid(old(ledger.entries)[i].id) && old(ledger.generation) < U32_MAX &&
              At(old(config), old(record).slot).Stored? ==>
                o.Ok()
      ensures o.Ok() ==>
                current == old(current).(generation := old(current).generation + 1, secret := old(record).fingerprint,
                                         secretLength := 32)
      ensures pending ==> !o.Ok()
      ensures !o.Ok() && !pending ==> Record(D()) == old(record) || Phase(D()) >= COMMIT_INTENT
      ensures o.Returned? && !o.Ok() && !pending ==> record == old(record)
      ensures pending && o.Returned? ==> COMMIT_INTENT <= record.phase && record.commitId == old(ledger.entries[i].id)
    {
      pending := false;
      o := WriteIntent(i);
      if o.Ok() {
        o := ResumeCommit();
        pending := !o.Ok();
      }
    }

    method WriteIntent(i: nat) returns (o: Outcome)
      requires Durably() && Booted() && i < Commands.SIZE && record.phase == CONFIG_STAGED
      requires ledger.entries[i].kind == ROTATE_CREDENTIALS && Unfinished(ledger.entries[i])
      modifies this`journal, this`on, this`trace, this`record
      ensures Durably() && old(trace) <= trace && (o.Returned? ==> Booted())
      ensures o.Ok() ==>
                record.phase == COMMIT_INTENT && record.commitId == ledger.entries[i].id && record.secret == [] &&
                SameRotation(old(record), record)
      ensures D() != old(D()) || o.Ok() ==>
                At(config, old(record).slot) ==
                Stored(current.(generation := current.generation + 1, secret := old(record).fingerprint,
                                secretLength := 32))
      ensures reliable && CanonicalUuid(ledger.entries[i].id) && At(config, old(record).slot).Stored? ==> o.Ok()
      ensures !o.Ok() ==> Record(D()) == old(record) || Phase(D()) == COMMIT_INTENT
      ensures o.Returned? && !o.Ok() ==> record == old(record)
    {
      o := Resource(reliable);
      if o.Ok() { o := Returned(StagedError(config, record.slot, record.candidateGeneration, record.fingerprint)); }
      if o.Ok() {
        assert Is(ledger.entries[i], Watching(ledger.entries[i].id, ROTATE_CREDENTIALS)) &&
               Unfinished(ledger.entries[i]);
        o := StatePersist(record.(phase := COMMIT_INTENT, commitId := ledger.entries[i].id, secret := []));
      }
    }

    /** `credential_rotation_cancel`. */
    method CancelRotation(rotationId: string) returns (o: Outcome)
      requires Durably() && Booted()
      modifies this
      ensures ledger == old(ledger) && queue == old(queue)
      ensures Durably() && old(trace) <= trace && (o.Returned? ==> Booted())
      ensures old(record).phase >= COMMIT_INTENT ==> o.Returned? && !o.Ok() && D() == old(D()) && record == old(record)
      ensures rotationId != old(record).rotationId ==>
                o.Returned? && !o.Ok() && D() == old(D()) && record == old(record)
      ensures o.Ok() ==>
                record == NO_ROTATION && current == old(current) &&
                CANDIDATE_PERSISTED <= old(record).phase <= CONFIG_STAGED
      ensures o.Returned? && !o.Ok() ==> record == old(record)
      ensures reliable && old(record).phase == CONFIG_STAGED && rotationId == old(record).rotationId ==> o.Ok()
    {
      if !CanonicalUuid(rotationId) { return Returned(INVALID_ARG); }
      if record.phase < CANDIDATE_PERSISTED || record.phase >= COMMIT_INTENT || rotationId != record.rotationId {
        return Returned(INVALID_STATE);
      }
      o := ClearPrepared();
    }

    method Dispatch(i: nat, request: Request, now: Option<int>, otherIdle: bool) returns (o: Outcome, pending: bool)
      requires Durably() && Booted() && i < Commands.SIZE
      requires ledger.entries[i].kind == ROTATE_CREDENTIALS && Unfinished(ledger.entries[i])
      modifies this
      ensures Touches(old(ledger), ledger, {old(ledger.entries[i].id)}) && queue == old(queue)
      ensures o.Returned? ==> WatchMoves(old(Watched(record)), Watched(record), {old(ledger.entries[i].id)})
      ensures Durably() && old(trace) <= trace && (o.Returned? ==> Booted())
      ensures o.Returned? && record.phase >= COMMIT_INTENT ==>
                record == old(record) || pending || (o.Ok() && record.phase == RESULT_DURABLE)
      ensures pending ==> !o.Ok()
    {
      pending := false;
      match request
      case Malformed => o := Returned(INVALID_ARG);
      case Prepare(p) => o, pending := PrepareRotation(i, p, now, otherIdle);
      case Cancel(id) => o := CancelRotation(id);
      case Commit(id, fingerprint) => o, pending := CommitRotation(i, id, fingerprint, now);
    }

    /**
     `execute_command` on the oldest command waiting, a rotation command. That it is not the commit command of the
     rotation in progress follows: a command is queued once, and the journal's own are not queued again.
     */
    method Execute(request: Request, now: Option<int>, otherIdle: bool) returns (o: Outcome)
      requires Durably() && Booted() && Queued() && queue != [] && ledger.entries[queue[0]].kind == ROTATE_CREDENTIALS
      modifies this
      ensures Durably() && old(trace) <= trace && (o.Returned? ==> Booted() && Queued() && queue == old(queue)[1..])
    {
      var i := queue[0];
      queue := queue[1..];
      ghost var l, w, ids := ledger, Watched(record), {ledger.entries[i].id};
      assert QueueSound(l, queue, w) && NoneWaits(l, queue, ids);
      o := ExecuteEntry(i, request, now, otherIdle);
      if o.Returned? { QueueKept(l, ledger, queue, w, Watched(record), ids); }
    }

    method ExecuteEntry(i: nat, request: Request, now: Option<int>, otherIdle: bool) returns (o: Outcome)
      requires Durably() && Booted() && i < Commands.SIZE
      requires ledger.entries[i].kind == ROTATE_CREDENTIALS && ledger.entries[i].id != "" &&
               Unfinished(ledger.entries[i])
      requires !Is(ledger.entries[i], Watched(record))
      modifies this
      ensures Durably() && old(trace) <= trace && (o.Returned? ==> Booted())
      ensures Touches(old(ledger), ledger, {old(ledger.entries[i].id)}) && queue == old(queue)
      ensures o.Returned? ==> WatchMoves(old(Watched(record)), Watched(record), {old(ledger.entries[i].id)})
    {
      o := Transition(i, Commands.Running, 1, 0);
      if o.Returned? {
        ghost var result, pending;
        o, result, pending := Perform(i, request, now, otherIdle);
      }
    }

    /** What a command does once it is running, and the transition that ends it. */
    method Perform(i: nat, request: Request, now: Option<int>, otherIdle: bool)
      returns (o: Outcome, ghost result: Outcome, ghost pending: bool)
      requires Durably() && Booted() && i < Commands.SIZE
      requires ledger.entries[i].kind == ROTATE_CREDENTIALS && ledger.entries[i].id != "" &&
               Unfinished(ledger.entries[i])
      requires !Is(ledger.entries[i], Watched(record))
      modifies this
      ensures Durably() && old(trace) <= trace && (o.Returned? ==> Booted())
      ensures Touches(old(ledger), ledger, {old(ledger.entries[i].id)}) && queue == old(queue)
      ensures o.Returned? ==> WatchMoves(old(Watched(record)), Watched(record), {old(ledger.entries[i].id)})
      ensures o.Ok() ==>
                var c := ledger.entries[i];
                && result.Returned?
                && (if pending then c.state.Running? && !result.Ok()
                    else if result.Ok() then c.state.Succeeded? && c.progress == 100
                    else c.state.Failed?)
                && c.code == ErrorCode(result.err)
    {
      var unfinished;
      o, unfinished := Dispatch(i, request, now, otherIdle);
      result, pending := o, unfinished;
      if o.Returned? { o := Finish(i, o.err, unfinished); }
    }

    /**
     `reconcile_interrupted_commands`, right after a boot: what the journal owns is left alone, the rest is queued
     again or finished.
     */
    method Reconcile(checkpoint: CommandRuntime.OtaCheckpoint) returns (o: Outcome)
      requires Durably() && Booted() && queue == []
      modifies this`ledger, this`on, this`trace, this`queue
      ensures Durably() && old(trace) <= trace && (o.Returned? ==> Booted() && Queued())
      ensures o.Ok() ==>
                forall i :: 0 <= i < Commands.SIZE ==>
                  var was := old(ledger.entries)[i];
                  if was.kind == ROTATE_CREDENTIALS && record.phase != NONE &&
                     (was.id == record.prepareId || was.id == record.commitId)
                  then ledger.entries[i] == was && i !in queue
                  else ReconciledAs(was, ledger.entries[i], i in queue, checkpoint)
    {
      o := Returned(OK);
      for i := 0 to Commands.SIZE
        invariant Durably() && old(trace) <= trace && Booted() && Queued() && o.Ok()
        invariant forall k :: 0 <= k < |queue| ==> queue[k] < i
        invariant DoneUpTo(record, old(ledger.entries), ledger.entries, queue, checkpoint, i)
      {
        ghost var before, waiting := ledger.entries, queue;
        o := ReconcileEntry(i, checkpoint);
        if !o.Ok() { return; }
        OneMoreDone(record, old(ledger.entries), before, waiting, ledger.entries, queue, checkpoint, i);
      }
    }

    method QueueAgain(i: nat)
      requires Durably() && Booted() && Queued() && i < Commands.SIZE
      requires ledger.entries[i].id != "" && Unfinished(ledger.entries[i]) && !Owned(ledger.entries[i], record)
      requires forall k :: 0 <= k < |queue| ==> queue[k] < i
      modifies this`queue
      ensures Queued() && queue == old(queue) + [i]
    {
      queue := queue + [i];
    }

    method ReconcileEntry(i: nat, checkpoint: CommandRuntime.OtaCheckpoint) returns (o: Outcome)
      requires Durably() && Booted() && Queued() && i < Commands.SIZE
      requires forall k :: 0 <= k < |queue| ==> queue[k] < i
      modifies this`ledger, this`on, this`trace, this`queue
      ensures Durably() && old(trace) <= trace && (o.Returned? ==> Booted() && Queued())
      ensures o.Ok() ==> queue == old(queue) || queue == old(queue) + [i]
      ensures o.Ok() ==>
                && ledger.entries == old(ledger.entries)[i := ledger.entries[i]]
                && DoneWith(record, old(ledger.entries)[i], ledger.entries[i], queue != old(queue), checkpoint)
    {
      var c := ledger.entries[i];
      o := Returned(OK);
      if c.id == "" || Owned(c, record) { return; }
      EndedIsReconciled(c, checkpoint);
      match Commands.BootActionOf(c)
      case Ignore =>
      case Requeue => QueueAgain(i);
      case _ => o := ChangeOther(i, Ended(c, checkpoint));
    }

    /** The last transition of an executed command. */
    method Finish(i: nat, err: EspErr, pending: bool) returns (o: Outcome)
      requires Durably() && Booted() && i < Commands.SIZE && ledger.entries[i].id != ""
      requires Is(ledger.entries[i], Watched(record)) ==>
                 pending || (err == OK && record.phase == RESULT_DURABLE)
      modifies this`ledger, this`on, this`trace
      ensures Touches(old(ledger), ledger, {old(ledger.entries[i].id)}) ||
              old(ledger.entries[i].kind) != ROTATE_CREDENTIALS
      ensures Durably() && old(trace) <= trace && (o.Returned? ==> Booted())
      ensures o.Ok() ==>
                var was := old(ledger.entries)[i];
                ledger.entries == old(ledger.entries)[
                  i := if pending then was.(state := Commands.Running, code := ErrorCode(err))
                       else if err == OK then was.(state := Commands.Succeeded, progress := 100, code := 0)
                       else was.(state := Commands.Failed, code := ErrorCode(err))]
    {
      var c := ledger.entries[i];
      if pending {
        o := Transition(i, Commands.Running, c.progress, ErrorCode(err));
      } else if err == OK {
        o := Transition(i, Commands.Succeeded, 100, 0);
      } else {
        o := Transition(i, Commands.Failed, c.progress, ErrorCode(err));
      }
    }

    /** `PM_COMMAND_APPLY_CONFIGURATION`: refused while a rotation is in progress. */
    method ApplyConfiguration(name: string, timezone: string, ctRating: nat) returns (o: Outcome)
      requires Durably() && Booted()
      modifies this
      ensures ledger == old(ledger) && queue == old(queue) && (o.Returned? ==> record == old(record))
      ensures old(Queued()) && o.Returned? ==> Queued()
      ensures Durably() && old(trace) <= trace && (o.Returned? ==> Booted())
      ensures old(record).phase != NONE ==> o == Returned(INVALID_STATE) && D() == old(D())
      ensures o.Ok() ==>
                current == old(current).(generation := current.generation, name := name, timezone :=
                                         timezone, ctRating := ctRating) &&
                         current.generation == old(current).generation + 1
      ensures o.Ok() ==> 1 <= ctRating <= 100 && name != "" && timezone != ""
      ensures reliable && old(record).phase == NONE && 1 <= ctRating <= 100 && name != "" && timezone != "" &&
              old(current).generation < U32_MAX ==>
                o.Ok()
      ensures o.Returned? && !o.Ok() ==> current == old(current)
    {
      if record.phase != NONE { return Returned(INVALID_STATE); }
      if ctRating < 1 || ctRating > 100 { return Returned(INVALID_ARG); }
      if current.generation == U32_MAX { return Returned(INVALID_STATE); }
      o := Resource(reliable);
      if o.Ok() {
        var candidate :=
          current.(generation := current.generation + 1, name := name, timezone := timezone, ctRating := ctRating);
        o := Returned(Validate(candidate));
        if o.Ok() { o := PutInactive(Stored(candidate)); }
        if o.Ok() { o := SelectAtRest(candidate); }
      }
    }

    method SelectAtRest(candidate: Config) returns (o: Outcome)
      requires Durably() && Booted() && record.phase == NONE && Validate(candidate) == OK
      requires At(config, Inactive(D())) == Stored(candidate)
      modifies this`config, this`on, this`trace, this`base, this`current
      ensures Durably() && old(trace) <= trace && (reliable ==> o.Ok()) && (o.Ok() || o.PowerCut?)
      ensures o.Ok() ==> Booted() && current == candidate
    {
      RebaseExtends(trace, D(), candidate);
      var s := Power(reliable);
      on := s.Alive?;
      if !s.CutBefore? {
        config := config.(active := Some(Other(config.active.value)));
        base := candidate;
        Note();
        current := candidate;
      }
      o := if s.Alive? then Returned(OK) else PowerCut;
    }
  }
}
