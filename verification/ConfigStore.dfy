/**
 The operations of components/pm_config/pm_config.c as they are written: static variables, a transaction struct
 changed in place, and ordered NVS calls that may each fail, with or without effect, or be the last before a power
 cut. Each operation is proved to be a sequence of steps of `ConfigTasks`, where every interleaving is covered.
 */
module ConfigStore {
  import opened Esp
  import opened ConfigTypes
  import opened ConfigTasks

  /** A task taking one step after another, undisturbed. */
  function Steps(s: Shared, t: Task, events: seq<Event>): (Shared, Task) {
    if events == [] then (s, t)
    else var (s', t') := Steps(s, t, events[..|events| - 1]); Step(s', t', events[|events| - 1])
  }

  lemma StepsMore(s: Shared, t: Task, events: seq<Event>, e: Event)
    ensures var (s', t') := Steps(s, t, events); Steps(s, t, events + [e]) == Step(s', t', e)
  {
    assert (events + [e])[..|events|] == events;
  }

  lemma OneStep(s: Shared, t: Task, e: Event)
    ensures Steps(s, t, [e]) == Step(s, t, e)
  {
    StepsMore(s, t, [], e);
    assert [] + [e] == [e];
  }

  /* ---- When the operations succeed, if nothing fails ---- */

  predicate Restages(tx: Tx) { tx.stage == ReadbackVerified && tx.id != 0 && IsSlot(tx.slot) }

  predicate Begins(s: Shared, tx: Tx, candidate: Config) {
    Validate(candidate.(schema := SCHEMA)) == OK && if Restages(tx) then Claimable(s, tx.id) else Unclaimed(s)
  }

  /** The selector is usable, and does not name the slot to stage into. */
  predicate Stageable(n: Nvs, tx: Tx) {
    var active := if n.active.Some? then n.active.value else SLOT_A;
    IsSlot(active) && (Restages(tx) ==> active != tx.slot)
  }

  predicate Verified(n: Nvs, tx: Tx) {
    ReadError(At(n, tx.slot)) == OK && At(n, tx.slot).c.generation == tx.generation &&
    tx.digest == Some(At(n, tx.slot).c)
  }

  /* ---- The error codes, by how the NVS calls end ---- */

  function OpenError(f: Fault, n: Nvs, tx: Tx, restaging: bool): EspErr {
    var active := if n.active.Some? then n.active.value else SLOT_A;
    if !f.Fine? then NVS_ERROR
    else if !IsSlot(active) || (restaging && active == tx.slot) then INVALID_STATE
    else OK
  }

  function ReadBackError(f: Fault, n: Nvs, slot: U8, staged: Config): EspErr {
    if !f.Fine? then NVS_ERROR
    else if At(n, slot) == Stored(staged) then OK
    else if ReadError(At(n, slot)) != OK then ReadError(At(n, slot))
    else FAIL
  }

  function CheckError(f: Fault, n: Nvs, tx: Tx): EspErr {
    if !f.Fine? then NVS_ERROR
    else if ReadError(At(n, tx.slot)) != OK then ReadError(At(n, tx.slot))
    else if Verified(n, tx) then OK
    else INVALID_STATE
  }

  /** What `pm_config_begin` returns if nothing fails. */
  function BeginError(s: Shared, tx: Tx, candidate: Config): EspErr {
    if Validate(candidate.(schema := SCHEMA)) != OK then Validate(candidate.(schema := SCHEMA))
    else if !Begins(s, tx, candidate) || !Stageable(s.nvs, tx) then INVALID_STATE
    else OK
  }

  /** What `pm_config_commit` returns if nothing fails. */
  function CommitError(s: Shared, tx: Tx): EspErr {
    if tx.stage != NetworkTested || !IsSlot(tx.slot) || !Claimable(s, tx.id) then INVALID_STATE
    else CheckError(Fine, s.nvs, tx)
  }

  predicate ActivateSucceeds(s: Shared, slot: U8, generation: U32) {
    Unclaimed(s) && generation != 0 && Activatable(s.nvs, slot, generation) && s.nvs.active.Some?
  }

  predicate DiscardSucceeds(s: Shared, slot: U8, generation: U32) {
    Unclaimed(s) && generation != 0 && Spare(s.nvs, slot) && s.nvs.active.Some? &&
    (At(s.nvs, slot).Missing? || Activatable(s.nvs, slot, generation))
  }

  predicate SelectorNames(n: Nvs) { n.active.Some? && IsSlot(n.active.value) }

  predicate DiscardOtherSucceeds(s: Shared, generation: U32) {
    Unclaimed(s) && generation != 0 && SelectorNames(s.nvs) &&
    (At(s.nvs, Other(s.nvs.active.value)).Missing? || ReadError(At(s.nvs, Other(s.nvs.active.value))) == OK)
  }

  class Transaction {
    var stage: Stage
    var generation: U32
    var id: U32
    var slot: U8
    var digest: Option<Config>

    function Abs(): Tx
      reads this
    {
      Tx(stage, generation, id, slot, digest)
    }

    constructor ()
      ensures Abs() == ZERO_TX
    {
      stage, generation, id, slot, digest := NoStage, 0, 0, 0, None;
    }

    method Set(tx: Tx)
      modifies this
      ensures Abs() == tx
    {
      stage, generation, id, slot, digest := tx.stage, tx.generation, tx.id, tx.slot, tx.digest;
    }
  }

  /** How an NVS call ends: with power lost, or as `ConfigTasks.Fault` says. */
  datatype Call = Cut | Ended(f: Fault)

  class Store {
    var nvs: Nvs
    var nextId: U32
    var activeId: U32
    var mutating: bool
    const faulty: bool
    ghost var pc: Pc

    function Abs(): Shared
      reads this
    {
      Shared(nvs, nextId, activeId, mutating)
    }

    constructor (nvs: Nvs, faulty: bool)
      ensures Abs() == Shared(nvs, 1, 0, false) && pc == Idle && this.faulty == faulty
    {
      this.nvs, nextId, activeId, mutating, this.faulty := nvs, 1, 0, false, faulty;
      pc := Idle;
    }

    /* ---- The critical sections ---- */

    /** `claim_new_transaction`. */
    method ClaimNewTransaction() returns (claimed: bool, id: U32)
      modifies this`nextId, this`activeId, this`mutating
      ensures claimed <==> Unclaimed(old(Abs()))
      ensures if claimed then Abs() == ClaimNew(old(Abs())) && id == FreshId(old(Abs())) != 0 else Abs() == old(Abs())
    {
      claimed, id := false, 0;
      if activeId == 0 && !mutating {
        id, nextId := nextId, Increment(nextId);
        if id == 0 { id, nextId := nextId, Increment(nextId); }
        activeId, mutating, claimed := id, true, true;
      }
    }

    /** `claim_transaction_mutation`. */
    method ClaimTransaction(id: U32) returns (claimed: bool)
      modifies this`mutating
      ensures claimed <==> Claimable(old(Abs()), id)
      ensures Abs() == if claimed then old(Abs()).(mutating := true) else old(Abs())
    {
      claimed := id != 0 && activeId == id && !mutating;
      if claimed { mutating := true; }
    }

    /** `claim_unowned_mutation`. */
    method ClaimUnowned() returns (claimed: bool)
      modifies this`mutating
      ensures claimed <==> Unclaimed(old(Abs()))
      ensures Abs() == if claimed then old(Abs()).(mutating := true) else old(Abs())
    {
      claimed := activeId == 0 && !mutating;
      if claimed { mutating := true; }
    }

    /** `release_transaction`. */
    method ReleaseTransaction(id: U32)
      modifies this`activeId, this`mutating
      ensures Abs() == Release(old(Abs()), id)
    {
      if id != 0 && activeId == id { activeId, mutating := 0, false; }
    }

    /* ---- NVS ---- */

    method Nvs() returns (c: Call)
      ensures !faulty ==> c == Ended(Fine)
    {
      c := *;
      if !faulty { c := Ended(Fine); }
    }

    /* ---- Begin, step by step ---- */

    /** Opens the store and finds the slot to stage into. */
    method Open(tx: Transaction, staged: Config, id: U32, restaging: bool)
      returns (cut: bool, err: EspErr, slot: U8, ghost e: Event)
      requires pc == BeginClaimed(staged, id, restaging)
      modifies this`pc
      ensures cut ==> pc == old(pc)
      ensures !cut ==> (Abs(), Task(pc, tx.Abs())) == Step(old(Abs()), Task(old(pc), tx.Abs()), e)
      ensures !cut ==> pc == if err == OK then BeginReady(staged, id, slot) else BeginFailed(id)
      ensures !cut ==> e.Go? && err == OpenError(e.fault, nvs, tx.Abs(), restaging)
      ensures !faulty ==> !cut && e == Go(Fine)
    {
      var c := Nvs();
      cut, err, slot, e := c.Cut?, OK, 0, Go(Fine);
      if cut { return; }
      var active := if nvs.active.Some? then nvs.active.value else SLOT_A;
      slot := if restaging then tx.slot else Other(active);
      if !c.f.Fine? {
        err := NVS_ERROR;
      } else if !IsSlot(active) || (restaging && active == slot) {
        err := INVALID_STATE;
      }
      e := Go(c.f);
      pc := if err == OK then BeginReady(staged, id, slot) else BeginFailed(id);
    }

    method WriteStaged(tx: Transaction, staged: Config, id: U32, slot: U8)
      returns (cut: bool, err: EspErr, ghost e: Event)
      requires pc == BeginReady(staged, id, slot)
      modifies this`nvs, this`pc
      ensures cut ==> pc == old(pc) && nvs == old(nvs)
      ensures !cut ==> (Abs(), Task(pc, tx.Abs())) == Step(old(Abs()), Task(old(pc), tx.Abs()), e)
      ensures !cut ==> pc == if err == OK then BeginWritten(staged, id, slot) else BeginFailed(id)
      ensures !cut ==> e.Go? && err == if Succeeds(e.fault) then OK else NVS_ERROR
      ensures !faulty ==> !cut && err == OK && nvs == With(old(nvs), slot, Stored(staged))
    {
      var c := Nvs();
      cut, err, e := c.Cut?, NVS_ERROR, Go(Fine);
      if cut { return; }
      nvs, err, e := Written(nvs, slot, staged, c.f), if Succeeds(c.f) then OK else NVS_ERROR, Go(c.f);
      pc := if err == OK then BeginWritten(staged, id, slot) else BeginFailed(id);
    }

    method ReadBackStaged(tx: Transaction, staged: Config, id: U32, slot: U8)
      returns (cut: bool, err: EspErr, ghost e: Event)
      requires pc == BeginWritten(staged, id, slot)
      modifies this`pc
      ensures cut ==> pc == old(pc)
      ensures !cut ==> (Abs(), Task(pc, tx.Abs())) == Step(old(Abs()), Task(old(pc), tx.Abs()), e)
      ensures !cut ==> pc == if err == OK then BeginVerified(staged, id, slot) else BeginFailed(id)
      ensures !cut ==> e.Go? && err == ReadBackError(e.fault, nvs, slot, staged)
      ensures !cut ==>
                && (err == OK <==> e.fault.Fine? && At(nvs, slot) == Stored(staged))
                && (e.fault.Fine? && At(nvs, slot).Missing? ==> err == NVS_NOT_FOUND)
                && (e.fault.Fine? && At(nvs, slot).Torn? ==> err == INVALID_CRC)
                && (e.fault.Fine? && Activatable(nvs, slot, staged.generation) && At(nvs, slot).c != staged ==>
                      err == FAIL)
      ensures !faulty ==> !cut && e == Go(Fine)
    {
      var c := Nvs();
      cut, err, e := c.Cut?, NVS_ERROR, Go(Fine);
      if cut { return; }
      err, e := ReadBackError(c.f, nvs, slot, staged), Go(c.f);
      pc := if err == OK then BeginVerified(staged, id, slot) else BeginFailed(id);
    }

    method EndBegin(tx: Transaction, staged: Config, id: U32, slot: U8, ok: bool)
      requires pc == if ok then BeginVerified(staged, id, slot) else BeginFailed(id)
      modifies this`activeId, this`mutating, this`pc, tx
      ensures (Abs(), Task(pc, tx.Abs())) == Step(old(Abs()), Task(old(pc), old(tx.Abs())), Go(Fine))
      ensures tx.Abs() == if ok then Tx(ReadbackVerified, staged.generation, id, slot, Some(staged)) else ZERO_TX
      ensures pc == Idle
    {
      if ok {
        tx.Set(Tx(ReadbackVerified, staged.generation, id, slot, Some(staged)));
        mutating := false;
      } else {
        ReleaseTransaction(id);
        tx.Set(ZERO_TX);
      }
      pc := Idle;
    }

    /** What `pm_config_begin` does once the mutation is claimed. */
    method Stage(tx: Transaction, staged: Config, id: U32, restaging: bool)
      returns (o: Outcome, ghost events: seq<Event>)
      requires pc == BeginClaimed(staged, id, restaging)
      modifies this, tx
      ensures Steps(old(Abs()), Task(old(pc), old(tx.Abs())), events) == (Abs(), Task(pc, tx.Abs()))
      ensures o.Returned? ==> pc == Idle
      ensures o.Ok() ==> tx.stage == ReadbackVerified && tx.digest == Some(staged) && At(nvs, tx.slot) == Stored(staged)
      ensures o.Returned? && !o.Ok() ==> tx.Abs() == ZERO_TX
      ensures !faulty && restaging == Restages(old(tx.Abs())) ==>
                o == Returned(if Stageable(old(nvs), old(tx.Abs())) then OK else INVALID_STATE)
    {
      ghost var s, t := Abs(), Task(pc, tx.Abs());
      events := [];
      var cut, err, slot;
      ghost var e;
      cut, err, slot, e := Open(tx, staged, id, restaging);
      if cut { return Outcome.PowerCut, events; }
      OneStep(s, t, e);
      if err != OK {
        EndBegin(tx, staged, id, slot, false);
        StepsMore(s, t, [e], Go(Fine));
        return Returned(err), [e] + [Go(Fine)];
      }
      o, events := StageInto(tx, staged, id, slot);
      StepsCompose(s, t, [e], events);
      events := [e] + events;
    }

    /** Writes the candidate and reads it back. */
    method StageInto(tx: Transaction, staged: Config, id: U32, slot: U8) returns (o: Outcome, ghost events: seq<Event>)
      requires pc == BeginReady(staged, id, slot)
      modifies this, tx
      ensures Steps(old(Abs()), Task(old(pc), old(tx.Abs())), events) == (Abs(), Task(pc, tx.Abs()))
      ensures o.Returned? ==> pc == Idle
      ensures o.Ok() ==> tx.stage == ReadbackVerified && tx.digest == Some(staged) && At(nvs, tx.slot) == Stored(staged)
      ensures o.Returned? && !o.Ok() ==> tx.Abs() == ZERO_TX
      ensures !faulty && IsSlot(slot) ==> o.Ok()
    {
      ghost var s, t := Abs(), Task(pc, tx.Abs());
      events := [];
      var cut, err;
      ghost var e;
      cut, err, e := WriteStaged(tx, staged, id, slot);
      if cut { return Outcome.PowerCut, events; }
      StepsMore(s, t, events, e);
      events := events + [e];
      if err == OK {
        cut, err, e := ReadBackStaged(tx, staged, id, slot);
        if cut { return Outcome.PowerCut, events; }
        StepsMore(s, t, events, e);
        events := events + [e];
      }
      EndBegin(tx, staged, id, slot, err == OK);
      StepsMore(s, t, events, Go(Fine));
      events := events + [Go(Fine)];
      o := Returned(err);
    }

    /** `pm_config_begin`. */
    method BeginTransaction(candidate: Config, tx: Transaction) returns (o: Outcome, ghost events: seq<Event>)
      requires pc == Idle
      modifies this, tx
      ensures Steps(old(Abs()), Task(Idle, old(tx.Abs())), events) == (Abs(), Task(pc, tx.Abs()))
      ensures o.Returned? ==> pc == Idle
      ensures o.Ok() ==> tx.stage == ReadbackVerified && tx.digest == Some(candidate.(schema := SCHEMA)) &&
                         At(nvs, tx.slot) == Stored(candidate.(schema := SCHEMA))
      ensures o.Ok() ==>
                && "https://" <= candidate.origin
                && candidate.name != "" && candidate.ssid != "" && candidate.ca != "" && candidate.timezone != ""
                && 1 <= candidate.ctRating <= 100 && candidate.secretLength <= 32
                && candidate.acknowledged <= candidate.floor
                && (candidate.staticIp ==>
                      candidate.address != 0 && candidate.gateway != 0 && candidate.netmask != 0 && candidate.dns != 0)
      ensures !faulty ==>
                (o != Returned(INVALID_ARG) <==>
                 && "https://" <= candidate.origin
                 && candidate.name != "" && candidate.ssid != "" && candidate.ca != "" && candidate.timezone != ""
                 && 1 <= candidate.ctRating <= 100 && candidate.secretLength <= 32
                 && candidate.acknowledged <= candidate.floor
                 && (candidate.staticIp ==>
                       candidate.address != 0 && candidate.gateway != 0 && candidate.netmask != 0 &&
                       candidate.dns != 0))
      ensures !faulty && o == Returned(INVALID_ARG) ==> Abs() == old(Abs()) && tx.Abs() == old(tx.Abs())
      ensures !faulty && o != Returned(INVALID_ARG) && old(tx.stage) != ReadbackVerified ==>
                (o.Ok() <==>
                 && old(activeId) == 0 && !old(mutating)
                 && (old(nvs).active.None? || old(nvs).active == Some(SLOT_A) || old(nvs).active == Some(SLOT_B)))
      ensures !faulty && o != Returned(INVALID_ARG) && old(tx.stage) == ReadbackVerified && IsSlot(old(tx.slot)) &&
              old(tx.id) != 0 ==>
                (o.Ok() <==>
                 && old(activeId) == old(tx.id) && !old(mutating)
                 && (if old(tx.slot) == SLOT_A then old(nvs).active == Some(SLOT_B)
                     else old(nvs).active.None? || old(nvs).active == Some(SLOT_A)))
      ensures !Begins(old(Abs()), old(tx.Abs()), candidate) ==>
                o.Returned? && !o.Ok() && Abs() == old(Abs()) && tx.Abs() == old(tx.Abs())
      ensures o.Returned? && !o.Ok() && Abs() != old(Abs()) ==> tx.Abs() == ZERO_TX
      ensures o.Returned? && !o.Ok() ==> tx.Abs() == ZERO_TX || (tx.Abs() == old(tx.Abs()) && Abs() == old(Abs()))
      ensures !faulty ==> o == Returned(BeginError(old(Abs()), old(tx.Abs()), candidate))
    {
      events := [];
      o := Resource(!faulty);
      if !o.Ok() { return; }
      var staged := candidate.(schema := SCHEMA);
      var err := Validate(staged);
      if err != OK { return Returned(err), events; }
      ghost var s, t := Abs(), Task(Idle, tx.Abs());
      var restaging := tx.stage == ReadbackVerified && tx.id != 0 && IsSlot(tx.slot);
      var id, claimed := tx.id, false;
      if restaging { claimed := ClaimTransaction(tx.id); } else { claimed, id := ClaimNewTransaction(); }
      if !claimed { return Returned(INVALID_STATE), events; }
      pc := BeginClaimed(staged, id, restaging);
      ghost var first := [Event.Begin(candidate)];
      OneStep(s, t, Event.Begin(candidate));
      o, events := Stage(tx, staged, id, restaging);
      StepsCompose(s, t, first, events);
      events := first + events;
    }

    /** `pm_config_mark_network_tested`. */
    method MarkNetworkTested(tx: Transaction) returns (o: Outcome)
      requires pc == Idle
      modifies tx
      ensures (Abs(), Task(Idle, tx.Abs())) == Step(old(Abs()), Task(Idle, old(tx.Abs())), MarkTested)
      ensures o.Ok() <==> old(tx.stage) == ReadbackVerified && Claimable(Abs(), old(tx.id))
      ensures o.Ok() || o == Returned(INVALID_STATE)
    {
      if tx.stage != ReadbackVerified ||
        !(tx.id != 0 && activeId == tx.id && !mutating) { return Returned(INVALID_STATE); }
      tx.stage := NetworkTested;
      o := Returned(OK);
    }

    /* ---- Commit ---- */

    method CheckStaged(tx: Transaction, id: U32) returns (cut: bool, err: EspErr, ghost e: Event)
      requires pc == CommitClaimed(id)
      modifies this`pc
      ensures cut ==> pc == old(pc)
      ensures !cut ==> (Abs(), Task(pc, tx.Abs())) == Step(old(Abs()), Task(old(pc), tx.Abs()), e)
      ensures !cut ==> pc == if err == OK then CommitChecked(id) else CommitDone(id, true)
      ensures !cut ==> e.Go? && err == CheckError(e.fault, nvs, tx.Abs())
      ensures !faulty ==> !cut && e == Go(Fine)
    {
      var c := Nvs();
      cut, err, e := c.Cut?, NVS_ERROR, Go(Fine);
      if cut { return; }
      var blob := At(nvs, tx.slot);
      if c.f.Fine? {
        err := ReadError(blob);
        if err == OK && (blob.c.generation != tx.generation || tx.digest != Some(blob.c)) { err := INVALID_STATE; }
      }
      e := Go(c.f);
      pc := if err == OK then CommitChecked(id) else CommitDone(id, true);
    }

    method Select(tx: Transaction, id: U32) returns (cut: bool, err: EspErr, ghost e: Event)
      requires pc == CommitChecked(id)
      modifies this`nvs, this`pc
      ensures cut ==> pc == old(pc) && nvs == old(nvs)
      ensures !cut ==> (Abs(), Task(pc, tx.Abs())) == Step(old(Abs()), Task(old(pc), tx.Abs()), e)
      ensures !cut ==> pc == CommitDone(id, err != OK)
      ensures !cut ==> e.Go? && err == if e.fault.Fine? then OK else NVS_ERROR
      ensures err == OK ==> nvs == old(nvs).(active := Some(tx.slot))
      ensures !faulty ==> !cut && err == OK
    {
      var c := Nvs();
      cut, err, e := c.Cut?, NVS_ERROR, Go(Fine);
      if cut { return; }
      nvs, err, e := Selected(nvs, tx.slot, c.f), if c.f.Fine? then OK else NVS_ERROR, Go(c.f);
      pc := CommitDone(id, err != OK);
    }

    /** What `pm_config_commit` does once the mutation is claimed. */
    method Promote(tx: Transaction, id: U32) returns (o: Outcome, ghost events: seq<Event>)
      requires pc == CommitClaimed(id) && IsSlot(tx.slot)
      modifies this, tx
      ensures Steps(old(Abs()), Task(old(pc), old(tx.Abs())), events) == (Abs(), Task(pc, tx.Abs()))
      ensures o.Returned? ==> pc == Idle
      ensures o.Ok() ==> Load(nvs) == old(tx.digest) && tx.Abs() == ZERO_TX.(stage := Committed)
      ensures !faulty ==> o == Returned(CheckError(Fine, old(nvs), old(tx.Abs())))
    {
      events := [];
      ghost var s, t := Abs(), Task(pc, tx.Abs());
      var cut, err;
      ghost var e;
      cut, err, e := CheckStaged(tx, id);
      if cut { return Outcome.PowerCut, events; }
      StepsMore(s, t, events, e);
      events := events + [e];
      if err == OK {
        cut, err, e := Select(tx, id);
        if cut { return Outcome.PowerCut, events; }
        StepsMore(s, t, events, e);
        events := events + [e];
      }
      EndCommit(tx, id, err == OK);
      StepsMore(s, t, events, Go(Fine));
      events := events + [Go(Fine)];
      o := Returned(err);
    }

    method EndCommit(tx: Transaction, id: U32, ok: bool)
      requires pc == CommitDone(id, !ok)
      modifies this`activeId, this`mutating, this`pc, tx
      ensures (Abs(), Task(pc, tx.Abs())) == Step(old(Abs()), Task(old(pc), old(tx.Abs())), Go(Fine))
      ensures pc == Idle && tx.Abs() == if ok then ZERO_TX.(stage := Committed) else ZERO_TX
    {
      ReleaseTransaction(id);
      tx.Set(if ok then ZERO_TX.(stage := Committed) else ZERO_TX);
      pc := Idle;
    }

    /** `pm_config_commit`: on success the configuration that was read back is the one that boots. */
    method CommitTransaction(tx: Transaction) returns (o: Outcome, ghost events: seq<Event>)
      requires pc == Idle
      modifies this, tx
      ensures Steps(old(Abs()), Task(Idle, old(tx.Abs())), events) == (Abs(), Task(pc, tx.Abs()))
      ensures o.Returned? ==> pc == Idle
      ensures o.Ok() ==>
                old(tx.stage) == NetworkTested && Load(nvs) == old(tx.digest) &&
                tx.Abs() == ZERO_TX.(stage := Committed)
      ensures !faulty ==> o == Returned(CommitError(old(Abs()), old(tx.Abs())))
      ensures !faulty ==>
                (o.Ok() <==>
                 && old(tx.stage) == NetworkTested && old(tx.id) != 0 && old(activeId) == old(tx.id) && !old(mutating)
                 && (old(tx.slot) == SLOT_A || old(tx.slot) == SLOT_B) && old(tx.digest).Some?
                 && At(old(nvs), old(tx.slot)) == Stored(old(tx.digest).value)
                 && old(tx.digest).value.generation == old(tx.generation) && Validate(old(tx.digest).value) == OK)
    {
      events := [];
      if tx.stage != NetworkTested || tx.id == 0 || !IsSlot(tx.slot) { return Returned(INVALID_STATE), events; }
      o := Resource(!faulty);
      if !o.Ok() { return; }
      ghost var s, t := Abs(), Task(Idle, tx.Abs());
      var id := tx.id;
      var claimed := ClaimTransaction(id);
      if !claimed { return Returned(INVALID_STATE), events; }
      pc := CommitClaimed(id);
      ghost var first := [Event.Commit];
      OneStep(s, t, Event.Commit);
      o, events := Promote(tx, id);
      StepsCompose(s, t, first, events);
      events := first + events;
    }

    /** `pm_config_abort`. */
    method AbortTransaction(tx: Transaction)
      requires pc == Idle
      modifies this`activeId, this`mutating, tx
      ensures (Abs(), Task(Idle, tx.Abs())) == Step(old(Abs()), Task(Idle, old(tx.Abs())), Abort)
      ensures tx.stage == NoStage && tx.id == 0
      ensures if old(tx.id) != 0 && old(activeId) == old(tx.id) then activeId == 0 && !mutating else Abs() == old(Abs())
    {
      ReleaseTransaction(tx.id);
      tx.Set(ZERO_TX);
    }

    /* ---- Operations without a transaction, step by step; `tx` is the one their task keeps meanwhile ---- */

    method ReadStaged(slot: U8, generation: U32, ghost tx: Tx, ghost onward: Pc)
      returns (cut: bool, err: EspErr, ghost e: Event)
      requires (pc == ActivateClaimed(slot, generation) && onward == ActivateRead(slot, generation))
            || (pc == DiscardChecked(slot, generation) && onward == EraseReady(slot))
      modifies this`pc
      ensures cut ==> pc == old(pc)
      ensures !cut ==> (Abs(), Task(pc, tx)) == Step(old(Abs()), Task(old(pc), tx), e)
      ensures !cut ==> pc == if err == OK then onward else UnownedDone
      ensures err == OK ==> Activatable(nvs, slot, generation) || !IsSlot(slot)
      ensures err == NVS_NOT_FOUND ==> At(nvs, slot).Missing?
      ensures err == INVALID_STATE ==> At(nvs, slot).Stored? && At(nvs, slot).c.generation != generation
      ensures !faulty ==>
                !cut && err == (if ReadError(At(nvs, slot)) == OK && At(nvs, slot).c.generation != generation
                                then INVALID_STATE else ReadError(At(nvs, slot)))
    {
      var c := Nvs();
      cut, err, e := c.Cut?, NVS_ERROR, Go(Fine);
      if cut { return; }
      var blob := At(nvs, slot);
      if c.f.Fine? {
        err := ReadError(blob);
        if err == OK && blob.c.generation != generation { err := INVALID_STATE; }
      }
      e := Go(c.f);
      pc := if err == OK then onward else UnownedDone;
    }

    method ReadSelector(slot: U8, generation: U32, ghost tx: Tx, ghost onward: Pc)
      returns (cut: bool, err: EspErr, other: bool, ghost e: Event)
      requires (pc == ActivateRead(slot, generation) && onward == ActivateFlip(slot, generation))
            || (pc == DiscardClaimed(slot, generation) && onward == DiscardChecked(slot, generation))
      modifies this`pc
      ensures cut ==> pc == old(pc)
      ensures !cut ==> (Abs(), Task(pc, tx)) == Step(old(Abs()), Task(old(pc), tx), e)
      ensures !cut ==> pc == if err == OK && other then onward else UnownedDone
      ensures err == OK ==> nvs.active.Some? && (other <==> nvs.active != Some(slot))
      ensures !faulty ==> !cut && (err == OK <==> nvs.active.Some?)
    {
      var c := Nvs();
      cut, err, other, e := c.Cut?, NVS_ERROR, false, Go(Fine);
      if cut { return; }
      if c.f.Fine? {
        err := if nvs.active.Some? then OK else NVS_NOT_FOUND;
        other := nvs.active != Some(slot);
      }
      e := Go(c.f);
      pc := if err == OK && other then onward else UnownedDone;
    }

    method ReadInactive(generation: U32, ghost tx: Tx) returns (cut: bool, err: EspErr, slot: U8, ghost e: Event)
      requires pc == DiscardOtherClaimed(generation) || pc == EraseClaimed
      modifies this`pc
      ensures cut ==> pc == old(pc)
      ensures !cut ==> (Abs(), Task(pc, tx)) == Step(old(Abs()), Task(old(pc), tx), e)
      ensures !cut && err != OK ==> pc == UnownedDone
      ensures !cut && err == OK ==> pc == if old(pc).EraseClaimed? then EraseReady(slot)
              else DiscardChecked(slot, generation)
      ensures err == OK ==> nvs.active.Some? && IsSlot(nvs.active.value) && slot == Other(nvs.active.value)
      ensures !faulty ==> !cut && (err == OK <==> SelectorNames(nvs))
    {
      var c := Nvs();
      cut, err, slot, e := c.Cut?, NVS_ERROR, 0, Go(Fine);
      if cut { return; }
      if c.f.Fine? {
        err := if nvs.active.None? then NVS_NOT_FOUND else if IsSlot(nvs.active.value) then OK else INVALID_STATE;
      }
      if err == OK { slot := Other(nvs.active.value); }
      e := Go(c.f);
      pc := if err != OK then UnownedDone else if pc.EraseClaimed? then EraseReady(slot)
      else DiscardChecked(slot, generation);
    }

    method Flip(slot: U8, generation: U32, ghost tx: Tx) returns (cut: bool, err: EspErr, ghost e: Event)
      requires pc == ActivateFlip(slot, generation)
      modifies this`nvs, this`pc
      ensures cut ==> pc == old(pc) && nvs == old(nvs)
      ensures !cut ==> (Abs(), Task(pc, tx)) == Step(old(Abs()), Task(old(pc), tx), e) && pc == UnownedDone
      ensures err == OK ==> nvs == old(nvs).(active := Some(slot))
      ensures !faulty ==> !cut && err == OK
    {
      var c := Nvs();
      cut, err, e := c.Cut?, NVS_ERROR, Go(Fine);
      if cut { return; }
      nvs, err, e := Selected(nvs, slot, c.f), if c.f.Fine? then OK else NVS_ERROR, Go(c.f);
      pc := UnownedDone;
    }

    method EraseKey(slot: U8, ghost tx: Tx) returns (cut: bool, err: EspErr, ghost e: Event)
      requires pc == EraseReady(slot)
      modifies this`nvs, this`pc
      ensures cut ==> pc == old(pc) && nvs == old(nvs)
      ensures !cut ==> (Abs(), Task(pc, tx)) == Step(old(Abs()), Task(old(pc), tx), e) && pc == UnownedDone
      ensures err == OK || err == NVS_ERROR
      ensures err == OK ==> nvs == With(old(nvs), slot, Missing)
      ensures !faulty ==> !cut && err == OK
    {
      var c := Nvs();
      cut, err, e := c.Cut?, NVS_ERROR, Go(Fine);
      if cut { return; }
      nvs, err, e := Erased(nvs, slot, c.f), if c.f.Fine? then OK else NVS_ERROR, Go(c.f);
      pc := UnownedDone;
    }

    method FinishUnowned(ghost tx: Tx)
      requires pc == UnownedDone
      modifies this`mutating, this`pc
      ensures (Abs(), Task(pc, tx)) == Step(old(Abs()), Task(old(pc), tx), Go(Fine)) && pc == Idle
    {
      mutating := false;
      pc := Idle;
    }

    /** `pm_config_activate_staged`: on success the configuration of that slot and generation boots. */
    method ActivateStaged(slot: U8, generation: U32, ghost tx: Tx) returns (o: Outcome, ghost events: seq<Event>)
      requires pc == Idle
      modifies this
      ensures Steps(old(Abs()), Task(Idle, tx), events) == (Abs(), Task(pc, tx))
      ensures o.Returned? ==> pc == Idle
      ensures o.Ok() ==> nvs.active == Some(slot) && Load(nvs).Some? && Load(nvs).value.generation == generation
      ensures o.Returned? && !IsSlot(slot) ==> o == Returned(INVALID_ARG)
      ensures !faulty ==> (o.Ok() <==> ActivateSucceeds(old(Abs()), slot, generation))
    {
      events := [];
      if !IsSlot(slot) || generation == 0 { return Returned(INVALID_ARG), events; }
      o := Resource(!faulty);
      if !o.Ok() { return; }
      ghost var s, t := Abs(), Task(Idle, tx);
      var claimed := ClaimUnowned();
      if !claimed { return Returned(INVALID_STATE), events; }
      pc := ActivateClaimed(slot, generation);
      OneStep(s, t, Activate(slot, generation));
      o, events := SwitchTo(slot, generation, tx);
      StepsCompose(s, t, [Activate(slot, generation)], events);
      events := [Activate(slot, generation)] + events;
    }

    /** What it does once the mutation is claimed. */
    method SwitchTo(slot: U8, generation: U32, ghost tx: Tx) returns (o: Outcome, ghost events: seq<Event>)
      requires pc == ActivateClaimed(slot, generation) && IsSlot(slot)
      modifies this
      ensures Steps(old(Abs()), Task(old(pc), tx), events) == (Abs(), Task(pc, tx))
      ensures o.Returned? ==> pc == Idle
      ensures o.Ok() ==> nvs.active == Some(slot) && Load(nvs).Some? && Load(nvs).value.generation == generation
      ensures !faulty ==> (o.Ok() <==> Activatable(old(nvs), slot, generation) && old(nvs).active.Some?)
    {
      events := [];
      ghost var s, t := Abs(), Task(pc, tx);
      var cut, err;
      ghost var e;
      cut, err, e := ReadStaged(slot, generation, tx, ActivateRead(slot, generation));
      if cut { return Outcome.PowerCut, events; }
      OneStep(s, t, e);
      if err != OK {
        FinishUnowned(tx);
        StepsMore(s, t, [e], Go(Fine));
        return Returned(err), [e] + [Go(Fine)];
      }
      o, events := SelectIfOther(slot, generation, tx);
      StepsCompose(s, t, [e], events);
      events := [e] + events;
    }

    /** Moves the selector, unless it names the slot already. */
    method SelectIfOther(slot: U8, generation: U32, ghost tx: Tx) returns (o: Outcome, ghost events: seq<Event>)
      requires pc == ActivateRead(slot, generation) && Activatable(nvs, slot, generation)
      modifies this
      ensures Steps(old(Abs()), Task(old(pc), tx), events) == (Abs(), Task(pc, tx))
      ensures o.Returned? ==> pc == Idle
      ensures o.Ok() ==> nvs.active == Some(slot) && Load(nvs).Some? && Load(nvs).value.generation == generation
      ensures !faulty ==> (o.Ok() <==> old(nvs).active.Some?)
    {
      events := [];
      ghost var s, t := Abs(), Task(pc, tx);
      var cut, err, other;
      ghost var e;
      cut, err, other, e := ReadSelector(slot, generation, tx, ActivateFlip(slot, generation));
      if cut { return Outcome.PowerCut, events; }
      OneStep(s, t, e);
      if err != OK || !other {
        FinishUnowned(tx);
        StepsMore(s, t, [e], Go(Fine));
        return Returned(err), [e] + [Go(Fine)];
      }
      o, events := FlipAndFinish(slot, generation, tx);
      StepsCompose(s, t, [e], events);
      events := [e] + events;
    }

    method FlipAndFinish(slot: U8, generation: U32, ghost tx: Tx) returns (o: Outcome, ghost events: seq<Event>)
      requires pc == ActivateFlip(slot, generation)
      modifies this
      ensures Steps(old(Abs()), Task(old(pc), tx), events) == (Abs(), Task(pc, tx))
      ensures o.Returned? ==> pc == Idle
      ensures o.Ok() ==> nvs == old(nvs).(active := Some(slot))
      ensures !faulty ==> o.Ok()
    {
      events := [];
      ghost var s, t := Abs(), Task(pc, tx);
      var cut, err;
      ghost var e;
      cut, err, e := Flip(slot, generation, tx);
      if cut { return Outcome.PowerCut, events; }
      OneStep(s, t, e);
      FinishUnowned(tx);
      StepsMore(s, t, [e], Go(Fine));
      return Returned(err), [e] + [Go(Fine)];
    }

    /** The end of both discards: erases the slot if it holds that generation. */
    method EraseGeneration(slot: U8, generation: U32, ghost tx: Tx)
      returns (cut: bool, err: EspErr, ghost events: seq<Event>)
      requires pc == DiscardChecked(slot, generation)
      modifies this
      ensures Steps(old(Abs()), Task(old(pc), tx), events) == (Abs(), Task(pc, tx))
      ensures !cut ==> pc == UnownedDone
      ensures nvs.active == old(nvs).active
      ensures !cut && (err == OK || err == NVS_NOT_FOUND) ==> At(nvs, slot).Missing?
      ensures !cut && err == INVALID_STATE ==> At(nvs, slot).Stored? && At(nvs, slot).c.generation != generation
      ensures !faulty ==>
                !cut && (err == OK || err == NVS_NOT_FOUND <==>
                         At(old(nvs), slot).Missing? ||
                         (ReadError(At(old(nvs), slot)) == OK && At(old(nvs), slot).c.generation == generation))
      ensures !faulty ==>
                (err == INVALID_STATE <==>
                 ReadError(At(old(nvs), slot)) == OK && At(old(nvs), slot).c.generation != generation)
    {
      ghost var s, t := Abs(), Task(pc, tx);
      ghost var e;
      cut, err, e := ReadStaged(slot, generation, tx, EraseReady(slot));
      if cut { return cut, err, []; }
      OneStep(s, t, e);
      events := [e];
      if err == OK {
        ghost var e';
        cut, err, e' := EraseKey(slot, tx);
        if cut { return; }
        StepsMore(s, t, [e], e');
        events := [e] + [e'];
      }
    }

    /** `pm_config_discard_staged`: refuses the selected slot; on success the slot is empty. */
    method DiscardStaged(slot: U8, generation: U32, ghost tx: Tx) returns (o: Outcome, ghost events: seq<Event>)
      requires pc == Idle
      modifies this
      ensures Steps(old(Abs()), Task(Idle, tx), events) == (Abs(), Task(pc, tx))
      ensures o.Returned? ==> pc == Idle
      ensures o.Ok() ==> nvs.active.Some? && nvs.active != Some(slot) && At(nvs, slot).Missing?
      ensures !faulty ==> (o.Ok() <==> DiscardSucceeds(old(Abs()), slot, generation))
    {
      events := [];
      if !IsSlot(slot) || generation == 0 { return Returned(INVALID_ARG), events; }
      o := Resource(!faulty);
      if !o.Ok() { return; }
      ghost var s, t := Abs(), Task(Idle, tx);
      var claimed := ClaimUnowned();
      if !claimed { return Returned(INVALID_STATE), events; }
      pc := DiscardClaimed(slot, generation);
      OneStep(s, t, Discard(slot, generation));
      o, events := DiscardUnselected(slot, generation, tx);
      StepsCompose(s, t, [Discard(slot, generation)], events);
      events := [Discard(slot, generation)] + events;
    }

    /** What it does once the mutation is claimed. */
    method DiscardUnselected(slot: U8, generation: U32, ghost tx: Tx) returns (o: Outcome, ghost events: seq<Event>)
      requires pc == DiscardClaimed(slot, generation)
      modifies this
      ensures Steps(old(Abs()), Task(old(pc), tx), events) == (Abs(), Task(pc, tx))
      ensures o.Returned? ==> pc == Idle
      ensures o.Ok() ==> nvs.active.Some? && nvs.active != Some(slot) && At(nvs, slot).Missing?
      ensures !faulty && IsSlot(slot) ==>
                (o.Ok() <==>
                 old(nvs).active.Some? && Spare(old(nvs), slot) &&
                 (At(old(nvs), slot).Missing? || Activatable(old(nvs), slot, generation)))
    {
      events := [];
      ghost var s, t := Abs(), Task(pc, tx);
      var cut, err, other;
      ghost var e;
      cut, err, other, e := ReadSelector(slot, generation, tx, DiscardChecked(slot, generation));
      if cut { return Outcome.PowerCut, events; }
      OneStep(s, t, e);
      if err != OK || !other {
        FinishUnowned(tx);
        StepsMore(s, t, [e], Go(Fine));
        return Returned(if err == OK then INVALID_STATE else err), [e] + [Go(Fine)];
      }
      o, events := DiscardChosen(slot, generation, tx);
      StepsCompose(s, t, [e], events);
      events := [e] + events;
    }

    /** Erases the slot if it holds the generation, and finds nothing wrong with an empty one. */
    method DiscardChosen(slot: U8, generation: U32, ghost tx: Tx) returns (o: Outcome, ghost events: seq<Event>)
      requires pc == DiscardChecked(slot, generation)
      modifies this
      ensures Steps(old(Abs()), Task(old(pc), tx), events) == (Abs(), Task(pc, tx))
      ensures (o.Returned? ==> pc == Idle) && nvs.active == old(nvs).active
      ensures o.Ok() ==> At(nvs, slot).Missing?
      ensures !faulty && IsSlot(slot) ==>
                (o.Ok() <==> At(old(nvs), slot).Missing? || Activatable(old(nvs), slot, generation))
    {
      ghost var s, t := Abs(), Task(pc, tx);
      var cut, err;
      cut, err, events := EraseGeneration(slot, generation, tx);
      if cut { return Outcome.PowerCut, events; }
      FinishUnowned(tx);
      StepsMore(s, t, events, Go(Fine));
      events := events + [Go(Fine)];
      o := Returned(if err == NVS_NOT_FOUND then OK else err);
    }

    /** `pm_config_discard_inactive_generation`: on success the other slot is empty or of another generation. */
    method DiscardInactiveGeneration(generation: U32, ghost tx: Tx) returns (o: Outcome, ghost events: seq<Event>)
      requires pc == Idle
      modifies this
      ensures Steps(old(Abs()), Task(Idle, tx), events) == (Abs(), Task(pc, tx))
      ensures o.Returned? ==> pc == Idle
      ensures o.Ok() ==> nvs.active.Some? && IsSlot(nvs.active.value) &&
                         var blob := At(nvs, Other(nvs.active.value));
                         blob.Missing? || (blob.Stored? && blob.c.generation != generation)
      ensures !faulty ==> (o.Ok() <==> DiscardOtherSucceeds(old(Abs()), generation))
    {
      events := [];
      if generation == 0 { return Returned(INVALID_ARG), events; }
      o := Resource(!faulty);
      if !o.Ok() { return; }
      ghost var s, t := Abs(), Task(Idle, tx);
      var claimed := ClaimUnowned();
      if !claimed { return Returned(INVALID_STATE), events; }
      pc := DiscardOtherClaimed(generation);
      OneStep(s, t, DiscardOther(generation));
      o, events := DiscardOtherSlot(generation, tx);
      StepsCompose(s, t, [DiscardOther(generation)], events);
      events := [DiscardOther(generation)] + events;
    }

    /** What it does once the mutation is claimed. */
    method DiscardOtherSlot(generation: U32, ghost tx: Tx) returns (o: Outcome, ghost events: seq<Event>)
      requires pc == DiscardOtherClaimed(generation)
      modifies this
      ensures Steps(old(Abs()), Task(old(pc), tx), events) == (Abs(), Task(pc, tx))
      ensures o.Returned? ==> pc == Idle
      ensures o.Ok() ==> nvs.active.Some? && IsSlot(nvs.active.value) &&
                         var blob := At(nvs, Other(nvs.active.value));
                         blob.Missing? || (blob.Stored? && blob.c.generation != generation)
      ensures !faulty ==>
                (o.Ok() <==>
                 SelectorNames(old(nvs)) &&
                 (At(old(nvs), Other(old(nvs).active.value)).Missing? ||
                  ReadError(At(old(nvs), Other(old(nvs).active.value))) == OK))
    {
      events := [];
      ghost var s, t := Abs(), Task(pc, tx);
      var cut, err, slot;
      ghost var e;
      cut, err, slot, e := ReadInactive(generation, tx);
      if cut { return Outcome.PowerCut, events; }
      StepsMore(s, t, events, e);
      events := events + [e];
      if err == OK {
        ghost var more;
        cut, err, more := EraseGeneration(slot, generation, tx);
        StepsCompose(s, t, events, more);
        events := events + more;
        if cut { return Outcome.PowerCut, events; }
        if err == NVS_NOT_FOUND || err == INVALID_STATE { err := OK; }
      }
      FinishUnowned(tx);
      StepsMore(s, t, events, Go(Fine));
      events := events + [Go(Fine)];
      o := Returned(err);
    }

    /** `pm_config_erase_inactive`. */
    method EraseInactiveSlot(ghost tx: Tx) returns (o: Outcome, ghost events: seq<Event>)
      requires pc == Idle
      modifies this
      ensures Steps(old(Abs()), Task(Idle, tx), events) == (Abs(), Task(pc, tx))
      ensures o.Returned? ==> pc == Idle
      ensures o.Ok() ==> nvs.active.Some? && IsSlot(nvs.active.value) && At(nvs, Other(nvs.active.value)).Missing?
      ensures !faulty ==> (o.Ok() <==> Unclaimed(old(Abs())) && SelectorNames(old(nvs)))
    {
      events := [];
      ghost var s, t := Abs(), Task(Idle, tx);
      var claimed := ClaimUnowned();
      if !claimed { return Returned(INVALID_STATE), events; }
      pc := EraseClaimed;
      StepsMore(s, t, events, EraseInactive);
      events := events + [EraseInactive];
      var cut, err, slot;
      ghost var e;
      cut, err, slot, e := ReadInactive(0, tx);
      if cut { return Outcome.PowerCut, events; }
      StepsMore(s, t, events, e);
      events := events + [e];
      if err == OK {
        cut, err, e := EraseKey(slot, tx);
        if cut { return Outcome.PowerCut, events; }
        StepsMore(s, t, events, e);
        events := events + [e];
      }
      FinishUnowned(tx);
      StepsMore(s, t, events, Go(Fine));
      events := events + [Go(Fine)];
      o := Returned(err);
    }
  }

  lemma {:induction false} StepsCompose(s: Shared, t: Task, a: seq<Event>, b: seq<Event>)
    ensures var (s', t') := Steps(s, t, a); Steps(s, t, a + b) == Steps(s', t', b)
    decreases |b|
  {
    if b == [] {
      assert a + b == a;
    } else {
      var front := b[..|b| - 1];
      StepsCompose(s, t, a, front);
      StepsMore(s, t, a + front, b[|b| - 1]);
      assert a + b == a + front + [b[|b| - 1]];
    }
  }

  function MovesOf(i: nat, events: seq<Event>): seq<Move> {
    if events == [] then [] else MovesOf(i, events[..|events| - 1]) + [Do(i, events[|events| - 1])]
  }

  /** So an operation is a run of moves of its task, and what `ConfigTasks` proves of every run holds of it. */
  lemma {:induction false} OperationsAreRuns(x: Sys, i: nat, events: seq<Event>)
    requires i in x.tasks
    ensures var (s, t) := Steps(x.shared, x.tasks[i], events); Run(x, MovesOf(i, events)) == Sys(s, x.tasks[i := t])
  {
    if events == [] {
      assert x.tasks[i := x.tasks[i]] == x.tasks;
    } else {
      var front := events[..|events| - 1];
      OperationsAreRuns(x, i, front);
      var moves := MovesOf(i, events);
      assert moves[..|moves| - 1] == MovesOf(i, front);
    }
  }

  /** No operation changes what boots, except to a validated configuration it committed or activated. */
  lemma OperationsKeepBooting(x: Sys, i: nat, events: seq<Event>)
    requires Inv(x) && i in x.tasks
    ensures var n := Steps(x.shared, x.tasks[i], events).0.nvs;
            Load(n) == Load(x.shared.nvs) || (Load(n).Some? && Load(n).value in Promoted(x, MovesOf(i, events)))
  {
    OperationsAreRuns(x, i, events);
    OnlyPromotedConfigurationsBoot(x, MovesOf(i, events));
  }
}
