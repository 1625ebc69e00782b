/**
 The stateless runtime around the ledger (main/app_main_stateless.c): the network task admits commands and
 queues pointers to their entries, the control task executes them, OTA tasks take commands over, and every boot
 reconciles what was interrupted. The command lock makes each method below atomic; their interleavings are all
 the sequences of calls. Ledger writes may fail and power may be cut in any of them.
 */
module CommandRuntime {
  import opened Esp
  import opened CommandLedger

  const QUEUE_DEPTH: nat := SIZE

  /** A pointer into the ledger; `id` names the command it was made for. */
  datatype Ticket = Ticket(slot: nat, id: string)

  /** Everything that points into the ledger. */
  datatype Hands = Hands(queue: seq<Ticket>, executing: Option<Ticket>, pending: Option<Ticket>, ota: set<Ticket>)

  const EMPTY_HANDS := Hands([], None, None, {})

  predicate Live(c: Command) { Occupied(c) && !Terminal(c.state) }

  /** Commands that are run again when a reboot interrupted them. */
  predicate Repeatable(kind: nat) {
    kind == DIAGNOSTICS_SNAPSHOT || kind == NETWORK_SELF_TEST || kind == METER_SELF_TEST
  }

  /** The ticket still points at the unfinished command it was made for. */
  predicate Good(entries: seq<Command>, t: Ticket) {
    t.slot < |entries| && Live(entries[t.slot]) && entries[t.slot].id == t.id
  }

  /** A command that must not be repeated is only ever waiting before its first start. */
  predicate Startable(entries: seq<Command>, t: Ticket, started: set<nat>) {
    t.slot < |entries| && (Repeatable(entries[t.slot].kind) || t.slot !in started)
  }

  predicate Queues(h: Hands, slot: nat) { exists i :: 0 <= i < |h.queue| && h.queue[i].slot == slot }

  predicate NoSharing(ts: seq<Ticket>) { forall i, j :: 0 <= i < j < |ts| ==> ts[i].slot != ts[j].slot }

  /** Nobody's hands hold the slot. */
  predicate Clear(h: Hands, slot: nat) {
    && (forall i :: 0 <= i < |h.queue| ==> h.queue[i].slot != slot)
    && (h.executing.Some? ==> h.executing.value.slot != slot)
    && (h.pending.Some? ==> h.pending.value.slot != slot)
    && (forall t :: t in h.ota ==> t.slot != slot)
  }

  /** All tickets are good and no two point at the same entry. */
  predicate Sound(entries: seq<Command>, h: Hands) {
    && (forall i :: 0 <= i < |h.queue| ==> Good(entries, h.queue[i]))
    && NoSharing(h.queue)
    && (forall t :: t in h.ota ==> Good(entries, t) && Clear(h.(ota := {}), t.slot))
    && (h.executing.Some? ==>
        Good(entries, h.executing.value) && Clear(Hands(h.queue, None, h.pending, {}), h.executing.value.slot))
    && (h.pending.Some? ==>
        Good(entries, h.pending.value) && Clear(Hands(h.queue, None, None, {}), h.pending.value.slot))
  }

  /** What is queued, about to be queued or taken from the queue may still be started. */
  predicate Fresh(entries: seq<Command>, h: Hands, started: set<nat>) {
    && (forall i :: 0 <= i < |h.queue| ==> Startable(entries, h.queue[i], started))
    && (h.pending.Some? ==> Startable(entries, h.pending.value, started))
    && (h.executing.Some? ==> Startable(entries, h.executing.value, started))
  }

  /* ---- What has been started ---- */

  /** The history of the ledger's entries, through any number of reboots. */
  datatype Event = Admission(slot: nat) | Launch(slot: nat, kind: nat)

  /** The entries whose command has been started since it was admitted. */
  function StartedSet(h: seq<Event>): set<nat> {
    if h == [] then {}
    else
      var front := StartedSet(h[..|h| - 1]);
      match h[|h| - 1]
      case Admission(slot) => front - {slot}
      case Launch(slot, _) => front + {slot}
  }

  predicate AdmittedBetween(h: seq<Event>, i: nat, j: nat, slot: nat)
    requires j <= |h|
  {
    exists m :: i < m < j && h[m] == Admission(slot)
  }

  /** Between two starts of an entry lies an admission, unless it holds a snapshot or a self-test. */
  predicate OncePerAdmission(h: seq<Event>) {
    forall i, j :: 0 <= i < j < |h| && h[i].Launch? && h[j].Launch? && h[i].slot == h[j].slot &&
                   h[j].kind != DIAGNOSTICS_SNAPSHOT && h[j].kind != NETWORK_SELF_TEST &&
                   h[j].kind != METER_SELF_TEST ==>
      AdmittedBetween(h, i, j, h[j].slot)
  }

  lemma StartedSnoc(h: seq<Event>, e: Event)
    ensures StartedSet(h + [e]) == if e.Admission? then StartedSet(h) - {e.slot} else StartedSet(h) + {e.slot}
  {
    assert (h + [e])[..|h|] == h;
  }

  lemma {:induction false} StartedMeans(h: seq<Event>, i: nat, slot: nat)
    requires i < |h| && h[i].Launch? && h[i].slot == slot && slot !in StartedSet(h)
    ensures AdmittedBetween(h, i, |h|, slot)
  {
    var front := h[..|h| - 1];
    if h[|h| - 1] != Admission(slot) {
      StartedMeans(front, i, slot);
      var m :| i < m < |front| && front[m] == Admission(slot);
      assert h[m] == Admission(slot);
    }
  }

  lemma AdmissionIsOnce(h: seq<Event>, slot: nat)
    requires OncePerAdmission(h)
    ensures OncePerAdmission(h + [Admission(slot)])
  {
    BetweenIsKept(h, Admission(slot));
  }

  lemma BetweenIsKept(h: seq<Event>, e: Event)
    ensures forall i: nat, j: nat, slot: nat :: j <= |h| && AdmittedBetween(h, i, j, slot) ==>
              AdmittedBetween(h + [e], i, j, slot)
  {
    forall i: nat, j: nat, slot: nat | j <= |h| && AdmittedBetween(h, i, j, slot)
      ensures AdmittedBetween(h + [e], i, j, slot)
    {
      var m :| i < m < j && h[m] == Admission(slot);
      assert (h + [e])[m] == h[m];
    }
  }

  /** A start is in order if the entry was not started since its admission, or its command may be repeated. */
  lemma StartIsOnce(h: seq<Event>, slot: nat, kind: nat)
    requires OncePerAdmission(h) && (Repeatable(kind) || slot !in StartedSet(h))
    ensures OncePerAdmission(h + [Launch(slot, kind)])
  {
    BetweenIsKept(h, Launch(slot, kind));
    if !Repeatable(kind) {
      forall i | 0 <= i < |h| && h[i].Launch? && h[i].slot == slot ensures AdmittedBetween(h, i, |h|, slot) {
        StartedMeans(h, i, slot);
      }
    }
  }

  /* ---- Counting ---- */

  lemma {:induction false} SlotCount(ts: seq<Ticket>)
    requires NoSharing(ts)
    ensures |set i | 0 <= i < |ts| :: ts[i].slot| == |ts|
  {
    if ts != [] {
      var front, last := ts[..|ts| - 1], ts[|ts| - 1].slot;
      SlotCount(front);
      assert (set i | 0 <= i < |ts| :: ts[i].slot) == (set i | 0 <= i < |front| :: front[i].slot) + {last};
    }
  }

  lemma {:induction false} BoundedSize(s: set<nat>, n: nat)
    requires forall x :: x in s ==> x < n
    ensures |s| <= n
  {
    if n == 0 {
      assert s == {};
    } else {
      BoundedSize(s - {n - 1}, n - 1);
    }
  }

  /** A ticket about to be queued always finds room. */
  lemma RoomForPending(entries: seq<Command>, h: Hands)
    requires Sound(entries, h) && h.pending.Some?
    ensures |h.queue| < |entries|
  {
    var all := h.queue + [h.pending.value];
    assert forall i :: 0 <= i < |all| ==> Good(entries, all[i]);
    SlotCount(all);
    BoundedSize(set i | 0 <= i < |all| :: all[i].slot, |entries|);
  }

  /* ---- How hands change ---- */

  lemma QueuedIsSound(entries: seq<Command>, h: Hands)
    requires Sound(entries, h) && h.pending.Some?
    ensures Sound(entries, h.(queue := h.queue + [h.pending.value], pending := None))
  {
  }

  lemma QueuedIsFresh(entries: seq<Command>, h: Hands, started: set<nat>)
    requires h.pending.Some? && Fresh(entries, h, started)
    ensures Fresh(entries, h.(queue := h.queue + [h.pending.value], pending := None), started)
  {
  }

  lemma TakenIsSound(entries: seq<Command>, h: Hands, started: set<nat>)
    requires Sound(entries, h) && h.queue != [] && h.executing.None? && Fresh(entries, h, started)
    ensures var h' := h.(queue := h.queue[1..], executing := Some(h.queue[0]));
            Sound(entries, h') && Fresh(entries, h', started)
  {
  }

  lemma HeldIsSound(entries: seq<Command>, h: Hands, t: Ticket)
    requires Sound(entries, h) && Good(entries, t) && Clear(h, t.slot)
    ensures Sound(entries, h.(ota := h.ota + {t}))
    ensures h.executing.None? ==> Sound(entries, h.(executing := Some(t)))
  {
  }

  lemma DroppedIsSound(entries: seq<Command>, h: Hands)
    requires Sound(entries, h)
    ensures Sound(entries, h.(executing := None))
    ensures h.executing.Some? ==> Clear(h.(executing := None), h.executing.value.slot)
  {
  }

  lemma OtaEndedIsSound(entries: seq<Command>, h: Hands, t: Ticket)
    requires Sound(entries, h) && t in h.ota
    ensures Sound(entries, h.(ota := h.ota - {t})) && Clear(h.(ota := h.ota - {t}), t.slot)
  {
    assert forall u :: u in h.ota && u.slot == t.slot ==> u == t;
  }

  /* ---- How the ledger changes under them ---- */

  /** An entry nobody holds may become anything. */
  lemma UnheldChange(entries: seq<Command>, h: Hands, started: set<nat>, i: nat, c: Command)
    requires Sound(entries, h) && i < |entries| && Clear(h, i)
    ensures Sound(entries[i := c], h) && (Fresh(entries, h, started) ==> Fresh(entries[i := c], h, started))
  {
  }

  /** An entry somebody holds stays good while it stays unfinished under its id. */
  lemma LiveChange(entries: seq<Command>, h: Hands, started: set<nat>, i: nat, c: Command)
    requires Sound(entries, h) && i < |entries| && Live(c) && c.id == entries[i].id && c.kind == entries[i].kind
    ensures Sound(entries[i := c], h) && (Fresh(entries, h, started) ==> Fresh(entries[i := c], h, started))
  {
  }

  /** An entry that may be recycled, or that has succeeded, is nobody's. */
  lemma FinishedIsUnheld(entries: seq<Command>, h: Hands, i: nat)
    requires Sound(entries, h) && i < |entries| && !Live(entries[i])
    ensures Clear(h, i)
  {
  }

  lemma FinishedChange(entries: seq<Command>, h: Hands, restarting: bool, started: set<nat>, i: nat, c: Command)
    requires Sound(entries, h) && i < |entries| && !Live(entries[i])
    ensures Clear(h, i) && Sound(entries[i := c], h)
    ensures Fresh(entries, ToStart(h, restarting), started) ==> Fresh(entries[i := c], ToStart(h, restarting), started)
  {
    FinishedIsUnheld(entries, h, i);
    UnheldChange(entries, h, started, i, c);
    DroppedIsSound(entries, h);
    UnheldChange(entries, ToStart(h, restarting), started, i, c);
  }

  lemma NewTicketIsSound(entries: seq<Command>, h: Hands, t: Ticket)
    requires Sound(entries, h) && Good(entries, t) && Clear(h, t.slot) && h.pending.None?
    ensures Sound(entries, h.(pending := Some(t)))
  {
  }

  lemma NewTicketIsFresh(entries: seq<Command>, h: Hands, started: set<nat>, t: Ticket)
    requires Fresh(entries, h, started) && Startable(entries, t, started)
    ensures Fresh(entries, h.(pending := Some(t)), started)
  {
  }

  lemma FewerAreFresh(entries: seq<Command>, h: Hands, started: set<nat>, slot: nat)
    requires Fresh(entries, h, started)
    ensures Fresh(entries, h, started - {slot})
  {
  }

  lemma EnteredIsFresh(entries: seq<Command>, h: Hands, was: seq<Event>, slot: nat, now: seq<Event>)
    requires Fresh(entries, h, StartedSet(was)) && OncePerAdmission(was) && now == was + [Admission(slot)]
    ensures Fresh(entries, h, StartedSet(now)) && OncePerAdmission(now) && slot !in StartedSet(now)
  {
    AdmissionIsOnce(was, slot);
    StartedSnoc(was, Admission(slot));
    FewerAreFresh(entries, h, StartedSet(was), slot);
  }

  lemma MatchIsMember(entries: seq<Command>, incoming: Incoming)
    ensures (exists i :: 0 <= i < |entries| && Matches(entries[i], incoming)) <==>
            (exists c :: c in entries && (c.id == incoming.id || c.key == incoming.key))
  {
    if c :| c in entries && (c.id == incoming.id || c.key == incoming.key) {
      var i :| 0 <= i < |entries| && entries[i] == c;
      assert Matches(entries[i], incoming);
    }
  }

  lemma LiveIsUnpinned(l: Ledger, i: nat)
    requires LedgerValid(l) && i < SIZE && Live(l.entries[i])
    ensures !l.entries[i].ackRequired
  {
    assert EntryValid(l.entries[i]);
  }

  /** Started commands are no longer fresh. */
  function ToStart(h: Hands, restarting: bool): Hands { if restarting then h.(executing := None) else h }

  class Runtime {
    const ledger: Store
    var hands: Hands
    var otaClaimed: bool
    var restarting: bool
    ghost var history: seq<Event>

    /**
     The queue holds distinct, unfinished ledger entries, none of which anybody else holds, and each still
     belongs to the command it was queued for.
     */
    ghost predicate Valid()
      reads this, ledger
    {
      ledger.Ready() && Sound(ledger.entries, hands) && OncePerAdmission(history) &&
      Fresh(ledger.entries, ToStart(hands, restarting), StartedSet(history))
    }

    /** Without power: only the ledger in NVS is left, and what has happened. */
    ghost predicate Off()
      reads this, ledger
    {
      ledger.Valid() && !ledger.loaded && hands == EMPTY_HANDS && !restarting && OncePerAdmission(history)
    }

    constructor (ledger: Store)
      requires ledger.Valid() && !ledger.loaded
      ensures Off() && this.ledger == ledger
    {
      this.ledger := ledger;
      hands, otaClaimed, restarting, history := EMPTY_HANDS, false, false, [];
    }

    method LosePower()
      requires ledger.Valid() && OncePerAdmission(history)
      modifies this`hands, this`otaClaimed, this`restarting, ledger`loaded
      ensures Off()
    {
      ledger.loaded := false;
      hands, otaClaimed, restarting := EMPTY_HANDS, false, false;
    }

    /** The network task: a command that is neither a redelivery nor expired is to be queued. */
    method Admit(incoming: Incoming, now: int) returns (o: Outcome)
      requires Valid() && hands.pending.None?
      modifies this, ledger
      ensures if o.PowerCut? then Off() else Valid() && hands.(pending := None) == old(hands)
      ensures old(history) <= history && |history| <= |old(history)| + 1
      ensures o.Returned? && hands.pending.Some? ==>
                o.Ok() && hands.pending.value.id == incoming.id && Clear(old(hands), hands.pending.value.slot)
      ensures o.Returned? ==>
                (hands.pending.Some? <==>
                 o.Ok() && forall c :: c in old(ledger.entries) ==> c.id != incoming.id && c.key != incoming.key)
      ensures o.Returned? && hands.pending.Some? ==>
                var slot := hands.pending.value.slot;
                now <= incoming.expires && slot < SIZE && history == old(history) + [Admission(slot)] &&
                ledger.entries[slot].kind == incoming.kind && ledger.entries[slot].state.Accepted? &&
                ledger.entries[slot].payload == incoming.payload
    {
      var stored, isNew;
      o, stored, isNew := AcceptIncoming(incoming, now);
      if isNew && o.Ok() {
        Enter(stored);
        Hold(Ticket(stored, incoming.id));
      }
    }

    /** The ledger's part of it; `isNew` says that the command is a new one. */
    method AcceptIncoming(incoming: Incoming, now: int) returns (o: Outcome, stored: nat, isNew: bool)
      requires Valid() && hands.pending.None?
      modifies this`hands, this`otaClaimed, this`restarting, ledger
      ensures if o.PowerCut? then Off() else Valid() && hands == old(hands)
      ensures o.Ok() ==>
                (isNew <==> forall c :: c in old(ledger.entries) ==> c.id != incoming.id && c.key != incoming.key)
      ensures o.Ok() && isNew ==>
                now <= incoming.expires && stored < SIZE && Clear(hands, stored) &&
                Good(ledger.entries, Ticket(stored, incoming.id)) &&
                ledger.entries[stored].kind == incoming.kind && ledger.entries[stored].state.Accepted? &&
                ledger.entries[stored].payload == incoming.payload
    {
      ghost var before := ledger.entries;
      var duplicate;
      o, stored, duplicate := ledger.Accept(incoming, now);
      isNew := !duplicate;
      if o.PowerCut? { LosePower(); return; }
      MatchIsMember(before, incoming);
      if isNew && (o.Ok() || o == Returned(TIMEOUT)) {
        FinishedChange(before, hands, restarting, StartedSet(history), stored, Admitted(incoming, now));
      }
    }

    /** An entry is given to another command. */
    ghost method Enter(slot: nat)
      requires Valid() && slot < SIZE && Clear(hands, slot)
      modifies this`history
      ensures Valid() && history == old(history) + [Admission(slot)] && slot !in StartedSet(history)
    {
      ghost var h := history + [Admission(slot)];
      EnteredIsFresh(ledger.entries, ToStart(hands, restarting), history, slot, h);
      history := h;
    }

    method Hold(ticket: Ticket)
      requires Valid() && hands.pending.None? && Good(ledger.entries, ticket) && Clear(hands, ticket.slot)
      requires Startable(ledger.entries, ticket, StartedSet(history))
      modifies this`hands
      ensures Valid() && hands == old(hands).(pending := Some(ticket))
    {
      NewTicketIsSound(ledger.entries, hands, ticket);
      NewTicketIsFresh(ledger.entries, ToStart(hands, restarting), StartedSet(history), ticket);
      hands := hands.(pending := Some(ticket));
    }

    /** `command_received`: the queue, as deep as the ledger, never rejects a send. */
    method Send() returns (sent: bool)
      requires Valid() && hands.pending.Some?
      modifies this`hands
      ensures Valid() && sent
      ensures hands == old(hands).(queue := old(hands).queue + [old(hands).pending.value], pending := None)
    {
      RoomForPending(ledger.entries, hands);
      QueuedIsSound(ledger.entries, hands);
      QueuedIsFresh(ledger.entries, ToStart(hands, restarting), StartedSet(history));
      sent := |hands.queue| < QUEUE_DEPTH;
      hands := hands.(queue := hands.queue + (if sent then [hands.pending.value] else []), pending := None);
    }

    /** The control task takes the oldest ticket; its entry is still that of the command it was queued for. */
    method Receive()
      requires Valid() && !restarting && hands.executing.None? && hands.queue != []
      modifies this`hands
      ensures Valid() && hands == old(hands).(queue := old(hands).queue[1..], executing := Some(old(hands).queue[0]))
      ensures Good(ledger.entries, old(hands).queue[0])
    {
      TakenIsSound(ledger.entries, hands, StartedSet(history));
      hands := hands.(queue := hands.queue[1..], executing := Some(hands.queue[0]));
    }

    /** A ledger transition of an entry; it stays unfinished, or nobody holds it. */
    method Move(slot: nat, state: State, progress: nat, code: int) returns (o: Outcome)
      requires Valid() && slot < SIZE && Occupied(ledger.entries[slot]) && !ledger.entries[slot].ackRequired
      requires !Terminal(state) || Clear(hands, slot)
      modifies this, ledger
      ensures if o.PowerCut? then Off() else Valid() && hands == old(hands) && restarting == old(restarting)
      ensures history == old(history) && (o.Returned? ==> otaClaimed == old(otaClaimed))
      ensures o.Returned? && !o.Ok() ==> ledger.entries == old(ledger.entries)
      ensures o.Ok() ==>
                var c := Transitioned(old(ledger.entries)[slot], state, progress, code);
                ledger.entries == old(ledger.entries)[slot := c] && progress >= old(ledger.entries)[slot].progress
    {
      var before := ledger.entries;
      o := ledger.Transition(slot, state, progress, code);
      if o.PowerCut? { LosePower(); return; }
      if o.Ok() {
        var c := Transitioned(before[slot], state, progress, code);
        if Terminal(state) {
          UnheldChange(before, hands, StartedSet(history), slot, c);
          UnheldChange(before, ToStart(hands, restarting), StartedSet(history), slot, c);
        } else {
          LiveChange(before, hands, StartedSet(history), slot, c);
          LiveChange(before, ToStart(hands, restarting), StartedSet(history), slot, c);
        }
      }
    }

    /** The control or an OTA task works on a command that nobody else holds. */
    ghost predicate Carries(t: Ticket)
      reads this, ledger
    {
      Valid() && Good(ledger.entries, t) && Clear(hands, t.slot)
    }

    /** A step of a carried command that leaves it unfinished, or ends it. */
    method Advance(t: Ticket, state: State, progress: nat, code: int) returns (o: Outcome)
      requires Carries(t)
      modifies this, ledger
      ensures if o.PowerCut? then Off()
              else
                Valid() && hands == old(hands) && restarting == old(restarting) && otaClaimed == old(otaClaimed)
      ensures history == old(history)
      ensures o.Returned? && (!Terminal(state) || !o.Ok()) ==>
                Carries(t) && ledger.entries[t.slot].kind == old(ledger.entries)[t.slot].kind
      ensures o.Ok() ==>
                var was := old(ledger.entries)[t.slot];
                ledger.entries == old(ledger.entries)[
                  t.slot := was.(state := state, progress := progress, code := code)] && progress >= was.progress
      ensures o.Returned? && !o.Ok() ==> ledger.entries == old(ledger.entries)
    {
      LiveIsUnpinned(ledger.Mem(), t.slot);
      o := Move(t.slot, state, progress, code);
    }

    /** The control task lets go of its ticket to start the command. */
    method Start() returns (t: Ticket)
      requires Valid() && !restarting && hands.executing.Some?
      modifies this`hands, this`history
      ensures Carries(t) && t == old(hands).executing.value && hands == old(hands).(executing := None)
      ensures history == old(history) + [Launch(t.slot, ledger.entries[t.slot].kind)]
    {
      t := hands.executing.value;
      ghost var kind := ledger.entries[t.slot].kind;
      DroppedIsSound(ledger.entries, hands);
      hands := hands.(executing := None);
      StartIsFresh(ledger.entries, hands, StartedSet(history), t.slot);
      StartIsOnce(history, t.slot, kind);
      StartedSnoc(history, Launch(t.slot, kind));
      history := history + [Launch(t.slot, kind)];
    }

    method Restart(t: Ticket) returns (o: Outcome)
      requires Carries(t) && !restarting && hands.executing.None?
      modifies this, ledger
      ensures o.PowerCut? ==> Off()
      ensures history == old(history) && (o.Returned? ==> otaClaimed == old(otaClaimed))
      ensures o.Ok() ==> Valid() && restarting && hands == old(hands).(executing := Some(t))
      ensures o.Ok() ==>
                var was := old(ledger.entries)[t.slot];
                ledger.entries == old(ledger.entries)[
                  t.slot := was.(state := AwaitingReboot, progress := 100, code := 0)]
      ensures o.Returned? && !o.Ok() ==>
                Carries(t) && !restarting && hands == old(hands) && ledger.entries == old(ledger.entries)
    {
      o := Advance(t, AwaitingReboot, 100, 0);
      if o.Ok() {
        HeldIsSound(ledger.entries, hands, t);
        hands, restarting := hands.(executing := Some(t)), true;
      }
    }

    method StartOta(t: Ticket, resources: bool) returns (started: bool)
      requires Carries(t) && !restarting
      modifies this`hands, this`otaClaimed
      ensures if started then Valid() && hands == old(hands).(ota := old(hands).ota + {t})
              else Carries(t) && hands == old(hands)
      ensures var f := OtaStart(OtaFlag(old(otaClaimed), |old(hands).ota|), resources);
              otaClaimed == f.active && (started <==> f.tasks > |old(hands).ota|)
    {
      started := !otaClaimed && resources;
      otaClaimed := started;
      if started {
        HeldIsSound(ledger.entries, hands, t);
        hands := hands.(ota := hands.ota + {t});
      }
    }

    /**
     `execute_command`, with what the meter answers to a self-test, and whether what an OTA task needs can be had. That
     a command is not started twice for one admission is part of `Valid` and of `Off`. Afterwards the control task holds
     nothing, unless the device is about to restart.
     */
    method Execute(meter: EspErr, needs: EspErr) returns (o: Outcome)
      requires Valid() && !restarting && hands.executing.Some?
      modifies this, ledger
      ensures o.PowerCut? ==> Off()
      ensures o.Returned? ==>
                Valid() && (hands.executing.None? || restarting) && hands.queue == old(hands).queue &&
                hands.pending == old(hands).pending
      ensures var slot := old(hands).executing.value.slot;
              history == old(history) + [Launch(slot, old(ledger.entries)[slot].kind)] && OncePerAdmission(history)
      ensures o.Ok() ==>
                var t := old(hands).executing.value;
                var was, now := old(ledger.entries)[t.slot], ledger.entries[t.slot];
                && ledger.entries == old(ledger.entries)[t.slot := now]
                && (t in hands.ota ==> (now == was || now == was.(state := Running, progress := 1, code := 0)))
      ensures o.Ok() ==>
                var t := old(hands).executing.value;
                var kind, now := old(ledger.entries)[t.slot].kind, ledger.entries[t.slot];
                && (restarting ==> kind == REBOOT && now.state.AwaitingReboot? && now.progress == 100)
                && (kind == REBOOT && !restarting ==> now.state.Failed?)
                && (t in hands.ota <==> kind == OTA_INSTALL && !old(otaClaimed) && needs == OK)
                && (kind == DIAGNOSTICS_SNAPSHOT || kind == NETWORK_SELF_TEST ||
                    (kind == METER_SELF_TEST && meter == OK) ==>
                      now.state.Succeeded? && now.progress == 100 && now.code == 0)
                && (kind == METER_SELF_TEST && meter != OK ==> now.state.Failed? && now.code == ErrorCode(meter))
                && (kind == OTA_INSTALL && t !in hands.ota ==>
                      now.state.Failed? && now.code == ErrorCode(if old(otaClaimed) then INVALID_STATE else needs))
                && (kind != REBOOT && kind != OTA_INSTALL && kind != DIAGNOSTICS_SNAPSHOT &&
                    kind != NETWORK_SELF_TEST && kind != METER_SELF_TEST ==>
                      now.state.Failed? && now.code == ErrorCode(NOT_SUPPORTED))
    {
      var t := Start();
      o := Carry(t, meter, needs);
    }

    /** What happens to the command the control task has taken. */
    method Carry(t: Ticket, meter: EspErr, needs: EspErr) returns (o: Outcome)
      requires Carries(t) && !restarting && hands.executing.None?
      modifies this, ledger
      ensures o.PowerCut? ==> Off()
      ensures history == old(history)
      ensures o.Returned? ==>
                Valid() && (hands.executing.None? || restarting) && hands.queue == old(hands).queue &&
                hands.pending == old(hands).pending
      ensures o.Ok() ==>
                var was, now := old(ledger.entries)[t.slot], ledger.entries[t.slot];
                && ledger.entries == old(ledger.entries)[t.slot := now]
                && (t in hands.ota ==> (now == was || now == was.(state := Running, progress := 1, code := 0)))
      ensures o.Ok() ==>
                var kind, now := old(ledger.entries)[t.slot].kind, ledger.entries[t.slot];
                && (restarting ==> kind == REBOOT && now.state.AwaitingReboot? && now.progress == 100)
                && (kind == REBOOT && !restarting ==> now.state.Failed?)
                && (t in hands.ota <==> kind == OTA_INSTALL && !old(otaClaimed) && needs == OK)
                && (kind == DIAGNOSTICS_SNAPSHOT || kind == NETWORK_SELF_TEST ||
                    (kind == METER_SELF_TEST && meter == OK) ==>
                      now.state.Succeeded? && now.progress == 100 && now.code == 0)
                && (kind == METER_SELF_TEST && meter != OK ==> now.state.Failed? && now.code == ErrorCode(meter))
                && (kind == OTA_INSTALL && t !in hands.ota ==>
                      now.state.Failed? && now.code == ErrorCode(if old(otaClaimed) then INVALID_STATE else needs))
                && (kind != REBOOT && kind != OTA_INSTALL && kind != DIAGNOSTICS_SNAPSHOT &&
                    kind != NETWORK_SELF_TEST && kind != METER_SELF_TEST ==>
                      now.state.Failed? && now.code == ErrorCode(NOT_SUPPORTED))
    {
      o := Advance(t, Running, 1, 0);
      if !o.PowerCut? { o := Perform(t, meter, needs); }
    }

    /** What is done for a command that is running, and the transition that ends it. */
    method Perform(t: Ticket, meter: EspErr, needs: EspErr) returns (o: Outcome)
      requires Carries(t) && !restarting && hands.executing.None?
      modifies this, ledger
      ensures o.PowerCut? ==> Off()
      ensures history == old(history)
      ensures o.Returned? ==>
                Valid() && (hands.executing.None? || restarting) && hands.queue == old(hands).queue &&
                hands.pending == old(hands).pending
      ensures o.Ok() ==>
                var was, now := old(ledger.entries)[t.slot], ledger.entries[t.slot];
                && ledger.entries == old(ledger.entries)[t.slot := now] && now.progress >= was.progress
                && (restarting ==> was.kind == REBOOT && now.state.AwaitingReboot? && now.progress == 100)
                && (t in hands.ota <==> was.kind == OTA_INSTALL && !old(otaClaimed) && needs == OK)
                && (t in hands.ota ==> now == was)
      ensures o.Ok() && !restarting && t !in hands.ota ==>
                var kind, now := old(ledger.entries)[t.slot].kind, ledger.entries[t.slot];
                if kind == DIAGNOSTICS_SNAPSHOT || kind == NETWORK_SELF_TEST || (kind == METER_SELF_TEST && meter == OK)
                then now.state.Succeeded? && now.progress == 100 && now.code == 0
                else
                  && now.state.Failed?
                  && (kind == METER_SELF_TEST ==> now.code == ErrorCode(meter))
                  && (kind == OTA_INSTALL ==> now.code == ErrorCode(if old(otaClaimed) then INVALID_STATE else needs))
                  && (kind != REBOOT && kind != OTA_INSTALL && kind != METER_SELF_TEST ==>
                        now.code == ErrorCode(NOT_SUPPORTED))
    {
      var kind := ledger.entries[t.slot].kind;
      var result := NOT_SUPPORTED;
      if kind == REBOOT {
        o := Restart(t);
        if o.PowerCut? || o.Ok() { return; }
        result := o.err;
      } else if kind == DIAGNOSTICS_SNAPSHOT || kind == NETWORK_SELF_TEST {
        result := OK;
      } else if kind == METER_SELF_TEST {
        result := meter;
      } else if kind == OTA_INSTALL {
        result := if otaClaimed then INVALID_STATE else needs;
        var started := StartOta(t, needs == OK);
        if started { return Returned(OK); }
      }
      o := End(t, result);
    }

    /** The transition that ends the execution of a command. */
    method End(t: Ticket, result: EspErr) returns (o: Outcome)
      requires Carries(t)
      modifies this, ledger
      ensures if o.PowerCut? then Off() else Valid() && hands == old(hands) && restarting == old(restarting)
      ensures history == old(history)
      ensures o.Ok() ==>
                var was, now := old(ledger.entries)[t.slot], ledger.entries[t.slot];
                && ledger.entries == old(ledger.entries)[t.slot := now] && now.progress >= was.progress
                && now.code == ErrorCode(result)
                && (if result == OK then now.state.Succeeded? && now.progress == 100 else now.state.Failed?)
    {
      o := Advance(t, if result == OK then Succeeded else Failed,
                   if result == OK then 100 else ledger.entries[t.slot].progress, ErrorCode(result));
    }

    /** `ota_progress`. */
    method OtaProgress(t: Ticket, percent: nat) returns (o: Outcome)
      requires Valid() && t in hands.ota
      modifies this, ledger
      ensures history == old(history)
      ensures if o.PowerCut? then Off() else Valid() && hands == old(hands)
      ensures o.Ok() ==>
                var was := old(ledger.entries)[t.slot];
                ledger.entries[t.slot] == was.(state := Running, progress := percent, code := 0) &&
                percent >= was.progress
    {
      LiveIsUnpinned(ledger.Mem(), t.slot);
      o := Move(t.slot, Running, percent, 0);
    }

    /** `ota_task` after a successful installation: the command waits for the restart, still held. */
    method OtaInstalled(t: Ticket) returns (o: Outcome)
      requires Valid() && t in hands.ota
      modifies this, ledger
      ensures history == old(history)
      ensures if o.PowerCut? then Off() else Valid() && hands == old(hands)
      ensures o.Ok() ==>
                ledger.entries[t.slot] ==
                old(ledger.entries)[t.slot].(state := AwaitingReboot, progress := 100, code := 0)
    {
      LiveIsUnpinned(ledger.Mem(), t.slot);
      o := Move(t.slot, AwaitingReboot, 100, 0);
    }

    /** `ota_task` after a failure, also one to record the success. */
    method OtaFailed(t: Ticket, result: EspErr) returns (o: Outcome)
      requires Valid() && t in hands.ota
      modifies this, ledger
      ensures history == old(history)
      ensures if o.PowerCut? then Off() else Valid() && hands == old(hands).(ota := old(hands).ota - {t}) && !otaClaimed
      ensures o.Ok() ==>
                ledger.entries[t.slot] == old(ledger.entries)[t.slot].(state := Failed, code := ErrorCode(result))
    {
      OtaEndedIsSound(ledger.entries, hands, t);
      hands := hands.(ota := hands.ota - {t});
      o := Advance(t, Failed, ledger.entries[t.slot].progress, ErrorCode(result));
      if o.Returned? { otaClaimed := false; }
    }

    /** `process_result_acknowledgements`: only results of finished commands are touched. */
    method Acknowledge(id: string) returns (o: Outcome)
      requires Valid()
      modifies this, ledger
      ensures history == old(history)
      ensures if o.PowerCut? then Off() else Valid() && hands == old(hands)
      ensures o.Ok() ==>
                exists i :: 0 <= i < SIZE &&
                  var was := old(ledger.entries)[i];
                  was.id == id && was.state.Succeeded? &&
                  ledger.entries == old(ledger.entries)[i := was.(ackRequired := false)]
      ensures o.Returned? && !o.Ok() ==> ledger.entries == old(ledger.entries)
    {
      var before := ledger.entries;
      ghost var l := ledger.Mem();
      o := ledger.AcknowledgeResult(id);
      if o.PowerCut? { LosePower(); return; }
      if o.Ok() {
        ghost var i :| AcknowledgedAt(l, id, i, ledger.Mem());
        FinishedIsUnheld(before, hands, i);
        UnheldChange(before, hands, StartedSet(history), i, before[i].(ackRequired := false));
        UnheldChange(before, ToStart(hands, restarting), StartedSet(history), i, before[i].(ackRequired := false));
      }
    }

    /**
     Start-up: load the ledger, then fail, complete or queue again whatever a reset interrupted. `found` are the entries
     as they were loaded.
     */
    method Boot(checkpoint: OtaCheckpoint) returns (o: Outcome, ghost found: seq<Command>)
      requires Off()
      modifies this, ledger
      ensures o.PowerCut? ==> Off()
      ensures history == old(history) && OncePerAdmission(history)
      ensures o.Ok() ==> Valid() && hands.pending.None? && hands.ota == {}
      ensures o.Ok() ==> found == if Choose(old(ledger.nvs)).Chosen? then Choose(old(ledger.nvs)).l.entries
                                  else BLANK.entries
      ensures o.Ok() ==> |found| == SIZE && AllReconciled(found, ledger.entries, hands, checkpoint, SIZE)
    {
      found := [];
      o := ledger.Load();
      if o.PowerCut? { LosePower(); return; }
      if !o.Ok() { return; }
      found := ledger.entries;
      o := Reconcile(checkpoint);
    }

    /** `reconcile_interrupted_commands`; the control task may already take tickets from the queue. */
    method Reconcile(checkpoint: OtaCheckpoint) returns (o: Outcome)
      requires Valid() && hands == EMPTY_HANDS && !restarting
      modifies this, ledger
      ensures o.PowerCut? ==> Off()
      ensures history == old(history)
      ensures o.Ok() ==> Valid() && hands.pending.None? && hands.ota == {}
      ensures o.Ok() ==> AllReconciled(old(ledger.entries), ledger.entries, hands, checkpoint, SIZE)
    {
      ghost var found := ledger.entries;
      o := Returned(OK);
      var i := 0;
      while i < SIZE
        invariant i <= SIZE && o.Ok() && Valid() && !restarting && hands.pending.None? && hands.ota == {}
        invariant history == old(history) && Below(hands, i) && Untouched(found, ledger.entries, i)
        invariant AllReconciled(found, ledger.entries, hands, checkpoint, i)
      {
        o := ReconcileEntry(i, checkpoint, found);
        if !o.Ok() { return; }
        i := i + 1;
        if hands.executing.None? && hands.queue != [] {
          var early: bool := *;
          if early {
            TakenStillWaits(found, ledger.entries, hands, checkpoint, i);
            Receive();
          }
        }
      }
    }

    method ReconcileEntry(i: nat, checkpoint: OtaCheckpoint, ghost found: seq<Command>) returns (o: Outcome)
      requires i < SIZE == |found| && Valid() && !restarting && hands.pending.None? && hands.ota == {}
      requires Below(hands, i) && Untouched(found, ledger.entries, i)
      requires AllReconciled(found, ledger.entries, hands, checkpoint, i)
      modifies this, ledger
      ensures o.PowerCut? ==> Off()
      ensures history == old(history)
      ensures o.Ok() ==>
                Valid() && !restarting && hands.pending.None? && hands.ota == {} &&
                hands.executing == old(hands).executing
      ensures o.Ok() ==> Below(hands, i + 1) && Untouched(found, ledger.entries, i + 1)
      ensures o.Ok() ==> AllReconciled(found, ledger.entries, hands, checkpoint, i + 1)
    {
      ghost var before := ledger.entries;
      o := Returned(OK);
      ghost var h := hands;
      var waits := false;
      if ledger.entries[i].id != "" { o, waits := DealWith(i, checkpoint); }
      if o.Ok() { OneMoreReconciled(found, before, h, ledger.entries, hands, checkpoint, i, waits); }
    }

    /** The switch on the boot action. */
    method DealWith(i: nat, checkpoint: OtaCheckpoint) returns (o: Outcome, waits: bool)
      requires i < SIZE && Valid() && !restarting && hands.pending.None? && hands.ota == {} && Below(hands, i)
      requires ledger.entries[i].id != ""
      modifies this, ledger
      ensures o.PowerCut? ==> Off()
      ensures history == old(history)
      ensures o.Ok() ==> Valid() && !restarting
      ensures o.Ok() ==>
                hands == if waits then old(hands).(queue := old(hands).queue + [Ticket(i, ledger.entries[i].id)])
                         else old(hands)
      ensures o.Ok() ==> ledger.entries == old(ledger.entries)[i := ledger.entries[i]]
      ensures o.Ok() ==> ReconciledAs(old(ledger.entries)[i], ledger.entries[i], waits, checkpoint)
    {
      o, waits := Returned(OK), false;
      match BootActionOf(ledger.entries[i]) {
        case Ignore =>
        case Requeue =>
          QueueAgain(i);
          waits := true;
        case FailInterrupted => o := Settle(i, Failed, ErrorCode(INVALID_STATE), "interrupted_by_reboot");
        case CompleteReboot => o := Settle(i, Succeeded, 0, "reboot_observed");
        case ReconcileOta => o := SettleOta(i, checkpoint);
      }
    }

    method SettleOta(i: nat, checkpoint: OtaCheckpoint) returns (o: Outcome)
      requires i < SIZE && Valid() && !restarting && hands.pending.None? && hands.ota == {} && Below(hands, i)
      requires Occupied(ledger.entries[i])
      modifies this, ledger
      ensures o.PowerCut? ==> Off()
      ensures history == old(history)
      ensures o.Returned? ==> Valid() && !restarting && hands == old(hands)
      ensures o.Ok() ==>
                var was, now := old(ledger.entries)[i], ledger.entries[i];
                && ledger.entries == old(ledger.entries)[i := now] && OtaEnded(was, now, checkpoint)
                && now == was.(state := now.state, progress := now.progress, code := now.code, text := now.text,
                               evidence := "")
    {
      var code := if checkpoint.lastError == 0 then ErrorCode(INVALID_STATE) else checkpoint.lastError;
      match checkpoint.stage {
        case OtaValid => o := Settle(i, Succeeded, 0, "ota_post_boot_valid");
        case OtaRolledBack => o := Settle(i, RolledBack, code, "ota_rolled_back");
        case OtaFailed => o := Settle(i, Failed, code, "ota_outcome_unavailable");
        case OtaOther => o := Settle(i, Failed, code, "ota_outcome_unavailable");
      }
    }

    method QueueAgain(i: nat)
      requires i < SIZE && Valid() && !restarting && hands.pending.None? && hands.ota == {} && Below(hands, i)
      requires Live(ledger.entries[i]) && Repeatable(ledger.entries[i].kind)
      modifies this`hands
      ensures Valid() && hands == old(hands).(queue := old(hands).queue + [Ticket(i, ledger.entries[i].id)])
    {
      Hold(Ticket(i, ledger.entries[i].id));
      var sent := Send();
    }

    method Settle(i: nat, state: State, code: int, text: string) returns (o: Outcome)
      requires i < SIZE && Valid() && !restarting && hands.pending.None? && hands.ota == {} && Below(hands, i)
      requires Occupied(ledger.entries[i]) && (state.Succeeded? || state.Failed? || state.RolledBack?)
      modifies this, ledger
      ensures o.PowerCut? ==> Off()
      ensures history == old(history)
      ensures o.Returned? ==> Valid() && !restarting && hands == old(hands)
      ensures o.Ok() ==>
                var was := old(ledger.entries)[i];
                ledger.entries == old(ledger.entries)[
                  i := was.(state := state, code := code, text := text, evidence := "",
                            progress := if state.Succeeded? then 100 else was.progress)]
    {
      var before := ledger.entries;
      o := ledger.ReconcileBoot(i, state, code, text);
      if o.PowerCut? { LosePower(); return; }
      if o.Ok() {
        UnheldChange(before, hands, StartedSet(history), i, Reconciled(before[i], state, code, text));
      }
    }
  }

  /** What the last OTA installation left behind; `lastError` is zero for none. */
  datatype OtaStage = OtaValid | OtaRolledBack | OtaFailed | OtaOther
  datatype OtaCheckpoint = OtaCheckpoint(stage: OtaStage, lastError: int)

  predicate Below(h: Hands, i: nat) {
    (forall k :: 0 <= k < |h.queue| ==> h.queue[k].slot < i) && (h.executing.Some? ==> h.executing.value.slot < i)
  }

  /** The entry is to be executed: it is queued, or the control task has taken it. */
  predicate Waits(h: Hands, slot: nat) { Queues(h, slot) || (h.executing.Some? && h.executing.value.slot == slot) }

  /** Power was lost before the command was finished. */
  predicate Interrupted(was: Command) {
    was.id != "" &&
    (was.state.Accepted? || was.state.Running? || was.state.AwaitingReboot? || was.state.AwaitingHeartbeat?)
  }

  /** A snapshot or a self-test that was not finished. */
  predicate ToRepeat(was: Command) {
    was.id != "" && (was.state.Accepted? || was.state.Running?) &&
    (was.kind == DIAGNOSTICS_SNAPSHOT || was.kind == NETWORK_SELF_TEST || was.kind == METER_SELF_TEST)
  }

  /** An installation that had started, or had asked for its reboot. */
  predicate InstalledOver(was: Command) {
    was.kind == OTA_INSTALL && (was.state.Running? || was.state.AwaitingReboot?)
  }

  /** What becomes of an entry: it waits again, it is ended, or nothing was interrupted and it stays as it was. */
  predicate ReconciledAs(was: Command, now: Command, waits: bool, ota: OtaCheckpoint) {
    && (waits <==> ToRepeat(was))
    && (!Interrupted(was) || waits ==> now == was)
    && (Interrupted(was) && !waits ==>
          now == was.(state := now.state, progress := now.progress, code := now.code, text := now.text, evidence := ""))
    && (Interrupted(was) && !waits && was.kind == REBOOT && was.state.AwaitingReboot? ==>
          now.state.Succeeded? && now.progress == 100 && now.code == 0 && now.text == "reboot_observed")
    && (Interrupted(was) && InstalledOver(was) ==> OtaEnded(was, now, ota))
    && (Interrupted(was) && !waits && !InstalledOver(was) && !(was.kind == REBOOT && was.state.AwaitingReboot?) ==>
          now.state.Failed? && now.progress == was.progress && now.code == 0x103 && now.text == "interrupted_by_reboot")
  }

  /** The checkpoint, which was written before the boot selection, decides how an installation ended. */
  predicate OtaEnded(was: Command, now: Command, ota: OtaCheckpoint) {
    if ota.stage.OtaValid? then
      now.state.Succeeded? && now.progress == 100 && now.code == 0 && now.text == "ota_post_boot_valid"
    else
      && now.progress == was.progress && now.code == (if ota.lastError == 0 then 0x103 else ota.lastError)
      && (if ota.stage.OtaRolledBack? then now.state.RolledBack? && now.text == "ota_rolled_back"
          else now.state.Failed? && now.text == "ota_outcome_unavailable")
  }

  predicate Untouched(found: seq<Command>, entries: seq<Command>, i: nat) {
    |entries| == |found| && forall j :: i <= j < |found| ==> entries[j] == found[j]
  }

  ghost predicate AllReconciled(found: seq<Command>, entries: seq<Command>, h: Hands, ota: OtaCheckpoint, n: nat) {
    |entries| == |found| && forall i :: 0 <= i < n && i < |found| ==>
      ReconciledAs(found[i], entries[i], Waits(h, i), ota)
  }

  lemma TakenStillWaits(found: seq<Command>, entries: seq<Command>, h: Hands, ota: OtaCheckpoint, n: nat)
    requires AllReconciled(found, entries, h, ota, n) && h.executing.None? && h.queue != [] && NoSharing(h.queue)
    ensures AllReconciled(found, entries, h.(queue := h.queue[1..], executing := Some(h.queue[0])), ota, n)
  {
    var h' := h.(queue := h.queue[1..], executing := Some(h.queue[0]));
    forall i | 0 <= i < n && i < |found| ensures Waits(h', i) <==> Waits(h, i) {
      if k :| 0 <= k < |h.queue| && h.queue[k].slot == i {
        if k > 0 { assert h'.queue[k - 1].slot == i; }
      }
    }
  }

  /** Entry `i` was dealt with, or queued; the others are as they were. */
  lemma OneMoreReconciled(found: seq<Command>, before: seq<Command>, h: Hands, after: seq<Command>, h': Hands,
                          ota: OtaCheckpoint, i: nat, waits: bool)
    requires AllReconciled(found, before, h, ota, i) && i < |found| == |after| && after == before[i := after[i]]
    requires Below(h, i) && h'.executing == h.executing
    requires if waits then |h'.queue| > 0 && h'.queue == h.queue + [h'.queue[|h'.queue| - 1]] &&
                           h'.queue[|h'.queue| - 1].slot == i
             else h'.queue == h.queue
    requires ReconciledAs(found[i], after[i], waits, ota)
    ensures AllReconciled(found, after, h', ota, i + 1)
  {
    forall j | 0 <= j <= i ensures Waits(h', j) <==> if j == i then waits else Waits(h, j) {
      if waits { assert h'.queue[|h.queue|].slot == i; }
      if k :| 0 <= k < |h.queue| && h.queue[k].slot == j { assert h'.queue[k].slot == j; }
    }
  }

  lemma StartIsFresh(entries: seq<Command>, h: Hands, started: set<nat>, slot: nat)
    requires Fresh(entries, h, started) && Clear(h, slot)
    ensures Fresh(entries, h, started + {slot})
  {
  }

  /* ---- The claim that is to keep OTA tasks apart ---- */

  datatype OtaFlag = OtaFlag(active: bool, tasks: nat)

  /** The OTA branch of `execute_command`: every way out of it that starts no task releases the claim. */
  function OtaStart(f: OtaFlag, resources: bool): OtaFlag {
    if f.active then f.(active := false)
    else if resources then OtaFlag(true, f.tasks + 1)
    else f.(active := false)
  }

  predicate Exclusive(f: OtaFlag) { f.tasks <= 1 && (f.active <==> f.tasks == 1) }

  /** The claim keeps its meaning exactly when no OTA task was running. */
  lemma OtaClaimKept(f: OtaFlag, resources: bool)
    requires Exclusive(f)
    ensures Exclusive(OtaStart(f, resources)) <==> !f.active
  {
  }

  /** A refused OTA command releases the claim of the running task, so the next one starts beside it. */
  lemma SecondOtaTaskStarts(resources: bool)
    ensures OtaStart(OtaStart(OtaFlag(true, 1), resources), true) == OtaFlag(true, 2)
  {
  }
}
