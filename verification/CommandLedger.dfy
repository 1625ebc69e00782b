/**
 The durable command ledger (components/pm_commands/pm_commands.c): eight entries, written whole to the NVS
 slot that the parity of the generation names. Any NVS call may fail with or without effect, tear the slot
 it writes, or be the last one before a power cut.
 */
module CommandLedger {
  import opened Esp

  const SIZE: nat := 8
  const TYPE_COUNT: nat := 15
  const REBOOT: nat := 0
  const DIAGNOSTICS_SNAPSHOT: nat := 3
  const NETWORK_SELF_TEST: nat := 4
  const METER_SELF_TEST: nat := 5
  const OTA_INSTALL: nat := 11
  const ID_MAX: nat := 36
  const PAYLOAD_MAX: nat := 1536
  const RESULT_MAX: nat := 160

  datatype State =
    | Queued | Delivered | Accepted | Running | Succeeded | Failed | Expired | Cancelled
    | Superseded | AwaitingReboot | AwaitingHeartbeat | RolledBack

  /** Strings are shown without their terminating NUL; an entry with an empty id is free. */
  datatype Command = Command(
    id: string, key: string, kind: nat, state: State, expires: int, progress: nat,
    ackRequired: bool, redacted: bool, digest: string, payload: string, code: int, text: string, evidence: string)

  const EMPTY := Command("", "", 0, Queued, 0, 0, false, false, "", "", 0, "", "")

  datatype Ledger = Ledger(entries: seq<Command>, next: nat, generation: U32)

  /** SHA-256, modelled as injective. */
  function Sha256(text: string): string { text }

  predicate Terminal(s: State) {
    s.Succeeded? || s.Failed? || s.Expired? || s.Cancelled? || s.Superseded? || s.RolledBack?
  }

  predicate CommandValid(c: Command) {
    c.id != "" && c.kind < TYPE_COUNT && c.progress <= 100 && (c.ackRequired ==> c.state.Succeeded?) &&
    (if c.redacted then c.payload == "" else c.digest == Sha256(c.payload))
  }

  predicate EntryValid(c: Command) { c == EMPTY || CommandValid(c) }

  predicate LedgerValid(l: Ledger) {
    |l.entries| == SIZE && l.next < SIZE && forall i :: 0 <= i < SIZE ==> EntryValid(l.entries[i])
  }

  /* ---- The two slots ---- */

  datatype Blob = Missing | Torn | Stored(l: Ledger)

  datatype Nvs = Nvs(a: Blob, b: Blob)

  function At(n: Nvs, generation: nat): Blob { if generation % 2 == 1 then n.a else n.b }

  function With(n: Nvs, generation: nat, blob: Blob): Nvs {
    if generation % 2 == 1 then n.(a := blob) else n.(b := blob)
  }

  predicate Usable(b: Blob) { b.Stored? && LedgerValid(b.l) }

  datatype Choice = FirstBoot | Refused(err: EspErr) | Chosen(l: Ledger)

  /** What `commands_load_locked` decides from the two slots. */
  function Choose(n: Nvs): Choice {
    if n.a.Missing? && n.b.Missing? then FirstBoot
    else if !Usable(n.a) && !Usable(n.b) then Refused(INVALID_CRC)
    else if Usable(n.a) && Usable(n.b) && n.a.l.generation == n.b.l.generation && n.a.l != n.b.l
    then Refused(INVALID_STATE)
    else if Usable(n.a) && (!Usable(n.b) || n.a.l.generation >= n.b.l.generation) then Chosen(n.a.l)
    else Chosen(n.b.l)
  }

  /* ---- Runs: memory, the last ledger that was persisted or loaded, and the ledgers tried since ---- */

  datatype World = World(nvs: Nvs, mem: Option<Ledger>, saved: Option<Ledger>, tried: set<Ledger>)

  function Bumped(l: Ledger): Ledger
    requires l.generation < U32_MAX
  {
    l.(generation := l.generation + 1)
  }

  predicate PersistMay(n: Nvs, t: Ledger, n': Nvs) {
    n' == n || n' == With(n, t.generation, Torn) || n' == With(n, t.generation, Stored(t))
  }

  /** One ledger operation that wants `changed` to become the ledger. */
  predicate PersistStep(w: World, changed: Ledger, w': World)
    requires w.mem.Some? && changed.generation == w.mem.value.generation
  {
    if changed.generation == U32_MAX then w' == w
    else
      var t := Bumped(changed);
      || w' == World(With(w.nvs, t.generation, Stored(t)), Some(t), Some(t), {})
      || (PersistMay(w.nvs, t, w'.nvs) && w'.saved == w.saved && w'.tried == w.tried + {t} &&
          (w'.mem == w.mem || w'.mem.None?))
  }

  const BLANK := Ledger([EMPTY, EMPTY, EMPTY, EMPTY, EMPTY, EMPTY, EMPTY, EMPTY], 0, 0)

  predicate LoadStep(w: World, w': World) {
    match Choose(w.nvs)
    case FirstBoot =>
      var t := Bumped(BLANK);
      || w' == w.(mem := None)
      || w' == World(With(w.nvs, 1, Stored(t)), Some(t), Some(t), {})
      || (PersistMay(w.nvs, t, w'.nvs) && w'.saved == w.saved && w'.tried == w.tried + {t} && w'.mem.None?)
    case Refused(_) => w' == w.(mem := None)
    case Chosen(l) => w' == w.(mem := None) || w' == World(w.nvs, Some(l), Some(l), {})
  }

  /** The other slot holds nothing usable, something older, or one of the ledgers tried since. */
  predicate OtherSound(w: World, l: Ledger) {
    var other := At(w.nvs, l.generation + 1);
    other.Stored? ==>
      LedgerValid(other.l) && other.l.generation % 2 == (l.generation + 1) % 2 &&
      (other.l.generation < l.generation || (other.l.generation == l.generation + 1 && other.l in w.tried))
  }

  predicate Inv(w: World) {
    && (w.mem.Some? ==> w.saved == w.mem)
    && (w.saved.Some? ==>
          LedgerValid(w.saved.value) && At(w.nvs, w.saved.value.generation) == Stored(w.saved.value) &&
          OtherSound(w, w.saved.value))
    && (w.saved.None? ==>
          w.mem.None? && w.nvs.b.Missing? &&
          (w.nvs.a.Stored? ==> w.nvs.a.l in w.tried && w.nvs.a.l == Bumped(BLANK)))
  }

  ghost predicate Step(w: World, w': World) {
    || w' == w.(mem := None)
    || LoadStep(w, w')
    || (w.mem.Some? && exists changed: Ledger ::
          changed.generation == w.mem.value.generation && LedgerValid(changed) && PersistStep(w, changed, w'))
  }

  lemma PersistKeepsInv(w: World, changed: Ledger, w': World)
    requires Inv(w) && w.mem.Some? && changed.generation == w.mem.value.generation && LedgerValid(changed)
    requires PersistStep(w, changed, w')
    ensures Inv(w')
  {
    var g: int := changed.generation;
    assert (g + 2) % 2 == g % 2;
  }

  lemma BlankIsValid()
    ensures LedgerValid(BLANK) && LedgerValid(Bumped(BLANK))
  {
  }

  lemma LoadKeepsInv(w: World, w': World)
    requires Inv(w) && LoadStep(w, w')
    ensures Inv(w')
  {
    BlankIsValid();
    LoadFindsRecent(w);
  }

  /** What load finds: the ledger that was last persisted or loaded, or one that was being written since. */
  lemma LoadFindsRecent(w: World)
    requires Inv(w)
    ensures w.saved.Some? ==> Choose(w.nvs).Chosen? && (Choose(w.nvs).l == w.saved.value || Choose(w.nvs).l in w.tried)
    ensures Choose(w.nvs) != Refused(INVALID_STATE)
    ensures Choose(w.nvs).Chosen? && w.saved.None? ==> Choose(w.nvs).l in w.tried
  {
    BlankIsValid();
  }

  ghost predicate Run(ws: seq<World>) {
    |ws| > 0 && ws[0] == World(Nvs(Missing, Missing), None, None, {}) &&
    forall i :: 0 <= i < |ws| - 1 ==> Step(ws[i], ws[i + 1])
  }

  /**
   Ledger crash atomicity. Over every run from a blank device, wherever power is cut and however writes fail or
   tear: once a ledger was persisted, load never refuses, and it returns that ledger or one whose write was under
   way since. The equal-generation conflict cannot arise. What is in memory is what was last persisted or loaded.
   */
  lemma {:induction false} CrashAtomicity(ws: seq<World>, j: nat)
    requires Run(ws) && j < |ws|
    ensures Inv(ws[j])
    ensures ws[j].saved.Some? ==>
              Choose(ws[j].nvs).Chosen? &&
              (Choose(ws[j].nvs).l == ws[j].saved.value || Choose(ws[j].nvs).l in ws[j].tried)
    ensures Choose(ws[j].nvs) != Refused(INVALID_STATE)
    ensures ws[j].mem.Some? ==> ws[j].mem == ws[j].saved
    decreases j
  {
    if j > 0 {
      CrashAtomicity(ws, j - 1);
      var w, w' := ws[j - 1], ws[j];
      assert Step(w, w');
      if w' == w.(mem := None) {
      } else if LoadStep(w, w') {
        LoadKeepsInv(w, w');
      } else {
        var changed: Ledger :| changed.generation == w.mem.value.generation && LedgerValid(changed) &&
          PersistStep(w, changed, w');
        PersistKeepsInv(w, changed, w');
      }
    }
    LoadFindsRecent(ws[j]);
  }

  /* ---- Admission ---- */

  datatype Incoming = Incoming(id: string, key: string, kind: nat, expires: int, payload: string)

  predicate WellFormed(c: Incoming) {
    c.id != "" && c.key != "" && c.kind < TYPE_COUNT && |c.payload| <= PAYLOAD_MAX
  }

  function Admitted(c: Incoming, now: int): Command {
    Command(c.id, c.key, c.kind, if now > c.expires then Expired else Accepted, c.expires, 0, false, false,
            Sha256(c.payload), c.payload, 0, "", "")
  }

  predicate Occupied(c: Command) { c.id != "" }

  predicate Matches(c: Command, incoming: Incoming) { c.id == incoming.id || c.key == incoming.key }

  predicate Redelivery(c: Command, incoming: Incoming) {
    c.kind == incoming.kind && c.digest == Sha256(incoming.payload)
  }

  /** May be given to another command: free, or finished and not waiting for its result to be acknowledged. */
  predicate Recyclable(c: Command) { !Occupied(c) || (Terminal(c.state) && !c.ackRequired) }

  predicate Distinct(entries: seq<Command>) {
    (forall i :: 0 <= i < |entries| ==> (Occupied(entries[i]) <==> entries[i].key != "")) &&
    (forall i, j :: 0 <= i < j < |entries| && Occupied(entries[i]) && Occupied(entries[j]) ==>
       entries[i].id != entries[j].id && entries[i].key != entries[j].key)
  }

  /** The entry `k` places after `next`, cyclically. */
  function Cyclic(next: nat, k: nat): nat { (next + k) % SIZE }

  predicate RecyclableAt(l: Ledger, k: nat) {
    Cyclic(l.next, k) < |l.entries| && Recyclable(l.entries[Cyclic(l.next, k)])
  }

  /** `k` is the distance from `next` to the first entry that may be recycled. */
  predicate IsNextRecyclable(l: Ledger, k: nat) {
    k < SIZE && RecyclableAt(l, k) && forall h :: 0 <= h < k ==> !RecyclableAt(l, h)
  }

  /** Going once around visits every entry. */
  lemma CyclicVisitsAll(next: nat, i: nat) returns (k: nat)
    requires next < SIZE && i < SIZE
    ensures k < SIZE && Cyclic(next, k) == i
  {
    k := if i >= next then i - next else i + SIZE - next;
  }

  function Placed(l: Ledger, i: nat, c: Command): Ledger
    requires i < |l.entries|
  {
    Ledger(l.entries[i := c], (i + 1) % SIZE, l.generation)
  }

  lemma PlacedIsSound(l: Ledger, i: nat, incoming: Incoming, now: int)
    requires LedgerValid(l) && Distinct(l.entries) && i < SIZE && WellFormed(incoming)
    requires forall j :: 0 <= j < SIZE ==> !Matches(l.entries[j], incoming)
    ensures LedgerValid(Placed(l, i, Admitted(incoming, now))) &&
            Distinct(Placed(l, i, Admitted(incoming, now)).entries)
  {
  }

  function Changed(l: Ledger, i: nat, c: Command): Ledger
    requires i < |l.entries|
  {
    l.(entries := l.entries[i := c])
  }

  /** Changing an entry without touching its identity. */
  lemma ChangedIsSound(l: Ledger, i: nat, c: Command)
    requires LedgerValid(l) && Distinct(l.entries) && i < SIZE && CommandValid(c)
    requires c.id == l.entries[i].id && c.key == l.entries[i].key
    ensures LedgerValid(Changed(l, i, c)) && Distinct(Changed(l, i, c).entries)
  {
  }

  function Transitioned(c: Command, state: State, progress: nat, code: int): Command {
    c.(state := state, progress := progress, code := code)
  }

  /** The states `command_transition_locked` never leaves; it differs from `Terminal` in `Superseded`. */
  predicate Final(s: State) { Terminal(s) && !s.Superseded? }

  function Reconciled(c: Command, state: State, code: int, text: string): Command {
    var progress := if state.Succeeded? then 100 else c.progress;
    c.(state := state, progress := progress, code := code, text := text, evidence := "")
  }

  function Zeroized(c: Command): Command { c.(payload := "", redacted := true) }

  datatype BootAction = Ignore | Requeue | FailInterrupted | CompleteReboot | ReconcileOta

  /** `pm_command_boot_action`. */
  function BootActionOf(c: Command): BootAction {
    if c.kind >= TYPE_COUNT then Ignore
    else if c.state.Accepted? || c.state.Running? then
      if c.state.Running? && c.kind == OTA_INSTALL then ReconcileOta
      else if c.kind == DIAGNOSTICS_SNAPSHOT || c.kind == NETWORK_SELF_TEST || c.kind == METER_SELF_TEST then Requeue
      else FailInterrupted
    else if c.state.AwaitingReboot? then
      if c.kind == REBOOT then CompleteReboot else if c.kind == OTA_INSTALL then ReconcileOta else FailInterrupted
    else if c.state.AwaitingHeartbeat? then FailInterrupted
    else Ignore
  }

  /** `find_command_by_id`. */
  method FindCommand(l: Ledger, id: string) returns (i: nat)
    requires |l.entries| == SIZE
    ensures i <= SIZE && (i < SIZE ==> l.entries[i].id == id && |id| == ID_MAX)
    ensures |id| == ID_MAX ==> forall j :: 0 <= j < i ==> l.entries[j].id != id
    ensures i == SIZE <==> |id| != ID_MAX || forall j :: 0 <= j < SIZE ==> l.entries[j].id != id
  {
    if |id| != ID_MAX { return SIZE; }
    i := 0;
    while i < SIZE && l.entries[i].id != id
      invariant i <= SIZE && forall j :: 0 <= j < i ==> l.entries[j].id != id
    {
      i := i + 1;
    }
  }

  /* ---- The source's operations ---- */

  class Store {
    var entries: seq<Command>
    var next: nat
    var generation: U32
    var loaded: bool
    var nvs: Nvs
    var faulty: bool
    ghost var saved: Option<Ledger>
    ghost var tried: set<Ledger>

    function Mem(): Ledger
      reads this
    {
      Ledger(entries, next, generation)
    }

    ghost function Abs(): World
      reads this
    {
      World(nvs, if loaded then Some(Mem()) else None, saved, tried)
    }

    ghost predicate Valid()
      reads this
    {
      Inv(Abs()) && (saved.Some? ==> Distinct(saved.value.entries)) && (forall t :: t in tried ==> Distinct(t.entries))
    }

    /** Memory holds a ledger, with everything that follows from that. */
    ghost predicate Ready()
      reads this
    {
      Valid() && loaded && LedgerValid(Mem()) && Distinct(entries)
    }

    constructor (nvs: Nvs, faulty: bool)
      requires nvs == Nvs(Missing, Missing)
      ensures Valid() && !loaded && this.nvs == nvs && this.faulty == faulty
    {
      entries, next, generation, loaded := [], 0, 0, false;
      this.nvs, this.faulty, saved, tried := nvs, faulty, None, {};
    }

    method Write(l: Ledger) returns (o: Outcome)
      modifies this`nvs
      ensures PersistMay(old(nvs), l, nvs)
      ensures o.Ok() ==> nvs == With(old(nvs), l.generation, Stored(l))
      ensures !faulty ==> o.Ok()
      ensures o.Returned? ==> o.err == OK || o.err == NVS_ERROR
    {
      o := Environment(faulty);
      var effect: Blob := *;
      if o.Ok() || effect == Stored(l) {
        nvs := With(nvs, l.generation, Stored(l));
      } else if effect == Torn {
        nvs := With(nvs, l.generation, Torn);
      }
    }

    /** `persist`: the generation in memory is raised before the write and stays raised if it fails. */
    method Persist() returns (o: Outcome)
      modifies this`nvs, this`generation
      ensures o.Returned? ==> o.err == OK || o.err == NVS_ERROR || o.err == INVALID_STATE
      ensures old(generation) == U32_MAX ==> o == Returned(INVALID_STATE) && nvs == old(nvs) && generation == U32_MAX
      ensures old(generation) < U32_MAX ==>
                generation == old(generation) + 1 && PersistMay(old(nvs), Mem(), nvs) &&
                (o.Ok() ==> nvs == With(old(nvs), generation, Stored(Mem()))) && (!faulty ==> o.Ok())
    {
      if generation == U32_MAX { return Returned(INVALID_STATE); }
      generation := generation + 1;
      o := Environment(faulty);
      if !o.Ok() { return; }
      o := Write(Mem());
      if !o.Ok() { return; }
      o := Environment(faulty);
    }

    method Load() returns (o: Outcome)
      requires Valid()
      modifies this
      ensures LoadStep(old(Abs()), Abs()) && Valid()
      ensures o.Ok() <==> loaded
      ensures o.Ok() ==> Ready()
      ensures o.Ok() ==> if Choose(old(nvs)).Chosen? then Mem() == Choose(old(nvs)).l else entries == BLANK.entries
      ensures o.Ok() ==>
                |entries| == 8 && next < 8 &&
                forall c :: c in entries && c.id != "" ==>
                  && c.kind < 15 && c.progress <= 100 && (c.ackRequired ==> c.state.Succeeded?)
                  && (if c.redacted then c.payload == "" else c.digest == Sha256(c.payload))
      ensures faulty == old(faulty) && (!faulty ==> (o.Ok() <==> !Choose(old(nvs)).Refused?))
    {
      loaded := false;
      o := Environment(faulty);
      if !o.Ok() { return; }
      LoadFindsRecent(Abs());
      var choice := Choose(nvs);
      match choice {
        case FirstBoot => o := Initialise();
        case Refused(err) => o := Returned(err);
        case Chosen(l) =>
          entries, next, generation := l.entries, l.next, l.generation;
          loaded, saved, tried := true, Some(l), {};
          LoadKeepsInv(old(Abs()), Abs());
      }
    }

    /** The first boot writes a blank ledger. */
    method Initialise() returns (o: Outcome)
      requires Valid() && !loaded && Choose(nvs).FirstBoot?
      modifies this
      ensures LoadStep(old(Abs()), Abs()) && Valid()
      ensures (o.Ok() <==> loaded) && (o.Ok() ==> Ready()) && faulty == old(faulty) && (!faulty ==> o.Ok())
      ensures o.Ok() ==> entries == BLANK.entries
    {
      entries, next, generation := BLANK.entries, BLANK.next, BLANK.generation;
      o := Persist();
      BlankIsValid();
      Record(o, Mem());
      loaded := o.Ok();
      assert LoadStep(old(Abs()), Abs());
      LoadKeepsInv(old(Abs()), Abs());
    }

    ghost method Record(o: Outcome, l: Ledger)
      modifies this`saved, this`tried
      ensures if o.Ok() then saved == Some(l) && tried == {} else saved == old(saved) && tried == old(tried) + {l}
    {
      if o.Ok() {
        saved, tried := Some(l), {};
      } else {
        tried := tried + {l};
      }
    }

    /** Memory is already `changed`; writes it, and on failure puts `before` back. */
    method PersistOrRestore(before: Ledger) returns (o: Outcome)
      requires loaded && generation == before.generation && LedgerValid(Mem()) && Distinct(entries)
      requires LedgerValid(before) && Distinct(before.entries)
      requires Inv(Abs().(mem := Some(before)))
      requires (saved.Some? ==> Distinct(saved.value.entries)) && forall t :: t in tried ==> Distinct(t.entries)
      modifies this
      ensures PersistStep(old(Abs()).(mem := Some(before)), old(Mem()), Abs()) && Valid() && faulty == old(faulty)
      ensures o.Ok() ==> Ready() && before.generation < U32_MAX && Mem() == Bumped(old(Mem()))
      ensures !o.Ok() && o.Returned? ==> Ready() && Mem() == before
      ensures o.PowerCut? ==> !loaded
      ensures !faulty ==> (o.Ok() <==> before.generation < U32_MAX)
      ensures o.Returned? ==> o.err == OK || o.err == NVS_ERROR || o.err == INVALID_STATE
    {
      ghost var w := Abs().(mem := Some(before));
      ghost var changed := Mem();
      o := Persist();
      if before.generation < U32_MAX {
        Record(o, Mem());
      }
      if !o.Ok() {
        entries, next, generation := before.entries, before.next, before.generation;
        loaded := o.Returned?;
      }
      PersistKeepsInv(w, changed, Abs());
    }

    /** Looks for the first entry with the id or the idempotency key of an incoming command. */
    method FindMatch(incoming: Incoming) returns (i: nat)
      requires |entries| == SIZE
      ensures i <= SIZE && (i < SIZE ==> Matches(entries[i], incoming))
      ensures forall j :: 0 <= j < i ==> !Matches(entries[j], incoming)
    {
      i := 0;
      while i < SIZE && !(entries[i].id == incoming.id || entries[i].key == incoming.key)
        invariant i <= SIZE && forall j :: 0 <= j < i ==> !Matches(entries[j], incoming)
      {
        i := i + 1;
      }
    }

    method FindRecyclable() returns (offset: nat)
      requires |entries| == SIZE
      ensures offset <= SIZE && (offset < SIZE ==> IsNextRecyclable(Mem(), offset))
      ensures forall h :: 0 <= h < offset ==> !RecyclableAt(Mem(), h)
    {
      offset := 0;
      while offset < SIZE
        invariant offset <= SIZE && forall h :: 0 <= h < offset ==> !RecyclableAt(Mem(), h)
      {
        var index := (next + offset) % SIZE;
        if entries[index].id == "" || (Terminal(entries[index].state) && !entries[index].ackRequired) { return; }
        offset := offset + 1;
      }
    }

    /**
     Admission. A redelivery returns the entry it matches and changes nothing; a new command takes the next
     recyclable entry; with memory to spare it is refused with NO_MEM exactly when there is none.
     */
    method Accept(incoming: Incoming, now: int) returns (o: Outcome, stored: nat, duplicate: bool)
      requires Ready()
      modifies this
      ensures Valid() && faulty == old(faulty) && (o.Returned? ==> Ready())
      ensures !WellFormed(incoming) ==> o == Returned(INVALID_ARG) && Abs() == old(Abs())
      ensures WellFormed(incoming) && (exists i :: 0 <= i < SIZE && Matches(old(entries)[i], incoming)) ==>
                Abs() == old(Abs()) && stored < SIZE && Matches(entries[stored], incoming) &&
                (forall j :: 0 <= j < stored ==> !Matches(entries[j], incoming)) &&
                (if Redelivery(entries[stored], incoming) then o.Ok() && duplicate else o == Returned(INVALID_CRC))
      ensures WellFormed(incoming) && (forall i :: 0 <= i < SIZE ==> !Matches(old(entries)[i], incoming)) ==>
                !duplicate &&
                (!faulty ==> (o == Returned(NO_MEM) <==> forall i :: 0 <= i < SIZE ==> !Recyclable(old(entries)[i])))
      ensures !duplicate && (o.Ok() || o == Returned(TIMEOUT)) ==>
                AcceptedInto(old(Mem()), incoming, now, stored, Mem()) && (o.Ok() <==> now <= incoming.expires)
      ensures o.Ok() || o == Returned(TIMEOUT) ==>
                incoming.id != "" && incoming.key != "" && incoming.kind < 15 && |incoming.payload| <= 1536
      ensures o.Ok() && duplicate ==>
                && (entries[stored].id == incoming.id || entries[stored].key == incoming.key)
                && entries[stored].kind == incoming.kind && entries[stored].digest == Sha256(incoming.payload)
      ensures !duplicate && (o.Ok() || o == Returned(TIMEOUT)) ==>
                var was := old(entries)[stored];
                && (was.id == "" ||
                    (!was.ackRequired &&
                     (was.state.Succeeded? || was.state.Failed? || was.state.Expired? || was.state.Cancelled? ||
                      was.state.Superseded? || was.state.RolledBack?)))
                && next == (stored + 1) % 8
                && entries == old(entries)[
                     stored := Command(incoming.id, incoming.key, incoming.kind,
                                       if now <= incoming.expires then State.Accepted else Expired,
                                       incoming.expires, 0, false, false, Sha256(incoming.payload), incoming.payload,
                                       0, "", "")]
      ensures o.Returned? && !o.Ok() && o != Returned(TIMEOUT) ==> Mem() == old(Mem())
    {
      stored, duplicate := 0, false;
      if !WellFormed(incoming) { return Returned(INVALID_ARG), stored, duplicate; }
      stored := FindMatch(incoming);
      if stored < SIZE {
        if !Redelivery(entries[stored], incoming) { return Returned(INVALID_CRC), stored, duplicate; }
        return Returned(OK), stored, true;
      }
      var offset := FindRecyclable();
      if offset == SIZE {
        NoneRecyclable(Mem());
        return Returned(NO_MEM), stored, duplicate;
      }
      stored := (next + offset) % SIZE;
      assert RecyclableAt(Mem(), offset) && Recyclable(entries[stored]);
      o := Place(stored, incoming, now);
    }

    method Place(selected: nat, incoming: Incoming, now: int) returns (o: Outcome)
      requires Ready() && selected < SIZE && WellFormed(incoming)
      requires forall j :: 0 <= j < SIZE ==> !Matches(entries[j], incoming)
      modifies this
      ensures Valid() && faulty == old(faulty) && (o.Returned? ==> Ready())
      ensures o.Ok() || o == Returned(TIMEOUT) ==>
                old(generation) < U32_MAX && Mem() == Bumped(Placed(old(Mem()), selected, Admitted(incoming, now))) &&
                (o.Ok() <==> now <= incoming.expires)
      ensures o.Returned? && !o.Ok() && o != Returned(TIMEOUT) ==> Mem() == old(Mem())
      ensures !faulty ==> o != Returned(NO_MEM)
      ensures PersistStep(old(Abs()), Placed(old(Mem()), selected, Admitted(incoming, now)), Abs()) ||
              Abs() == old(Abs())
    {
      var buffer := Environment(faulty);
      if !buffer.Ok() { return Returned(NO_MEM); }
      var previous := Mem();
      PlacedIsSound(previous, selected, incoming, now);
      entries := entries[selected := Admitted(incoming, now)];
      next := (selected + 1) % SIZE;
      o := PersistOrRestore(previous);
      if o.Ok() && now > incoming.expires { o := Returned(TIMEOUT); }
    }

    /** `command_transition_locked`: progress never falls and a final state is never left. */
    method Transition(i: nat, state: State, progress: nat, code: int) returns (o: Outcome)
      requires Ready() && i < SIZE && Occupied(entries[i])
      modifies this
      ensures Valid() && faulty == old(faulty) && (o.Returned? ==> Ready())
      ensures o.Ok() ==> old(generation) < U32_MAX &&
                         Mem() == Bumped(Changed(old(Mem()), i, Transitioned(old(entries)[i], state, progress, code)))
      ensures o.Ok() ==>
                && old(entries)[i].progress <= progress <= 100 && next == old(next)
                && entries == old(entries)[i := old(entries)[i].(state := state, progress := progress, code := code)]
                && var was := old(entries)[i].state;
                   was.Succeeded? || was.Failed? || was.Expired? || was.Cancelled? || was.RolledBack? ==> state == was
      ensures o.Returned? && !o.Ok() ==> Mem() == old(Mem())
      ensures progress > 100 || progress < old(entries)[i].progress ==> o == Returned(INVALID_ARG)
      ensures progress <= 100 && progress >= old(entries)[i].progress && Final(old(entries)[i].state) &&
              state != old(entries)[i].state ==>
                o == Returned(INVALID_STATE)
      ensures !faulty && old(entries)[i].progress <= progress <= 100 &&
              (Final(old(entries)[i].state) ==> state == old(entries)[i].state) ==>
                (o.Ok() <==> old(generation) < U32_MAX)
      ensures Abs() == old(Abs()) ||
              PersistStep(old(Abs()), Changed(old(Mem()), i, Transitioned(old(entries)[i], state, progress, code)),
                          Abs())
    {
      var command := entries[i];
      if progress > 100 || progress < command.progress { return Returned(INVALID_ARG); }
      if Final(command.state) && state != command.state { return Returned(INVALID_STATE); }
      var buffer := Environment(faulty);
      if !buffer.Ok() { return Returned(NO_MEM); }
      var previous := Mem();
      var changed := command.(state := state, progress := progress, code := code);
      ChangedIsSound(previous, i, changed);
      entries := entries[i := changed];
      o := PersistOrRestore(previous);
    }

    /** `command_acknowledge_result_locked`. */
    method AcknowledgeResult(id: string) returns (o: Outcome)
      requires Ready()
      modifies this
      ensures Valid() && faulty == old(faulty) && (o.Returned? ==> Ready())
      ensures |id| != ID_MAX ==> o == Returned(INVALID_ARG) && Abs() == old(Abs())
      ensures o.Returned? && !o.Ok() ==> Mem() == old(Mem())
      ensures o.Ok() ==> exists i :: AcknowledgedAt(old(Mem()), id, i, Mem())
      ensures |id| == ID_MAX && o == Returned(NOT_FOUND) ==> forall i :: 0 <= i < SIZE ==> entries[i].id != id
    {
      if |id| != ID_MAX { return Returned(INVALID_ARG); }
      var i := FindCommand(Mem(), id);
      if i == SIZE { return Returned(NOT_FOUND); }
      if !entries[i].state.Succeeded? { return Returned(INVALID_STATE); }
      if !entries[i].ackRequired {
        assert entries == entries[i := entries[i].(ackRequired := false)];
        assert AcknowledgedAt(old(Mem()), id, i, Mem());
        return Returned(OK);
      }
      o := ClearAck(i);
      assert o.Ok() ==> AcknowledgedAt(old(Mem()), id, i, Mem());
    }

    method ClearAck(i: nat) returns (o: Outcome)
      requires Ready() && i < SIZE && Occupied(entries[i])
      modifies this
      ensures Valid() && faulty == old(faulty) && (o.Returned? ==> Ready())
      ensures o.Ok() ==> entries == old(entries)[i := old(entries)[i].(ackRequired := false)] && next == old(next)
      ensures o.Returned? && !o.Ok() ==> Mem() == old(Mem())
      ensures o != Returned(NOT_FOUND)
    {
      var previous := Mem();
      ChangedIsSound(previous, i, entries[i].(ackRequired := false));
      entries := entries[i := entries[i].(ackRequired := false)];
      o := PersistOrRestore(previous);
    }

    /**
     `command_zeroize_payload_locked`: the plaintext is never restored, and neither is the generation. What a failure
     leaves behind, and when it loses a ledger, is the subject of `LedgerFaults`.
     */
    method ZeroizePayload(i: nat) returns (o: Outcome)
      requires loaded && LedgerValid(Mem()) && i < SIZE
      modifies this
      ensures old(entries)[i].id == "" ==> o == Returned(INVALID_ARG) && Abs() == old(Abs())
      ensures old(entries)[i].id != "" && o.Returned? ==>
                loaded && next == old(next) && entries == old(entries)[i := Zeroized(old(entries)[i])] &&
                generation == if old(generation) == U32_MAX then U32_MAX else old(generation) + 1
      ensures old(generation) == U32_MAX ==> nvs == old(nvs) && !o.Ok()
      ensures old(entries)[i].id != "" && old(generation) < U32_MAX ==>
                var t := Ledger(old(entries)[i := Zeroized(old(entries)[i])], old(next), old(generation) + 1);
                PersistMay(old(nvs), t, nvs) &&
                if o.Ok() then nvs == With(old(nvs), t.generation, Stored(t)) && saved == Some(t) && tried == {}
                else saved == old(saved) && tried == old(tried) + {t}
      ensures o.PowerCut? ==> !loaded
    {
      if entries[i].id == "" { return Returned(INVALID_ARG); }
      if !entries[i].redacted { entries := entries[i := entries[i].(payload := "", redacted := true)]; }
      assert entries == old(entries)[i := Zeroized(old(entries)[i])];
      ghost var exhausted := generation == U32_MAX;
      o := Persist();
      if !exhausted { Record(o, Mem()); }
      loaded := o.Returned?;
    }

    /** `command_reconcile_boot_locked`. */
    method ReconcileBoot(i: nat, state: State, code: int, text: string) returns (o: Outcome)
      requires Ready() && i < SIZE && Occupied(entries[i])
      modifies this
      ensures Valid() && faulty == old(faulty) && (o.Returned? ==> Ready())
      ensures |text| > 160 || !(state.Succeeded? || state.Failed? || state.RolledBack?) ||
              Terminal(old(entries)[i].state) ==>
                o == Returned(INVALID_ARG) && Abs() == old(Abs())
      ensures o.Ok() ==> !Terminal(old(entries)[i].state) && Terminal(state) && next == old(next)
                         && entries == old(entries)[i := Reconciled(old(entries)[i], state, code, text)]
      ensures o.Ok() ==>
                entries == old(entries)[
                  i := old(entries)[i].(state := state, code := code, text := text, evidence := "",
                                        progress := if state.Succeeded? then 100 else old(entries)[i].progress)]
      ensures o.Returned? && !o.Ok() ==> Mem() == old(Mem())
    {
      var command := entries[i];
      if |text| > RESULT_MAX || !(state.Succeeded? || state.Failed? || state.RolledBack?) || Terminal(command.state) {
        return Returned(INVALID_ARG);
      }
      var buffer := Environment(faulty);
      if !buffer.Ok() { return Returned(NO_MEM); }
      var previous := Mem();
      ChangedIsSound(previous, i, Reconciled(command, state, code, text));
      entries := entries[i := Reconciled(command, state, code, text)];
      o := PersistOrRestore(previous);
    }
  }

  predicate AcknowledgedAt(l: Ledger, id: string, i: int, l': Ledger) {
    0 <= i < |l.entries| && l.entries[i].id == id && l.entries[i].state.Succeeded? && l'.next == l.next &&
    l'.entries == l.entries[i := l.entries[i].(ackRequired := false)]
  }

  predicate AcceptedInto(l: Ledger, incoming: Incoming, now: int, i: nat, l': Ledger) {
    |l.entries| == SIZE && (exists k :: 0 <= k < SIZE && IsNextRecyclable(l, k) && i == Cyclic(l.next, k)) &&
    i < SIZE && l.generation < U32_MAX && l' == Bumped(Placed(l, i, Admitted(incoming, now)))
  }

  lemma NoneRecyclable(l: Ledger)
    requires LedgerValid(l) && forall h :: 0 <= h < SIZE ==> !RecyclableAt(l, h)
    ensures forall i :: 0 <= i < SIZE ==> !Recyclable(l.entries[i])
  {
    forall i | 0 <= i < SIZE ensures !Recyclable(l.entries[i]) {
      var k := CyclicVisitsAll(l.next, i);
      assert !RecyclableAt(l, k);
    }
  }
}
