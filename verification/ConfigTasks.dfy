/**
 The configuration store under concurrent tasks and power cuts (components/pm_config/pm_config.c). Each
 task owns one transaction struct and runs one operation at a time; a step is one critical section or one
 NVS call, and the steps of different tasks interleave in any order.
 */
module ConfigTasks {
  import opened Esp
  import opened ConfigTypes

  datatype Stage = NoStage | ReadbackVerified | NetworkTested | Committed

  /** SHA-256 is modelled as injective, so a digest is the content it was taken of. */
  datatype Tx = Tx(stage: Stage, generation: U32, id: U32, slot: U8, digest: Option<Config>)

  const ZERO_TX := Tx(NoStage, 0, 0, 0, None)

  /** Where a task is inside an operation, with the operation's locals. */
  datatype Pc =
    | Idle
    | BeginClaimed(staged: Config, id: U32, restaging: bool)
    | BeginReady(staged: Config, id: U32, slot: U8)
    | BeginWritten(staged: Config, id: U32, slot: U8)
    | BeginVerified(staged: Config, id: U32, slot: U8)
    | BeginFailed(id: U32)
    | CommitClaimed(id: U32)
    | CommitChecked(id: U32)
    | CommitDone(id: U32, error: bool)
    | ActivateClaimed(slot: U8, generation: U32)
    | ActivateRead(slot: U8, generation: U32)
    | ActivateFlip(slot: U8, generation: U32)
    | DiscardClaimed(slot: U8, generation: U32)
    | DiscardOtherClaimed(generation: U32)
    | DiscardChecked(slot: U8, generation: U32)
    | EraseClaimed
    | EraseReady(slot: U8)
    | UnownedDone

  datatype Task = Task(pc: Pc, tx: Tx)

  datatype Shared = Shared(nvs: Nvs, nextId: U32, activeId: U32, mutating: bool)

  /** How an NVS call ends. A failed write may have been durable or torn; a successful one may be torn. */
  datatype Fault = Fine | Fail | FailDurable | FailTorn | SilentTorn

  datatype Event =
    | Begin(candidate: Config) | MarkTested | Commit | Abort
    | Activate(slot: U8, generation: U32) | Discard(slot: U8, generation: U32)
    | DiscardOther(generation: U32) | EraseInactive
    | Go(fault: Fault)

  /* ---- The critical sections ---- */

  function Increment(id: U32): U32 { if id == U32_MAX then 0 else id + 1 }

  predicate Unclaimed(s: Shared) { s.activeId == 0 && !s.mutating }

  /** `claim_new_transaction`: identifier zero is skipped when the counter wraps. */
  function FreshId(s: Shared): U32 { if s.nextId == 0 then Increment(s.nextId) else s.nextId }

  function ClaimNew(s: Shared): Shared
    requires Unclaimed(s)
  {
    s.(nextId := Increment(FreshId(s)), activeId := FreshId(s), mutating := true)
  }

  predicate Claimable(s: Shared, id: U32) { id != 0 && s.activeId == id && !s.mutating }

  function Release(s: Shared, id: U32): Shared {
    if id != 0 && s.activeId == id then s.(activeId := 0, mutating := false) else s
  }

  function Finish(s: Shared): Shared { s.(mutating := false) }

  /* ---- NVS calls ---- */

  function Written(n: Nvs, slot: U8, c: Config, f: Fault): Nvs {
    match f
    case Fine => With(n, slot, Stored(c))
    case Fail => n
    case FailDurable => With(n, slot, Stored(c))
    case FailTorn => With(n, slot, Torn)
    case SilentTorn => With(n, slot, Torn)
  }

  predicate Succeeds(f: Fault) { f.Fine? || f.SilentTorn? }

  function Selected(n: Nvs, slot: U8, f: Fault): Nvs {
    if f.Fine? || f.FailDurable? then n.(active := Some(slot)) else n
  }

  function Erased(n: Nvs, slot: U8, f: Fault): Nvs {
    if f.Fine? || f.FailDurable? then With(n, slot, Missing) else n
  }

  /* ---- One step of one task ---- */

  function Step(s: Shared, t: Task, e: Event): (Shared, Task) {
    match e
    case Begin(candidate) => if t.pc.Idle? then StartBegin(s, t, candidate) else (s, t)
    case MarkTested =>
      if t.pc.Idle? && t.tx.stage == ReadbackVerified && Claimable(s, t.tx.id)
      then (s, t.(tx := t.tx.(stage := NetworkTested))) else (s, t)
    case Commit =>
      if t.pc.Idle? && t.tx.stage == NetworkTested && IsSlot(t.tx.slot) && Claimable(s, t.tx.id)
      then (s.(mutating := true), t.(pc := CommitClaimed(t.tx.id))) else (s, t)
    case Abort => if t.pc.Idle? then (Release(s, t.tx.id), Task(Idle, ZERO_TX)) else (s, t)
    case Activate(slot, generation) =>
      if t.pc.Idle? && IsSlot(slot) && generation != 0 then StartUnowned(s, t, ActivateClaimed(slot, generation))
      else (s, t)
    case Discard(slot, generation) =>
      if t.pc.Idle? && IsSlot(slot) && generation != 0 then StartUnowned(s, t, DiscardClaimed(slot, generation))
      else (s, t)
    case DiscardOther(generation) =>
      if t.pc.Idle? && generation != 0 then StartUnowned(s, t, DiscardOtherClaimed(generation)) else (s, t)
    case EraseInactive => if t.pc.Idle? then StartUnowned(s, t, EraseClaimed) else (s, t)
    case Go(f) =>
      if t.pc.BeginClaimed? || t.pc.BeginReady? || t.pc.BeginWritten? || t.pc.BeginVerified? || t.pc.BeginFailed?
      then GoBegin(s, t, f)
      else if t.pc.CommitClaimed? || t.pc.CommitChecked? || t.pc.CommitDone? then GoCommit(s, t, f)
      else GoUnowned(s, t, f)
  }

  function StartBegin(s: Shared, t: Task, candidate: Config): (Shared, Task) {
    var staged := candidate.(schema := SCHEMA);
    var restaging := t.tx.stage == ReadbackVerified && t.tx.id != 0 && IsSlot(t.tx.slot);
    if Validate(staged) != OK then (s, t)
    else if restaging then
      if Claimable(s, t.tx.id) then (s.(mutating := true), t.(pc := BeginClaimed(staged, t.tx.id, true))) else (s, t)
    else if Unclaimed(s) then (ClaimNew(s), t.(pc := BeginClaimed(staged, FreshId(s), false)))
    else (s, t)
  }

  function StartUnowned(s: Shared, t: Task, pc: Pc): (Shared, Task) {
    if Unclaimed(s) then (s.(mutating := true), t.(pc := pc)) else (s, t)
  }

  function GoBegin(s: Shared, t: Task, f: Fault): (Shared, Task) {
    match t.pc
    case BeginClaimed(staged, id, restaging) =>
      var active := if s.nvs.active.Some? then s.nvs.active.value else SLOT_A;
      var slot := if restaging then t.tx.slot else Other(active);
      if !f.Fine? || !IsSlot(active) || (restaging && active == slot) then (s, t.(pc := BeginFailed(id)))
      else (s, t.(pc := BeginReady(staged, id, slot)))
    case BeginReady(staged, id, slot) =>
      (s.(nvs := Written(s.nvs, slot, staged, f)),
       t.(pc := if Succeeds(f) then BeginWritten(staged, id, slot) else BeginFailed(id)))
    case BeginWritten(staged, id, slot) =>
      (s, t.(pc := if f.Fine? && At(s.nvs, slot) == Stored(staged) then BeginVerified(staged, id, slot)
             else BeginFailed(id)))
    case BeginVerified(staged, id, slot) =>
      (Finish(s), Task(Idle, Tx(ReadbackVerified, staged.generation, id, slot, Some(staged))))
    case BeginFailed(id) => (Release(s, id), Task(Idle, ZERO_TX))
    case _ => (s, t)
  }

  function GoCommit(s: Shared, t: Task, f: Fault): (Shared, Task) {
    match t.pc
    case CommitClaimed(id) =>
      var blob := At(s.nvs, t.tx.slot);
      if f.Fine? && ReadError(blob) == OK && blob.c.generation == t.tx.generation && t.tx.digest == Some(blob.c)
      then (s, t.(pc := CommitChecked(id))) else (s, t.(pc := CommitDone(id, true)))
    case CommitChecked(id) => (s.(nvs := Selected(s.nvs, t.tx.slot, f)), t.(pc := CommitDone(id, !f.Fine?)))
    case CommitDone(id, error) => (Release(s, id), Task(Idle, if error then ZERO_TX else ZERO_TX.(stage := Committed)))
    case _ => (s, t)
  }

  function GoUnowned(s: Shared, t: Task, f: Fault): (Shared, Task) {
    match t.pc
    case ActivateClaimed(slot, generation) =>
      var blob := At(s.nvs, slot);
      (s, t.(pc := if f.Fine? && ReadError(blob) == OK && blob.c.generation == generation
                   then ActivateRead(slot, generation) else UnownedDone))
    case ActivateRead(slot, generation) =>
      (s, t.(pc := if f.Fine? && s.nvs.active.Some? && s.nvs.active != Some(slot) then ActivateFlip(slot, generation)
             else UnownedDone))
    case ActivateFlip(slot, generation) => (s.(nvs := Selected(s.nvs, slot, f)), t.(pc := UnownedDone))
    case DiscardClaimed(slot, generation) =>
      (s, t.(pc := if f.Fine? && s.nvs.active.Some? && s.nvs.active != Some(slot) then DiscardChecked(slot, generation)
             else UnownedDone))
    case DiscardOtherClaimed(generation) =>
      (s, t.(pc := if f.Fine? && s.nvs.active.Some? && IsSlot(s.nvs.active.value)
                   then DiscardChecked(Other(s.nvs.active.value), generation) else UnownedDone))
    case DiscardChecked(slot, generation) =>
      var blob := At(s.nvs, slot);
      (s, t.(pc := if f.Fine? && ReadError(blob) == OK && blob.c.generation == generation then EraseReady(slot)
             else UnownedDone))
    case EraseClaimed =>
      (s, t.(pc := if f.Fine? && s.nvs.active.Some? && IsSlot(s.nvs.active.value)
                   then EraseReady(Other(s.nvs.active.value)) else UnownedDone))
    case EraseReady(slot) => (s.(nvs := Erased(s.nvs, slot, f)), t.(pc := UnownedDone))
    case UnownedDone => (Finish(s), t.(pc := Idle))
    case _ => (s, t)
  }

  /* ---- What each task relies on ---- */

  predicate BeginOrCommit(pc: Pc) {
    pc.BeginClaimed? || pc.BeginReady? || pc.BeginWritten? || pc.BeginVerified? || pc.BeginFailed? ||
    pc.CommitClaimed? || pc.CommitChecked? || pc.CommitDone?
  }

  predicate Unowned(pc: Pc) { !pc.Idle? && !BeginOrCommit(pc) }

  /** The transaction a task holds, zero for none. */
  function Owned(t: Task): U32 {
    if BeginOrCommit(t.pc) then
      match t.pc
      case BeginClaimed(_, id, _) => id
      case BeginReady(_, id, _) => id
      case BeginWritten(_, id, _) => id
      case BeginVerified(_, id, _) => id
      case BeginFailed(id) => id
      case CommitClaimed(id) => id
      case CommitChecked(id) => id
      case CommitDone(id, _) => id
      case _ => 0
    else t.tx.id
  }

  predicate Spare(n: Nvs, slot: U8) { IsSlot(slot) && n.active != Some(slot) }

  /** A held transaction names the spare slot and content that was validated. */
  predicate TxSound(n: Nvs, tx: Tx) {
    (tx.id == 0 ==> tx.stage != ReadbackVerified && tx.stage != NetworkTested) &&
    (tx.id != 0 ==> (tx.stage == ReadbackVerified || tx.stage == NetworkTested) && Spare(n, tx.slot) &&
                    tx.digest.Some? && Validate(tx.digest.value) == OK)
  }

  predicate PcSound(n: Nvs, t: Task) {
    match t.pc
    case BeginClaimed(staged, id, restaging) =>
      id != 0 && Validate(staged) == OK &&
      (if restaging then t.tx.id == id && t.tx.stage == ReadbackVerified else t.tx.id == 0)
    case BeginReady(staged, id, slot) =>
      id != 0 && Validate(staged) == OK && Spare(n, slot) && (t.tx.id == 0 || t.tx.id == id)
    case BeginWritten(staged, id, slot) =>
      id != 0 && Validate(staged) == OK && Spare(n, slot) && (t.tx.id == 0 || t.tx.id == id)
    case BeginVerified(staged, id, slot) =>
      id != 0 && Validate(staged) == OK && Spare(n, slot) && (t.tx.id == 0 || t.tx.id == id)
    case BeginFailed(id) => id != 0 && (t.tx.id == 0 || t.tx.id == id)
    case CommitClaimed(id) => id != 0 && t.tx.id == id && t.tx.stage == NetworkTested
    case CommitChecked(id) =>
      id != 0 && t.tx.id == id && t.tx.stage == NetworkTested && t.tx.digest.Some? &&
      At(n, t.tx.slot) == Stored(t.tx.digest.value)
    case CommitDone(id, _) => id != 0 && t.tx.id == id
    case ActivateRead(slot, generation) => Activatable(n, slot, generation)
    case ActivateFlip(slot, generation) => Activatable(n, slot, generation)
    case ActivateClaimed(slot, _) => IsSlot(slot)
    case DiscardClaimed(slot, _) => IsSlot(slot)
    case DiscardChecked(slot, _) => Spare(n, slot)
    case EraseReady(slot) => Spare(n, slot)
    case _ => true
  }

  predicate Activatable(n: Nvs, slot: U8, generation: U32) {
    IsSlot(slot) && ReadError(At(n, slot)) == OK && At(n, slot).c.generation == generation
  }

  predicate Sound(s: Shared, t: Task) {
    && (!t.pc.Idle? ==> s.mutating)
    && (Owned(t) != 0 ==> s.activeId == Owned(t))
    && (Unowned(t.pc) ==> s.activeId == 0)
    && (t.pc.CommitDone? || TxSound(s.nvs, t.tx))
    && PcSound(s.nvs, t)
  }

  predicate Apart(t: Task, u: Task) {
    (t.pc.Idle? || u.pc.Idle?) && (Owned(t) == 0 || Owned(u) == 0)
  }

  /* ---- Every step keeps what every task relies on ---- */

  lemma BeginKeepsOwn(s: Shared, t: Task, f: Fault)
    requires Sound(s, t)
    ensures var (s', t') := GoBegin(s, t, f); Sound(s', t')
  {
  }

  lemma CommitKeepsOwn(s: Shared, t: Task, f: Fault)
    requires Sound(s, t)
    ensures var (s', t') := GoCommit(s, t, f); Sound(s', t')
  {
  }

  lemma UnownedKeepsOwn(s: Shared, t: Task, f: Fault)
    requires Sound(s, t) && (t.pc.Idle? || Unowned(t.pc))
    ensures var (s', t') := GoUnowned(s, t, f); Sound(s', t')
  {
  }

  lemma StepKeepsOwn(s: Shared, t: Task, e: Event)
    requires Sound(s, t)
    ensures var (s', t') := Step(s, t, e); Sound(s', t')
  {
    match e
    case Go(f) =>
      BeginKeepsOwn(s, t, f);
      CommitKeepsOwn(s, t, f);
      if t.pc.Idle? || Unowned(t.pc) { UnownedKeepsOwn(s, t, f); }
    case _ =>
  }

  /** A step touches the shared state only while its task holds the mutation, or to take or give it up. */
  predicate Disciplined(s: Shared, t: Task, s': Shared, t': Task) {
    && (s'.nvs != s.nvs ==> !t.pc.Idle?)
    && (s'.mutating != s.mutating ==> (if s.mutating then !t.pc.Idle? || Owned(t) != 0 else t.pc.Idle?))
    && (s'.activeId != s.activeId ==> (if s.activeId == 0 then !s.mutating else Owned(t) == s.activeId))
    && (!t'.pc.Idle? ==> !t.pc.Idle? || !s.mutating)
    && (Owned(t') != 0 ==> Owned(t) == Owned(t') || (s.activeId == 0 && !s.mutating))
    && (Unowned(t'.pc) && t.pc.Idle? ==> s.activeId == 0)
  }

  lemma StepIsDisciplined(s: Shared, t: Task, e: Event)
    requires Sound(s, t)
    ensures var (s', t') := Step(s, t, e); Disciplined(s, t, s', t')
  {
    match e
    case Go(f) =>
      BeginIsDisciplined(s, t, f);
      CommitIsDisciplined(s, t, f);
      if t.pc.Idle? || Unowned(t.pc) { UnownedIsDisciplined(s, t, f); }
    case _ =>
  }

  lemma BeginIsDisciplined(s: Shared, t: Task, f: Fault)
    requires Sound(s, t)
    ensures var (s', t') := GoBegin(s, t, f); Disciplined(s, t, s', t')
  {
  }

  lemma CommitIsDisciplined(s: Shared, t: Task, f: Fault)
    requires Sound(s, t)
    ensures var (s', t') := GoCommit(s, t, f); Disciplined(s, t, s', t')
  {
  }

  lemma UnownedIsDisciplined(s: Shared, t: Task, f: Fault)
    requires Sound(s, t) && (t.pc.Idle? || Unowned(t.pc))
    ensures var (s', t') := GoUnowned(s, t, f); Disciplined(s, t, s', t')
  {
  }

  /** What another task relies on survives, because a transaction or a mutation shuts everyone else out. */
  lemma StepKeepsOthers(s: Shared, t: Task, e: Event, u: Task)
    requires Sound(s, t) && Sound(s, u) && Apart(t, u)
    ensures var (s', t') := Step(s, t, e); Sound(s', u) && Apart(t', u)
  {
    StepIsDisciplined(s, t, e);
    StepKeepsOwn(s, t, e);
  }

  /* ---- The selected slot ---- */

  /** A step of `t` may make the content of `slot` the configuration that boots. */
  predicate MayPromote(n: Nvs, t: Task, slot: U8, c: Config) {
    IsSlot(slot) && At(n, slot) == Stored(c) && Validate(c) == OK &&
    (|| (t.pc.CommitChecked? && t.tx.slot == slot && t.tx.stage == NetworkTested && t.tx.digest == Some(c))
     || (t.pc.ActivateFlip? && t.pc.slot == slot && t.pc.generation == c.generation))
  }

  predicate SelectionKept(n: Nvs, n': Nvs) {
    n'.active == n.active &&
    (n.active.Some? && IsSlot(n.active.value) ==> At(n', n.active.value) == At(n, n.active.value))
  }

  /** No step writes or erases the slot the selector names; the selector moves only to promoted content. */
  lemma StepProtectsSelected(s: Shared, t: Task, e: Event)
    requires Sound(s, t)
    ensures var n' := Step(s, t, e).0.nvs;
            || SelectionKept(s.nvs, n')
            || (n'.active.Some? && n' == s.nvs.(active := n'.active) && At(s.nvs, n'.active.value).Stored? &&
                MayPromote(s.nvs, t, n'.active.value, At(s.nvs, n'.active.value).c))
  {
    match e
    case Go(f) =>
    case _ =>
  }

  /* ---- Runs ---- */

  datatype Sys = Sys(shared: Shared, tasks: map<nat, Task>)

  datatype Move = PowerCut | Do(task: nat, event: Event)

  function Apply(x: Sys, m: Move): Sys {
    match m
    case PowerCut => Sys(Shared(x.shared.nvs, 1, 0, false), map i | i in x.tasks :: Task(Idle, ZERO_TX))
    case Do(i, e) =>
      if i in x.tasks then var (s', t') := Step(x.shared, x.tasks[i], e); Sys(s', x.tasks[i := t']) else x
  }

  predicate Inv(x: Sys) {
    && (forall i :: i in x.tasks ==> Sound(x.shared, x.tasks[i]))
    && (forall i, j :: i in x.tasks && j in x.tasks && i != j ==> Apart(x.tasks[i], x.tasks[j]))
  }

  lemma MoveKeepsInv(x: Sys, m: Move)
    requires Inv(x)
    ensures Inv(Apply(x, m))
  {
    match m
    case PowerCut =>
    case Do(i, e) =>
      if i in x.tasks {
        var s, t := x.shared, x.tasks[i];
        StepKeepsOwn(s, t, e);
        forall j | j in x.tasks && j != i
          ensures Sound(Apply(x, m).shared, x.tasks[j]) && Apart(Apply(x, m).tasks[i], x.tasks[j]) &&
                  Apart(x.tasks[j], Apply(x, m).tasks[i])
        {
          StepKeepsOthers(s, t, e, x.tasks[j]);
        }
      }
  }

  function Run(x: Sys, moves: seq<Move>): Sys {
    if moves == [] then x else Apply(Run(x, moves[..|moves| - 1]), moves[|moves| - 1])
  }

  /** The configuration a move makes the one that boots, if it does. */
  function PromotedBy(x: Sys, m: Move): Option<Config> {
    if m.Do? && m.task in x.tasks then
      var n, n' := x.shared.nvs, Apply(x, m).shared.nvs;
      if n'.active.Some? && n'.active != n.active && At(n, n'.active.value).Stored?
         && MayPromote(n, x.tasks[m.task], n'.active.value, At(n, n'.active.value).c)
      then Some(At(n, n'.active.value).c) else None
    else None
  }

  function Promoted(x: Sys, moves: seq<Move>): set<Config> {
    if moves == [] then {}
    else
      var front := moves[..|moves| - 1];
      var gained := PromotedBy(Run(x, front), moves[|moves| - 1]);
      Promoted(x, front) + (if gained.Some? then {gained.value} else {})
  }

  lemma MoveLoads(x: Sys, m: Move)
    requires Inv(x)
    ensures var l := Load(Apply(x, m).shared.nvs);
            l == Load(x.shared.nvs) || (l.Some? && PromotedBy(x, m) == l)
  {
    if m.Do? && m.task in x.tasks {
      StepProtectsSelected(x.shared, x.tasks[m.task], m.event);
    }
  }

  /**
   Config switch. For every interleaving of any number of tasks with power cuts, torn writes and failing NVS
   calls: what boots is what booted at the start, or the whole of a validated configuration that a task
   committed after NETWORK_TESTED with a matching digest, or activated by generation. In particular a
   bootable configuration is never lost. Whatever boots can connect: it names the device and its network, has a
   server over TLS with a certificate, and a complete address if that is static.
   */
  lemma {:induction false} OnlyPromotedConfigurationsBoot(x: Sys, moves: seq<Move>)
    requires Inv(x)
    ensures Inv(Run(x, moves))
    ensures var l := Load(Run(x, moves).shared.nvs);
            l == Load(x.shared.nvs) || (l.Some? && l.value in Promoted(x, moves))
    ensures var l := Load(Run(x, moves).shared.nvs);
            l.Some? ==>
              var c := l.value;
              && c.schema == 1 && "https://" <= c.origin
              && c.name != "" && c.ssid != "" && c.ca != "" && c.timezone != ""
              && 1 <= c.ctRating <= 100 && c.secretLength <= 32 && c.acknowledged <= c.floor
              && (c.staticIp ==> c.address != 0 && c.gateway != 0 && c.netmask != 0 && c.dns != 0)
  {
    if moves != [] {
      var front := moves[..|moves| - 1];
      OnlyPromotedConfigurationsBoot(x, front);
      MoveKeepsInv(Run(x, front), moves[|moves| - 1]);
      MoveLoads(Run(x, front), moves[|moves| - 1]);
    }
  }

  /** Every boot starts from such a state, whatever NVS holds. */
  lemma BootIsSound(nvs: Nvs, tasks: set<nat>)
    ensures Inv(Sys(Shared(nvs, 1, 0, false), map i | i in tasks :: Task(Idle, ZERO_TX)))
  {
  }

  /** The configuration a move found in NVS exactly as it was staged, if it did. */
  function ReadBackBy(x: Sys, m: Move): Option<Config> {
    if m.Do? && m.task in x.tasks && x.tasks[m.task].pc.BeginWritten? && Apply(x, m).tasks[m.task].pc.BeginVerified?
       && At(x.shared.nvs, x.tasks[m.task].pc.slot) == Stored(x.tasks[m.task].pc.staged)
    then Some(x.tasks[m.task].pc.staged) else None
  }

  function ReadBack(x: Sys, moves: seq<Move>): set<Config> {
    if moves == [] then {}
    else
      var front := moves[..|moves| - 1];
      var found := ReadBackBy(Run(x, front), moves[|moves| - 1]);
      ReadBack(x, front) + (if found.Some? then {found.value} else {})
  }

  predicate HoldsOnly(t: Task, readBack: set<Config>) {
    (t.tx.digest.Some? ==> t.tx.digest.value in readBack) && (t.pc.BeginVerified? ==> t.pc.staged in readBack)
  }

  lemma MoveHoldsReadBack(x: Sys, m: Move, readBack: set<Config>, i: nat)
    requires forall j :: j in x.tasks ==> HoldsOnly(x.tasks[j], readBack)
    requires i in Apply(x, m).tasks
    ensures HoldsOnly(Apply(x, m).tasks[i],
                      readBack + (if ReadBackBy(x, m).Some? then {ReadBackBy(x, m).value} else {}))
  {
    if m.Do? && m.task in x.tasks && i == m.task {
      var t := x.tasks[i];
      assert HoldsOnly(t, readBack);
    }
  }

  /** What a transaction carries to its commit was read back whole earlier in the same run. */
  lemma {:induction false} CommittedWasReadBack(x: Sys, moves: seq<Move>, i: nat)
    requires forall j :: j in x.tasks ==> x.tasks[j] == Task(Idle, ZERO_TX)
    requires i in Run(x, moves).tasks
    ensures HoldsOnly(Run(x, moves).tasks[i], ReadBack(x, moves))
  {
    if moves != [] {
      var front := moves[..|moves| - 1];
      forall j | j in Run(x, front).tasks ensures HoldsOnly(Run(x, front).tasks[j], ReadBack(x, front)) {
        CommittedWasReadBack(x, front, j);
      }
      MoveHoldsReadBack(Run(x, front), moves[|moves| - 1], ReadBack(x, front), i);
    }
  }
}
