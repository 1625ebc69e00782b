/**
 The record sequence allocator (components/pm_storage/pm_sequence.c): two CRC-guarded slots and a
 selector in NVS. The fault model is the widest one: any NVS call may fail without effect, fail
 although its effect is durable, leave a torn slot behind, or be the last one before a power cut.
 */
module SequenceStore {
  import opened Esp

  const BLOCK: int := 64
  const SELECT_A: U8 := 65
  const SELECT_B: U8 := 66

  datatype SeqState = SeqState(
    next: U64, reserved: U64, maximumSeen: U64, acknowledged: U64,
    resetGeneration: U32, generation: U32)

  const FRESH := SeqState(1, 0, 0, 0, 0, 0)

  predicate SlotValid(s: SeqState) {
    s.next > 0 && s.reserved >= s.next - 1 && s.maximumSeen < s.next && s.acknowledged <= s.maximumSeen
  }

  /** `Torn` stands for every blob whose length or CRC is wrong. */
  datatype Blob = Missing | Torn | Stored(s: SeqState)

  datatype Nvs = Nvs(a: Blob, b: Blob, active: Option<U8>)

  function ReadError(b: Blob): EspErr {
    match b
    case Missing => NVS_NOT_FOUND
    case Torn => INVALID_CRC
    case Stored(s) => if SlotValid(s) then OK else INVALID_CRC
  }

  /* ---- What persist may do to NVS, said without its control flow ---- */

  predicate Accepts(n: Nvs, c: SeqState) {
    c.generation < U32_MAX &&
    (n.active == Some(SELECT_A) || n.active == Some(SELECT_B) || (n.active.None? && c.generation == 0))
  }

  /** With no fault left, exactly this lets `writes` consecutive persists of a loaded state succeed. */
  predicate Writable(n: Nvs, m: SeqState, writes: nat) {
    Accepts(n, m) && m.generation + writes <= U32_MAX
  }

  predicate TargetIsA(n: Nvs) { n.active == Some(SELECT_B) }

  function WithTarget(n: Nvs, b: Blob): Nvs {
    if TargetIsA(n) then n.(a := b) else n.(b := b)
  }

  function Bumped(c: SeqState): SeqState
    requires c.generation < U32_MAX
  {
    c.(generation := c.generation + 1)
  }

  function Committed(n: Nvs, c: SeqState): Nvs
    requires Accepts(n, c)
  {
    WithTarget(n, Stored(Bumped(c))).(active := Some(if TargetIsA(n) then SELECT_A else SELECT_B))
  }

  /** Every durable state a persist of `c` can leave behind, whatever fails and wherever power is cut. */
  predicate PersistMay(n: Nvs, c: SeqState, n': Nvs) {
    n' == n ||
    (Accepts(n, c) && (n' == WithTarget(n, Torn) || n' == WithTarget(n, Stored(Bumped(c))) || n' == Committed(n, c)))
  }

  /* ---- What load finds ---- */

  datatype Choice = FirstBoot | Refused(err: EspErr) | Chosen(s: SeqState)

  function Choose(n: Nvs): Choice {
    var ea, eb := ReadError(n.a), ReadError(n.b);
    if ea != OK && eb != OK then
      if ea != NVS_NOT_FOUND then Refused(ea)
      else if eb != NVS_NOT_FOUND then Refused(eb)
      else FirstBoot
    else if ea != OK && ea != NVS_NOT_FOUND then Refused(ea)
    else if eb != OK && eb != NVS_NOT_FOUND then Refused(eb)
    else if ea == OK && eb == OK && n.a.s.generation == n.b.s.generation && n.a.s != n.b.s then Refused(INVALID_STATE)
    else if ea == OK && (eb != OK || n.a.s.generation >= n.b.s.generation) then Chosen(n.a.s)
    else Chosen(n.b.s)
  }

  predicate Resumable(s: SeqState) { s.next <= s.reserved ==> s.reserved < U64_MAX }

  /** A reservation that was not used up before the reboot is skipped. */
  function Resumed(s: SeqState): SeqState
    requires Resumable(s)
  {
    if s.next <= s.reserved then s.(next := s.reserved + 1) else s
  }

  predicate Loadable(n: Nvs) {
    match Choose(n)
    case FirstBoot => Accepts(n, FRESH)
    case Refused(_) => false
    case Chosen(s) => Resumable(s)
  }

  /** What load accepts: a first boot, or slots that are each missing or whole, and do not contradict one another. */
  lemma LoadableExactly(n: Nvs)
    ensures n.a.Missing? && n.b.Missing? ==>
              (Loadable(n) <==> n.active.None? || n.active == Some(SELECT_A) || n.active == Some(SELECT_B))
    ensures !(n.a.Missing? && n.b.Missing?) ==>
              (Loadable(n) <==>
               && !n.a.Torn? && !n.b.Torn?
               && (forall s :: n.a == Stored(s) || n.b == Stored(s) ==>
                     s.acknowledged <= s.maximumSeen < s.next <= s.reserved + 1)
               && (n.a.Stored? && n.b.Stored? && n.a.s.generation == n.b.s.generation ==> n.a == n.b)
               && var s := if n.a.Stored? && (n.b.Missing? || n.a.s.generation >= n.b.s.generation) then n.a.s
                           else n.b.s;
                  s.next > s.reserved || s.reserved < U64_MAX)
  {
  }

  /* ---- Runs ---- */

  /** NVS, the loaded state if any, and what callers were told with ESP_OK, oldest first. */
  datatype World = World(nvs: Nvs, mem: Option<SeqState>, issued: seq<U64>, acked: seq<U64>)

  predicate CanAllocate(m: SeqState) {
    m.next < U64_MAX && (m.next > m.reserved ==> U64_MAX - m.next >= BLOCK - 1)
  }

  function WithBlock(m: SeqState): SeqState
    requires CanAllocate(m) && m.next > m.reserved
  {
    m.(reserved := m.next + BLOCK - 1)
  }

  function Allocated(m: SeqState): SeqState
    requires m.next < U64_MAX
  {
    m.(next := m.next + 1, maximumSeen := m.next)
  }

  function Floored(m: SeqState, floor: U64, resetGeneration: U32): SeqState
    requires floor < U64_MAX
  {
    m.(maximumSeen := floor, next := floor + 1, reserved := floor, acknowledged := floor,
    resetGeneration := resetGeneration)
  }

  /** Nothing was reported: memory is as given, or was lost in a power cut. */
  predicate Silent(w: World, m: SeqState, w': World) {
    w'.issued == w.issued && w'.acked == w.acked && (w'.mem == Some(m) || w'.mem.None?)
  }

  predicate LoadStep(w: World, w': World) {
    w'.issued == w.issued && w'.acked == w.acked &&
    match Choose(w.nvs)
    case FirstBoot =>
      PersistMay(w.nvs, FRESH, w'.nvs) &&
      (w'.mem.None? ||
       (Accepts(w.nvs, FRESH) && w'.nvs == Committed(w.nvs, FRESH) && w'.mem == Some(Bumped(FRESH))))
    case Refused(_) => w'.nvs == w.nvs && w'.mem.None?
    case Chosen(s) => w'.nvs == w.nvs && (w'.mem.None? || (Resumable(s) && w'.mem == Some(Resumed(s))))
  }

  predicate AllocateStep(w: World, n: Nvs, m: SeqState, w': World)
    requires m.next < U64_MAX
  {
    || (PersistMay(n, Allocated(m), w'.nvs) && Silent(w, m, w'))
    || (Accepts(n, Allocated(m)) && w' == World(Committed(n, Allocated(m)), Some(Bumped(Allocated(m))),
                                                w.issued + [m.next], w.acked))
  }

  predicate NextStep(w: World, w': World)
    requires w.mem.Some?
  {
    var m := w.mem.value;
    || (w'.nvs == w.nvs && Silent(w, m, w'))
    || (CanAllocate(m) &&
        if m.next <= m.reserved then AllocateStep(w, w.nvs, m, w')
        else
          || (PersistMay(w.nvs, WithBlock(m), w'.nvs) && Silent(w, m, w'))
          || (Accepts(w.nvs, WithBlock(m)) &&
              AllocateStep(w, Committed(w.nvs, WithBlock(m)), Bumped(WithBlock(m)), w')))
  }

  /** Both acknowledge and raise_floor: one persist of `c`, reported as an acknowledgement of `c.acknowledged`. */
  predicate ReportStep(w: World, c: SeqState, w': World)
    requires w.mem.Some?
  {
    || (PersistMay(w.nvs, c, w'.nvs) && Silent(w, w.mem.value, w'))
    || (Accepts(w.nvs, c) &&
        w' == World(Committed(w.nvs, c), Some(Bumped(c)), w.issued, w.acked + [c.acknowledged]))
  }

  predicate AcknowledgeStep(w: World, value: U64, w': World)
    requires w.mem.Some?
  {
    var m := w.mem.value;
    || (w'.nvs == w.nvs && Silent(w, m, w'))
    || (value == m.acknowledged && w' == w.(acked := w.acked + [value]))
    || (m.acknowledged < value <= m.maximumSeen && ReportStep(w, m.(acknowledged := value), w'))
  }

  predicate RaiseFloorStep(w: World, floor: U64, resetGeneration: U32, w': World)
    requires w.mem.Some?
  {
    var m := w.mem.value;
    || (w'.nvs == w.nvs && Silent(w, m, w'))
    || (m.maximumSeen == m.acknowledged == floor && w' == w.(acked := w.acked + [floor]))
    || (m.maximumSeen <= floor < U64_MAX && m.resetGeneration < resetGeneration &&
        ReportStep(w, Floored(m, floor, resetGeneration), w'))
  }

  ghost predicate Step(w: World, w': World) {
    || w' == w.(mem := None)
    || LoadStep(w, w')
    || (w.mem.Some? && NextStep(w, w'))
    || (w.mem.Some? && exists value: U64 :: AcknowledgeStep(w, value, w'))
    || (w.mem.Some? && exists floor: U64, generation: U32 :: RaiseFloorStep(w, floor, generation, w'))
  }

  predicate Increasing(s: seq<U64>) { forall i, j :: 0 <= i < j < |s| ==> s[i] < s[j] }

  predicate NonDecreasing(s: seq<U64>) { forall i, j :: 0 <= i < j < |s| ==> s[i] <= s[j] }

  predicate Covers(s: SeqState, issued: seq<U64>, acked: seq<U64>) {
    (forall i :: 0 <= i < |issued| ==> issued[i] <= s.maximumSeen) &&
    (forall i :: 0 <= i < |acked| ==> acked[i] <= s.acknowledged)
  }

  predicate GenerationsUpTo(n: Nvs, limit: int) {
    (n.a.Stored? ==> n.a.s.generation <= limit) && (n.b.Stored? ==> n.b.s.generation <= limit)
  }

  /** Whatever load finds, if it finds a state, is past the given numbers and acknowledgements. */
  predicate Found(n: Nvs, issued: seq<U64>, acked: seq<U64>) {
    Choose(n).Chosen? ==> Covers(Choose(n).s, issued, acked)
  }

  /**
   No assumption is made about which slot the selector names: a state written with a generation no
   other slot exceeds is what load finds, or load refuses.
   */
  predicate Inv(w: World) {
    && Increasing(w.issued) && NonDecreasing(w.acked)
    && (Choose(w.nvs) == FirstBoot ==> w.issued == [] && w.acked == [] && w.mem.None?)
    && Found(w.nvs, w.issued, w.acked)
    && (w.mem.Some? ==>
          var m := w.mem.value;
          SlotValid(m) && Covers(m, w.issued, w.acked) && GenerationsUpTo(w.nvs, m.generation + 1) &&
          Found(w.nvs, [m.maximumSeen], [m.acknowledged]))
  }

  /** However a persist ends, what load finds next is still past everything the written state is past. */
  lemma PersistKeepsFound(n: Nvs, c: SeqState, n': Nvs, issued: seq<U64>, acked: seq<U64>)
    requires PersistMay(n, c, n') && SlotValid(c) && Covers(c, issued, acked)
    requires GenerationsUpTo(n, c.generation + 1)
    requires Found(n, issued, acked) || (Accepts(n, c) && n' == Committed(n, c))
    ensures Found(n', issued, acked)
    ensures Choose(n') == FirstBoot ==> n' == n
    ensures GenerationsUpTo(n', c.generation + 1)
  {
  }

  lemma LoadKeepsInv(w: World, w': World)
    requires Inv(w) && LoadStep(w, w')
    ensures Inv(w')
  {
  }

  /** What load leaves in memory: the newer slot, past all that it had reserved. */
  lemma LoadSkips(w: World, w': World)
    requires LoadStep(w, w') && w'.mem.Some?
    ensures var n, m := w.nvs, w'.mem.value;
            if n.a.Missing? && n.b.Missing? then m == SeqState(1, 0, 0, 0, 0, 1)
            else
              w'.nvs == n && !n.a.Torn? && !n.b.Torn? &&
              var s := if n.a.Stored? && (n.b.Missing? || n.a.s.generation >= n.b.s.generation) then n.a.s else n.b.s;
              m == s.(next := if s.next > s.reserved + 1 then s.next else s.reserved + 1)
    ensures w'.mem.value.next > w'.mem.value.reserved
  {
  }

  /** A persist that grows the loaded state, ending in anything but ESP_OK. */
  lemma FailedPersistKeepsInv(w: World, m: SeqState, c: SeqState, w': World)
    requires Inv(w.(mem := Some(m))) && PersistMay(w.nvs, c, w'.nvs) && Silent(w, m, w')
    requires SlotValid(c) && Grows(m, c)
    ensures Inv(w')
  {
    PersistKeepsFound(w.nvs, c, w'.nvs, w.issued, w.acked);
    PersistKeepsFound(w.nvs, c, w'.nvs, [m.maximumSeen], [m.acknowledged]);
  }

  /** A persist that grows the loaded state and ends in ESP_OK, with what is then reported. */
  lemma CommitKeepsInv(w: World, m: SeqState, c: SeqState, w': World)
    requires Inv(w.(mem := Some(m))) && Accepts(w.nvs, c) && SlotValid(c) && Grows(m, c)
    requires w'.nvs == Committed(w.nvs, c) && w'.mem == Some(Bumped(c))
    requires w.issued <= w'.issued && w.acked <= w'.acked
    requires Covers(c, w'.issued, w'.acked) && Increasing(w'.issued) && NonDecreasing(w'.acked)
    ensures Inv(w')
  {
    PersistKeepsFound(w.nvs, c, w'.nvs, w'.issued, w'.acked);
    PersistKeepsFound(w.nvs, c, w'.nvs, [c.maximumSeen], [c.acknowledged]);
  }

  predicate Grows(m: SeqState, c: SeqState) {
    c.generation == m.generation && m.maximumSeen <= c.maximumSeen && m.acknowledged <= c.acknowledged
  }

  lemma AllocateKeepsInv(w: World, n: Nvs, m: SeqState, w': World)
    requires Inv(World(n, Some(m), w.issued, w.acked))
    requires m.next <= m.reserved && m.next < U64_MAX && AllocateStep(w, n, m, w')
    ensures Inv(w')
  {
    var w1 := World(n, Some(m), w.issued, w.acked);
    if w'.issued == w.issued {
      FailedPersistKeepsInv(w1, m, Allocated(m), w');
    } else {
      CommitKeepsInv(w1, m, Allocated(m), w');
    }
  }

  lemma NextKeepsInv(w: World, w': World)
    requires Inv(w) && w.mem.Some? && NextStep(w, w')
    ensures Inv(w')
  {
    var m := w.mem.value;
    if w'.nvs == w.nvs && Silent(w, m, w') {
    } else if m.next <= m.reserved {
      AllocateKeepsInv(w, w.nvs, m, w');
    } else {
      var c := WithBlock(m);
      if PersistMay(w.nvs, c, w'.nvs) && Silent(w, m, w') {
        FailedPersistKeepsInv(w, m, c, w');
      } else {
        CommitKeepsInv(w, m, c, World(Committed(w.nvs, c), Some(Bumped(c)), w.issued, w.acked));
        AllocateKeepsInv(w, Committed(w.nvs, c), Bumped(c), w');
      }
    }
  }

  lemma ReportKeepsInv(w: World, c: SeqState, w': World)
    requires Inv(w) && w.mem.Some? && ReportStep(w, c, w')
    requires SlotValid(c) && Grows(w.mem.value, c)
    ensures Inv(w')
  {
    if PersistMay(w.nvs, c, w'.nvs) && Silent(w, w.mem.value, w') {
      FailedPersistKeepsInv(w, w.mem.value, c, w');
    } else {
      CommitKeepsInv(w, w.mem.value, c, w');
    }
  }

  lemma AcknowledgeKeepsInv(w: World, value: U64, w': World)
    requires Inv(w) && w.mem.Some? && AcknowledgeStep(w, value, w')
    ensures Inv(w')
  {
    var m := w.mem.value;
    if w'.nvs == w.nvs && Silent(w, m, w') {
    } else if value != m.acknowledged {
      ReportKeepsInv(w, m.(acknowledged := value), w');
    }
  }

  lemma RaiseFloorKeepsInv(w: World, floor: U64, generation: U32, w': World)
    requires Inv(w) && w.mem.Some? && RaiseFloorStep(w, floor, generation, w')
    ensures Inv(w')
  {
    var m := w.mem.value;
    if w'.nvs == w.nvs && Silent(w, m, w') {
    } else if m.maximumSeen == m.acknowledged == floor && w' == w.(acked := w.acked + [floor]) {
    } else {
      ReportKeepsInv(w, Floored(m, floor, generation), w');
    }
  }

  lemma StepKeepsInv(w: World, w': World)
    requires Inv(w) && Step(w, w')
    ensures Inv(w')
    ensures w.issued <= w'.issued && w.acked <= w'.acked
  {
    if w' == w.(mem := None) {
    } else if LoadStep(w, w') {
      LoadKeepsInv(w, w');
    } else if NextStep(w, w') {
      NextKeepsInv(w, w');
    } else if exists value: U64 :: AcknowledgeStep(w, value, w') {
      var value: U64 :| AcknowledgeStep(w, value, w');
      AcknowledgeKeepsInv(w, value, w');
    } else {
      var floor: U64, generation: U32 :| RaiseFloorStep(w, floor, generation, w');
      RaiseFloorKeepsInv(w, floor, generation, w');
    }
  }

  ghost predicate Run(ws: seq<World>) {
    |ws| > 0 && ws[0].mem.None? && ws[0].issued == [] && ws[0].acked == [] &&
    forall i :: 0 <= i < |ws| - 1 ==> Step(ws[i], ws[i + 1])
  }

  /**
   Sequence identity. From any NVS content, over every run: numbers handed out with ESP_OK strictly
   increase (so none is reused), reported acknowledgements never go back, and the state that is
   loaded at any point is past all of them.
   */
  lemma {:induction false} SequenceIdentity(ws: seq<World>, i: nat, j: nat)
    requires Run(ws) && i <= j < |ws|
    ensures Increasing(ws[j].issued) && NonDecreasing(ws[j].acked)
    ensures ws[i].issued <= ws[j].issued && ws[i].acked <= ws[j].acked
    ensures ws[j].mem.Some? ==>
              (forall k :: 0 <= k < |ws[j].issued| ==> ws[j].issued[k] < ws[j].mem.value.next) &&
              (forall k :: 0 <= k < |ws[j].acked| ==> ws[j].acked[k] <= ws[j].mem.value.acknowledged)
    ensures ws[j].mem.Some? ==>
              var m := ws[j].mem.value;
              m.acknowledged <= m.maximumSeen < m.next <= m.reserved + 1
    ensures Inv(ws[j])
    decreases j
  {
    if j > 0 {
      SequenceIdentity(ws, if i < j then i else j - 1, j - 1);
      StepKeepsInv(ws[j - 1], ws[j]);
    }
  }

  /* ---- A reservation that a reboot abandons ---- */

  /** Whatever load finds has numbers reserved through `reserve`, and so has memory, which is past them already. */
  predicate Past(w: World, reserve: U64) {
    && Choose(w.nvs) != FirstBoot
    && (Choose(w.nvs).Chosen? ==> Choose(w.nvs).s.reserved >= reserve)
    && (w.mem.Some? ==> w.mem.value.reserved >= reserve && w.mem.value.next > reserve)
  }

  /** Any step, raising the floor only to the reserve or above. */
  ghost predicate StepAbove(w: World, w': World, reserve: U64) {
    || w' == w.(mem := None)
    || LoadStep(w, w')
    || (w.mem.Some? && NextStep(w, w'))
    || (w.mem.Some? && exists value: U64 :: AcknowledgeStep(w, value, w'))
    || (w.mem.Some? && exists floor: U64, generation: U32 ::
          floor >= reserve && RaiseFloorStep(w, floor, generation, w'))
  }

  lemma AboveIsAStep(w: World, w': World, reserve: U64)
    requires StepAbove(w, w', reserve)
    ensures Step(w, w')
  {
  }

  lemma PersistStaysPast(n: Nvs, c: SeqState, n': Nvs, reserve: U64)
    requires PersistMay(n, c, n') && SlotValid(c) && GenerationsUpTo(n, c.generation + 1) && c.reserved >= reserve
    requires Choose(n) != FirstBoot && (Choose(n).Chosen? ==> Choose(n).s.reserved >= reserve)
    ensures Choose(n') != FirstBoot && (Choose(n').Chosen? ==> Choose(n').s.reserved >= reserve)
  {
  }

  lemma AllocateStaysPast(w: World, n: Nvs, m: SeqState, w': World, reserve: U64)
    requires Inv(World(n, Some(m), w.issued, w.acked)) && Past(World(n, Some(m), w.issued, w.acked), reserve)
    requires m.next <= m.reserved && m.next < U64_MAX && AllocateStep(w, n, m, w')
    ensures Past(w', reserve) && forall k :: |w.issued| <= k < |w'.issued| ==> w'.issued[k] > reserve
  {
    PersistStaysPast(n, Allocated(m), w'.nvs, reserve);
  }

  lemma NextStaysPast(w: World, w': World, reserve: U64)
    requires Inv(w) && Past(w, reserve) && w.mem.Some? && NextStep(w, w')
    ensures Past(w', reserve) && forall k :: |w.issued| <= k < |w'.issued| ==> w'.issued[k] > reserve
  {
    var m := w.mem.value;
    if w'.nvs == w.nvs && Silent(w, m, w') {
    } else if m.next <= m.reserved {
      AllocateStaysPast(w, w.nvs, m, w', reserve);
    } else {
      var c := WithBlock(m);
      if PersistMay(w.nvs, c, w'.nvs) && Silent(w, m, w') {
        PersistStaysPast(w.nvs, c, w'.nvs, reserve);
      } else {
        var w1 := World(Committed(w.nvs, c), Some(Bumped(c)), w.issued, w.acked);
        PersistStaysPast(w.nvs, c, w1.nvs, reserve);
        CommitKeepsInv(w, m, c, w1);
        AllocateStaysPast(w, w1.nvs, Bumped(c), w', reserve);
      }
    }
  }

  lemma ReportStaysPast(w: World, c: SeqState, w': World, reserve: U64)
    requires Inv(w) && Past(w, reserve) && w.mem.Some? && ReportStep(w, c, w') && SlotValid(c)
    requires c.generation == w.mem.value.generation && c.reserved >= reserve && c.next > reserve
    ensures Past(w', reserve)
  {
    PersistStaysPast(w.nvs, c, w'.nvs, reserve);
  }

  lemma StepStaysPast(w: World, w': World, reserve: U64)
    requires Inv(w) && Past(w, reserve) && StepAbove(w, w', reserve)
    ensures Past(w', reserve) && forall k :: |w.issued| <= k < |w'.issued| ==> w'.issued[k] > reserve
  {
    if w' == w.(mem := None) || LoadStep(w, w') {
    } else if NextStep(w, w') {
      NextStaysPast(w, w', reserve);
    } else if value: U64 :| AcknowledgeStep(w, value, w') {
      var m := w.mem.value;
      if m.acknowledged < value <= m.maximumSeen && ReportStep(w, m.(acknowledged := value), w') {
        ReportStaysPast(w, m.(acknowledged := value), w', reserve);
      }
    } else {
      var floor: U64, generation: U32 :| floor >= reserve && RaiseFloorStep(w, floor, generation, w');
      var m := w.mem.value;
      if m.maximumSeen <= floor < U64_MAX && ReportStep(w, Floored(m, floor, generation), w') {
        ReportStaysPast(w, Floored(m, floor, generation), w', reserve);
      }
    }
  }

  lemma LoadedIsPast(w: World, w': World)
    requires Inv(w) && LoadStep(w, w') && w'.mem.Some? && Choose(w.nvs).Chosen?
    ensures Past(w', Choose(w.nvs).s.reserved) && w'.issued == w.issued
  {
  }

  ghost predicate AboveAt(ws: seq<World>, h: nat, reserve: U64)
    requires h + 1 < |ws|
  {
    StepAbove(ws[h], ws[h + 1], reserve)
  }

  /** Between the two, nothing but numbers above the reserve was handed out. */
  predicate IssuesAbove(v: World, w: World, reserve: U64) {
    v.issued <= w.issued && forall k :: |v.issued| <= k < |w.issued| ==> w.issued[k] > reserve
  }

  lemma OneMoreIsPast(v: World, w: World, w': World, reserve: U64)
    requires Inv(w) && Past(w, reserve) && IssuesAbove(v, w, reserve) && StepAbove(w, w', reserve)
    ensures Inv(w') && Past(w', reserve) && IssuesAbove(v, w', reserve)
  {
    AboveIsAStep(w, w', reserve);
    StepKeepsInv(w, w');
    StepStaysPast(w, w', reserve);
    forall k | |v.issued| <= k < |w'.issued| ensures w'.issued[k] > reserve {
      if k < |w.issued| { assert w'.issued[k] == w.issued[k]; }
    }
  }

  lemma {:induction false} PastStaysPast(ws: seq<World>, i: nat, j: nat, reserve: U64)
    requires i <= j < |ws| && Inv(ws[i]) && Past(ws[i], reserve)
    requires forall h | i <= h < j :: AboveAt(ws, h, reserve)
    ensures Inv(ws[j]) && Past(ws[j], reserve) && IssuesAbove(ws[i], ws[j], reserve)
    decreases j
  {
    if i < j {
      PastStaysPast(ws, i, j - 1, reserve);
      assert AboveAt(ws, j - 1, reserve);
      OneMoreIsPast(ws[i], ws[j - 1], ws[j], reserve);
    }
  }

  /**
   What a reboot abandons stays abandoned. After a boot that found a slot, every number handed out, in that boot or in
   a later one, exceeds everything that slot had reserved, as long as the floor is not raised to less than that.
   */
  lemma ReservationsAreAbandoned(ws: seq<World>, i: nat, j: nat)
    requires Run(ws) && i < j < |ws| && LoadStep(ws[i], ws[i + 1]) && ws[i + 1].mem.Some? && Choose(ws[i].nvs).Chosen?
    requires forall h | i < h < j :: AboveAt(ws, h, Choose(ws[i].nvs).s.reserved)
    ensures forall k :: |ws[i].issued| <= k < |ws[j].issued| ==> ws[j].issued[k] > Choose(ws[i].nvs).s.reserved
  {
    SequenceIdentity(ws, i, i);
    LoadedIsPast(ws[i], ws[i + 1]);
    PastStaysPast(ws, i + 1, j, Choose(ws[i].nvs).s.reserved);
  }

  /**
   That condition is needed: whatever the floor is raised to, the next number handed out is the one after it, so it is
   one of the abandoned ones exactly when the floor is below what the slot had reserved. None of those was handed out
   before.
   */
  lemma RaisedFloorDecides(n: Nvs, s: SeqState, floor: U64, resetGeneration: U32) returns (ws: seq<World>)
    requires Choose(n) == Chosen(s) && Resumable(s) && SlotValid(s) && Writable(n, s, 3)
    requires s.maximumSeen <= floor <= U64_MAX - BLOCK && s.resetGeneration < resetGeneration
    ensures Run(ws) && |ws| == 4 && ws[0].nvs == n && LoadStep(ws[0], ws[1])
    ensures ws[1].mem.Some? && RaiseFloorStep(ws[1], floor, resetGeneration, ws[2])
    ensures ws[2].mem.Some? && NextStep(ws[2], ws[3]) && ws[3].issued == [floor + 1]
    ensures ws[3].issued[0] > s.reserved <==> floor >= s.reserved
  {
    var m := Resumed(s);
    var c := Floored(m, floor, resetGeneration);
    var n2 := Committed(n, c);
    var b := WithBlock(Bumped(c));
    var n3 := Committed(n2, b);
    var a := Allocated(Bumped(b));
    var w0 := World(n, None, [], []);
    var w1 := World(n, Some(m), [], []);
    var w2 := World(n2, Some(Bumped(c)), [], [floor]);
    var w3 := World(Committed(n3, a), Some(Bumped(a)), [floor + 1], [floor]);
    ws := [w0, w1, w2, w3];
    assert LoadStep(w0, w1) && RaiseFloorStep(w1, floor, resetGeneration, w2);
    assert AllocateStep(w2, n3, Bumped(b), w3);
    assert NextStep(w2, w3);
  }

  /* ---- The source's operations ---- */

  class Store {
    var nvs: Nvs
    var state: SeqState
    var loaded: bool
    var faulty: bool
    ghost var issued: seq<U64>
    ghost var acked: seq<U64>

    ghost function Abs(): World
      reads this
    {
      World(nvs, if loaded then Some(state) else None, issued, acked)
    }

    method SetBlob(toA: bool, s: SeqState) returns (o: Outcome)
      modifies this`nvs
      ensures nvs.active == old(nvs.active) && (if toA then nvs.b == old(nvs.b) else nvs.a == old(nvs.a))
      ensures var b := if toA then nvs.a else nvs.b;
              b == Stored(s) || b == Torn || (!o.Ok() && nvs == old(nvs))
      ensures !faulty ==> o.Ok() && (if toA then nvs.a else nvs.b) == Stored(s)
    {
      o := Environment(faulty);
      var effect: Blob := *;
      if !faulty { effect := Stored(s); }
      if effect == Stored(s) || effect == Torn || o.Ok() {
        var b := if effect == Torn then Torn else Stored(s);
        nvs := if toA then nvs.(a := b) else nvs.(b := b);
      }
    }

    method SetSelector(value: U8) returns (o: Outcome)
      modifies this`nvs
      ensures nvs == old(nvs) || nvs == old(nvs).(active := Some(value))
      ensures o.Ok() ==> nvs == old(nvs).(active := Some(value))
      ensures !faulty ==> o.Ok()
    {
      o := Environment(faulty);
      var durable: bool := *;
      if o.Ok() || durable {
        nvs := nvs.(active := Some(value));
      }
    }

    method ReadSlot(fromA: bool) returns (o: Outcome, s: SeqState)
      ensures var b := if fromA then nvs.a else nvs.b;
              o == Returned(ReadError(b)) || o == Returned(NVS_ERROR) || o == PowerCut
      ensures var b := if fromA then nvs.a else nvs.b; o.Ok() ==> b == Stored(s) && SlotValid(s)
      ensures !faulty ==> o == Returned(ReadError(if fromA then nvs.a else nvs.b))
    {
      s := FRESH;
      o := Environment(faulty);
      var b := if fromA then nvs.a else nvs.b;
      if o.Ok() {
        o := Returned(ReadError(b));
        if o.Ok() {
          s := b.s;
        }
      } else if o.Returned? {
        o := Returned(NVS_ERROR);
      }
    }

    method Persist(candidate: SeqState) returns (o: Outcome, saved: SeqState)
      modifies this`nvs
      ensures PersistMay(old(nvs), candidate, nvs)
      ensures o.Ok() ==> Accepts(old(nvs), candidate) && nvs == Committed(old(nvs), candidate)
                         && saved == Bumped(candidate)
      ensures o.Ok() ==>
                && saved == candidate.(generation := candidate.generation + 1)
                && (if old(nvs).active == Some(SELECT_B) then nvs == Nvs(Stored(saved), old(nvs).b, Some(SELECT_A))
                    else nvs == Nvs(old(nvs).a, Stored(saved), Some(SELECT_B)))
      ensures !o.Ok() ==> saved == candidate
      ensures !faulty ==> (o.Ok() <==> Accepts(old(nvs), candidate) && SlotValid(candidate))
    {
      saved := candidate;
      if candidate.generation == U32_MAX { return Returned(INVALID_STATE), saved; }
      o := Environment(faulty);
      if !o.Ok() { return; }
      o := Environment(faulty);
      if !o.Ok() { return; }
      if nvs.active.None? && candidate.generation != 0 { return Returned(NVS_NOT_FOUND), saved; }
      var active := if nvs.active.Some? then nvs.active.value else SELECT_A;
      if active != SELECT_A && active != SELECT_B { return Returned(INVALID_STATE), saved; }
      var inactive := if active == SELECT_A then SELECT_B else SELECT_A;
      var slot := candidate.(generation := candidate.generation + 1);
      o := SetBlob(inactive == SELECT_A, slot);
      if !o.Ok() { return; }
      o := Environment(faulty);
      if !o.Ok() { return; }
      var verified;
      o, verified := ReadSlot(inactive == SELECT_A);
      if !o.Ok() { return; }
      if verified != slot { return Returned(FAIL), saved; }
      o := SetSelector(inactive);
      if !o.Ok() { return; }
      o := Environment(faulty);
      if o.Ok() { saved := slot; }
    }

    method Reboot()
      modifies this`loaded
      ensures Abs() == old(Abs()).(mem := None)
    {
      loaded := false;
    }

    method ReadSlots() returns (o: Outcome)
      modifies this`nvs, this`state, this`loaded, this`issued, this`acked
      ensures LoadStep(old(Abs()), Abs())
      ensures o.Ok() <==> loaded
      ensures !faulty ==> (o.Ok() <==> Loadable(old(nvs)))
    {
      loaded := false;
      o := Environment(faulty);
      if !o.Ok() { return; }
      var oa, a := ReadSlot(true);
      if oa == PowerCut { return oa; }
      var ob, b := ReadSlot(false);
      if ob == PowerCut { return ob; }
      var missing := Returned(NVS_NOT_FOUND);
      if !oa.Ok() && !ob.Ok() {
        if oa != missing || ob != missing { return if oa != missing then oa else ob; }
        var initial;
        o, initial := Persist(FRESH);
        state, loaded := initial, o.Ok();
        return;
      }
      if (!oa.Ok() && oa != missing) || (!ob.Ok() && ob != missing) {
        return if !oa.Ok() && oa != missing then oa else ob;
      }
      if oa.Ok() && ob.Ok() && a.generation == b.generation && a != b { return Returned(INVALID_STATE); }
      state := if oa.Ok() && (!ob.Ok() || a.generation >= b.generation) then a else b;
      if state.next <= state.reserved {
        if state.reserved == U64_MAX { return Returned(INVALID_STATE); }
        state := state.(next := state.reserved + 1);
      }
      loaded, o := true, Returned(OK);
    }

    /** Load skips what was reserved and not used before the reboot. */
    method Load() returns (o: Outcome)
      modifies this`nvs, this`state, this`loaded, this`issued, this`acked
      ensures LoadStep(old(Abs()), Abs())
      ensures o.Ok() <==> loaded
      ensures o.Ok() ==> state.next > state.reserved
      ensures o.Ok() && old(nvs).a.Missing? && old(nvs).b.Missing? ==> state == SeqState(1, 0, 0, 0, 0, 1)
      ensures o.Ok() && !(old(nvs).a.Missing? && old(nvs).b.Missing?) ==>
                nvs == old(nvs) && !nvs.a.Torn? && !nvs.b.Torn? &&
                var s := if nvs.a.Stored? && (nvs.b.Missing? || nvs.a.s.generation >= nvs.b.s.generation) then nvs.a.s
                         else nvs.b.s;
                && state == s.(next := state.next)
                && state.next == (if s.next > s.reserved + 1 then s.next else s.reserved + 1)
      ensures !faulty ==> (o.Ok() <==> Loadable(old(nvs)))
    {
      o := ReadSlots();
      if o.Ok() { LoadSkips(old(Abs()), Abs()); }
    }

    method Next() returns (o: Outcome, sequence: U64)
      requires loaded && Inv(Abs())
      modifies this`nvs, this`state, this`loaded, this`issued, this`acked
      ensures NextStep(old(Abs()), Abs()) && Inv(Abs())
      ensures o.Ok() ==>
                && sequence == old(state).next
                && state == old(state).(next := state.next, maximumSeen := sequence, reserved := state.reserved,
                                        generation := state.generation)
                && state.next == sequence + 1
                && state.reserved == if sequence <= old(state).reserved then old(state).reserved else sequence + 63
      ensures o.Ok() ==>
                issued == old(issued) + [sequence] &&
                forall k :: 0 <= k < |old(issued)| ==> old(issued)[k] < sequence
      ensures !o.Ok() ==> issued == old(issued)
      ensures !faulty ==>
                (o.Ok() <==>
                 var m, active := old(state), old(nvs).active;
                 && m.next < U64_MAX && (m.next <= m.reserved || m.next <= U64_MAX - 63)
                 && (active == Some(SELECT_A) || active == Some(SELECT_B) || (active.None? && m.generation == 0))
                 && m.generation + (if m.next > m.reserved then 2 else 1) <= U32_MAX)
    {
      sequence := 0;
      ghost var before := Abs();
      if state.next == U64_MAX { return Returned(INVALID_ARG), sequence; }
      if state.next > state.reserved {
        if U64_MAX - state.next < BLOCK - 1 { return Returned(INVALID_SIZE), sequence; }
        o := ReserveBlock();
        if !o.Ok() {
          NextKeepsInv(before, Abs());
          return;
        }
      }
      o, sequence := Allocate();
      assert NextStep(before, Abs());
      NextKeepsInv(before, Abs());
    }

    /** The numbers of a new block are reserved before the first of them is used. */
    method ReserveBlock() returns (o: Outcome)
      requires loaded && CanAllocate(state) && state.next > state.reserved
      modifies this`nvs, this`state, this`loaded
      ensures o.Ok() ==> loaded && Accepts(old(nvs), WithBlock(old(state))) &&
                         nvs == Committed(old(nvs), WithBlock(old(state))) && state == Bumped(WithBlock(old(state)))
      ensures !o.Ok() ==> PersistMay(old(nvs), WithBlock(old(state)), nvs) && (loaded ==> state == old(state))
      ensures !faulty ==> (o.Ok() <==> Accepts(old(nvs), old(state)) && SlotValid(WithBlock(old(state))))
    {
      var saved;
      o, saved := Persist(state.(reserved := state.next + BLOCK - 1));
      if o.Ok() {
        state := saved;
      } else {
        loaded := o.Returned?;
      }
    }

    method Allocate() returns (o: Outcome, sequence: U64)
      requires loaded && state.next < U64_MAX
      modifies this`nvs, this`state, this`loaded, this`issued
      ensures AllocateStep(old(Abs()), old(nvs), old(state), Abs())
      ensures o.Ok() ==> issued == old(issued) + [sequence] && sequence == old(state).next && state.next == sequence + 1
      ensures !o.Ok() ==> issued == old(issued)
      ensures !faulty ==> (o.Ok() <==> Accepts(old(nvs), old(state)) && SlotValid(Allocated(old(state))))
    {
      sequence := state.next;
      var saved;
      o, saved := Persist(state.(next := state.next + 1, maximumSeen := sequence));
      if o.Ok() {
        state, issued := saved, issued + [sequence];
      } else {
        loaded := o.Returned?;
      }
    }

    method Acknowledge(value: U64) returns (o: Outcome)
      requires loaded && Inv(Abs())
      modifies this`nvs, this`state, this`loaded, this`issued, this`acked
      ensures AcknowledgeStep(old(Abs()), value, Abs()) && Inv(Abs())
      ensures o.Ok() ==> state == old(state).(acknowledged := value, generation := state.generation)
      ensures o.Ok() ==> acked == old(acked) + [value] && state.acknowledged == value >= old(state.acknowledged)
      ensures value < old(state.acknowledged) || value > old(state.maximumSeen) ==>
                o == Returned(INVALID_ARG) && Abs() == old(Abs())
      ensures !faulty && old(state).acknowledged < value <= old(state).maximumSeen ==>
                (o.Ok() <==> Writable(old(nvs), old(state), 1))
    {
      ghost var before := Abs();
      if value < state.acknowledged || value > state.maximumSeen { return Returned(INVALID_ARG); }
      if value == state.acknowledged {
        acked := acked + [value];
        AcknowledgeKeepsInv(before, value, Abs());
        return Returned(OK);
      }
      var saved;
      o, saved := Persist(state.(acknowledged := value));
      if o.Ok() {
        state, acked := saved, acked + [value];
      } else {
        loaded := o.Returned?;
      }
      AcknowledgeKeepsInv(before, value, Abs());
    }

    method RaiseFloor(floor: U64, resetGeneration: U32) returns (o: Outcome)
      requires loaded && Inv(Abs())
      modifies this`nvs, this`state, this`loaded, this`issued, this`acked
      ensures RaiseFloorStep(old(Abs()), floor, resetGeneration, Abs()) && Inv(Abs())
      ensures o.Ok() ==> state.maximumSeen == state.acknowledged == state.reserved == floor
                         && state.next == floor + 1 && state.resetGeneration == resetGeneration
      ensures o.Ok() ==> forall k :: 0 <= k < |issued| ==> issued[k] <= floor
      ensures floor == U64_MAX || (resetGeneration != old(state).resetGeneration &&
                                   (floor < old(state).maximumSeen || resetGeneration < old(state).resetGeneration)) ==>
                o == Returned(INVALID_ARG) && Abs() == old(Abs())
      ensures floor < U64_MAX && resetGeneration == old(state).resetGeneration ==>
                nvs == old(nvs) && state == old(state) &&
                o == Returned(if old(state).maximumSeen == old(state).acknowledged == old(state).reserved == floor &&
                                 old(state).next == floor + 1 then OK else INVALID_STATE)
      ensures !faulty && old(state).maximumSeen <= floor < U64_MAX && old(state).resetGeneration < resetGeneration ==>
                (o.Ok() <==> Writable(old(nvs), old(state), 1))
    {
      ghost var before := Abs();
      if floor == U64_MAX { return Returned(INVALID_ARG); }
      if resetGeneration == state.resetGeneration {
        if state.maximumSeen == floor && state.next == floor + 1 && state.reserved == floor &&
          state.acknowledged == floor {
          acked := acked + [floor];
          RaiseFloorKeepsInv(before, floor, resetGeneration, Abs());
          return Returned(OK);
        }
        return Returned(INVALID_STATE);
      }
      if floor < state.maximumSeen || resetGeneration < state.resetGeneration { return Returned(INVALID_ARG); }
      var saved;
      o, saved := Persist(Floored(state, floor, resetGeneration));
      if o.Ok() {
        state, acked := saved, acked + [floor];
      } else {
        loaded := o.Returned?;
      }
      RaiseFloorKeepsInv(before, floor, resetGeneration, Abs());
    }
  }
}
