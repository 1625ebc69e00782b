/**
 The command ledger (components/pm_commands/pm_commands.c) under the two faults its crash theorem does not survive: a
 zeroization that fails, because it does not roll the generation back, and a write that reports success although the
 slot is torn, because nothing is read back. For both it is proved exactly which writes lose the last ledger.
 */
module LedgerFaults {
  import opened Esp
  import opened CommandLedger

  /** How a write ends; a failed one may have reached NVS whole or torn, a successful one may be torn unnoticed. */
  datatype Effect = Success | NoEffect | FailedTorn | FailedDurable | SilentlyTorn

  /** `cut` says whether power is lost with a failed write. */
  datatype Event =
    | PowerLoss
    | Boot(first: Effect)
    | Operation(changed: Ledger, effect: Effect, cut: bool)
    | Zeroize(i: nat, effect: Effect, cut: bool)

  const EMPTY_WORLD := World(Nvs(Missing, Missing), None, None, {})

  function Landed(n: Nvs, t: Ledger, e: Effect): Nvs {
    match e
    case Success => With(n, t.generation, Stored(t))
    case NoEffect => n
    case FailedTorn => With(n, t.generation, Torn)
    case FailedDurable => With(n, t.generation, Stored(t))
    case SilentlyTorn => With(n, t.generation, Torn)
  }

  predicate Reported(e: Effect) { e.Success? || e.SilentlyTorn? }

  /** A write of `t` that leaves `restored` in memory when it fails. */
  function Written(w: World, t: Ledger, restored: Option<Ledger>, e: Effect, cut: bool): World {
    if Reported(e) then World(Landed(w.nvs, t, e), Some(t), Some(t), {})
    else World(Landed(w.nvs, t, e), if cut then None else restored, w.saved, w.tried + {t})
  }

  function Redacted(l: Ledger, i: nat): Ledger
    requires i < |l.entries|
  {
    l.(entries := l.entries[i := Zeroized(l.entries[i])])
  }

  /** May this event happen here? Operations start from what is in memory; zeroization needs an occupied entry. */
  predicate Enabled(w: World, e: Event) {
    match e
    case PowerLoss => true
    case Boot(_) => true
    case Operation(changed, _, _) =>
      w.mem.Some? && changed.generation == w.mem.value.generation && LedgerValid(changed)
    case Zeroize(i, _, _) => w.mem.Some? && i < |w.mem.value.entries| && w.mem.value.entries[i].id != ""
  }

  function Apply(w: World, e: Event): World
    requires Enabled(w, e)
  {
    match e
    case PowerLoss => w.(mem := None)
    case Boot(first) =>
      (match Choose(w.nvs)
       case FirstBoot => Written(w, Bumped(BLANK), None, first, true)
       case Refused(_) => w.(mem := None)
       case Chosen(l) => World(w.nvs, Some(l), Some(l), {}))
    case Operation(changed, effect, cut) =>
      if changed.generation == U32_MAX then w else Written(w, Bumped(changed), w.mem, effect, cut)
    case Zeroize(i, effect, cut) =>
      var redacted := Redacted(w.mem.value, i);
      if redacted.generation == U32_MAX then w.(mem := Some(redacted))
      else Written(w, Bumped(redacted), Some(Bumped(redacted)), effect, cut)
  }

  /* ---- What every run keeps ---- */

  predicate SlotSound(w: World, b: Blob, parity: int) {
    b.Stored? ==>
      LedgerValid(b.l) && b.l.generation % 2 == parity &&
      (b.l in w.tried || (w.saved.Some? && (b.l == w.saved.value || b.l.generation < w.saved.value.generation)))
  }

  predicate Newer(w: World, t: Ledger) {
    (w.saved.Some? ==> t.generation > w.saved.value.generation) &&
    (w.mem.Some? ==> t.generation <= w.mem.value.generation + 1)
  }

  predicate Inv(w: World) {
    && SlotSound(w, w.nvs.a, 1) && SlotSound(w, w.nvs.b, 0)
    && (forall t :: t in w.tried ==> Newer(w, t))
    && (w.saved.Some? ==> LedgerValid(w.saved.value) && !Choose(w.nvs).FirstBoot?)
    && (w.mem.Some? ==> w.saved.Some? && LedgerValid(w.mem.value) && w.mem.value.generation >= w.saved.value.generation)
    && (w.saved.None? ==> w.nvs.b.Missing? && forall t :: t in w.tried ==> t == Bumped(BLANK))
  }

  /** What load finds is the last ledger reported or loaded, or one whose write was under way since. */
  predicate Recent(w: World) {
    Choose(w.nvs) != Refused(INVALID_STATE) &&
    (w.saved.Some? ==> Choose(w.nvs).Chosen? && (Choose(w.nvs).l == w.saved.value || Choose(w.nvs).l in w.tried))
  }

  predicate Current(w: World, b: Blob) { b.Stored? && w.saved.Some? && (b.l == w.saved.value || b.l in w.tried) }

  /** The slot that the next write does not touch holds a ledger that may be loaded. */
  predicate Backed(w: World)
    requires w.mem.Some?
  {
    Current(w, At(w.nvs, w.mem.value.generation))
  }

  /** A torn write with nothing behind it, or a tear that nobody notices. */
  predicate Harmful(w: World, e: Event)
    requires Enabled(w, e)
  {
    match e
    case PowerLoss => false
    case Boot(first) => Choose(w.nvs).FirstBoot? && first.SilentlyTorn?
    case Operation(_, effect, _) =>
      w.mem.value.generation < U32_MAX && (effect.SilentlyTorn? || (effect.FailedTorn? && !Backed(w)))
    case Zeroize(_, effect, _) =>
      w.mem.value.generation < U32_MAX && (effect.SilentlyTorn? || (effect.FailedTorn? && !Backed(w)))
  }

  lemma WrittenKeepsInv(w: World, t: Ledger, restored: Option<Ledger>, e: Effect, cut: bool)
    requires Inv(w) && w.mem.Some? && LedgerValid(t) && t.generation == w.mem.value.generation + 1
    requires restored.Some? ==> LedgerValid(restored.value) && w.mem.value.generation <= restored.value.generation
    ensures Inv(Written(w, t, restored, e, cut))
  {
    var g: int := t.generation;
    assert g % 2 == 0 || g % 2 == 1;
  }

  lemma RedactedIsValid(l: Ledger, i: nat)
    requires LedgerValid(l) && i < |l.entries| && l.entries[i].id != ""
    ensures LedgerValid(Redacted(l, i))
  {
  }

  lemma FirstWriteKeepsInv(w: World, e: Effect)
    requires Inv(w) && Choose(w.nvs).FirstBoot?
    ensures Inv(Written(w, Bumped(BLANK), None, e, true))
  {
    BlankIsValid();
  }

  lemma ApplyKeepsInv(w: World, e: Event)
    requires Inv(w) && Enabled(w, e)
    ensures Inv(Apply(w, e))
  {
    match e
    case PowerLoss =>
    case Boot(first) => if Choose(w.nvs).FirstBoot? { FirstWriteKeepsInv(w, first); }
    case Operation(changed, effect, cut) =>
      if changed.generation < U32_MAX { WrittenKeepsInv(w, Bumped(changed), w.mem, effect, cut); }
    case Zeroize(i, effect, cut) =>
      RedactedIsValid(w.mem.value, i);
      var redacted := Redacted(w.mem.value, i);
      if redacted.generation < U32_MAX { WrittenKeepsInv(w, Bumped(redacted), Some(Bumped(redacted)), effect, cut); }
  }

  /* ---- Exactly which writes lose a ledger ---- */

  lemma WrittenIsRecentExactly(w: World, t: Ledger, restored: Option<Ledger>, e: Effect, cut: bool)
    requires Inv(w) && Recent(w) && w.mem.Some? && LedgerValid(t) && t.generation == w.mem.value.generation + 1
    ensures Recent(Written(w, t, restored, e, cut)) <==> !(e.SilentlyTorn? || (e.FailedTorn? && !Backed(w)))
  {
    var g: int := w.mem.value.generation;
    assert (g + 1) % 2 != g % 2;
  }

  lemma FirstWriteIsRecentExactly(w: World, e: Effect)
    requires Inv(w) && Choose(w.nvs).FirstBoot?
    ensures Recent(Written(w, Bumped(BLANK), None, e, true)) <==> !e.SilentlyTorn?
  {
    BlankIsValid();
  }

  /** One event loses the last ledger if and only if it is harmful. */
  lemma ApplyIsRecentExactly(w: World, e: Event)
    requires Inv(w) && Recent(w) && Enabled(w, e)
    ensures Recent(Apply(w, e)) <==> !Harmful(w, e)
  {
    match e
    case PowerLoss =>
    case Boot(first) => if Choose(w.nvs).FirstBoot? { FirstWriteIsRecentExactly(w, first); }
    case Operation(changed, effect, cut) =>
      if changed.generation < U32_MAX { WrittenIsRecentExactly(w, Bumped(changed), w.mem, effect, cut); }
    case Zeroize(i, effect, cut) =>
      RedactedIsValid(w.mem.value, i);
      var redacted := Redacted(w.mem.value, i);
      if redacted.generation < U32_MAX { WrittenIsRecentExactly(w, Bumped(redacted), Some(Bumped(redacted)), effect,
                                                                cut); }
  }

  /* ---- Runs ---- */

  /** A run: the worlds before and after every event, from a blank device on. */
  ghost predicate Run(ws: seq<World>, es: seq<Event>) {
    |ws| == |es| + 1 && ws[0] == EMPTY_WORLD && forall i :: 0 <= i < |es| ==>
      Enabled(ws[i], es[i]) && ws[i + 1] == Apply(ws[i], es[i])
  }

  lemma {:induction false} RunKeepsInv(ws: seq<World>, es: seq<Event>, j: nat)
    requires Run(ws, es) && j < |ws|
    ensures Inv(ws[j])
    decreases j
  {
    if j > 0 {
      RunKeepsInv(ws, es, j - 1);
      ApplyKeepsInv(ws[j - 1], es[j - 1]);
      assert ws[j - 1 + 1] == Apply(ws[j - 1], es[j - 1]);
    }
  }

  ghost predicate NoneHarmful(ws: seq<World>, es: seq<Event>, j: nat)
    requires Run(ws, es) && j < |ws|
  {
    forall i :: 0 <= i < j ==> !Harmful(ws[i], es[i])
  }

  /**
   Crash atomicity with its exact condition. Over every run with failing zeroizations and unnoticed tears: load finds a
   recent ledger at every instant if and only if no write tore with nothing behind it and no tear went unnoticed.
   */
  lemma {:induction false} RecentExactly(ws: seq<World>, es: seq<Event>, j: nat)
    requires Run(ws, es) && j < |ws|
    ensures (forall k :: 0 <= k <= j ==> Recent(ws[k])) <==> NoneHarmful(ws, es, j)
    decreases j
  {
    if j > 0 {
      RecentExactly(ws, es, j - 1);
      RunKeepsInv(ws, es, j - 1);
      assert ws[j - 1 + 1] == Apply(ws[j - 1], es[j - 1]);
      if Recent(ws[j - 1]) { ApplyIsRecentExactly(ws[j - 1], es[j - 1]); }
      assert NoneHarmful(ws, es, j) <==> NoneHarmful(ws, es, j - 1) && !Harmful(ws[j - 1], es[j - 1]);
    }
  }

  /* ---- What the condition comes to ---- */

  /**
   While the last reported ledger is still in its slot, the next write has something behind it if and only if memory's
   generation has the parity of that ledger's, so after an even number of failed zeroizations, or one of the failed
   writes did reach the other slot.
   */
  lemma BackedExactly(w: World)
    requires Inv(w) && w.mem.Some? && At(w.nvs, w.saved.value.generation) == Stored(w.saved.value)
    ensures var other := At(w.nvs, w.saved.value.generation + 1);
            Backed(w) <==>
              w.mem.value.generation % 2 == w.saved.value.generation % 2 || (other.Stored? && other.l in w.tried)
  {
    var g, h: int := w.mem.value.generation, w.saved.value.generation;
    assert g % 2 != h % 2 ==> g % 2 == (h + 1) % 2;
  }

  /** How many zeroizations failed since the last reported write or load, the last `j` events considered. */
  ghost function FailedZeroizations(ws: seq<World>, es: seq<Event>, j: nat): nat
    requires Run(ws, es) && j < |ws|
  {
    if j == 0 then 0
    else
      match es[j - 1]
      case PowerLoss => 0
      case Boot(_) => 0
      case Operation(changed, effect, _) =>
        if changed.generation < U32_MAX && Reported(effect) then 0 else FailedZeroizations(ws, es, j - 1)
      case Zeroize(_, effect, _) =>
        if ws[j - 1].mem.value.generation == U32_MAX then FailedZeroizations(ws, es, j - 1)
        else if Reported(effect) then 0
        else FailedZeroizations(ws, es, j - 1) + 1
  }

  /** Memory's generation runs ahead of the last reported ledger's by exactly the failed zeroizations. */
  lemma {:induction false} GenerationsCountFailures(ws: seq<World>, es: seq<Event>, j: nat)
    requires Run(ws, es) && j < |ws| && ws[j].mem.Some?
    ensures ws[j].saved.Some?
    ensures ws[j].mem.value.generation == ws[j].saved.value.generation + FailedZeroizations(ws, es, j)
    decreases j
  {
    RunKeepsInv(ws, es, j);
    if j > 0 {
      var w, e := ws[j - 1], es[j - 1];
      assert Enabled(w, e) && ws[j - 1 + 1] == Apply(w, e);
      if e.Operation? || e.Zeroize? { GenerationsCountFailures(ws, es, j - 1); }
    }
  }

  /**
   While the last reported ledger is still in its slot, the next write has something behind it if and only if an even
   number of zeroizations failed since, or a failed write did reach the other slot.
   */
  lemma BackedByCount(ws: seq<World>, es: seq<Event>, j: nat)
    requires Run(ws, es) && j < |ws| && ws[j].mem.Some? && ws[j].saved.Some?
    requires At(ws[j].nvs, ws[j].saved.value.generation) == Stored(ws[j].saved.value)
    ensures var w := ws[j]; var other := At(w.nvs, w.saved.value.generation + 1);
            Backed(w) <==> FailedZeroizations(ws, es, j) % 2 == 0 || (other.Stored? && other.l in w.tried)
  {
    RunKeepsInv(ws, es, j);
    GenerationsCountFailures(ws, es, j);
    BackedByDifference(ws[j], FailedZeroizations(ws, es, j));
  }

  lemma BackedByDifference(w: World, n: nat)
    requires Inv(w) && w.mem.Some? && At(w.nvs, w.saved.value.generation) == Stored(w.saved.value)
    requires w.mem.value.generation == w.saved.value.generation + n
    ensures var other := At(w.nvs, w.saved.value.generation + 1);
            Backed(w) <==> n % 2 == 0 || (other.Stored? && other.l in w.tried)
  {
    BackedExactly(w);
    SameParity(w.saved.value.generation, n);
  }

  lemma SameParity(g: int, n: int)
    ensures (g + n) % 2 == g % 2 <==> n % 2 == 0
  {
  }

  /** Without failed zeroizations and unnoticed tears every write has the last reported ledger behind it. */
  lemma OrdinaryWritesAreBacked(w: World)
    requires CommandLedger.Inv(w) && w.mem.Some?
    ensures Backed(w)
  {
  }

  predicate Ordinary(e: Event) {
    match e
    case PowerLoss => true
    case Boot(first) => !first.SilentlyTorn?
    case Operation(_, effect, _) => !effect.SilentlyTorn?
    case Zeroize(_, _, _) => false
  }

  /** Writes without zeroization and unnoticed tears are the steps of `CommandLedger.CrashAtomicity`. */
  lemma OrdinaryEventsAreSteps(w: World, e: Event)
    requires Enabled(w, e) && Ordinary(e)
    ensures Step(w, Apply(w, e))
  {
    match e
    case PowerLoss =>
    case Boot(first) => assert LoadStep(w, Apply(w, e));
    case Operation(changed, effect, cut) => assert PersistStep(w, changed, Apply(w, e));
  }

  /** So in a run of ordinary events nothing is harmful, and load finds a recent ledger at every instant. */
  lemma {:induction false} OrdinaryRunsAreRecent(ws: seq<World>, es: seq<Event>, j: nat)
    requires Run(ws, es) && j < |ws| && forall i :: 0 <= i < |es| ==> Ordinary(es[i])
    ensures CommandLedger.Inv(ws[j]) && NoneHarmful(ws, es, j) && forall k :: 0 <= k <= j ==> Recent(ws[k])
    decreases j
  {
    if j > 0 {
      var w, e := ws[j - 1], es[j - 1];
      OrdinaryRunsAreRecent(ws, es, j - 1);
      assert Enabled(w, e) && ws[j - 1 + 1] == Apply(w, e);
      OrdinaryEventKeepsInv(w, e);
      if w.mem.Some? { OrdinaryWritesAreBacked(w); }
      assert NoneHarmful(ws, es, j) <==> NoneHarmful(ws, es, j - 1) && !Harmful(w, e);
    }
    RecentExactly(ws, es, j);
  }

  lemma OrdinaryEventKeepsInv(w: World, e: Event)
    requires CommandLedger.Inv(w) && Enabled(w, e) && Ordinary(e)
    ensures CommandLedger.Inv(Apply(w, e))
  {
    match e
    case PowerLoss =>
    case Boot(first) =>
      assert LoadStep(w, Apply(w, e));
      CommandLedger.LoadKeepsInv(w, Apply(w, e));
    case Operation(changed, effect, cut) =>
      assert PersistStep(w, changed, Apply(w, e));
      CommandLedger.PersistKeepsInv(w, changed, Apply(w, e));
  }

  /** A tear that nobody notices loses exactly the ledger that was just reported: load brings the one before back. */
  lemma UnnoticedTearLosesTheLastLedger(w: World, changed: Ledger, e: Effect)
    requires CommandLedger.Inv(w) && w.mem.Some? && LedgerValid(changed) &&
             changed.generation == w.mem.value.generation < U32_MAX && Reported(e)
    ensures var w' := Apply(w, Operation(changed, e, false));
            && w'.saved == Some(Bumped(changed))
            && (Choose(w'.nvs) == Chosen(Bumped(changed)) <==> e.Success?)
            && (e.SilentlyTorn? ==> Choose(w'.nvs) == Chosen(w.saved.value))
  {
    var g: int := changed.generation;
    assert (g + 1) % 2 != g % 2;
  }

  /* ---- The run that loses a ledger ---- */

  const SECRET := Command("rotate", "key", 14, Accepted, 0, 0, false, false, "secret", "secret", 0, "", "")

  function WithSecret(): Ledger { Ledger([SECRET] + BLANK.entries[1..], 1, 1) }

  /**
   From a blank device: a command is admitted, its zeroization fails without effect, and the retry tears. Load then
   finds the ledger from before the command was admitted.
   */
  lemma FailedZeroizationLosesTheLedger() returns (ws: seq<World>, es: seq<Event>)
    ensures Run(ws, es) && |es| == 4
    ensures es[2] == Zeroize(0, NoEffect, false) && es[3] == Zeroize(0, FailedTorn, false)
    ensures ws[4].saved == Some(Bumped(WithSecret())) && Choose(ws[4].nvs) == Chosen(Bumped(BLANK)) && !Recent(ws[4])
  {
    BlankIsValid();
    es := [Boot(Success), Operation(WithSecret(), Success, false), Zeroize(0, NoEffect, false),
           Zeroize(0, FailedTorn, false)];
    var w1 := Apply(EMPTY_WORLD, es[0]);
    assert w1 == World(Nvs(Stored(Bumped(BLANK)), Missing), Some(Bumped(BLANK)), Some(Bumped(BLANK)), {});
    assert LedgerValid(WithSecret());
    var w2 := Apply(w1, es[1]);
    var l2 := Bumped(WithSecret());
    assert w2 == World(Nvs(Stored(Bumped(BLANK)), Stored(l2)), Some(l2), Some(l2), {});
    var w3 := Apply(w2, es[2]);
    var w4 := Apply(w3, es[3]);
    assert w3.nvs == w2.nvs && w4.nvs == Nvs(Stored(Bumped(BLANK)), Torn);
    ws := [EMPTY_WORLD, w1, w2, w3, w4];
  }
}
