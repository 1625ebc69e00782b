/**
 Credential rotation (main/app_main.c): what is durable, and what the protocol promises about it. The journal
 keeps one record per phase in two NVS keys, the key being chosen by the parity of the record's generation.
 Power may be lost between any two NVS writes; NVS calls themselves do not fail here.
 */
module RotationTypes {
  import opened Esp
  import opened ConfigTypes
  import Commands = CommandLedger
  import opened CommitCommand

  /** The number of the command type in its own, retained enumeration. */
  const ROTATE_CREDENTIALS: nat := 14
  const EARLIEST_EXPIRY: int := 1704067200000
  const SECRET_SIZE: U8 := 32

  const NONE: nat := 0
  const CANDIDATE_PERSISTED: nat := 1
  const CONFIG_STAGED: nat := 2
  const COMMIT_INTENT: nat := 3
  const CONFIG_ACTIVATED: nat := 4
  const RESULT_DURABLE: nat := 5
  const RESULT_ACKNOWLEDGED: nat := 6

  /** SHA-256 is modelled as injective: the fingerprint of a secret is the secret. An empty secret is a zeroized one. */
  datatype Rotation = Rotation(
    generation: U32, phase: nat, rotationId: string, prepareId: string, commitId: string,
    fingerprint: seq<U8>, secret: seq<U8>, expires: int, candidateGeneration: U32, slot: U8)

  const NO_ROTATION := Rotation(0, NONE, "", "", "", [], [], 0, 0, 0)

  predicate HexDigit(c: char) { '0' <= c <= '9' || 'a' <= c <= 'f' }

  predicate CanonicalUuid(s: string) {
    |s| == Commands.ID_MAX &&
    forall i :: 0 <= i < |s| ==> if i == 8 || i == 13 || i == 18 || i == 23 then s[i] == '-' else HexDigit(s[i])
  }

  /** `rotation_record_valid`. */
  predicate RecordValid(r: Rotation) {
    && r.generation != 0 && CANDIDATE_PERSISTED <= r.phase <= RESULT_ACKNOWLEDGED
    && CanonicalUuid(r.rotationId) && CanonicalUuid(r.prepareId) && r.expires >= EARLIEST_EXPIRY &&
       r.candidateGeneration != 0
    && (if r.phase == CANDIDATE_PERSISTED then r.commitId == "" && r.slot == 0 && r.secret != []
        else IsSlot(r.slot) &&
             if r.phase == CONFIG_STAGED then r.commitId == "" && r.secret != []
             else CanonicalUuid(r.commitId) && r.secret == [])
  }

  /* ---- The two-key journal ---- */

  datatype Journal = Journal(a: Option<Rotation>, b: Option<Rotation>)

  const EMPTY_JOURNAL := Journal(None, None)

  function WithRecord(j: Journal, r: Rotation): Journal {
    if r.generation % 2 == 1 then j.(a := Some(r)) else j.(b := Some(r))
  }

  /** `rotation_state_load`, `NO_ROTATION` standing for not found. */
  function Loaded(j: Journal): Rotation {
    if j.a.Some? && (j.b.None? || j.a.value.generation >= j.b.value.generation) then j.a.value
    else if j.b.Some? then j.b.value
    else NO_ROTATION
  }

  predicate SameRotation(r: Rotation, s: Rotation) {
    r.rotationId == s.rotationId && r.prepareId == s.prepareId && r.fingerprint == s.fingerprint &&
    r.expires == s.expires && r.candidateGeneration == s.candidateGeneration
  }

  predicate RecordSound(r: Rotation) { RecordValid(r) && r.generation == r.phase &&
                                      (r.secret != [] ==> r.secret == r.fingerprint) }

  /** Every record's generation is its phase, and two records are of consecutive phases of the same rotation. */
  predicate JournalSound(j: Journal) {
    && (j.a.Some? ==> RecordSound(j.a.value) && j.a.value.generation % 2 == 1)
    && (j.b.Some? ==> RecordSound(j.b.value) && j.b.value.generation % 2 == 0)
    && (j.a.Some? && j.b.Some? ==>
          SameRotation(j.a.value, j.b.value) &&
          (j.a.value.generation == j.b.value.generation + 1 || j.b.value.generation == j.a.value.generation + 1))
  }

  /* ---- Everything durable ---- */

  /** `base` is not stored: it is the configuration that booted when no rotation was in progress last. */
  datatype Durable = Durable(journal: Journal, config: Nvs, ledger: Commands.Ledger, base: Config)

  function Record(d: Durable): Rotation { Loaded(d.journal) }

  function Phase(d: Durable): nat { Record(d).phase }

  function Booting(d: Durable): Option<Config> { Load(d.config) }

  /** What the rotation makes of the configuration it started from. */
  function Candidate(c: Config, r: Rotation): Config {
    c.(generation := r.candidateGeneration, secret := r.fingerprint, secretLength := SECRET_SIZE)
  }

  /** The journal depends on the commit command from the intent until its result is acknowledged. */
  function Watched(r: Rotation): Watch {
    if COMMIT_INTENT <= r.phase <= RESULT_DURABLE then Watching(r.commitId, ROTATE_CREDENTIALS) else Nobody
  }

  /**
   The promise at every instant, so also at the instant of a power cut. Up to CONFIG_STAGED the device boots the
   configuration it had; at COMMIT_INTENT it boots that one, with the candidate whole in the other slot, or already
   the candidate; from CONFIG_ACTIVATED on it boots the candidate, whose secret the fingerprint names.
   */
  predicate Safe(d: Durable) {
    var r := Record(d);
    && JournalSound(d.journal) && Keeps(d.ledger, Watched(r), r.phase == RESULT_DURABLE)
    && d.config.active.Some? && IsSlot(d.config.active.value)
    && Validate(d.base) == OK
    && (r.phase == NONE ==> Booting(d) == Some(d.base))
    && (r.phase != NONE ==> r.candidateGeneration == d.base.generation + 1)
    && (CANDIDATE_PERSISTED <= r.phase <= CONFIG_STAGED ==> Booting(d) == Some(d.base))
    && (r.phase == CONFIG_STAGED ==>
          d.config.active != Some(r.slot) &&
          (At(d.config, r.slot) == Missing || At(d.config, r.slot) == Stored(Candidate(d.base, r))))
    && (r.phase == COMMIT_INTENT ==>
          At(d.config, r.slot) == Stored(Candidate(d.base, r)) &&
          (d.config.active == Some(r.slot) || Booting(d) == Some(d.base)))
    && (r.phase >= CONFIG_ACTIVATED ==> d.config.active == Some(r.slot) && Booting(d) == Some(Candidate(d.base, r)))
  }

  /* ---- The steps of the protocol: single writes, under what the source checks before it makes them ---- */

  function Persisted(d: Durable, r: Rotation): Durable { d.(journal := WithRecord(d.journal, r)) }

  /** `pm_config_load_staged` and the check of the secret it holds. */
  function StagedError(n: Nvs, slot: U8, generation: U32, fingerprint: seq<U8>): EspErr {
    if !IsSlot(slot) || generation == 0 then INVALID_ARG
    else if ReadError(At(n, slot)) != OK then ReadError(At(n, slot))
    else if At(n, slot).c.generation != generation then INVALID_STATE
    else if At(n, slot).c.secretLength != SECRET_SIZE || At(n, slot).c.secret != fingerprint then INVALID_CRC
    else OK
  }

  /** Only a whole configuration of that generation with that secret passes. */
  lemma StagedExactly(n: Nvs, slot: U8, generation: U32, fingerprint: seq<U8>)
    ensures StagedError(n, slot, generation, fingerprint) == OK <==>
            && (slot == SLOT_A || slot == SLOT_B) && generation > 0
            && exists c ::
                 && (if slot == SLOT_A then n.a else n.b) == Stored(c) && Validate(c) == OK
                 && c.generation == generation && c.secretLength == 32 && c.secret == fingerprint
  {
    var blob := if slot == SLOT_A then n.a else n.b;
    if blob.Stored? { assert blob == Stored(blob.c); }
  }

  /** The operation that writes record `r` after the loaded one has seen this. */
  predicate Follows(d: Durable, r: Rotation) {
    var p := Record(d);
    && RecordValid(r) && r.generation == p.generation + 1 && r.phase == p.phase + 1
    && (if p.phase == NONE
        then r.secret == r.fingerprint && Booting(d).Some? && r.candidateGeneration == Booting(d).value.generation + 1
        else SameRotation(p, r))
    && (r.phase == CONFIG_STAGED ==>
          r.secret == p.secret && Booting(d).Some? && Some(r.slot) == Selectable(d.config) &&
          At(d.config, r.slot) == Stored(Candidate(Booting(d).value, r)))
    && (r.phase == COMMIT_INTENT ==>
          r.slot == p.slot && StagedError(d.config, r.slot, r.candidateGeneration, r.fingerprint) == OK &&
          HasUnfinished(d.ledger, Watched(r)))
    && (r.phase > COMMIT_INTENT ==> r.commitId == p.commitId && r.slot == p.slot)
    && (r.phase == CONFIG_ACTIVATED ==> d.config.active == Some(r.slot))
    && (r.phase == RESULT_DURABLE ==> HasSucceeded(d.ledger, Watched(r)))
  }

  /** The slot a configuration is staged into. */
  function Selectable(n: Nvs): Option<U8> { if n.active.Some? then Some(Other(n.active.value)) else None }

  function Inactive(d: Durable): U8
    requires d.config.active.Some?
  {
    Other(d.config.active.value)
  }

  function Filled(d: Durable, blob: Blob): Durable
    requires d.config.active.Some?
  {
    d.(config := With(d.config, Inactive(d), blob))
  }

  /**
   The inactive slot is written or erased outside COMMIT_INTENT to RESULT_DURABLE; at CONFIG_STAGED it is only
   erased.
   */
  predicate MayFill(d: Durable, blob: Blob) {
    d.config.active.Some? &&
    (Phase(d) <= CANDIDATE_PERSISTED || Phase(d) == RESULT_ACKNOWLEDGED ||
     (Phase(d) == CONFIG_STAGED && blob == Missing))
  }

  function Switched(d: Durable): Durable { d.(config := d.config.(active := Some(Record(d).slot))) }

  /** `pm_config_activate_staged`, from the only phase that calls it. */
  predicate MaySwitch(d: Durable) {
    var r := Record(d);
    r.phase == COMMIT_INTENT && StagedError(d.config, r.slot, r.candidateGeneration, r.fingerprint) == OK
  }

  function Rebased(d: Durable, c: Config): Durable
    requires d.config.active.Some?
  {
    d.(config := d.config.(active := Some(Inactive(d))), base := c)
  }

  /** Without a rotation a validated configuration in the inactive slot may be selected: it is the new base. */
  predicate MayRebase(d: Durable, c: Config) {
    d.config.active.Some? && Phase(d) == NONE && At(d.config, Inactive(d)) == Stored(c) && Validate(c) == OK
  }

  function Erased(d: Durable, j: Journal): Durable {
    d.(journal := j, base := if Loaded(j).phase == NONE && Phase(d) == RESULT_ACKNOWLEDGED
       then Candidate(d.base, Record(d)) else d.base)
  }

  predicate MayErase(d: Durable) { Phase(d) < COMMIT_INTENT || Phase(d) == RESULT_ACKNOWLEDGED }

  /** One write, or a boot or power cut between two. None of these guards mentions what is to be proved. */
  ghost predicate Step(d: Durable, d': Durable) {
    d' == d || JournalStep(d, d') || ConfigStep(d, d') ||
    (LedgerStep(d.ledger, Watched(Record(d)), d'.ledger) && d' == d.(ledger := d'.ledger))
  }

  ghost predicate JournalStep(d: Durable, d': Durable) {
    || (exists r :: Follows(d, r) && d' == Persisted(d, r))
    || (MayErase(d) && d' == Erased(d, d.journal.(a := None)))
    || (MayErase(d) && d.journal.a.None? && d' == Erased(d, d.journal.(b := None)))
  }

  ghost predicate ConfigStep(d: Durable, d': Durable) {
    || (exists blob :: MayFill(d, blob) && d' == Filled(d, blob))
    || (MaySwitch(d) && d' == Switched(d))
    || (exists c :: MayRebase(d, c) && d' == Rebased(d, c))
  }

  /* ---- Every step keeps the promise ---- */

  /** What one step does to the loaded record and to what boots. */
  predicate Edge(d: Durable, d': Durable) {
    var p, p' := Phase(d), Phase(d');
    && (p == NONE ==> p' == NONE || (p' == CANDIDATE_PERSISTED && d'.config == d.config && d'.base == d.base))
    && (p != NONE ==>
        d'.base == (if p' == NONE && p == RESULT_ACKNOWLEDGED then Candidate(d.base, Record(d)) else d.base))
    && (p != NONE && p' != NONE ==> SameRotation(Record(d), Record(d')) && (p' == p || p' == p + 1))
    && (p' == NONE ==> p < COMMIT_INTENT || p == RESULT_ACKNOWLEDGED)
    && (p >= COMMIT_INTENT && p' != NONE ==>
        Record(d').commitId == Record(d).commitId && Record(d').slot == Record(d).slot)
    && (p == p' == COMMIT_INTENT && d.config.active == Some(Record(d).slot) ==> d'.config.active == d.config.active)
  }

  /** The new record overwrites the one two phases back and becomes the loaded one. */
  lemma RecordFollows(j: Journal, r: Rotation)
    requires JournalSound(j) && RecordSound(r) && r.phase == Loaded(j).phase + 1
    requires Loaded(j).phase != NONE ==> SameRotation(Loaded(j), r)
    ensures JournalSound(WithRecord(j, r)) && Loaded(WithRecord(j, r)) == r
  {
  }

  /** What the operations saw in the ledger and in the staged slot is what the promise asks for. */
  lemma FollowsMeans(d: Durable, r: Rotation)
    requires Safe(d) && Follows(d, r)
    ensures RecordSound(r) && Keeps(d.ledger, Watched(r), r.phase == RESULT_DURABLE)
    ensures r.phase == COMMIT_INTENT ==> At(d.config, r.slot) == Stored(Candidate(d.base, r))
  {
    if r.phase == COMMIT_INTENT { UnfinishedIsHeld(d.ledger, Watched(r)); }
    if r.phase == RESULT_DURABLE { SucceededIsHeld(d.ledger, Watched(r)); }
  }

  lemma PersistIsSafe(d: Durable, r: Rotation)
    requires Safe(d) && Follows(d, r)
    ensures Safe(Persisted(d, r)) && Edge(d, Persisted(d, r)) && Record(Persisted(d, r)) == r
  {
    FollowsMeans(d, r);
    RecordFollows(d.journal, r);
  }

  lemma FillIsSafe(d: Durable, blob: Blob)
    requires Safe(d) && MayFill(d, blob)
    ensures Safe(Filled(d, blob)) && Edge(d, Filled(d, blob)) && Record(Filled(d, blob)) == Record(d)
  {
  }

  lemma SwitchIsSafe(d: Durable)
    requires Safe(d) && MaySwitch(d)
    ensures Safe(Switched(d)) && Edge(d, Switched(d)) && Booting(Switched(d)) == Some(Candidate(d.base, Record(d)))
  {
  }

  lemma RebaseIsSafe(d: Durable, c: Config)
    requires Safe(d) && MayRebase(d, c)
    ensures Safe(Rebased(d, c)) && Edge(d, Rebased(d, c))
  {
  }

  lemma LedgerIsSafe(d: Durable, l: Commands.Ledger)
    requires Safe(d) && LedgerStep(d.ledger, Watched(Record(d)), l)
    ensures Safe(d.(ledger := l)) && Edge(d, d.(ledger := l))
  {
    StepKeeps(d.ledger, Watched(Record(d)), Phase(d) == RESULT_DURABLE, l);
  }

  /** Erasure starts with the key of the odd generations: what is loaded then is what was loaded before, or nothing. */
  lemma EraseAIsSafe(d: Durable)
    requires Safe(d) && MayErase(d)
    ensures var d' := Erased(d, d.journal.(a := None));
            Safe(d') && Edge(d, d') && d'.journal.a.None? &&
            (Record(d') == Record(d) || (Record(d') == NO_ROTATION && d'.journal.b.None?))
  {
  }

  lemma EraseBIsSafe(d: Durable)
    requires Safe(d) && d.journal.a.None? && MayErase(d)
    ensures var d' := Erased(d, d.journal.(b := None)); Safe(d') && Edge(d, d') && d'.journal == EMPTY_JOURNAL
  {
    if Phase(d) == RESULT_ACKNOWLEDGED {
      assert Booting(d) == Some(Candidate(d.base, Record(d)));
      assert Validate(Candidate(d.base, Record(d))) == OK;
    }
  }

  lemma JournalStepIsSafe(d: Durable, d': Durable)
    requires Safe(d) && JournalStep(d, d')
    ensures Safe(d') && Edge(d, d')
  {
    if r :| Follows(d, r) && d' == Persisted(d, r) {
      PersistIsSafe(d, r);
    } else if MayErase(d) && d' == Erased(d, d.journal.(a := None)) {
      EraseAIsSafe(d);
    } else {
      EraseBIsSafe(d);
    }
  }

  lemma ConfigStepIsSafe(d: Durable, d': Durable)
    requires Safe(d) && ConfigStep(d, d')
    ensures Safe(d') && Edge(d, d')
  {
    if blob :| MayFill(d, blob) && d' == Filled(d, blob) {
      FillIsSafe(d, blob);
    } else if c :| MayRebase(d, c) && d' == Rebased(d, c) {
      RebaseIsSafe(d, c);
    } else {
      SwitchIsSafe(d);
    }
  }

  lemma StepIsSafe(d: Durable, d': Durable)
    requires Safe(d) && Step(d, d')
    ensures Safe(d') && Edge(d, d')
  {
    if d' == d {
    } else if JournalStep(d, d') {
      JournalStepIsSafe(d, d');
    } else if ConfigStep(d, d') {
      ConfigStepIsSafe(d, d');
    } else {
      LedgerIsSafe(d, d'.ledger);
    }
  }

  /**
   Exactly when a cut between the two erasures would bring an earlier phase back: with both records present and the
   loaded one of odd phase. The protocol only erases at phases 1, 2 and 6, where that is impossible.
   */
  lemma EraseFallsBack(j: Journal)
    requires JournalSound(j)
    ensures var j' := j.(a := None);
            (0 < Loaded(j').phase < Loaded(j).phase) <==> (j.b.Some? && Loaded(j).phase % 2 == 1)
    ensures JournalSound(j.(a := None)) && (j.b.Some? && Loaded(j).phase % 2 == 1 ==> Loaded(j).phase >= COMMIT_INTENT)
  {
  }

  /* ---- What follows for every run ---- */

  /** A provisioned device without a journal. */
  predicate Initial(d: Durable) {
    d.journal == EMPTY_JOURNAL && Booting(d) == Some(d.base) && Sane(d.ledger)
  }

  ghost predicate StepAt(trace: seq<Durable>, i: nat)
    requires i + 1 < |trace|
  {
    Step(trace[i], trace[i + 1])
  }

  /** What is durable after each write, from a device at rest on, through any number of boots and power cuts. */
  ghost predicate Run(trace: seq<Durable>) {
    |trace| > 0 && Initial(trace[0]) && forall i | 0 <= i < |trace| - 1 :: StepAt(trace, i)
  }

  lemma {:induction false} RunIsSafe(trace: seq<Durable>, j: nat)
    requires Run(trace) && j < |trace|
    ensures Safe(trace[j]) && (j > 0 ==> Edge(trace[j - 1], trace[j]))
    decreases j
  {
    if j > 0 {
      RunIsSafe(trace, j - 1);
      assert StepAt(trace, j - 1);
      StepIsSafe(trace[j - 1], trace[j]);
    }
  }

  /**
   What is loaded at any instant of any run is a whole record: it belongs to one rotation, names the commit command from
   the intent on, and holds the new secret only before.
   */
  lemma RecordsAreWhole(trace: seq<Durable>, j: nat)
    requires Run(trace) && j < |trace|
    ensures var r := Record(trace[j]);
            && r.phase <= 6 && (r.phase == 0 ==> r == NO_ROTATION)
            && (r.phase > 0 ==>
                  && r.generation == r.phase && r.candidateGeneration > 0 && r.expires >= 1704067200000
                  && CanonicalUuid(r.rotationId) && CanonicalUuid(r.prepareId)
                  && (if r.phase == 1 then r.slot == 0 else r.slot == SLOT_A || r.slot == SLOT_B)
                  && (if r.phase <= 2 then r.secret == r.fingerprint != [] && r.commitId == ""
                      else r.secret == [] && CanonicalUuid(r.commitId)))
  {
    RunIsSafe(trace, j);
  }

  predicate Hex(s: string) { forall i :: 0 <= i < |s| ==> HexDigit(s[i]) }

  /** The identifiers are five groups of lower-case hexadecimal digits. */
  lemma UuidIsFiveGroups(s: string, a: string, b: string, c: string, d: string, e: string)
    requires s == a + "-" + b + "-" + c + "-" + d + "-" + e
    requires |a| == 8 && |b| == |c| == |d| == 4 && |e| == 12
    ensures CanonicalUuid(s) <==> Hex(a) && Hex(b) && Hex(c) && Hex(d) && Hex(e)
  {
    assert a == s[..8] && b == s[9..13] && c == s[14..18] && d == s[19..23] && e == s[24..];
    if CanonicalUuid(s) {
      assert forall i :: 0 <= i < 4 ==> b[i] == s[9 + i] && c[i] == s[14 + i] && d[i] == s[19 + i];
      assert forall i :: 0 <= i < 12 ==> e[i] == s[24 + i];
    }
  }

  lemma UuidSplits(s: string)
    requires CanonicalUuid(s)
    ensures s == s[..8] + "-" + s[9..13] + "-" + s[14..18] + "-" + s[19..23] + "-" + s[24..] && |s[24..]| == 12
  {
  }

  /** No rotation ends between the two instants. */
  predicate Ongoing(trace: seq<Durable>, i: nat, j: nat)
    requires i <= j < |trace|
  {
    forall k :: i <= k <= j ==> Phase(trace[k]) != NONE
  }

  /** Within one rotation phases only grow and its identity stays. */
  lemma {:induction false} PhasesGrow(trace: seq<Durable>, i: nat, j: nat)
    requires Run(trace) && i <= j < |trace| && Ongoing(trace, i, j)
    ensures Phase(trace[i]) <= Phase(trace[j]) && SameRotation(Record(trace[i]), Record(trace[j])) &&
            trace[j].base == trace[i].base
    decreases j
  {
    if i < j {
      assert Ongoing(trace, i, j - 1);
      PhasesGrow(trace, i, j - 1);
      RunIsSafe(trace, j);
    }
  }

  /**
   Rotation safety over every run: from the last instant `s` before a rotation to any instant `j` of it, whatever
   power cuts happen, the configuration that boots is the one that booted at `s` up to CONFIG_STAGED, one of the two
   with the candidate intact at COMMIT_INTENT, and from CONFIG_ACTIVATED on the candidate, which is the configuration
   of `s` with the next generation and the secret of 32 bytes that the fingerprint names, and the same in all else.
   */
  lemma RotationSafety(trace: seq<Durable>, s: nat, j: nat)
    requires Run(trace) && s < j < |trace| && Phase(trace[s]) == NONE && Ongoing(trace, s + 1, j)
    ensures Booting(trace[s]).Some? && Booting(trace[j]).Some?
    ensures var boots, before, r := Booting(trace[j]).value, Booting(trace[s]).value, Record(trace[j]);
            && r.candidateGeneration == before.generation + 1
            && var candidate :=
                 before.(generation := r.candidateGeneration, secret := r.fingerprint, secretLength := 32);
            && (r.phase <= CONFIG_STAGED ==> boots == before)
            && (r.phase == COMMIT_INTENT ==> boots == before || boots == candidate)
            && (r.phase == COMMIT_INTENT ==> At(trace[j].config, r.slot) == Stored(candidate))
            && (r.phase >= CONFIG_ACTIVATED ==> boots == candidate)
  {
    RunIsSafe(trace, s);
    RunIsSafe(trace, s + 1);
    PhasesGrow(trace, s + 1, j);
    RunIsSafe(trace, j);
  }

  /**
   When the rotation that began after `s` has ended at `j`, the device boots the old configuration or the candidate.
   */
  lemma RotationEnds(trace: seq<Durable>, s: nat, j: nat)
    requires Run(trace) && s + 1 < j < |trace| && Phase(trace[s]) == NONE && Ongoing(trace, s + 1, j - 1) &&
             Phase(trace[j]) == NONE
    ensures Booting(trace[s]).Some? && Booting(trace[j]).Some?
    ensures var before, boots, r := Booting(trace[s]).value, Booting(trace[j]).value, Record(trace[j - 1]);
            && r.candidateGeneration == before.generation + 1
            && boots == if r.phase == RESULT_ACKNOWLEDGED
                        then before.(generation := r.candidateGeneration, secret := r.fingerprint, secretLength := 32)
                        else before
    ensures Phase(trace[j - 1]) < COMMIT_INTENT || Phase(trace[j - 1]) == RESULT_ACKNOWLEDGED
  {
    RotationSafety(trace, s, j - 1);
    RunIsSafe(trace, s);
    RunIsSafe(trace, s + 1);
    PhasesGrow(trace, s + 1, j - 1);
    RunIsSafe(trace, j);
  }

  /**
   Once the commit intent is durable nothing undoes it: later phases only follow, the journal can only end through
   RESULT_ACKNOWLEDGED, the new secret once it boots keeps booting, and the commit command stays in the ledger
   until its result is acknowledged, with its success durable from RESULT_DURABLE on.
   */
  lemma {:induction false} CommitIsIrreversible(trace: seq<Durable>, i: nat, j: nat)
    requires Run(trace) && i <= j < |trace| && Phase(trace[i]) >= COMMIT_INTENT
    requires forall k :: i <= k < j ==> Phase(trace[k]) != RESULT_ACKNOWLEDGED
    ensures Phase(trace[j]) >= Phase(trace[i]) && Record(trace[j]).commitId == Record(trace[i]).commitId
    ensures SameRotation(Record(trace[i]), Record(trace[j])) && trace[j].base == trace[i].base
    ensures trace[i].config.active == Some(Record(trace[i]).slot) ==> Booting(trace[j]) == Booting(trace[i]) != None
    ensures Phase(trace[j]) <= RESULT_DURABLE ==>
              Held(trace[j].ledger, Watching(Record(trace[i]).commitId, ROTATE_CREDENTIALS),
                   Phase(trace[j]) == RESULT_DURABLE)
    ensures Record(trace[j]).slot == Record(trace[i]).slot
    ensures trace[i].config.active == Some(Record(trace[i]).slot) ==> trace[j].config.active == trace[i].config.active
    decreases j
  {
    RunIsSafe(trace, j);
    RunIsSafe(trace, i);
    if i < j {
      RunIsSafe(trace, j - 1);
      CommitIsIrreversible(trace, i, j - 1);
    }
  }

  ghost predicate Reaches(trace: seq<Durable>, d: Durable) { Run(trace) && trace[|trace| - 1] == d }

  lemma ReachedIsSafe(trace: seq<Durable>, d: Durable)
    requires Reaches(trace, d)
    ensures Safe(d)
  {
    RunIsSafe(trace, |trace| - 1);
  }

  lemma Extends(trace: seq<Durable>, d: Durable, d': Durable)
    requires Reaches(trace, d) && Step(d, d')
    ensures Reaches(trace + [d'], d') && Safe(d')
  {
    ReachedIsSafe(trace, d);
    StepIsSafe(d, d');
    forall i | 0 <= i < |trace| ensures StepAt(trace + [d'], i) {
      assert i < |trace| - 1 ==> StepAt(trace, i);
    }
  }

  lemma PersistExtends(trace: seq<Durable>, d: Durable, r: Rotation)
    requires Reaches(trace, d) && Follows(d, r)
    ensures Reaches(trace + [Persisted(d, r)], Persisted(d, r)) && Safe(Persisted(d, r)) && Record(Persisted(d, r)) == r
  {
    ReachedIsSafe(trace, d);
    PersistIsSafe(d, r);
    assert JournalStep(d, Persisted(d, r));
    Extends(trace, d, Persisted(d, r));
  }

  lemma EraseAExtends(trace: seq<Durable>, d: Durable)
    requires Reaches(trace, d) && MayErase(d)
    ensures var d' := Erased(d, d.journal.(a := None)); Reaches(trace + [d'], d') && Safe(d')
  {
    assert JournalStep(d, Erased(d, d.journal.(a := None)));
    Extends(trace, d, Erased(d, d.journal.(a := None)));
  }

  lemma EraseBExtends(trace: seq<Durable>, d: Durable)
    requires Reaches(trace, d) && MayErase(d) && d.journal.a.None?
    ensures var d' := Erased(d, d.journal.(b := None)); Reaches(trace + [d'], d') && Safe(d')
  {
    assert JournalStep(d, Erased(d, d.journal.(b := None)));
    Extends(trace, d, Erased(d, d.journal.(b := None)));
  }

  lemma FillExtends(trace: seq<Durable>, d: Durable, blob: Blob)
    requires Reaches(trace, d) && MayFill(d, blob)
    ensures Reaches(trace + [Filled(d, blob)], Filled(d, blob)) && Safe(Filled(d, blob))
  {
    assert ConfigStep(d, Filled(d, blob));
    Extends(trace, d, Filled(d, blob));
  }

  lemma SwitchExtends(trace: seq<Durable>, d: Durable)
    requires Reaches(trace, d) && MaySwitch(d)
    ensures Reaches(trace + [Switched(d)], Switched(d)) && Safe(Switched(d))
    ensures Booting(Switched(d)) == Some(Candidate(d.base, Record(d)))
  {
    ReachedIsSafe(trace, d);
    SwitchIsSafe(d);
    assert ConfigStep(d, Switched(d));
    Extends(trace, d, Switched(d));
  }

  lemma RebaseExtends(trace: seq<Durable>, d: Durable, c: Config)
    requires Reaches(trace, d) && MayRebase(d, c)
    ensures Reaches(trace + [Rebased(d, c)], Rebased(d, c)) && Safe(Rebased(d, c))
  {
    assert ConfigStep(d, Rebased(d, c));
    Extends(trace, d, Rebased(d, c));
  }

  lemma LedgerExtends(trace: seq<Durable>, d: Durable, l: Commands.Ledger)
    requires Reaches(trace, d) && LedgerStep(d.ledger, Watched(Record(d)), l)
    ensures Reaches(trace + [d.(ledger := l)], d.(ledger := l)) && Safe(d.(ledger := l))
  {
    Extends(trace, d, d.(ledger := l));
  }
}
