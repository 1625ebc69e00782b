/**
 The ledger entry of a commit command that a journal depends on (main/app_main.c, components/pm_commands): it is
 never evicted, because unfinished and pinned entries are not recycled.
 */
module CommitCommand {
  import opened Esp
  import opened CommandLedger

  /** Which command a journal depends on. */
  datatype Watch = Nobody | Watching(id: string, kind: nat)

  predicate Is(c: Command, w: Watch) { w.Watching? && c.id == w.id && c.kind == w.kind }

  predicate Unfinished(c: Command) { c.state.Running? || c.state.Accepted? }

  /** The command is unfinished, or finished and pinned until its result is acknowledged; once `done`, the latter. */
  predicate Pinned(c: Command, w: Watch, done: bool) {
    Is(c, w) && ((c.state.Succeeded? && c.ackRequired) || (!done && Unfinished(c)))
  }

  predicate Held(l: Ledger, w: Watch, done: bool) { exists i :: 0 <= i < |l.entries| && Pinned(l.entries[i], w, done) }

  predicate HasUnfinished(l: Ledger, w: Watch) {
    exists i :: 0 <= i < |l.entries| && Is(l.entries[i], w) && Unfinished(l.entries[i])
  }

  predicate HasSucceeded(l: Ledger, w: Watch) {
    exists i :: 0 <= i < |l.entries| && Is(l.entries[i], w) && l.entries[i].state.Succeeded?
  }

  /* ---- Writes ---- */

  /** The watched command is only left as it is, set running while unfinished, or finished as successful and pinned. */
  predicate StaysHeld(was: Command, c: Command) {
    || (c.state == was.state && c.ackRequired == was.ackRequired)
    || (!Final(was.state) && c.state.Running?)
    || (c.state.Succeeded? && c.ackRequired)
  }

  /** Any entry may change as it likes without changing its identity, except the watched one. */
  predicate EntryStep(l: Ledger, w: Watch, i: nat, c: Command) {
    && LedgerValid(l) && i < SIZE && l.generation < U32_MAX
    && var was := l.entries[i];
       && was.id != "" && CommandValid(c) && c.id == was.id && c.key == was.key && c.kind == was.kind
       && (Is(was, w) ==> StaysHeld(was, c))
  }

  /** A new command is admitted, as `Store.Accept` does it. */
  predicate AcceptStep(l: Ledger, incoming: Incoming, now: int, i: nat, l': Ledger) {
    && LedgerValid(l) && WellFormed(incoming) && AcceptedInto(l, incoming, now, i, l')
    && forall j :: 0 <= j < SIZE ==> !Matches(l.entries[j], incoming)
  }

  ghost predicate LedgerStep(l: Ledger, w: Watch, l': Ledger) {
    || (exists i, c :: EntryStep(l, w, i, c) && l' == Bumped(Changed(l, i, c)))
    || (exists incoming, now, i :: AcceptStep(l, incoming, now, i, l'))
  }

  predicate Sane(l: Ledger) { LedgerValid(l) && Distinct(l.entries) }

  /** What must be true of the watched command. */
  predicate Keeps(l: Ledger, w: Watch, done: bool) { Sane(l) && (w.Watching? ==> Held(l, w, done)) }

  /** Changing one entry never loses the watched command. */
  lemma ChangeKeeps(l: Ledger, w: Watch, done: bool, i: nat, c: Command)
    requires Keeps(l, w, done) && EntryStep(l, w, i, c)
    ensures Keeps(Bumped(Changed(l, i, c)), w, done)
  {
    var l' := Bumped(Changed(l, i, c));
    ChangedIsSound(l, i, c);
    if w.Watching? {
      var j :| 0 <= j < |l.entries| && Pinned(l.entries[j], w, done);
      assert Pinned(l'.entries[j], w, done);
    }
  }

  /** Admission only takes a recyclable entry, which the watched one never is. */
  lemma AcceptKeeps(l: Ledger, w: Watch, done: bool, incoming: Incoming, now: int, i: nat, l': Ledger)
    requires Keeps(l, w, done) && AcceptStep(l, incoming, now, i, l')
    ensures Keeps(l', w, done)
  {
    PlacedIsSound(l, i, incoming, now);
    if w.Watching? {
      var j :| 0 <= j < |l.entries| && Pinned(l.entries[j], w, done);
      var k :| 0 <= k < SIZE && IsNextRecyclable(l, k) && i == Cyclic(l.next, k);
      assert RecyclableAt(l, k);
      assert j != i;
      assert Pinned(l'.entries[j], w, done);
    }
  }

  lemma StepKeeps(l: Ledger, w: Watch, done: bool, l': Ledger)
    requires Keeps(l, w, done) && LedgerStep(l, w, l')
    ensures Keeps(l', w, done)
  {
    if i, c :| EntryStep(l, w, i, c) && l' == Bumped(Changed(l, i, c)) {
      ChangeKeeps(l, w, done, i, c);
    } else {
      var incoming, now, i :| AcceptStep(l, incoming, now, i, l');
      AcceptKeeps(l, w, done, incoming, now, i, l');
    }
  }

  lemma UnfinishedIsHeld(l: Ledger, w: Watch)
    requires HasUnfinished(l, w)
    ensures Held(l, w, false)
  {
    var i :| 0 <= i < |l.entries| && Is(l.entries[i], w) && Unfinished(l.entries[i]);
    assert Pinned(l.entries[i], w, false);
  }

  /** A held command that is found finished is pinned. */
  lemma SucceededIsHeld(l: Ledger, w: Watch)
    requires Distinct(l.entries) && w.Watching? && w.id != "" && Held(l, w, false) && HasSucceeded(l, w)
    ensures Held(l, w, true)
  {
    var i :| 0 <= i < |l.entries| && Is(l.entries[i], w) && l.entries[i].state.Succeeded?;
    var j :| 0 <= j < |l.entries| && Pinned(l.entries[j], w, false);
    assert i == j;
    assert Pinned(l.entries[i], w, true);
  }
}
