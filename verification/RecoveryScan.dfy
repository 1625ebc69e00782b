/**
 The resynchronising segment scanner (components/pm_storage/pm_storage.c:394-493). The scan itself only
 asks which offsets hold a decodable record of this device, so it is written over that question;
 `RecordAt` answers it from the bytes of a file.
 */
module RecoveryScan {
  import opened Esp
  import opened Words
  import JournalCodec
  import opened ReadBatch

  const HEADER: nat := 96
  const SIZE: nat := 128

  datatype Health = Health(oldest: U64, newest: U64, unavailableFirst: U64, unavailableLast: U64, corrupt: U32)

  /** An accepted record, where it was found, and the sequence number expected there. */
  datatype Hit<T> = Hit(offset: nat, expected: U64, record: Record<T>)

  function After(q: U64): U64 { if q == U64_MAX then U64_MAX else q + 1 }

  /** The sequence number expected next. */
  function Expected<T>(first: U64, hits: seq<Hit<T>>): U64 {
    if hits == [] then first else After(hits[|hits| - 1].record.sequence)
  }

  predicate Holds<T>(hits: seq<Hit<T>>, n: U64) {
    exists i :: 0 <= i < |hits| && hits[i].record.sequence == n
  }

  /** Every hit decodes where it was found, lies behind the previous one, and is not older than expected there. */
  ghost predicate Trail<T>(at: nat -> Option<Record<T>>, first: U64, hits: seq<Hit<T>>) {
    && (forall i :: 0 <= i < |hits| ==>
          at(hits[i].offset) == Some(hits[i].record) && hits[i].record.sequence >= hits[i].expected)
    && (|hits| > 0 ==> hits[0].expected == first)
    && (forall i, j :: 0 <= i < j < |hits| && j == i + 1 ==> hits[j].expected == After(hits[i].record.sequence))
    && (forall i, j :: 0 <= i < j < |hits| ==> hits[i].offset + SIZE <= hits[j].offset)
  }

  /**
   The reasons for which a decodable offset may not be a hit: it lies inside a hit, or its sequence number
   is older than what was expected at the point of the scan that passed over it.
   */
  ghost predicate Accounted<T>(first: U64, hits: seq<Hit<T>>, offset: nat, record: Record<T>) {
    || (exists i :: 0 <= i < |hits| && Inside(hits[i], offset))
    || (exists j :: 0 <= j <= |hits| && PassedOver(first, hits, offset, record, j))
  }

  predicate Inside<T>(hit: Hit<T>, offset: nat) { hit.offset <= offset < hit.offset + SIZE }

  predicate PassedOver<T>(first: U64, hits: seq<Hit<T>>, offset: nat, record: Record<T>, j: nat)
    requires j <= |hits|
  {
    record.sequence < (if j < |hits| then hits[j].expected else Expected(first, hits)) &&
    (forall i :: 0 <= i < j ==> hits[i].offset + SIZE <= offset) &&
    (forall i :: j <= i < |hits| ==> offset < hits[i].offset)
  }

  ghost predicate Explained<T>(at: nat -> Option<Record<T>>, first: U64, hits: seq<Hit<T>>, upTo: nat) {
    forall o: nat :: HEADER <= o < upTo && at(o).Some? ==> Accounted(first, hits, o, at(o).value)
  }

  /** Zero marks an empty reported range. */
  predicate RangeValid(h: Health) { h.unavailableFirst == 0 ==> h.unavailableLast == 0 }

  /** Every number below the next expected one was accepted or lies in the reported range. */
  predicate Covered<T>(first: U64, hits: seq<Hit<T>>, h: Health) {
    RangeValid(h) &&
    forall n: U64 :: first <= n < Expected(first, hits) ==>
      Holds(hits, n) || h.unavailableFirst <= n <= h.unavailableLast
  }

  /** `report_unavailable_range`: the reported range is a single hull. */
  function Report(h: Health, first: U64, last: U64): Health {
    if first == 0 || last < first then h
    else h.(unavailableFirst := if h.unavailableFirst == 0 || first < h.unavailableFirst then first
            else h.unavailableFirst,
            unavailableLast := if last > h.unavailableLast then last else h.unavailableLast)
  }

  function Seen(h: Health, q: U64): Health {
    h.(oldest := if h.oldest == 0 || q < h.oldest then q else h.oldest, newest := if q > h.newest then q else h.newest)
  }

  /**
   What the report says of the records themselves: its oldest and newest numbers are the extremes of those accepted and
   of those reported before, and damage is counted only where there was some.
   */
  predicate Spans<T>(before: Health, hits: seq<Hit<T>>, h: Health) {
    && (forall i :: 0 <= i < |hits| ==> h.oldest <= hits[i].record.sequence <= h.newest)
    && (h.newest == before.newest || Holds(hits, h.newest)) && before.newest <= h.newest
    && (h.oldest == before.oldest || Holds(hits, h.oldest)) && (before.oldest != 0 ==> h.oldest <= before.oldest)
    && (hits != [] ==> h.oldest != 0)
  }

  /** The number was expected at some point of the scan. */
  ghost predicate WasExpected<T>(first: U64, hits: seq<Hit<T>>, n: U64) {
    exists i :: 0 <= i <= |hits| && n == Expected(first, hits[..i])
  }

  ghost predicate JustBelow<T>(at: nat -> Option<Record<T>>, n: U64) {
    exists o: nat :: at(o).Some? && n + 1 == at(o).value.sequence
  }

  /**
   Nothing is reported missing without reason: the reported range begins where a number was expected, and ends at one
   that was, or just below a record that was found, unless it did so before.
   */
  ghost predicate Grounded<T>(at: nat -> Option<Record<T>>, first: U64, hits: seq<Hit<T>>, before: Health, h: Health) {
    && (h.unavailableFirst == before.unavailableFirst || WasExpected(first, hits, h.unavailableFirst))
    && (h.unavailableLast == before.unavailableLast || WasExpected(first, hits, h.unavailableLast) ||
        JustBelow(at, h.unavailableLast))
  }

  ghost predicate Tells<T>(at: nat -> Option<Record<T>>, before: Option<Health>, first: U64, hits: seq<Hit<T>>,
                           h: Option<Health>, corrupt: bool) {
    before.Some? && h.Some? && first >= 1 ==>
      && Spans(before.value, hits, h.value) && Grounded(at, first, hits, before.value, h.value)
      && (!corrupt ==> h.value.corrupt == before.value.corrupt)
  }

  lemma ExpectedStays<T>(first: U64, hits: seq<Hit<T>>, hit: Hit<T>, n: U64)
    requires WasExpected(first, hits, n)
    ensures WasExpected(first, hits + [hit], n)
  {
    var i :| 0 <= i <= |hits| && n == Expected(first, hits[..i]);
    assert (hits + [hit])[..i] == hits[..i];
  }

  /** A range from the number expected now to the one below a record, or to the expected one itself. */
  lemma ReportIsGrounded<T>(at: nat -> Option<Record<T>>, first: U64, hits: seq<Hit<T>>, before: Health, h: Health,
                            last: U64)
    requires Grounded(at, first, hits, before, h) && (last == Expected(first, hits) || JustBelow(at, last))
    ensures Grounded(at, first, hits, before, Report(h, Expected(first, hits), last))
  {
    assert hits[..|hits|] == hits;
    assert WasExpected(first, hits, Expected(first, hits));
  }

  lemma GroundStays<T>(at: nat -> Option<Record<T>>, first: U64, hits: seq<Hit<T>>, before: Health, h: Health,
                       hit: Hit<T>)
    requires Grounded(at, first, hits, before, h)
    ensures Grounded(at, first, hits + [hit], before, h)
  {
    forall n: U64 | WasExpected(first, hits, n) ensures WasExpected(first, hits + [hit], n) {
      ExpectedStays(first, hits, hit, n);
    }
  }

  lemma HitSpans<T>(before: Health, hits: seq<Hit<T>>, h: Health, hit: Hit<T>)
    requires Spans(before, hits, h) && hit.record.sequence >= 1
    ensures Spans(before, hits + [hit], Seen(h, hit.record.sequence))
  {
    var all, h' := hits + [hit], Seen(h, hit.record.sequence);
    assert all[|hits|] == hit;
    forall q: U64 | Holds(hits, q) ensures Holds(all, q) {
      var i :| 0 <= i < |hits| && hits[i].record.sequence == q;
      assert all[i].record.sequence == q;
    }
  }

  function Records<T>(hits: seq<Hit<T>>): (r: seq<Record<T>>)
    ensures |r| == |hits|
  {
    seq(|hits|, i requires 0 <= i < |hits| => hits[i].record)
  }

  /* ---- What the invariants mean ---- */

  /** Accepted sequence numbers strictly increase, up to repetitions of the largest 64-bit number. */
  lemma {:induction false} HitsIncrease<T>(at: nat -> Option<Record<T>>, first: U64, hits: seq<Hit<T>>, i: nat, j: nat)
    requires Trail(at, first, hits) && i < j < |hits|
    ensures hits[i].record.sequence < hits[j].record.sequence ||
            hits[i].record.sequence == hits[j].record.sequence == U64_MAX
    ensures After(hits[i].record.sequence) <= hits[j].expected
    decreases j
  {
    assert hits[j].expected == After(hits[j - 1].record.sequence);
    if i < j - 1 {
      HitsIncrease(at, first, hits, i, j - 1);
    }
  }

  /** Strictly increasing exactly when at most one record carries the largest number. */
  lemma IncreaseExactly<T>(at: nat -> Option<Record<T>>, first: U64, hits: seq<Hit<T>>)
    requires Trail(at, first, hits)
    ensures (forall i, j :: 0 <= i < j < |hits| ==> hits[i].record.sequence < hits[j].record.sequence) <==>
            (forall i, j :: 0 <= i < j < |hits| ==>
             hits[i].record.sequence != U64_MAX || hits[j].record.sequence != U64_MAX)
  {
    forall i, j | 0 <= i < j < |hits|
      ensures hits[i].record.sequence < hits[j].record.sequence ||
              hits[i].record.sequence == hits[j].record.sequence == U64_MAX
    {
      HitsIncrease(at, first, hits, i, j);
    }
  }

  const LARGEST: Record<bool> := Record(U64_MAX, true)

  function TwoLargest(offset: nat): Option<Record<bool>> { if offset == HEADER || offset == HEADER + SIZE
                                                          then Some(LARGEST) else None }

  /** A segment with the largest number in both of its records is scanned without complaint, and accepts both. */
  lemma LargestRepeats()
    ensures var hits := [Hit(HEADER, U64_MAX, LARGEST), Hit(HEADER + SIZE, U64_MAX, LARGEST)];
            Result(TwoLargest, U64_MAX, hits, HEADER + 2 * SIZE, None, false)
  {
    var hits := [Hit(HEADER, U64_MAX, LARGEST), Hit(HEADER + SIZE, U64_MAX, LARGEST)];
    forall o: nat | HEADER <= o < HEADER + 2 * SIZE &&
      TwoLargest(o).Some? ensures Accounted(U64_MAX, hits, o, LARGEST) {
      assert Inside(hits[if o == HEADER then 0 else 1], o);
    }
  }

  lemma ExpectedIsPast<T>(at: nat -> Option<Record<T>>, first: U64, hits: seq<Hit<T>>, j: nat)
    requires Trail(at, first, hits) && j < |hits|
    ensures hits[j].expected == first || (j > 0 && hits[j].expected == After(hits[j - 1].record.sequence))
  {
    if j > 0 { assert hits[j].expected == After(hits[j - 1].record.sequence); }
  }

  /**
   A record the scan did not accept, although it decodes and is newer than all accepted ones, lies inside one of
   those.
   */
  lemma NothingFreshIsLost<T>(at: nat -> Option<Record<T>>, first: U64, hits: seq<Hit<T>>, upTo: nat, offset: nat)
    requires Trail(at, first, hits) && Explained(at, first, hits, upTo)
    requires HEADER <= offset < upTo && at(offset).Some?
    requires forall i :: 0 <= i < |hits| ==> hits[i].record.sequence < at(offset).value.sequence
    requires first <= at(offset).value.sequence
    ensures exists i :: 0 <= i < |hits| && Inside(hits[i], offset)
  {
    var record := at(offset).value;
    assert Accounted(first, hits, offset, record);
    forall j | 0 <= j <= |hits| ensures !PassedOver(first, hits, offset, record, j) {
      if j < |hits| {
        ExpectedIsPast(at, first, hits, j);
      }
    }
  }

  /* ---- Steps of the scan ---- */

  lemma HitExtendsTrail<T>(at: nat -> Option<Record<T>>, first: U64, hits: seq<Hit<T>>, hit: Hit<T>)
    requires Trail(at, first, hits) && at(hit.offset) == Some(hit.record)
    requires hit.record.sequence >= hit.expected == Expected(first, hits)
    requires Before(hits, hit.offset)
    ensures Trail(at, first, hits + [hit])
  {
  }

  lemma AccountedLater<T>(first: U64, hits: seq<Hit<T>>, hit: Hit<T>, o: nat, record: Record<T>)
    requires Accounted(first, hits, o, record) && o < hit.offset && hit.expected == Expected(first, hits)
    ensures Accounted(first, hits + [hit], o, record)
  {
    var all := hits + [hit];
    if i :| 0 <= i < |hits| && Inside(hits[i], o) {
      assert Inside(all[i], o);
    } else {
      var j :| 0 <= j <= |hits| && PassedOver(first, hits, o, record, j);
      assert PassedOver(first, all, o, record, j);
    }
  }

  lemma HitExplains<T>(at: nat -> Option<Record<T>>, first: U64, hits: seq<Hit<T>>, hit: Hit<T>)
    requires Explained(at, first, hits, hit.offset) && hit.expected == Expected(first, hits)
    ensures Explained(at, first, hits + [hit], hit.offset + SIZE)
  {
    var all := hits + [hit];
    forall o: nat | HEADER <= o < hit.offset + SIZE && at(o).Some? ensures Accounted(first, all, o, at(o).value) {
      if o < hit.offset {
        AccountedLater(first, hits, hit, o, at(o).value);
      } else {
        assert Inside(all[|hits|], o);
      }
    }
  }

  lemma SkipExplains<T>(at: nat -> Option<Record<T>>, first: U64, hits: seq<Hit<T>>, offset: nat, next: nat)
    requires Explained(at, first, hits, offset) && offset < next
    requires Before(hits, offset)
    requires at(offset).None? || at(offset).value.sequence < Expected(first, hits)
    requires forall o :: offset < o < next ==> at(o).None?
    ensures Explained(at, first, hits, next)
  {
    if at(offset).Some? {
      assert PassedOver(first, hits, offset, at(offset).value, |hits|);
    }
  }

  lemma HitCovers<T>(first: U64, hits: seq<Hit<T>>, h: Health, hit: Hit<T>)
    requires first >= 1 && Covered(first, hits, h) && hit.record.sequence >= Expected(first, hits)
    ensures var q, e := hit.record.sequence, Expected(first, hits);
            Covered(first, hits + [hit], Seen(if q > e then Report(h, e, q - 1) else h, q))
  {
    var all := hits + [hit];
    var q, e := hit.record.sequence, Expected(first, hits);
    var h' := if q > e then Report(h, e, q - 1) else h;
    forall n: U64 | first <= n < Expected(first, all)
      ensures Holds(all, n) || h'.unavailableFirst <= n <= h'.unavailableLast
    {
      if n == q {
        assert all[|hits|].record.sequence == n;
      } else if n < e && Holds(hits, n) {
        var i :| 0 <= i < |hits| && hits[i].record.sequence == n;
        assert all[i].record.sequence == n;
      }
    }
  }

  lemma WiderStillCovers<T>(first: U64, hits: seq<Hit<T>>, h: Health, from: U64, to: U64)
    requires first >= 1 && Covered(first, hits, h)
    ensures Covered(first, hits, Report(h, from, to))
  {
  }

  /* ---- The source's loops ---- */

  /** `next_valid_record`: the first decodable offset from `start` on. */
  method NextValid<T>(at: nat -> Option<Record<T>>, start: nat, end: nat) returns (found: Option<nat>)
    requires forall o: nat :: at(o).Some? ==> o + SIZE <= end
    ensures found.Some? ==>
              start <= found.value && at(found.value).Some? && forall o :: start <= o < found.value ==> at(o).None?
    ensures found.None? ==> forall o :: start <= o ==> at(o).None?
  {
    var offset := start;
    while offset + SIZE <= end
      invariant start <= offset && forall o :: start <= o < offset ==> at(o).None?
    {
      if at(offset).Some? { return Some(offset); }
      offset := offset + 1;
    }
    found := None;
  }

  /** What holds at every point of the scan. */
  ghost predicate Scanned<T>(at: nat -> Option<Record<T>>, first: U64, hits: seq<Hit<T>>, offset: nat,
                             health: Option<Health>, corrupt: bool)
  {
    && HEADER <= offset && Trail(at, first, hits) && Explained(at, first, hits, offset)
    && Before(hits, offset) && Reported(first, hits, health) && (corrupt || Contiguous(hits, offset))
  }

  /** What a whole scan establishes; an undamaged one saw nothing but records. */
  ghost predicate Result<T>(at: nat -> Option<Record<T>>, first: U64, hits: seq<Hit<T>>, end: nat,
                            health: Option<Health>, corrupt: bool)
  {
    Trail(at, first, hits) && Explained(at, first, hits, end) && Reported(first, hits, health) &&
    (corrupt || Contiguous(hits, end))
  }

  predicate Before<T>(hits: seq<Hit<T>>, offset: nat) {
    forall i :: 0 <= i < |hits| ==> hits[i].offset + SIZE <= offset
  }

  predicate Reported<T>(first: U64, hits: seq<Hit<T>>, health: Option<Health>) {
    health.Some? && first >= 1 ==> Covered(first, hits, health.value)
  }

  /** Nothing but records between the header and `offset`. */
  predicate Contiguous<T>(hits: seq<Hit<T>>, offset: nat) {
    offset == 96 + 128 * |hits| && forall i :: 0 <= i < |hits| ==> hits[i].offset == 96 + 128 * i
  }

  lemma HitIsBefore<T>(hits: seq<Hit<T>>, hit: Hit<T>)
    requires Before(hits, hit.offset)
    ensures Before(hits + [hit], hit.offset + SIZE)
    ensures Contiguous(hits, hit.offset) ==> Contiguous(hits + [hit], hit.offset + SIZE)
  {
  }

  lemma HitIsReported<T>(first: U64, hits: seq<Hit<T>>, health: Option<Health>, hit: Hit<T>)
    requires Reported(first, hits, health) && hit.record.sequence >= hit.expected == Expected(first, hits)
    ensures Reported(first, hits + [hit], Told(health, hit.expected, hit.record.sequence))
  {
    if health.Some? && first >= 1 {
      HitCovers(first, hits, health.value, hit);
    }
  }

  lemma TakeKeepsScanned<T>(at: nat -> Option<Record<T>>, first: U64, hits: seq<Hit<T>>, hit: Hit<T>,
                            health: Option<Health>, corrupt: bool)
    requires Scanned(at, first, hits, hit.offset, health, corrupt)
    requires at(hit.offset) == Some(hit.record) && hit.record.sequence >= hit.expected == Expected(first, hits)
    ensures Scanned(at, first, hits + [hit], hit.offset + SIZE, Told(health, hit.expected, hit.record.sequence),
                    corrupt)
  {
    HitExtendsTrail(at, first, hits, hit);
    HitExplains(at, first, hits, hit);
    HitIsBefore(hits, hit);
    HitIsReported(first, hits, health, hit);
  }

  function Told(health: Option<Health>, expected: U64, q: U64): Option<Health> {
    match health
    case None => None
    case Some(h) => Some(Seen(if q > expected then Report(h, expected, q - 1) else h, q))
  }

  lemma SkipKeepsScanned<T>(at: nat -> Option<Record<T>>, first: U64, hits: seq<Hit<T>>, offset: nat,
                            health: Option<Health>, corrupt: bool, next: nat, told: Option<Health>)
    requires Scanned(at, first, hits, offset, health, corrupt) && offset < next
    requires at(offset).None? || at(offset).value.sequence < Expected(first, hits)
    requires forall o :: offset < o < next ==> at(o).None?
    requires Reported(first, hits, told)
    ensures Scanned(at, first, hits, next, told, true)
  {
    SkipExplains(at, first, hits, offset, next);
  }

  function Damaged(h: Health): Health {
    h.(corrupt := if h.corrupt == U32_MAX then 0 else h.corrupt + 1)
  }

  /** The damage branch: count it, resynchronise, report the hull; `None` when nothing decodable is left. */
  method Resynchronise<T>(at: nat -> Option<Record<T>>, end: nat, first: U64, ghost hits: seq<Hit<T>>, offset: nat,
                          expected: U64, before: Option<Health>, ghost corrupt: bool)
    returns (next: Option<nat>, health: Option<Health>)
    requires forall o: nat :: at(o).Some? ==> o + SIZE <= end
    requires Scanned(at, first, hits, offset, before, corrupt) && offset + SIZE <= end
    requires expected == Expected(first, hits) && (at(offset).None? || at(offset).value.sequence < expected)
    ensures health.Some? == before.Some?
    ensures next.Some? ==> at(next.value).Some?
    ensures before.Some? ==>
              var q := if next.Some? then at(next.value).value.sequence else 0;
              && (next.None? ==> health.value == Damaged(before.value))
              && (next.Some? ==> health.value == Report(Damaged(before.value), expected,
                                                        if q > expected then q - 1 else expected))
    ensures before.Some? ==>
              health.value.oldest == before.value.oldest && health.value.newest == before.value.newest &&
              health.value.corrupt == if before.value.corrupt == U32_MAX then 0 else before.value.corrupt + 1
    ensures next.Some? ==> offset < next.value <= end && Scanned(at, first, hits, next.value, health, true)
    ensures next.None? ==> Scanned(at, first, hits, end, health, true)
  {
    health := before;
    if health.Some? {
      health := Some(Damaged(health.value));
    }
    next := NextValid(at, offset + 1, end);
    if next.None? {
      SkipKeepsScanned(at, first, hits, offset, before, corrupt, end, health);
      return;
    }
    if health.Some? {
      var q := at(next.value).value.sequence;
      var last := if q > expected then q - 1 else expected;
      if first >= 1 {
        WiderStillCovers(first, hits, health.value, expected, last);
      }
      health := Some(Report(health.value, expected, last));
    }
    SkipKeepsScanned(at, first, hits, offset, before, corrupt, next.value, health);
  }

  lemma TakeTells<T>(at: nat -> Option<Record<T>>, first: U64, hits: seq<Hit<T>>, hit: Hit<T>, was: Option<Health>,
                     before: Option<Health>, corrupt: bool)
    requires hit.record.sequence >= hit.expected == Expected(first, hits)
    requires Tells(at, was, first, hits, before, corrupt)
    requires Trail(at, first, hits) && at(hit.offset) == Some(hit.record)
    ensures Tells(at, was, first, hits + [hit], Told(before, hit.expected, hit.record.sequence), corrupt)
  {
    if was.Some? && before.Some? && first >= 1 {
      var h, q, e := before.value, hit.record.sequence, hit.expected;
      if hits != [] { assert q >= 1; }
      if q > e {
        assert at(hit.offset).value.sequence == q - 1 + 1;
        ReportIsGrounded(at, first, hits, was.value, h, q - 1);
      }
      var h' := if q > e then Report(h, e, q - 1) else h;
      GroundStays(at, first, hits, was.value, h', hit);
      HitSpans(was.value, hits, h', hit);
    }
  }

  lemma DamageTells<T>(at: nat -> Option<Record<T>>, was: Option<Health>, first: U64, hits: seq<Hit<T>>,
                       now: Option<Health>, h: Option<Health>, corrupt: bool)
    requires Tells(at, was, first, hits, now, corrupt) && (h.Some? ==> now.Some?)
    requires h.Some? ==> h.value.oldest == now.value.oldest && h.value.newest == now.value.newest
    requires was.Some? && h.Some? && first >= 1 ==> Grounded(at, first, hits, was.value, h.value)
    ensures Tells(at, was, first, hits, h, true)
  {
  }

  method Offer<T>(batch: Batch?<T>, record: Record<T>)
    requires batch != null ==> batch.Valid()
    modifies if batch == null then {} else {batch, batch.records}
    ensures batch != null ==> batch.Valid() && batch.offers == old(batch.offers) + [record]
  {
    if batch != null {
      batch.InsertSorted(record);
    }
  }

  /** A record that is not older than expected is reported and offered. */
  method Take<T>(ghost at: nat -> Option<Record<T>>, ghost first: U64, ghost hits: seq<Hit<T>>, hit: Hit<T>,
                 batch: Batch?<T>,
                 before: Option<Health>, ghost corrupt: bool, ghost was: Option<Health>,
                 ghost earlier: seq<Record<T>>)
    returns (health: Option<Health>, ghost taken: seq<Hit<T>>)
    requires Scanned(at, first, hits, hit.offset, before, corrupt) && at(hit.offset) == Some(hit.record)
    requires hit.record.sequence >= hit.expected == Expected(first, hits)
    requires Tells(at, was, first, hits, before, corrupt)
    requires batch != null ==> batch.Valid() && batch.offers == earlier + Records(hits)
    modifies if batch == null then {} else {batch, batch.records}
    ensures taken == hits + [hit]
    ensures Scanned(at, first, taken, hit.offset + SIZE, health, corrupt) && health.Some? == before.Some?
    ensures Tells(at, was, first, taken, health, corrupt)
    ensures batch != null ==> batch.Valid() && batch.offers == earlier + Records(taken)
  {
    TakeKeepsScanned(at, first, hits, hit, before, corrupt);
    RecordsSnoc(hits, hit);
    TakeTells(at, first, hits, hit, was, before, corrupt);
    health, taken := Told(before, hit.expected, hit.record.sequence), hits + [hit];
    Offer(batch, hit.record);
  }

  lemma ExpectedAfter<T>(first: U64, hits: seq<Hit<T>>, hit: Hit<T>)
    ensures Expected(first, hits + [hit]) == After(hit.record.sequence)
  {
  }

  /** One round of the record loop; `next` is `None` when nothing decodable is left. */
  method ScanOne<T>(at: nat -> Option<Record<T>>, end: nat, first: U64, ghost hits: seq<Hit<T>>, offset: nat,
                    expected: U64, batch: Batch?<T>, now: Option<Health>, corrupt: bool, ghost was: Option<Health>,
                    ghost earlier: seq<Record<T>>)
    returns (next: Option<nat>, expects: U64, health: Option<Health>, damaged: bool, ghost taken: seq<Hit<T>>)
    requires forall o: nat :: at(o).Some? ==> o + SIZE <= end
    requires Scanned(at, first, hits, offset, now, corrupt) && offset + SIZE <= end
    requires expected == Expected(first, hits) && Tells(at, was, first, hits, now, corrupt)
    requires batch != null ==> batch.Valid() && batch.offers == earlier + Records(hits)
    modifies if batch == null then {} else {batch, batch.records}
    ensures health.Some? == now.Some? && expects == Expected(first, taken)
    ensures Tells(at, was, first, taken, health, damaged)
    ensures corrupt ==> damaged
    ensures next.Some? ==> offset < next.value <= end && Scanned(at, first, taken, next.value, health, damaged)
    ensures next.None? ==> Scanned(at, first, taken, end, health, damaged) && damaged
    ensures batch != null ==> batch.Valid() && batch.offers == earlier + Records(taken)
  {
    var found := at(offset);
    if found.None? || found.value.sequence < expected {
      next, health := Resynchronise(at, end, first, hits, offset, expected, now, corrupt);
      if was.Some? && now.Some? && first >= 1 {
        assert Grounded(at, first, hits, was.value, Damaged(now.value));
        if next.Some? {
          var q := at(next.value).value.sequence;
          ReportIsGrounded(at, first, hits, was.value, Damaged(now.value), if q > expected then q - 1 else expected);
        }
      }
      DamageTells(at, was, first, hits, now, health, corrupt);
      expects, damaged, taken := expected, true, hits;
    } else {
      var hit := Hit(offset, expected, found.value);
      health, taken := Take(at, first, hits, hit, batch, now, corrupt, was, earlier);
      ExpectedAfter(first, hits, hit);
      next, expects, damaged := Some(offset + SIZE), After(found.value.sequence), corrupt;
    }
  }

  /** The record loop of `scan_segment`. */
  method ScanRecords<T>(at: nat -> Option<Record<T>>, end: nat, first: U64, batch: Batch?<T>, before: Option<Health>)
    returns (err: EspErr, health: Option<Health>, corrupt: bool, ghost hits: seq<Hit<T>>)
    requires HEADER <= end && forall o: nat :: at(o).Some? ==> o + SIZE <= end
    requires before.Some? ==> RangeValid(before.value)
    requires batch != null ==> batch.Valid()
    modifies if batch == null then {} else {batch, batch.records}
    ensures Result(at, first, hits, end, health, corrupt) && health.Some? == before.Some?
    ensures Tells(at, before, first, hits, health, corrupt)
    ensures !corrupt ==> err == OK
    ensures batch != null ==> batch.Valid() && batch.offers == old(batch.offers) + Records(hits)
  {
    var offset, expected := HEADER, first;
    ghost var earlier := if batch == null then [] else batch.offers;
    health, corrupt, hits := before, false, [];
    while offset + SIZE <= end
      invariant offset <= end && expected == Expected(first, hits)
      invariant Scanned(at, first, hits, offset, health, corrupt) && health.Some? == before.Some?
      invariant Tells(at, before, first, hits, health, corrupt)
      invariant batch != null ==> batch.Valid() && batch.offers == earlier + Records(hits)
      decreases end - offset
    {
      var next;
      next, expected, health, corrupt, hits :=
        ScanOne(at, end, first, hits, offset, expected, batch, health, corrupt, before, earlier);
      if next.None? { return INVALID_CRC, health, corrupt, hits; }
      offset := next.value;
    }
    TailExplains(at, first, hits, offset, end);
    if offset != end { return INVALID_SIZE, health, true, hits; }
    err := OK;
  }

  lemma RecordsSnoc<T>(hits: seq<Hit<T>>, hit: Hit<T>)
    ensures Records(hits + [hit]) == Records(hits) + [hit.record]
  {
  }

  lemma TailExplains<T>(at: nat -> Option<Record<T>>, first: U64, hits: seq<Hit<T>>, offset: nat, end: nat)
    requires Explained(at, first, hits, offset) && offset + SIZE > end
    requires forall o: nat :: at(o).Some? ==> o + SIZE <= end
    ensures Explained(at, first, hits, end)
  {
  }

  /* ---- Over the bytes of a file ---- */

  type Content = JournalCodec.Record

  function RecordAt(file: Bytes, device: JournalCodec.Id, offset: nat): Option<Record<Content>> {
    if offset + SIZE > |file| then None
    else
      match JournalCodec.Decode(file[offset..offset + SIZE])
      case Some(r) => if r.device == device then Some(Record(r.sequence, r)) else None
      case None => None
  }

  function Decoder(file: Bytes, device: JournalCodec.Id): nat -> Option<Record<Content>> {
    (offset: nat) => RecordAt(file, device, offset)
  }

  /** The four magic bytes that `next_valid_record` looks for first cost it no record. */
  lemma MagicComesFirst(b: Bytes)
    requires JournalCodec.Decode(b).Some?
    ensures b[0..4] == [0x44, 0x52, 0x4D, 0x50]
  {
    JournalCodec.DecodedMagic(b);
    MagicBytes();
  }

  lemma MagicBytes()
    ensures JournalCodec.P32(JournalCodec.RECORD_MAGIC) == [0x44, 0x52, 0x4D, 0x50]
  {
    var v: int := 0x504D_5244;
    assert v % 256 == 0x44 && v / 256 % 256 == 0x52 && v / 256 / 256 % 256 == 0x4D && v / 256 / 256 / 256 == 0x50;
    assert Put(v, 4) == [v % 256] + Put(v / 256, 3);
    assert Put(v / 256, 3) == [v / 256 % 256] + Put(v / 256 / 256, 2);
    assert Put(v / 256 / 256, 2) == [v / 256 / 256 % 256] + Put(v / 256 / 256 / 256, 1);
  }

  lemma DecoderBounded(file: Bytes, device: JournalCodec.Id)
    ensures forall o: nat :: Decoder(file, device)(o).Some? ==> o + SIZE <= |file|
  {
  }

  /** Terminates on every byte content. */
  method ScanFile(file: Bytes, device: JournalCodec.Id, card: JournalCodec.Id, batch: Batch?<Content>,
                  before: Option<Health>)
    returns (err: EspErr, health: Option<Health>, corrupt: bool, ghost hits: seq<Hit<Content>>)
    requires before.Some? ==> RangeValid(before.value)
    requires batch != null ==> batch.Valid()
    modifies if batch == null then {} else {batch, batch.records}
    ensures batch != null ==> batch.Valid() && batch.offers == old(batch.offers) + Records(hits)
    ensures ScannedFile(HeaderOf(file), Decoder(file, device), |file|, device, card, hits, before, health, corrupt)
    ensures !corrupt ==> err == OK
  {
    DecoderBounded(file, device);
    err, health, corrupt, hits :=
      ScanSegment(HeaderOf(file), Decoder(file, device), |file|, device, card, batch, before);
  }

  function HeaderOf(file: Bytes): Option<JournalCodec.SegmentHeader> {
    if |file| < HEADER then None else JournalCodec.DecodeHeader(file[..HEADER])
  }

  /** A foreign or damaged header rejects the whole segment; otherwise its records are scanned. */
  ghost predicate ScannedFile(header: Option<JournalCodec.SegmentHeader>, at: nat -> Option<Record<Content>>, end: nat,
                              device: JournalCodec.Id, card: JournalCodec.Id, hits: seq<Hit<Content>>,
                              before: Option<Health>, health: Option<Health>, corrupt: bool)
  {
    if header.Some? && header.value.device == device && header.value.card == card
    then Result(at, header.value.first, hits, end, health, corrupt) &&
         Tells(at, before, header.value.first, hits, health, corrupt)
    else corrupt && hits == [] && health == before
  }

  method ScanSegment(header: Option<JournalCodec.SegmentHeader>, at: nat -> Option<Record<Content>>, end: nat,
                     device: JournalCodec.Id, card: JournalCodec.Id, batch: Batch?<Content>, before: Option<Health>)
    returns (err: EspErr, health: Option<Health>, corrupt: bool, ghost hits: seq<Hit<Content>>)
    requires (header.Some? ==> HEADER <= end) && forall o: nat :: at(o).Some? ==> o + SIZE <= end
    requires before.Some? ==> RangeValid(before.value)
    requires batch != null ==> batch.Valid()
    modifies if batch == null then {} else {batch, batch.records}
    ensures batch != null ==> batch.Valid() && batch.offers == old(batch.offers) + Records(hits)
    ensures ScannedFile(header, at, end, device, card, hits, before, health, corrupt)
    ensures !corrupt ==> err == OK
    ensures header.None? || header.value.device != device || header.value.card != card ==> err == INVALID_CRC
  {
    health, hits := before, [];
    if header.None? || header.value.device != device || header.value.card != card {
      return INVALID_CRC, health, true, hits;
    }
    err, health, corrupt, hits := ScanRecords(at, end, header.value.first, batch, before);
  }
}
