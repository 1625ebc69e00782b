/** The bounded, sorted batch that a journal read fills (components/pm_storage/pm_storage.c:353-379). */
module ReadBatch {
  import opened Esp

  const BATCH_MAX: nat := 16

  /** A journal record as the batch sees it. */
  datatype Record<T> = Record(sequence: U64, content: T)

  predicate Sorted<T>(s: seq<Record<T>>) {
    forall i, j :: 0 <= i < j < |s| ==> s[i].sequence < s[j].sequence
  }

  /** The sequence numbers above the cursor among the records offered so far. */
  ghost function Offered<T>(offers: seq<Record<T>>, cursor: U64): set<U64> {
    set r | r in offers && r.sequence > cursor :: r.sequence
  }

  predicate Contains<T>(s: seq<Record<T>>, q: U64) {
    exists i :: 0 <= i < |s| && s[i].sequence == q
  }

  ghost predicate FirstOffered<T>(offers: seq<Record<T>>, r: Record<T>) {
    exists k :: 0 <= k < |offers| && offers[k] == r && forall i :: 0 <= i < k ==> offers[i].sequence != r.sequence
  }

  /**
   What a batch must hold after the given offers: in order, the smallest distinct sequence numbers above
   the cursor, at most sixteen of them, each with the first record offered for it.
   */
  ghost predicate IsBatchOf<T>(s: seq<Record<T>>, more: bool, offers: seq<Record<T>>, cursor: U64) {
    && Sorted(s) && |s| <= 16
    && (forall i :: 0 <= i < |s| ==> s[i].sequence > cursor && FirstOffered(offers, s[i]))
    && (forall q :: q in Offered(offers, cursor) && !Contains(s, q) ==>
          |s| == 16 && forall i :: 0 <= i < |s| ==> s[i].sequence < q)
    && (more <==> exists q :: q in Offered(offers, cursor) && !Contains(s, q))
  }

  /** Where a sequence number belongs: behind everything smaller. */
  predicate IsPosition<T>(s: seq<Record<T>>, q: U64, p: nat) {
    p <= |s| && (forall i :: 0 <= i < p ==> s[i].sequence < q) && (p < |s| ==> q <= s[p].sequence)
  }

  function Trimmed<T>(s: seq<Record<T>>): seq<Record<T>> {
    if |s| <= BATCH_MAX then s else s[..BATCH_MAX]
  }

  /** Offering a record in one line each: at or below the cursor, already there, or inserted and cut to size. */
  ghost predicate Inserted<T>(s: seq<Record<T>>, more: bool, cursor: U64, r: Record<T>, s': seq<Record<T>>,
                              more': bool) {
    if r.sequence <= cursor || Contains(s, r.sequence) then s' == s && more' == more
    else
      exists p: nat :: IsPosition(s, r.sequence, p) &&
        s' == Trimmed(s[..p] + [r] + s[p..]) && more' == (more || |s| == BATCH_MAX)
  }

  lemma FirstOfferedLater<T>(offers: seq<Record<T>>, r: Record<T>, x: Record<T>)
    requires FirstOffered(offers, x)
    ensures FirstOffered(offers + [r], x)
  {
    var k :| 0 <= k < |offers| && offers[k] == x && forall i :: 0 <= i < k ==> offers[i].sequence != x.sequence;
    assert (offers + [r])[k] == x;
  }

  lemma OfferedGrows<T>(offers: seq<Record<T>>, r: Record<T>, cursor: U64)
    ensures Offered(offers + [r], cursor) ==
            Offered(offers, cursor) + (if r.sequence > cursor then {r.sequence} else {})
  {
    forall q | q in Offered(offers, cursor) ensures q in Offered(offers + [r], cursor) {
      var x :| x in offers && x.sequence > cursor && x.sequence == q;
      assert x in offers + [r];
    }
    if r.sequence > cursor {
      assert r in offers + [r];
    }
  }

  lemma NewlyOffered<T>(offers: seq<Record<T>>, r: Record<T>, cursor: U64)
    requires r.sequence > cursor && r.sequence !in Offered(offers, cursor)
    ensures FirstOffered(offers + [r], r)
  {
    var all := offers + [r];
    forall i | 0 <= i < |offers| ensures all[i].sequence != r.sequence {
      assert all[i] == offers[i] && offers[i] in offers;
    }
    assert all[|offers|] == r;
  }

  /** The record is new, or the batch is full and it belongs behind it. */
  lemma KeptOutStaysOut<T>(s: seq<Record<T>>, more: bool, offers: seq<Record<T>>, cursor: U64, r: Record<T>, p: nat)
    requires IsBatchOf(s, more, offers, cursor) && r.sequence > cursor && !Contains(s, r.sequence)
    requires IsPosition(s, r.sequence, p)
    ensures FirstOffered(offers + [r], r) || (|s| == BATCH_MAX && p == |s|)
  {
    if r.sequence !in Offered(offers, cursor) {
      NewlyOffered(offers, r, cursor);
    }
  }

  lemma MembersAfterInsert<T>(s: seq<Record<T>>, more: bool, offers: seq<Record<T>>, cursor: U64, r: Record<T>, p: nat,
                              i: nat)
    requires IsBatchOf(s, more, offers, cursor) && r.sequence > cursor && !Contains(s, r.sequence)
    requires IsPosition(s, r.sequence, p) && i < |Trimmed(s[..p] + [r] + s[p..])|
    ensures (s[..p] + [r] + s[p..])[i].sequence > cursor && FirstOffered(offers + [r], (s[..p] + [r] + s[p..])[i])
  {
    if i == p {
      KeptOutStaysOut(s, more, offers, cursor, r, p);
    } else {
      FirstOfferedLater(offers, r, s[if i < p then i else i - 1]);
    }
  }

  lemma SortedAfterInsert<T>(s: seq<Record<T>>, r: Record<T>, p: nat)
    requires Sorted(s) && !Contains(s, r.sequence) && IsPosition(s, r.sequence, p)
    ensures Sorted(s[..p] + [r] + s[p..])
  {
    var whole := s[..p] + [r] + s[p..];
    assert forall i :: p <= i < |s| ==> r.sequence < s[i].sequence;
    assert forall i :: 0 <= i < |whole| ==> whole[i] == if i < p then s[i] else if i == p then r else s[i - 1];
  }

  /** When the batch was full, what falls off its end is above everything left in it. */
  lemma ExcludedAfterInsert<T>(s: seq<Record<T>>, more: bool, offers: seq<Record<T>>, cursor: U64, r: Record<T>, p: nat,
                               q: U64)
    requires IsBatchOf(s, more, offers, cursor) && r.sequence > cursor && !Contains(s, r.sequence)
    requires IsPosition(s, r.sequence, p) && q in Offered(offers + [r], cursor)
    requires !Contains(Trimmed(s[..p] + [r] + s[p..]), q)
    ensures |s| == BATCH_MAX
    ensures forall i :: 0 <= i < BATCH_MAX ==> (s[..p] + [r] + s[p..])[i].sequence < q
  {
    var whole := s[..p] + [r] + s[p..];
    OfferedGrows(offers, r, cursor);
    WholeContains(s, r, p);
    SortedAfterInsert(s, r, p);
    if Contains(whole, q) {
      LastFallsOff(whole, q);
    } else {
      AboveTheOld(s, r, p, q);
    }
  }

  lemma LastFallsOff<T>(whole: seq<Record<T>>, q: U64)
    requires Sorted(whole) && |whole| <= BATCH_MAX + 1 && Contains(whole, q) && !Contains(Trimmed(whole), q)
    ensures |whole| == BATCH_MAX + 1 && whole[BATCH_MAX].sequence == q
  {
    var i :| 0 <= i < |whole| && whole[i].sequence == q;
    assert forall j :: 0 <= j < |Trimmed(whole)| ==> Trimmed(whole)[j].sequence == whole[j].sequence;
  }

  lemma AboveTheOld<T>(s: seq<Record<T>>, r: Record<T>, p: nat, q: U64)
    requires IsPosition(s, r.sequence, p) && !Contains(s, r.sequence) && Sorted(s) && |s| == BATCH_MAX
    requires forall i :: 0 <= i < |s| ==> s[i].sequence < q
    ensures forall i :: 0 <= i < BATCH_MAX ==> (s[..p] + [r] + s[p..])[i].sequence < q
  {
    var whole := s[..p] + [r] + s[p..];
    assert forall i :: 0 <= i < |whole| ==> whole[i] == if i < p then s[i] else if i == p then r else s[i - 1];
    assert p < |s| ==> r.sequence < q by { assert p < |s| ==> r.sequence <= s[p].sequence; }
  }

  lemma OverflowAfterInsert<T>(s: seq<Record<T>>, more: bool, offers: seq<Record<T>>, cursor: U64, r: Record<T>, p: nat)
    requires IsBatchOf(s, more, offers, cursor) && r.sequence > cursor && !Contains(s, r.sequence)
    requires IsPosition(s, r.sequence, p) && |s| == BATCH_MAX
    ensures exists q :: q in Offered(offers + [r], cursor) && !Contains(Trimmed(s[..p] + [r] + s[p..]), q)
  {
    var whole := s[..p] + [r] + s[p..];
    var out := whole[BATCH_MAX];
    SortedAfterInsert(s, r, p);
    OfferedGrows(offers, r, cursor);
    assert !Contains(Trimmed(whole), out.sequence);
    if p < |s| {
      assert out == s[|s| - 1];
      var k :| 0 <= k < |offers| && offers[k] == out;
      assert offers[k] in offers;
    }
    assert out.sequence in Offered(offers + [r], cursor);
  }

  lemma InsertKeepsBatch<T>(s: seq<Record<T>>, more: bool, offers: seq<Record<T>>, cursor: U64, r: Record<T>, p: nat)
    requires IsBatchOf(s, more, offers, cursor) && r.sequence > cursor && !Contains(s, r.sequence)
    requires IsPosition(s, r.sequence, p)
    ensures IsBatchOf(Trimmed(s[..p] + [r] + s[p..]), more || |s| == BATCH_MAX, offers + [r], cursor)
  {
    var whole := s[..p] + [r] + s[p..];
    var s' := Trimmed(whole);
    SortedAfterInsert(s, r, p);
    forall i | 0 <= i < |s'| ensures s'[i].sequence > cursor && FirstOffered(offers + [r], s'[i]) {
      MembersAfterInsert(s, more, offers, cursor, r, p, i);
    }
    forall q | q in Offered(offers + [r], cursor) && !Contains(s', q)
      ensures |s'| == BATCH_MAX == |s| && forall i :: 0 <= i < |s'| ==> s'[i].sequence < q
    {
      ExcludedAfterInsert(s, more, offers, cursor, r, p, q);
    }
    if |s| == BATCH_MAX {
      OverflowAfterInsert(s, more, offers, cursor, r, p);
    }
  }

  lemma WholeContains<T>(s: seq<Record<T>>, r: Record<T>, p: nat)
    requires p <= |s|
    ensures forall x :: Contains(s[..p] + [r] + s[p..], x) <==> Contains(s, x) || x == r.sequence
  {
    var whole := s[..p] + [r] + s[p..];
    forall x | Contains(s, x) ensures Contains(whole, x) {
      var i :| 0 <= i < |s| && s[i].sequence == x;
      assert whole[if i < p then i else i + 1].sequence == x;
    }
    assert whole[p] == r;
    forall x | Contains(whole, x) ensures Contains(s, x) || x == r.sequence {
      var i :| 0 <= i < |whole| && whole[i].sequence == x;
      if i != p {
        assert s[if i < p then i else i - 1].sequence == x;
      }
    }
  }

  lemma OfferKeepsBatch<T>(s: seq<Record<T>>, more: bool, offers: seq<Record<T>>, cursor: U64, r: Record<T>,
                        s': seq<Record<T>>, more': bool)
    requires IsBatchOf(s, more, offers, cursor) && Inserted(s, more, cursor, r, s', more')
    ensures IsBatchOf(s', more', offers + [r], cursor)
  {
    OfferedGrows(offers, r, cursor);
    if r.sequence <= cursor || Contains(s, r.sequence) {
      forall i | 0 <= i < |s| ensures FirstOffered(offers + [r], s[i]) {
        FirstOfferedLater(offers, r, s[i]);
      }
    } else {
      var p: nat :| IsPosition(s, r.sequence, p) && s' == Trimmed(s[..p] + [r] + s[p..]);
      InsertKeepsBatch(s, more, offers, cursor, r, p);
    }
  }

  /**
   Batch refinement, for any offers in any order with repeats: exactly min(16, n) of the n distinct
   sequence numbers above the cursor are held, and `more` says exactly whether n exceeds sixteen.
   */
  lemma BatchCounts<T>(s: seq<Record<T>>, more: bool, offers: seq<Record<T>>, cursor: U64)
    requires IsBatchOf(s, more, offers, cursor)
    ensures |s| == if |Offered(offers, cursor)| <= BATCH_MAX then |Offered(offers, cursor)| else BATCH_MAX
    ensures more <==> |Offered(offers, cursor)| > BATCH_MAX
  {
    var all, held := Offered(offers, cursor), Held(s);
    HeldSize(s);
    HeldIsOffered(s, more, offers, cursor);
    SubsetSizes(held, all);
    if !more {
      assert held == all by {
        forall q | q in all ensures q in held {
          assert Contains(s, q);
        }
      }
    } else {
      var q :| q in all && !Contains(s, q);
      assert q !in held;
    }
  }

  lemma SubsetSizes<T>(a: set<T>, b: set<T>)
    requires a <= b
    ensures |a| <= |b| && (|a| == |b| <==> a == b)
  {
    assert |b - a| + |a| == |b| by { assert (b - a) + a == b; }
    if |a| == |b| { assert b - a == {}; }
  }

  function Held<T>(s: seq<Record<T>>): set<U64> { set i | 0 <= i < |s| :: s[i].sequence }

  lemma {:induction false} HeldSize<T>(s: seq<Record<T>>)
    requires Sorted(s)
    ensures |Held(s)| == |s|
  {
    if s != [] {
      var front, last := s[..|s| - 1], s[|s| - 1];
      HeldSize(front);
      assert Held(s) == Held(front) + {last.sequence};
      assert last.sequence !in Held(front);
    }
  }

  lemma {:induction false} SortedUnique<T>(s: seq<Record<T>>, t: seq<Record<T>>)
    requires Sorted(s) && Sorted(t) && Held(s) == Held(t)
    ensures |s| == |t| && forall i :: 0 <= i < |s| ==> s[i].sequence == t[i].sequence
  {
    HeldSize(s);
    HeldSize(t);
    if s != [] {
      var n := |s| - 1;
      assert s[n].sequence in Held(t) && t[n].sequence in Held(s);
      assert s[n].sequence == t[n].sequence;
      assert Held(s[..n]) == Held(s) - {s[n].sequence};
      assert Held(t[..n]) == Held(t) - {t[n].sequence};
      SortedUnique(s[..n], t[..n]);
    }
  }

  /** The order and repetition of the offers does not matter. */
  lemma BatchIsUnique<T>(s: seq<Record<T>>, m: bool, offers: seq<Record<T>>, t: seq<Record<T>>, n: bool,
                         offers': seq<Record<T>>, cursor: U64)
    requires IsBatchOf(s, m, offers, cursor) && IsBatchOf(t, n, offers', cursor)
    requires Offered(offers, cursor) == Offered(offers', cursor)
    ensures m == n && |s| == |t| && forall i :: 0 <= i < |s| ==> s[i].sequence == t[i].sequence
  {
    BatchCounts(s, m, offers, cursor);
    BatchCounts(t, n, offers', cursor);
    HeldSize(s);
    HeldSize(t);
    SubsetOfOther(s, m, offers, t, n, offers', cursor);
    SubsetOfOther(t, n, offers', s, m, offers, cursor);
    SortedUnique(s, t);
  }

  lemma SubsetOfOther<T>(s: seq<Record<T>>, m: bool, offers: seq<Record<T>>, t: seq<Record<T>>, n: bool,
                         offers': seq<Record<T>>, cursor: U64)
    requires IsBatchOf(s, m, offers, cursor) && IsBatchOf(t, n, offers', cursor)
    requires Offered(offers, cursor) == Offered(offers', cursor) && |Held(s)| == |Held(t)|
    ensures Held(s) <= Held(t)
  {
    HeldIsOffered(s, m, offers, cursor);
    HeldIsOffered(t, n, offers', cursor);
    forall q, x | q in Held(s) && x in Held(t) ensures q in Held(t) || x in Held(s) {
      HeldOrLarger(t, n, offers', cursor, q, x);
      HeldOrLarger(s, m, offers, cursor, x, q);
    }
    if Held(t) <= Held(s) {
      SubsetSizes(Held(t), Held(s));
    }
  }

  /** What was offered and is not held is larger than what is held. */
  lemma HeldOrLarger<T>(s: seq<Record<T>>, more: bool, offers: seq<Record<T>>, cursor: U64, q: U64, x: U64)
    requires IsBatchOf(s, more, offers, cursor) && q in Offered(offers, cursor) && x in Held(s)
    ensures q in Held(s) || x < q
  {
    if !Contains(s, q) {
      var i :| 0 <= i < |s| && s[i].sequence == x;
      assert s[i].sequence < q;
    }
  }

  lemma HeldIsOffered<T>(s: seq<Record<T>>, more: bool, offers: seq<Record<T>>, cursor: U64)
    requires IsBatchOf(s, more, offers, cursor)
    ensures Held(s) <= Offered(offers, cursor)
  {
    forall q | q in Held(s) ensures q in Offered(offers, cursor) {
      var i :| 0 <= i < |s| && s[i].sequence == q;
      var k :| 0 <= k < |offers| && offers[k] == s[i];
      assert offers[k] in offers;
    }
  }

  class Batch<T> {
    const records: array<Record<T>>
    var count: nat
    const cursor: U64
    var more: bool
    ghost var offers: seq<Record<T>>

    ghost predicate Valid()
      reads this, records
    {
      records.Length == BATCH_MAX && count <= BATCH_MAX && IsBatchOf(records[..count], more, offers, cursor)
    }

    constructor (cursor: U64, blank: Record<T>)
      ensures Valid() && this.cursor == cursor && offers == [] && count == 0 && !more && fresh(records)
    {
      this.cursor := cursor;
      records := new Record<T>[BATCH_MAX](_ => blank);
      count, more, offers := 0, false, [];
    }

    method InsertSorted(record: Record<T>)
      requires Valid()
      modifies this`count, this`more, this`offers, records
      ensures Valid() && offers == old(offers) + [record]
      ensures Inserted(old(records[..count]), old(more), cursor, record, records[..count], more)
    {
      Place(record);
      OfferKeepsBatch(old(records[..count]), old(more), offers, cursor, record, records[..count], more);
      offers := offers + [record];
    }

    method Place(record: Record<T>)
      requires records.Length == BATCH_MAX && count <= BATCH_MAX && Sorted(records[..count])
      modifies this`count, this`more, records
      ensures count <= BATCH_MAX
      ensures Inserted(old(records[..count]), old(more), cursor, record, records[..count], more)
    {
      if record.sequence <= cursor { return; }
      ghost var before := records[..count];
      var position := Search(record.sequence);
      if position < count && records[position].sequence == record.sequence {
        assert before[position].sequence == record.sequence;
        return;
      }
      NotHeld(before, record.sequence, position);
      if count == BATCH_MAX && position == count {
        more := true;
        assert Trimmed(before[..position] + [record] + before[position..]) == before;
        return;
      }
      PutAt(position, record);
    }

    method Search(sequence: U64) returns (position: nat)
      requires count <= records.Length
      ensures IsPosition(records[..count], sequence, position)
    {
      position := 0;
      while position < count && records[position].sequence < sequence
        invariant position <= count && forall i :: 0 <= i < position ==> records[..count][i].sequence < sequence
      {
        position := position + 1;
      }
    }

    method PutAt(position: nat, record: Record<T>)
      requires records.Length == BATCH_MAX && position <= count <= BATCH_MAX && position < BATCH_MAX
      modifies this`count, this`more, records
      ensures count <= BATCH_MAX && more == (old(more) || old(count) == BATCH_MAX)
      ensures var s := old(records[..count]);
              records[..count] == Trimmed(s[..position] + [record] + s[position..])
    {
      var last := if count < BATCH_MAX then count else BATCH_MAX - 1;
      ShiftRight(position, last);
      records[position] := record;
      assert records[..last + 1] == records[..position] + [record] + records[position + 1..last + 1];
      if count < BATCH_MAX {
        count := count + 1;
      } else {
        more := true;
      }
    }

    /** Moves records[position..last] one place up. */
    method ShiftRight(position: nat, last: nat)
      requires position <= last < records.Length
      modifies records
      ensures records[..position] == old(records[..position])
      ensures records[position + 1..last + 1] == old(records[position..last])
    {
      var i := last;
      while i > position
        invariant position <= i <= last
        invariant forall k :: 0 <= k <= i ==> records[k] == old(records[k])
        invariant forall k :: i < k <= last ==> records[k] == old(records[k - 1])
      {
        records[i] := records[i - 1];
        i := i - 1;
      }
    }
  }

  lemma NotHeld<T>(s: seq<Record<T>>, q: U64, p: nat)
    requires Sorted(s) && IsPosition(s, q, p) && (p < |s| ==> s[p].sequence != q)
    ensures !Contains(s, q)
  {
    assert forall i :: p < i < |s| ==> s[p].sequence < s[i].sequence;
  }
}
