/**
 The canonical form of a query string (components/pm_protocol/pm_protocol.c): its parts, with percent escapes in
 upper case (section 6.2.2.1 of RFC 3986), in the order of their bytes. A text is shown without its final NUL.
 */
module Query {
  import opened Esp

  const QUERY_MAX: nat := 384
  const PARTS_MAX: nat := 32

  /* ---- Parts ---- */

  function FindSeparator(s: string): (k: nat)
    ensures k <= |s| && (k < |s| ==> s[k] == '&') && forall i :: 0 <= i < k ==> s[i] != '&'
  {
    if s == "" || s[0] == '&' then 0 else 1 + FindSeparator(s[1..])
  }

  function Split(s: string): seq<string>
    decreases |s|
  {
    var k := FindSeparator(s);
    if k == |s| then [s] else [s[..k]] + Split(s[k + 1..])
  }

  function Join(parts: seq<string>): string {
    if parts == [] then "" else if |parts| == 1 then parts[0] else parts[0] + "&" + Join(parts[1..])
  }

  predicate Unseparated(s: string) { forall i :: 0 <= i < |s| ==> s[i] != '&' }

  predicate AllUnseparated(parts: seq<string>) { forall i :: 0 <= i < |parts| ==> Unseparated(parts[i]) }

  lemma CutAtSeparator(s: string, k: nat)
    requires k < |s| && s[k] == '&'
    ensures s == s[..k] + "&" + s[k + 1..]
  {
  }

  lemma JoinStep(p: string, parts: seq<string>)
    requires |parts| > 0
    ensures Join([p] + parts) == p + "&" + Join(parts)
  {
    assert ([p] + parts)[1..] == parts;
  }

  lemma {:induction false} SplitParts(s: string)
    ensures |Split(s)| > 0 && AllUnseparated(Split(s)) && Join(Split(s)) == s
    decreases |s|
  {
    var k := FindSeparator(s);
    if k < |s| {
      SplitParts(s[k + 1..]);
      JoinStep(s[..k], Split(s[k + 1..]));
      CutAtSeparator(s, k);
    }
  }

  lemma {:induction false} SplitUndoesJoin(parts: seq<string>)
    requires |parts| > 0 && AllUnseparated(parts)
    ensures Split(Join(parts)) == parts
  {
    var s := Join(parts);
    if |parts| == 1 {
      assert s == parts[0] && FindSeparator(s) == |s|;
    } else {
      var p, rest := parts[0], Join(parts[1..]);
      assert s == p + "&" + rest;
      assert forall i :: 0 <= i < |p| ==> s[i] == p[i];
      assert s[|p|] == '&';
      assert FindSeparator(s) == |p|;
      assert s[..|p|] == p && s[|p| + 1..] == rest;
      SplitUndoesJoin(parts[1..]);
    }
  }

  function TotalLength(parts: seq<string>): nat { if parts == [] then 0 else |parts[0]| + TotalLength(parts[1..]) }

  lemma {:induction false} JoinLength(parts: seq<string>)
    requires |parts| > 0
    ensures |Join(parts)| == TotalLength(parts) + |parts| - 1
  {
    if |parts| > 1 { JoinLength(parts[1..]); }
  }

  /* ---- Percent escapes ---- */

  predicate HexDigit(c: char) { '0' <= c <= '9' || 'a' <= c <= 'f' || 'A' <= c <= 'F' }

  predicate Plain(c: char) { c as int > 0x20 && c as int != 0x7F && c != '#' && c != '+' }

  predicate OkAt(s: string, i: nat)
    requires i < |s|
  {
    Plain(s[i]) && (s[i] == '%' ==> i + 2 < |s| && HexDigit(s[i + 1]) && HexDigit(s[i + 2]))
  }

  /** `valid_encoded_component`. */
  predicate ValidComponent(s: string) { forall i | 0 <= i < |s| :: OkAt(s, i) }

  const HEX := "0123456789ABCDEFabcdef"

  lemma HexDigitIs(c: char)
    ensures HexDigit(c) <==> c in HEX
  {
    if HexDigit(c) {
      var k := if c <= '9' then (c - '0') as int else if c <= 'F' then (c - 'A') as int + 10
               else (c - 'a') as int + 16;
      assert HEX[k] == c;
    }
  }

  /** Printable, nothing that an encoded component would escape, and only whole escapes. */
  predicate AllowedAt(s: string, i: nat)
    requires i < |s|
  {
    && s[i] > ' ' && s[i] as int != 127 && s[i] !in "#+"
    && (s[i] == '%' ==> i + 2 < |s| && s[i + 1] in HEX && s[i + 2] in HEX)
  }

  lemma ValidExactly(s: string)
    ensures ValidComponent(s) <==> forall i | 0 <= i < |s| :: AllowedAt(s, i)
  {
    forall i | 0 <= i < |s| ensures OkAt(s, i) <==> AllowedAt(s, i) {
      if i + 2 < |s| {
        HexDigitIs(s[i + 1]);
        HexDigitIs(s[i + 2]);
      }
    }
  }

  method CheckComponent(s: string) returns (ok: bool)
    ensures ok <==> ValidComponent(s)
  {
    for i := 0 to |s|
      invariant forall j | 0 <= j < i :: OkAt(s, j)
    {
      if s[i] == '%' && !(i + 1 < |s| && HexDigit(s[i + 1]) && i + 2 < |s| && HexDigit(s[i + 2])) {
        assert !OkAt(s, i);
        return false;
      }
      if s[i] as int <= 0x20 || s[i] as int == 0x7F || s[i] == '#' || s[i] == '+' {
        assert !OkAt(s, i);
        return false;
      }
    }
    return true;
  }

  function Upper(c: char): char { if 'a' <= c <= 'f' then ('A' as int + (c as int - 'a' as int)) as char else c }

  /** A valid component with its escapes in upper case. */
  function Normal(s: string): string {
    if s == "" then ""
    else if s[0] == '%' && |s| > 2 then [s[0], Upper(s[1]), Upper(s[2])] + Normal(s[3..])
    else [s[0]] + Normal(s[1..])
  }

  lemma ValidTail(s: string, k: nat)
    requires ValidComponent(s) && k <= |s|
    ensures ValidComponent(s[k..])
  {
    forall i | 0 <= i < |s[k..]| ensures OkAt(s[k..], i) {
      assert OkAt(s, k + i);
    }
  }

  lemma ValidPrepend(a: string, s: string)
    requires ValidComponent(s) && (forall i | 0 <= i < |a| :: OkAt(a, i))
    ensures ValidComponent(a + s)
  {
    forall i | 0 <= i < |a + s| ensures OkAt(a + s, i) {
      if i < |a| {
        assert OkAt(a, i);
      } else {
        assert OkAt(s, i - |a|);
      }
    }
  }

  /** What normalising keeps: the length, validity, and having no separator; and a second time changes nothing. */
  lemma {:induction false} NormalIsNormal(s: string)
    requires ValidComponent(s) && Unseparated(s)
    ensures |Normal(s)| == |s| && ValidComponent(Normal(s)) && Unseparated(Normal(s)) && Normal(Normal(s)) == Normal(s)
    decreases |s|, 1
  {
    if s != "" {
      assert OkAt(s, 0);
      if s[0] == '%' {
        EscapeIsNormal(s);
      } else {
        ValidTail(s, 1);
        NormalIsNormal(s[1..]);
        assert OkAt([s[0]], 0);
        ValidPrepend([s[0]], Normal(s[1..]));
        assert Normal(s)[1..] == Normal(s[1..]);
      }
    }
  }

  const LOWER := "abcdef"
  const CAPITAL := "ABCDEF"

  /** The character stays, or is one of six lower-case letters that becomes its capital. */
  predicate Capitalised(was: char, now: char) {
    now == was || exists k :: 0 <= k < |LOWER| && was == LOWER[k] && now == CAPITAL[k]
  }

  lemma UpperCapitalises(c: char)
    ensures Capitalised(c, Upper(c)) && Upper(c) !in LOWER
  {
    if 'a' <= c <= 'f' {
      var k := (c - 'a') as int;
      assert LOWER[k] == c && CAPITAL[k] == Upper(c);
    }
  }

  /** Only a letter of an escape changes, and all of those become capitals. */
  predicate CapitalisedAt(s: string, n: string, i: nat)
    requires i < |s| == |n|
  {
    && Capitalised(s[i], n[i])
    && (n[i] != s[i] ==> (i > 0 && s[i - 1] == '%') || (i > 1 && s[i - 2] == '%'))
    && (s[i] == '%' ==> i + 2 < |s| && n[i + 1] !in LOWER && n[i + 2] !in LOWER)
  }

  lemma {:induction false} NormalCapitalisesEscapes(s: string)
    requires ValidComponent(s)
    ensures |Normal(s)| == |s| && forall i | 0 <= i < |s| :: CapitalisedAt(s, Normal(s), i)
    decreases |s|
  {
    if s != "" {
      assert OkAt(s, 0);
      var k := if s[0] == '%' then 3 else 1;
      ValidTail(s, k);
      NormalCapitalisesEscapes(s[k..]);
      forall i | 0 <= i < |s| ensures CapitalisedAt(s, Normal(s), i) {
        if i < k { FrontIsCapitalised(s, i); } else { TailIsCapitalised(s, k, i); }
      }
    }
  }

  lemma FrontIsCapitalised(s: string, i: nat)
    requires i < |s| == |Normal(s)| && OkAt(s, 0) && (if s[0] == '%' then i < 3 else i < 1)
    ensures CapitalisedAt(s, Normal(s), i)
  {
    if s[0] == '%' {
      UpperCapitalises(s[1]);
      UpperCapitalises(s[2]);
      assert HexDigit(s[1]) && HexDigit(s[2]);
    }
  }

  lemma TailIsCapitalised(s: string, k: nat, i: nat)
    requires k <= i < |s| && |Normal(s)| == |s| && |Normal(s[k..])| == |s| - k && Normal(s)[k..] == Normal(s[k..])
    requires CapitalisedAt(s[k..], Normal(s[k..]), i - k)
    ensures CapitalisedAt(s, Normal(s), i)
  {
    var n, t := Normal(s), Normal(s[k..]);
    assert forall j :: k <= j < |s| ==> n[j] == n[k..][j - k] == t[j - k] && s[j] == s[k..][j - k];
  }

  lemma {:induction false} EscapeIsNormal(s: string)
    requires ValidComponent(s) && Unseparated(s) && |s| > 2 && s[0] == '%' && OkAt(s, 0)
    ensures |Normal(s)| == |s| && ValidComponent(Normal(s)) && Unseparated(Normal(s)) && Normal(Normal(s)) == Normal(s)
    decreases |s|, 0
  {
    ValidTail(s, 3);
    NormalIsNormal(s[3..]);
    var a := [s[0], Upper(s[1]), Upper(s[2])];
    assert OkAt(a, 0) && OkAt(a, 1) && OkAt(a, 2);
    ValidPrepend(a, Normal(s[3..]));
    assert Normal(s)[3..] == Normal(s[3..]);
  }

  /** The first `j` characters of `c` are done, and end where a character or escape of `s` ends. */
  predicate Done(c: string, s: string, j: nat) {
    j <= |s| == |c| && c[j..] == s[j..] && Normal(s) == c[..j] + Normal(s[j..])
  }

  lemma PlainStep(c: string, s: string, j: nat)
    requires Done(c, s, j) && j < |s| && s[j] != '%'
    ensures Done(c, s, j + 1)
  {
    var rest := s[j + 1..];
    assert s[j..][1..] == rest && c[j..][1..] == c[j + 1..];
    assert c[j] == c[j..][0] == s[j];
    assert c[..j + 1] == c[..j] + [s[j]];
    Reassociate(c[..j], [s[j]], Normal(rest));
  }

  lemma EscapeStep(c: string, s: string, j: nat)
    requires Done(c, s, j) && j + 2 < |s| && s[j] == '%'
    ensures Done(c[j + 1 := Upper(c[j + 1])][j + 2 := Upper(c[j + 2])], s, j + 3)
  {
    var rest, e := s[j + 3..], c[j + 1 := Upper(c[j + 1])][j + 2 := Upper(c[j + 2])];
    var escape := [s[j], Upper(s[j + 1]), Upper(s[j + 2])];
    assert s[j..][3..] == rest && c[j..][3..] == c[j + 3..] == e[j + 3..];
    assert c[j] == c[j..][0] && c[j + 1] == c[j..][1] && c[j + 2] == c[j..][2];
    assert e[..j + 3] == c[..j] + escape;
    Reassociate(c[..j], escape, Normal(rest));
  }

  lemma Reassociate(a: string, b: string, c: string)
    ensures a + (b + c) == (a + b) + c
  {
  }

  /** The loop that upper-cases the escapes of a part in place. */
  method UpperCaseEscapes(a: array<char>)
    requires ValidComponent(a[..])
    modifies a
    ensures a[..] == Normal(old(a[..]))
  {
    ghost var s := a[..];
    var j := 0;
    while j < a.Length
      invariant Done(a[..], s, j)
    {
      assert OkAt(s, j) && a[j] == a[..][j..][0] == s[j];
      if a[j] == '%' {
        EscapeStep(a[..], s, j);
        a[j + 1] := Upper(a[j + 1]);
        a[j + 2] := Upper(a[j + 2]);
        j := j + 3;
      } else {
        PlainStep(a[..], s, j);
        j := j + 1;
      }
    }
  }

  /* ---- The order of bytes ---- */

  /** `strcmp(s, t) <= 0`. */
  predicate AtMost(s: string, t: string) {
    s == "" || (t != "" && (s[0] < t[0] || (s[0] == t[0] && AtMost(s[1..], t[1..]))))
  }

  /** One is the start of the other, or at the first place where they differ its byte is the smaller. */
  predicate Precedes(s: string, t: string) {
    (|s| <= |t| && s == t[..|s|]) || exists k :: 0 <= k < |s| && k < |t| && s[..k] == t[..k] && s[k] < t[k]
  }

  lemma {:induction false} AtMostExactly(s: string, t: string)
    ensures AtMost(s, t) <==> Precedes(s, t)
  {
    if s != "" && t != "" {
      var s', t' := s[1..], t[1..];
      AtMostExactly(s', t');
      assert s == [s[0]] + s' && t == [t[0]] + t';
      if s[0] < t[0] {
        assert s[..0] == t[..0];
      } else if s[0] == t[0] {
        TailsPrecede(s, t);
      }
    }
  }

  lemma TailsPrecede(s: string, t: string)
    requires s != "" && t != "" && s[0] == t[0]
    ensures Precedes(s, t) <==> Precedes(s[1..], t[1..])
  {
    var s', t' := s[1..], t[1..];
    if k :| 0 <= k < |s| && k < |t| && s[..k] == t[..k] && s[k] < t[k] {
      assert k > 0 && s'[..k - 1] == s[..k][1..] && t'[..k - 1] == t[..k][1..] && s'[k - 1] < t'[k - 1];
    }
    if k :| 0 <= k < |s'| && k < |t'| && s'[..k] == t'[..k] && s'[k] < t'[k] {
      assert s[..k + 1] == [s[0]] + s'[..k] && t[..k + 1] == [t[0]] + t'[..k] && s[k + 1] < t[k + 1];
    }
    if |s| <= |t| && s == t[..|s|] { assert s' == t[..|s|][1..] == t'[..|s'|]; }
    if |s'| <= |t'| && s' == t'[..|s'|] { assert s == [s[0]] + s' && t[..|s|] == [t[0]] + t'[..|s'|]; }
  }

  lemma {:induction false} AtMostIsTotal(s: string, t: string)
    ensures AtMost(s, t) || AtMost(t, s)
    ensures AtMost(s, t) && AtMost(t, s) ==> s == t
  {
    if s != "" && t != "" && s[0] == t[0] {
      AtMostIsTotal(s[1..], t[1..]);
      assert s == [s[0]] + s[1..] && t == [t[0]] + t[1..];
    }
  }

  lemma {:induction false} AtMostIsTransitive(r: string, s: string, t: string)
    requires AtMost(r, s) && AtMost(s, t)
    ensures AtMost(r, t)
  {
    if r != "" && r[0] == s[0] && s[0] == t[0] { AtMostIsTransitive(r[1..], s[1..], t[1..]); }
  }

  predicate Sorted(parts: seq<string>) { forall i, j :: 0 <= i < j < |parts| ==> AtMost(parts[i], parts[j]) }

  function Insert(p: string, parts: seq<string>): seq<string> {
    if parts == [] then [p] else if AtMost(p, parts[0]) then [p] + parts else [parts[0]] + Insert(p, parts[1..])
  }

  /** What `qsort` leaves; `SortedIsUnique` says that no other result is possible. */
  function Sort(parts: seq<string>): seq<string> {
    if parts == [] then [] else Insert(parts[0], Sort(parts[1..]))
  }

  lemma {:induction false} InsertKeeps(p: string, parts: seq<string>)
    ensures multiset(Insert(p, parts)) == multiset(parts) + multiset{p}
  {
    if parts != [] && !AtMost(p, parts[0]) {
      InsertKeeps(p, parts[1..]);
      assert parts == [parts[0]] + parts[1..];
    }
  }

  lemma {:induction false} InsertLengthens(p: string, parts: seq<string>)
    ensures |Insert(p, parts)| == |parts| + 1 && TotalLength(Insert(p, parts)) == TotalLength(parts) + |p|
  {
    if parts != [] {
      if AtMost(p, parts[0]) {
        assert ([p] + parts)[1..] == parts;
      } else {
        InsertLengthens(p, parts[1..]);
        assert Insert(p, parts)[1..] == Insert(p, parts[1..]);
      }
    }
  }

  lemma SortedPrepend(p: string, parts: seq<string>)
    requires Sorted(parts) && forall q :: q in parts ==> AtMost(p, q)
    ensures Sorted([p] + parts)
  {
  }

  lemma {:induction false} InsertSorts(p: string, parts: seq<string>)
    requires Sorted(parts)
    ensures Sorted(Insert(p, parts))
  {
    if parts != [] {
      if AtMost(p, parts[0]) {
        forall q | q in parts ensures AtMost(p, q) {
          var i :| 0 <= i < |parts| && parts[i] == q;
          if i > 0 { AtMostIsTransitive(p, parts[0], parts[i]); }
        }
        SortedPrepend(p, parts);
      } else {
        AtMostIsTotal(p, parts[0]);
        InsertSorts(p, parts[1..]);
        InsertKeeps(p, parts[1..]);
        forall q | q in Insert(p, parts[1..]) ensures AtMost(parts[0], q) {
          assert q in multiset(Insert(p, parts[1..]));
          assert q == p || q in multiset(parts[1..]);
        }
        SortedPrepend(parts[0], Insert(p, parts[1..]));
      }
    }
  }

  lemma {:induction false} SortSorts(parts: seq<string>)
    ensures Sorted(Sort(parts)) && multiset(Sort(parts)) == multiset(parts)
    ensures |Sort(parts)| == |parts| && TotalLength(Sort(parts)) == TotalLength(parts)
  {
    if parts != [] {
      SortSorts(parts[1..]);
      InsertSorts(parts[0], Sort(parts[1..]));
      InsertKeeps(parts[0], Sort(parts[1..]));
      InsertLengthens(parts[0], Sort(parts[1..]));
      assert parts == [parts[0]] + parts[1..];
    }
  }

  lemma FirstIsLeast(a: seq<string>, p: string)
    requires Sorted(a) && p in a
    ensures AtMost(a[0], p)
  {
    AtMostIsTotal(p, p);
  }

  lemma FirstsAgree(a: seq<string>, b: seq<string>)
    requires Sorted(a) && Sorted(b) && multiset(a) == multiset(b) && a != []
    ensures b != [] && a[0] == b[0]
  {
    assert a[0] in multiset(b);
    assert b[0] in multiset(a);
    FirstIsLeast(a, b[0]);
    FirstIsLeast(b, a[0]);
    AtMostIsTotal(a[0], b[0]);
  }

  lemma RestsAgree(p: string, a: seq<string>, b: seq<string>)
    requires multiset([p] + a) == multiset([p] + b)
    ensures multiset(a) == multiset(b)
  {
    assert multiset(a) == multiset([p] + a) - multiset{p};
    assert multiset(b) == multiset([p] + b) - multiset{p};
  }

  lemma {:induction false} SortedIsUnique(a: seq<string>, b: seq<string>)
    requires Sorted(a) && Sorted(b) && multiset(a) == multiset(b)
    ensures a == b
  {
    if a == [] {
      assert |multiset(b)| == 0;
    } else {
      FirstsAgree(a, b);
      var p, s, t := a[0], a[1..], b[1..];
      assert a == [p] + s && b == [p] + t;
      RestsAgree(p, s, t);
      SortedIsUnique(s, t);
    }
  }

  /* ---- The canonical form ---- */

  predicate AllValid(parts: seq<string>) { forall i :: 0 <= i < |parts| ==> parts[i] != "" && ValidComponent(parts[i]) }

  lemma AllValidMeans(parts: seq<string>)
    ensures AllValid(parts) <==> forall p :: p in parts ==> p != "" && ValidComponent(p)
  {
    if forall p :: p in parts ==> p != "" && ValidComponent(p) {
      forall i | 0 <= i < |parts| ensures parts[i] != "" && ValidComponent(parts[i]) { assert parts[i] in parts; }
    }
  }

  function Normals(parts: seq<string>): (r: seq<string>)
    ensures |r| == |parts| && forall i :: 0 <= i < |r| ==> r[i] == Normal(parts[i])
  {
    if parts == [] then [] else [Normal(parts[0])] + Normals(parts[1..])
  }

  function Canonical(query: string): string { if query == "" then "" else Join(Sort(Normals(Split(query)))) }

  function CanonicalError(query: string, size: nat): EspErr {
    if size == 0 then INVALID_ARG
    else if query == "" then OK
    else if |query| >= QUERY_MAX || |query| + 1 > size then INVALID_SIZE
    else if |Split(query)| > PARTS_MAX then INVALID_SIZE
    else if !AllValid(Split(query)) then INVALID_ARG
    else OK
  }

  predicate Accepted(query: string) { CanonicalError(query, QUERY_MAX) == OK }

  lemma {:induction false} NormalsKeep(parts: seq<string>)
    requires AllValid(parts) && AllUnseparated(parts)
    ensures AllValid(Normals(parts)) && AllUnseparated(Normals(parts)) &&
            TotalLength(Normals(parts)) == TotalLength(parts)
    ensures Normals(Normals(parts)) == Normals(parts)
  {
    if parts != [] {
      NormalIsNormal(parts[0]);
      NormalsKeep(parts[1..]);
      assert Normals(parts)[1..] == Normals(parts[1..]);
    }
  }

  /** Sorting moves parts about but keeps what is true of each. */
  lemma SortKeeps(parts: seq<string>)
    requires AllValid(parts) && AllUnseparated(parts) && Normals(parts) == parts
    ensures AllValid(Sort(parts)) && AllUnseparated(Sort(parts)) && Normals(Sort(parts)) == Sort(parts)
  {
    SortSorts(parts);
    forall i | 0 <= i < |Sort(parts)| ensures Sort(parts)[i] in parts {
      assert Sort(parts)[i] in multiset(parts);
    }
    forall p | p in parts ensures Normal(p) == p && p != "" && ValidComponent(p) && Unseparated(p) {
      var i :| 0 <= i < |parts| && parts[i] == p;
      assert Normals(parts)[i] == Normal(parts[i]);
    }
    assert Normals(Sort(parts)) == Sort(parts);
  }

  /** The parts of the canonical form are the sorted normal parts, and nothing was gained or lost. */
  lemma CanonicalParts(query: string)
    requires query != "" && AllValid(Split(query))
    ensures |Canonical(query)| == |query| && Split(Canonical(query)) == Sort(Normals(Split(query)))
    ensures AllValid(Split(Canonical(query))) && Normals(Split(Canonical(query))) == Split(Canonical(query))
    ensures |Split(Canonical(query))| == |Split(query)|
  {
    var parts := Split(query);
    SplitParts(query);
    NormalsKeep(parts);
    SortSorts(Normals(parts));
    SortKeeps(Normals(parts));
    JoinLength(parts);
    JoinLength(Sort(Normals(parts)));
    SplitUndoesJoin(Sort(Normals(parts)));
  }

  lemma SortOfSorted(parts: seq<string>)
    requires Sorted(parts)
    ensures Sort(parts) == parts
  {
    SortSorts(parts);
    SortedIsUnique(Sort(parts), parts);
  }

  lemma CanonicalAgain(query: string)
    requires query != "" && AllValid(Split(query))
    ensures Canonical(Canonical(query)) == Canonical(query)
  {
    CanonicalParts(query);
    SortSorts(Normals(Split(query)));
    SortOfSorted(Split(Canonical(query)));
  }

  /** Canonicalising is accepted a second time and changes nothing; the length never changes. */
  lemma CanonicalIsIdempotent(query: string, size: nat)
    requires CanonicalError(query, size) == OK
    ensures |Canonical(query)| == |query|
    ensures CanonicalError(Canonical(query), size) == OK && Canonical(Canonical(query)) == Canonical(query)
  {
    if query != "" {
      CanonicalParts(query);
      CanonicalAgain(query);
    }
  }

  /** Two accepted queries have the same canonical form exactly when they have the same normal parts, equally often. */
  lemma CanonicalDecidesEquivalence(q: string, r: string)
    requires Accepted(q) && Accepted(r)
    ensures Canonical(q) == Canonical(r) <==> multiset(Normals(Split(q))) == multiset(Normals(Split(r)))
  {
    if q == "" || r == "" {
      EmptyIsAlone(q, r);
    } else {
      var a, b := Normals(Split(q)), Normals(Split(r));
      CanonicalParts(q);
      CanonicalParts(r);
      SortSorts(a);
      SortSorts(b);
      if multiset(a) == multiset(b) { SortedIsUnique(Sort(a), Sort(b)); }
    }
  }

  lemma EmptyIsAlone(q: string, r: string)
    requires Accepted(q) && Accepted(r) && (q == "" || r == "")
    ensures Canonical(q) == Canonical(r) <==> multiset(Normals(Split(q))) == multiset(Normals(Split(r)))
  {
    var a, b := Normals(Split(q)), Normals(Split(r));
    EmptyPart(q);
    EmptyPart(r);
    CanonicalIsIdempotent(q, QUERY_MAX);
    CanonicalIsIdempotent(r, QUERY_MAX);
    if multiset(a) == multiset(b) {
      assert ("" in multiset(a)) == ("" in multiset(b));
    }
  }

  /** Only the empty query has an empty part. */
  lemma EmptyPart(q: string)
    requires Accepted(q)
    ensures q == "" <==> "" in multiset(Normals(Split(q)))
  {
    var a := Normals(Split(q));
    SplitParts(q);
    if q == "" {
      assert a[0] == "";
      assert a[0] in multiset(a);
    } else {
      NormalsKeep(Split(q));
    }
  }

  /* ---- The source's operation ---- */

  lemma CutStep(parts: seq<string>, cursor: string, k: nat)
    requires k == FindSeparator(cursor)
    ensures parts + Split(cursor) ==
            if k == |cursor| then parts + [cursor] else parts + [cursor[..k]] + Split(cursor[k + 1..])
  {
    if k < |cursor| {
      var p, rest, all := cursor[..k], Split(cursor[k + 1..]), Split(cursor);
      SplitStep(cursor, k);
      PrependBetween(parts, p, rest, all);
    }
  }

  lemma SplitStep(cursor: string, k: nat)
    requires k == FindSeparator(cursor) && k < |cursor|
    ensures Split(cursor) == [cursor[..k]] + Split(cursor[k + 1..])
  {
  }

  lemma PrependBetween(a: seq<string>, p: string, b: seq<string>, all: seq<string>)
    requires all == [p] + b
    ensures a + all == a + [p] + b
  {
    AppendOne(a, p, b);
  }

  lemma AppendOne(a: seq<string>, p: string, b: seq<string>)
    ensures a + ([p] + b) == a + [p] + b
  {
  }

  /** Cuts the query at its separators, unless there are too many. */
  method CutParts(query: string) returns (parts: seq<string>, whole: bool)
    ensures whole <==> |Split(query)| <= PARTS_MAX
    ensures whole ==> parts == Split(query)
  {
    parts, whole := [], false;
    var cursor := query;
    while !whole && |parts| < PARTS_MAX
      invariant |parts| <= PARTS_MAX
      invariant Split(query) == if whole then parts else parts + Split(cursor)
      decreases PARTS_MAX - |parts|, !whole
    {
      var k := FindSeparator(cursor);
      CutStep(parts, cursor, k);
      if k == |cursor| {
        parts, whole := parts + [cursor], true;
      } else {
        parts, cursor := parts + [cursor[..k]], cursor[k + 1..];
      }
    }
    SplitParts(cursor);
  }

  method NormaliseParts(parts: seq<string>) returns (ok: bool, normal: seq<string>)
    ensures ok <==> AllValid(parts)
    ensures ok ==> normal == Normals(parts)
  {
    ok, normal := true, [];
    for i := 0 to |parts|
      invariant |normal| == i && AllValid(parts[..i])
      invariant forall j :: 0 <= j < i ==> normal[j] == Normal(parts[j])
    {
      var valid := CheckComponent(parts[i]);
      if parts[i] == "" || !valid { return false, []; }
      assert AllValid(parts[..i + 1]) by { assert forall j :: 0 <= j < i ==> parts[..i + 1][j] == parts[..i][j]; }
      var buffer := new char[|parts[i]|](k requires 0 <= k < |parts[i]| => parts[i][k]);
      assert buffer[..] == parts[i];
      UpperCaseEscapes(buffer);
      normal := normal + [buffer[..]];
    }
    assert parts[..|parts|] == parts;
  }

  /** Writes the parts with separators between them; the room the caller has checked for is always enough. */
  method Append(parts: seq<string>, size: nat) returns (err: EspErr, output: string)
    requires |parts| > 0
    ensures err == OK <==> |Join(parts)| + 1 <= size
    ensures err == OK || err == INVALID_SIZE
    ensures err == OK ==> output == Join(parts)
  {
    output, err := "", OK;
    for i := 0 to |parts|
      invariant output == Join(parts[..i]) && (i > 0 ==> |output| + 1 <= size)
    {
      JoinMore(parts, i);
      if |output| + |parts[i]| + (if i == 0 then 0 else 1) + 1 > size {
        JoinGrows(parts, i + 1);
        return INVALID_SIZE, "";
      }
      if i != 0 { output := output + "&"; }
      output := output + parts[i];
    }
    assert parts[..|parts|] == parts;
  }

  lemma {:induction false} JoinAppend(parts: seq<string>, p: string)
    ensures Join(parts + [p]) == if parts == [] then p else Join(parts) + "&" + p
  {
    if |parts| == 1 {
      assert (parts + [p])[1..] == [p];
    } else if |parts| > 1 {
      JoinAppend(parts[1..], p);
      assert (parts + [p])[1..] == parts[1..] + [p];
      assert Join(parts + [p]) == parts[0] + "&" + (Join(parts[1..]) + "&" + p);
    }
  }

  lemma JoinMore(parts: seq<string>, i: nat)
    requires i < |parts|
    ensures Join(parts[..i + 1]) == if i == 0 then parts[0] else Join(parts[..i]) + "&" + parts[i]
  {
    assert parts[..i + 1] == parts[..i] + [parts[i]];
    JoinAppend(parts[..i], parts[i]);
  }

  lemma {:induction false} JoinGrows(parts: seq<string>, i: nat)
    requires 0 < i <= |parts|
    ensures |Join(parts[..i])| <= |Join(parts)|
    decreases |parts| - i
  {
    if i < |parts| {
      JoinMore(parts, i);
      JoinGrows(parts, i + 1);
    } else {
      assert parts[..i] == parts;
    }
  }

  /** `pm_canonical_query`. */
  method CanonicalQuery(query: string, size: nat) returns (err: EspErr, output: string)
    ensures err == CanonicalError(query, size)
    ensures err == OK <==>
            size > 0 &&
            (query == "" ||
             (|query| < 384 && |query| < size && |Split(query)| <= 32 &&
              forall p :: p in Split(query) ==> p != "" && ValidComponent(p)))
    ensures output == if err == OK then Canonical(query) else ""
  {
    output := "";
    if size == 0 { return INVALID_ARG, output; }
    if query == "" { return OK, output; }
    if |query| >= QUERY_MAX || |query| + 1 > size { return INVALID_SIZE, output; }
    var parts, whole := CutParts(query);
    if !whole { return INVALID_SIZE, output; }
    var ok, normal := NormaliseParts(parts);
    AllValidMeans(parts);
    if !ok { return INVALID_ARG, output; }
    CanonicalParts(query);
    SortSorts(normal);
    SplitParts(query);
    err, output := Append(Sort(normal), size);
  }
}
