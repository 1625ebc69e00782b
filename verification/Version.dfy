/**
 Firmware versions (components/pm_ota/pm_ota_version.c): their texts, their order, and what follows for every run
 of accepted upgrades. A cursor into a text is the rest of the text.
 */
module Version {
  import opened Esp

  datatype Version = Version(major: U32, minor: U32, patch: U32, candidate: Option<U32>)

  predicate Proper(v: Version) { v.candidate != Some(0) }

  /* ---- Numbers and their texts ---- */

  predicate Digit(c: char) { '0' <= c <= '9' }

  predicate Digits(s: string) { forall i :: 0 <= i < |s| ==> Digit(s[i]) }

  function DigitOf(n: nat): char
    requires n < 10
  {
    '0' + n as char
  }

  function Decimal(n: nat): string {
    if n < 10 then [DigitOf(n)] else Decimal(n / 10) + [DigitOf(n % 10)]
  }

  function Value(s: string): nat
    requires Digits(s)
  {
    if s == "" then 0 else Value(s[..|s| - 1]) * 10 + (s[|s| - 1] - '0') as nat
  }

  predicate NoLeadingZero(s: string) { s != "" && (s[0] == '0' ==> |s| == 1) }

  lemma {:induction false} DecimalIsDigits(n: nat)
    ensures Digits(Decimal(n)) && NoLeadingZero(Decimal(n)) && Value(Decimal(n)) == n &&
            (Decimal(n)[0] == '0' <==> n == 0)
  {
    if n >= 10 {
      DecimalIsDigits(n / 10);
      assert Decimal(n)[..|Decimal(n)| - 1] == Decimal(n / 10);
    } else {
      assert Decimal(n)[..0] == "";
    }
  }

  lemma DecimalStep(m: nat, d: nat)
    requires m > 0 && d < 10
    ensures Decimal(m * 10 + d) == Decimal(m) + [DigitOf(d)]
  {
    var n := m * 10 + d;
    assert n / 10 == m && n % 10 == d;
  }

  lemma ValueSplits(s: string)
    requires Digits(s) && s != ""
    ensures Value(s) == Value(s[..|s| - 1]) * 10 + (s[|s| - 1] - '0') as nat
  {
  }

  lemma {:induction false} DecimalOfValue(s: string)
    requires Digits(s) && NoLeadingZero(s)
    ensures Decimal(Value(s)) == s && (Value(s) == 0 ==> s == "0")
    decreases |s|
  {
    var init, c := s[..|s| - 1], s[|s| - 1];
    var d := (c - '0') as nat;
    assert s == init + [c] && DigitOf(d) == c;
    ValueSplits(s);
    if init == "" {
      assert Value(s) == d;
      assert Decimal(d) == [c];
    } else {
      assert init[0] == s[0];
      assert Digits(init) && NoLeadingZero(init);
      DecimalOfValue(init);
      assert Value(init) > 0;
      DecimalStep(Value(init), d);
    }
  }

  lemma {:induction false} ValueGrows(s: string, k: nat)
    requires Digits(s) && k <= |s|
    ensures Value(s[..k]) <= Value(s)
    decreases |s|
  {
    if k < |s| {
      var init := s[..|s| - 1];
      assert init[..k] == s[..k];
      ValueGrows(init, k);
    } else {
      assert s[..k] == s;
    }
  }

  /** The text starts with the number `n`, which is not followed by a further digit. */
  predicate StartsWithNumber(s: string, n: nat, rest: string) {
    n <= U32_MAX && s == Decimal(n) + rest && (rest == "" || !Digit(rest[0]))
  }

  /** The number ends where the digits end. */
  lemma NumberEnds(s: string, n: nat, rest: string)
    requires StartsWithNumber(s, n, rest)
    ensures var k := |Decimal(n)|;
            1 <= k <= |s| && s[..k] == Decimal(n) && s[k..] == rest && (forall p :: 0 <= p < k ==> Digit(s[p])) &&
            (k < |s| ==> !Digit(s[k])) &&
            (k > 1 ==> s[0] != '0')
  {
    var a := Decimal(n);
    DecimalIsDigits(n);
    assert forall p :: 0 <= p < |a| ==> s[p] == a[p];
    assert |a| < |s| ==> s[|a|] == rest[0];
  }

  lemma NumberIsUnique(s: string, n: nat, r: string, m: nat, t: string)
    requires StartsWithNumber(s, n, r) && StartsWithNumber(s, m, t)
    ensures n == m && r == t
  {
    NumberEnds(s, n, r);
    NumberEnds(s, m, t);
    assert |Decimal(n)| == |Decimal(m)|;
    DecimalIsDigits(n);
    DecimalIsDigits(m);
  }

  /** A run of digits that starts a text is part of the number the text starts with. */
  lemma RunIsInNumber(s: string, k: nat, n: nat, rest: string)
    requires StartsWithNumber(s, n, rest) && k <= |s| && Digits(s[..k])
    ensures Value(s[..k]) <= n
  {
    var a := Decimal(n);
    NumberEnds(s, n, rest);
    DecimalIsDigits(n);
    forall p | 0 <= p < k ensures Digit(s[p]) { assert s[p] == s[..k][p]; }
    assert k <= |a|;
    assert s[..k] == s[..|a|][..k];
    ValueGrows(a, k);
  }

  /** `parse_number`: accepts exactly the decimal numbers of 32 bits without leading zeros. */
  method ParseNumber(s: string) returns (ok: bool, n: U32, rest: string)
    ensures ok ==> StartsWithNumber(s, n, rest)
    ensures !ok ==> forall m, r :: !StartsWithNumber(s, m, r)
  {
    ok, n, rest := false, 0, s;
    if s == "" || !Digit(s[0]) || (s[0] == '0' && |s| > 1 && Digit(s[1])) {
      NoNumber(s);
      return;
    }
    var k, parsed: U32 := 0, 0;
    while k == 0 || (k < |s| && Digit(s[k]))
      invariant k <= |s| && Digits(s[..k]) && Value(s[..k]) == parsed && (k > 0 ==> s[0] == '0' ==> k == 1)
      decreases |s| - k
    {
      var digit := (s[k] - '0') as nat;
      assert s[..k + 1][..k] == s[..k];
      if parsed > (U32_MAX - digit) / 10 {
        TooLarge(s, k + 1);
        return;
      }
      parsed := parsed * 10 + digit;
      k := k + 1;
    }
    DecimalOfValue(s[..k]);
    ok, n, rest := true, parsed, s[k..];
  }

  lemma NoNumber(s: string)
    requires s == "" || !Digit(s[0]) || (s[0] == '0' && |s| > 1 && Digit(s[1]))
    ensures forall m, r :: !StartsWithNumber(s, m, r)
  {
    forall m, r ensures !StartsWithNumber(s, m, r) {
      if StartsWithNumber(s, m, r) { NumberEnds(s, m, r); }
    }
  }

  lemma TooLarge(s: string, k: nat)
    requires k <= |s| && Digits(s[..k]) && Value(s[..k]) > U32_MAX
    ensures forall m, r :: !StartsWithNumber(s, m, r)
  {
    forall m, r ensures !StartsWithNumber(s, m, r) {
      if StartsWithNumber(s, m, r) { RunIsInNumber(s, k, m, r); }
    }
  }

  /* ---- Versions and their texts ---- */

  function Suffix(candidate: Option<U32>): string {
    if candidate.None? then "" else "-rc." + Decimal(candidate.value)
  }

  function PatchText(v: Version): string { Decimal(v.patch) + Suffix(v.candidate) }

  function MinorText(v: Version): string { Decimal(v.minor) + "." + PatchText(v) }

  function Print(v: Version): string { Decimal(v.major) + "." + MinorText(v) }

  /** The one version a text denotes. */
  predicate Denotes(text: string, v: Version) { Proper(v) && text == Print(v) }

  lemma PartsOf(v: Version)
    ensures StartsWithNumber(Print(v), v.major, "." + MinorText(v))
    ensures StartsWithNumber(MinorText(v), v.minor, "." + PatchText(v))
    ensures StartsWithNumber(PatchText(v), v.patch, Suffix(v.candidate))
    ensures v.candidate.Some? ==> StartsWithNumber(Suffix(v.candidate)[4..], v.candidate.value, "")
  {
    assert Print(v) == Decimal(v.major) + ("." + MinorText(v));
    assert MinorText(v) == Decimal(v.minor) + ("." + PatchText(v));
    if v.candidate.Some? { assert Suffix(v.candidate)[4..] == Decimal(v.candidate.value) + ""; }
  }

  method ParseDot(s: string) returns (ok: bool, rest: string)
    ensures ok <==> exists t :: s == "." + t
    ensures ok ==> s == "." + rest
  {
    ok := s != "" && s[0] == '.';
    rest := if ok then s[1..] else s;
    assert ok ==> s == "." + rest;
  }

  method ParseSuffix(s: string) returns (ok: bool, candidate: Option<U32>)
    ensures ok ==> candidate != Some(0) && s == Suffix(candidate)
    ensures !ok ==> forall c: Option<U32> :: c != Some(0) ==> s != Suffix(c)
  {
    ok, candidate := true, None;
    if s == "" { return; }
    ok := |s| >= 4 && s[..4] == "-rc.";
    if !ok {
      assert forall c: Option<U32> :: c.Some? ==> Suffix(c)[..4] == "-rc.";
      return;
    }
    var number, n, rest := ParseNumber(s[4..]);
    ok := number && n != 0 && rest == "";
    if ok {
      candidate := Some(n);
      assert s == s[..4] + s[4..] && s[4..] == Decimal(n);
      return;
    }
    forall c: Option<U32> | c != Some(0) && s == Suffix(c) ensures false {
      assert s[4..] == Decimal(c.value) + "";
      assert StartsWithNumber(s[4..], c.value, "");
      if number { NumberIsUnique(s[4..], n, rest, c.value, ""); }
    }
  }

  /** `parse_version`: accepts exactly the texts of proper versions, and printing undoes it. */
  method ParseVersion(text: string) returns (ok: bool, v: Version)
    ensures ok ==> Denotes(text, v)
    ensures !ok ==> forall w :: !Denotes(text, w)
  {
    v := Version(0, 0, 0, None);
    var n, rest;
    ok, n, rest := ParseNumber(text);
    if !ok { Refused(text); return; }
    v := v.(major := n);
    var afterMajor := rest;
    ok, rest := ParseDot(rest);
    if !ok { RefusedAfterMajor(text, n, afterMajor); return; }
    var minorText := rest;
    ok, n, rest := ParseNumber(rest);
    if !ok { RefusedMinor(text, v.major, minorText); return; }
    v := v.(minor := n);
    var afterMinor := rest;
    ok, rest := ParseDot(rest);
    if !ok { RefusedAfterMinor(text, v.major, minorText, n, afterMinor); return; }
    ok, v := ParsePatch(text, v, minorText, rest);
  }

  method ParsePatch(text: string, v0: Version, minorText: string, patchText: string) returns (ok: bool, v: Version)
    requires StartsWithNumber(text, v0.major, "." + minorText) && StartsWithNumber(minorText, v0.minor, "." + patchText)
    ensures ok ==> Denotes(text, v)
    ensures !ok ==> forall w :: !Denotes(text, w)
  {
    v := v0;
    var n, rest, candidate;
    ok, n, rest := ParseNumber(patchText);
    if ok {
      ok, candidate := ParseSuffix(rest);
      if ok {
        v := Version(v0.major, v0.minor, n, candidate);
        assert text == Print(v);
        return;
      }
    }
    forall w | Denotes(text, w) ensures false {
      SameParts(text, v0.major, minorText, v0.minor, patchText, w);
      PartsOf(w);
      if |patchText| > 0 &&
        StartsWithNumber(patchText, n, rest) { NumberIsUnique(patchText, n, rest, w.patch, Suffix(w.candidate)); }
    }
  }

  lemma Refused(text: string)
    requires forall m, r :: !StartsWithNumber(text, m, r)
    ensures forall w :: !Denotes(text, w)
  {
    forall w | Denotes(text, w) ensures false { PartsOf(w); }
  }

  lemma RefusedAfterMajor(text: string, n: nat, rest: string)
    requires StartsWithNumber(text, n, rest) && !exists t :: rest == "." + t
    ensures forall w :: !Denotes(text, w)
  {
    forall w | Denotes(text, w) ensures false {
      PartsOf(w);
      NumberIsUnique(text, n, rest, w.major, "." + MinorText(w));
    }
  }

  lemma SameMinor(text: string, n: nat, minorText: string, w: Version)
    requires StartsWithNumber(text, n, "." + minorText) && Denotes(text, w)
    ensures w.major == n && MinorText(w) == minorText
  {
    PartsOf(w);
    NumberIsUnique(text, n, "." + minorText, w.major, "." + MinorText(w));
    assert ("." + minorText)[1..] == minorText && ("." + MinorText(w))[1..] == MinorText(w);
  }

  lemma RefusedMinor(text: string, n: nat, minorText: string)
    requires StartsWithNumber(text, n, "." + minorText) && forall m, r :: !StartsWithNumber(minorText, m, r)
    ensures forall w :: !Denotes(text, w)
  {
    forall w | Denotes(text, w) ensures false {
      SameMinor(text, n, minorText, w);
      PartsOf(w);
    }
  }

  lemma RefusedAfterMinor(text: string, major: nat, minorText: string, n: nat, rest: string)
    requires StartsWithNumber(text, major, "." + minorText) && StartsWithNumber(minorText, n, rest) &&
             !exists t :: rest == "." + t
    ensures forall w :: !Denotes(text, w)
  {
    forall w | Denotes(text, w) ensures false {
      SameMinor(text, major, minorText, w);
      PartsOf(w);
      NumberIsUnique(minorText, n, rest, w.minor, "." + PatchText(w));
    }
  }

  lemma SameParts(text: string, major: nat, minorText: string, minor: nat, patchText: string, w: Version)
    requires StartsWithNumber(text, major, "." + minorText) && StartsWithNumber(minorText, minor, "." + patchText) &&
             Denotes(text, w)
    ensures w.major == major && w.minor == minor && PatchText(w) == patchText
  {
    SameMinor(text, major, minorText, w);
    PartsOf(w);
    NumberIsUnique(minorText, minor, "." + patchText, w.minor, "." + PatchText(w));
    assert ("." + patchText)[1..] == patchText && ("." + PatchText(w))[1..] == PatchText(w);
  }

  /** A text denotes at most one version, and different versions print differently. */
  lemma OneVersionPerText(text: string, v: Version, w: Version)
    requires Denotes(text, v) && Denotes(text, w)
    ensures v == w
  {
    PartsOf(v);
    SameParts(text, v.major, MinorText(v), v.minor, PatchText(v), w);
    PartsOf(w);
    NumberIsUnique(PatchText(v), v.patch, Suffix(v.candidate), w.patch, Suffix(w.candidate));
    if v.candidate.Some? && w.candidate.Some? {
      NumberIsUnique(Suffix(v.candidate)[4..], v.candidate.value, "", w.candidate.value, "");
    }
  }

  /* ---- The order ---- */

  datatype Identifier = Numeric(n: nat) | Alphanumeric(s: string)

  function Sign(a: int, b: int): int { if a < b then -1 else if a > b then 1 else 0 }

  function CompareText(s: string, t: string): int {
    if s == "" then (if t == "" then 0 else -1)
    else if t == "" then 1
    else if s[0] != t[0] then Sign(s[0] as int, t[0] as int)
    else CompareText(s[1..], t[1..])
  }

  /** Item 4 of section 11 of Semantic Versioning 2.0.0. */
  function CompareIdentifiers(a: Identifier, b: Identifier): int {
    if a.Numeric? && b.Numeric? then Sign(a.n, b.n)
    else if a.Numeric? then -1
    else if b.Numeric? then 1
    else CompareText(a.s, b.s)
  }

  function CompareFields(a: seq<Identifier>, b: seq<Identifier>): int {
    if a == [] then (if b == [] then 0 else -1)
    else if b == [] then 1
    else if CompareIdentifiers(a[0], b[0]) != 0 then CompareIdentifiers(a[0], b[0])
    else CompareFields(a[1..], b[1..])
  }

  function CompareCores(a: seq<nat>, b: seq<nat>): int
    requires |a| == |b|
  {
    if a == [] then 0 else if a[0] != b[0] then Sign(a[0], b[0]) else CompareCores(a[1..], b[1..])
  }

  /** Precedence by section 11 of Semantic Versioning 2.0.0, of a core and dot-separated pre-release identifiers. */
  function Precedence(core: seq<nat>, pre: seq<Identifier>, core': seq<nat>, pre': seq<Identifier>): int
    requires |core| == |core'|
  {
    if CompareCores(core, core') != 0 then CompareCores(core, core')
    else if pre == [] && pre' == [] then 0
    else if pre == [] then 1
    else if pre' == [] then -1
    else CompareFields(pre, pre')
  }

  function Core(v: Version): seq<nat> { [v.major, v.minor, v.patch] }

  function PreRelease(v: Version): seq<Identifier> {
    if v.candidate.None? then [] else [Alphanumeric("rc"), Numeric(v.candidate.value)]
  }

  function Order(v: Version, w: Version): int { Precedence(Core(v), PreRelease(v), Core(w), PreRelease(w)) }

  lemma {:induction false} TextEqualsItself(s: string)
    ensures CompareText(s, s) == 0
  {
    if s != "" { TextEqualsItself(s[1..]); }
  }

  function CompareNumbers(v: Version, w: Version): int {
    if v.major != w.major then Sign(v.major, w.major)
    else if v.minor != w.minor then Sign(v.minor, w.minor)
    else Sign(v.patch, w.patch)
  }

  lemma CoresCompare(v: Version, w: Version)
    ensures CompareCores(Core(v), Core(w)) == CompareNumbers(v, w)
  {
    assert Core(v) == [v.major] + [v.minor, v.patch] && Core(w) == [w.major] + [w.minor, w.patch];
    assert [v.minor, v.patch] == [v.minor] + [v.patch] && [w.minor, w.patch] == [w.minor] + [w.patch];
    assert [v.patch] == [v.patch] + [] && [w.patch] == [w.patch] + [];
    CoreStep(v.patch, [], w.patch, []);
    CoreStep(v.minor, [v.patch], w.minor, [w.patch]);
    CoreStep(v.major, [v.minor, v.patch], w.major, [w.minor, w.patch]);
  }

  lemma CoreStep(m: nat, a: seq<nat>, n: nat, b: seq<nat>)
    requires |a| == |b|
    ensures CompareCores([m] + a, [n] + b) == if m != n then Sign(m, n) else CompareCores(a, b)
  {
    assert ([m] + a)[1..] == a && ([n] + b)[1..] == b;
  }

  lemma FieldStep(x: Identifier, a: seq<Identifier>, y: Identifier, b: seq<Identifier>)
    ensures CompareFields([x] + a, [y] + b) == if CompareIdentifiers(x, y) != 0 then CompareIdentifiers(x, y)
            else CompareFields(a, b)
  {
    assert ([x] + a)[1..] == a && ([y] + b)[1..] == b;
  }

  lemma CandidatesCompare(m: nat, n: nat)
    ensures CompareFields([Alphanumeric("rc"), Numeric(m)], [Alphanumeric("rc"), Numeric(n)]) == Sign(m, n)
  {
    TextEqualsItself("rc");
    assert [Numeric(m)] == [Numeric(m)] + [] && [Numeric(n)] == [Numeric(n)] + [];
    FieldStep(Numeric(m), [], Numeric(n), []);
    FieldStep(Alphanumeric("rc"), [Numeric(m)], Alphanumeric("rc"), [Numeric(n)]);
    assert [Alphanumeric("rc")] + [Numeric(m)] == [Alphanumeric("rc"), Numeric(m)];
    assert [Alphanumeric("rc")] + [Numeric(n)] == [Alphanumeric("rc"), Numeric(n)];
  }

  /** `compare_versions` is the precedence of Semantic Versioning. */
  method CompareVersions(left: Version, right: Version) returns (r: int)
    ensures r == Order(left, right)
  {
    CoresCompare(left, right);
    var a, b := [left.major, left.minor, left.patch], [right.major, right.minor, right.patch];
    for i := 0 to 3
      invariant forall j :: 0 <= j < i ==> a[j] == b[j]
    {
      if a[i] != b[i] {
        return if a[i] > b[i] then 1 else -1;
      }
    }
    assert a[0] == b[0] && a[1] == b[1] && a[2] == b[2];
    if left.candidate.Some? != right.candidate.Some? {
      return if left.candidate.Some? then -1 else 1;
    }
    if left.candidate.None? || left.candidate.value == right.candidate.value {
      if left.candidate.Some? { CandidatesCompare(left.candidate.value, right.candidate.value); }
      return 0;
    }
    CandidatesCompare(left.candidate.value, right.candidate.value);
    return if left.candidate.value > right.candidate.value then 1 else -1;
  }

  /** What the order comes to. */
  lemma OrderIs(v: Version, w: Version)
    ensures Order(v, w) ==
            if CompareNumbers(v, w) != 0 then CompareNumbers(v, w)
            else if v.candidate.None? && w.candidate.None? then 0
            else if v.candidate.None? then 1
            else if w.candidate.None? then -1
            else Sign(v.candidate.value, w.candidate.value)
  {
    CoresCompare(v, w);
    if v.candidate.Some? && w.candidate.Some? { CandidatesCompare(v.candidate.value, w.candidate.value); }
  }

  /** A strict total order that is zero only on equal versions. */
  lemma OrderIsTotal(u: Version, v: Version, w: Version)
    ensures Order(u, v) == -Order(v, u) && (Order(u, v) == 0 <==> u == v)
    ensures Order(u, v) > 0 && Order(v, w) > 0 ==> Order(u, w) > 0
  {
    OrderIs(u, v);
    OrderIs(v, u);
    OrderIs(v, w);
    OrderIs(u, w);
  }

  /* ---- Upgrades ---- */

  /** The policy: both texts denote versions and the candidate's is the higher one. */
  ghost predicate Upgrades(current: string, candidate: string) {
    exists v, w :: Denotes(current, v) && Denotes(candidate, w) && Order(w, v) > 0
  }

  /** `pm_ota_version_require_upgrade`. */
  method RequireUpgrade(current: string, candidate: string) returns (err: EspErr)
    ensures err == OK <==> Upgrades(current, candidate)
    ensures err == INVALID_ARG <==> (forall v :: !Denotes(current, v)) || (forall v :: !Denotes(candidate, v))
    ensures err == OK || err == INVALID_ARG || err == NOT_SUPPORTED
  {
    var ok, v := ParseVersion(current);
    if !ok { return INVALID_ARG; }
    var ok', w := ParseVersion(candidate);
    if !ok' { return INVALID_ARG; }
    var order := CompareVersions(w, v);
    err := if order > 0 then OK else NOT_SUPPORTED;
    UpgradeDecided(current, v, candidate, w);
  }

  lemma UpgradeDecided(current: string, v: Version, candidate: string, w: Version)
    requires Denotes(current, v) && Denotes(candidate, w)
    ensures Upgrades(current, candidate) <==> Order(w, v) > 0
  {
    if Upgrades(current, candidate) {
      var v', w' :| Denotes(current, v') && Denotes(candidate, w') && Order(w', v') > 0;
      OneVersionPerText(current, v, v');
      OneVersionPerText(candidate, w, w');
    }
  }

  ghost predicate UpgradeAt(texts: seq<string>, k: nat)
    requires 0 < k < |texts|
  {
    Upgrades(texts[k - 1], texts[k])
  }

  /**
   Versions strictly increase along every run of accepted upgrades, so no version is ever installed a second time.
   */
  lemma {:induction false} UpgradesIncrease(texts: seq<string>, i: nat, j: nat)
    requires i < j < |texts| && forall k | 0 < k < |texts| :: UpgradeAt(texts, k)
    ensures Upgrades(texts[i], texts[j]) && texts[i] != texts[j]
    decreases j
  {
    assert UpgradeAt(texts, j);
    if i < j - 1 {
      UpgradesIncrease(texts, i, j - 1);
      UpgradesCompose(texts[i], texts[j - 1], texts[j]);
    }
    UpgradeDiffers(texts[i], texts[j]);
  }

  lemma UpgradesCompose(a: string, b: string, c: string)
    requires Upgrades(a, b) && Upgrades(b, c)
    ensures Upgrades(a, c)
  {
    var u, v :| Denotes(a, u) && Denotes(b, v) && Order(v, u) > 0;
    var v', w :| Denotes(b, v') && Denotes(c, w) && Order(w, v') > 0;
    OneVersionPerText(b, v, v');
    OrderIsTotal(w, v, u);
  }

  lemma UpgradeDiffers(a: string, b: string)
    requires Upgrades(a, b)
    ensures a != b
  {
    var u, v :| Denotes(a, u) && Denotes(b, v) && Order(v, u) > 0;
    OrderIsTotal(v, u, u);
    if a == b { OneVersionPerText(a, u, v); }
  }
}
