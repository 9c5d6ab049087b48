/** Finding a version in `--version` output, comparing versions, and choosing driver releases. */
module Versions {
  import opened Wrappers
  import opened Strings

  // ----- scanning a version -----

  predicate IsDigit(c: char) { '0' <= c <= '9' }

  predicate IsVersionChar(c: char) { IsDigit(c) || c == '.' }

  /** Only dots lie between the start of a run of digits and dots and position `i`. */
  ghost predicate AfterLeadingDots(s: string, i: nat)
    requires i <= |s|
  {
    i == 0 || !IsVersionChar(s[i - 1]) || (s[i - 1] == '.' && AfterLeadingDots(s, i - 1))
  }

  /** A maximal run of digits and dots, without its leading dots, that holds a dot. */
  ghost predicate DottedRun(s: string, from: nat, to: nat) {
    && from < to <= |s|
    && IsDigit(s[from]) && AfterLeadingDots(s, from)
    && (forall k | from <= k < to :: IsVersionChar(s[k]))
    && (to == |s| || !IsVersionChar(s[to]))
    && '.' in s[from..to]
  }

  function TrimDots(s: string): (r: string)
    ensures r <= s && (r != [] ==> r[|r| - 1] != '.')
    ensures forall k | |r| <= k < |s| :: s[k] == '.'
  {
    if s != [] && s[|s| - 1] == '.' then TrimDots(s[..|s| - 1]) else s
  }

  /** What `parse_version` promises: the first dotted run without its trailing dots. */
  ghost predicate IsParsed(s: string, r: Option<string>) {
    match r
    case None => forall from: nat, to: nat :: !DottedRun(s, from, to)
    case Some(v) => exists from: nat, to: nat :: IsFirst(s, from, to) && v == TrimDots(s[from..to])
  }

  ghost predicate IsFirst(s: string, from: nat, to: nat) {
    DottedRun(s, from, to) && forall f: nat, t: nat | DottedRun(s, f, t) :: from <= f
  }

  method ParseVersion(s: string) returns (r: Option<string>)
    ensures IsParsed(s, r)
  {
    var i: nat := 0;
    while i < |s|
      invariant i <= |s|
      invariant i == |s| || !IsVersionChar(s[i]) || AfterLeadingDots(s, i)
      invariant forall f: nat, t: nat | DottedRun(s, f, t) :: i <= f
    {
      if !IsDigit(s[i]) {
        assert forall t: nat :: !DottedRun(s, i, t);
        i := i + 1;
        continue;
      }
      var start: nat := i;
      var buf: string := [];
      while i < |s| && IsVersionChar(s[i])
        invariant start <= i <= |s| && buf == s[start..i]
        invariant forall k | start <= k < i :: IsVersionChar(s[k])
        invariant i > start || IsVersionChar(s[i])
      {
        buf := buf + [s[i]];
        i := i + 1;
      }
      if '.' in buf && IsDigit(buf[0]) {
        assert IsFirst(s, start, i);
        return Some(TrimDots(buf));
      }
      NoLaterStart(s, start, i);
    }
    return None;
  }

  /** Inside a run without dots no dotted run starts. */
  lemma NoLaterStart(s: string, start: nat, end: nat)
    requires start < end <= |s| && '.' !in s[start..end] && (end == |s| || !IsVersionChar(s[end]))
    requires forall k | start <= k < end :: IsVersionChar(s[k])
    ensures forall f: nat, t: nat | start <= f < end :: !DottedRun(s, f, t)
  {
    assert forall k | start <= k < end :: s[k] == s[start..end][k - start];
    forall f: nat, t: nat | start <= f < end
      ensures !DottedRun(s, f, t)
    {
      if f > start {
        assert IsDigit(s[f - 1]);
      } else if start < t < end {
        assert IsVersionChar(s[t]);
      }
    }
  }

  /** At most one result fits. */
  lemma ParsedUnique(s: string, a: Option<string>, b: Option<string>)
    requires IsParsed(s, a) && IsParsed(s, b)
    ensures a == b
  {
    hide AfterLeadingDots, TrimDots;
    if a.Some? && b.Some? {
      var f: nat, t: nat :| IsFirst(s, f, t) && a.value == TrimDots(s[f..t]);
      var g: nat, u: nat :| IsFirst(s, g, u) && b.value == TrimDots(s[g..u]);
      RunEndsOnce(s, f, t, u);
    }
  }

  lemma RunEndsOnce(s: string, from: nat, t: nat, u: nat)
    requires DottedRun(s, from, t) && DottedRun(s, from, u)
    ensures t == u
  {
    hide AfterLeadingDots, IsVersionChar;
  }

  /** A found version starts and ends with a digit, so its major version is a nonempty digit string. */
  lemma ParsedShape(s: string, v: string)
    requires IsParsed(s, Some(v))
    ensures v != [] && IsDigit(v[0]) && IsDigit(v[|v| - 1]) && forall c | c in v :: IsVersionChar(c)
    ensures Major(v) != [] && Major(v) <= v && forall c | c in Major(v) :: IsDigit(c)
  {
    var from: nat, to: nat :| IsFirst(s, from, to) && v == TrimDots(s[from..to]);
    var run := s[from..to];
    assert run[0] == s[from];
    assert v == run[..|v|];
    assert forall k | 0 <= k < |v| :: v[k] == s[from + k];
    MajorIsFirst(v);
    assert forall c | c in Major(v) :: c in v;
  }

  /** A dotted version after text without dots, which does not end in a digit, is found unchanged,
      whatever follows it, if that does not go on with a digit or a dot. */
  lemma VersionRecovered(before: string, v: string, after: string)
    requires v != [] && IsDigit(v[0]) && IsDigit(v[|v| - 1]) && '.' in v && forall c | c in v :: IsVersionChar(c)
    requires '.' !in before && (before == [] || !IsDigit(before[|before| - 1]))
    requires after == [] || !IsVersionChar(after[0])
    ensures IsParsed(before + v + after, Some(v))
  {
    var s := before + v + after;
    var from, to := |before|, |before| + |v|;
    assert s[from..to] == v;
    assert forall k | from <= k < to :: s[k] in v;
    assert to < |s| ==> s[to] == after[0];
    assert from > 0 ==> s[from - 1] in before;
    assert DottedRun(s, from, to);
    forall f: nat, t: nat | DottedRun(s, f, t)
      ensures from <= f
    {
      if f < from {
        NoDotBefore(before, v + after, f, t);
      }
    }
    TrimmedAlready(v);
    assert IsFirst(s, from, to);
  }

  lemma NoDotBefore(before: string, rest: string, f: nat, t: nat)
    requires '.' !in before && before != [] && !IsDigit(before[|before| - 1]) && f < |before|
    ensures !DottedRun(before + rest, f, t)
  {
    var s := before + rest;
    assert forall k | 0 <= k < |before| :: s[k] == before[k] && s[k] in before;
    if f < t < |before| {
      assert s[f..t] == before[f..t];
      assert forall c | c in before[f..t] :: c in before;
    } else if |before| <= t <= |s| {
      assert !IsVersionChar(s[|before| - 1]);
    }
  }

  lemma TrimmedAlready(v: string)
    requires v != [] && v[|v| - 1] != '.'
    ensures TrimDots(v) == v
  {
  }

  function Major(version: string): string {
    Split(version, '.')[0]
  }

  lemma MajorIsFirst(v: string)
    ensures Major(v) == v[..IndexOf(v, '.')] && '.' !in Major(v)
    ensures v != [] && v[0] != '.' ==> Major(v) != []
  {
    var i := IndexOf(v, '.');
    assert i == |v| ==> v[..i] == v;
  }

  // ----- comparing versions -----

  const U32: nat := 0x1_0000_0000

  function Digit(c: char): nat
    requires IsDigit(c)
  {
    c as int - '0' as int
  }

  predicate AllDigits(s: string) {
    forall i | 0 <= i < |s| :: IsDigit(s[i])
  }

  function Value(digits: string): nat
    requires AllDigits(digits)
  {
    if digits == [] then 0 else 10 * Value(digits[..|digits| - 1]) + Digit(digits[|digits| - 1])
  }

  /** `str::parse::<u32>`: an optional plus sign and at least one digit, below 2^32. */
  function ParseU32(s: string): Option<nat> {
    var digits := if s != [] && s[0] == '+' then s[1..] else s;
    if digits == [] || !AllDigits(digits) then None
    else if Value(digits) >= U32 then None
    else Some(Value(digits))
  }

  function Pow10(k: nat): (p: nat)
    ensures p > 0
  {
    if k == 0 then 1 else 10 * Pow10(k - 1)
  }

  /** The value in decimal: each digit stands at its power of ten, and there is nothing above the first one. */
  lemma {:induction false} ValueIsDecimal(digits: string)
    requires AllDigits(digits)
    ensures Value(digits) < Pow10(|digits|)
    ensures forall i | 0 <= i < |digits| :: Value(digits) / Pow10(|digits| - 1 - i) % 10 == Digit(digits[i])
  {
    if digits != [] {
      var n := |digits| - 1;
      var front := digits[..n];
      ValueIsDecimal(front);
      forall i | 0 <= i <= n ensures Value(digits) / Pow10(n - i) % 10 == Digit(digits[i]) {
        if i < n {
          DropDigit(Value(front), Digit(digits[n]), Pow10(n - 1 - i));
          assert digits[i] == front[i];
        }
      }
    }
  }

  lemma DropDigit(v: nat, d: nat, p: nat)
    requires d < 10 && p > 0
    ensures (10 * v + d) / (10 * p) == v / p
  {
    var q, r := v / p, v % p;
    assert v == q * p + r;
    assert 10 * v + d == q * (10 * p) + (10 * r + d);
    Quotient(10 * v + d, 10 * p, q, 10 * r + d);
  }

  lemma Quotient(n: nat, p: nat, q: nat, r: nat)
    requires n == q * p + r && r < p
    ensures n / p == q
  {
    var m, t := n / p, n % p;
    assert n == m * p + t;
    if m < q {
      Multiples(m + 1, q, p);
      Multiples(m, m + 1, p);
    } else if m > q {
      Multiples(q + 1, m, p);
      Multiples(q, q + 1, p);
    }
  }

  lemma Multiples(a: nat, b: nat, p: nat)
    requires a <= b
    ensures a * p <= b * p && (a + 1) * p == a * p + p
  {
    assert b * p == a * p + (b - a) * p;
  }

  /** A number in decimal, without leading zeros. */
  function Decimal(n: nat): (s: string)
    ensures s != [] && AllDigits(s)
  {
    var last := ['0' + (n % 10) as char];
    if n < 10 then last else Decimal(n / 10) + last
  }

  lemma {:induction false} DecimalValue(n: nat)
    ensures Value(Decimal(n)) == n
  {
    var s := Decimal(n);
    if n < 10 {
      assert s[..0] == [];
    } else {
      DecimalValue(n / 10);
      assert s[..|s| - 1] == Decimal(n / 10);
    }
  }

  /** Exactly the numbers below 2^32 are read back from their decimal text, with or without a plus sign. */
  lemma ParseDecimal(n: nat)
    ensures ParseU32(Decimal(n)) == ParseU32("+" + Decimal(n)) == if n < 4294967296 then Some(n) else None
  {
    DecimalValue(n);
    hide Value;
    assert ("+" + Decimal(n))[1..] == Decimal(n);
    assert IsDigit(Decimal(n)[0]);
  }

  function NumberOr0(s: string): nat {
    var n := ParseU32(s);
    if n.Some? then n.value else 0
  }

  function Numbers(pieces: seq<string>): (r: seq<nat>)
    ensures |r| == |pieces| && forall i | 0 <= i < |r| :: r[i] == NumberOr0(pieces[i])
  {
    if pieces == [] then [] else [NumberOr0(pieces[0])] + Numbers(pieces[1..])
  }

  function Key(version: string): seq<nat> {
    Numbers(Split(version, '.'))
  }

  datatype Ordering = Less | Equal | Greater

  /** Lexicographic, a proper prefix first. */
  function Compare(a: seq<nat>, b: seq<nat>): Ordering {
    if a == [] then (if b == [] then Equal else Less)
    else if b == [] then Greater
    else if a[0] != b[0] then (if a[0] < b[0] then Less else Greater)
    else Compare(a[1..], b[1..])
  }

  /** Where two sequences part: one of them ends there, or has the smaller number. */
  ghost predicate PartsAt(a: seq<nat>, b: seq<nat>, k: nat) {
    k <= |a| && k < |b| && a[..k] == b[..k] && (k == |a| || a[k] < b[k])
  }

  lemma PartsLater(a: seq<nat>, b: seq<nat>, k: nat)
    requires a != [] && b != []
    ensures PartsAt(a, b, k + 1) <==> a[0] == b[0] && PartsAt(a[1..], b[1..], k)
  {
    if k + 1 <= |a| && k + 1 < |b| {
      assert a[..k + 1] == [a[0]] + a[1..][..k] && b[..k + 1] == [b[0]] + b[1..][..k];
      if a[..k + 1] == b[..k + 1] {
        assert a[..k + 1][0] == b[..k + 1][0] && a[..k + 1][1..] == a[1..][..k] && b[..k + 1][1..] == b[1..][..k];
      }
    }
  }

  lemma {:induction false} LessParts(a: seq<nat>, b: seq<nat>) returns (k: nat)
    requires Compare(a, b) == Less
    ensures PartsAt(a, b, k)
  {
    if a == [] || a[0] != b[0] {
      k := 0;
    } else {
      var n := LessParts(a[1..], b[1..]);
      PartsLater(a, b, n);
      k := n + 1;
    }
  }

  lemma {:induction false} PartsLess(a: seq<nat>, b: seq<nat>, k: nat)
    requires PartsAt(a, b, k)
    ensures Compare(a, b) == Less
  {
    if k > 0 {
      PartsLater(a, b, k - 1);
      PartsLess(a[1..], b[1..], k - 1);
    }
  }

  /** The order of two versions' numbers is decided where they first differ; the one that ends first comes first. */
  lemma CompareMeans(a: seq<nat>, b: seq<nat>)
    ensures Compare(a, b) == Less <==> exists k: nat :: PartsAt(a, b, k)
  {
    hide Compare, PartsAt;
    if Compare(a, b) == Less {
      var k := LessParts(a, b);
    }
    forall k: nat | PartsAt(a, b, k) ensures Compare(a, b) == Less {
      PartsLess(a, b, k);
    }
  }

  function SortSemver(a: string, b: string): Ordering {
    Compare(Key(a), Key(b))
  }

  predicate Le(a: seq<nat>, b: seq<nat>) {
    Compare(a, b) != Greater
  }

  lemma {:induction false} CompareFlips(a: seq<nat>, b: seq<nat>)
    ensures Compare(a, b) == Less <==> Compare(b, a) == Greater
    ensures Compare(a, b) == Equal <==> a == b
  {
    if a != [] && b != [] {
      CompareFlips(a[1..], b[1..]);
      assert a == [a[0]] + a[1..] && b == [b[0]] + b[1..];
    }
  }

  lemma {:induction false} CompareTransitive(a: seq<nat>, b: seq<nat>, c: seq<nat>)
    requires Le(a, b) && Le(b, c)
    ensures Le(a, c)
    ensures Compare(a, c) == Equal ==> Compare(a, b) == Equal
  {
    CompareFlips(a, b);
    CompareFlips(a, c);
    if a != [] && b != [] && c != [] && a[0] == b[0] == c[0] {
      CompareTransitive(a[1..], b[1..], c[1..]);
      CompareFlips(a[1..], b[1..]);
    }
  }

  /** The order of versions is total and transitive, and both ways round it agrees; two versions are
      equivalent exactly when their numbers are equal, which different texts can be. */
  lemma SortSemverIsTotalPreorder(a: string, b: string, c: string)
    ensures SortSemver(a, b) != Greater || SortSemver(b, a) != Greater
    ensures SortSemver(a, b) == Less <==> SortSemver(b, a) == Greater
    ensures SortSemver(a, b) != Greater && SortSemver(b, c) != Greater ==> SortSemver(a, c) != Greater
    ensures SortSemver(a, b) == Equal <==> Key(a) == Key(b)
  {
    CompareFlips(Key(a), Key(b));
    if SortSemver(a, b) != Greater && SortSemver(b, c) != Greater {
      CompareTransitive(Key(a), Key(b), Key(c));
    }
  }

  // ----- resolving a Chrome version -----

  /** A stable sort: an element goes behind everything not greater than it. */
  function Insert(sorted: seq<string>, x: string): (r: seq<string>)
    ensures |r| == |sorted| + 1
  {
    if sorted == [] || SortSemver(sorted[|sorted| - 1], x) != Greater then sorted + [x]
    else Insert(sorted[..|sorted| - 1], x) + [sorted[|sorted| - 1]]
  }

  function Sort(s: seq<string>): (r: seq<string>)
    ensures |r| == |s|
  {
    if s == [] then [] else Insert(Sort(s[..|s| - 1]), s[|s| - 1])
  }

  predicate Ordered(s: seq<string>) {
    forall i, j | 0 <= i < j < |s| :: SortSemver(s[i], s[j]) != Greater
  }

  /** The elements equivalent to a key, in order. */
  function OfKey(s: seq<string>, key: seq<nat>): seq<string> {
    if s == [] then []
    else OfKey(s[..|s| - 1], key) + (if Key(s[|s| - 1]) == key then [s[|s| - 1]] else [])
  }

  lemma {:induction false} InsertOrdered(sorted: seq<string>, x: string)
    requires Ordered(sorted)
    ensures Ordered(Insert(sorted, x)) && multiset(Insert(sorted, x)) == multiset(sorted) + multiset{x}
  {
    hide SortSemver, Ordered;
    if sorted == [] || SortSemver(sorted[|sorted| - 1], x) != Greater {
      InsertLast(sorted, x);
    } else {
      var front, last := sorted[..|sorted| - 1], sorted[|sorted| - 1];
      assert sorted == front + [last];
      OrderedFront(front, last);
      InsertOrdered(front, x);
      SortSemverIsTotalPreorder(last, x, x);
      InsertBelow(front, x, last);
    }
  }

  lemma OrderedFront(front: seq<string>, last: string)
    requires Ordered(front + [last])
    ensures Ordered(front)
  {
    var s := front + [last];
    assert forall i | 0 <= i < |front| :: s[i] == front[i];
  }

  lemma {:induction false} InsertKeepsKeys(sorted: seq<string>, x: string, key: seq<nat>)
    ensures OfKey(Insert(sorted, x), key) == OfKey(sorted, key) + if Key(x) == key then [x] else []
  {
    hide SortSemver, Key;
    if sorted == [] || SortSemver(sorted[|sorted| - 1], x) != Greater {
      OfKeySnoc(sorted, x, key);
    } else {
      var front, last := sorted[..|sorted| - 1], sorted[|sorted| - 1];
      assert sorted == front + [last];
      InsertKeepsKeys(front, x, key);
      OfKeySnoc(Insert(front, x), last, key);
      OfKeySnoc(front, last, key);
      GreaterDiffers(last, x);
    }
  }

  lemma OfKeySnoc(front: seq<string>, last: string, key: seq<nat>)
    ensures OfKey(front + [last], key) == OfKey(front, key) + if Key(last) == key then [last] else []
  {
    hide Key;
    assert (front + [last])[..|front|] == front;
  }

  lemma GreaterDiffers(a: string, b: string)
    requires SortSemver(a, b) == Greater
    ensures Key(a) != Key(b)
  {
    CompareFlips(Key(a), Key(b));
  }

  lemma InsertLast(sorted: seq<string>, x: string)
    requires Ordered(sorted) && (sorted == [] || SortSemver(sorted[|sorted| - 1], x) != Greater)
    ensures Ordered(sorted + [x])
  {
    hide SortSemver;
    forall i | 0 <= i < |sorted|
      ensures SortSemver(sorted[i], x) != Greater
    {
      SortSemverIsTotalPreorder(sorted[i], sorted[|sorted| - 1], x);
    }
  }

  lemma InsertBelow(front: seq<string>, x: string, last: string)
    requires Ordered(front + [last]) && SortSemver(x, last) != Greater
    requires Ordered(Insert(front, x)) && multiset(Insert(front, x)) == multiset(front) + multiset{x}
    ensures Ordered(Insert(front, x) + [last])
  {
    hide SortSemver, Insert;
    var s := Insert(front, x);
    forall i | 0 <= i < |s|
      ensures SortSemver(s[i], last) != Greater
    {
      assert s[i] in multiset(s);
      if s[i] != x {
        assert s[i] in front;
        var j :| 0 <= j < |front| && front[j] == s[i];
        assert (front + [last])[j] == s[i] && (front + [last])[|front|] == last;
      }
    }
  }

  /** `sort_by` as the standard library promises it: ordered, a permutation, equivalent elements in place. */
  lemma {:induction false} SortIsStable(s: seq<string>, key: seq<nat>)
    ensures Ordered(Sort(s)) && multiset(Sort(s)) == multiset(s)
    ensures OfKey(Sort(s), key) == OfKey(s, key)
  {
    hide SortSemver, Key, Insert;
    if s != [] {
      SortIsStable(s[..|s| - 1], key);
      InsertOrdered(Sort(s[..|s| - 1]), s[|s| - 1]);
      InsertKeepsKeys(Sort(s[..|s| - 1]), s[|s| - 1], key);
      assert s == s[..|s| - 1] + [s[|s| - 1]];
    }
  }

  function OfMajor(index: seq<string>, m: string): seq<string> {
    if index == [] then []
    else OfMajor(index[..|index| - 1], m) + (if Major(index[|index| - 1]) == m then [index[|index| - 1]] else [])
  }

  lemma {:induction false} OfMajorAll(index: seq<string>, m: string)
    ensures forall v :: v in OfMajor(index, m) <==> v in index && Major(v) == m
  {
    hide Major;
    if index != [] {
      OfMajorAll(index[..|index| - 1], m);
      assert index == index[..|index| - 1] + [index[|index| - 1]];
    }
  }

  /** `resolve_chrome_exact` on a fetched index; no result is the error. */
  method ResolveChromeExact(index: seq<string>, version: string) returns (r: Option<string>)
    ensures '.' in version && version in index ==> r == Some(version)
    ensures !('.' in version && version in index) ==>
              r == if OfMajor(index, Major(version)) == [] then None
                   else Some(Sort(OfMajor(index, Major(version)))[|OfMajor(index, Major(version))| - 1])
  {
    if '.' in version {
      for i := 0 to |index|
        invariant version !in index[..i]
      {
        if index[i] == version {
          return Some(version);
        }
      }
      assert index[..|index|] == index;
    }
    var m := Major(version);
    var found: seq<string> := [];
    for i := 0 to |index|
      invariant found == OfMajor(index[..i], m)
    {
      assert index[..i + 1][..i] == index[..i];
      if Major(index[i]) == m {
        found := found + [index[i]];
      }
    }
    assert index[..|index|] == index;
    found := Sort(found);
    if found != [] {
      r := Some(found[|found| - 1]);
    } else {
      r := None;
    }
  }

  /** The fallback picks an indexed version of the same major version that no other one exceeds, and it is
      the last indexed one among its equivalents. */
  lemma FallbackIsMaximum(index: seq<string>, m: string)
    requires OfMajor(index, m) != []
    ensures var r := Sort(OfMajor(index, m))[|OfMajor(index, m)| - 1];
            && r in index && Major(r) == m
            && (forall v | v in index && Major(v) == m :: SortSemver(v, r) != Greater)
            && (var same := OfKey(OfMajor(index, m), Key(r)); same != [] && same[|same| - 1] == r)
  {
    hide SortSemver, Key, Major, Sort;
    var found := OfMajor(index, m);
    var sorted := Sort(found);
    var r := sorted[|sorted| - 1];
    SortIsStable(found, Key(r));
    OfMajorAll(index, m);
    assert r in multiset(sorted);
    assert r in found;
    forall v | v in index && Major(v) == m
      ensures SortSemver(v, r) != Greater
    {
      assert v in multiset(found);
      assert v in sorted;
      var i :| 0 <= i < |sorted| && sorted[i] == v;
      SortSemverIsTotalPreorder(v, r, r);
      EqualToItself(v);
    }
  }

  lemma EqualToItself(v: string)
    ensures SortSemver(v, v) == Equal
  {
    CompareFlips(Key(v), Key(v));
  }

  lemma FallbackFailsIff(index: seq<string>, m: string)
    ensures OfMajor(index, m) == [] <==> forall v | v in index :: Major(v) != m
  {
    OfMajorAll(index, m);
    if OfMajor(index, m) != [] {
      assert OfMajor(index, m)[0] in OfMajor(index, m);
    }
  }

  // ----- the geckodriver table -----

  datatype Release = Release(version: string, minFirefox: nat, maxFirefox: Option<nat>)

  const RELEASES: seq<Release> := [
    Release("0.36.0", 128, None),
    Release("0.35.0", 115, None),
    Release("0.34.0", 115, None),
    Release("0.33.0", 102, Some(120)),
    Release("0.32.2", 102, Some(120)),
    Release("0.31.0", 91, Some(120)),
    Release("0.30.0", 78, Some(90)),
    Release("0.29.1", 60, Some(90))
  ]

  predicate Supports(r: Release, firefox: nat) {
    firefox >= r.minFirefox && (r.maxFirefox.None? || firefox <= r.maxFirefox.value)
  }

  function FirstSupporting(table: seq<Release>, firefox: nat): Option<string> {
    if table == [] then None
    else if Supports(table[0], firefox) then Some(table[0].version)
    else FirstSupporting(table[1..], firefox)
  }

  function GeckodriverForFirefox(firefoxVersion: string): Option<string> {
    FirstSupporting(RELEASES, NumberOr0(Major(firefoxVersion)))
  }

  ghost predicate Descending(table: seq<Release>) {
    forall i, j | 0 <= i < j < |table| :: SortSemver(table[j].version, table[i].version) == Less
  }

  /** In a table sorted downwards the first match is the greatest match. */
  lemma {:induction false} FirstIsGreatest(table: seq<Release>, firefox: nat)
    requires Descending(table)
    ensures var r := FirstSupporting(table, firefox);
            && (r.None? <==> forall e | e in table :: !Supports(e, firefox))
            && (r.Some? ==>
                 && (exists e :: e in table && Supports(e, firefox) && e.version == r.value)
                 && forall e | e in table && Supports(e, firefox) :: SortSemver(e.version, r.value) != Greater)
  {
    hide SortSemver, Supports;
    if table != [] {
      var e0 := table[0];
      assert table == [e0] + table[1..];
      FirstIsGreatest(table[1..], firefox);
      EqualToItself(e0.version);
      if Supports(e0, firefox) {
        assert e0 in table;
        forall e | e in table && Supports(e, firefox)
          ensures SortSemver(e.version, e0.version) != Greater
        {
          var j :| 0 <= j < |table| && table[j] == e;
        }
      }
    }
  }

  lemma ThreeNumbers(a: string, b: string, c: string)
    requires '.' !in a && '.' !in b && '.' !in c
    ensures Key(a + "." + b + "." + c) == [NumberOr0(a), NumberOr0(b), NumberOr0(c)]
  {
    hide NumberOr0, Split;
    var pieces := [a, b, c];
    assert pieces[1..] == [b, c] && [b, c][1..] == [c];
    assert Join([c], '.') == c && Join([b, c], '.') == b + ['.'] + c;
    assert Join(pieces, '.') == a + ['.'] + (b + ['.'] + c);
    assert a + "." + b + "." + c == Join(pieces, '.');
    SplitJoin(pieces, '.');
  }

  lemma OneDigit(c: char)
    requires IsDigit(c)
    ensures NumberOr0([c]) == Digit(c)
  {
    assert [c][..0] == [];
    assert Value([c]) == Digit(c);
  }

  lemma TwoDigits(c: char, d: char)
    requires IsDigit(c) && IsDigit(d)
    ensures NumberOr0([c, d]) == 10 * Digit(c) + Digit(d)
  {
    assert [c, d][..1] == [c] && [c][..0] == [];
    assert Value([c]) == Digit(c);
    assert Value([c, d]) == 10 * Digit(c) + Digit(d);
  }

  lemma ReleaseKey(tens: char, ones: char, patch: char)
    requires IsDigit(tens) && IsDigit(ones) && IsDigit(patch)
    ensures Key("0." + [tens, ones] + "." + [patch]) ==
            [0, 10 * Digit(tens) + Digit(ones), Digit(patch)]
  {
    hide NumberOr0, Key;
    ThreeNumbers("0", [tens, ones], [patch]);
    OneDigit('0');
    OneDigit(patch);
    TwoDigits(tens, ones);
    assert "0" + "." == "0.";
  }

  lemma ReleaseKeys(i: nat)
    requires i < |RELEASES|
    ensures |Key(RELEASES[i].version)| == 3 && Key(RELEASES[i].version)[..2] == [0, 36 - i]
  {
    hide Key;
    var tens := if i < 7 then '3' else '2';
    var ones := if i < 7 then "6543210"[i] else '9';
    var patch := if i == 4 then '2' else if i == 7 then '1' else '0';
    ReleaseKey(tens, ones, patch);
    assert RELEASES[i].version == "0." + [tens, ones] + "." + [patch];
  }

  lemma CompareMinor(a: seq<nat>, b: seq<nat>, m: nat, n: nat)
    requires |a| == |b| == 3 && a[..2] == [0, m] && b[..2] == [0, n] && m < n
    ensures Compare(a, b) == Less
  {
    assert a[0] == a[..2][0] && a[1] == a[..2][1] && b[0] == b[..2][0] && b[1] == b[..2][1];
    assert a[1..][0] == m && b[1..][0] == n;
  }

  lemma ReleasesDescending()
    ensures Descending(RELEASES)
  {
    hide Key;
    forall i: nat, j: nat | i < j < |RELEASES|
      ensures SortSemver(RELEASES[j].version, RELEASES[i].version) == Less
    {
      ReleaseKeys(i);
      ReleaseKeys(j);
      CompareMinor(Key(RELEASES[j].version), Key(RELEASES[i].version), 36 - j, 36 - i);
    }
  }

  /** The table scan gives the greatest release that supports the Firefox version, and there is one exactly
      for a major version that is a number from 60 up. */
  lemma GeckodriverIsBest(firefoxVersion: string)
    ensures var r := GeckodriverForFirefox(firefoxVersion);
            var m := ParseU32(Major(firefoxVersion));
            && (r.Some? <==> m.Some? && m.value >= 60)
            && (r.Some? ==>
                 && (exists e :: e in RELEASES && Supports(e, m.value) && e.version == r.value)
                 && forall e | e in RELEASES && Supports(e, m.value) :: SortSemver(e.version, r.value) != Greater)
  {
    hide ParseU32, Major, SortSemver, FirstSupporting;
    ReleasesDescending();
    FirstIsGreatest(RELEASES, NumberOr0(Major(firefoxVersion)));
    TableCovers(NumberOr0(Major(firefoxVersion)));
  }

  /** The release for each range of Firefox major versions; a version that does not start with a number counts as 0. */
  lemma ReleaseFor(firefoxVersion: string)
    ensures var m := ParseU32(Major(firefoxVersion));
            GeckodriverForFirefox(firefoxVersion) ==
            if m.None? || m.value < 60 then None
            else Some(if m.value < 78 then "0.29.1" else if m.value < 91 then "0.30.0" else if m.value < 102 then "0.31.0"
                      else if m.value < 115 then "0.33.0" else if m.value < 128 then "0.35.0" else "0.36.0")
  {
    hide ParseU32, Major, FirstSupporting;
    FirstOf(NumberOr0(Major(firefoxVersion)));
  }

  lemma FirstOf(m: nat)
    ensures FirstSupporting(RELEASES, m) ==
            if m < 60 then None
            else Some(if m < 78 then "0.29.1" else if m < 91 then "0.30.0" else if m < 102 then "0.31.0"
                      else if m < 115 then "0.33.0" else if m < 128 then "0.35.0" else "0.36.0")
  {
    var k := if m >= 128 then 0 else if m >= 115 then 1 else if m >= 102 then 3 else if m >= 91 then 5
             else if m >= 78 then 6 else if m >= 60 then 7 else 8;
    FirstAt(RELEASES, m, k);
  }

  lemma {:induction false} FirstAt(table: seq<Release>, firefox: nat, k: nat)
    requires k <= |table| && (forall i | 0 <= i < k :: !Supports(table[i], firefox))
    requires k < |table| ==> Supports(table[k], firefox)
    ensures FirstSupporting(table, firefox) == if k < |table| then Some(table[k].version) else None
  {
    if k > 0 {
      FirstAt(table[1..], firefox, k - 1);
    }
  }

  lemma TableCovers(firefox: nat)
    ensures firefox >= 60 <==> exists e :: e in RELEASES && Supports(e, firefox)
  {
    assert RELEASES[7] in RELEASES && RELEASES[5] in RELEASES && RELEASES[1] in RELEASES;
    if firefox <= 90 {
      assert firefox >= 60 ==> Supports(RELEASES[7], firefox);
    } else if firefox <= 120 {
      assert Supports(RELEASES[5], firefox);
    } else {
      assert Supports(RELEASES[1], firefox);
    }
  }
}
