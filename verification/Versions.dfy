// The hand-written version order of the npm bootstrap, and the plain semantic
// order of the release-notes tool.
module Versions {
  import opened Basics
  import opened Decimals

  // What JavaScript's Number(...) can return for a version part. A part holds
  // neither "-" (cut off with the prerelease) nor ".", so it is never negative
  // or fractional.
  datatype JsNumber = NaN | Infinity | Finite(n: nat)

  // Number(...) itself is not modelled: every result below holds for any
  // reading of the parts, the numeric ones for any that reads numerals as
  // decimals.
  type Reading = string -> JsNumber

  ghost predicate ReadsDecimals(num: Reading) {
    forall s :: IsNumeral(s) ==> num(s) == Finite(Value(s))
  }

  function IndexOf(s: string, c: char): (i: int)
    ensures -1 <= i < |s|
    ensures i == -1 <==> c !in s
    ensures i >= 0 ==> s[i] == c && forall j | 0 <= j < i :: s[j] != c
  {
    if s == [] then -1
    else if s[0] == c then 0
    else
      var i := IndexOf(s[1..], c);
      if i == -1 then -1 else i + 1
  }

  function Split(s: string, c: char): seq<string> {
    var i := IndexOf(s, c);
    if i == -1 then [s] else [s[..i]] + Split(s[i + 1..], c)
  }

  function Core(version: string): string {
    var i := IndexOf(version, '-');
    if i == -1 then version else version[..i]
  }

  function Prerelease(version: string): Option<string> {
    var i := IndexOf(version, '-');
    if i == -1 then None else Some(version[i + 1..])
  }

  function ReadParts(num: Reading, parts: seq<string>): (r: seq<JsNumber>)
    ensures |r| == |parts| && forall i | 0 <= i < |r| :: r[i] == num(parts[i])
  {
    if parts == [] then [] else [num(parts[0])] + ReadParts(num, parts[1..])
  }

  function ParseCore(num: Reading, version: string): seq<JsNumber> {
    ReadParts(num, Split(Core(version), '.'))
  }

  // `parts[i] || 0`: a missing part and NaN both count as zero.
  function At(parts: seq<JsNumber>, i: nat): (v: JsNumber)
    ensures v != NaN
  {
    if i < |parts| && parts[i] != NaN then parts[i] else Finite(0)
  }

  predicate Exceeds(a: JsNumber, b: JsNumber)
    requires a != NaN && b != NaN
  {
    b.Finite? && (a.Infinity? || a.n > b.n)
  }

  function Max(a: nat, b: nat): nat {
    if a > b then a else b
  }

  // The code's loop over the padded parts, from position i on.
  function CoreOrder(a: seq<JsNumber>, b: seq<JsNumber>, i: nat): int
    decreases Max(|a|, |b|) - i
  {
    if i >= Max(|a|, |b|) then 0
    else if At(a, i) != At(b, i) then (if Exceeds(At(a, i), At(b, i)) then 1 else -1)
    else CoreOrder(a, b, i + 1)
  }

  function PrereleaseOrder(l: Option<string>, r: Option<string>): int {
    if l == r then 0
    else if l.None? then 1
    else if r.None? then -1
    else if LexLess(r.value, l.value) then 1 else -1
  }

  function Order(num: Reading, left: string, right: string): int {
    var c := CoreOrder(ParseCore(num, left), ParseCore(num, right), 0);
    if c != 0 then c else PrereleaseOrder(Prerelease(left), Prerelease(right))
  }

  method CompareVersions(num: Reading, left: string, right: string) returns (order: int)
    ensures order == Order(num, left, right)
  {
    var leftParts := ParseCore(num, left);
    var rightParts := ParseCore(num, right);
    var length := Max(|leftParts|, |rightParts|);
    for i := 0 to length
      invariant CoreOrder(leftParts, rightParts, 0) == CoreOrder(leftParts, rightParts, i)
    {
      var leftValue, rightValue := At(leftParts, i), At(rightParts, i);
      if leftValue != rightValue {
        return if Exceeds(leftValue, rightValue) then 1 else -1;
      }
    }
    return PrereleaseOrder(Prerelease(left), Prerelease(right));
  }

  // --- What the order means, said without the loop --------------------------

  // The cores agree below position d and differ there.
  ghost predicate BelowAt(a: seq<JsNumber>, b: seq<JsNumber>, d: nat) {
    Exceeds(At(b, d), At(a, d)) && forall j: nat | j < d :: At(a, j) == At(b, j)
  }

  ghost predicate CoreBelow(a: seq<JsNumber>, b: seq<JsNumber>) {
    exists d: nat :: BelowAt(a, b, d)
  }

  // Equal once padded with zeros, to any length.
  ghost predicate CoreEqual(a: seq<JsNumber>, b: seq<JsNumber>) {
    forall j: nat :: At(a, j) == At(b, j)
  }

  // A prerelease is below its release and below any later prerelease text.
  ghost predicate PrereleaseBelow(l: Option<string>, r: Option<string>) {
    l.Some? && (r.None? || LexLess(l.value, r.value))
  }

  ghost predicate Below(num: Reading, left: string, right: string) {
    var a, b := ParseCore(num, left), ParseCore(num, right);
    CoreBelow(a, b) || (CoreEqual(a, b) && PrereleaseBelow(Prerelease(left), Prerelease(right)))
  }

  // Equal padded cores and the same prerelease text.
  ghost predicate SameRelease(num: Reading, left: string, right: string) {
    CoreEqual(ParseCore(num, left), ParseCore(num, right)) && Prerelease(left) == Prerelease(right)
  }

  lemma {:induction false} CoreOrderMeaning(a: seq<JsNumber>, b: seq<JsNumber>, i: nat)
    requires forall j: nat | j < i :: At(a, j) == At(b, j)
    ensures CoreOrder(a, b, i) == if CoreBelow(a, b) then -1 else if CoreBelow(b, a) then 1 else 0
    ensures CoreOrder(a, b, i) == 0 <==> CoreEqual(a, b)
    ensures !(CoreBelow(a, b) && CoreBelow(b, a))
    decreases Max(|a|, |b|) - i
  {
    forall d: nat, e: nat ensures !(BelowAt(a, b, d) && BelowAt(b, a, e)) {}
    if i < Max(|a|, |b|) {
      if At(a, i) == At(b, i) {
        CoreOrderMeaning(a, b, i + 1);
      } else {
        assert BelowAt(a, b, i) || BelowAt(b, a, i);
      }
    } else {
      assert CoreEqual(a, b);
    }
  }

  // The three results of the comparison, in terms of Below and SameRelease.
  lemma OrderMeaning(num: Reading, left: string, right: string)
    ensures Order(num, left, right) == -1 <==> Below(num, left, right)
    ensures Order(num, left, right) == 1 <==> Below(num, right, left)
    ensures Order(num, left, right) == 0 <==> SameRelease(num, left, right)
    ensures -1 <= Order(num, left, right) <= 1
  {
    var a, b := ParseCore(num, left), ParseCore(num, right);
    CoreOrderMeaning(a, b, 0);
    CoreOrderMeaning(b, a, 0);
    if CoreEqual(a, b) {
      assert !CoreBelow(a, b) && !CoreBelow(b, a);
    }
    if Prerelease(left).Some? && Prerelease(right).Some? {
      LexTotal(Prerelease(left).value, Prerelease(right).value);
    }
  }

  lemma OrderAntisymmetric(num: Reading, left: string, right: string)
    ensures Order(num, left, right) == -Order(num, right, left)
  {
    OrderMeaning(num, left, right);
    OrderMeaning(num, right, left);
  }

  lemma CoreBelowTransitive(a: seq<JsNumber>, b: seq<JsNumber>, c: seq<JsNumber>)
    requires CoreBelow(a, b) || CoreEqual(a, b)
    requires CoreBelow(b, c) || CoreEqual(b, c)
    ensures CoreBelow(a, c) || CoreEqual(a, c)
    ensures CoreBelow(a, b) || CoreBelow(b, c) ==> CoreBelow(a, c)
  {
    if CoreBelow(a, b) {
      var d: nat :| BelowAt(a, b, d);
      if CoreBelow(b, c) {
        var e: nat :| BelowAt(b, c, e);
        assert BelowAt(a, c, if d < e then d else e);
      } else {
        assert BelowAt(a, c, d);
      }
    } else if CoreBelow(b, c) {
      var e: nat :| BelowAt(b, c, e);
      assert BelowAt(a, c, e);
    }
  }

  // Transitive across zero padding and every prerelease case; with
  // OrderMeaning and OrderAntisymmetric this makes the order a total preorder.
  lemma OrderTransitive(num: Reading, x: string, y: string, z: string)
    requires Order(num, x, y) <= 0 && Order(num, y, z) <= 0
    ensures Order(num, x, z) <= 0
    ensures Order(num, x, z) == 0 ==> Order(num, x, y) == 0 && Order(num, y, z) == 0
  {
    OrderMeaning(num, x, y);
    OrderMeaning(num, y, z);
    OrderMeaning(num, x, z);
    var a, b, c := ParseCore(num, x), ParseCore(num, y), ParseCore(num, z);
    CoreBelowTransitive(a, b, c);
    CoreOrderMeaning(a, b, 0);
    CoreOrderMeaning(b, c, 0);
    CoreOrderMeaning(a, c, 0);
    var p, q, r := Prerelease(x), Prerelease(y), Prerelease(z);
    if p.Some? && q.Some? && r.Some? && LexLess(p.value, q.value) && LexLess(q.value, r.value) {
      LexTransitive(p.value, q.value, r.value);
    }
    if CoreEqual(a, c) {
      assert CoreEqual(a, b) && CoreEqual(b, c);
      if p.Some? { LexTotal(p.value, p.value); }
      if p.Some? && q.Some? { LexTotal(p.value, q.value); }
    }
  }

  lemma CutFirst(s: string, c: char) returns (head: string, rest: string)
    requires c in s
    ensures s == head + [c] + rest && c !in head && |rest| < |s| && Split(s, c) == [head] + Split(rest, c)
  {
    var i := IndexOf(s, c);
    head, rest := s[..i], s[i + 1..];
    forall j | 0 <= j < i ensures head[j] != c { assert head[j] == s[j]; }
  }

  lemma SplitWhole(s: string, c: char)
    requires c !in s
    ensures Split(s, c) == [s]
  {}

  lemma {:induction false} SplitAppend(s: string, c: char, last: string)
    requires c !in last
    ensures Split(s + [c] + last, c) == Split(s, c) + [last]
    decreases |s|
  {
    if c !in s {
      SplitAt(s, c, last);
      SplitWhole(s, c);
      SplitWhole(last, c);
    } else {
      var head, rest := CutFirst(s, c);
      SplitAppend(rest, c, last);
      var tail := rest + [c] + last;
      SplitAt(head, c, tail);
      Regroup(head, [c], rest, last);
      Reassociate(head, Split(rest, c), last);
    }
  }

  lemma Regroup(head: string, c: string, rest: string, last: string)
    ensures head + c + rest + c + last == head + c + (rest + c + last)
  {}

  lemma Reassociate(head: string, parts: seq<string>, last: string)
    ensures [head] + (parts + [last]) == [head] + parts + [last]
  {}

  lemma {:induction false} ReadAppend(num: Reading, parts: seq<string>, last: string)
    ensures ReadParts(num, parts + [last]) == ReadParts(num, parts) + [num(last)]
  {
    if parts == [] {
      assert parts + [last] == [last];
    } else {
      assert (parts + [last])[1..] == parts[1..] + [last];
      ReadAppend(num, parts[1..], last);
    }
  }

  lemma PaddingParses(num: Reading, core: string, last: string)
    requires '-' !in core && '-' !in last && '.' !in last
    ensures ParseCore(num, core + ['.'] + last) == ParseCore(num, core) + [num(last)]
    ensures Prerelease(core) == None == Prerelease(core + ['.'] + last)
  {
    var longer := core + ['.'] + last;
    assert '-' !in longer;
    assert Core(core) == core && Core(longer) == longer;
    SplitAppend(core, '.', last);
    ReadAppend(num, Split(core, '.'), last);
  }

  lemma PaddedOrder(a: seq<JsNumber>, v: JsNumber)
    requires v == Finite(0) || v == NaN
    ensures CoreOrder(a, a + [v], 0) == 0
  {
    forall i: nat ensures At(a, i) == At(a + [v], i) {}
    CoreOrderMeaning(a, a + [v], 0);
    assert !CoreBelow(a, a + [v]) && !CoreBelow(a + [v], a);
  }

  // One more part that reads as zero, or as no number at all, changes nothing.
  lemma PaddingIsZero(num: Reading, core: string, last: string)
    requires '-' !in core && '-' !in last && '.' !in last
    requires num(last) == Finite(0) || num(last) == NaN
    ensures Order(num, core, core + ['.'] + last) == 0
  {
    PaddingParses(num, core, last);
    PaddedOrder(ParseCore(num, core), num(last));
  }

  // --- The semantic order of the release-notes tool ---------------------------

  datatype Triple = Triple(major: nat, minor: nat, patch: nat)

  function Part(t: Triple, i: nat): nat
    requires i < 3
  {
    if i == 0 then t.major else if i == 1 then t.minor else t.patch
  }

  function Sign(a: nat, b: nat): int {
    if a < b then -1 else if a > b then 1 else 0
  }

  // Major, minor and patch compared numerically from left to right, the
  // precedence of section 11 of Semantic Versioning 2.0.0.
  function SemverOrder(a: Triple, b: Triple): int {
    if a.major != b.major then Sign(a.major, b.major)
    else if a.minor != b.minor then Sign(a.minor, b.minor)
    else Sign(a.patch, b.patch)
  }

  method CompareSemver(a: Triple, b: Triple) returns (order: int)
    ensures order == SemverOrder(a, b)
  {
    for i := 0 to 3
      invariant forall j: nat | j < i :: Part(a, j) == Part(b, j)
    {
      var diff := Sign(Part(a, i), Part(b, i));
      if diff != 0 {
        assert i >= 1 ==> Part(a, 0) == Part(b, 0);
        assert i >= 2 ==> Part(a, 1) == Part(b, 1);
        return diff;
      }
    }
    assert Part(a, 0) == Part(b, 0) && Part(a, 1) == Part(b, 1) && Part(a, 2) == Part(b, 2);
    return 0;
  }

  lemma SemverOrderTotal(a: Triple, b: Triple, c: Triple)
    ensures SemverOrder(a, b) == -SemverOrder(b, a)
    ensures SemverOrder(a, b) == 0 <==> a == b
    ensures SemverOrder(a, b) <= 0 && SemverOrder(b, c) <= 0 ==> SemverOrder(a, c) <= 0
  {}

  function Dotted(x: string, y: string, z: string): string {
    x + ['.'] + (y + ['.'] + z)
  }

  lemma SplitDotted(x: string, y: string, z: string)
    requires '.' !in x && '.' !in y && '.' !in z
    ensures Split(Dotted(x, y, z), '.') == [x, y, z]
  {
    SplitAt(x, '.', y + ['.'] + z);
    SplitAt(y, '.', z);
  }

  lemma SplitAt(head: string, c: char, tail: string)
    requires c !in head
    ensures Split(head + [c] + tail, c) == [head] + Split(tail, c)
  {
    var s := head + [c] + tail;
    IndexOfFirst(head, c, tail);
    assert s[..|head|] == head && s[|head| + 1..] == tail;
  }

  lemma IndexOfFirst(head: string, c: char, tail: string)
    requires c !in head
    ensures IndexOf(head + [c] + tail, c) == |head|
  {
    var s := head + [c] + tail;
    assert s[|head|] == c;
    assert forall j | 0 <= j < |head| :: s[j] == head[j];
  }

  // The version is plain X.Y.Z, its numerals zero-padded or not.
  ghost predicate IsPlain(version: string, t: Triple) {
    exists x, y, z ::
      && IsNumeral(x) && IsNumeral(y) && IsNumeral(z)
      && version == Dotted(x, y, z)
      && t == Triple(Value(x), Value(y), Value(z))
  }

  // On plain versions the bootstrap's order is the release-notes order.
  lemma PlainVersionsAgree(num: Reading, left: string, right: string, a: Triple, b: Triple)
    requires ReadsDecimals(num)
    requires IsPlain(left, a) && IsPlain(right, b)
    ensures Order(num, left, right) == SemverOrder(a, b)
  {
    PlainParts(num, left, a);
    PlainParts(num, right, b);
    OrderOfParts(num, left, right, a, b);
  }

  function Parts(t: Triple): seq<JsNumber> {
    [Finite(t.major), Finite(t.minor), Finite(t.patch)]
  }

  lemma PlainParts(num: Reading, version: string, t: Triple)
    requires ReadsDecimals(num) && IsPlain(version, t)
    ensures ParseCore(num, version) == Parts(t)
    ensures Prerelease(version) == None
  {
    var x, y, z :| IsNumeral(x) && IsNumeral(y) && IsNumeral(z)
                   && version == Dotted(x, y, z) && t == Triple(Value(x), Value(y), Value(z));
    assert '.' !in x && '.' !in y && '.' !in z;
    assert '-' !in Dotted(x, y, z);
    SplitDotted(x, y, z);
  }

  lemma OrderOfParts(num: Reading, left: string, right: string, a: Triple, b: Triple)
    requires ParseCore(num, left) == Parts(a) && ParseCore(num, right) == Parts(b)
    ensures Order(num, left, right) ==
            if a != b then SemverOrder(a, b) else PrereleaseOrder(Prerelease(left), Prerelease(right))
  {
    ThreePartOrder(a, b);
  }

  lemma ThreePartOrder(a: Triple, b: Triple)
    ensures CoreOrder(Parts(a), Parts(b), 0) == SemverOrder(a, b)
  {
    var p, q := Parts(a), Parts(b);
    assert At(p, 0) == Finite(a.major) && At(q, 0) == Finite(b.major);
    assert At(p, 1) == Finite(a.minor) && At(q, 1) == Finite(b.minor);
    assert At(p, 2) == Finite(a.patch) && At(q, 2) == Finite(b.patch);
    assert CoreOrder(p, q, 3) == 0;
    assert CoreOrder(p, q, 2) == Sign(a.patch, b.patch);
    assert CoreOrder(p, q, 1) == if a.minor != b.minor then Sign(a.minor, b.minor) else CoreOrder(p, q, 2);
  }

  // --- Internal builds: X.Y.Z-internal.N ---------------------------------------

  // A version of this repository's release tags; build is the N of an internal
  // pre-release.
  datatype Release = Release(core: Triple, build: Option<nat>)

  function Text(r: Release): string {
    var core := Dotted(Decimal(r.core.major), Decimal(r.core.minor), Decimal(r.core.patch));
    if r.build.None? then core else core + ['-'] + ("internal." + Decimal(r.build.value))
  }

  // Section 11 of Semantic Versioning 2.0.0 on these versions: a pre-release is
  // below its release, and numeric identifiers compare numerically.
  function SemverPrecedence(a: Release, b: Release): int {
    if a.core != b.core then SemverOrder(a.core, b.core)
    else if a.build == b.build then 0
    else if a.build.None? then 1
    else if b.build.None? then -1
    else Sign(a.build.value, b.build.value)
  }

  // Two build numbers sort as text the way they sort as numbers: the shorter
  // one is at most the leading digits of the longer one.
  predicate SortsAsText(m: nat, n: nat) {
    var k, l := |Decimal(m)|, |Decimal(n)|;
    if k < l then m <= DropDigits(n, l - k)
    else if l < k then n <= DropDigits(m, k - l)
    else true
  }

  // The code compares prerelease texts character by character, so it departs
  // from the standard's precedence exactly when two internal builds of one core
  // have numbers that do not sort as text.
  lemma InternalBuildsAgree(num: Reading, a: Release, b: Release)
    requires ReadsDecimals(num)
    ensures Order(num, Text(a), Text(b)) == SemverPrecedence(a, b) <==>
            (a.core == b.core && a.build.Some? && b.build.Some? ==> SortsAsText(a.build.value, b.build.value))
  {
    ReleaseOrder(num, a, b);
    AgreesWhenSorted(Order(num, Text(a), Text(b)), a, b);
  }

  function BuildPart(r: Release): Option<string> {
    if r.build.None? then None else Some(BuildText(r.build.value))
  }

  lemma ReleaseOrder(num: Reading, a: Release, b: Release)
    requires ReadsDecimals(num)
    ensures Order(num, Text(a), Text(b)) ==
            if a.core != b.core then SemverOrder(a.core, b.core) else PrereleaseOrder(BuildPart(a), BuildPart(b))
  {
    ReleaseParts(num, a);
    ReleaseParts(num, b);
    OrderOfParts(num, Text(a), Text(b), a.core, b.core);
  }

  lemma AgreesWhenSorted(order: int, a: Release, b: Release)
    requires order == if a.core != b.core then SemverOrder(a.core, b.core)
                      else PrereleaseOrder(BuildPart(a), BuildPart(b))
    ensures order == SemverPrecedence(a, b) <==>
            (a.core == b.core && a.build.Some? && b.build.Some? ==> SortsAsText(a.build.value, b.build.value))
  {
    if a.core == b.core && a.build.Some? && b.build.Some? {
      BuildTextOrder(a.build.value, b.build.value);
    }
  }

  // internal.10 is the later build but the lower version.
  lemma TenthInternalBuildSortsBelowNinth(num: Reading, core: Triple)
    requires ReadsDecimals(num)
    ensures Order(num, Text(Release(core, Some(9))), Text(Release(core, Some(10)))) == 1
    ensures SemverPrecedence(Release(core, Some(9)), Release(core, Some(10))) == -1
  {
    var a, b := Release(core, Some(9)), Release(core, Some(10));
    assert !SortsAsText(9, 10) by {
      assert Decimal(9) == "9" && Decimal(10) == "10";
      assert DropDigits(10, 1) == 1;
    }
    InternalBuildsAgree(num, a, b);
    ReleaseParts(num, a);
    ReleaseParts(num, b);
    OrderOfParts(num, Text(a), Text(b), core, core);
    DecimalReadsBack(9);
    DecimalReadsBack(10);
    assert Prerelease(Text(a)).value[9..] == Decimal(9);
    assert Prerelease(Text(b)).value[9..] == Decimal(10);
  }

  function BuildText(n: nat): string {
    "internal." + Decimal(n)
  }

  lemma ReleaseParts(num: Reading, r: Release)
    requires ReadsDecimals(num)
    ensures ParseCore(num, Text(r)) == Parts(r.core)
    ensures Prerelease(Text(r)) == BuildPart(r)
  {
    var core := Dotted(Decimal(r.core.major), Decimal(r.core.minor), Decimal(r.core.patch));
    DecimalReadsBack(r.core.major);
    DecimalReadsBack(r.core.minor);
    DecimalReadsBack(r.core.patch);
    assert IsPlain(core, r.core);
    PlainParts(num, core, r.core);
    if r.build.Some? {
      assert IndexOf(core, '-') == -1;
      CutAtDash(num, core, BuildText(r.build.value));
    }
  }

  lemma CutAtDash(num: Reading, core: string, pre: string)
    requires '-' !in core
    ensures ParseCore(num, core + ['-'] + pre) == ParseCore(num, core)
    ensures Prerelease(core + ['-'] + pre) == Some(pre)
  {
    var s := core + ['-'] + pre;
    IndexOfFirst(core, '-', pre);
    assert s[..|core|] == core && s[|core| + 1..] == pre;
    assert Core(s) == core && Core(core) == core;
  }

  lemma BuildTextOrder(m: nat, n: nat)
    ensures PrereleaseOrder(Some(BuildText(m)), Some(BuildText(n))) == Sign(m, n) <==> SortsAsText(m, n)
  {
    var s, t := Decimal(m), Decimal(n);
    DecimalReadsBack(m);
    DecimalReadsBack(n);
    LexCommonPrefix("internal.", t, s);
    LexCommonPrefix("internal.", s, t);
    LexTotal(s, t);
    assert BuildText(m) == BuildText(n) ==> s == t by {
      assert BuildText(m)[9..] == s && BuildText(n)[9..] == t;
    }
    if |s| < |t| {
      ShorterNumeral(m, n);
    } else if |t| < |s| {
      ShorterNumeral(n, m);
    } else {
      LexIsNumeric(s, t);
      LexIsNumeric(t, s);
    }
  }

  lemma ShorterNumeral(m: nat, n: nat)
    requires |Decimal(m)| < |Decimal(n)|
    ensures m < n
    ensures LexLess(Decimal(m), Decimal(n)) <==> m <= DropDigits(n, |Decimal(n)| - |Decimal(m)|)
  {
    var s, t := Decimal(m), Decimal(n);
    var k := |t| - |s|;
    DecimalReadsBack(m);
    DecimalReadsBack(DropDigits(n, k));
    LeadingDigits(n, k);
    LexAgainstLonger(s, t);
    LexIsNumeric(t[..|s|], s);
    if n <= m {
      DigitsMonotone(n, m);
    }
  }
}
