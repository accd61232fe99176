// Listing the pull requests merged in a range and classifying each by the
// files it touched.
module MergedPulls {
  import opened Basics
  import opened Decimals
  import Versions

  // --- The pull request a commit subject names ------------------------------------

  predicate StartsWith(s: string, prefix: string) {
    |prefix| <= |s| && s[..|prefix|] == prefix
  }

  // The longest run of digits s starts with.
  function DigitRun(s: string): (d: string)
    ensures |d| <= |s| && d == s[..|d|] && AllDigits(d)
    ensures |d| < |s| ==> !IsDigit(s[|d|])
  {
    if s != [] && IsDigit(s[0]) then [s[0]] + DigitRun(s[1..]) else []
  }

  const MERGE_PREFIX := "Merge pull request #"

  // ^Merge pull request #(\d+)
  function MergeNumber(subject: string): Option<nat> {
    if !StartsWith(subject, MERGE_PREFIX) then None
    else
      var digits := DigitRun(subject[|MERGE_PREFIX|..]);
      if digits == [] then None else Some(Value(digits))
  }

  // \(#(\d+)\) at the start of s.
  function MentionNumber(s: string): Option<nat> {
    if !StartsWith(s, "(#") then None
    else
      var digits := DigitRun(s[2..]);
      if digits != [] && 2 + |digits| < |s| && s[2 + |digits|] == ')' then Some(Value(digits)) else None
  }

  // The first match of \(#(\d+)\).
  function SquashNumber(s: string): Option<nat> {
    if s == [] then None
    else if MentionNumber(s).Some? then MentionNumber(s)
    else SquashNumber(s[1..])
  }

  function Subject(message: string): string {
    Versions.Split(message, '\n')[0]
  }

  function SubjectNumber(subject: string): Option<nat> {
    if MergeNumber(subject).Some? then MergeNumber(subject) else SquashNumber(subject)
  }

  function PullNumber(message: string): Option<nat> {
    SubjectNumber(Subject(message))
  }

  lemma SubjectMeaning(message: string)
    ensures '\n' !in Subject(message)
    ensures message == Subject(message) || exists rest :: message == Subject(message) + ['\n'] + rest
  {
    var i := Versions.IndexOf(message, '\n');
    if i != -1 {
      assert message == message[..i] + ['\n'] + message[i + 1..];
    }
  }

  // The merge number is the whole run of digits after the words.
  lemma MergeMeaning(s: string, n: nat)
    ensures MergeNumber(s) == Some(n) <==>
            exists digits, rest ::
              && s == "Merge pull request #" + (digits + rest) && IsNumeral(digits) && Value(digits) == n
              && (rest == "" || !IsDigit(rest[0]))
  {
    var k := |MERGE_PREFIX|;
    if MergeNumber(s) == Some(n) {
      var digits := DigitRun(s[k..]);
      assert s == MERGE_PREFIX + (digits + s[k..][|digits|..]);
    }
    forall digits, rest |
      s == "Merge pull request #" + (digits + rest) && IsNumeral(digits) && (rest == "" || !IsDigit(rest[0]))
      ensures MergeNumber(s) == Some(Value(digits))
    {
      assert s[..k] == MERGE_PREFIX && s[k..] == digits + rest;
      DigitRunUpTo(digits, rest);
    }
  }

  // s[i..] reads (#digits).
  predicate MentionAt(s: string, i: nat, digits: string) {
    i <= |s| && IsNumeral(digits) && StartsWith(s[i..], "(#" + digits + ")")
  }

  lemma {:induction false} DigitRunUpTo(digits: string, rest: string)
    requires AllDigits(digits)
    requires rest == [] || !IsDigit(rest[0])
    ensures DigitRun(digits + rest) == digits
  {
    var s := digits + rest;
    if digits == [] {
      assert s == rest;
    } else {
      assert s[1..] == digits[1..] + rest;
      DigitRunUpTo(digits[1..], rest);
    }
  }

  lemma MentionAtStart(s: string, digits: string)
    requires MentionAt(s, 0, digits)
    ensures MentionNumber(s) == Some(Value(digits))
  {
    assert s[0..] == s;
    var text := "(#" + digits + ")";
    var rest := s[|text|..];
    assert s == text + rest;
    assert s[..2] == "(#" && s[2..] == digits + (")" + rest);
    DigitRunUpTo(digits, ")" + rest);
    assert s[2 + |digits|] == text[2 + |digits|] == ')';
  }

  lemma MentionFound(s: string) returns (digits: string)
    requires MentionNumber(s).Some?
    ensures MentionAt(s, 0, digits) && MentionNumber(s) == Some(Value(digits))
  {
    digits := DigitRun(s[2..]);
    assert s[0..] == s;
    assert s[..|digits| + 3] == "(#" + digits + ")";
  }

  lemma MentionMeaning(s: string, n: nat)
    ensures MentionNumber(s) == Some(n) <==> exists digits :: MentionAt(s, 0, digits) && Value(digits) == n
  {
    if MentionNumber(s).Some? {
      var digits := MentionFound(s);
    }
    forall digits | MentionAt(s, 0, digits) ensures MentionNumber(s) == Some(Value(digits)) {
      MentionAtStart(s, digits);
    }
  }

  // The squash number is that of the leftmost mention.
  ghost predicate LeftmostMention(s: string, i: nat, digits: string) {
    MentionAt(s, i, digits) && forall j: nat, d | j < i :: !MentionAt(s, j, d)
  }

  lemma {:induction false} SquashMeaning(s: string, n: nat)
    ensures SquashNumber(s) == Some(n) <==> exists i, d :: LeftmostMention(s, i, d) && Value(d) == n
  {
    if s == [] {
      assert forall i: nat, d :: !MentionAt(s, i, d);
    } else if MentionNumber(s).Some? {
      FirstMention(s, n);
    } else {
      forall d ensures !MentionAt(s, 0, d) {
        if MentionAt(s, 0, d) { MentionMeaning(s, Value(d)); }
      }
      SquashMeaning(s[1..], n);
      LaterMention(s, n);
    }
  }

  lemma FirstMention(s: string, n: nat)
    requires MentionNumber(s).Some?
    ensures MentionNumber(s) == Some(n) <==> exists i, d :: LeftmostMention(s, i, d) && Value(d) == n
  {
    var m := MentionNumber(s).value;
    MentionMeaning(s, m);
    MentionMeaning(s, n);
    var d0 :| MentionAt(s, 0, d0) && Value(d0) == m;
    assert LeftmostMention(s, 0, d0);
    if i: nat, d: string :| LeftmostMention(s, i, d) && Value(d) == n {
      assert i == 0;
    }
  }

  lemma LaterMention(s: string, n: nat)
    requires s != [] && forall d :: !MentionAt(s, 0, d)
    ensures (exists i, d :: LeftmostMention(s[1..], i, d) && Value(d) == n) <==>
            exists i, d :: LeftmostMention(s, i, d) && Value(d) == n
  {
    if i: nat, d: string :| LeftmostMention(s[1..], i, d) && Value(d) == n {
      LeftmostShift(s, i, d);
      assert LeftmostMention(s, i + 1, d);
    }
    if i: nat, d: string :| LeftmostMention(s, i, d) && Value(d) == n {
      LeftmostShift(s, i - 1, d);
      assert LeftmostMention(s[1..], i - 1, d);
    }
  }

  lemma MentionShift(s: string, i: nat, d: string)
    requires s != []
    ensures MentionAt(s[1..], i, d) <==> MentionAt(s, i + 1, d)
  {
    if i < |s| { assert s[1..][i..] == s[i + 1..]; }
  }

  lemma LeftmostShift(s: string, i: nat, d: string)
    requires s != [] && forall e :: !MentionAt(s, 0, e)
    ensures LeftmostMention(s[1..], i, d) <==> LeftmostMention(s, i + 1, d)
  {
    MentionShift(s, i, d);
    if LeftmostMention(s[1..], i, d) {
      forall j: nat, e | j < i + 1 ensures !MentionAt(s, j, e) {
        if j > 0 { MentionShift(s, j - 1, e); }
      }
    }
    if LeftmostMention(s, i + 1, d) {
      forall j: nat, e | j < i ensures !MentionAt(s[1..], j, e) {
        MentionShift(s, j, e);
      }
    }
  }

  // The subject GitHub writes for a squash merge.
  function SquashSubject(title: string, n: nat): string {
    title + (" (#" + Decimal(n) + ")")
  }

  lemma SquashScan(title: string, n: nat)
    ensures SquashNumber(SquashSubject(title, n)) ==
            if SquashNumber(title).Some? then SquashNumber(title) else Some(n)
  {
    DecimalReadsBack(n);
    var digits := Decimal(n);
    var s := "(#" + digits + ")";
    assert MentionAt(s, 0, digits) by { assert s[0..] == s; }
    MentionMeaning(s, n);
    assert SquashNumber(s) == Some(n);
    var suffix := " " + s;
    assert suffix[1..] == s;
    assert SquashNumber(suffix) == Some(n);
    assert suffix == " (#" + Decimal(n) + ")";
    SquashPrefix(title, suffix);
  }

  // What follows a title leaves its merge number alone.
  lemma MergeScan(title: string, suffix: string)
    requires |suffix| > 1 && suffix[0] == ' ' && suffix[1] == '('
    ensures MergeNumber(title + suffix) == MergeNumber(title)
  {
    if |title| >= |MERGE_PREFIX| {
      LongMergeScan(title, suffix);
    } else {
      ShortMergeScan(title, suffix);
    }
  }

  lemma LongMergeScan(title: string, suffix: string)
    requires |title| >= |MERGE_PREFIX| && suffix != "" && suffix[0] == ' '
    ensures MergeNumber(title + suffix) == MergeNumber(title)
  {
    var s, rest := title + suffix, title[|MERGE_PREFIX|..];
    assert s[..|MERGE_PREFIX|] == title[..|MERGE_PREFIX|];
    assert s[|MERGE_PREFIX|..] == rest + suffix;
    DigitsStop(rest, suffix);
  }

  lemma DigitsStop(rest: string, suffix: string)
    requires suffix != "" && !IsDigit(suffix[0])
    ensures DigitRun(rest + suffix) == DigitRun(rest)
  {
    var digits := DigitRun(rest);
    var tail := rest[|digits|..];
    assert rest + suffix == digits + (tail + suffix);
    DigitRunUpTo(digits, tail + suffix);
  }

  lemma ShortMergeScan(title: string, suffix: string)
    requires |title| < |MERGE_PREFIX| && |suffix| > 1 && suffix[0] == ' ' && suffix[1] == '('
    ensures MergeNumber(title + suffix) == None == MergeNumber(title)
  {
    var s, k := title + suffix, |MERGE_PREFIX|;
    assert s[|title|] == ' ' && s[|title| + 1] == '(';
    assert '(' !in MERGE_PREFIX && MERGE_PREFIX[k - 1] != ' ';
    assert |s| >= k ==> s[..k][|title|] == s[|title|];
    assert |s| >= k && |title| + 1 < k ==> s[..k][|title| + 1] == '(';
  }

  // What a message goes on with after its subject.
  predicate IsBody(body: string) {
    body == "" || body[0] == '\n'
  }

  lemma SubjectOf(head: string, rest: string)
    ensures '\n' in head ==> Subject(head + rest) == Subject(head)
    ensures '\n' !in head && IsBody(rest) ==> Subject(head + rest) == head
  {
    var s := head + rest;
    var i, j := Versions.IndexOf(head, '\n'), Versions.IndexOf(s, '\n');
    if i != -1 {
      assert s[i] == '\n';
      assert j <= i;
      assert head[j] == s[j];
      assert s[..i] == head[..i];
    } else if rest == "" {
      assert s == head;
    } else if IsBody(rest) {
      assert s[|head|] == '\n';
      assert forall k | 0 <= k < |head| :: s[k] == head[k];
      assert j == |head| && s[..j] == head;
    }
  }

  // The message of a squash merge names its own pull request exactly when the
  // title alone names that one, or none and has no line break. Otherwise the
  // pull request is lost, and the one the title names is listed.
  lemma SquashSubjectNames(title: string, n: nat, body: string)
    requires IsBody(body)
    ensures PullNumber(SquashSubject(title, n) + body) ==
            if PullNumber(title).Some? || '\n' in title then PullNumber(title) else Some(n)
    ensures PullNumber(SquashSubject(title, n) + body) == Some(n) <==>
            PullNumber(title) == Some(n) || (PullNumber(title) == None && '\n' !in title)
  {
    var suffix := " (#" + Decimal(n) + ")";
    SubjectOf(title, "");
    assert title + "" == title;
    if '\n' in title {
      assert SquashSubject(title, n) + body == title + (suffix + body);
      SubjectOf(title, suffix + body);
    } else {
      DecimalReadsBack(n);
      assert '\n' !in Decimal(n);
      SubjectOf(SquashSubject(title, n), body);
      SquashScan(title, n);
      MergeScan(title, suffix);
    }
  }

  // A title that reads like a merge commit is taken for one.
  lemma MergeTitleNamesAnotherPull(k: nat, n: nat, body: string)
    requires IsBody(body)
    ensures PullNumber(SquashSubject(MERGE_PREFIX + Decimal(k), n) + body) == Some(k)
  {
    var title := MERGE_PREFIX + Decimal(k);
    DecimalReadsBack(k);
    assert title[..|MERGE_PREFIX|] == MERGE_PREFIX && title[|MERGE_PREFIX|..] == Decimal(k) + "";
    assert Decimal(k) + "" == Decimal(k);
    DigitRunUpTo(Decimal(k), "");
    assert MergeNumber(title) == Some(k);
    assert '\n' !in MERGE_PREFIX && '\n' !in Decimal(k);
    assert title + "" == title;
    SubjectOf(title, "");
    SquashSubjectNames(title, n, body);
  }

  // No mention runs on across this character.
  predicate Interrupts(c: char) {
    !IsDigit(c) && c != '#' && c != ')'
  }

  lemma {:induction false} SquashPrefix(title: string, suffix: string)
    requires suffix != [] && Interrupts(suffix[0])
    ensures SquashNumber(title + suffix) ==
            if SquashNumber(title).Some? then SquashNumber(title) else SquashNumber(suffix)
  {
    if title == [] {
      assert title + suffix == suffix;
    } else {
      var s := title + suffix;
      assert s[1..] == title[1..] + suffix;
      SquashPrefix(title[1..], suffix);
      MentionPrefix(title, suffix);
    }
  }

  lemma MentionPrefix(title: string, suffix: string)
    requires title != [] && suffix != [] && Interrupts(suffix[0])
    ensures MentionNumber(title + suffix) == MentionNumber(title)
  {
    var s := title + suffix;
    if |title| == 1 {
      assert s[1] == suffix[0];
    } else {
      assert s[..2] == title[..2];
      var digits := DigitRun(title[2..]);
      assert title[2..] == digits + title[2 + |digits|..];
      var rest := title[2 + |digits|..] + suffix;
      assert s[2..] == digits + rest;
      DigitRunUpTo(digits, rest);
      assert s[2 + |digits|] == rest[0];
    }
  }

  // The title GitHub gives the revert of a squash merge.
  function RevertTitle(title: string, m: nat): string {
    "Revert \"" + (SquashSubject(title, m) + "\"")
  }

  // The revert of a squash merge is listed under the reverted pull request,
  // whatever its own number is, or under one the reverted title mentions first.
  lemma RevertNamesTheRevertedPull(title: string, m: nat, n: nat, body: string)
    requires IsBody(body) && '\n' !in title
    ensures PullNumber(SquashSubject(RevertTitle(title, m), n) + body) ==
            if SquashNumber(title).Some? then SquashNumber(title) else Some(m)
  {
    var revert := RevertTitle(title, m);
    SquashScan(title, m);
    SquashPrefix(SquashSubject(title, m), "\"");
    NoMentionIn("Revert \"", SquashSubject(title, m) + "\"");
    NotAMerge(revert);
    DecimalReadsBack(m);
    assert '\n' !in Decimal(m);
    assert '\n' !in SquashSubject(title, m);
    assert '\n' !in revert;
    assert revert + "" == revert;
    SubjectOf(revert, "");
    SquashSubjectNames(revert, n, body);
  }

  lemma NotAMerge(s: string)
    ensures s != "" && s[0] == 'R' ==> MergeNumber(s) == None
  {
    if s != "" && |MERGE_PREFIX| <= |s| {
      assert s[..|MERGE_PREFIX|][0] == s[0];
    }
  }

  lemma {:induction false} NoMentionIn(lead: string, s: string)
    requires '(' !in lead
    ensures SquashNumber(lead + s) == SquashNumber(s)
  {
    if lead == [] {
      assert lead + s == s;
    } else {
      assert (lead + s)[1..] == lead[1..] + s;
      assert (lead + s)[0] in lead;
      NoMentionIn(lead[1..], s);
    }
  }

  // --- Reading a paged listing -----------------------------------------------------

  const PAGE_SIZE: nat := 100

  // One answer of a paged request; the commit comparison also reports a total.
  datatype Page<T> = Page(total: Option<nat>, items: seq<T>)

  // Past the last page a request gets an empty answer.
  function PageAt<T>(pages: seq<Page<T>>, k: nat): Page<T> {
    if k < |pages| then pages[k] else Page(None, [])
  }

  // Requests made from page k on: up to the first page that is not full.
  function PagesRead<T>(pages: seq<Page<T>>, k: nat): (n: nat)
    ensures n > k
    decreases |pages| - k
  {
    if k >= |pages| || |pages[k].items| < PAGE_SIZE then k + 1 else PagesRead(pages, k + 1)
  }

  function ItemsOf<T>(pages: seq<Page<T>>, n: nat): seq<T> {
    if n == 0 then [] else ItemsOf(pages, n - 1) + PageAt(pages, n - 1).items
  }

  // The last total reported by the first n pages.
  function TotalOf<T>(pages: seq<Page<T>>, n: nat): nat {
    if n == 0 then 0
    else if PageAt(pages, n - 1).total.Some? then PageAt(pages, n - 1).total.value
    else TotalOf(pages, n - 1)
  }

  function AllItems<T>(pages: seq<Page<T>>): seq<T> {
    ItemsOf(pages, PagesRead(pages, 0))
  }

  function Min(a: nat, b: nat): nat {
    if a < b then a else b
  }

  // A list cut into pages of a hundred, as GitHub answers.
  ghost predicate Pages<T>(pages: seq<Page<T>>, list: seq<T>) {
    forall k: nat :: PageAt(pages, k).items == list[Min(k * 100, |list|)..Min((k + 1) * 100, |list|)]
  }

  lemma {:induction false} FirstPages<T>(pages: seq<Page<T>>, list: seq<T>, n: nat)
    requires Pages(pages, list)
    ensures ItemsOf(pages, n) == list[..Min(n * PAGE_SIZE, |list|)]
  {
    if n > 0 {
      FirstPages(pages, list, n - 1);
      assert PageAt(pages, n - 1).items ==
             list[Min((n - 1) * PAGE_SIZE, |list|)..Min((n - 1 + 1) * PAGE_SIZE, |list|)];
    }
  }

  lemma {:induction false} LastPageReached<T>(pages: seq<Page<T>>, list: seq<T>, k: nat)
    requires Pages(pages, list)
    ensures PagesRead(pages, k) * PAGE_SIZE >= |list|
    decreases |pages| - k
  {
    assert PageAt(pages, k).items == list[Min(k * PAGE_SIZE, |list|)..Min((k + 1) * PAGE_SIZE, |list|)];
    if k < |pages| && |pages[k].items| >= PAGE_SIZE {
      LastPageReached(pages, list, k + 1);
    }
  }

  // Stopping at the first page that is not full loses nothing, also when the
  // list fills its last page.
  lemma PagingLosesNothing<T>(pages: seq<Page<T>>, list: seq<T>)
    requires Pages(pages, list)
    ensures AllItems(pages) == list
  {
    FirstPages(pages, list, PagesRead(pages, 0));
    LastPageReached(pages, list, 0);
    assert list[..|list|] == list;
  }

  // --- The merged pull requests of a range -----------------------------------------

  // A pull request GitHub associates with a commit.
  datatype Pull = Pull(number: nat, merged: bool)
  datatype Commit = Commit(message: string, pulls: seq<Pull>)

  datatype Listing = Numbers(numbers: seq<nat>) | Truncated(total: nat, scanned: nat)

  function Flat<A>(s: seq<A>, f: A -> seq<nat>): seq<nat> {
    if s == [] then [] else Flat(s[..|s| - 1], f) + f(s[|s| - 1])
  }

  function MergedNumber(pull: Pull): seq<nat> {
    if pull.merged then [pull.number] else []
  }

  function CommitNumbers(commit: Commit): seq<nat> {
    var named := PullNumber(commit.message);
    if named.Some? then [named.value] else Flat(commit.pulls, MergedNumber)
  }

  function RangeNumbers(commits: seq<Commit>): seq<nat> {
    Flat(commits, CommitNumbers)
  }

  lemma {:induction false} FlatMeaning<A>(s: seq<A>, f: A -> seq<nat>, x: nat)
    ensures x in Flat(s, f) <==> exists a :: a in s && x in f(a)
  {
    if s != [] {
      var rest, last := s[..|s| - 1], s[|s| - 1];
      assert s == rest + [last];
      FlatMeaning(rest, f, x);
    }
  }

  lemma CommitNumbersMeaning(c: Commit, x: nat)
    ensures x in CommitNumbers(c) <==>
            PullNumber(c.message) == Some(x) || (PullNumber(c.message) == None && Pull(x, true) in c.pulls)
  {
    FlatMeaning(c.pulls, MergedNumber, x);
    if Pull(x, true) in c.pulls { assert x in MergedNumber(Pull(x, true)); }
    if a :| a in c.pulls && x in MergedNumber(a) { assert a == Pull(x, true); }
  }

  // The walk collects exactly the numbers commits name, and, of a commit that
  // names none, those of its merged pull requests.
  lemma RangeNumbersMeaning(commits: seq<Commit>, x: nat)
    ensures x in RangeNumbers(commits) <==>
            exists c :: c in commits &&
              (PullNumber(c.message) == Some(x) || (PullNumber(c.message) == None && Pull(x, true) in c.pulls))
  {
    FlatMeaning(commits, CommitNumbers, x);
    forall c ensures x in CommitNumbers(c) <==>
                     PullNumber(c.message) == Some(x) || (PullNumber(c.message) == None && Pull(x, true) in c.pulls)
    {
      CommitNumbersMeaning(c, x);
    }
  }

  function MergedAmong(pulls: seq<Pull>): nat {
    if pulls == [] then 0
    else MergedAmong(pulls[..|pulls| - 1]) + if pulls[|pulls| - 1].merged then 1 else 0
  }

  // They stand in the order GitHub lists them, and no other stands between.
  lemma {:induction false} MergedInOrder(pulls: seq<Pull>, i: nat)
    requires i < |pulls| && pulls[i].merged
    ensures var k := MergedAmong(pulls[..i]);
            && |Flat(pulls, MergedNumber)| == MergedAmong(pulls)
            && k < MergedAmong(pulls) && Flat(pulls, MergedNumber)[k] == pulls[i].number
  {
    MergedCounted(pulls);
    var n := |pulls| - 1;
    if i < n {
      MergedInOrder(pulls[..n], i);
      assert pulls[..n][..i] == pulls[..i];
    } else {
      MergedCounted(pulls[..n]);
    }
  }

  lemma {:induction false} MergedCounted(pulls: seq<Pull>)
    ensures |Flat(pulls, MergedNumber)| == MergedAmong(pulls)
  {
    if pulls != [] { MergedCounted(pulls[..|pulls| - 1]); }
  }

  // Each number where it first stands.
  function Dedupe(s: seq<nat>): seq<nat> {
    if s == [] then []
    else
      var rest, last := s[..|s| - 1], s[|s| - 1];
      Dedupe(rest) + if last in rest then [] else [last]
  }

  function FirstIndex(s: seq<nat>, x: nat): (i: nat)
    requires x in s
    ensures i < |s| && s[i] == x && x !in s[..i]
  {
    if s[0] == x then 0 else 1 + FirstIndex(s[1..], x)
  }

  // r holds the elements of s, once each, in the order s first has them.
  ghost predicate FirstSeen(s: seq<nat>, r: seq<nat>) {
    && (forall x :: x in r <==> x in s)
    && forall i, j | 0 <= i < j < |r| :: FirstIndex(s, r[i]) < FirstIndex(s, r[j])
  }

  lemma FirstIndexIs(s: seq<nat>, x: nat, i: nat)
    requires i < |s| && s[i] == x && x !in s[..i]
    ensures FirstIndex(s, x) == i
  {
    var k := FirstIndex(s, x);
    forall j | 0 <= j < i ensures s[j] != x { assert s[..i][j] == s[j]; }
    forall j | 0 <= j < k ensures s[j] != x { assert s[..k][j] == s[j]; }
  }

  lemma FirstIndexInPrefix(s: seq<nat>, x: nat)
    requires s != [] && x in s[..|s| - 1]
    ensures FirstIndex(s, x) == FirstIndex(s[..|s| - 1], x)
  {
    var i := FirstIndex(s[..|s| - 1], x);
    assert s[..|s| - 1][..i] == s[..i];
    FirstIndexIs(s, x, i);
  }

  lemma {:induction false} DedupeKeepsFirstSeen(s: seq<nat>)
    ensures FirstSeen(s, Dedupe(s))
  {
    if s != [] {
      var rest, last := s[..|s| - 1], s[|s| - 1];
      DedupeKeepsFirstSeen(rest);
      assert s == rest + [last];
      var r, r0 := Dedupe(s), Dedupe(rest);
      forall x | x in rest ensures FirstIndex(s, x) == FirstIndex(rest, x) {
        FirstIndexInPrefix(s, x);
      }
      if last !in rest {
        FirstIndexIs(s, last, |s| - 1);
        assert r == r0 + [last];
        forall i, j | 0 <= i < j < |r| ensures FirstIndex(s, r[i]) < FirstIndex(s, r[j]) {
          assert r[i] == r0[i] && r[i] in rest;
          if j < |r0| { assert r[j] == r0[j] && r[j] in rest; }
        }
      }
    }
  }

  ghost predicate Ascending(s: seq<nat>, r: seq<nat>) {
    && (forall x | x in r :: x in s)
    && forall i, j | 0 <= i < j < |r| :: FirstIndex(s, r[i]) < FirstIndex(s, r[j])
  }

  lemma LastIsGreatest(s: seq<nat>, p: seq<nat>, x: nat)
    requires Ascending(s, p) && x in p
    ensures FirstIndex(s, x) <= FirstIndex(s, p[|p| - 1])
    ensures FirstIndex(s, x) == FirstIndex(s, p[|p| - 1]) ==> x == p[|p| - 1]
  {}

  lemma WithoutLast(s: seq<nat>, p: seq<nat>)
    requires Ascending(s, p) && p != []
    ensures Ascending(s, p[..|p| - 1])
    ensures forall z :: z in p[..|p| - 1] <==> z in p && z != p[|p| - 1]
  {
    var x, p0 := p[|p| - 1], p[..|p| - 1];
    assert p == p0 + [x];
    forall i | 0 <= i < |p0| ensures p0[i] in s && p0[i] != x {
      assert p0[i] == p[i];
    }
  }

  // Nothing else is a first-seen listing of s.
  lemma {:induction false} AscendingIsUnique(s: seq<nat>, p: seq<nat>, q: seq<nat>)
    requires Ascending(s, p) && Ascending(s, q)
    requires forall x :: x in p <==> x in q
    ensures p == q
  {
    assert p != [] ==> p[0] in q;
    assert q != [] ==> q[0] in p;
    if p != [] {
      var x, y := p[|p| - 1], q[|q| - 1];
      LastIsGreatest(s, p, y);
      LastIsGreatest(s, q, x);
      assert x == y;
      WithoutLast(s, p);
      WithoutLast(s, q);
      var p0, q0 := p[..|p| - 1], q[..|q| - 1];
      forall z ensures z in p0 <==> z in q0 {
        assert z in p0 <==> z in p && z != x;
        assert z in q0 <==> z in q && z != x;
      }
      AscendingIsUnique(s, p0, q0);
      assert p == p[..|p| - 1] + [x] && q == q[..|q| - 1] + [x];
    }
  }

  lemma DedupeIsUnique(s: seq<nat>, r: seq<nat>)
    ensures FirstSeen(s, r) <==> r == Dedupe(s)
  {
    DedupeKeepsFirstSeen(s);
    if FirstSeen(s, r) {
      AscendingIsUnique(s, r, Dedupe(s));
    }
  }

  function Listed(pages: seq<Page<Commit>>): Listing {
    var total := TotalOf(pages, PagesRead(pages, 0));
    var commits := AllItems(pages);
    if |commits| < total then Truncated(total, |commits|) else Numbers(Dedupe(RangeNumbers(commits)))
  }

  // Appends the numbers not seen before.
  ghost predicate Collected(numbers: seq<nat>, seen: set<nat>, all: seq<nat>) {
    numbers == Dedupe(all) && seen == set x | x in all
  }

  lemma CollectOne(numbers: seq<nat>, seen: set<nat>, all: seq<nat>, n: nat)
    requires Collected(numbers, seen, all)
    ensures Collected(if n in seen then numbers else numbers + [n], seen + {n}, all + [n])
  {
    var more := all + [n];
    assert more[..|more| - 1] == all;
  }

  method AddCommit(commit: Commit, numbers: seq<nat>, seen: set<nat>, ghost all: seq<nat>)
    returns (numbers': seq<nat>, seen': set<nat>)
    requires Collected(numbers, seen, all)
    ensures Collected(numbers', seen', all + CommitNumbers(commit))
  {
    var named := PullNumber(commit.message);
    if named.Some? {
      CollectOne(numbers, seen, all, named.value);
      numbers' := if named.value in seen then numbers else numbers + [named.value];
      return numbers', seen + {named.value};
    }
    numbers', seen' := AddPulls(commit.pulls, numbers, seen, all);
  }

  method AddPulls(pulls: seq<Pull>, numbers: seq<nat>, seen: set<nat>, ghost all: seq<nat>)
    returns (numbers': seq<nat>, seen': set<nat>)
    requires Collected(numbers, seen, all)
    ensures Collected(numbers', seen', all + Flat(pulls, MergedNumber))
  {
    numbers', seen' := numbers, seen;
    ghost var done := all;
    for k := 0 to |pulls|
      invariant done == all + Flat(pulls[..k], MergedNumber)
      invariant Collected(numbers', seen', done)
    {
      FlatStep(all, pulls, k, MergedNumber);
      if !pulls[k].merged { continue; }
      var n := pulls[k].number;
      CollectOne(numbers', seen', done, n);
      if n !in seen' { numbers' := numbers' + [n]; }
      seen' := seen' + {n};
      done := done + [n];
    }
    assert pulls[..|pulls|] == pulls;
  }

  lemma {:induction false} FlatAppend<A>(a: seq<A>, b: seq<A>, f: A -> seq<nat>)
    ensures Flat(a + b, f) == Flat(a, f) + Flat(b, f)
  {
    if b == [] {
      assert a + b == a;
    } else {
      var rest, last := b[..|b| - 1], b[|b| - 1];
      FlatAppend(a, rest, f);
      assert (a + b)[..|a + b| - 1] == a + rest && (a + b)[|a + b| - 1] == last;
    }
  }

  lemma FlatStep<A>(before: seq<nat>, s: seq<A>, k: nat, f: A -> seq<nat>)
    requires k < |s|
    ensures before + Flat(s[..k + 1], f) == before + Flat(s[..k], f) + f(s[k])
  {
    assert s[..k + 1][..k] == s[..k];
  }

  method AddPage(commits: seq<Commit>, numbers: seq<nat>, seen: set<nat>, ghost all: seq<nat>)
    returns (numbers': seq<nat>, seen': set<nat>)
    requires Collected(numbers, seen, all)
    ensures Collected(numbers', seen', all + RangeNumbers(commits))
  {
    numbers', seen' := numbers, seen;
    ghost var done, f := all, CommitNumbers;
    for k := 0 to |commits|
      invariant done == all + Flat(commits[..k], f)
      invariant Collected(numbers', seen', done)
    {
      FlatStep(all, commits, k, f);
      numbers', seen' := AddCommit(commits[k], numbers', seen', done);
      done := done + f(commits[k]);
    }
    assert commits[..|commits|] == commits;
  }

  // What the loop knows once it has walked the first pages.
  ghost predicate Walked(pages: seq<Page<Commit>>, page: nat, scanned: nat, total: nat, all: seq<nat>) {
    && scanned == |ItemsOf(pages, page)| && total == TotalOf(pages, page)
    && all == RangeNumbers(ItemsOf(pages, page))
  }

  lemma WalkOn(pages: seq<Page<Commit>>, page: nat, scanned: nat, total: nat, all: seq<nat>)
    requires Walked(pages, page, scanned, total, all)
    ensures var next := PageAt(pages, page);
            Walked(pages, page + 1, scanned + |next.items|,
                   if next.total.Some? then next.total.value else total, all + RangeNumbers(next.items))
  {
    FlatAppend(ItemsOf(pages, page), PageAt(pages, page).items, CommitNumbers);
  }

  method ListMergedPrNumbers(pages: seq<Page<Commit>>) returns (listing: Listing)
    ensures listing == Listed(pages)
  {
    var numbers: seq<nat>, seen: set<nat> := [], {};
    var scanned: nat, total: nat, page: nat := 0, 0, 0;
    ghost var all: seq<nat> := [];
    while true
      invariant PagesRead(pages, 0) == PagesRead(pages, page)
      invariant Walked(pages, page, scanned, total, all)
      invariant Collected(numbers, seen, all)
      decreases |pages| + 1 - page
    {
      WalkOn(pages, page, scanned, total, all);
      var comparison := PageAt(pages, page);
      if comparison.total.Some? { total := comparison.total.value; }
      var commits := comparison.items;
      scanned := scanned + |commits|;
      numbers, seen := AddPage(commits, numbers, seen, all);
      all := all + RangeNumbers(commits);
      page := page + 1;
      if |commits| < PAGE_SIZE { break; }
    }
    assert page == PagesRead(pages, 0);
    if scanned < total {
      return Truncated(total, scanned);
    }
    return Numbers(numbers);
  }

  // A comparison of a range of commits, of which GitHub serves only the first
  // ones, either lists every pull request of the range or is refused.
  lemma CompleteOrRefused(pages: seq<Page<Commit>>, range: seq<Commit>, served: nat)
    requires served <= |range| && Pages(pages, range[..served])
    requires pages != [] && forall k | 0 <= k < |pages| :: pages[k].total == Some(|range|)
    ensures Listed(pages) == if served < |range| then Truncated(|range|, served)
                             else Numbers(Dedupe(RangeNumbers(range)))
  {
    PagingLosesNothing(pages, range[..served]);
    TotalReported(pages, |range|, PagesRead(pages, 0));
    if served == |range| {
      assert range[..served] == range;
    }
  }

  lemma {:induction false} TotalReported<T>(pages: seq<Page<T>>, total: nat, n: nat)
    requires n > 0 && pages != [] && forall k | 0 <= k < |pages| :: pages[k].total == Some(total)
    ensures TotalOf(pages, n) == total
  {
    if n > 1 { TotalReported(pages, total, n - 1); }
  }

  // --- Classifying one pull request ------------------------------------------------

  datatype PullRequest = PullRequest(title: string, author: Option<string>, url: string,
                                     changedFiles: nat, files: seq<Page<string>>)

  datatype PrEntry = PrEntry(number: nat, title: string, author: Option<string>, url: string,
                             touchesApp: bool, touchesBridge: bool, touchesShared: bool)

  predicate IsAppFile(path: string) {
    StartsWith(path, "mobile/") || (StartsWith(path, "client/") && !StartsWith(path, "client/desktop/"))
  }

  predicate IsBridgeFile(path: string) {
    StartsWith(path, "bridge/")
  }

  predicate IsSharedFile(path: string) {
    StartsWith(path, "shared/")
  }

  // Which side a file's path stands for.
  lemma FileSides(path: string)
    ensures IsAppFile(path) <==>
            || (exists rest :: path == "mobile/" + rest)
            || ((exists rest :: path == "client/" + rest) && !exists rest :: path == "client/desktop/" + rest)
    ensures IsBridgeFile(path) <==> exists rest :: path == "bridge/" + rest
    ensures IsSharedFile(path) <==> exists rest :: path == "shared/" + rest
  {
    PrefixMeaning(path, "mobile/");
    PrefixMeaning(path, "client/");
    PrefixMeaning(path, "client/desktop/");
    PrefixMeaning(path, "bridge/");
    PrefixMeaning(path, "shared/");
  }

  lemma PrefixMeaning(s: string, prefix: string)
    ensures StartsWith(s, prefix) <==> exists rest :: s == prefix + rest
  {
    if StartsWith(s, prefix) { assert s == prefix + s[|prefix|..]; }
    if rest :| s == prefix + rest { assert s[..|prefix|] == prefix; }
  }

  predicate IsExcluded(author: Option<string>) {
    author == Some("dependabot") || author == Some("dependabot[bot]")
  }

  // What the flags say after the given files.
  ghost predicate Flags(files: seq<string>, app: bool, bridge: bool, shared: bool) {
    && (app <==> exists f :: f in files && IsAppFile(f))
    && (bridge <==> exists f :: f in files && IsBridgeFile(f))
    && (shared <==> exists f :: f in files && IsSharedFile(f))
  }

  method AddFiles(paths: seq<string>, app0: bool, bridge0: bool, shared0: bool, ghost before: seq<string>)
    returns (app: bool, bridge: bool, shared: bool)
    requires Flags(before, app0, bridge0, shared0)
    ensures Flags(before + paths, app, bridge, shared)
  {
    app, bridge, shared := app0, bridge0, shared0;
    assert before + paths[..0] == before;
    for k := 0 to |paths|
      invariant Flags(before + paths[..k], app, bridge, shared)
    {
      var path := paths[k];
      FlagsGrow(before + paths[..k], path, app, bridge, shared);
      assert before + paths[..k + 1] == before + paths[..k] + [path];
      app := app || IsAppFile(path);
      bridge := bridge || IsBridgeFile(path);
      shared := shared || IsSharedFile(path);
    }
    assert paths[..|paths|] == paths;
  }

  lemma FlagsGrow(files: seq<string>, path: string, app: bool, bridge: bool, shared: bool)
    requires Flags(files, app, bridge, shared)
    ensures Flags(files + [path], app || IsAppFile(path), bridge || IsBridgeFile(path), shared || IsSharedFile(path))
  {
    var more := files + [path];
    assert path in more && forall f | f in files :: f in more;
  }

  lemma {:induction false} ItemsKept<T>(pages: seq<Page<T>>, k: nat, n: nat)
    requires k <= n
    ensures |ItemsOf(pages, k)| <= |ItemsOf(pages, n)| && ItemsOf(pages, n)[..|ItemsOf(pages, k)|] == ItemsOf(pages, k)
  {
    if k < n {
      ItemsKept(pages, k, n - 1);
    } else {
      assert ItemsOf(pages, n)[..|ItemsOf(pages, n)|] == ItemsOf(pages, n);
    }
  }

  // Once all three flags are set, reading on would not change them.
  lemma FlagsSettled(pages: seq<Page<string>>, k: nat)
    requires k <= PagesRead(pages, 0) && Flags(ItemsOf(pages, k), true, true, true)
    ensures Flags(AllItems(pages), true, true, true)
  {
    ItemsKept(pages, k, PagesRead(pages, 0));
    forall f | f in ItemsOf(pages, k) ensures f in AllItems(pages) {
      assert f in AllItems(pages)[..|ItemsOf(pages, k)|];
    }
  }

  // What the flags promise: exact when every changed file was listed, and on
  // both sides when GitHub listed only some of them.
  ghost predicate Classified(pr: PullRequest, e: PrEntry) {
    var files := AllItems(pr.files);
    var partial := |files| < pr.changedFiles;
    && (e.touchesApp <==> partial || exists f :: f in files && IsAppFile(f))
    && (e.touchesBridge <==> partial || exists f :: f in files && IsBridgeFile(f))
    && (e.touchesShared <==> exists f :: f in files && IsSharedFile(f))
  }

  ghost predicate Shows(pr: PullRequest, e: PrEntry) {
    e.title == pr.title && e.author == pr.author && e.url == pr.url && Classified(pr, e)
  }

  method ListFiles(pages: seq<Page<string>>) returns (listed: nat, app: bool, bridge: bool, shared: bool)
    ensures Flags(AllItems(pages), app, bridge, shared)
    ensures listed == |AllItems(pages)| || (app && bridge && shared)
  {
    app, bridge, shared, listed := false, false, false, 0;
    var page: nat := 0;
    while true
      invariant page <= PagesRead(pages, 0) == PagesRead(pages, page)
      invariant listed == |ItemsOf(pages, page)|
      invariant Flags(ItemsOf(pages, page), app, bridge, shared)
      decreases |pages| + 1 - page
    {
      var files := PageAt(pages, page).items;
      listed := listed + |files|;
      app, bridge, shared := AddFiles(files, app, bridge, shared, ItemsOf(pages, page));
      assert ItemsOf(pages, page + 1) == ItemsOf(pages, page) + files;
      page := page + 1;
      if |files| < PAGE_SIZE { return; }
      if app && bridge && shared {
        FlagsSettled(pages, page);
        return;
      }
    }
  }

  method LoadPr(number: nat, pr: PullRequest) returns (entry: Option<PrEntry>)
    ensures entry == None <==> pr.author == Some("dependabot") || pr.author == Some("dependabot[bot]")
    ensures entry.Some? ==>
              var e := entry.value;
              e.number == number && Shows(pr, e)
  {
    if IsExcluded(pr.author) {
      return None;
    }
    var listed, app, bridge, shared := ListFiles(pr.files);
    if listed < pr.changedFiles && !(app && bridge) {
      app, bridge := true, true;
    }
    return Some(PrEntry(number, pr.title, pr.author, pr.url, app, bridge, shared));
  }

  // The numbers whose pull request is not excluded by its author.
  function Kept(numbers: seq<nat>, fetch: nat -> PullRequest): seq<nat> {
    if numbers == [] then []
    else
      var last := numbers[|numbers| - 1];
      Kept(numbers[..|numbers| - 1], fetch) + if IsExcluded(fetch(last).author) then [] else [last]
  }

  function NumbersOf(entries: seq<PrEntry>): seq<nat> {
    seq(|entries|, i requires 0 <= i < |entries| => entries[i].number)
  }

  method LoadEntries(numbers: seq<nat>, fetch: nat -> PullRequest) returns (entries: seq<PrEntry>)
    ensures NumbersOf(entries) == Kept(numbers, fetch)
    ensures forall e | e in entries :: Shows(fetch(e.number), e)
  {
    entries := [];
    for k := 0 to |numbers|
      invariant NumbersOf(entries) == Kept(numbers[..k], fetch)
      invariant forall e | e in entries :: Shows(fetch(e.number), e)
    {
      assert numbers[..k + 1][..k] == numbers[..k];
      var entry := LoadPr(numbers[k], fetch(numbers[k]));
      if entry.Some? {
        assert NumbersOf(entries + [entry.value]) == NumbersOf(entries) + [numbers[k]];
        entries := entries + [entry.value];
      }
    }
    assert numbers[..|numbers|] == numbers;
  }

  lemma {:induction false} KeptTimes(numbers: seq<nat>, fetch: nat -> PullRequest, n: nat)
    ensures multiset(Kept(numbers, fetch))[n] == if IsExcluded(fetch(n).author) then 0 else multiset(numbers)[n]
  {
    if numbers != [] {
      var rest, last := numbers[..|numbers| - 1], numbers[|numbers| - 1];
      assert numbers == rest + [last];
      KeptTimes(rest, fetch, n);
    }
  }

  lemma {:induction false} DedupeTimes(s: seq<nat>, n: nat)
    ensures multiset(Dedupe(s))[n] == if n in s then 1 else 0
  {
    if s != [] {
      var rest, last := s[..|s| - 1], s[|s| - 1];
      assert s == rest + [last];
      DedupeTimes(rest, n);
    }
  }

  // From the commit walk to the entries: every pull request of a commit walked,
  // unless a bot's, has one entry, and nothing else has any.
  lemma OneEntryPerPull(pages: seq<Page<Commit>>, fetch: nat -> PullRequest, entries: seq<PrEntry>, n: nat)
    requires Listed(pages).Numbers? && NumbersOf(entries) == Kept(Listed(pages).numbers, fetch)
    ensures multiset(NumbersOf(entries))[n] ==
            if && (exists c :: c in AllItems(pages) &&
                     (PullNumber(c.message) == Some(n) || (PullNumber(c.message) == None && Pull(n, true) in c.pulls)))
               && fetch(n).author != Some("dependabot") && fetch(n).author != Some("dependabot[bot]")
            then 1 else 0
  {
    RangeNumbersMeaning(AllItems(pages), n);
    var all := RangeNumbers(AllItems(pages));
    DedupeTimes(all, n);
    KeptTimes(Dedupe(all), fetch, n);
  }
}
