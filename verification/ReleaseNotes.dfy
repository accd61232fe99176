// Bucketing the merged pull requests and writing the release notes.
module ReleaseNotes {
  import opened Basics
  import opened Decimals
  import opened MergedPulls
  import Versions

  // --- The conventional-commit prefix of a title ------------------------------------

  datatype Bucket = Added | Fixed | Changed
  datatype Section = App | Bridge

  // \w
  predicate IsWordChar(c: char) {
    'A' <= c <= 'Z' || 'a' <= c <= 'z' || '0' <= c <= '9' || c == '_'
  }

  predicate IsWord(s: string) {
    s != [] && forall i | 0 <= i < |s| :: IsWordChar(s[i])
  }

  function WordRun(s: string): (n: nat)
    ensures n <= |s| && (n > 0 ==> IsWord(s[..n]))
    ensures n < |s| ==> !IsWordChar(s[n])
  {
    if s != [] && IsWordChar(s[0]) then
      var n := WordRun(s[1..]);
      assert s[1..n + 1] == s[1..][..n];
      n + 1
    else 0
  }

  // Where the first ')' stands, or the length of s.
  function CloseAt(s: string): (n: nat)
    ensures n <= |s| && ')' !in s[..n]
    ensures n < |s| ==> s[n] == ')'
  {
    if s == [] || s[0] == ')' then 0
    else
      var n := CloseAt(s[1..]);
      assert s[..n + 1] == [s[0]] + s[1..][..n];
      n + 1
  }

  datatype Prefix = Prefix(kind: string, rest: string)

  // The colon, after an optional '!'.
  function ScanColon(kind: string, s: string): Option<Prefix> {
    var t := if s != [] && s[0] == '!' then s[1..] else s;
    if t != [] && t[0] == ':' then Some(Prefix(kind, t[1..])) else None
  }

  // ^(\w+)(\([^)]*\))?!?: and what follows it.
  function ScanPrefix(title: string): Option<Prefix> {
    var n := WordRun(title);
    if n == 0 then None
    else
      var s := title[n..];
      if s != [] && s[0] == '(' then
        var close := CloseAt(s[1..]);
        if close == |s| - 1 then None else ScanColon(title[..n], s[close + 2..])
      else ScanColon(title[..n], s)
  }

  predicate IsScope(scope: string) {
    scope == "" || (|scope| >= 2 && scope[0] == '(' && scope[|scope| - 1] == ')' && ')' !in scope[..|scope| - 1])
  }

  ghost predicate ReadsAs(title: string, kind: string, scope: string, bang: string, rest: string) {
    && IsWord(kind) && IsScope(scope) && (bang == "" || bang == "!")
    && title == kind + (scope + (bang + (":" + rest)))
  }

  lemma {:induction false} WordRunUpTo(word: string, tail: string)
    requires IsWord(word) && (tail == [] || !IsWordChar(tail[0]))
    ensures WordRun(word + tail) == |word|
  {
    var s := word + tail;
    assert s[1..] == word[1..] + tail;
    if |word| > 1 {
      assert forall i | 0 <= i < |word[1..]| :: word[1..][i] == word[i + 1];
      WordRunUpTo(word[1..], tail);
    } else {
      assert s[1..] == tail;
    }
  }

  lemma {:induction false} CloseAtFirst(inner: string, tail: string)
    requires ')' !in inner
    ensures CloseAt(inner + ")" + tail) == |inner|
  {
    var s := inner + ")" + tail;
    if inner != [] {
      assert s[1..] == inner[1..] + ")" + tail;
      assert inner[0] in inner;
      CloseAtFirst(inner[1..], tail);
    }
  }

  lemma ScanAfterWord(kind: string, tail: string)
    requires IsWord(kind) && tail != [] && !IsWordChar(tail[0])
    ensures tail[0] != '(' ==> ScanPrefix(kind + tail) == ScanColon(kind, tail)
    ensures tail[0] == '(' ==>
              var close := CloseAt(tail[1..]);
              ScanPrefix(kind + tail) == if close == |tail| - 1 then None else ScanColon(kind, tail[close + 2..])
  {
    WordRunUpTo(kind, tail);
    var title := kind + tail;
    assert title[..|kind|] == kind && title[|kind|..] == tail;
  }

  lemma ScanBang(kind: string, bang: string, rest: string)
    requires bang == "" || bang == "!"
    ensures ScanColon(kind, bang + (":" + rest)) == Some(Prefix(kind, rest))
  {
    var s := bang + (":" + rest);
    if bang == "!" {
      assert s[1..] == ":" + rest;
    } else {
      assert s == ":" + rest;
    }
    assert (":" + rest)[1..] == rest;
  }

  lemma ScopeCloses(scope: string, end: string)
    requires IsScope(scope) && scope != ""
    ensures (scope + end)[0] == '('
    ensures CloseAt((scope + end)[1..]) == |scope| - 2 && (scope + end)[|scope|..] == end
  {
    var inner := scope[1..|scope| - 1];
    forall i | 0 <= i < |inner| ensures inner[i] != ')' {
      assert inner[i] == scope[..|scope| - 1][i + 1];
    }
    assert (scope + end)[1..] == inner + ")" + end;
    CloseAtFirst(inner, end);
  }

  lemma ScanReads(title: string, kind: string, scope: string, bang: string, rest: string)
    requires ReadsAs(title, kind, scope, bang, rest)
    ensures ScanPrefix(title) == Some(Prefix(kind, rest))
  {
    var end := bang + (":" + rest);
    ScanBang(kind, bang, rest);
    if scope == "" {
      assert scope + end == end;
    } else {
      ScopeCloses(scope, end);
    }
    ScanAfterWord(kind, scope + end);
  }

  lemma ColonReads(kind: string, s: string) returns (bang: string)
    requires ScanColon(kind, s).Some?
    ensures (bang == "" || bang == "!") && s == bang + (":" + ScanColon(kind, s).value.rest)
  {
    bang := if s[0] == '!' then "!" else "";
  }

  lemma TakeScope(s: string)
    requires s != [] && s[0] == '(' && CloseAt(s[1..]) != |s| - 1
    ensures var end := CloseAt(s[1..]) + 2;
            end <= |s| && IsScope(s[..end]) && s == s[..end] + s[end..]
  {
    var close := CloseAt(s[1..]);
    var scope := s[..close + 2];
    assert s[1..][..close] == scope[1..close + 1];
    assert scope[..|scope| - 1] == "(" + scope[1..close + 1];
    assert s[close + 1] == s[1..][close] == ')';
  }

  lemma ReadsScan(title: string) returns (scope: string, bang: string)
    requires ScanPrefix(title).Some?
    ensures var p := ScanPrefix(title).value; ReadsAs(title, p.kind, scope, bang, p.rest)
  {
    var n := WordRun(title);
    var kind, s := title[..n], title[n..];
    assert title == kind + s;
    scope := "";
    if s[0] == '(' {
      TakeScope(s);
      scope := s[..CloseAt(s[1..]) + 2];
    }
    var end := s[|scope|..];
    assert s == scope + end;
    bang := ColonReads(kind, end);
  }

  // The scanner finds exactly the titles that read as a conventional commit, in
  // the one way they do.
  lemma PrefixMeaning(title: string, kind: string, rest: string)
    ensures ScanPrefix(title) == Some(Prefix(kind, rest)) <==>
            exists scope, bang :: ReadsAs(title, kind, scope, bang, rest)
  {
    if ScanPrefix(title) == Some(Prefix(kind, rest)) {
      var scope, bang := ReadsScan(title);
    }
    if scope, bang :| ReadsAs(title, kind, scope, bang, rest) {
      ScanReads(title, kind, scope, bang, rest);
    }
  }

  // toLowerCase on word characters.
  function Lower(s: string): string {
    seq(|s|, i requires 0 <= i < |s| => if 'A' <= s[i] <= 'Z' then (s[i] as int + 32) as char else s[i])
  }

  function BucketFor(title: string): Bucket {
    var p := ScanPrefix(title);
    if p == None then Changed
    else if Lower(p.value.kind) == "feat" then Added
    else if Lower(p.value.kind) == "fix" || Lower(p.value.kind) == "bug" then Fixed
    else Changed
  }

  ghost predicate IsOfKind(title: string, kind: string) {
    exists k, scope, bang, rest :: ReadsAs(title, k, scope, bang, rest) && Lower(k) == kind
  }

  lemma BucketMeaning(title: string)
    ensures BucketFor(title) == Added <==> IsOfKind(title, "feat")
    ensures BucketFor(title) == Fixed <==> IsOfKind(title, "fix") || IsOfKind(title, "bug")
  {
    if ScanPrefix(title).Some? {
      var scope, bang := ReadsScan(title);
    }
    forall kind | IsOfKind(title, kind)
      ensures ScanPrefix(title).Some? && Lower(ScanPrefix(title).value.kind) == kind
    {
      var k, scope, bang, rest :| ReadsAs(title, k, scope, bang, rest) && Lower(k) == kind;
      ScanReads(title, k, scope, bang, rest);
    }
  }

  // --- The lines of the notes ---------------------------------------------------------

  // \s
  predicate IsSpace(c: char) {
    c in " \t\n\r\U{000B}\U{000C}\U{00A0}\U{1680}\U{2028}\U{2029}\U{202F}\U{205F}\U{3000}\U{FEFF}" ||
    '\U{2000}' <= c <= '\U{200A}'
  }

  function SkipSpace(s: string): string {
    if s != [] && IsSpace(s[0]) then SkipSpace(s[1..]) else s
  }

  // The title without its prefix.
  function Bare(title: string): string {
    var p := ScanPrefix(title);
    if p.Some? then SkipSpace(p.value.rest) else title
  }

  // upper is toUpperCase on one character.
  function Capitalised(s: string, upper: char -> string): string {
    if s == "" then "" else upper(s[0]) + s[1..]
  }

  function DisplayTitle(e: PrEntry, upper: char -> string): string {
    Capitalised(Bare(e.title), upper) + " (#" + Decimal(e.number) + ")" +
    (if e.touchesShared then " *(shared)*" else "")
  }

  // A conventional title is shown from its description on, any other whole, its
  // first character capitalised; then its number, and whether it is shared.
  lemma ShownTitle(e: PrEntry, upper: char -> string, spaces: string, text: string)
    requires forall i | 0 <= i < |spaces| :: IsSpace(spaces[i])
    requires if exists k, scope, bang, rest :: ReadsAs(e.title, k, scope, bang, rest)
             then (text == "" || !IsSpace(text[0])) &&
                  exists k, scope, bang :: ReadsAs(e.title, k, scope, bang, spaces + text)
             else text == e.title
    ensures exists d :: IsNumeral(d) && Value(d) == e.number &&
              DisplayTitle(e, upper) == (if text == "" then "" else upper(text[0]) + text[1..])
                                        + " (#" + d + ")" + (if e.touchesShared then " *(shared)*" else "")
  {
    DecimalReadsBack(e.number);
    if k, scope, bang, rest :| ReadsAs(e.title, k, scope, bang, rest) {
      var k', scope', bang' :| ReadsAs(e.title, k', scope', bang', spaces + text);
      ScanReads(e.title, k', scope', bang', spaces + text);
      SpacesSkipped(spaces, text);
    } else if ScanPrefix(e.title).Some? {
      var scope, bang := ReadsScan(e.title);
      assert false;
    }
    assert Bare(e.title) == text;
  }

  lemma {:induction false} SpacesSkipped(spaces: string, text: string)
    requires forall i | 0 <= i < |spaces| :: IsSpace(spaces[i])
    requires text == "" || !IsSpace(text[0])
    ensures SkipSpace(spaces + text) == text
  {
    if spaces == "" {
      assert spaces + text == text;
    } else {
      assert (spaces + text)[1..] == spaces[1..] + text;
      SpacesSkipped(spaces[1..], text);
    }
  }

  datatype Credit = Credit(author: string, url: string)

  datatype Line =
    | Title
    | SectionHead(section: Section)
    | BucketHead(bucket: Bucket)
    | Item(entry: PrEntry)
    | AllMergedHead
    | Merged(entry: PrEntry)
    | NothingMerged
    | NewContributorsHead
    | FirstContribution(credit: Credit)
    | FullChangelog(repo: string, from: string, to: string)

  function SectionName(s: Section): string {
    if s == App then "App" else "Bridge"
  }

  function BucketName(b: Bucket): string {
    match b case Added => "Added" case Fixed => "Fixed" case Changed => "Changed"
  }

  function MergedText(e: PrEntry): string {
    e.title + (if e.author == None then "" else " by @" + e.author.value) + " in " + e.url
  }

  function CreditText(c: Credit): string {
    "@" + c.author + " made their first contribution in " + c.url
  }

  // What the line looks like, row by row.
  function Rows(l: Line, upper: char -> string): seq<string> {
    match l
    case Title => ["## What's Changed"]
    case SectionHead(s) => ["", "### " + SectionName(s)]
    case BucketHead(b) => ["", "#### " + BucketName(b)]
    case Item(e) => ["- " + DisplayTitle(e, upper)]
    case AllMergedHead => ["", "### All PRs merged"]
    case Merged(e) => ["* " + MergedText(e)]
    case NothingMerged => ["", "No pull requests merged in this range."]
    case NewContributorsHead => ["", "## New Contributors"]
    case FirstContribution(c) => ["* " + CreditText(c)]
    case FullChangelog(repo, from, to) =>
      ["", "**Full Changelog**: https://github.com/" + repo + "/compare/" + from + "..." + to]
  }

  function Unsplit(rows: seq<string>): string {
    if rows == [] then "" else rows[0] + ['\n'] + Unsplit(rows[1..])
  }

  function LineText(l: Line, upper: char -> string): string {
    Unsplit(Rows(l, upper))
  }

  // The lines written, the last one outermost.
  datatype Lines = Start | Then(before: Lines, line: Line)

  function Text(lines: Lines, show: Line -> string): string {
    match lines
    case Start => ""
    case Then(before, l) => Text(before, show) + show(l)
  }

  // --- Reading the lines back ---------------------------------------------------------

  // An entry listed under a section and a bucket.
  datatype Placement = Placement(section: Section, bucket: Bucket, entry: PrEntry)

  datatype List = MergedList | Contributors

  // The headings above the next line.
  datatype Place = Place(section: Option<Section>, bucket: Option<Bucket>, list: Option<List>)

  function Under(at: Place, l: Line): Place {
    match l
    case SectionHead(s) => Place(Some(s), None, None)
    case BucketHead(b) => Place(at.section, Some(b), None)
    case AllMergedHead => Place(None, None, Some(MergedList))
    case NewContributorsHead => Place(None, None, Some(Contributors))
    case _ => at
  }

  // What a reader has found so far: the first line, where it is, what it saw
  // listed, the compare links, the heading still waiting for its first line, and
  // whether every line stood where it belongs.
  datatype Found = Found(first: Option<Line>, at: Place, placements: seq<Placement>, flat: seq<PrEntry>,
                         credits: seq<Credit>, links: seq<Line>, nothing: bool, head: Option<Line>, tidy: bool)

  const NOTHING_FOUND := Found(None, Place(None, None, None), [], [], [], [], false, None, true)

  predicate IsHead(l: Line) {
    l.SectionHead? || l.BucketHead? || l.AllMergedHead? || l.NewContributorsHead?
  }

  predicate Follows(head: Line, next: Line) {
    && (head.SectionHead? ==> next.BucketHead?)
    && (head.BucketHead? ==> next.Item?)
    && (head.AllMergedHead? ==> next.Merged?)
    && (head.NewContributorsHead? ==> next.FirstContribution?)
  }

  predicate InPlace(at: Place, l: Line) {
    && (l.Item? ==> at.section.Some? && at.bucket.Some?)
    && (l.Merged? ==> at.list == Some(MergedList))
    && (l.FirstContribution? ==> at.list == Some(Contributors))
  }

  function ReadLine(f: Found, l: Line): Found {
    Found(
      if f.first == None then Some(l) else f.first,
      Under(f.at, l),
      if l.Item? && InPlace(f.at, l) then
        f.placements + [Placement(f.at.section.value, f.at.bucket.value, l.entry)]
      else f.placements,
      if l.Merged? && InPlace(f.at, l) then f.flat + [l.entry] else f.flat,
      if l.FirstContribution? && InPlace(f.at, l) then f.credits + [l.credit] else f.credits,
      if l.FullChangelog? then f.links + [l] else f.links,
      f.nothing || l.NothingMerged?,
      if IsHead(l) then Some(l) else None,
      f.tidy && InPlace(f.at, l) && (f.head.Some? ==> Follows(f.head.value, l)))
  }

  function Read(lines: Lines): Found {
    match lines
    case Start => NOTHING_FOUND
    case Then(before, l) => ReadLine(Read(before), l)
  }

  // --- Writing ---------------------------------------------------------------------------

  predicate Belongs(e: PrEntry, s: Section) {
    e.touchesShared || (if s == App then e.touchesApp else e.touchesBridge)
  }

  // entries.where(p)
  function Where(entries: seq<PrEntry>, p: PrEntry -> bool): seq<PrEntry> {
    if entries == [] then []
    else
      var last := entries[|entries| - 1];
      Where(entries[..|entries| - 1], p) + if p(last) then [last] else []
  }

  function OfSection(s: Section): PrEntry -> bool {
    (e: PrEntry) => Belongs(e, s)
  }

  function OfBucket(b: Bucket): PrEntry -> bool {
    (e: PrEntry) => BucketFor(e.title) == b
  }

  function OfBoth(s: Section, b: Bucket): PrEntry -> bool {
    (e: PrEntry) => Belongs(e, s) && BucketFor(e.title) == b
  }

  // Entries of one section and bucket, in order.
  function Chosen(entries: seq<PrEntry>, s: Section, b: Bucket): seq<PrEntry> {
    Where(entries, OfBoth(s, b))
  }

  function Placed(entries: seq<PrEntry>, s: Section, b: Bucket): seq<Placement> {
    if entries == [] then []
    else Placed(entries[..|entries| - 1], s, b) + [Placement(s, b, entries[|entries| - 1])]
  }

  // Every placement of the notes: App before Bridge, Added, Fixed, Changed.
  function InSection(entries: seq<PrEntry>, s: Section): seq<Placement> {
    Placed(Chosen(entries, s, Added), s, Added) +
    (Placed(Chosen(entries, s, Fixed), s, Fixed) + Placed(Chosen(entries, s, Changed), s, Changed))
  }

  lemma {:induction false} WhereTwice(entries: seq<PrEntry>, p: PrEntry -> bool, q: PrEntry -> bool, r: PrEntry -> bool)
    requires forall e :: r(e) <==> p(e) && q(e)
    ensures Where(Where(entries, p), q) == Where(entries, r)
  {
    if entries != [] {
      var rest, last := entries[..|entries| - 1], entries[|entries| - 1];
      WhereTwice(rest, p, q, r);
      if p(last) {
        assert Where(entries, p)[..|Where(rest, p)|] == Where(rest, p);
      } else {
        assert Where(entries, p) == Where(rest, p);
      }
    }
  }

  lemma {:induction false} WhereTimes(entries: seq<PrEntry>, p: PrEntry -> bool, e: PrEntry)
    ensures multiset(Where(entries, p))[e] == if p(e) then multiset(entries)[e] else 0
  {
    if entries != [] {
      var rest, last := entries[..|entries| - 1], entries[|entries| - 1];
      assert entries == rest + [last];
      WhereTimes(rest, p, e);
    }
  }

  class NotesBuffer {
    const show: Line -> string
    var text: string
    ghost var lines: Lines
    ghost var found: Found

    ghost predicate Valid()
      reads this
    {
      text == Text(lines, show) && found == Read(lines)
    }

    constructor (show: Line -> string)
      ensures Valid() && this.show == show && lines == Start && found == NOTHING_FOUND
    {
      this.show := show;
      text, lines, found := "", Start, NOTHING_FOUND;
    }

    method Write(l: Line)
      requires Valid()
      modifies this
      ensures Valid() && lines == Then(old(lines), l) && found == ReadLine(old(found), l)
    {
      text := text + show(l);
      lines := Then(lines, l);
      found := ReadLine(found, l);
    }

    method WriteItem(e: PrEntry)
      requires Valid() && found.first.Some? && found.at.section.Some? && found.at.bucket.Some?
      requires found.head.Some? ==> found.head.value.BucketHead?
      modifies this
      ensures Valid()
      ensures var p := Placement(old(found.at.section.value), old(found.at.bucket.value), e);
              found == old(found).(head := None, placements := old(found.placements) + [p])
    {
      Write(Item(e));
    }

    method WriteMergedEntry(e: PrEntry)
      requires Valid() && found.first.Some? && found.at.list == Some(MergedList)
      requires found.head.Some? ==> found.head.value.AllMergedHead?
      modifies this
      ensures Valid() && found == old(found).(head := None, flat := old(found.flat) + [e])
    {
      Write(Merged(e));
    }

    method WriteCredit(c: Credit)
      requires Valid() && found.first.Some? && found.at.list == Some(Contributors)
      requires found.head.Some? ==> found.head.value.NewContributorsHead?
      modifies this
      ensures Valid() && found == old(found).(head := None, credits := old(found.credits) + [c])
    {
      Write(FirstContribution(c));
    }

    // One bucket of a section, left out when it is empty.
    method WriteBucket(entries: seq<PrEntry>, b: Bucket, ghost s: Section)
      requires Valid() && found.first.Some? && found.at.section == Some(s)
      requires found.head.Some? ==> found.head.value.SectionHead?
      modifies this
      ensures Valid() && found.at.section == Some(s)
      ensures found == old(found).(at := found.at, head := if entries == [] then old(found.head) else None,
                                   placements := old(found.placements) + Placed(entries, s, b))
    {
      if entries == [] {
        assert found.placements == found.placements + Placed(entries, s, b);
        return;
      }
      Write(BucketHead(b));
      WriteItems(entries, b, s);
    }

    method WriteItems(entries: seq<PrEntry>, ghost b: Bucket, ghost s: Section)
      requires Valid() && found.first.Some? && found.head == Some(BucketHead(b)) && entries != []
      requires found.at.section == Some(s) && found.at.bucket == Some(b)
      modifies this
      ensures Valid()
      ensures found == old(found).(head := None, placements := old(found.placements) + Placed(entries, s, b))
    {
      ghost var base := found;
      for k := 0 to |entries|
        invariant Valid()
        invariant found == base.(placements := base.placements + Placed(entries[..k], s, b),
                                 head := if k == 0 then base.head else None)
      {
        PlacedStep(entries, k, s, b);
        WriteItem(entries[k]);
      }
      assert entries[..|entries|] == entries;
    }

    method WriteSection(entries: seq<PrEntry>, s: Section)
      requires Valid() && found.first.Some? && found.head == None
      modifies this
      ensures Valid()
      ensures found == old(found).(at := found.at, placements := old(found.placements) + InSection(entries, s))
    {
      var selected := Where(entries, OfSection(s));
      SectionOf(entries, s, found.placements);
      if selected == [] { return; }
      var added, fixed := Where(selected, OfBucket(Added)), Where(selected, OfBucket(Fixed));
      WriteBuckets(s, added, fixed, Where(selected, OfBucket(Changed)));
    }

    method WriteBuckets(s: Section, added: seq<PrEntry>, fixed: seq<PrEntry>, changed: seq<PrEntry>)
      requires Valid() && found.first.Some? && found.head == None
      requires added != [] || fixed != [] || changed != []
      modifies this
      ensures Valid()
      ensures found == old(found).(at := found.at,
                                   placements := old(found.placements) + Placed(added, s, Added)
                                                 + Placed(fixed, s, Fixed) + Placed(changed, s, Changed))
    {
      Write(SectionHead(s));
      WriteBucket(added, Added, s);
      WriteBucket(fixed, Fixed, s);
      WriteBucket(changed, Changed, s);
    }

    method WriteSections(entries: seq<PrEntry>)
      requires Valid() && found.first.Some? && found.head == None && found.placements == []
      modifies this
      ensures Valid()
      ensures found == old(found).(at := found.at,
                                   placements := InSection(entries, App) + InSection(entries, Bridge))
    {
      WriteSection(entries, App);
      assert found.placements == InSection(entries, App);
      WriteSection(entries, Bridge);
    }

    method WriteMerged(entries: seq<PrEntry>)
      requires Valid() && found.first.Some? && found.head == None && found.flat == []
      modifies this
      ensures Valid()
      ensures found == old(found).(at := found.at, flat := entries, nothing := old(found.nothing) || entries == [])
    {
      if entries == [] {
        Write(NothingMerged);
        assert found.flat == entries;
        return;
      }
      Write(AllMergedHead);
      ghost var base := found;
      for k := 0 to |entries|
        invariant Valid()
        invariant found == base.(flat := entries[..k], head := if k == 0 then base.head else None)
      {
        WriteMergedEntry(entries[k]);
      }
      assert entries[..|entries|] == entries;
    }

    method WriteCredits(credits: seq<Credit>)
      requires Valid() && found.first.Some? && found.head == None && found.credits == []
      modifies this
      ensures Valid()
      ensures found == old(found).(at := found.at, credits := credits)
    {
      if credits == [] {
        assert found.credits == credits;
        return;
      }
      Write(NewContributorsHead);
      ghost var base := found;
      for k := 0 to |credits|
        invariant Valid()
        invariant found == base.(credits := credits[..k], head := if k == 0 then base.head else None)
      {
        WriteCredit(credits[k]);
      }
      assert credits[..|credits|] == credits;
    }
  }

  lemma PlacedStep(entries: seq<PrEntry>, k: nat, s: Section, b: Bucket)
    requires k < |entries|
    ensures Placed(entries[..k + 1], s, b) == Placed(entries[..k], s, b) + [Placement(s, b, entries[k])]
  {
    assert entries[..k + 1][..k] == entries[..k];
  }

  lemma SectionOf(entries: seq<PrEntry>, s: Section, before: seq<Placement>)
    ensures var selected := Where(entries, OfSection(s));
            var added, fixed := Where(selected, OfBucket(Added)), Where(selected, OfBucket(Fixed));
            var changed := Where(selected, OfBucket(Changed));
            && before + InSection(entries, s) ==
                 before + Placed(added, s, Added) + Placed(fixed, s, Fixed) + Placed(changed, s, Changed)
            && (selected == [] <==> added == [] && fixed == [] && changed == [])
  {
    var selected := Where(entries, OfSection(s));
    SomeBucket(selected);
    ChosenBySteps(entries, s, Added);
    ChosenBySteps(entries, s, Fixed);
    ChosenBySteps(entries, s, Changed);
    ThreeMore(before, Placed(Chosen(entries, s, Added), s, Added), Placed(Chosen(entries, s, Fixed), s, Fixed),
              Placed(Chosen(entries, s, Changed), s, Changed));
  }

  lemma ChosenBySteps(entries: seq<PrEntry>, s: Section, b: Bucket)
    ensures Where(Where(entries, OfSection(s)), OfBucket(b)) == Chosen(entries, s, b)
  {
    WhereTwice(entries, OfSection(s), OfBucket(b), OfBoth(s, b));
  }

  lemma SomeBucket(selected: seq<PrEntry>)
    ensures selected == [] <==>
            && Where(selected, OfBucket(Added)) == [] && Where(selected, OfBucket(Fixed)) == []
            && Where(selected, OfBucket(Changed)) == []
  {
    if selected != [] {
      var last := selected[|selected| - 1];
      assert OfBucket(BucketFor(last.title))(last);
    }
  }

  lemma ThreeMore(before: seq<Placement>, p: seq<Placement>, q: seq<Placement>, r: seq<Placement>)
    ensures before + (p + (q + r)) == before + p + q + r
  {}

  // The notes read back as the entries: the flat list is all of them, and each
  // section places its own under their buckets. No heading stands empty.
  ghost predicate Lists(lines: Lines, entries: seq<PrEntry>, credits: seq<Credit>) {
    var found := Read(lines);
    && found.placements == InSection(entries, App) + InSection(entries, Bridge)
    && found.flat == entries && found.credits == credits
    && (found.nothing <==> entries == [])
    && found.first == Some(Title) && found.tidy && found.head == None
  }

  // No title, name or address breaks a row.
  ghost predicate Readable(link: Line, entries: seq<PrEntry>, credits: seq<Credit>, upper: char -> string) {
    && OneLine(link, upper)
    && (forall e | e in entries :: IsOneLineEntry(e, upper))
    && forall c | c in credits :: IsRow(CreditText(c))
  }

  // The same as Lists, of the characters themselves.
  ghost predicate TextLists(text: string, entries: seq<PrEntry>, credits: seq<Credit>, upper: char -> string) {
    var seen := ReadText(text);
    && seen.placements == SeenPlacements(InSection(entries, App) + InSection(entries, Bridge), upper)
    && seen.flat == MergedTexts(entries)
    && seen.credits == CreditTexts(credits)
  }

  function Shown(upper: char -> string): Line -> string {
    l => LineText(l, upper)
  }

  method WriteNotes(repo: string, from: string, to: string, entries: seq<PrEntry>, credits: seq<Credit>,
                    show: Line -> string)
    returns (text: string, ghost lines: Lines)
    ensures text == Text(lines, show)
    ensures Read(lines).placements == InSection(entries, App) + InSection(entries, Bridge)
    ensures Read(lines).flat == entries && Read(lines).credits == credits
    ensures Read(lines).nothing <==> entries == []
    ensures Read(lines).first == Some(Title) && Read(lines).tidy && Read(lines).head == None
    ensures Read(lines).links == [FullChangelog(repo, from, to)]
    ensures lines.Then? && lines.line == FullChangelog(repo, from, to)
  {
    var buffer := new NotesBuffer(show);
    buffer.Write(Title);
    buffer.WriteSections(entries);
    buffer.WriteMerged(entries);
    buffer.WriteCredits(credits);
    buffer.Write(FullChangelog(repo, from, to));
    return buffer.text, buffer.lines;
  }

  // --- Reading the characters back -----------------------------------------------------

  // A title listed under a section and a bucket.
  datatype SeenPlacement = SeenPlacement(section: Section, bucket: Bucket, title: string)

  datatype Seen = Seen(at: Place, placements: seq<SeenPlacement>, flat: seq<string>, credits: seq<string>)

  function ReadHead(at: Place, row: string): Place {
    if row == "### App" then Place(Some(App), None, None)
    else if row == "### Bridge" then Place(Some(Bridge), None, None)
    else if row == "#### Added" then Place(at.section, Some(Added), None)
    else if row == "#### Fixed" then Place(at.section, Some(Fixed), None)
    else if row == "#### Changed" then Place(at.section, Some(Changed), None)
    else if row == "### All PRs merged" then Place(None, None, Some(MergedList))
    else if row == "## New Contributors" then Place(None, None, Some(Contributors))
    else at
  }

  function ReadRow(t: Seen, row: string): Seen {
    if row == "" then t
    else if row[0] == '#' then t.(at := ReadHead(t.at, row))
    else if |row| < 2 || row[1] != ' ' then t
    else if row[0] == '-' && t.at.section.Some? && t.at.bucket.Some? then
      t.(placements := t.placements + [SeenPlacement(t.at.section.value, t.at.bucket.value, row[2..])])
    else if row[0] == '*' && t.at.list == Some(MergedList) then t.(flat := t.flat + [row[2..]])
    else if row[0] == '*' && t.at.list == Some(Contributors) then t.(credits := t.credits + [row[2..]])
    else t
  }

  function ReadRows(rows: seq<string>): Seen {
    if rows == [] then Seen(Place(None, None, None), [], [], [])
    else ReadRow(ReadRows(rows[..|rows| - 1]), rows[|rows| - 1])
  }

  function ReadText(text: string): Seen {
    ReadRows(Versions.Split(text, '\n'))
  }

  function SeenPlacements(ps: seq<Placement>, upper: char -> string): seq<SeenPlacement> {
    seq(|ps|, i requires 0 <= i < |ps| =>
      SeenPlacement(ps[i].section, ps[i].bucket, DisplayTitle(ps[i].entry, upper)))
  }

  function MergedTexts(entries: seq<PrEntry>): seq<string> {
    seq(|entries|, i requires 0 <= i < |entries| => MergedText(entries[i]))
  }

  function CreditTexts(credits: seq<Credit>): seq<string> {
    seq(|credits|, i requires 0 <= i < |credits| => CreditText(credits[i]))
  }

  // What the reader of the lines found, as the characters show it.
  function Image(f: Found, upper: char -> string): Seen {
    Seen(f.at, SeenPlacements(f.placements, upper), MergedTexts(f.flat), CreditTexts(f.credits))
  }

  lemma ReadOneRow(rows: seq<string>, row: string)
    ensures ReadRows(rows + [row]) == ReadRow(ReadRows(rows), row)
  {
    var more := rows + [row];
    assert more[..|more| - 1] == rows && more[|more| - 1] == row;
  }

  lemma ReadBlank(rows: seq<string>, row: string)
    ensures ReadRows(rows + ["", row]) == ReadRow(ReadRows(rows), row)
  {
    var blank := rows + [""];
    ReadOneRow(rows, "");
    ReadOneRow(blank, row);
    assert blank + [row] == rows + ["", row];
  }

  // A line that lists nothing only moves the reader.
  predicate ListsNothing(l: Line) {
    !l.Item? && !l.Merged? && !l.FirstContribution?
  }

  lemma ImageMoves(f: Found, l: Line, upper: char -> string)
    requires ListsNothing(l)
    ensures Image(ReadLine(f, l), upper) == Image(f, upper).(at := Under(f.at, l))
  {}

  lemma SectionRow(t: Seen, s: Section)
    ensures ReadRow(t, "### " + SectionName(s)) == t.(at := Place(Some(s), None, None))
  {
    assert "### " + SectionName(s) == if s == App then "### App" else "### Bridge";
  }

  lemma BucketRow(t: Seen, b: Bucket)
    ensures ReadRow(t, "#### " + BucketName(b)) == t.(at := Place(t.at.section, Some(b), None))
  {
    match b
    case Added => assert "#### " + BucketName(b) == "#### Added";
    case Fixed => assert "#### " + BucketName(b) == "#### Fixed";
    case Changed => assert "#### " + BucketName(b) == "#### Changed";
  }

  lemma OtherRows(t: Seen)
    ensures ReadRow(t, "## What's Changed") == t
    ensures ReadRow(t, "### All PRs merged") == t.(at := Place(None, None, Some(MergedList)))
    ensures ReadRow(t, "## New Contributors") == t.(at := Place(None, None, Some(Contributors)))
    ensures ReadRow(t, "No pull requests merged in this range.") == t
  {}

  lemma LinkRow(t: Seen, row: string)
    requires |row| >= 2 && row[0] == '*' && row[1] == '*'
    ensures ReadRow(t, row) == t
  {}

  lemma HeadReads(f: Found, l: Line, rows: seq<string>, upper: char -> string)
    requires ListsNothing(l) && ReadRows(rows) == Image(f, upper)
    ensures ReadRows(rows + Rows(l, upper)) == Image(f, upper).(at := Under(f.at, l))
  {
    var t := Image(f, upper);
    match l
    case Title => ReadOneRow(rows, "## What's Changed"); OtherRows(t);
    case SectionHead(s) => ReadBlank(rows, "### " + SectionName(s)); SectionRow(t, s);
    case BucketHead(b) => ReadBlank(rows, "#### " + BucketName(b)); BucketRow(t, b);
    case AllMergedHead => ReadBlank(rows, "### All PRs merged"); OtherRows(t);
    case NothingMerged => ReadBlank(rows, "No pull requests merged in this range."); OtherRows(t);
    case NewContributorsHead => ReadBlank(rows, "## New Contributors"); OtherRows(t);
    case FullChangelog(repo, from, to) => LinkReads(t, repo, from, to, rows, upper);
  }

  lemma LinkReads(t: Seen, repo: string, from: string, to: string, rows: seq<string>, upper: char -> string)
    requires ReadRows(rows) == t
    ensures ReadRows(rows + Rows(FullChangelog(repo, from, to), upper)) == t
  {
    var head := "**Full Changelog**: https://github.com/";
    var row := head + repo + "/compare/" + from + "..." + to;
    assert row[0] == head[0] && row[1] == head[1];
    ReadBlank(rows, row);
    LinkRow(t, row);
  }

  // Each line's rows are read as the line is, where it belongs.
  lemma RowsReadAsLine(f: Found, l: Line, rows: seq<string>, upper: char -> string)
    requires ReadRows(rows) == Image(f, upper) && InPlace(f.at, l)
    ensures ReadRows(rows + Rows(l, upper)) == Image(ReadLine(f, l), upper)
  {
    if ListsNothing(l) {
      HeadReads(f, l, rows, upper);
      ImageMoves(f, l, upper);
    } else {
      match l
      case Item(e) => ItemReads(f, e, rows, upper);
      case Merged(e) => MergedReads(f, e, rows, upper);
      case FirstContribution(c) => CreditReads(f, c, rows, upper);
    }
  }

  lemma ItemReads(f: Found, e: PrEntry, rows: seq<string>, upper: char -> string)
    requires ReadRows(rows) == Image(f, upper) && InPlace(f.at, Item(e))
    ensures ReadRows(rows + Rows(Item(e), upper)) == Image(ReadLine(f, Item(e)), upper)
  {
    var row := "- " + DisplayTitle(e, upper);
    ReadOneRow(rows, row);
    assert row[0] == '-' && row[1] == ' ' && row[2..] == DisplayTitle(e, upper);
    var p := Placement(f.at.section.value, f.at.bucket.value, e);
    assert SeenPlacements(f.placements + [p], upper) ==
           SeenPlacements(f.placements, upper) + [SeenPlacement(p.section, p.bucket, DisplayTitle(e, upper))];
  }

  lemma MergedReads(f: Found, e: PrEntry, rows: seq<string>, upper: char -> string)
    requires ReadRows(rows) == Image(f, upper) && InPlace(f.at, Merged(e))
    ensures ReadRows(rows + Rows(Merged(e), upper)) == Image(ReadLine(f, Merged(e)), upper)
  {
    var row := "* " + MergedText(e);
    ReadOneRow(rows, row);
    assert row[0] == '*' && row[1] == ' ' && row[2..] == MergedText(e);
    assert MergedTexts(f.flat + [e]) == MergedTexts(f.flat) + [MergedText(e)];
  }

  lemma CreditReads(f: Found, c: Credit, rows: seq<string>, upper: char -> string)
    requires ReadRows(rows) == Image(f, upper) && InPlace(f.at, FirstContribution(c))
    ensures ReadRows(rows + Rows(FirstContribution(c), upper)) == Image(ReadLine(f, FirstContribution(c)), upper)
  {
    var row := "* " + CreditText(c);
    ReadOneRow(rows, row);
    assert row[0] == '*' && row[1] == ' ' && row[2..] == CreditText(c);
    assert CreditTexts(f.credits + [c]) == CreditTexts(f.credits) + [CreditText(c)];
  }

  function AllRows(lines: Lines, upper: char -> string): seq<string> {
    match lines
    case Start => []
    case Then(before, l) => AllRows(before, upper) + Rows(l, upper)
  }

  lemma {:induction false} RowsRead(lines: Lines, upper: char -> string)
    requires Read(lines).tidy
    ensures ReadRows(AllRows(lines, upper)) == Image(Read(lines), upper)
  {
    match lines
    case Start =>
    case Then(before, l) =>
      RowsRead(before, upper);
      RowsReadAsLine(Read(before), l, AllRows(before, upper), upper);
  }

  lemma {:induction false} UnsplitAppend(a: seq<string>, b: seq<string>)
    ensures Unsplit(a + b) == Unsplit(a) + Unsplit(b)
  {
    if a == [] {
      assert a + b == b;
    } else {
      UnsplitAppend(a[1..], b);
      assert (a + b)[0] == a[0] && (a + b)[1..] == a[1..] + b;
    }
  }

  lemma {:induction false} TextIsRows(lines: Lines, upper: char -> string)
    ensures Text(lines, Shown(upper)) == Unsplit(AllRows(lines, upper))
  {
    match lines
    case Start =>
    case Then(before, l) =>
      TextIsRows(before, upper);
      UnsplitAppend(AllRows(before, upper), Rows(l, upper));
  }

  // A row holds no line break.
  predicate IsRow(s: string) {
    '\n' !in s
  }

  lemma SplitFirst(row: string, text: string, rest: seq<string>)
    requires IsRow(row) && Versions.Split(text, '\n') == rest + [""]
    ensures Versions.Split(row + ['\n'] + text, '\n') == [row] + rest + [""]
  {
    Versions.SplitAt(row, '\n', text);
    assert [row] + (rest + [""]) == [row] + rest + [""];
  }

  lemma SplitNothing()
    ensures Versions.Split("", '\n') == [""]
  {}

  lemma {:induction false} SplitUnsplit(rows: seq<string>)
    requires forall i | 0 <= i < |rows| :: IsRow(rows[i])
    ensures Versions.Split(Unsplit(rows), '\n') == rows + [""]
  {
    if rows == [] {
      SplitNothing();
    } else {
      var row, rest := rows[0], rows[1..];
      var text := Unsplit(rest);
      SplitUnsplit(rest);
      SplitFirst(row, text, rest);
      assert [row] + rest == rows;
      assert Unsplit(rows) == row + ['\n'] + text;
    }
  }

  ghost predicate IsOneLineEntry(e: PrEntry, upper: char -> string) {
    IsRow(DisplayTitle(e, upper)) && IsRow(MergedText(e))
  }

  ghost predicate OneLine(l: Line, upper: char -> string) {
    forall i | 0 <= i < |Rows(l, upper)| :: IsRow(Rows(l, upper)[i])
  }

  // Everything found fits on its row.
  ghost predicate Clean(f: Found, upper: char -> string) {
    && (forall i | 0 <= i < |f.placements| :: IsOneLineEntry(f.placements[i].entry, upper))
    && (forall i | 0 <= i < |f.flat| :: IsOneLineEntry(f.flat[i], upper))
    && (forall i | 0 <= i < |f.credits| :: IsRow(CreditText(f.credits[i])))
    && forall i | 0 <= i < |f.links| :: OneLine(f.links[i], upper)
  }

  lemma CleanPrefix(f: Found, g: Found, upper: char -> string)
    requires Clean(g, upper)
    requires f.placements <= g.placements && f.flat <= g.flat && f.credits <= g.credits && f.links <= g.links
    ensures Clean(f, upper)
  {
    forall i | 0 <= i < |f.placements| ensures IsOneLineEntry(f.placements[i].entry, upper) {
      assert f.placements[i] == g.placements[i];
    }
    forall i | 0 <= i < |f.flat| ensures IsOneLineEntry(f.flat[i], upper) {
      assert f.flat[i] == g.flat[i];
    }
    forall i | 0 <= i < |f.credits| ensures IsRow(CreditText(f.credits[i])) {
      assert f.credits[i] == g.credits[i];
    }
    forall i | 0 <= i < |f.links| ensures OneLine(f.links[i], upper) {
      assert f.links[i] == g.links[i];
    }
  }

  lemma ReadLineGrows(f: Found, l: Line)
    ensures var g := ReadLine(f, l);
            f.placements <= g.placements && f.flat <= g.flat && f.credits <= g.credits && f.links <= g.links
  {}

  lemma HeadsFit(l: Line, upper: char -> string)
    requires ListsNothing(l) && !l.FullChangelog?
    ensures OneLine(l, upper)
  {
    match l
    case SectionHead(s) => assert '\n' !in SectionName(s);
    case BucketHead(b) => assert '\n' !in BucketName(b);
    case _ =>
  }

  lemma ListedFits(f: Found, l: Line, upper: char -> string)
    requires Clean(ReadLine(f, l), upper) && InPlace(f.at, l) && (!ListsNothing(l) || l.FullChangelog?)
    ensures OneLine(l, upper)
  {
    var g := ReadLine(f, l);
    match l
    case Item(e) => assert g.placements[|f.placements|].entry == e && IsOneLineEntry(e, upper);
    case Merged(e) => assert g.flat[|f.flat|] == e && IsOneLineEntry(e, upper);
    case FirstContribution(c) => assert g.credits[|f.credits|] == c && IsRow(CreditText(c));
    case FullChangelog(_, _, _) => assert g.links[|f.links|] == l;
  }

  lemma CleanStep(f: Found, l: Line, upper: char -> string)
    requires Clean(ReadLine(f, l), upper) && ReadLine(f, l).tidy
    ensures Clean(f, upper) && f.tidy && OneLine(l, upper)
  {
    ReadLineGrows(f, l);
    CleanPrefix(f, ReadLine(f, l), upper);
    if ListsNothing(l) && !l.FullChangelog? {
      HeadsFit(l, upper);
    } else {
      ListedFits(f, l, upper);
    }
  }

  lemma {:induction false} CleanRows(lines: Lines, upper: char -> string)
    requires Clean(Read(lines), upper) && Read(lines).tidy
    ensures forall i | 0 <= i < |AllRows(lines, upper)| :: IsRow(AllRows(lines, upper)[i])
  {
    match lines
    case Start =>
    case Then(before, l) =>
      CleanStep(Read(before), l, upper);
      CleanRows(before, upper);
      assert forall i | 0 <= i < |Rows(l, upper)| :: IsRow(Rows(l, upper)[i]);
  }

  // The text of clean, tidy lines is read as the lines are.
  lemma TextRead(lines: Lines, upper: char -> string)
    requires Clean(Read(lines), upper) && Read(lines).tidy
    ensures ReadText(Text(lines, Shown(upper))) == Image(Read(lines), upper)
  {
    var rows := AllRows(lines, upper);
    TextIsRows(lines, upper);
    CleanRows(lines, upper);
    SplitUnsplit(rows);
    ReadOneRow(rows, "");
    RowsRead(lines, upper);
  }

  // The shown forms of an entry hold a line break only if one of its fields does.
  lemma EntryFits(e: PrEntry, upper: char -> string)
    requires IsRow(e.title) && IsRow(e.url) && (e.author.Some? ==> IsRow(e.author.value))
    requires forall c :: IsRow(upper(c))
    ensures IsOneLineEntry(e, upper)
  {
    BareFits(e.title);
    DecimalReadsBack(e.number);
    var bare := Bare(e.title);
    assert bare != "" ==> IsRow(bare[1..]);
    assert IsRow(Capitalised(bare, upper));
    assert IsRow(" (#") && IsRow(")") && IsRow(" *(shared)*") && IsRow(" by @") && IsRow(" in ");
  }

  lemma BareFits(title: string)
    requires IsRow(title)
    ensures IsRow(Bare(title))
  {
    if ScanPrefix(title).Some? {
      var scope, bang := ReadsScan(title);
      var p := ScanPrefix(title).value;
      RestFits(title, p.kind, scope, bang, p.rest);
      SkippedFits(p.rest);
    }
  }

  lemma RestFits(title: string, kind: string, scope: string, bang: string, rest: string)
    requires IsRow(title) && ReadsAs(title, kind, scope, bang, rest)
    ensures IsRow(rest)
  {
    var lead := kind + scope + bang + ":";
    assert title == lead + rest;
  }

  lemma {:induction false} SkippedFits(s: string)
    requires IsRow(s)
    ensures IsRow(SkipSpace(s))
  {
    if s != [] && IsSpace(s[0]) { SkippedFits(s[1..]); }
  }

  lemma RenderedIsClean(lines: Lines, link: Line, entries: seq<PrEntry>, credits: seq<Credit>, upper: char -> string)
    requires Lists(lines, entries, credits) && Read(lines).links == [link]
    requires Readable(link, entries, credits, upper)
    ensures Clean(Read(lines), upper)
  {
    PlacementsFit(entries, Read(lines).placements, upper);
  }

  lemma PlacementsFit(entries: seq<PrEntry>, placements: seq<Placement>, upper: char -> string)
    requires placements == InSection(entries, App) + InSection(entries, Bridge)
    requires forall e | e in entries :: IsOneLineEntry(e, upper)
    ensures forall i | 0 <= i < |placements| :: IsOneLineEntry(placements[i].entry, upper)
  {
    forall i | 0 <= i < |placements| ensures IsOneLineEntry(placements[i].entry, upper) {
      PlacedRight(entries, placements[i]);
    }
  }

  // text is notes on the entries: its lines read back as them, and so do its
  // characters when nothing breaks a row.
  ghost predicate NotesOn(text: string, link: Line, entries: seq<PrEntry>, credits: seq<Credit>,
                          upper: char -> string) {
    && (exists lines :: text == Text(lines, Shown(upper)) && Lists(lines, entries, credits) &&
                        lines.Then? && lines.line == link)
    && (Readable(link, entries, credits, upper) ==> TextLists(text, entries, credits, upper))
  }

  lemma TitleText(upper: char -> string)
    ensures LineText(Title, upper) == "## What's Changed\n"
  {
    assert ["## What's Changed"][1..] == [];
  }

  lemma {:induction false} StartsWithFirst(lines: Lines, show: Line -> string) returns (rest: string)
    requires Read(lines).first == Some(Title)
    ensures Text(lines, show) == show(Title) + rest
  {
    if Read(lines.before).first == None {
      NothingRead(lines.before);
      rest := "";
    } else {
      rest := StartsWithFirst(lines.before, show);
      rest := rest + show(lines.line);
    }
  }

  lemma NothingRead(lines: Lines)
    ensures Read(lines).first == None <==> lines == Start
  {}

  lemma UnsplitTwo(a: string, b: string)
    ensures Unsplit([a, b]) == a + ['\n'] + b + ['\n']
  {
    assert [a, b][1..] == [b] && [b][1..] == [];
    assert Unsplit([b]) == b + ['\n'] + "";
    assert Unsplit([a, b]) == a + ['\n'] + (b + ['\n']);
  }

  lemma LinkText(repo: string, from: string, to: string, upper: char -> string)
    ensures LineText(FullChangelog(repo, from, to), upper) ==
            ['\n'] + ("**Full Changelog**: https://github.com/" + repo + "/compare/" + from + "..." + to) + ['\n']
  {
    UnsplitTwo("", "**Full Changelog**: https://github.com/" + repo + "/compare/" + from + "..." + to);
  }

  lemma EndsWithLink(front: string, link: string)
    ensures front + (['\n'] + link + ['\n']) == front + "\n" + link + "\n"
  {}

  method Render(repo: string, from: string, to: string, entries: seq<PrEntry>, credits: seq<Credit>,
                upper: char -> string)
    returns (text: string)
    ensures NotesOn(text, FullChangelog(repo, from, to), entries, credits, upper)
    ensures exists rest :: text == "## What's Changed\n" + rest
    ensures exists front :: text ==
              front + "\n" + ("**Full Changelog**: https://github.com/" + repo + "/compare/" + from + "..." + to) + "\n"
  {
    ghost var lines;
    text, lines := WriteNotes(repo, from, to, entries, credits, Shown(upper));
    assert Lists(lines, entries, credits);
    var rest := StartsWithFirst(lines, Shown(upper));
    TitleText(upper);
    LinkText(repo, from, to, upper);
    EndsWithLink(Text(lines.before, Shown(upper)),
                 "**Full Changelog**: https://github.com/" + repo + "/compare/" + from + "..." + to);
    if Readable(FullChangelog(repo, from, to), entries, credits, upper) {
      RenderedIsClean(lines, FullChangelog(repo, from, to), entries, credits, upper);
      TextRead(lines, upper);
    }
  }

  // --- Nothing lost, nothing twice -------------------------------------------------------

  // How often an entry stands in a section, in whatever bucket.
  function Times(placements: seq<Placement>, s: Section, e: PrEntry): nat {
    if placements == [] then 0
    else
      var last := placements[|placements| - 1];
      Times(placements[..|placements| - 1], s, e) + if last.section == s && last.entry == e then 1 else 0
  }

  lemma {:induction false} TimesAdd(p: seq<Placement>, q: seq<Placement>, s: Section, e: PrEntry)
    ensures Times(p + q, s, e) == Times(p, s, e) + Times(q, s, e)
  {
    if q == [] {
      assert p + q == p;
    } else {
      var rest, last := q[..|q| - 1], q[|q| - 1];
      TimesAdd(p, rest, s, e);
      assert (p + q)[..|p + q| - 1] == p + rest && (p + q)[|p + q| - 1] == last;
    }
  }

  lemma {:induction false} TimesOfPlaced(c: seq<PrEntry>, s: Section, b: Bucket, t: Section, e: PrEntry)
    ensures Times(Placed(c, s, b), t, e) == if s == t then multiset(c)[e] else 0
  {
    if c != [] {
      var rest, last := c[..|c| - 1], c[|c| - 1];
      assert c == rest + [last];
      TimesOfPlaced(rest, s, b, t, e);
      var p := Placed(c, s, b);
      assert p[..|p| - 1] == Placed(rest, s, b) && p[|p| - 1] == Placement(s, b, last);
    }
  }

  lemma ChosenTimes(entries: seq<PrEntry>, s: Section, b: Bucket, e: PrEntry)
    ensures multiset(Chosen(entries, s, b))[e] ==
            if Belongs(e, s) && BucketFor(e.title) == b then multiset(entries)[e] else 0
  {
    WhereTimes(entries, OfBoth(s, b), e);
  }

  lemma TimesPlaced(entries: seq<PrEntry>, s: Section, b: Bucket, t: Section, e: PrEntry)
    ensures Times(Placed(Chosen(entries, s, b), s, b), t, e) ==
            if s == t && Belongs(e, s) && BucketFor(e.title) == b then multiset(entries)[e] else 0
  {
    TimesOfPlaced(Chosen(entries, s, b), s, b, t, e);
    ChosenTimes(entries, s, b, e);
  }

  lemma TimesInSection(entries: seq<PrEntry>, s: Section, t: Section, e: PrEntry)
    ensures Times(InSection(entries, s), t, e) == if s == t && Belongs(e, s) then multiset(entries)[e] else 0
  {
    var added, fixed, changed := Placed(Chosen(entries, s, Added), s, Added),
      Placed(Chosen(entries, s, Fixed), s, Fixed), Placed(Chosen(entries, s, Changed), s, Changed);
    TimesAdd(fixed, changed, t, e);
    TimesAdd(added, fixed + changed, t, e);
    TimesPlaced(entries, s, Added, t, e);
    TimesPlaced(entries, s, Fixed, t, e);
    TimesPlaced(entries, s, Changed, t, e);
  }

  // Each section lists an entry as often as the entries hold it when it belongs
  // there, and never otherwise; a shared one stands in both.
  lemma SectionsConserve(entries: seq<PrEntry>, s: Section, e: PrEntry)
    ensures Times(InSection(entries, App) + InSection(entries, Bridge), s, e) ==
            if Belongs(e, s) then multiset(entries)[e] else 0
  {
    TimesAdd(InSection(entries, App), InSection(entries, Bridge), s, e);
    TimesInSection(entries, App, s, e);
    TimesInSection(entries, Bridge, s, e);
  }

  lemma {:induction false} PlacedFrom(c: seq<PrEntry>, s: Section, b: Bucket, p: Placement)
    requires p in Placed(c, s, b)
    ensures p.entry in c && p.section == s && p.bucket == b
  {
    var rest := c[..|c| - 1];
    if p in Placed(rest, s, b) { PlacedFrom(rest, s, b, p); }
  }

  // Whatever is placed is placed under its own title's bucket, in a section it
  // belongs to.
  lemma PlacedRight(entries: seq<PrEntry>, p: Placement)
    requires p in InSection(entries, App) + InSection(entries, Bridge)
    ensures p.entry in entries && Belongs(p.entry, p.section) && p.bucket == BucketFor(p.entry.title)
  {
    var s := if p in InSection(entries, App) then App else Bridge;
    assert p in InSection(entries, s);
    var b := if p in Placed(Chosen(entries, s, Added), s, Added) then Added
             else if p in Placed(Chosen(entries, s, Fixed), s, Fixed) then Fixed else Changed;
    var c := Chosen(entries, s, b);
    PlacedFrom(c, s, b, p);
    ChosenTimes(entries, s, b, p.entry);
    assert multiset(c)[p.entry] > 0;
  }

  // App comes before Bridge, and in each Added, Fixed, Changed.
  lemma PlacementsOrdered(entries: seq<PrEntry>, i: nat, j: nat)
    requires i < j < |InSection(entries, App) + InSection(entries, Bridge)|
    ensures var placed := InSection(entries, App) + InSection(entries, Bridge);
            var p, q := placed[i], placed[j];
            && !(p.section == Bridge && q.section == App)
            && (p.section == q.section ==>
                  && !(p.bucket == Fixed && q.bucket == Added)
                  && !(p.bucket == Changed && (q.bucket == Added || q.bucket == Fixed)))
  {
    var app, bridge := InSection(entries, App), InSection(entries, Bridge);
    SectionIs(entries, App);
    SectionIs(entries, Bridge);
    if j < |app| {
      SectionOrdered(entries, App, i, j);
    } else if i >= |app| {
      SectionOrdered(entries, Bridge, i - |app|, j - |app|);
    }
  }

  lemma {:induction false} PlacedIs(c: seq<PrEntry>, s: Section, b: Bucket)
    ensures |Placed(c, s, b)| == |c|
    ensures forall i | 0 <= i < |c| :: Placed(c, s, b)[i] == Placement(s, b, c[i])
  {
    if c != [] { PlacedIs(c[..|c| - 1], s, b); }
  }

  lemma SectionIs(entries: seq<PrEntry>, s: Section)
    ensures forall i | 0 <= i < |InSection(entries, s)| :: InSection(entries, s)[i].section == s
  {
    PlacedIs(Chosen(entries, s, Added), s, Added);
    PlacedIs(Chosen(entries, s, Fixed), s, Fixed);
    PlacedIs(Chosen(entries, s, Changed), s, Changed);
  }

  lemma SectionOrdered(entries: seq<PrEntry>, s: Section, i: nat, j: nat)
    requires i < j < |InSection(entries, s)|
    ensures var p, q := InSection(entries, s)[i], InSection(entries, s)[j];
            && !(p.bucket == Fixed && q.bucket == Added)
            && !(p.bucket == Changed && (q.bucket == Added || q.bucket == Fixed))
  {
    PlacedIs(Chosen(entries, s, Added), s, Added);
    PlacedIs(Chosen(entries, s, Fixed), s, Fixed);
    PlacedIs(Chosen(entries, s, Changed), s, Changed);
  }

  // Within one bucket the entries keep the order of the flat list.
  lemma {:induction false} WhereInOrder(entries: seq<PrEntry>, p: PrEntry -> bool, i: nat, j: nat)
    returns (a: nat, b: nat)
    requires i < j < |Where(entries, p)|
    ensures a < b < |entries| && entries[a] == Where(entries, p)[i] && entries[b] == Where(entries, p)[j]
  {
    var n := |entries| - 1;
    if j < |Where(entries[..n], p)| {
      a, b := WhereInOrder(entries[..n], p, i, j);
    } else {
      a := WhereFrom(entries[..n], p, i);
      b := n;
    }
  }

  lemma {:induction false} WhereFrom(entries: seq<PrEntry>, p: PrEntry -> bool, i: nat) returns (a: nat)
    requires i < |Where(entries, p)|
    ensures a < |entries| && entries[a] == Where(entries, p)[i]
  {
    var n := |entries| - 1;
    if i < |Where(entries[..n], p)| {
      a := WhereFrom(entries[..n], p, i);
    } else {
      a := n;
    }
  }

  // --- The whole tool ------------------------------------------------------------------------

  datatype Outcome = Notes(text: string) | Refused(total: nat, scanned: nat)

  // The entries are those of the pull requests listed, in their order.
  ghost predicate Describes(entries: seq<PrEntry>, pages: seq<Page<Commit>>, fetch: nat -> PullRequest) {
    && Listed(pages).Numbers? && NumbersOf(entries) == Kept(Listed(pages).numbers, fetch)
    && forall e | e in entries :: Shows(fetch(e.number), e)
  }

  method Generate(repo: string, from: string, to: string, pages: seq<Page<Commit>>, fetch: nat -> PullRequest,
                  credits: seq<Credit>, upper: char -> string)
    returns (outcome: Outcome)
    ensures outcome.Refused? <==> Listed(pages).Truncated?
    ensures outcome.Refused? ==> outcome.scanned == |AllItems(pages)| < outcome.total
    ensures outcome.Notes? ==> exists entries ::
              && Describes(entries, pages, fetch)
              && NotesOn(outcome.text, FullChangelog(repo, from, to), entries, credits, upper)
  {
    var listing := ListMergedPrNumbers(pages);
    if listing.Truncated? {
      return Refused(listing.total, listing.scanned);
    }
    var entries := LoadEntries(listing.numbers, fetch);
    var text := Render(repo, from, to, entries, credits, upper);
    assert Describes(entries, pages, fetch);
    return Notes(text);
  }

  // A merged pull request stands once in the flat list and once in each section
  // one of its files belongs to, and in both when not all its files were listed.
  lemma EveryPullOnce(pages: seq<Page<Commit>>, fetch: nat -> PullRequest, entries: seq<PrEntry>, n: nat)
    returns (e: PrEntry)
    requires Describes(entries, pages, fetch)
    requires exists c :: c in AllItems(pages) &&
               (PullNumber(c.message) == Some(n) || (PullNumber(c.message) == None && Pull(n, true) in c.pulls))
    requires fetch(n).author != Some("dependabot") && fetch(n).author != Some("dependabot[bot]")
    ensures e.number == n && multiset(entries)[e] == 1 && forall d | d in entries && d.number == n :: d == e
    ensures var files := AllItems(fetch(n).files);
            var placed := InSection(entries, App) + InSection(entries, Bridge);
            var partial := |files| < fetch(n).changedFiles;
            && Times(placed, App, e) ==
                 (if partial || exists f :: f in files && (IsAppFile(f) || IsSharedFile(f)) then 1 else 0)
            && Times(placed, Bridge, e) ==
                 (if partial || exists f :: f in files && (IsBridgeFile(f) || IsSharedFile(f)) then 1 else 0)
  {
    OneEntryPerPull(pages, fetch, entries, n);
    e := TheEntry(entries, n);
    SectionsConserve(entries, App, e);
    SectionsConserve(entries, Bridge, e);
    assert Shows(fetch(n), e);
  }

  lemma {:induction false} TheEntry(entries: seq<PrEntry>, n: nat) returns (e: PrEntry)
    requires multiset(NumbersOf(entries))[n] == 1
    ensures e.number == n && multiset(entries)[e] == 1 && e in entries
    ensures forall d | d in entries && d.number == n :: d == e
  {
    var rest, last := entries[..|entries| - 1], entries[|entries| - 1];
    assert entries == rest + [last];
    assert NumbersOf(entries) == NumbersOf(rest) + [last.number];
    if last.number == n {
      e := last;
      forall d | d in rest ensures d.number != n {
        var i :| 0 <= i < |rest| && rest[i] == d;
        assert NumbersOf(rest)[i] == d.number;
      }
    } else {
      e := TheEntry(rest, n);
    }
  }
}
