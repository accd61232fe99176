// The store changelog: a header, as many of the newest entries as fit, and an
// exact count of the rest.
module Changelog {
  import opened Decimals
  import Versions

  function Header(sha: string): string {
    "commit: " + sha[..if |sha| < 7 then |sha| else 7]
  }

  function Entries(subjects: seq<string>): (r: seq<string>)
    ensures |r| == |subjects| && forall i | 0 <= i < |r| :: r[i] == "- " + subjects[i]
  {
    if subjects == [] then [] else ["- " + subjects[0]] + Entries(subjects[1..])
  }

  function Footer(omitted: nat): string {
    "+ " + Decimal(omitted) + " others"
  }

  function Join(lines: seq<string>): string {
    if lines == [] then ""
    else if |lines| == 1 then lines[0]
    else Join(lines[..|lines| - 1]) + "\n" + lines[|lines| - 1]
  }

  // The changelog that shows the first k entries and counts the others.
  function Lines(header: string, entries: seq<string>, k: nat): seq<string>
    requires k <= |entries|
  {
    [header] + entries[..k] + if k < |entries| then [Footer(|entries| - k)] else []
  }

  function Text(header: string, entries: seq<string>, k: nat): string
    requires k <= |entries|
  {
    Join(Lines(header, entries, k))
  }

  // Length of the text up to entry k, without a footer.
  function Prefix(header: string, entries: seq<string>, k: nat): nat
    requires k <= |entries|
  {
    if k == 0 then |header| else Prefix(header, entries, k - 1) + 1 + |entries[k - 1]|
  }

  function FooterLength(omitted: nat): nat {
    if omitted > 0 then 1 + |Footer(omitted)| else 0
  }

  // Which number of entries the greedy loop settles on: all of them if the full
  // text fits, else a number that fits while one more does not.
  ghost predicate GreedyChoice(header: string, entries: seq<string>, maxLength: int, shown: nat) {
    && shown <= |entries|
    && (|Text(header, entries, |entries|)| <= maxLength ==> shown == |entries|)
    && (shown > 0 ==> |Text(header, entries, shown)| <= maxLength)
    && (shown < |entries| ==> |Text(header, entries, shown + 1)| > maxLength)
  }

  // The rows of the text: the commit, the first subjects, and, if any is hidden,
  // how many are.
  ghost predicate CountsRest(rows: seq<string>, subjects: seq<string>, sha: string, shown: nat) {
    && shown <= |subjects|
    && |rows| == 1 + shown + (if shown < |subjects| then 1 else 0)
    && rows[0] == "commit: " + (if |sha| < 7 then sha else sha[..7])
    && (forall i | 0 <= i < shown :: rows[1 + i] == "- " + subjects[i])
    && (shown < |subjects| ==> exists d ::
          rows[1 + shown] == "+ " + d + " others" && IsNumeral(d) && Value(d) == |subjects| - shown)
  }

  lemma {:induction false} JoinFirst(first: string, rest: seq<string>)
    requires rest != []
    ensures Join([first] + rest) == first + ['\n'] + Join(rest)
  {
    var all, n := [first] + rest, |rest| - 1;
    assert all[..|all| - 1] == [first] + rest[..n] && all[|all| - 1] == rest[n];
    if n == 0 {
      assert [first] + rest[..n] == [first];
    } else {
      JoinFirst(first, rest[..n]);
    }
  }

  lemma {:induction false} SplitJoin(lines: seq<string>)
    requires lines != [] && forall l | l in lines :: '\n' !in l
    ensures Versions.Split(Join(lines), '\n') == lines
  {
    var first, rest := lines[0], lines[1..];
    assert lines == [first] + rest;
    assert '\n' !in first;
    if rest == [] {
      assert Versions.IndexOf(first, '\n') == -1;
    } else {
      SplitJoin(rest);
      JoinFirst(first, rest);
      Versions.SplitAt(first, '\n', Join(rest));
    }
  }

  lemma FooterReads(n: nat) returns (d: string)
    ensures Footer(n) == "+ " + d + " others" && IsNumeral(d) && Value(d) == n && '\n' !in Footer(n)
  {
    DecimalReadsBack(n);
    d := Decimal(n);
    assert '\n' !in d && '\n' !in "+ " && '\n' !in " others";
  }

  lemma HeaderReads(sha: string)
    ensures Header(sha) == "commit: " + (if |sha| < 7 then sha else sha[..7])
    ensures '\n' !in sha ==> '\n' !in Header(sha)
  {
    assert '\n' !in "commit: ";
  }

  lemma EntryReads(subjects: seq<string>, i: nat)
    requires i < |subjects|
    ensures Entries(subjects)[i] == "- " + subjects[i]
    ensures (forall s | s in subjects :: '\n' !in s) ==> '\n' !in Entries(subjects)[i]
  {
    assert '\n' !in "- " && subjects[i] in subjects;
  }

  lemma LinesCount(subjects: seq<string>, sha: string, shown: nat)
    requires shown <= |subjects|
    ensures CountsRest(Lines(Header(sha), Entries(subjects), shown), subjects, sha, shown)
  {
    var header, entries, footer := Header(sha), Entries(subjects), Footer(|subjects| - shown);
    HeaderReads(sha);
    var d := FooterReads(|subjects| - shown);
    assert Lines(header, entries, shown) == [header] + entries[..shown] + (if shown < |entries| then [footer] else []);
    CountRows(Lines(header, entries, shown), header, entries, footer, subjects, sha, shown, d);
  }

  lemma LinesFit(subjects: seq<string>, sha: string, shown: nat)
    requires shown <= |subjects| && '\n' !in sha && forall s | s in subjects :: '\n' !in s
    ensures forall l | l in Lines(Header(sha), Entries(subjects), shown) :: '\n' !in l
  {
    var header, entries, footer := Header(sha), Entries(subjects), Footer(|subjects| - shown);
    HeaderReads(sha);
    var d := FooterReads(|subjects| - shown);
    forall i | 0 <= i < |entries| ensures '\n' !in entries[i] {
      EntryReads(subjects, i);
    }
    RowsFit(header, entries, footer, shown);
  }

  lemma RowsFit(header: string, entries: seq<string>, footer: string, shown: nat)
    requires shown <= |entries| && '\n' !in header && '\n' !in footer
    requires forall i | 0 <= i < |entries| :: '\n' !in entries[i]
    ensures forall l | l in [header] + entries[..shown] + (if shown < |entries| then [footer] else []) :: '\n' !in l
  {}

  lemma CountRows(rows: seq<string>, header: string, entries: seq<string>, footer: string,
                  subjects: seq<string>, sha: string, shown: nat, d: string)
    requires shown <= |subjects| == |entries|
    requires header == "commit: " + (if |sha| < 7 then sha else sha[..7])
    requires forall i | 0 <= i < shown :: entries[i] == "- " + subjects[i]
    requires footer == "+ " + d + " others" && IsNumeral(d) && Value(d) == |subjects| - shown
    requires rows == [header] + entries[..shown] + (if shown < |entries| then [footer] else [])
    ensures CountsRest(rows, subjects, sha, shown)
  {
    assert shown < |subjects| ==> rows[1 + shown] == "+ " + d + " others";
  }

  lemma TextReads(subjects: seq<string>, sha: string, shown: nat)
    requires shown <= |subjects|
    ensures '\n' !in sha && (forall s | s in subjects :: '\n' !in s) ==>
              CountsRest(Versions.Split(Text(Header(sha), Entries(subjects), shown), '\n'), subjects, sha, shown)
  {
    LinesCount(subjects, sha, shown);
    if '\n' !in sha && forall s | s in subjects :: '\n' !in s {
      LinesFit(subjects, sha, shown);
      SplitJoin(Lines(Header(sha), Entries(subjects), shown));
    }
  }

  method Render(subjects: seq<string>, sha: string, maxLength: int) returns (text: string)
    ensures exists shown ::
              && GreedyChoice(Header(sha), Entries(subjects), maxLength, shown)
              && text == Text(Header(sha), Entries(subjects), shown)
              && ('\n' !in sha && (forall s | s in subjects :: '\n' !in s) ==>
                    CountsRest(Versions.Split(text, '\n'), subjects, sha, shown))
  {
    var header := Header(sha);
    var entries := Entries(subjects);
    var fullText := Join([header] + entries);
    FullText(header, entries);
    if |fullText| <= maxLength {
      assert GreedyChoice(header, entries, maxLength, |entries|);
      TextReads(subjects, sha, |entries|);
      return fullText;
    }
    var lines := Greedy(header, entries, maxLength);
    assert GreedyChoice(header, entries, maxLength, |lines| - 1);
    TextReads(subjects, sha, |lines| - 1);
    var omitted := |entries| - (|lines| - 1);
    if omitted > 0 {
      lines := lines + [Footer(omitted)];
    }
    text := Join(lines);
  }

  // The loop: whole entries, each with the exact footer that would follow it.
  method Greedy(header: string, entries: seq<string>, maxLength: int) returns (lines: seq<string>)
    requires |Text(header, entries, |entries|)| > maxLength
    ensures lines != [] && GreedyChoice(header, entries, maxLength, |lines| - 1)
    ensures lines == [header] + entries[..|lines| - 1]
  {
    var length, index := |header|, 0;
    lines := [header];
    while index < |entries|
      invariant 0 <= index <= |entries|
      invariant lines == [header] + entries[..index]
      invariant length == Prefix(header, entries, index)
      invariant index > 0 ==> |Text(header, entries, index)| <= maxLength
      decreases |entries| - index
    {
      var remaining := |entries| - index - 1;
      var footerLength := FooterLength(remaining);
      TextLength(header, entries, index + 1);
      if length + 1 + |entries[index]| + footerLength > maxLength { break; }
      NextLine(header, entries, index);
      lines := lines + [entries[index]];
      length := length + 1 + |entries[index]|;
      index := index + 1;
    }
  }

  lemma FullText(header: string, entries: seq<string>)
    ensures Lines(header, entries, |entries|) == [header] + entries
  {
    assert entries[..|entries|] == entries;
  }

  lemma NextLine(header: string, entries: seq<string>, k: nat)
    requires k < |entries|
    ensures [header] + entries[..k + 1] == [header] + entries[..k] + [entries[k]]
  {
    assert entries[..k + 1] == entries[..k] + [entries[k]];
  }

  lemma {:induction false} JoinLength(header: string, entries: seq<string>, k: nat)
    requires k <= |entries|
    ensures |Join([header] + entries[..k])| == Prefix(header, entries, k)
  {
    if k > 0 {
      JoinLength(header, entries, k - 1);
      var lines := [header] + entries[..k];
      assert lines[..|lines| - 1] == [header] + entries[..k - 1];
    }
  }

  lemma TextLength(header: string, entries: seq<string>, k: nat)
    requires k <= |entries|
    ensures |Text(header, entries, k)| == Prefix(header, entries, k) + FooterLength(|entries| - k)
  {
    JoinLength(header, entries, k);
    var lines := Lines(header, entries, k);
    if k < |entries| {
      assert lines[..|lines| - 1] == [header] + entries[..k];
    } else {
      assert lines == [header] + entries[..k];
    }
  }

  // --- Greedy is optimal -------------------------------------------------------

  // Showing one more entry makes the text longer while some stay hidden: the
  // count loses at most one digit and an entry adds at least three characters.
  lemma OneMoreIsLonger(header: string, subjects: seq<string>, k: nat)
    requires k + 1 < |subjects|
    ensures |Text(header, Entries(subjects), k)| < |Text(header, Entries(subjects), k + 1)|
  {
    var entries := Entries(subjects);
    TextLength(header, entries, k);
    TextLength(header, entries, k + 1);
    DigitsGrow(|subjects| - k - 1);
  }

  lemma {:induction false} MoreIsLonger(header: string, subjects: seq<string>, j: nat, k: nat)
    requires j < k < |subjects|
    ensures |Text(header, Entries(subjects), j)| < |Text(header, Entries(subjects), k)|
  {
    OneMoreIsLonger(header, subjects, k - 1);
    if j < k - 1 { MoreIsLonger(header, subjects, j, k - 1); }
  }

  // No longer prefix of entries fits with its own exact footer.
  lemma GreedyIsOptimal(header: string, subjects: seq<string>, maxLength: int, shown: nat, k: nat)
    requires GreedyChoice(header, Entries(subjects), maxLength, shown) && shown < k <= |subjects|
    ensures |Text(header, Entries(subjects), k)| > maxLength
  {
    if k < |subjects| && shown + 1 < k {
      MoreIsLonger(header, subjects, shown + 1, k);
    }
  }

  // The text keeps its budget exactly when everything fits or at least the
  // header with the full count does.
  lemma WithinBudget(header: string, subjects: seq<string>, maxLength: int, shown: nat)
    requires GreedyChoice(header, Entries(subjects), maxLength, shown)
    ensures |Text(header, Entries(subjects), shown)| <= maxLength <==>
            || |Text(header, Entries(subjects), 0)| <= maxLength
            || |Text(header, Entries(subjects), |subjects|)| <= maxLength
  {
    if 0 < shown < |subjects| {
      MoreIsLonger(header, subjects, 0, shown);
    }
  }

  // With no room at all the header still goes out.
  lemma NoBudgetIsExceeded(subjects: seq<string>, sha: string, shown: nat)
    requires GreedyChoice(Header(sha), Entries(subjects), 0, shown)
    ensures |Text(Header(sha), Entries(subjects), shown)| > 0
  {
    TextLength(Header(sha), Entries(subjects), 0);
    TextLength(Header(sha), Entries(subjects), |subjects|);
    PrefixHasHeader(Header(sha), Entries(subjects), |subjects|);
    WithinBudget(Header(sha), subjects, 0, shown);
  }

  lemma {:induction false} PrefixHasHeader(header: string, entries: seq<string>, k: nat)
    requires k <= |entries|
    ensures Prefix(header, entries, k) >= |header|
  {
    if k > 0 { PrefixHasHeader(header, entries, k - 1); }
  }
}
