// Choosing the release a set of release notes is compared against.
module ReleaseTags {
  import opened Basics
  import opened Decimals
  import opened Versions

  // ^v(\d+)\.(\d+)\.(\d+)$
  function ParseStableTag(tag: string): Option<Triple> {
    if tag == "" || tag[0] != 'v' then None
    else
      var parts := Split(tag[1..], '.');
      if |parts| == 3 && IsNumeral(parts[0]) && IsNumeral(parts[1]) && IsNumeral(parts[2]) then
        Some(Triple(Value(parts[0]), Value(parts[1]), Value(parts[2])))
      else None
  }

  function Joined(parts: seq<string>, c: char): string
    requires parts != []
  {
    if |parts| == 1 then parts[0] else parts[0] + [c] + Joined(parts[1..], c)
  }

  lemma JoinedCons(head: string, parts: seq<string>, c: char)
    requires parts != []
    ensures Joined([head] + parts, c) == head + [c] + Joined(parts, c)
  {
    assert ([head] + parts)[1..] == parts;
  }

  lemma {:induction false} SplitJoins(s: string, c: char)
    ensures Split(s, c) != [] && Joined(Split(s, c), c) == s
  {
    var i := IndexOf(s, c);
    if i != -1 {
      var rest := s[i + 1..];
      SplitJoins(rest, c);
      JoinedCons(s[..i], Split(rest, c), c);
      assert s == s[..i] + [c] + rest;
    }
  }

  lemma JoinedThree(x: string, y: string, z: string)
    ensures Joined([x, y, z], '.') == Dotted(x, y, z)
  {
    assert [x, y, z][1..] == [y, z] && [y, z][1..] == [z];
    assert Joined([z], '.') == z;
    assert Joined([y, z], '.') == y + ['.'] + z;
  }

  lemma ThreeParts(s: string)
    requires |Split(s, '.')| == 3
    ensures var p := Split(s, '.'); s == Dotted(p[0], p[1], p[2])
  {
    SplitJoins(s, '.');
    var p := Split(s, '.');
    JoinedThree(p[0], p[1], p[2]);
    assert p == [p[0], p[1], p[2]];
  }

  // The tags that parse are the plain vX.Y.Z ones.
  lemma StableTagMeaning(tag: string, t: Triple)
    ensures ParseStableTag(tag) == Some(t) <==> tag != "" && tag[0] == 'v' && IsPlain(tag[1..], t)
  {
    if tag != "" && tag[0] == 'v' {
      if ParseStableTag(tag) == Some(t) {
        ThreeParts(tag[1..]);
      }
      if IsPlain(tag[1..], t) {
        var x, y, z :| IsNumeral(x) && IsNumeral(y) && IsNumeral(z)
                       && tag[1..] == Dotted(x, y, z) && t == Triple(Value(x), Value(y), Value(z));
        assert '.' !in x && '.' !in y && '.' !in z;
        SplitDotted(x, y, z);
      }
    }
  }

  function ExcludedTag(version: string): string {
    "v" + Core(version)
  }

  // The parts of a stable tag strictly below the version being released.
  function Candidate(tag: string, version: string): Option<Triple> {
    var parts := ParseStableTag(tag);
    var target := ParseStableTag(ExcludedTag(version));
    if tag == ExcludedTag(version) || parts == None then None
    else if target.Some? && SemverOrder(parts.value, target.value) >= 0 then None
    else parts
  }

  type TagReader = string -> Option<Triple>

  function Qualifying(version: string): TagReader {
    tag => Candidate(tag, version)
  }

  function Candidates(tags: seq<string>, read: TagReader): seq<Option<Triple>> {
    seq(|tags|, i requires 0 <= i < |tags| => read(tags[i]))
  }

  // The highest of the candidates, and the first of those that tie.
  ghost predicate IsBest(candidates: seq<Option<Triple>>, at: Option<nat>) {
    match at
    case None => forall j | 0 <= j < |candidates| :: candidates[j] == None
    case Some(i) =>
      && i < |candidates| && candidates[i].Some?
      && forall j | 0 <= j < |candidates| && candidates[j].Some? ::
        var order := SemverOrder(candidates[j].value, candidates[i].value);
        order <= 0 && (j < i ==> order < 0)
  }

  lemma BestIsUnique(candidates: seq<Option<Triple>>, a: Option<nat>, b: Option<nat>)
    requires IsBest(candidates, a) && IsBest(candidates, b)
    ensures a == b
  {
    if a.Some? && b.Some? {
      SemverOrderTotal(candidates[a.value].value, candidates[b.value].value, candidates[a.value].value);
    }
  }

  predicate Improves(candidates: seq<Option<Triple>>, at: Option<nat>, c: Option<Triple>)
    requires at.Some? ==> at.value < |candidates| && candidates[at.value].Some?
  {
    c.Some? && (at.Some? ==> SemverOrder(c.value, candidates[at.value].value) > 0)
  }

  // One more tag takes over exactly when it is above the best so far.
  lemma BestGrows(candidates: seq<Option<Triple>>, at: Option<nat>, c: Option<Triple>)
    requires IsBest(candidates, at)
    ensures IsBest(candidates + [c], if Improves(candidates, at, c) then Some(|candidates|) else at)
  {
    if Improves(candidates, at, c) && at.Some? {
      forall j | 0 <= j < |candidates| && candidates[j].Some?
        ensures SemverOrder(candidates[j].value, c.value) < 0
      {
        SemverOrderTotal(candidates[j].value, candidates[at.value].value, c.value);
      }
    }
  }

  lemma NextCandidate(tags: seq<string>, k: nat, read: TagReader, at: Option<nat>)
    requires k < |tags| && IsBest(Candidates(tags[..k], read), at)
    ensures at.Some? ==> at.value < k && read(tags[at.value]).Some?
    ensures var before := Candidates(tags[..k], read);
            IsBest(Candidates(tags[..k + 1], read), if Improves(before, at, read(tags[k])) then Some(k) else at)
  {
    var before := Candidates(tags[..k], read);
    BestGrows(before, at, read(tags[k]));
    assert Candidates(tags[..k + 1], read) == before + [read(tags[k])];
    if at.Some? { assert before[at.value] == read(tags[at.value]); }
  }

  // One candidate against the best so far, as the loop's body does.
  method Consider(tag: string, version: string, excluded: string, target: Option<Triple>, bestParts: Option<Triple>)
    returns (parts: Option<Triple>, improves: bool)
    requires excluded == ExcludedTag(version) && target == ParseStableTag(excluded)
    ensures parts == Candidate(tag, version)
    ensures improves <==> parts.Some? && (bestParts.Some? ==> SemverOrder(parts.value, bestParts.value) > 0)
  {
    if tag == excluded { return None, false; }
    parts := ParseStableTag(tag);
    if parts == None { return None, false; }
    if target != None {
      var order := CompareSemver(parts.value, target.value);
      if order >= 0 { return None, false; }
    }
    if bestParts == None { return parts, true; }
    var order := CompareSemver(parts.value, bestParts.value);
    return parts, order > 0;
  }

  method SelectPreviousStableTag(tags: seq<string>, version: string)
    returns (best: Option<string>)
    ensures exists at: Option<nat> ::
              IsBest(Candidates(tags, Qualifying(version)), at) &&
              best == if at == None then None else Some(tags[at.value])
  {
    var excluded := ExcludedTag(version);
    var target := ParseStableTag(excluded);
    ghost var read := Qualifying(version);
    best := None;
    ghost var at: Option<nat> := None;
    var bestParts: Option<Triple> := None;
    for k := 0 to |tags|
      invariant IsBest(Candidates(tags[..k], read), at)
      invariant at == None ==> best == None && bestParts == None
      invariant at.Some? ==> at.value < k && best == Some(tags[at.value]) && bestParts == read(tags[at.value])
    {
      NextCandidate(tags, k, read, at);
      var parts, improves := Consider(tags[k], version, excluded, target, bestParts);
      if improves {
        best, bestParts, at := Some(tags[k]), parts, Some(k);
      }
    }
    assert tags[..|tags|] == tags;
  }

  lemma CoreOfCore(version: string)
    ensures Core(Core(version)) == Core(version)
  {}

  lemma CandidateParts(tag: string, version: string) returns (parts: Triple, target: Triple)
    requires Candidate(tag, version).Some? && ParseStableTag(ExcludedTag(version)).Some?
    ensures tag != "" && IsPlain(tag[1..], parts) && IsPlain(Core(version), target)
    ensures SemverOrder(parts, target) < 0
  {
    parts, target := ParseStableTag(tag).value, ParseStableTag(ExcludedTag(version)).value;
    StableTagMeaning(tag, parts);
    StableTagMeaning(ExcludedTag(version), target);
    assert ExcludedTag(version)[1..] == Core(version);
  }

  // Whatever the pre-release suffix, the bootstrap too would move from the
  // chosen tag's version up to the one being released.
  lemma BaseIsBelow(num: Reading, tag: string, version: string)
    requires ReadsDecimals(num)
    requires Candidate(tag, version).Some? && ParseStableTag(ExcludedTag(version)).Some?
    ensures Order(num, tag[1..], version) == -1
  {
    var parts, target := CandidateParts(tag, version);
    BelowItsCore(num, tag[1..], version, parts, target);
  }

  lemma BelowItsCore(num: Reading, left: string, version: string, parts: Triple, target: Triple)
    requires ReadsDecimals(num) && IsPlain(left, parts) && IsPlain(Core(version), target)
    requires SemverOrder(parts, target) < 0
    ensures Order(num, left, version) == -1
  {
    PlainParts(num, left, parts);
    PlainParts(num, Core(version), target);
    CoreOfCore(version);
    OrderOfParts(num, left, version, parts, target);
  }

  // The candidates are exactly the plain vX.Y.Z tags but the version's own that
  // are below it, or all of them when the version is not plain.
  lemma CandidateMeaning(tag: string, version: string, t: Triple)
    ensures Candidate(tag, version) == Some(t) <==>
            && tag != "" && tag[0] == 'v' && IsPlain(tag[1..], t) && tag[1..] != Core(version)
            && forall u | IsPlain(Core(version), u) :: SemverOrder(t, u) < 0
  {
    var own := ExcludedTag(version);
    assert own[1..] == Core(version);
    assert tag != "" && tag[0] == 'v' ==> (tag == own <==> tag[1..] == Core(version)) by {
      if tag != "" && tag[0] == 'v' { assert tag == "v" + tag[1..]; }
    }
    StableTagMeaning(tag, t);
    forall u ensures ParseStableTag(own) == Some(u) <==> IsPlain(Core(version), u) {
      StableTagMeaning(own, u);
    }
    if ParseStableTag(own).Some? { assert IsPlain(Core(version), ParseStableTag(own).value); }
  }
}
