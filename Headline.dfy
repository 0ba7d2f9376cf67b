/** The headline fallback of the profile extractor: three regular expressions tried
    in priority order, each written out as the backtracking search a JavaScript
    regex engine performs for it.

      at-pattern        /^(.+?)\s+at\s+(.+?)(?:\s*[|·•–-]|$)/i
      at-sign pattern   /^(.+?)\s*@\s*(.+?)(?:\s*[|·•–-]|$)/i
      separator pattern /^(.+?)\s*[|·•–-]\s*(.+?)$/

    A lazy group `(.+?)` tries its lengths from short to long and never crosses a
    line terminator; a greedy `\s+` / `\s*` tries its lengths from long to short. */
module Headline {
  import opened Wrappers
  import opened Text

  /** The class `[|·•–-]`. */
  predicate IsSeparator(c: char) {
    c == '|' || c == '\U{00B7}' || c == '\U{2022}' || c == '\U{2013}' || c == '-'
  }

  /** The capture groups of a match: role = h[..roleEnd], company = h[compStart..compEnd]. */
  datatype Groups = Groups(roleEnd: nat, compStart: nat, compEnd: nat)

  datatype RoleCompany = RoleCompany(role: Option<string>, company: Option<string>)

  /** End of the longest whitespace run starting at i (what a greedy `\s*` takes). */
  function SpanSpace(h: string, i: nat): (j: nat)
    requires i <= |h|
    ensures i <= j <= |h| && AllSpace(h[i..j]) && (j == |h| || !IsSpace(h[j]))
    decreases |h| - i
  {
    if i < |h| && IsSpace(h[i]) then SpanSpace(h, i + 1) else i
  }

  /** `(?:\s*[|·•–-]|$)` succeeds at position p. */
  predicate Terminates(h: string, p: nat)
    requires p <= |h|
  {
    p == |h| || (SpanSpace(h, p) < |h| && IsSeparator(h[SpanSpace(h, p)]))
  }

  /** A lazy group from s may end at e: it crosses no line terminator and the
      terminator follows. */
  predicate GroupEnds(h: string, s: nat, e: nat)
    requires s <= e <= |h|
  {
    NoLineTerminator(h[s..e]) && Terminates(h, e)
  }

  /** Lazy `(.+?)` starting at s and followed by the terminator: the least end p
      at or after `from`, or None once a line terminator blocks the group. */
  function LazyEnd(h: string, s: nat, from: nat): (r: Option<nat>)
    requires s < from <= |h|
    requires NoLineTerminator(h[s..from - 1])
    ensures r.Some? ==> from <= r.value <= |h| && NoLineTerminator(h[s..r.value])
                        && Terminates(h, r.value)
    ensures r.Some? ==> forall q :: from <= q < r.value ==> !Terminates(h, q)
    ensures r.None? ==> forall e :: from <= e <= |h| ==> !GroupEnds(h, s, e)
    decreases |h| - from
  {
    if IsLineTerminator(h[from - 1]) then
      assert forall e :: from <= e <= |h| ==> h[s..e][from - 1 - s] == h[from - 1];
      None
    else
      assert NoLineTerminator(h[s..from]) by {
        forall t | 0 <= t < from - s ensures !IsLineTerminator(h[s..from][t]) {
          if t < from - 1 - s { assert h[s..from][t] == h[s..from - 1][t]; }
        }
      }
      if Terminates(h, from) then Some(from)
      else LazyEnd(h, s, from + 1)
  }

  /** The company group after a greedy whitespace run that may shrink back to `lo`:
      start positions k, k-1, ..., lo are tried in that order. */
  function CompanyFrom(h: string, lo: nat, k: nat): (r: Option<(nat, nat)>)
    requires lo <= k <= |h|
    ensures r.Some? ==> lo <= r.value.0 <= k && r.value.0 < r.value.1 <= |h|
                        && NoLineTerminator(h[r.value.0..r.value.1]) && Terminates(h, r.value.1)
    ensures r.Some? ==> forall q :: r.value.0 < q < r.value.1 ==> !Terminates(h, q)
    ensures r.Some? ==> forall c, e :: r.value.0 < c <= k && c < e <= |h| ==> !GroupEnds(h, c, e)
    ensures r.None? ==> forall c, e :: lo <= c <= k && c < e <= |h| ==> !GroupEnds(h, c, e)
    decreases k
  {
    var e := if k < |h| then LazyEnd(h, k, k + 1) else None;
    if e.Some? then Some((k, e.value))
    else if k == lo then None
    else CompanyFrom(h, lo, k - 1)
  }

  /** The two letters `at`, in any case, at j. */
  predicate AtWord(h: string, j: nat)
    requires j + 2 <= |h|
  {
    ToLowerChar(h[j]) == 'a' && ToLowerChar(h[j + 1]) == 't'
  }

  /** h[i..c] is the whitespace-delimited, case-insensitive word `at` between
      role and company: whitespace, `at` at some j, whitespace. */
  ghost predicate AtJoint(h: string, i: nat, c: nat) {
    exists j :: i < j && j + 2 < c <= |h| && AllSpace(h[i..j]) && AtWord(h, j) && AllSpace(h[j + 2..c])
  }

  /** h[i..c] is optional whitespace, `@` at some j, optional whitespace. */
  ghost predicate AtSignJoint(h: string, i: nat, c: nat) {
    exists j :: i <= j < c <= |h| && AllSpace(h[i..j]) && h[j] == '@' && AllSpace(h[j + 1..c])
  }

  /** h[i..c] is optional whitespace, one separator character at some j,
      optional whitespace. */
  ghost predicate SeparatorJoint(h: string, i: nat, c: nat) {
    exists j :: i <= j < c <= |h| && AllSpace(h[i..j]) && IsSeparator(h[j]) && AllSpace(h[j + 1..c])
  }

  /** What every match of the three patterns shares: a non-empty role at the start,
      then a joint, then a non-empty company, neither group crossing a line terminator. */
  ghost predicate WellPlaced(h: string, g: Groups) {
    1 <= g.roleEnd < g.compStart < g.compEnd <= |h|
    && NoLineTerminator(h[..g.roleEnd]) && NoLineTerminator(h[g.compStart..g.compEnd])
  }

  /** A piece of an all-whitespace stretch is all whitespace. */
  lemma AllSpaceWithin(h: string, x: nat, y: nat, u: nat, v: nat)
    requires x <= u <= v <= y <= |h|
    requires AllSpace(h[x..y])
    ensures AllSpace(h[u..v])
  {
    forall t | 0 <= t < v - u ensures IsSpace(h[u..v][t]) {
      assert h[u..v][t] == h[x..y][t + u - x];
    }
  }

  /** One more character that is not a line terminator keeps a prefix free of them. */
  lemma NoLineTerminatorExtend(h: string, i: nat)
    requires 1 <= i <= |h| && NoLineTerminator(h[..i - 1]) && !IsLineTerminator(h[i - 1])
    ensures NoLineTerminator(h[..i])
  {
    forall t | 0 <= t < i ensures !IsLineTerminator(h[..i][t]) {
      if t < i - 1 { assert h[..i][t] == h[..i - 1][t]; }
    }
  }

  /** A greedy `\s*` at i runs at least over any whitespace stretch starting at i. */
  lemma {:induction false} SpanSpaceCovers(h: string, i: nat, k: nat)
    requires i <= k <= |h| && AllSpace(h[i..k])
    ensures k <= SpanSpace(h, i)
    decreases k - i
  {
    if i < k {
      assert IsSpace(h[i..k][0]);
      AllSpaceWithin(h, i, k, i + 1, k);
      SpanSpaceCovers(h, i + 1, k);
    }
  }

  /** A greedy `\s*` at i stops at the first character that is not whitespace. */
  lemma SpanSpaceStops(h: string, i: nat, j: nat)
    requires i <= j < |h| && AllSpace(h[i..j]) && !IsSpace(h[j])
    ensures SpanSpace(h, i) == j
  {
    SpanSpaceCovers(h, i, j);
  }

  /** A role ending at i, whitespace up to j, the word `at` there, whitespace,
      then a company group h[c..e]: the groups of an at-pattern match. */
  lemma AtMatchAt(h: string, i: nat, j: nat, c: nat, e: nat)
    requires 1 <= i <= |h| && NoLineTerminator(h[..i - 1]) && !IsLineTerminator(h[i - 1])
    requires j == SpanSpace(h, i) && j > i && j + 2 <= |h|
    requires AtWord(h, j)
    requires j + 3 <= c <= SpanSpace(h, j + 2) && c < e <= |h| && NoLineTerminator(h[c..e])
    ensures WellPlaced(h, Groups(i, c, e)) && AtJoint(h, i, c)
  {
    NoLineTerminatorExtend(h, i);
    AllSpaceWithin(h, j + 2, SpanSpace(h, j + 2), j + 2, c);
  }

  /** A role ending at i, whitespace up to j, `@` there, whitespace, then a
      company group h[c..e]: the groups of an at-sign pattern match. */
  lemma AtSignMatchAt(h: string, i: nat, j: nat, c: nat, e: nat)
    requires 1 <= i <= |h| && NoLineTerminator(h[..i - 1]) && !IsLineTerminator(h[i - 1])
    requires j == SpanSpace(h, i) && j < |h| && h[j] == '@'
    requires j + 1 <= c <= SpanSpace(h, j + 1) && c < e <= |h| && NoLineTerminator(h[c..e])
    ensures WellPlaced(h, Groups(i, c, e)) && AtSignJoint(h, i, c)
  {
    NoLineTerminatorExtend(h, i);
    AllSpaceWithin(h, j + 1, SpanSpace(h, j + 1), j + 1, c);
  }

  /** A role ending at i, whitespace up to j, a separator there, whitespace,
      then a company group h[c..]: the groups of a separator pattern match. */
  lemma SeparatorMatchAt(h: string, i: nat, j: nat, c: nat)
    requires 1 <= i <= |h| && NoLineTerminator(h[..i - 1]) && !IsLineTerminator(h[i - 1])
    requires j == SpanSpace(h, i) && j < |h| && IsSeparator(h[j])
    requires j + 1 <= c <= SpanSpace(h, j + 1) && c < |h| && NoLineTerminator(h[c..])
    ensures WellPlaced(h, Groups(i, c, |h|)) && SeparatorJoint(h, i, c)
  {
    NoLineTerminatorExtend(h, i);
    AllSpaceWithin(h, j + 1, SpanSpace(h, j + 1), j + 1, c);
    assert h[c..|h|] == h[c..];
  }

  /** The rest of the at-pattern once the role group ends at i: greedy
      whitespace, `at`, greedy whitespace, then the company group. */
  function AtAfter(h: string, i: nat): (m: Option<(nat, nat)>)
    requires 1 <= i <= |h| && NoLineTerminator(h[..i - 1]) && !IsLineTerminator(h[i - 1])
    ensures m.Some? ==> WellPlaced(h, Groups(i, m.value.0, m.value.1)) && AtJoint(h, i, m.value.0)
                        && Terminates(h, m.value.1)
  {
    var j := SpanSpace(h, i);
    if j > i && j + 2 <= |h| && AtWord(h, j) && SpanSpace(h, j + 2) > j + 2 then AtCompany(h, i, j)
    else None
  }

  /** The company group after the `at` found at j. */
  function AtCompany(h: string, i: nat, j: nat): (m: Option<(nat, nat)>)
    requires 1 <= i <= |h| && NoLineTerminator(h[..i - 1]) && !IsLineTerminator(h[i - 1])
    requires j == SpanSpace(h, i) && j > i && j + 2 <= |h| && AtWord(h, j) && SpanSpace(h, j + 2) > j + 2
    ensures m.Some? ==> WellPlaced(h, Groups(i, m.value.0, m.value.1)) && AtJoint(h, i, m.value.0)
                        && Terminates(h, m.value.1)
  {
    var m := CompanyFrom(h, j + 3, SpanSpace(h, j + 2));
    if m.Some? then
      AtMatchAt(h, i, j, m.value.0, m.value.1);
      m
    else None
  }

  /** The at-pattern with the role group ending at i, i+1, ... */
  function AtFrom(h: string, i: nat): (r: Option<Groups>)
    requires 1 <= i <= |h| && NoLineTerminator(h[..i - 1])
    ensures r.Some? ==> WellPlaced(h, r.value) && i <= r.value.roleEnd
                        && AtJoint(h, r.value.roleEnd, r.value.compStart)
                        && Terminates(h, r.value.compEnd)
    decreases |h| - i
  {
    if IsLineTerminator(h[i - 1]) then None
    else
      match AtAfter(h, i)
      case Some((c, e)) => Some(Groups(i, c, e))
      case None =>
        if i == |h| then None
        else
          NoLineTerminatorExtend(h, i);
          AtFrom(h, i + 1)
  }

  /** The rest of the at-sign pattern once the role group ends at i. */
  function AtSignAfter(h: string, i: nat): (m: Option<(nat, nat)>)
    requires 1 <= i <= |h| && NoLineTerminator(h[..i - 1]) && !IsLineTerminator(h[i - 1])
    ensures m.Some? ==> WellPlaced(h, Groups(i, m.value.0, m.value.1)) && AtSignJoint(h, i, m.value.0)
                        && Terminates(h, m.value.1)
  {
    var j := SpanSpace(h, i);
    if j < |h| && h[j] == '@' then AtSignCompany(h, i, j) else None
  }

  /** The company group after the `@` found at j. */
  function AtSignCompany(h: string, i: nat, j: nat): (m: Option<(nat, nat)>)
    requires 1 <= i <= |h| && NoLineTerminator(h[..i - 1]) && !IsLineTerminator(h[i - 1])
    requires j == SpanSpace(h, i) && j < |h| && h[j] == '@'
    ensures m.Some? ==> WellPlaced(h, Groups(i, m.value.0, m.value.1)) && AtSignJoint(h, i, m.value.0)
                        && Terminates(h, m.value.1)
  {
    var m := CompanyFrom(h, j + 1, SpanSpace(h, j + 1));
    if m.Some? then
      AtSignMatchAt(h, i, j, m.value.0, m.value.1);
      m
    else None
  }

  /** The at-sign pattern with the role group ending at i, i+1, ... */
  function AtSignFrom(h: string, i: nat): (r: Option<Groups>)
    requires 1 <= i <= |h| && NoLineTerminator(h[..i - 1])
    ensures r.Some? ==> WellPlaced(h, r.value) && i <= r.value.roleEnd
                        && AtSignJoint(h, r.value.roleEnd, r.value.compStart)
                        && Terminates(h, r.value.compEnd)
    decreases |h| - i
  {
    if IsLineTerminator(h[i - 1]) then None
    else
      match AtSignAfter(h, i)
      case Some((c, e)) => Some(Groups(i, c, e))
      case None =>
        if i == |h| then None
        else
          NoLineTerminatorExtend(h, i);
          AtSignFrom(h, i + 1)
  }

  /** A company group from c may run to the end of the headline. */
  predicate TailClear(h: string, c: nat)
    requires c <= |h|
  {
    NoLineTerminator(h[c..])
  }

  /** `\s*(.+?)$` after the separator: start positions k, k-1, ..., lo. */
  function TailFrom(h: string, lo: nat, k: nat): (r: Option<nat>)
    requires lo <= k <= |h|
    ensures r.Some? ==> lo <= r.value <= k && r.value < |h| && NoLineTerminator(h[r.value..])
    ensures r.Some? ==> forall c :: r.value < c <= k && c < |h| ==> !TailClear(h, c)
    ensures r.None? ==> forall c :: lo <= c <= k && c < |h| ==> !TailClear(h, c)
    decreases k
  {
    if k < |h| && NoLineTerminator(h[k..]) then Some(k)
    else if k == lo then None
    else TailFrom(h, lo, k - 1)
  }

  /** The rest of the separator pattern once the role group ends at i: the
      start of the company, which runs to the end. */
  function SeparatorAfter(h: string, i: nat): (c: Option<nat>)
    requires 1 <= i <= |h| && NoLineTerminator(h[..i - 1]) && !IsLineTerminator(h[i - 1])
    ensures c.Some? ==> WellPlaced(h, Groups(i, c.value, |h|)) && SeparatorJoint(h, i, c.value)
  {
    var j := SpanSpace(h, i);
    if j < |h| && IsSeparator(h[j]) then SeparatorTail(h, i, j) else None
  }

  /** The company group after the separator found at j. */
  function SeparatorTail(h: string, i: nat, j: nat): (c: Option<nat>)
    requires 1 <= i <= |h| && NoLineTerminator(h[..i - 1]) && !IsLineTerminator(h[i - 1])
    requires j == SpanSpace(h, i) && j < |h| && IsSeparator(h[j])
    ensures c.Some? ==> WellPlaced(h, Groups(i, c.value, |h|)) && SeparatorJoint(h, i, c.value)
  {
    var c := TailFrom(h, j + 1, SpanSpace(h, j + 1));
    if c.Some? then
      SeparatorMatchAt(h, i, j, c.value);
      c
    else None
  }

  /** The separator pattern with the role group ending at i, i+1, ... */
  function SeparatorFrom(h: string, i: nat): (r: Option<Groups>)
    requires 1 <= i <= |h| && NoLineTerminator(h[..i - 1])
    ensures r.Some? ==> WellPlaced(h, r.value) && i <= r.value.roleEnd && r.value.compEnd == |h|
                        && SeparatorJoint(h, r.value.roleEnd, r.value.compStart)
    decreases |h| - i
  {
    if IsLineTerminator(h[i - 1]) then None
    else
      match SeparatorAfter(h, i)
      case Some(c) => Some(Groups(i, c, |h|))
      case None =>
        if i == |h| then None
        else
          NoLineTerminatorExtend(h, i);
          SeparatorFrom(h, i + 1)
  }

  /** Some start in lo..k admits a company group: the search over them succeeds. */
  lemma CompanyFromFinds(h: string, lo: nat, k: nat, c: nat, e: nat)
    requires lo <= c <= k <= |h| && c < e <= |h| && NoLineTerminator(h[c..e]) && Terminates(h, e)
    ensures CompanyFrom(h, lo, k).Some?
  {
    assert GroupEnds(h, c, e);
  }

  /** The letter a, in either case, is not whitespace. */
  lemma LetterANotSpace(c: char)
    requires ToLowerChar(c) == 'a'
    ensures !IsSpace(c)
  {
    assert c == 'a' || c == 'A';
  }

  /** Whitespace h[i..j], then a character that is not whitespace at j, then
      whitespace h[j + w..c]: the greedy runs from i and from j + w. */
  lemma JointRuns(h: string, i: nat, j: nat, w: nat, c: nat)
    requires i <= j && j + w <= c <= |h| && 1 <= w
    requires AllSpace(h[i..j]) && !IsSpace(h[j]) && AllSpace(h[j + w..c])
    ensures SpanSpace(h, i) == j && c <= SpanSpace(h, j + w)
  {
    SpanSpaceStops(h, i, j);
    SpanSpaceCovers(h, j + w, c);
  }

  /** Some start in lo..k leaves a tail free of line terminators: the search
      over them succeeds. */
  lemma TailFromFinds(h: string, lo: nat, k: nat, c: nat)
    requires lo <= c <= k <= |h| && c < |h| && NoLineTerminator(h[c..])
    ensures TailFrom(h, lo, k).Some?
  {
    assert TailClear(h, c);
  }

  /** An at-joint h[i..c] is read by the search as: greedy whitespace from i up
      to the `at` at j, then greedy whitespace from j + 2 reaching at least c. */
  lemma AtJointParts(h: string, i: nat, c: nat) returns (j: nat)
    requires AtJoint(h, i, c)
    ensures j == SpanSpace(h, i) && i < j && j + 3 <= c <= |h|
    ensures AtWord(h, j)
    ensures c <= SpanSpace(h, j + 2)
  {
    j :| i < j && j + 2 < c <= |h| && AllSpace(h[i..j]) && AtWord(h, j) && AllSpace(h[j + 2..c]);
    LetterANotSpace(h[j]);
    JointRuns(h, i, j, 2, c);
  }

  /** An at-sign joint h[i..c] is read by the search as: greedy whitespace from
      i up to the `@` at j, then greedy whitespace from j + 1 reaching at least c. */
  lemma AtSignJointParts(h: string, i: nat, c: nat) returns (j: nat)
    requires AtSignJoint(h, i, c)
    ensures j == SpanSpace(h, i) && j < c <= |h| && h[j] == '@'
    ensures c <= SpanSpace(h, j + 1)
  {
    j :| i <= j < c <= |h| && AllSpace(h[i..j]) && h[j] == '@' && AllSpace(h[j + 1..c]);
    MarkNotSpace(h[j]);
    JointRuns(h, i, j, 1, c);
  }

  /** A separator joint h[i..c] is read by the search as: greedy whitespace from
      i up to the separator at j, then greedy whitespace from j + 1 reaching at least c. */
  lemma SeparatorJointParts(h: string, i: nat, c: nat) returns (j: nat)
    requires SeparatorJoint(h, i, c)
    ensures j == SpanSpace(h, i) && j < c <= |h| && IsSeparator(h[j])
    ensures c <= SpanSpace(h, j + 1)
  {
    j :| i <= j < c <= |h| && AllSpace(h[i..j]) && IsSeparator(h[j]) && AllSpace(h[j + 1..c]);
    MarkNotSpace(h[j]);
    JointRuns(h, i, j, 1, c);
  }

  /** A role group ending at i, free of line terminators, is where the search
      for the at-pattern first looks. */
  lemma RoleEndReady(h: string, i: nat)
    requires 1 <= i <= |h| && NoLineTerminator(h[..i])
    ensures NoLineTerminator(h[..i - 1]) && !IsLineTerminator(h[i - 1])
  {
    assert h[..i][..i - 1] == h[..i - 1];
    assert h[..i][i - 1] == h[i - 1];
  }

  /** `@` and the separator characters are not whitespace. */
  lemma MarkNotSpace(c: char)
    requires c == '@' || IsSeparator(c)
    ensures !IsSpace(c)
  {
  }

  /** With `at` after the greedy whitespace from i and whitespace after it,
      the rest of the at-pattern is the company search. */
  lemma AtAfterIsCompany(h: string, i: nat, j: nat)
    requires 1 <= i <= |h| && NoLineTerminator(h[..i - 1]) && !IsLineTerminator(h[i - 1])
    requires j == SpanSpace(h, i) && i < j && j + 3 <= |h| && AtWord(h, j) && j + 3 <= SpanSpace(h, j + 2)
    ensures AtAfter(h, i) == CompanyFrom(h, j + 3, SpanSpace(h, j + 2))
  {
    assert AtAfter(h, i) == AtCompany(h, i, j);
  }

  /** With `@` after the greedy whitespace from i, the rest of the at-sign
      pattern is the company search. */
  lemma AtSignAfterIsCompany(h: string, i: nat, j: nat)
    requires 1 <= i <= |h| && NoLineTerminator(h[..i - 1]) && !IsLineTerminator(h[i - 1])
    requires j == SpanSpace(h, i) && j < |h| && h[j] == '@'
    ensures AtSignAfter(h, i) == CompanyFrom(h, j + 1, SpanSpace(h, j + 1))
  {
    assert AtSignAfter(h, i) == AtSignCompany(h, i, j);
  }

  /** With a separator after the greedy whitespace from i, the rest of the
      separator pattern is the tail search. */
  lemma SeparatorAfterIsTail(h: string, i: nat, j: nat)
    requires 1 <= i <= |h| && NoLineTerminator(h[..i - 1]) && !IsLineTerminator(h[i - 1])
    requires j == SpanSpace(h, i) && j < |h| && IsSeparator(h[j])
    ensures SeparatorAfter(h, i) == TailFrom(h, j + 1, SpanSpace(h, j + 1))
  {
    assert SeparatorAfter(h, i) == SeparatorTail(h, i, j);
  }

  /** The rest of the at-pattern succeeds at i once a company group h[c..e]
      can follow the `at` at j. */
  lemma AtAfterAt(h: string, i: nat, j: nat, c: nat, e: nat)
    requires 1 <= i <= |h| && NoLineTerminator(h[..i - 1]) && !IsLineTerminator(h[i - 1])
    requires j == SpanSpace(h, i) && i < j && j + 3 <= |h| && AtWord(h, j)
    requires j + 3 <= c <= SpanSpace(h, j + 2) && c < e <= |h| && NoLineTerminator(h[c..e]) && Terminates(h, e)
    ensures AtAfter(h, i).Some?
  {
    AtAfterIsCompany(h, i, j);
    CompanyFromFinds(h, j + 3, SpanSpace(h, j + 2), c, e);
  }

  /** The rest of the at-sign pattern succeeds at i once a company group h[c..e]
      can follow the `@` at j. */
  lemma AtSignAfterAt(h: string, i: nat, j: nat, c: nat, e: nat)
    requires 1 <= i <= |h| && NoLineTerminator(h[..i - 1]) && !IsLineTerminator(h[i - 1])
    requires j == SpanSpace(h, i) && j < |h| && h[j] == '@'
    requires j + 1 <= c <= SpanSpace(h, j + 1) && c < e <= |h| && NoLineTerminator(h[c..e]) && Terminates(h, e)
    ensures AtSignAfter(h, i).Some?
  {
    AtSignAfterIsCompany(h, i, j);
    CompanyFromFinds(h, j + 1, SpanSpace(h, j + 1), c, e);
  }

  /** The rest of the separator pattern succeeds at i once a tail h[c..] can
      follow the separator at j. */
  lemma SeparatorAfterAt(h: string, i: nat, j: nat, c: nat)
    requires 1 <= i <= |h| && NoLineTerminator(h[..i - 1]) && !IsLineTerminator(h[i - 1])
    requires j == SpanSpace(h, i) && j < |h| && IsSeparator(h[j])
    requires j + 1 <= c <= SpanSpace(h, j + 1) && c < |h| && NoLineTerminator(h[c..])
    ensures SeparatorAfter(h, i).Some?
  {
    SeparatorAfterIsTail(h, i, j);
    TailFromFinds(h, j + 1, SpanSpace(h, j + 1), c);
  }

  /** At the role end of an at-pattern match the rest of the pattern succeeds. */
  lemma AtAfterFinds(h: string, g: Groups)
    requires WellPlaced(h, g) && AtJoint(h, g.roleEnd, g.compStart) && Terminates(h, g.compEnd)
    ensures NoLineTerminator(h[..g.roleEnd - 1]) && !IsLineTerminator(h[g.roleEnd - 1])
    ensures AtAfter(h, g.roleEnd).Some?
  {
    var i := g.roleEnd;
    RoleEndReady(h, i);
    var j := AtJointParts(h, i, g.compStart);
    AtAfterAt(h, i, j, g.compStart, g.compEnd);
  }

  /** The search for the at-pattern is complete and its role group lazy: if the
      headline matches the at-pattern with a role ending at or after i, the
      search from i finds a match, and its role is no longer than that one. */
  lemma {:induction false} AtFromFinds(h: string, i: nat, g: Groups)
    requires WellPlaced(h, g) && AtJoint(h, g.roleEnd, g.compStart) && Terminates(h, g.compEnd)
    requires 1 <= i <= g.roleEnd && NoLineTerminator(h[..i - 1])
    ensures AtFrom(h, i).Some? && AtFrom(h, i).value.roleEnd <= g.roleEnd
    decreases g.roleEnd - i
  {
    if i == g.roleEnd {
      AtAfterFinds(h, g);
    } else {
      assert h[..g.roleEnd][i - 1] == h[i - 1];
      NoLineTerminatorExtend(h, i);
      AtFromFinds(h, i + 1, g);
    }
  }

  /** At the role end of an at-sign pattern match the rest of the pattern succeeds. */
  lemma AtSignAfterFinds(h: string, g: Groups)
    requires WellPlaced(h, g) && AtSignJoint(h, g.roleEnd, g.compStart) && Terminates(h, g.compEnd)
    ensures NoLineTerminator(h[..g.roleEnd - 1]) && !IsLineTerminator(h[g.roleEnd - 1])
    ensures AtSignAfter(h, g.roleEnd).Some?
  {
    var i := g.roleEnd;
    RoleEndReady(h, i);
    var j := AtSignJointParts(h, i, g.compStart);
    AtSignAfterAt(h, i, j, g.compStart, g.compEnd);
  }

  /** The same completeness and laziness for the at-sign pattern. */
  lemma {:induction false} AtSignFromFinds(h: string, i: nat, g: Groups)
    requires WellPlaced(h, g) && AtSignJoint(h, g.roleEnd, g.compStart) && Terminates(h, g.compEnd)
    requires 1 <= i <= g.roleEnd && NoLineTerminator(h[..i - 1])
    ensures AtSignFrom(h, i).Some? && AtSignFrom(h, i).value.roleEnd <= g.roleEnd
    decreases g.roleEnd - i
  {
    if i == g.roleEnd {
      AtSignAfterFinds(h, g);
    } else {
      assert h[..g.roleEnd][i - 1] == h[i - 1];
      NoLineTerminatorExtend(h, i);
      AtSignFromFinds(h, i + 1, g);
    }
  }

  /** At the role end of a separator pattern match the rest of the pattern succeeds. */
  lemma SeparatorAfterFinds(h: string, g: Groups)
    requires WellPlaced(h, g) && g.compEnd == |h| && SeparatorJoint(h, g.roleEnd, g.compStart)
    ensures NoLineTerminator(h[..g.roleEnd - 1]) && !IsLineTerminator(h[g.roleEnd - 1])
    ensures SeparatorAfter(h, g.roleEnd).Some?
  {
    var i := g.roleEnd;
    RoleEndReady(h, i);
    var j := SeparatorJointParts(h, i, g.compStart);
    assert h[g.compStart..] == h[g.compStart..g.compEnd];
    SeparatorAfterAt(h, i, j, g.compStart);
  }

  /** The same completeness and laziness for the separator pattern. */
  lemma {:induction false} SeparatorFromFinds(h: string, i: nat, g: Groups)
    requires WellPlaced(h, g) && g.compEnd == |h| && SeparatorJoint(h, g.roleEnd, g.compStart)
    requires 1 <= i <= g.roleEnd && NoLineTerminator(h[..i - 1])
    ensures SeparatorFrom(h, i).Some? && SeparatorFrom(h, i).value.roleEnd <= g.roleEnd
    decreases g.roleEnd - i
  {
    if i == g.roleEnd {
      SeparatorAfterFinds(h, g);
    } else {
      assert h[..g.roleEnd][i - 1] == h[i - 1];
      NoLineTerminatorExtend(h, i);
      SeparatorFromFinds(h, i + 1, g);
    }
  }

  function AtPattern(h: string): Option<Groups> {
    if h == "" then None else AtFrom(h, 1)
  }

  function AtSignPattern(h: string): Option<Groups> {
    if h == "" then None else AtSignFrom(h, 1)
  }

  function SeparatorPattern(h: string): Option<Groups> {
    if h == "" then None else SeparatorFrom(h, 1)
  }

  /** Both groups of a match, trimmed. */
  function Captured(h: string, g: Groups): (r: RoleCompany)
    requires g.roleEnd <= g.compStart <= g.compEnd <= |h|
    ensures r.role.Some? && r.company.Some?
    ensures IsTrimmed(r.role.value) && IsTrimmed(r.company.value)
  {
    RoleCompany(Some(Trim(h[..g.roleEnd])), Some(Trim(h[g.compStart..g.compEnd])))
  }

  /** `parseHeadlineForRoleCompany`: the first of the three patterns that matches
      supplies both groups, trimmed; otherwise both are null. */
  function ParseHeadline(headline: Option<string>): (r: RoleCompany)
    ensures headline.None? || headline.value == "" ==> r.role.None? && r.company.None?
    ensures r.role.Some? <==> r.company.Some?
    ensures r.role.Some? ==> IsTrimmed(r.role.value) && IsTrimmed(r.company.value)
  {
    if headline.None? || headline.value == "" then RoleCompany(None, None)
    else
      var h := headline.value;
      match AtPattern(h)
      case Some(g) => Captured(h, g)
      case None =>
        match AtSignPattern(h)
        case Some(g) => Captured(h, g)
        case None =>
          match SeparatorPattern(h)
          case Some(g) => Captured(h, g)
          case None => RoleCompany(None, None)
  }

  /** Whenever the parser reports a role and a company, the headline really has that
      shape: a role text at the start, one of the three joints, then the company text. */
  lemma {:induction false} ParsedComesFromAMatch(h: string)
    requires h != ""
    ensures var r := ParseHeadline(Some(h));
            r.role.Some? ==>
              exists g: Groups :: WellPlaced(h, g) && r == Captured(h, g)
                && (AtJoint(h, g.roleEnd, g.compStart) || AtSignJoint(h, g.roleEnd, g.compStart)
                    || SeparatorJoint(h, g.roleEnd, g.compStart))
  {
    var r := ParseHeadline(Some(h));
    if AtPattern(h).Some? {
      var g := AtPattern(h).value;
      assert r == Captured(h, g);
    } else if AtSignPattern(h).Some? {
      var g := AtSignPattern(h).value;
      assert r == Captured(h, g);
    } else if SeparatorPattern(h).Some? {
      var g := SeparatorPattern(h).value;
      assert r == Captured(h, g);
    }
  }

  /** A headline with an at-pattern match anywhere: the at-pattern search finds a
      match whose role is no longer than that one's, and the parser reports it. */
  lemma AtPatternWins(h: string, g: Groups)
    requires WellPlaced(h, g) && AtJoint(h, g.roleEnd, g.compStart) && Terminates(h, g.compEnd)
    ensures AtPattern(h).Some? && AtPattern(h).value.roleEnd <= g.roleEnd
    ensures ParseHeadline(Some(h)) == Captured(h, AtPattern(h).value)
  {
    AtFromFinds(h, 1, g);
  }

  /** Without an at-pattern match, an at-sign match anywhere makes the at-sign
      search succeed with a role no longer than that one's, and the parser reports it. */
  lemma AtSignPatternNext(h: string, g: Groups)
    requires AtPattern(h).None?
    requires WellPlaced(h, g) && AtSignJoint(h, g.roleEnd, g.compStart) && Terminates(h, g.compEnd)
    ensures AtSignPattern(h).Some? && AtSignPattern(h).value.roleEnd <= g.roleEnd
    ensures ParseHeadline(Some(h)) == Captured(h, AtSignPattern(h).value)
  {
    AtSignFromFinds(h, 1, g);
  }

  /** Without an at-pattern or at-sign match, a separator match anywhere makes the
      separator search succeed with a role no longer than that one's, and the
      parser reports it. */
  lemma SeparatorPatternLast(h: string, g: Groups)
    requires AtPattern(h).None? && AtSignPattern(h).None?
    requires WellPlaced(h, g) && g.compEnd == |h| && SeparatorJoint(h, g.roleEnd, g.compStart)
    ensures SeparatorPattern(h).Some? && SeparatorPattern(h).value.roleEnd <= g.roleEnd
    ensures ParseHeadline(Some(h)) == Captured(h, SeparatorPattern(h).value)
  {
    SeparatorFromFinds(h, 1, g);
  }

  /** Each pattern's search succeeds whenever the headline has a match of that pattern. */
  lemma MatchesAreFound(h: string, g: Groups)
    requires WellPlaced(h, g)
    ensures AtJoint(h, g.roleEnd, g.compStart) && Terminates(h, g.compEnd) ==> AtPattern(h).Some?
    ensures AtSignJoint(h, g.roleEnd, g.compStart) && Terminates(h, g.compEnd) ==> AtSignPattern(h).Some?
    ensures SeparatorJoint(h, g.roleEnd, g.compStart) && g.compEnd == |h| ==> SeparatorPattern(h).Some?
  {
    if AtJoint(h, g.roleEnd, g.compStart) && Terminates(h, g.compEnd) {
      AtFromFinds(h, 1, g);
    }
    if AtSignJoint(h, g.roleEnd, g.compStart) && Terminates(h, g.compEnd) {
      AtSignFromFinds(h, 1, g);
    }
    if SeparatorJoint(h, g.roleEnd, g.compStart) && g.compEnd == |h| {
      SeparatorFromFinds(h, 1, g);
    }
  }

  /** A non-empty headline the parser leaves without role and company matches
      none of the three patterns, with any groups. */
  lemma UnparsedMatchesNothing(h: string, g: Groups)
    requires h != "" && ParseHeadline(Some(h)).role.None? && WellPlaced(h, g)
    ensures !(AtJoint(h, g.roleEnd, g.compStart) && Terminates(h, g.compEnd))
    ensures !(AtSignJoint(h, g.roleEnd, g.compStart) && Terminates(h, g.compEnd))
    ensures !(SeparatorJoint(h, g.roleEnd, g.compStart) && g.compEnd == |h|)
  {
    MatchesAreFound(h, g);
  }
}
