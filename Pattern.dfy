/** The two regular expressions of the contact-info fallback and the profile-URL
    pattern of `getLinkedInUrl`, written out as the backtracking search a
    JavaScript regex engine performs for them. All are sequences of quantified
    character classes (one behind an optional group), which is all this
    matcher handles:

      email        /[\w.+-]+@[\w.-]+\.[a-zA-Z]{2,}/
      phone        /(?:\+\d{1,3}[\s.-]?)?\(?\d{2,4}\)?[\s.-]?\d{3,4}[\s.-]?\d{3,4}/
      profile URL  /https?:\/\/[^/]*linkedin\.com\/in\/[^/?#]+/

    Every quantifier here is greedy: it takes as many characters as it may and
    gives them back one at a time when the rest of the pattern fails. */
module Pattern {
  import opened Wrappers
  import opened Text

  datatype Class =
    | Lit(c: char)     // one literal character
    | Digit            // \d
    | Letter           // [a-zA-Z]
    | LocalChar        // [\w.+-]
    | DomainChar       // [\w.-]
    | PhoneSep         // [\s.-]
    | NotSlash         // [^/]
    | SlugChar         // [^/?#]

  predicate IsWordChar(c: char) {
    'a' <= c <= 'z' || 'A' <= c <= 'Z' || '0' <= c <= '9' || c == '_'
  }

  predicate In(c: char, k: Class) {
    match k
    case Lit(d) => c == d
    case Digit => '0' <= c <= '9'
    case Letter => 'a' <= c <= 'z' || 'A' <= c <= 'Z'
    case LocalChar => IsWordChar(c) || c == '.' || c == '+' || c == '-'
    case DomainChar => IsWordChar(c) || c == '.' || c == '-'
    case PhoneSep => IsSpace(c) || c == '.' || c == '-'
    case NotSlash => c != '/'
    case SlugChar => c != '/' && c != '?' && c != '#'
  }

  /** A class repeated between `min` and `max` times (`max` None: no upper bound). */
  datatype Atom = Atom(cls: Class, min: nat, max: Option<nat>)

  predicate AllIn(s: string, k: Class) {
    forall i :: 0 <= i < |s| ==> In(s[i], k)
  }

  predicate CountAllowed(a: Atom, n: nat) {
    a.min <= n && (a.max.None? || n <= a.max.value)
  }

  /** Length of the longest run of class members starting at pos. */
  function Run(h: string, pos: nat, k: Class): (n: nat)
    requires pos <= |h|
    ensures pos + n <= |h| && AllIn(h[pos..pos + n], k)
    ensures pos + n == |h| || !In(h[pos + n], k)
    decreases |h| - pos
  {
    if pos < |h| && In(h[pos], k) then
      var n := 1 + Run(h, pos + 1, k);
      assert AllIn(h[pos..pos + n], k) by {
        var w, tail := h[pos..pos + n], h[pos + 1..pos + n];
        forall i | 0 <= i < n ensures In(w[i], k) {
          if i > 0 { assert w[i] == tail[i - 1]; } else { assert w[0] == h[pos]; }
        }
      }
      n
    else 0
  }

  /** The most a greedy atom takes at pos. */
  function Greedy(h: string, pos: nat, a: Atom): (n: nat)
    requires pos <= |h|
    ensures pos + n <= |h| && AllIn(h[pos..pos + n], a.cls)
    ensures a.max.None? || n <= a.max.value
  {
    var r := Run(h, pos, a.cls);
    if a.max.Some? && a.max.value < r then
      assert h[pos..pos + a.max.value] == h[pos..pos + r][..a.max.value];
      a.max.value
    else r
  }

  /** The pattern matches h[pos..end]: every atom takes an allowed number of
      characters of its class, one after the other. */
  ghost predicate Matches(atoms: seq<Atom>, h: string, pos: nat, end: nat)
    decreases |atoms|
  {
    if atoms == [] then end == pos
    else
      exists n: nat :: CountAllowed(atoms[0], n) && pos + n <= end <= |h|
        && AllIn(h[pos..pos + n], atoms[0].cls) && Matches(atoms[1..], h, pos + n, end)
  }

  /** Backtracking match at pos: the end of the first match in the engine's
      order of trial, or None when no match starts at pos. */
  function MatchAt(atoms: seq<Atom>, h: string, pos: nat): (r: Option<nat>)
    requires pos <= |h|
    ensures r.Some? ==> pos <= r.value <= |h| && Matches(atoms, h, pos, r.value)
    ensures r.None? ==> forall e :: !Matches(atoms, h, pos, e)
    decreases |atoms|, 1, 0
  {
    if atoms == [] then Some(pos)
    else
      var g := Greedy(h, pos, atoms[0]);
      var r := TryCounts(atoms, h, pos, g);
      assert r.None? ==> forall e :: !Matches(atoms, h, pos, e) by {
        if r.None? {
          forall e: nat | Matches(atoms, h, pos, e) ensures false {
            var n: nat :| CountAllowed(atoms[0], n) && pos + n <= e <= |h|
                          && AllIn(h[pos..pos + n], atoms[0].cls) && Matches(atoms[1..], h, pos + n, e);
            GreedyIsMost(h, pos, atoms[0], n);
          }
        }
      }
      r
  }

  /** No allowed count of an atom exceeds what the greedy atom takes. */
  lemma GreedyIsMost(h: string, pos: nat, a: Atom, n: nat)
    requires pos + n <= |h| && AllIn(h[pos..pos + n], a.cls) && CountAllowed(a, n)
    ensures n <= Greedy(h, pos, a)
  {
  }

  /** The first atom takes n, n-1, ..., min characters in turn. */
  function TryCounts(atoms: seq<Atom>, h: string, pos: nat, n: nat): (r: Option<nat>)
    requires atoms != [] && pos + n <= |h| && AllIn(h[pos..pos + n], atoms[0].cls)
    requires atoms[0].max.None? || n <= atoms[0].max.value
    ensures r.Some? ==> pos <= r.value <= |h| && Matches(atoms, h, pos, r.value)
    ensures r.None? ==> forall q, e :: pos + atoms[0].min <= q <= pos + n ==> !Matches(atoms[1..], h, q, e)
    decreases |atoms|, 0, n
  {
    if n < atoms[0].min then None
    else
      match MatchAt(atoms[1..], h, pos + n)
      case Some(e) =>
        assert CountAllowed(atoms[0], n) && pos + n <= e <= |h|
               && AllIn(h[pos..pos + n], atoms[0].cls) && Matches(atoms[1..], h, pos + n, e);
        Some(e)
      case None =>
        if n == 0 then None
        else
          assert h[pos..pos + n - 1] == h[pos..pos + n][..n - 1];
          TryCounts(atoms, h, pos, n - 1)
  }

  /** `text.match(re)` for a pattern given as alternatives tried in order at each
      start (an optional group in front is the pattern with and without it):
      the leftmost start at which some alternative matches, and that match. */
  function SearchFrom(alts: seq<seq<Atom>>, h: string, s: nat): (r: Option<(nat, nat)>)
    requires s <= |h| + 1
    ensures r.Some? ==> s <= r.value.0 <= r.value.1 <= |h| && FirstAlt(alts, h, r.value.0) == Some(r.value.1)
    ensures r.Some? ==> forall t :: s <= t < r.value.0 ==> NoMatchAt(alts, h, t)
    ensures r.None? ==> forall t :: s <= t <= |h| ==> NoMatchAt(alts, h, t)
    decreases |h| + 1 - s
  {
    if s > |h| then None
    else
      match FirstAlt(alts, h, s)
      case Some(e) => Some((s, e))
      case None => SearchFrom(alts, h, s + 1)
  }

  /** No alternative matches at t, whatever the end. */
  ghost predicate NoMatchAt(alts: seq<seq<Atom>>, h: string, t: nat) {
    forall a, e :: 0 <= a < |alts| ==> !Matches(alts[a], h, t, e)
  }

  /** The first alternative that matches at s. */
  function FirstAlt(alts: seq<seq<Atom>>, h: string, s: nat): (r: Option<nat>)
    requires s <= |h|
    ensures r.Some? ==> s <= r.value <= |h| && exists a :: 0 <= a < |alts| && Matches(alts[a], h, s, r.value)
    ensures r.None? ==> NoMatchAt(alts, h, s)
  {
    if alts == [] then None
    else
      match MatchAt(alts[0], h, s)
      case Some(e) => Some(e)
      case None =>
        var r := FirstAlt(alts[1..], h, s);
        assert forall a :: 0 < a < |alts| ==> alts[a] == alts[1..][a - 1];
        r
  }

  /** A single pattern is its own first alternative. */
  lemma FirstAltSingle(atoms: seq<Atom>, h: string, s: nat)
    requires s <= |h|
    ensures FirstAlt([atoms], h, s) == MatchAt(atoms, h, s)
  {
    assert [atoms][1..] == [];
  }

  /** Of two alternatives the second is tried only when the first fails. */
  lemma FirstAltPair(x: seq<Atom>, y: seq<Atom>, h: string, s: nat)
    requires s <= |h|
    ensures FirstAlt([x, y], h, s) == if MatchAt(x, h, s).Some? then MatchAt(x, h, s) else MatchAt(y, h, s)
  {
    assert [x, y][1..] == [y];
    assert [y][1..] == [];
  }

  function Plus(k: Class): Atom { Atom(k, 1, None) }
  function One(k: Class): Atom { Atom(k, 1, Some(1)) }
  function Opt(k: Class): Atom { Atom(k, 0, Some(1)) }

  /** `[\w.+-]+@[\w.-]+\.[a-zA-Z]{2,}` */
  const EmailAtoms: seq<Atom> :=
    [Plus(LocalChar), One(Lit('@')), Plus(DomainChar), One(Lit('.')), Atom(Letter, 2, None)]

  /** `(?:\+\d{1,3}[\s.-]?)` */
  const CountryCodeAtoms: seq<Atom> := [One(Lit('+')), Atom(Digit, 1, Some(3)), Opt(PhoneSep)]

  /** `\(?\d{2,4}\)?[\s.-]?\d{3,4}[\s.-]?\d{3,4}` */
  const LocalNumberAtoms: seq<Atom> :=
    [Opt(Lit('(')), Atom(Digit, 2, Some(4)), Opt(Lit(')')), Opt(PhoneSep),
     Atom(Digit, 3, Some(4)), Opt(PhoneSep), Atom(Digit, 3, Some(4))]

  /** A leftmost match of the pattern starts at s and ends at e. */
  ghost predicate LeftmostMatch(atoms: seq<Atom>, h: string, s: nat, e: nat) {
    s <= e <= |h| && Matches(atoms, h, s, e)
    && forall t: nat, e': nat :: t < s ==> !Matches(atoms, h, t, e')
  }

  /** `text.match(re)?.[0]` for a pattern without alternatives: a match starting
      as early as possible, or None when the text holds no match at all. */
  function Find(atoms: seq<Atom>, text: string): (r: Option<string>)
    ensures r.Some? ==> exists s: nat, e: nat :: LeftmostMatch(atoms, text, s, e) && r.value == text[s..e]
                                                 && MatchAt(atoms, text, s) == Some(e)
    ensures r.None? <==> forall t: nat, e: nat :: t <= |text| ==> !Matches(atoms, text, t, e)
  {
    match SearchFrom([atoms], text, 0)
    case Some((s, e)) =>
      assert [atoms][0] == atoms;
      assert LeftmostMatch(atoms, text, s, e) by {
        forall t: nat, e': nat | t < s ensures !Matches(atoms, text, t, e') {
          assert NoMatchAt([atoms], text, t);
          assert !Matches([atoms][0], text, t, e');
        }
      }
      FirstAltSingle(atoms, text, s);
      assert MatchAt(atoms, text, s) == Some(e);
      assert Matches(atoms, text, s, e);
      Some(text[s..e])
    case None =>
      assert [atoms][0] == atoms;
      assert forall t: nat, e: nat :: t <= |text| ==> !Matches(atoms, text, t, e) by {
        forall t: nat, e: nat | t <= |text| ensures !Matches(atoms, text, t, e) {
          assert NoMatchAt([atoms], text, t);
          assert !Matches([atoms][0], text, t, e);
        }
      }
      None
  }

  /** The first email address in the text. */
  function FindEmail(text: string): (r: Option<string>)
    ensures r.Some? ==> exists s: nat, e: nat :: LeftmostMatch(EmailAtoms, text, s, e) && r.value == text[s..e]
                                                 && MatchAt(EmailAtoms, text, s) == Some(e)
                                                 && (e == |text| || !In(text[e], Letter))
    ensures r.None? ==> forall t: nat, e: nat :: t <= |text| ==> !Matches(EmailAtoms, text, t, e)
  {
    var r := Find(EmailAtoms, text);
    assert r.Some? ==> exists s: nat, e: nat :: LeftmostMatch(EmailAtoms, text, s, e) && r.value == text[s..e]
                                                 && MatchAt(EmailAtoms, text, s) == Some(e)
                                                 && (e == |text| || !In(text[e], Letter)) by {
      if r.Some? {
        var s: nat, e: nat :| LeftmostMatch(EmailAtoms, text, s, e) && r.value == text[s..e]
                              && MatchAt(EmailAtoms, text, s) == Some(e);
        MatchAtEndsRun(EmailAtoms, text, s, e);
      }
    }
    r
  }

  /** The phone pattern with its optional country-code group taken, and without it. */
  const PhoneAlternatives: seq<seq<Atom>> := [CountryCodeAtoms + LocalNumberAtoms, LocalNumberAtoms]

  ghost predicate PhoneMatches(h: string, s: nat, e: nat) {
    Matches(CountryCodeAtoms + LocalNumberAtoms, h, s, e) || Matches(LocalNumberAtoms, h, s, e)
  }

  /** `text.match(phoneRe)?.[0]`: the greedy optional group is tried before the
      match without it, at the leftmost start where either succeeds. */
  function FindPhone(text: string): (r: Option<string>)
    ensures r.Some? ==> exists s: nat, e: nat :: s <= e <= |text| && r.value == text[s..e] && PhoneMatches(text, s, e)
                                      && (forall t: nat, e': nat :: t < s ==> !PhoneMatches(text, t, e'))
                                      && PhoneEngineEnd(text, s, e)
    ensures r.None? ==> forall t: nat, e: nat :: t <= |text| ==> !PhoneMatches(text, t, e)
  {
    PhoneSearch(text);
    match SearchFrom(PhoneAlternatives, text, 0)
    case Some((s, e)) => Some(text[s..e])
    case None => None
  }

  /** The end the engine settles on at s: the match with the country code if
      there is one, otherwise the match without it. */
  predicate PhoneEngineEnd(h: string, s: nat, e: nat)
    requires s <= |h|
  {
    MatchAt(CountryCodeAtoms + LocalNumberAtoms, h, s) == Some(e)
    || (MatchAt(CountryCodeAtoms + LocalNumberAtoms, h, s).None? && MatchAt(LocalNumberAtoms, h, s) == Some(e))
  }

  /** The search over the two phone alternatives, read as matches of the phone pattern. */
  lemma PhoneSearch(text: string)
    ensures var r := SearchFrom(PhoneAlternatives, text, 0);
            (r.Some? ==> r.value.0 <= r.value.1 <= |text| && PhoneMatches(text, r.value.0, r.value.1)
                         && (forall t: nat, e': nat :: t < r.value.0 ==> !PhoneMatches(text, t, e'))
                         && PhoneEngineEnd(text, r.value.0, r.value.1))
            && (r.None? ==> forall t: nat, e: nat :: t <= |text| ==> !PhoneMatches(text, t, e))
  {
    assert PhoneAlternatives[0] == CountryCodeAtoms + LocalNumberAtoms;
    assert PhoneAlternatives[1] == LocalNumberAtoms;
    var r := SearchFrom(PhoneAlternatives, text, 0);
    if r.Some? {
      var s, e := r.value.0, r.value.1;
      PhoneFirstAlternative(text, s, e);
      var a :| 0 <= a < |PhoneAlternatives| && Matches(PhoneAlternatives[a], text, s, e);
      assert PhoneMatches(text, s, e);
      forall t: nat, e': nat | t < s ensures !PhoneMatches(text, t, e') {
        assert NoMatchAt(PhoneAlternatives, text, t);
        assert !Matches(PhoneAlternatives[0], text, t, e') && !Matches(PhoneAlternatives[1], text, t, e');
      }
    } else {
      forall t: nat, e: nat | t <= |text| ensures !PhoneMatches(text, t, e) {
        assert NoMatchAt(PhoneAlternatives, text, t);
        assert !Matches(PhoneAlternatives[0], text, t, e) && !Matches(PhoneAlternatives[1], text, t, e);
      }
    }
  }

  /** The phone alternative that matches first: with the country code if it can,
      otherwise without. */
  lemma PhoneFirstAlternative(text: string, s: nat, e: nat)
    requires s <= |text| && FirstAlt(PhoneAlternatives, text, s) == Some(e)
    ensures PhoneEngineEnd(text, s, e)
  {
    FirstAltPair(CountryCodeAtoms + LocalNumberAtoms, LocalNumberAtoms, text, s);
  }

  /** A pattern whose last atom has no upper bound ends its backtracking match
      where that atom's class stops: the greedy last atom never gives back. */
  lemma {:induction false} MatchAtEndsRun(atoms: seq<Atom>, h: string, pos: nat, e: nat)
    requires atoms != [] && atoms[|atoms| - 1].max.None?
    requires pos <= |h| && MatchAt(atoms, h, pos) == Some(e)
    ensures e == |h| || !In(h[e], atoms[|atoms| - 1].cls)
    decreases |atoms|, 1, 0
  {
    var g := Greedy(h, pos, atoms[0]);
    if |atoms| == 1 {
      assert atoms[1..] == [];
      assert TryCounts(atoms, h, pos, g) == Some(e);
      assert MatchAt(atoms[1..], h, pos + g) == Some(pos + g);
    } else {
      TryCountsEndsRun(atoms, h, pos, g, e);
    }
  }

  /** The same for the trials of the first atom's counts. */
  lemma {:induction false} TryCountsEndsRun(atoms: seq<Atom>, h: string, pos: nat, n: nat, e: nat)
    requires |atoms| >= 2 && atoms[|atoms| - 1].max.None?
    requires pos + n <= |h| && AllIn(h[pos..pos + n], atoms[0].cls)
    requires atoms[0].max.None? || n <= atoms[0].max.value
    requires TryCounts(atoms, h, pos, n) == Some(e)
    ensures e == |h| || !In(h[e], atoms[|atoms| - 1].cls)
    decreases |atoms|, 0, n
  {
    var rest := atoms[1..];
    assert rest[|rest| - 1] == atoms[|atoms| - 1];
    match MatchAt(rest, h, pos + n)
    case Some(e') =>
      MatchAtEndsRun(rest, h, pos + n, e);
    case None =>
      assert h[pos..pos + n - 1] == h[pos..pos + n][..n - 1];
      TryCountsEndsRun(atoms, h, pos, n - 1, e);
  }

  /** The atoms of a literal string, one per character. */
  function Literal(w: string): (r: seq<Atom>)
    ensures |r| == |w|
    ensures forall i :: 0 <= i < |w| ==> r[i] == One(Lit(w[i]))
  {
    if w == [] then [] else [One(Lit(w[0]))] + Literal(w[1..])
  }

  /** `s?:\/\/[^/]*`: what follows `http` before the host's last part. */
  const ProfileUrlAfterScheme: seq<Atom> := [Opt(Lit('s'))] + Literal("://") + [Atom(NotSlash, 0, None)]

  /** `https?:\/\/[^/]*linkedin\.com\/in\/[^/?#]+` */
  const ProfileUrlAtoms: seq<Atom> :=
    Literal("http") + (ProfileUrlAfterScheme + (Literal("linkedin.com/in/") + [Plus(SlugChar)]))

  /** A match of a concatenated pattern is a match of the first part followed by
      a match of the second. */
  lemma {:induction false} MatchesSplit(a: seq<Atom>, b: seq<Atom>, h: string, s: nat, e: nat)
    requires Matches(a + b, h, s, e)
    ensures exists m: nat :: s <= m <= e && Matches(a, h, s, m) && Matches(b, h, m, e)
    decreases |a|
  {
    if a == [] {
      assert a + b == b;
      assert Matches(a, h, s, s);
    } else {
      var n: nat :| CountAllowed((a + b)[0], n) && s + n <= e <= |h|
                    && AllIn(h[s..s + n], (a + b)[0].cls) && Matches((a + b)[1..], h, s + n, e);
      assert (a + b)[0] == a[0] && (a + b)[1..] == a[1..] + b;
      MatchesSplit(a[1..], b, h, s + n, e);
      var m: nat :| s + n <= m <= e && Matches(a[1..], h, s + n, m) && Matches(b, h, m, e);
      assert Matches(a, h, s, m);
    }
  }

  /** A literal matches exactly its own text. */
  lemma {:induction false} LiteralMatches(w: string, h: string, s: nat, e: nat)
    requires s <= |h| && Matches(Literal(w), h, s, e)
    ensures e == s + |w| <= |h| && h[s..e] == w
    decreases |w|
  {
    if w != [] {
      var lit := Literal(w);
      var n: nat :| CountAllowed(lit[0], n) && s + n <= e <= |h|
                    && AllIn(h[s..s + n], lit[0].cls) && Matches(lit[1..], h, s + n, e);
      assert n == 1;
      assert lit[1..] == Literal(w[1..]);
      LiteralMatches(w[1..], h, s + 1, e);
      assert h[s] == h[s..s + 1][0] == w[0];
      assert h[s..e] == [h[s]] + h[s + 1..e];
      assert w == [w[0]] + w[1..];
    }
  }

  /** One `+`-quantified class matches a non-empty run of its members. */
  lemma PlusMatches(k: Class, h: string, s: nat, e: nat)
    requires Matches([Plus(k)], h, s, e)
    ensures s < e <= |h| && AllIn(h[s..e], k)
  {
    var n: nat :| CountAllowed(Plus(k), n) && s + n <= e <= |h|
                  && AllIn(h[s..s + n], k) && Matches([Plus(k)][1..], h, s + n, e);
    assert [Plus(k)][1..] == [];
  }

  /** The literal w at p, then a non-empty run of class k up to e. */
  predicate LiteralThenRun(h: string, w: string, k: Class, p: nat, e: nat) {
    p + |w| < e <= |h| && h[p..p + |w|] == w && AllIn(h[p + |w|..e], k)
  }

  /** A match of anything, then `w` and a `+` run of k, ends with w and the run. */
  lemma {:induction false} EndsWithLiteralRun(mid: seq<Atom>, w: string, k: Class, h: string, m: nat, e: nat)
    requires m <= |h| && Matches(mid + (Literal(w) + [Plus(k)]), h, m, e)
    ensures exists p: nat :: m <= p && LiteralThenRun(h, w, k, p, e)
  {
    var tail := Literal(w) + [Plus(k)];
    MatchesSplit(mid, tail, h, m, e);
    var p: nat :| m <= p <= e && Matches(mid, h, m, p) && Matches(tail, h, p, e);
    LiteralRunMatches(w, k, h, p, e);
  }

  /** A match of `w` and a `+` run of k is exactly that literal and that run. */
  lemma LiteralRunMatches(w: string, k: Class, h: string, p: nat, e: nat)
    requires p <= |h| && Matches(Literal(w) + [Plus(k)], h, p, e)
    ensures LiteralThenRun(h, w, k, p, e)
  {
    MatchesSplit(Literal(w), [Plus(k)], h, p, e);
    var q: nat :| p <= q <= e && Matches(Literal(w), h, p, q) && Matches([Plus(k)], h, q, e);
    LiteralMatches(w, h, p, q);
    PlusMatches(k, h, q, e);
  }

  /** A match of `a`, then anything, then `w` and a `+` run of k: the text starts
      with a and ends with w and the run. */
  lemma {:induction false} LiteralsAround(a: string, mid: seq<Atom>, w: string, k: Class, h: string, s: nat, e: nat)
    requires s <= |h| && Matches(Literal(a) + (mid + (Literal(w) + [Plus(k)])), h, s, e)
    ensures s + |a| <= e && h[s..s + |a|] == a
    ensures exists p: nat :: s <= p && LiteralThenRun(h, w, k, p, e)
  {
    MatchesSplit(Literal(a), mid + (Literal(w) + [Plus(k)]), h, s, e);
    var m: nat :| s <= m <= e && Matches(Literal(a), h, s, m) && Matches(mid + (Literal(w) + [Plus(k)]), h, m, e);
    LiteralMatches(a, h, s, m);
    EndsWithLiteralRun(mid, w, k, h, m, e);
  }

  /** Every match of the profile-URL pattern starts with `http` and ends with
      `linkedin.com/in/` and a non-empty slug without `/`, `?` or `#`. */
  lemma ProfileUrlShape(h: string, s: nat, e: nat)
    requires s <= |h| && Matches(ProfileUrlAtoms, h, s, e)
    ensures s + 4 <= e <= |h| && h[s..s + 4] == "http"
    ensures exists p: nat :: s <= p && LiteralThenRun(h, "linkedin.com/in/", SlugChar, p, e)
  {
    LiteralsAround("http", ProfileUrlAfterScheme, "linkedin.com/in/", SlugChar, h, s, e);
  }

  /** One quantified class matches a run of its members of an allowed length. */
  lemma SingleAtomMatches(a: Atom, h: string, s: nat, e: nat)
    requires Matches([a], h, s, e)
    ensures s <= e <= |h| && CountAllowed(a, e - s) && AllIn(h[s..e], a.cls)
  {
    var n: nat :| CountAllowed(a, n) && s + n <= e <= |h|
                  && AllIn(h[s..s + n], a.cls) && Matches([a][1..], h, s + n, e);
    assert [a][1..] == [];
  }

  /** h[s..e] is `http://` or `https://`, a host part free of `/` that ends with
      `linkedin.com/in/` at q, and a non-empty slug free of `/`, `?` and `#`. */
  ghost predicate ProfileUrlAt(h: string, s: nat, e: nat) {
    exists p: nat, q: nat :: s <= p <= q && q + 16 < e <= |h|
      && (h[s..p] == "http://" || h[s..p] == "https://")
      && AllIn(h[p..q], NotSlash) && h[q..q + 16] == "linkedin.com/in/" && AllIn(h[q + 16..e], SlugChar)
  }

  /** An optional character c, the literal w, then any run of class k, read as
      positions: c is present exactly when m2 is one past m1. */
  lemma OptLiteralRunParts(c: char, w: string, k: Class, h: string, m1: nat, m4: nat) returns (m2: nat, p: nat)
    requires m1 <= |h| && Matches([Opt(Lit(c))] + Literal(w) + [Atom(k, 0, None)], h, m1, m4)
    ensures m1 <= m2 <= m1 + 1 && m2 + |w| == p <= m4 <= |h|
    ensures m2 == m1 + 1 ==> h[m1] == c
    ensures h[m2..p] == w && AllIn(h[p..m4], k)
  {
    var front := [Opt(Lit(c))] + Literal(w);
    MatchesSplit(front, [Atom(k, 0, None)], h, m1, m4);
    p :| m1 <= p <= m4 && Matches(front, h, m1, p) && Matches([Atom(k, 0, None)], h, p, m4);
    SingleAtomMatches(Atom(k, 0, None), h, p, m4);
    MatchesSplit([Opt(Lit(c))], Literal(w), h, m1, p);
    m2 :| m1 <= m2 <= p && Matches([Opt(Lit(c))], h, m1, m2) && Matches(Literal(w), h, m2, p);
    SingleAtomMatches(Opt(Lit(c)), h, m1, m2);
    LiteralMatches(w, h, m2, p);
    if m2 == m1 + 1 {
      assert In(h[m1..m2][0], Lit(c));
    }
  }

  /** The literal a, then the optional-character part, then the literal u and a
      `+` run of k2, read as positions. */
  lemma {:induction false} SchemeHostSlugParts(a: string, c: char, w: string, k: Class, u: string, k2: Class,
                                               h: string, s: nat, e: nat) returns (m1: nat, m2: nat, p: nat, q: nat)
    requires s <= |h|
    requires Matches(Literal(a) + (([Opt(Lit(c))] + Literal(w) + [Atom(k, 0, None)]) + (Literal(u) + [Plus(k2)])), h, s, e)
    ensures s + |a| == m1 <= m2 <= m1 + 1 && m2 + |w| == p <= q && q + |u| < e <= |h|
    ensures h[s..m1] == a && (m2 == m1 + 1 ==> h[m1] == c) && h[m2..p] == w
    ensures AllIn(h[p..q], k) && h[q..q + |u|] == u && AllIn(h[q + |u|..e], k2)
  {
    var mid := [Opt(Lit(c))] + Literal(w) + [Atom(k, 0, None)];
    var tail := Literal(u) + [Plus(k2)];
    MatchesSplit(Literal(a), mid + tail, h, s, e);
    m1 :| s <= m1 <= e && Matches(Literal(a), h, s, m1) && Matches(mid + tail, h, m1, e);
    LiteralMatches(a, h, s, m1);
    MatchesSplit(mid, tail, h, m1, e);
    q :| m1 <= q <= e && Matches(mid, h, m1, q) && Matches(tail, h, q, e);
    LiteralRunMatches(u, k2, h, q, e);
    m2, p := OptLiteralRunParts(c, w, k, h, m1, q);
  }

  /** Every match of the profile-URL pattern is scheme, host, `linkedin.com/in/`, slug. */
  lemma ProfileUrlParts(h: string, s: nat, e: nat)
    requires s <= |h| && Matches(ProfileUrlAtoms, h, s, e)
    ensures ProfileUrlAt(h, s, e)
  {
    assert ProfileUrlAtoms == Literal("http") + (([Opt(Lit('s'))] + Literal("://") + [Atom(NotSlash, 0, None)])
                                                 + (Literal("linkedin.com/in/") + [Plus(SlugChar)]));
    var m1, m2, p, q := SchemeHostSlugParts("http", 's', "://", NotSlash, "linkedin.com/in/", SlugChar, h, s, e);
    SchemeText(h, s, m1, m2, p);
  }

  /** `http`, an optional `s` and `://` one after the other spell one of the two schemes. */
  lemma SchemeText(h: string, s: nat, m1: nat, m2: nat, p: nat)
    requires s + 4 == m1 <= m2 <= m1 + 1 && m2 + 3 == p <= |h|
    requires h[s..m1] == "http" && (m2 == m1 + 1 ==> h[m1] == 's') && h[m2..p] == "://"
    ensures h[s..p] == "http://" || h[s..p] == "https://"
  {
    if m2 == m1 {
      assert h[s..p] == h[s..m1] + h[m2..p];
    } else {
      assert h[s..p] == h[s..m1] + [h[m1]] + h[m2..p];
    }
  }

  /** A match of the profile-URL pattern found by the engine takes the whole slug:
      it stops at the end of the text or at `/`, `?` or `#`. */
  lemma ProfileUrlSlugIsWhole(h: string, s: nat, e: nat)
    requires s <= |h| && MatchAt(ProfileUrlAtoms, h, s) == Some(e)
    ensures e == |h| || h[e] == '/' || h[e] == '?' || h[e] == '#'
  {
    assert ProfileUrlAtoms[|ProfileUrlAtoms| - 1] == Plus(SlugChar);
    MatchAtEndsRun(ProfileUrlAtoms, h, s, e);
  }

  /** The same literal and run, seen in the slice h[s..e]. */
  lemma LiteralThenRunShift(h: string, w: string, k: Class, s: nat, p: nat, e: nat)
    requires s <= p && LiteralThenRun(h, w, k, p, e)
    ensures LiteralThenRun(h[s..e], w, k, p - s, e - s)
    ensures OccursAt(h, w, p)
  {
    var m := h[s..e];
    var x, y := m[p - s..p - s + |w|], h[p..p + |w|];
    assert x == y by {
      forall i | 0 <= i < |w| ensures x[i] == y[i] {
        assert m[p - s + i] == h[p + i];
      }
    }
    assert m[p - s + |w|..e - s] == h[p + |w|..e];
  }

  /** Some literal-then-run inside h[s..e] is one of the slice. */
  lemma SomeLiteralThenRunShift(h: string, w: string, k: Class, s: nat, e: nat, m: string)
    requires exists p: nat :: s <= p && LiteralThenRun(h, w, k, p, e)
    requires e <= |h| && m == h[s..e]
    ensures exists p: nat :: LiteralThenRun(m, w, k, p, |m|)
    ensures exists p: nat :: OccursAt(h, w, p)
  {
    var p: nat :| s <= p && LiteralThenRun(h, w, k, p, e);
    LiteralThenRunShift(h, w, k, s, p, e);
  }

  /** A prefix of h[s..] that fits in h[s..e] is a prefix of that slice. */
  lemma PrefixOfSlice(h: string, a: string, s: nat, e: nat)
    requires s + |a| <= e <= |h| && h[s..s + |a|] == a
    ensures StartsWith(h[s..e], a)
  {
    assert h[s..e][..|a|] == h[s..s + |a|];
  }

  /** What `Find` returns is the text of some match. */
  lemma FoundIsMatch(atoms: seq<Atom>, text: string)
    requires Find(atoms, text).Some?
    ensures exists s: nat, e: nat :: s <= e <= |text| && Matches(atoms, text, s, e) && Find(atoms, text).value == text[s..e]
  {
  }
}
