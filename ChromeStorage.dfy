/** The extension's preference record, stored under one key of
    `chrome.storage.sync` (or `localStorage` outside the extension), and the
    canonical form of a LinkedIn profile URL. */
module ChromeStorage {
  import opened Wrappers
  import opened Text
  import opened Pattern

  const TokenKey := "token"

  /** What the storage slot holds: a preference record, or text that is not a
      record (unparseable JSON in `localStorage`). */
  datatype Stored = Prefs(entries: map<string, string>) | Unreadable

  /** `{ ...current, ...update }`. */
  function Merged(current: map<string, string>, update: map<string, string>): (r: map<string, string>)
    ensures r.Keys == current.Keys + update.Keys
    ensures forall k :: k in update ==> r[k] == update[k]
    ensures forall k :: k in current && k !in update ==> r[k] == current[k]
  {
    current + update
  }

  /** The record with `delete prefs.token` applied. */
  function WithoutToken(current: map<string, string>): (r: map<string, string>)
    ensures r.Keys == current.Keys - {TokenKey}
    ensures forall k :: k in r ==> r[k] == current[k]
  {
    current - {TokenKey}
  }

  class PrefStore {
    var slot: Option<Stored>

    constructor (initial: Option<Stored>)
      ensures slot == initial
    {
      slot := initial;
    }

    /** `getStoredPreferences()`: a missing or unreadable record reads as `{}`. */
    function Current(): (r: map<string, string>)
      reads this
      ensures slot.None? || slot == Some(Unreadable) ==> r == map[]
      ensures slot.Some? && slot.value.Prefs? ==> r == slot.value.entries
    {
      if slot.Some? && slot.value.Prefs? then slot.value.entries else map[]
    }

    /** `setStoredPreferences(update)`. */
    method SetPreferences(update: map<string, string>)
      modifies this
      ensures slot == Some(Prefs(Merged(old(Current()), update)))
    {
      slot := Some(Prefs(Merged(Current(), update)));
    }

    /** `clearStoredPreferences()`. */
    method ClearPreferences()
      modifies this
      ensures slot.None? && Current() == map[]
    {
      slot := None;
    }

    /** `getToken()`. */
    function GetToken(): (r: Option<string>)
      reads this
      ensures r.Some? <==> TokenKey in Current()
      ensures r.Some? ==> r.value == Current()[TokenKey]
    {
      if TokenKey in Current() then Some(Current()[TokenKey]) else None
    }

    /** `setToken(t)`. */
    method SetToken(t: string)
      modifies this
      ensures GetToken() == Some(t)
      ensures Current() == Merged(old(Current()), map[TokenKey := t])
      ensures forall k :: k in old(Current()) && k != TokenKey ==> k in Current() && Current()[k] == old(Current())[k]
      ensures Current().Keys == old(Current()).Keys + {TokenKey}
    {
      SetPreferences(map[TokenKey := t]);
    }

    /** `clearToken()`. */
    method ClearToken()
      modifies this
      ensures GetToken().None?
      ensures slot == Some(Prefs(WithoutToken(old(Current()))))
    {
      slot := Some(Prefs(WithoutToken(Current())));
    }
  }

  /** `getLinkedInUrl()` given the active tab's URL (None: no tab or no URL): the
      first match of the profile-URL pattern, or the URL up to its first `?` when
      the pattern does not match; null for anything that is not a profile URL. */
  function GetLinkedInUrl(url: Option<string>): (r: Option<string>)
    ensures url.None? || !Contains(url.value, "linkedin.com/in/") ==> r.None?
    ensures r.Some? ==> url.Some? && Contains(url.value, "linkedin.com/in/")
    ensures r.Some? && Find(ProfileUrlAtoms, url.value).Some? ==> r == Find(ProfileUrlAtoms, url.value)
    ensures r.Some? && Find(ProfileUrlAtoms, url.value).None? ==> r.value == BeforeFirst(url.value, '?')
  {
    if url.None? || url.value == "" || !Contains(url.value, "linkedin.com/in/") then None
    else
      match Find(ProfileUrlAtoms, url.value)
      case Some(m) => Some(m)
      case None => Some(BeforeFirst(url.value, '?'))
  }

  /** Text that ends with `linkedin.com/in/` and a non-empty slug free of `/`,
      `?` and `#`. */
  ghost predicate EndsWithSlug(m: string) {
    exists p: nat :: LiteralThenRun(m, "linkedin.com/in/", SlugChar, p, |m|)
  }

  /** A match of the profile-URL pattern starts with `http`. */
  lemma MatchStartsWithScheme(url: string, s: nat, e: nat)
    requires s <= e <= |url| && Matches(ProfileUrlAtoms, url, s, e)
    ensures StartsWith(url[s..e], "http")
  {
    ProfileUrlShape(url, s, e);
    PrefixOfSlice(url, "http", s, e);
  }

  /** A match of the profile-URL pattern ends with `linkedin.com/in/` and a slug. */
  lemma MatchEndsWithSlug(url: string, s: nat, e: nat)
    requires s <= e <= |url| && Matches(ProfileUrlAtoms, url, s, e)
    ensures EndsWithSlug(url[s..e])
  {
    ProfileUrlShape(url, s, e);
    SomeLiteralThenRunShift(url, "linkedin.com/in/", SlugChar, s, e, url[s..e]);
  }

  /** A URL the profile-URL pattern matches contains `linkedin.com/in/`, so the
      guard in front of the match never hides a match. */
  lemma MatchImpliesMarker(url: string, s: nat, e: nat)
    requires s <= e <= |url| && Matches(ProfileUrlAtoms, url, s, e)
    ensures Contains(url, "linkedin.com/in/")
  {
    ProfileUrlShape(url, s, e);
    SomeLiteralThenRunShift(url, "linkedin.com/in/", SlugChar, s, e, url[s..e]);
    ContainsIff(url, "linkedin.com/in/");
  }

  lemma FoundImpliesMarker(url: string)
    requires Find(ProfileUrlAtoms, url).Some?
    ensures Contains(url, "linkedin.com/in/")
  {
    FoundIsMatch(ProfileUrlAtoms, url);
    var s: nat, e: nat :| s <= e <= |url| && Matches(ProfileUrlAtoms, url, s, e) && Find(ProfileUrlAtoms, url).value == url[s..e];
    MatchImpliesMarker(url, s, e);
  }

  /** When the pattern matches, the result is the pattern's leftmost match. */
  lemma MatchedUrlIsMatch(url: string)
    requires Find(ProfileUrlAtoms, url).Some?
    ensures GetLinkedInUrl(Some(url)) == Find(ProfileUrlAtoms, url)
  {
    FoundImpliesMarker(url);
  }

  /** When the pattern matches, the result is a piece url[s..e] of the URL that
      starts with `http://` or `https://`, runs through a host part free of `/`
      to `linkedin.com/in/`, and ends with the whole slug: the URL goes on, if at
      all, with `/`, `?` or `#`. Any query, fragment or later path is dropped. */
  lemma CanonicalProfileUrl(url: string)
    requires Find(ProfileUrlAtoms, url).Some?
    ensures GetLinkedInUrl(Some(url)).Some?
    ensures StartsWith(GetLinkedInUrl(Some(url)).value, "http") && EndsWithSlug(GetLinkedInUrl(Some(url)).value)
    ensures exists s: nat, e: nat :: s <= e <= |url| && GetLinkedInUrl(Some(url)).value == url[s..e]
                                     && ProfileUrlAt(url, s, e)
                                     && (e == |url| || url[e] == '/' || url[e] == '?' || url[e] == '#')
  {
    MatchedUrlIsMatch(url);
    var s: nat, e: nat :| LeftmostMatch(ProfileUrlAtoms, url, s, e) && Find(ProfileUrlAtoms, url).value == url[s..e]
                          && MatchAt(ProfileUrlAtoms, url, s) == Some(e);
    MatchStartsWithScheme(url, s, e);
    MatchEndsWithSlug(url, s, e);
    ProfileUrlParts(url, s, e);
    ProfileUrlSlugIsWhole(url, s, e);
  }
}
