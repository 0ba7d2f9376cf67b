/** The extension-page OAuth flow: reading the access token out of the redirect
    URL's fragment (section 3.5 of RFC 3986), which is parsed as
    `application/x-www-form-urlencoded` as the WHATWG URL Standard's
    `URLSearchParams` does, and the callback's guard chain that turns the flow's
    outcome into a resolved token or a rejection message. */
module OAuth {
  import opened Wrappers
  import opened Text

  /** The text after the first `#`, or None when the URL has no fragment. */
  function Fragment(url: string): (r: Option<string>)
    ensures r.None? <==> '#' !in url
    ensures r.Some? ==> exists i :: 0 <= i < |url| && url[i] == '#' && '#' !in url[..i] && r.value == url[i + 1..]
  {
    if '#' !in url then None
    else
      var before := BeforeFirst(url, '#');
      BeforeFirstIsPrefix(url, '#');
      assert url[..|before|] == before;
      Some(url[|before| + 1..])
  }

  function HexValue(c: char): Option<nat> {
    if '0' <= c <= '9' then Some(c as nat - '0' as nat)
    else if 'a' <= c <= 'f' then Some(c as nat - 'a' as nat + 10)
    else if 'A' <= c <= 'F' then Some(c as nat - 'A' as nat + 10)
    else None
  }

  /** Percent-decoding: `%` and two hex digits become that character; any other
      `%` stays as it is. */
  function PercentDecode(s: string): (r: string)
    ensures |r| <= |s|
    ensures '%' !in s ==> r == s
    decreases |s|
  {
    if s == [] then []
    else if s[0] == '%' && |s| >= 3 && HexValue(s[1]).Some? && HexValue(s[2]).Some? then
      [(HexValue(s[1]).value * 16 + HexValue(s[2]).value) as char] + PercentDecode(s[3..])
    else
      [s[0]] + PercentDecode(s[1..])
  }

  function PlusToSpace(s: string): (r: string)
    ensures |r| == |s|
    ensures forall i :: 0 <= i < |s| ==> r[i] == if s[i] == '+' then ' ' else s[i]
  {
    if s == [] then [] else [if s[0] == '+' then ' ' else s[0]] + PlusToSpace(s[1..])
  }

  /** A name or value of a form-urlencoded pair: `+` is a space, then percent-decoding. */
  function FormDecode(s: string): (r: string)
    ensures '+' !in s && '%' !in s ==> r == s
  {
    var spaced := PlusToSpace(s);
    assert '+' !in s ==> spaced == s;
    assert '%' !in s && '+' !in s ==> '%' !in spaced;
    PercentDecode(spaced)
  }

  /** One `&`-separated piece: name before the first `=`, value after it (the value
      is empty when there is no `=`). */
  function Pair(piece: string): (string, string) {
    if '=' in piece then
      var name := BeforeFirst(piece, '=');
      BeforeFirstIsPrefix(piece, '=');
      (FormDecode(name), FormDecode(piece[|name| + 1..]))
    else (FormDecode(piece), "")
  }

  /** The name-value list of a form-urlencoded string; empty pieces are skipped. */
  function Pairs(pieces: seq<string>): (r: seq<(string, string)>)
    ensures |r| <= |pieces|
  {
    if pieces == [] then []
    else if pieces[0] == "" then Pairs(pieces[1..])
    else [Pair(pieces[0])] + Pairs(pieces[1..])
  }

  /** `params.get(name)`: the value of the first pair with that name. */
  function Get(pairs: seq<(string, string)>, name: string): (r: Option<string>)
    ensures r.Some? ==> exists i :: 0 <= i < |pairs| && pairs[i] == (name, r.value)
                          && forall j :: 0 <= j < i ==> pairs[j].0 != name
    ensures r.None? ==> forall j :: 0 <= j < |pairs| ==> pairs[j].0 != name
  {
    if pairs == [] then None
    else if pairs[0].0 == name then Some(pairs[0].1)
    else
      var r := Get(pairs[1..], name);
      assert forall j :: 0 < j < |pairs| ==> pairs[j] == pairs[1..][j - 1];
      r
  }

  /** A C0 control or a space: what the URL parser strips from both ends of its input. */
  predicate IsC0OrSpace(c: char) {
    c <= ' '
  }

  /** An ASCII tab or newline: what the URL parser removes everywhere. */
  predicate IsTabOrNewline(c: char) {
    c == '\t' || c == '\n' || c == '\r'
  }

  /** Text the URL parser's clean-up leaves as it is. */
  predicate NoControls(s: string) {
    forall i :: 0 <= i < |s| ==> !IsC0OrSpace(s[i])
  }

  function StripControlsEnd(s: string): (r: string)
    ensures |r| <= |s| && r == s[..|r|]
    ensures r != [] ==> !IsC0OrSpace(r[|r| - 1])
    ensures NoControls(s) ==> r == s
  {
    if |s| > 0 && IsC0OrSpace(s[|s| - 1]) then
      var r := StripControlsEnd(s[..|s| - 1]);
      assert s[..|r|] == s[..|s| - 1][..|r|];
      r
    else s
  }

  function StripControlsStart(s: string): (r: string)
    ensures |r| <= |s| && r == s[|s| - |r|..]
    ensures r != [] ==> !IsC0OrSpace(r[0]) && r[|r| - 1] == s[|s| - 1]
    ensures NoControls(s) ==> r == s
  {
    if |s| > 0 && IsC0OrSpace(s[0]) then
      var r := StripControlsStart(s[1..]);
      assert s[|s| - |r|..] == s[1..][|s| - 1 - |r|..];
      r
    else s
  }

  function RemoveTabsAndNewlines(s: string): (r: string)
    ensures forall i :: 0 <= i < |r| ==> !IsTabOrNewline(r[i])
    ensures (forall i :: 0 <= i < |s| ==> !IsTabOrNewline(s[i])) ==> r == s
  {
    if s == [] then []
    else
      var rest := RemoveTabsAndNewlines(s[1..]);
      if IsTabOrNewline(s[0]) then rest else [s[0]] + rest
  }

  /** Removing tabs and newlines keeps a first and a last character that are neither. */
  lemma {:induction false} RemoveKeepsEnds(s: string)
    ensures s != [] && !IsTabOrNewline(s[0]) && !IsTabOrNewline(s[|s| - 1]) ==>
              RemoveTabsAndNewlines(s) != [] && RemoveTabsAndNewlines(s)[0] == s[0]
              && RemoveTabsAndNewlines(s)[|RemoveTabsAndNewlines(s)| - 1] == s[|s| - 1]
  {
    if |s| > 1 && !IsTabOrNewline(s[|s| - 1]) {
      RemoveKeepsLast(s[1..]);
    }
  }

  lemma {:induction false} RemoveKeepsLast(s: string)
    requires s != [] && !IsTabOrNewline(s[|s| - 1])
    ensures RemoveTabsAndNewlines(s) != []
    ensures RemoveTabsAndNewlines(s)[|RemoveTabsAndNewlines(s)| - 1] == s[|s| - 1]
  {
    if |s| > 1 {
      RemoveKeepsLast(s[1..]);
    }
  }

  /** The input as the URL parser reads it: C0 controls and spaces stripped from
      both ends, then every ASCII tab and newline removed, as the WHATWG URL
      Standard's basic URL parser does before anything else. */
  function Cleaned(url: string): (r: string)
    ensures r == [] || (!IsC0OrSpace(r[0]) && !IsC0OrSpace(r[|r| - 1]))
    ensures forall i :: 0 <= i < |r| ==> !IsTabOrNewline(r[i])
    ensures NoControls(url) ==> r == url
  {
    var ended := StripControlsEnd(url);
    var trimmed := StripControlsStart(ended);
    assert trimmed != [] ==> !IsC0OrSpace(trimmed[0]) && !IsC0OrSpace(ended[|ended| - 1]);
    RemoveKeepsEnds(trimmed);
    RemoveTabsAndNewlines(trimmed)
  }

  /** The clean-up only removes characters: one the URL lacks, the cleaned URL lacks too. */
  lemma CleanedLacks(url: string, c: char)
    requires c !in url
    ensures c !in Cleaned(url)
  {
    var trimmed := StripControlsStart(StripControlsEnd(url));
    assert c !in StripControlsEnd(url);
    assert c !in trimmed;
    RemoveLacks(trimmed, c);
  }

  lemma {:induction false} RemoveLacks(s: string, c: char)
    requires c !in s
    ensures c !in RemoveTabsAndNewlines(s)
  {
    if s != [] {
      assert c !in s[1..];
      RemoveLacks(s[1..], c);
    }
  }

  /** Controls and spaces at the end of a redirect URL never reach the fragment. */
  lemma TrailingControlIgnored(url: string, c: char, parses: bool)
    requires IsC0OrSpace(c)
    ensures ParseTokenFromUrl(url + [c], parses) == ParseTokenFromUrl(url, parses)
  {
    assert (url + [c])[..|url|] == url;
    assert StripControlsEnd(url + [c]) == StripControlsEnd(url);
  }

  /** `urlObj.hash` without its `#`: the fragment of the cleaned URL. */
  function Hash(url: string): Option<string> {
    Fragment(Cleaned(url))
  }

  /** `new URLSearchParams(init).get("token")`: one leading `?` of `init` is
      dropped, and the rest is read as a form-encoded list. */
  function TokenParam(init: string): Option<string> {
    Get(Pairs(Split(QueryBody(init), '&')), "token")
  }

  /** `init` without one leading `?`. */
  function QueryBody(init: string): string {
    if init != [] && init[0] == '?' then init[1..] else init
  }

  /** A leading `?` of the fragment is not part of the first parameter's name. */
  lemma QueryMarkIgnored(h: string)
    requires h == [] || h[0] != '?'
    ensures TokenParam(['?'] + h) == TokenParam(h)
  {
    assert QueryBody(['?'] + h) == h == QueryBody(h);
  }

  /** `parseTokenFromUrl(url)`. `parses` says whether `new URL(url)` accepts the
      URL; when it throws, the function answers null. */
  function ParseTokenFromUrl(url: string, parses: bool): (r: Option<string>)
    ensures !parses ==> r.None?
    ensures Hash(url).None? || Hash(url) == Some("") ==> r.None?
    ensures r.Some? ==> r.value != ""
    ensures r.Some? <==> parses && Hash(url).Some? && Hash(url) != Some("")
                         && TokenParam(Hash(url).value) != Some("") && TokenParam(Hash(url).value).Some?
    ensures r.Some? ==> r == TokenParam(Hash(url).value)
  {
    if !parses then None
    else
      var hash := Hash(url);
      if hash.None? || hash.value == "" then None
      else
        var token := TokenParam(hash.value);
        if token.Some? && token.value != "" then token else None
  }

  /** A token made of characters the URL parser and the form encoding leave alone. */
  predicate PlainToken(t: string) {
    t != "" && '&' !in t && '+' !in t && '%' !in t && '#' !in t && NoControls(t)
  }

  /** Splitting a string whose first c-free piece is t. */
  lemma SplitFirstPiece(t: string, c: char, rest: string)
    requires c !in t
    ensures Split(t + [c] + rest, c) == [t] + Split(rest, c)
  {
    SplitAppend(t, c, rest);
    SplitSingle(t, c);
  }

  /** A piece `name=value` with nothing to decode on either side yields that pair. */
  lemma PairOfPlain(name: string, value: string)
    requires '=' !in name && '+' !in name && '%' !in name
    requires '+' !in value && '%' !in value
    ensures Pair(name + ['='] + value) == (name, value)
  {
    var piece := name + ['='] + value;
    SplitFirstPiece(name, '=', value);
    assert BeforeFirst(piece, '=') == name;
    assert piece[|name|] == '=';
    assert piece[|name| + 1..] == value;
  }

  lemma PairOfToken(t: string)
    requires PlainToken(t)
    ensures Pair("token=" + t) == ("token", t)
  {
    assert "token=" + t == "token" + ['='] + t;
    PairOfPlain("token", t);
  }

  lemma NoControlsConcat(a: string, b: string)
    requires NoControls(a) && NoControls(b)
    ensures NoControls(a + b)
  {
    forall i | 0 <= i < |a + b| ensures !IsC0OrSpace((a + b)[i]) {
      if i >= |a| {
        assert (a + b)[i] == b[i - |a|];
      }
    }
  }

  /** The hash of a URL the clean-up leaves alone is the text after its first `#`. */
  lemma HashAfterBase(base: string, frag: string)
    requires '#' !in base && NoControls(base + "#" + frag)
    ensures Hash(base + "#" + frag) == Some(frag)
  {
    var url := base + "#" + frag;
    assert Cleaned(url) == url;
    BeforeFirstIsPrefix(url, '#');
    assert url[|base|] == '#';
    assert |BeforeFirst(url, '#')| == |base|;
    assert url[|base| + 1..] == frag;
  }

  /** Parameters whose first piece is `token=<t>` give t. */
  lemma TokenFirst(t: string, rest: string)
    requires PlainToken(t)
    ensures TokenParam("token=" + t + "&" + rest) == Some(t)
  {
    var query := "token=" + t + "&" + rest;
    assert query == ("token=" + t) + ['&'] + rest;
    assert query[0] == 't';
    assert '&' !in "token=" + t;
    SplitFirstPiece("token=" + t, '&', rest);
    PairOfToken(t);
    assert Pairs(Split(query, '&'))[0] == ("token", t);
  }

  /** A redirect URL whose fragment starts with `token=<t>`, or with `?token=<t>`,
      yields t, whatever other parameters follow. */
  lemma TokenRoundTrip(base: string, mark: string, t: string, rest: string)
    requires '#' !in base && NoControls(base) && NoControls(rest)
    requires mark == "" || mark == "?"
    requires PlainToken(t)
    ensures ParseTokenFromUrl(base + "#" + (mark + ("token=" + t + "&" + rest)), true) == Some(t)
  {
    var frag := mark + ("token=" + t + "&" + rest);
    RedirectNoControls(base, mark, t, rest);
    HashAfterBase(base, frag);
    TokenAfterMark(mark, t, rest);
    TokenFromHash(base + "#" + frag, frag, t);
  }

  lemma RedirectNoControls(base: string, mark: string, t: string, rest: string)
    requires NoControls(base) && NoControls(rest)
    requires mark == "" || mark == "?"
    requires PlainToken(t)
    ensures NoControls(base + "#" + (mark + ("token=" + t + "&" + rest)))
  {
    var query := "token=" + t + "&" + rest;
    var frag := mark + query;
    assert NoControls("token=") && NoControls(mark);
    NoControlsConcat("token=", t);
    NoControlsConcat("token=" + t, "&");
    NoControlsConcat("token=" + t + "&", rest);
    NoControlsConcat(mark, query);
    NoControlsConcat(base, "#");
    NoControlsConcat(base + "#", frag);
  }

  /** The same parameters after an optional leading `?`. */
  lemma TokenAfterMark(mark: string, t: string, rest: string)
    requires mark == "" || mark == "?"
    requires PlainToken(t)
    ensures TokenParam(mark + ("token=" + t + "&" + rest)) == Some(t)
  {
    var query := "token=" + t + "&" + rest;
    TokenFirst(t, rest);
    assert query[0] == 't';
    if mark == "?" {
      assert (mark + query)[1..] == query;
    }
    assert QueryBody(mark + query) == query;
  }

  lemma TokenFromHash(url: string, frag: string, t: string)
    requires Hash(url) == Some(frag) && frag != ""
    requires TokenParam(frag) == Some(t) && t != ""
    ensures ParseTokenFromUrl(url, true) == Some(t)
  {
  }

  /** A redirect URL without a fragment rejects with the no-token message. */
  lemma NoFragmentRejects(url: string, parses: bool)
    requires url != "" && '#' !in url
    ensures FlowCallback(None, Some(url), parses) == Err(NoTokenReceived)
  {
    CleanedLacks(url, '#');
  }

  const IdentityUnavailable := "Chrome identity API is not available. Run this code as a Chrome extension."
  const FlowCancelledOrFailed := "OAuth flow was cancelled or failed."
  const FlowCancelled := "OAuth flow was cancelled. Please try again."
  const NoTokenReceived := "No token received from GoGio. Please try again."

  /** The `launchWebAuthFlow` callback. `lastError` is `chrome.runtime.lastError`
      (None: unset; Some(m): set with message m), `redirectUrl` the URL handed
      to the callback and `parses` whether `new URL` accepts it. */
  function FlowCallback(lastError: Option<string>, redirectUrl: Option<string>, parses: bool): (r: Result<string>)
    ensures lastError.Some? ==> r == Err(if lastError.value != "" then lastError.value else FlowCancelledOrFailed)
    ensures lastError.None? && (redirectUrl.None? || redirectUrl == Some("")) ==> r == Err(FlowCancelled)
    ensures r.Ok? <==> lastError.None? && redirectUrl.Some? && ParseTokenFromUrl(redirectUrl.value, parses).Some?
    ensures r.Ok? ==> r.value != "" && Some(r.value) == ParseTokenFromUrl(redirectUrl.value, parses)
    ensures (lastError.None? && redirectUrl.Some? && redirectUrl.value != ""
             && ParseTokenFromUrl(redirectUrl.value, parses).None?) ==> r == Err(NoTokenReceived)
  {
    if lastError.Some? then Err(if lastError.value != "" then lastError.value else FlowCancelledOrFailed)
    else if redirectUrl.None? || redirectUrl.value == "" then Err(FlowCancelled)
    else
      var token := ParseTokenFromUrl(redirectUrl.value, parses);
      if token.None? then Err(NoTokenReceived) else Ok(token.value)
  }

  /** `startChromeOAuthFlow()`: without `identity.launchWebAuthFlow` it rejects
      before launching anything; otherwise the flow runs and the callback settles
      the promise. Returns the outcome and whether a flow was launched. */
  function StartChromeOAuthFlow(identityAvailable: bool, lastError: Option<string>,
                                redirectUrl: Option<string>, parses: bool): (r: (Result<string>, bool))
    ensures !identityAvailable ==> r == (Err(IdentityUnavailable), false)
    ensures identityAvailable ==> r.1 && r.0 == FlowCallback(lastError, redirectUrl, parses)
  {
    if !identityAvailable then (Err(IdentityUnavailable), false)
    else (FlowCallback(lastError, redirectUrl, parses), true)
  }
}
