# GoGio LinkedIn extension — a verified model of its core logic

GoGio's Chrome extension adds LinkedIn profiles to a GoGio recruiting
pipeline. This project models the logic behind that workflow.

- **Content scripts.** They read a profile page: name, headline, location,
  current company and role, and the Contact Info modal's email, phone, website
  and twitter link. They also mount and unmount the sidebar.
- **Background worker.** It decides, tab by tab, whether the toolbar icon
  opens the popup or toggles the sidebar.
- **Candidate panel.** It authenticates against the GoGio backend with a
  bearer token, either pasted in or obtained through OAuth. It then lets the
  recruiter choose an organisation, a job and a stage, auto-fills the
  candidate form from the profile, and submits the candidate.

Each source file of the core is one Dafny module:

| module | models |
|---|---|
| `ProfileExtractor` | `src/lib/profileExtractor.ts` |
| `LinkedinProfile` | `src/content/linkedinProfile.ts` |
| `SidebarStyles` | `src/content/sidebarStyles.ts` |
| `SidebarMount` | `src/content/sidebarMount.tsx` |
| `ContentScript` | `src/content/linkedinContent.ts` |
| `OAuth` | `src/lib/oauth.ts` |
| `OAuthBridge` | `src/lib/oauthBridge.ts` |
| `Api` | `src/lib/api.ts` |
| `ChromeStorage` | `src/lib/chromeStorage.ts` |
| `Auth` | `src/hooks/useExtensionAuth.ts` |
| `Dropdown` | `src/hooks/useDropdownData.ts` |
| `CandidateForm` | `src/components/extension/CandidateForm.tsx` |
| `SearchableSelect` | `src/components/extension/SidebarSearchableSelect.tsx` |
| `PanelApp` | `src/components/extension/CandidatePanelApp.tsx` |
| `Settings` | `src/components/extension/SettingsPanel.tsx` |
| `Shell` | `src/components/extension/SidebarShell.tsx` |
| `ResumeDetection` | `src/hooks/useLinkedInResumeDetection.ts` |
| `Background` | `public/background.js` |

Four support modules hold shared definitions:

- `Wrappers`: `Option` and `Result`.
- `Text`: JavaScript's `trim`, `split`, `join`, `includes`, `slice`, `repeat`,
  `replace` and ASCII `toLowerCase`, with their laws.
- `Dom`: the page as a tree of elements whose `querySelector` answers are
  given.
- `Pattern`: a backtracking matcher for the email, phone and profile-URL
  regular expressions.

The code's own form is kept:

- Pure expressions are functions.
- Code that updates state is a class whose methods change its fields. This
  covers the API client's token, the stored preference record, the hooks'
  state, the document's head and body, and the sidebar's flags.
- Loops are methods with loop invariants, each proved against a specification
  function: the intro-card `forEach`, the modal-selector loop, the link
  classification and the background worker's start-up pass over the tabs.

Awaited results, the network and the browser are parameters. `fetch`
becomes the response it delivers. A `chrome.*` callback becomes the value it
receives or `lastError`. A DOM query becomes the element the page holds.

`refreshAuth` checks the stored token again through `checkAuth`
(`src/hooks/useExtensionAuth.ts:55-56`), so a silent refresh with an invalid
stored token ends in `error`. That is what `Auth.AuthHook.RefreshAuth` states.

## Model

| member | source | states |
|---|---|---|
| Dom.QueryFirst | src/lib/profileExtractor.ts:87-91 | a cascade of `querySelector` calls joined by logical or yields an element iff some selector matches, and then it is the element of the first matching selector, every earlier selector having matched nothing |
| Dom.GetText | src/lib/profileExtractor.ts:20-23 | `getText` is null exactly when no element matches or its text is blank; otherwise it is that text, trimmed, which is never empty |
| Dom.FirstText | src/lib/profileExtractor.ts:62-79 | a field read through `getText` on each selector in turn, joined by logical or and ending in null, is non-null iff one selector yields text, and then it is the text of the first such selector in list order |
| Dom.FirstSome | src/lib/profileExtractor.ts:62-66 | candidates joined by logical or and ending in null give the first non-null candidate, and null exactly when all are null |
| Headline.LazyEnd | src/lib/profileExtractor.ts:36 | the lazy `(.+?)` company group ends at the first position where optional whitespace and a separator character, or the end, follows; no earlier position qualifies; the group never crosses a line terminator; None only when no end at all qualifies |
| Headline.CompanyFrom | src/lib/profileExtractor.ts:36 | the company group after a greedy `\s*`/`\s+` that gives back one character at a time: the latest start that admits a lazy group wins, with that group's first end; None exactly when no start in the range admits one |
| Headline.TailFrom | src/lib/profileExtractor.ts:48 | `\s*(.+?)$` after the separator: the latest start in the whitespace run whose rest is free of line terminators; None exactly when no start qualifies |
| Headline.AtFrom | src/lib/profileExtractor.ts:36 | a match of the `at` pattern has a non-empty role at the start, a whitespace-delimited case-insensitive `at`, and a non-empty company followed by a separator or the end; no group crosses a line terminator |
| Headline.AtSignFrom | src/lib/profileExtractor.ts:42 | a match of the `@` pattern has a role, optional whitespace, `@`, optional whitespace, then a company followed by a separator or the end |
| Headline.SeparatorFrom | src/lib/profileExtractor.ts:48 | a match of the separator pattern has a role, one separator character (vertical bar, `·`, `•`, `–` or `-`) with optional whitespace around it, and a company running to the end of the headline |
| Headline.AtFromFinds | src/lib/profileExtractor.ts:36 | completeness and laziness of the `at` search: whenever the headline has any `at` match whose role ends at or after i, the search from i succeeds, with a role no longer than that match's |
| Headline.AtSignFromFinds | src/lib/profileExtractor.ts:42 | the same completeness and laziness for the `@` pattern |
| Headline.SeparatorFromFinds | src/lib/profileExtractor.ts:48 | the same completeness and laziness for the separator pattern |
| Headline.ParseHeadline | src/lib/profileExtractor.ts:32-54 | a null or empty headline gives both null; otherwise role and company are both null or both trimmed strings |
| Headline.ParsedComesFromAMatch | src/lib/profileExtractor.ts:32-54 | whenever a role is reported, the headline really is role text, an `at` / `@` / separator joint, then company text, and the result is those two pieces trimmed |
| Headline.AtPatternWins | src/lib/profileExtractor.ts:36-39 | a headline with any `at` match is parsed by the `at` pattern: the result is that pattern's two groups trimmed, with the shortest possible role |
| Headline.AtSignPatternNext | src/lib/profileExtractor.ts:42-45 | a headline with no `at` match but some `@` match is parsed by the `@` pattern, with the shortest possible role |
| Headline.SeparatorPatternLast | src/lib/profileExtractor.ts:48-51 | a headline with neither an `at` nor an `@` match but some separator match is parsed by the separator pattern, with the shortest possible role |
| Headline.MatchesAreFound | src/lib/profileExtractor.ts:36-48 | each of the three searches succeeds whenever the headline has a match of its pattern |
| Headline.UnparsedMatchesNothing | src/lib/profileExtractor.ts:53 | a non-empty headline that yields null role and company matches none of the three patterns, for any placement of the groups |
| Pattern.MatchAt | src/lib/profileExtractor.ts:299 | the backtracking matcher at a fixed start finds a match end whenever one exists, and every end it reports is a match of the pattern |
| Pattern.SearchFrom | src/lib/chromeStorage.ts:94 | the search reports the leftmost start at which some alternative matches, with the end the first matching alternative's backtracking gives there; None exactly when no start matches |
| Pattern.FirstAlt | src/lib/profileExtractor.ts:308 | a reported end is where one of the alternatives matches from s; None exactly when no alternative matches at s with any end |
| Pattern.FirstAltPair | src/lib/profileExtractor.ts:308 | of two alternatives (the optional group taken, then left out) the second is tried only when the first fails at that start, and the end is that alternative's backtracking end |
| Pattern.FirstAltSingle | src/lib/chromeStorage.ts:94 | a pattern without alternatives ends where its own backtracking ends |
| Pattern.Find | src/lib/chromeStorage.ts:94 | `text.match(re)` without the `g` flag: the match starting leftmost, ending where greedy backtracking first succeeds from that start (`MatchAt`), and null exactly when no start position matches |
| Pattern.MatchAtEndsRun | src/lib/profileExtractor.ts:299 | a pattern whose last quantifier has no upper bound ends its match where that class stops (end of text or a character outside the class): the greedy last atom never gives characters back |
| Pattern.FindEmail | src/lib/profileExtractor.ts:299 | the email regex's result is the text of the leftmost match of `[\w.+-]+@[\w.-]+\.[a-zA-Z]{2,}`, ending at the backtracking end, after which no letter follows; null exactly when nothing in the text matches |
| Pattern.FindPhone | src/lib/profileExtractor.ts:308 | the phone regex at the leftmost start where it matches, with the optional `+country` group taken whenever the match with it succeeds there and dropped otherwise, ending where backtracking ends; null exactly when no substring matches |
| Pattern.PhoneSearch | src/lib/profileExtractor.ts:308 | the two-alternative search is the phone pattern: a found piece matches it, nothing matches further left, and the engine's end is the one chosen; no result means no match anywhere |
| Pattern.ProfileUrlShape | src/lib/chromeStorage.ts:94 | every match of the profile-URL pattern starts with `http` and ends with `linkedin.com/in/` and a non-empty slug |
| Pattern.ProfileUrlParts | src/lib/chromeStorage.ts:94 | every match of the profile-URL pattern is `http://` or `https://`, a host part free of `/`, `linkedin.com/in/` and a non-empty slug free of `/`, `?` and `#` |
| Pattern.ProfileUrlSlugIsWhole | src/lib/chromeStorage.ts:94 | the match the engine settles on takes the whole slug: the text ends there or goes on with `/`, `?` or `#` |
| Pattern.FoundIsMatch | src/lib/chromeStorage.ts:94-95 | what `match` returns is a substring that the pattern matches |
| ProfileExtractor.CompanyCut | src/lib/profileExtractor.ts:127-131 | the company of an experience entry is null or a non-empty, trimmed text with no `·` in it |
| ProfileExtractor.CompanyCutKeepsPrefix | src/lib/profileExtractor.ts:129-130 | the cut keeps exactly the trimmed text before the first `·`, or all of it when there is none, and an empty result becomes null |
| ProfileExtractor.FirstQualifying | src/lib/profileExtractor.ts:143-149 | the intro-card company is the first button text that is non-empty and mentions neither "Contact" nor "connection"; it is null only when no text qualifies |
| ProfileExtractor.FindSection | src/lib/profileExtractor.ts:93-96 | the heading search finds the first `section` whose heading, lower-cased, mentions "experience", and none when no section has such a heading |
| ProfileExtractor.ExperienceRole | src/lib/profileExtractor.ts:108-117 | the role read from the first experience entry is null or non-empty and trimmed |
| ProfileExtractor.ExperienceCompany | src/lib/profileExtractor.ts:120-131 | the company read from the first experience entry is null or non-empty and free of `·` |
| ProfileExtractor.Filled | src/lib/profileExtractor.ts:159-164 | a headline-parsed value is used only when it is a non-empty string |
| ProfileExtractor.IntroFallback | src/lib/profileExtractor.ts:139-154 | the button loop keeps an already known company; otherwise it sets the first qualifying button text; it never touches the role |
| ProfileExtractor.ScanButtons | src/lib/profileExtractor.ts:143-149 | the `forEach` loop over the buttons keeps a company that is already known; with none, it ends holding the first qualifying button text, as `FirstQualifying` defines it |
| ProfileExtractor.ExtractProfileData | src/lib/profileExtractor.ts:60-177 | name, headline and location are their cascades' first hits; the role is the experience role, else the parsed headline's; the company is the experience company, else the first qualifying intro button, else the parsed headline's; no fallback overwrites a found value; `profileUrl` is always the page address; the whole record equals `ProfileOf` of the page |
| ProfileExtractor.IsLinkedInProfilePage | src/lib/profileExtractor.ts:182-184 | true exactly when `linkedin.com/in/` occurs somewhere in the address |
| ProfileExtractor.LinkValue | src/lib/profileExtractor.ts:264-276 | a `mailto:`/`tel:` value is null without a link, and otherwise non-empty and trimmed |
| ProfileExtractor.LinkValueStripsScheme | src/lib/profileExtractor.ts:266 | a link whose href starts with the scheme yields the rest of the href, trimmed |
| ProfileExtractor.LastTwitter | src/lib/profileExtractor.ts:280-284 | the twitter value is the last href mentioning `twitter.com` or `x.com`, and null when none does |
| ProfileExtractor.LastWebsite | src/lib/profileExtractor.ts:285-291 | the website is the last href that is not a twitter link and is an `http` link that is not `mailto:`, not `tel:` and not on LinkedIn |
| ProfileExtractor.TwitterAndWebsiteDisjoint | src/lib/profileExtractor.ts:282-291 | no link is taken both as twitter and as website |
| ProfileExtractor.FirstQueryWins | src/lib/profileExtractor.ts:240-246 | when the i-th selector is the first to match, the cascade yields its element |
| ProfileExtractor.FirstPresent | src/lib/profileExtractor.ts:239-246 | the modal-selector loop stops at the first selector whose element is present and finds exactly what the cascade over the modal selectors finds |
| ProfileExtractor.ClassifyLinks | src/lib/profileExtractor.ts:279-292 | the link loop leaves twitter and website equal to the last matching twitter link and the last matching website link |
| ProfileExtractor.ReadModal | src/lib/profileExtractor.ts:258-331 | the email and phone are the link values when present, else the regex results (the phone trimmed); the website and twitter come from the link classification; the modal is closed by the dismiss button if there is one, else by Escape |
| ProfileExtractor.ExtractContactInfo | src/lib/profileExtractor.ts:215-332 | without a contact link the result is all null and nothing is clicked; with a link but no modal it is all null after one click; otherwise the modal's fields are read, and the actions are the click and then the close |
| LinkedinProfile.LegacyCompany | src/content/linkedinProfile.ts:63-69 | the older script's company is cut at the first `·` and is null or non-empty without `·` |
| LinkedinProfile.ExtractLegacyProfileData | src/content/linkedinProfile.ts:18-106 | name, headline and location are their cascades' first hits; the role comes only from the experience entry (no headline parsing); the intro card fills only a missing company; `profileUrl` is the page address; the whole record equals `LegacyProfileOf` of the page |
| LinkedinProfile.OnMessage | src/content/linkedinProfile.ts:112-130 | a profile request is answered with exactly the record the legacy extraction builds for that page (`LegacyProfileOf`), or with null when extraction throws; other messages get no answer; the listener always returns true |
| SidebarStyles.RemoveFirst | src/content/sidebarStyles.ts:168-174 | removing an element by id takes out exactly one occurrence when there is one, and changes nothing otherwise |
| SidebarStyles.Document.RemoveById | src/content/sidebarStyles.ts:170-173 | `getElementById(id)?.remove()` lowers that id's count by one when present, and leaves every other id's count alone |
| SidebarStyles.Document.AppendToHead | src/content/sidebarStyles.ts:160-165 | appending a style element adds exactly one element with that id to the head |
| SidebarStyles.Document.AppendToBody | src/content/sidebarMount.tsx:32-35 | appending the container adds exactly one element with that id to the body |
| SidebarStyles.CountHas | src/content/sidebarStyles.ts:155 | `getElementById` finds an element exactly when some element carries the id |
| SidebarStyles.InjectSidebarStyles | src/content/sidebarStyles.ts:153-166 | idempotent: an existing `gogio-sidebar-styles` element is kept and nothing is appended; otherwise exactly one is appended to the head; afterwards it exists, and no other id is affected |
| SidebarStyles.RemoveSidebarStyles | src/content/sidebarStyles.ts:168-174 | with at most one such element, none is left afterwards; without one nothing changes; no other id is affected |
| SidebarStyles.InjectAppStyles | src/content/sidebarStyles.ts:720-732 | the same idempotent injection for `gogio-app-styles` |
| SidebarStyles.RemoveAppStyles | src/content/sidebarStyles.ts:734-739 | the same removal for `gogio-app-styles` |
| SidebarMount.Controller.Mount | src/content/sidebarMount.tsx:18-50 | mounting when already mounted changes nothing; otherwise both style sets and the container are present afterwards, an existing container is reused rather than duplicated, the root exists and the flag is set; no element with any other id is added or removed; the controller invariant (at most one of each element, root iff mounted) is kept |
| SidebarMount.Controller.Unmount | src/content/sidebarMount.tsx:55-81 | unmounting when not mounted changes nothing; otherwise the root is dropped and the container and both style elements are gone, while no element with any other id is added or removed; the invariant is kept |
| SidebarMount.Controller.Toggle | src/content/sidebarMount.tsx:86-93 | toggling flips the mounted flag; once mounted the root, the sidebar styles and the app styles are on the page, and once unmounted (from a valid state) all three are gone; the invariant is kept and every other id's elements are left alone |
| SidebarMount.Controller.IsSidebarMounted | src/content/sidebarMount.tsx:98 | reports exactly the mounted flag |
| SidebarMount.PreparePage | src/content/sidebarMount.tsx:26-37 | after the mount's page work both style elements and the container exist, each one's count is unchanged when it was there already, else one, and the count of every other id is unchanged |
| SidebarMount.IdsDistinct | src/content/sidebarMount.tsx:10 | the container id and the two style ids are pairwise distinct, so work on one never disturbs another |
| ContentScript.OnMessage | src/content/linkedinContent.ts:17-54 | a profile request answers with exactly the record extraction builds for that page (`ProfileOf`), or null when extraction throws, and leaves the sidebar alone (mount state, React root, head and body unchanged); `TOGGLE_SIDEBAR` flips the mount state and reports the new one; `MOUNT_SIDEBAR` mounts and reports mounted; other messages get no answer and change nothing; on every path the elements of ids other than the sidebar's three are untouched, and the listener returns true |
| OAuth.Fragment | src/lib/oauth.ts:32-35 | the fragment is the text after the first `#`, and absent exactly when there is no `#` |
| OAuth.PlusToSpace | src/lib/oauth.ts:38 | form decoding turns each `+` into a space and keeps every other character |
| OAuth.FormDecode | src/lib/oauth.ts:38 | text with no `+` and no `%` decodes to itself |
| OAuth.Get | src/lib/oauth.ts:39 | `params.get(name)` is the value of the first pair with that name, and null when no pair has it |
| OAuth.Cleaned | src/lib/oauth.ts:27-28 | the URL parser drops C0 controls and spaces at both ends and every tab and newline: the result has no such character at either end and no tab or newline anywhere, and a URL without controls or spaces is left as it is |
| OAuth.CleanedLacks | src/lib/oauth.ts:27-28 | the clean-up only removes characters, so a `#` the URL lacks cannot appear |
| OAuth.TrailingControlIgnored | src/lib/oauth.ts:27-28 | a control or space at the end of the redirect URL does not change the token read from it |
| OAuth.QueryMarkIgnored | src/lib/oauth.ts:38 | `URLSearchParams` drops one leading `?`, so `?token=…` reads as `token=…` |
| OAuth.ParseTokenFromUrl | src/lib/oauth.ts:23-58 | null when the URL does not parse, when the cleaned URL has no fragment or a bare `#`, or when the fragment (after one leading `?`) has no non-empty `token` parameter; otherwise exactly that first `token` value |
| OAuth.TokenRoundTrip | src/lib/oauth.ts:23-58 | a redirect URL whose fragment starts with `token=<t>` or `?token=<t>` yields t, whatever parameters follow |
| OAuth.FlowCallback | src/lib/oauth.ts:80-109 | the callback checks, in order: `lastError` (reject with its message, or the generic one), a missing redirect URL (reject as cancelled), no token (reject as not received); it resolves exactly when none applies, and then with the parsed token |
| OAuth.NoFragmentRejects | src/lib/oauth.ts:99-105 | a redirect without a fragment rejects with the no-token message |
| OAuth.StartChromeOAuthFlow | src/lib/oauth.ts:65-112 | without `identity.launchWebAuthFlow` it rejects without launching anything; otherwise a flow is launched and the callback decides the outcome |
| OAuthBridge.IsContentScriptContext | src/lib/oauthBridge.ts:13-22 | true exactly when `runtime.sendMessage` is a function and `identity.launchWebAuthFlow` is not |
| OAuthBridge.ContextChoosesBridge | src/lib/oauthBridge.ts:13-33 | wherever the bridge is chosen, the direct flow could not start, the bridge's own guard passes and `sendMessage` can be called |
| OAuthBridge.LastErrorMessage | src/lib/oauthBridge.ts:43-54 | a runtime error mentioning "cancel" or "closed" (any case) becomes the cancellation message; any other passes through, and an empty one becomes the generic failure |
| OAuthBridge.FailureMessage | src/lib/oauthBridge.ts:66-78 | a failed response's error (default "OAuth failed…") mentioning cancel, closed or denied becomes the cancellation message, otherwise it is passed through; never empty |
| OAuthBridge.StartOAuthViaBridge | src/lib/oauthBridge.ts:28-81 | rejects without `sendMessage`; a truthy `sendMessage` that is not a function passes the guard and then rejects with the `TypeError` of calling it; otherwise a runtime error decides before the response, and a missing response rejects; it resolves exactly when `sendMessage` is callable and the response reports success with a non-empty token, and then with that token |
| OAuthBridge.LastErrorWins | src/lib/oauthBridge.ts:43-54 | with a runtime error the outcome is a rejection whatever the response says |
| OAuthBridge.DeniedOnlyOnResponsePath | src/lib/oauthBridge.ts:43-77 | "denied" counts as a cancellation in a failed response but is passed through unchanged as a runtime error |
| Api.BuildRequest | src/lib/api.ts:60-67 | the request goes to the base URL plus the endpoint with the caller's method and body; the JSON content type and the bearer token are defaults, and headers the caller supplies override them |
| Api.Outcome | src/lib/api.ts:69-77 | a 2xx response gives its body; 401 always gives `UNAUTHORIZED`; any other status gives the body text, or "Request failed with status n" when it is empty; an error message is never empty |
| Api.StatusRecoverable | src/lib/api.ts:74 | the status can be read back from the digits of the fallback message |
| Api.UnauthorizedIgnoresBody | src/lib/api.ts:70-72 | two 401 responses give the same error whatever their bodies |
| Api.JobsEndpoint | src/lib/api.ts:88-90 | the jobs path is `/chrome-api-jobs?organization_id=` followed by the id, unchanged |
| Api.StagesEndpoint | src/lib/api.ts:92-94 | the stages path is `/chrome-api-stages?job_id=` followed by the id, unchanged |
| Api.SubmitOptions | src/lib/api.ts:96-101 | a submission is a POST whose body is the serialised payload, with no extra headers |
| Api.ApiClient.constructor | src/lib/api.ts:45 | a new client holds no token |
| Api.ApiClient.SetToken | src/lib/api.ts:47-49 | `setToken` overwrites the token |
| Api.ApiClient.ClearToken | src/lib/api.ts:51-53 | `clearToken` leaves no token |
| Api.ApiClient.Request | src/lib/api.ts:55-78 | without a non-empty token it rejects with "No authentication token set" and sends nothing; otherwise it sends the built request and reports the response's outcome |
| Api.ApiClient.GetMe | src/lib/api.ts:80-82 | a sent request goes to `/chrome-api-me` with the default method |
| Api.ApiClient.GetOrganizations | src/lib/api.ts:84-86 | a sent request goes to `/chrome-api-organizations` with the default method |
| Api.ApiClient.GetJobs | src/lib/api.ts:88-90 | a sent request goes to the organisation's jobs path |
| Api.ApiClient.GetStages | src/lib/api.ts:92-94 | a sent request goes to the job's stages path |
| Api.ApiClient.SubmitCandidate | src/lib/api.ts:96-101 | a sent request POSTs the payload to `/chrome-api-candidates` |
| ChromeStorage.Merged | src/lib/chromeStorage.ts:41 | the merge has both maps' keys; the update's values win, and every other key keeps its value |
| ChromeStorage.WithoutToken | src/lib/chromeStorage.ts:70 | deleting `token` removes that key only and keeps every other entry |
| ChromeStorage.PrefStore.constructor | src/lib/chromeStorage.ts:23-37 | the store starts from whatever the storage slot holds |
| ChromeStorage.PrefStore.Current | src/lib/chromeStorage.ts:23-37 | a missing record, or one that does not parse, reads as the empty map |
| ChromeStorage.PrefStore.SetPreferences | src/lib/chromeStorage.ts:39-48 | the stored record becomes the merge of the update over the current one |
| ChromeStorage.PrefStore.ClearPreferences | src/lib/chromeStorage.ts:50-57 | afterwards the preferences read as the empty map |
| ChromeStorage.PrefStore.GetToken | src/lib/chromeStorage.ts:59-62 | the token is present exactly when the record has a `token` entry, and then it is that entry |
| ChromeStorage.PrefStore.SetToken | src/lib/chromeStorage.ts:64-66 | the record becomes the old one merged with `{token}`: `getToken` then returns the new token, and every other preference is kept |
| ChromeStorage.PrefStore.ClearToken | src/lib/chromeStorage.ts:68-77 | `getToken` then returns nothing, and only the `token` key is removed |
| ChromeStorage.GetLinkedInUrl | src/lib/chromeStorage.ts:91-98 | null without a URL or without `linkedin.com/in/`; otherwise the first match of the profile-URL pattern, or the text before the first `?` when it does not match |
| ChromeStorage.MatchStartsWithScheme | src/lib/chromeStorage.ts:94 | a match of the profile-URL pattern starts with `http` |
| ChromeStorage.MatchEndsWithSlug | src/lib/chromeStorage.ts:94 | a match of the profile-URL pattern ends with `linkedin.com/in/` and a slug free of `/`, `?` and `#` |
| ChromeStorage.MatchImpliesMarker | src/lib/chromeStorage.ts:93-94 | a URL the pattern matches contains `linkedin.com/in/`, so the guard never hides a match |
| ChromeStorage.FoundImpliesMarker | src/lib/chromeStorage.ts:93-94 | the same for the match the search reports |
| ChromeStorage.MatchedUrlIsMatch | src/lib/chromeStorage.ts:93-95 | when the pattern matches, the result is its leftmost match |
| ChromeStorage.CanonicalProfileUrl | src/lib/chromeStorage.ts:94-95 | when the pattern matches, the result is a piece of the URL made of `http://` or `https://`, a host free of `/`, `linkedin.com/in/` and the whole slug (the URL ends there or goes on with `/`, `?` or `#`): any query, fragment or later path is dropped |
| Auth.ShownError | src/hooks/useExtensionAuth.ts:33-39 | `UNAUTHORIZED` is shown as "Invalid or expired token"; every other message is shown unchanged |
| Auth.AuthHook.constructor | src/hooks/useExtensionAuth.ts:18-21 | the hook starts `loading` with no user, error or token |
| Auth.AuthHook.CheckAuth | src/hooks/useExtensionAuth.ts:23-43 | valid exactly for a non-empty token the backend accepts; then authenticated with the user, no error and the client holding the token; otherwise `error` with the mapped message and no client token; `authenticated` is reached only this way |
| Auth.AuthHook.RefreshAuth | src/hooks/useExtensionAuth.ts:45-57 | without a stored token the hook becomes unauthenticated with no token, and user, error and the client's token are unchanged; with one, the token is recorded and validated: accepted, the hook is authenticated with the `/chrome-api-me` body as user, no error and the client holding the token; refused, it is in `error` with the shown message, the user unchanged and the client's token cleared |
| Auth.AuthHook.SetToken | src/hooks/useExtensionAuth.ts:59-69 | returns validity; a valid token is merged into the stored record (other preferences kept), recorded and held by the client, with the backend's user and no error; an invalid one leaves the stored record, the recorded token and the user alone, clears the client's token and shows `NoToken` for an empty token or the backend's mapped message otherwise |
| Auth.AuthHook.ClearToken | src/hooks/useExtensionAuth.ts:71-78 | the token is gone from storage and the client, and the hook is unauthenticated with no token, user or error |
| Dropdown.FailureText | src/hooks/useDropdownData.ts:52 | a failed load shows the error's message, or the level's fallback text when what was thrown is not an `Error` |
| Dropdown.ListOf | src/hooks/useDropdownData.ts:43 | a result that is not an array is treated as the empty list |
| Dropdown.Restored | src/hooks/useDropdownData.ts:47-50 | a remembered id is restored only when it is non-empty and is the id of an item in the freshly loaded list |
| Dropdown.DropdownHook.constructor | src/hooks/useDropdownData.ts:23-35 | empty lists, empty selections, no loading and no error |
| Dropdown.DropdownHook.RefreshOrganizations | src/hooks/useDropdownData.ts:38-56 | on success the list is replaced and the remembered organisation is restored when it is a member, else the selection is kept; on failure the error is set and the list kept; the loading flag is false afterwards either way |
| Dropdown.DropdownHook.LoadJobs | src/hooks/useDropdownData.ts:59-89 | with no organisation the jobs and job selection are cleared; otherwise the jobs are loaded and the remembered job restored if it is a member, else cleared; a selected job is always kept, empty or a member of the list; the loading flag ends false |
| Dropdown.DropdownHook.LoadStages | src/hooks/useDropdownData.ts:92-122 | the same one level down: with no job the stages are cleared; otherwise a restored stage is a member of the new list, else the stage is cleared |
| Dropdown.DropdownHook.SetSelectedOrgId | src/hooks/useDropdownData.ts:125-131 | persists `lastOrganizationId` and resets both the job and the stage |
| Dropdown.DropdownHook.SetSelectedJobId | src/hooks/useDropdownData.ts:133-138 | persists `lastJobId` and resets only the stage |
| Dropdown.DropdownHook.SetSelectedStageId | src/hooks/useDropdownData.ts:140-143 | persists `lastStageId`; no other selection changes |
| Dropdown.ChosenIdRestored | src/hooks/useDropdownData.ts:47-50 | an id chosen (and so remembered) is restored by the next load of a list that still contains it |
| CandidateForm.SplitName | src/components/extension/CandidateForm.tsx:112 | the first name holds no space |
| CandidateForm.SplitNameRestores | src/components/extension/CandidateForm.tsx:111-115 | with a space, first + " " + last is the full name again; without one the last name is empty |
| CandidateForm.TrimAll | src/components/extension/CandidateForm.tsx:131 | `.map(p => p.trim())` trims every piece and keeps their number and order |
| CandidateForm.CommaPieces | src/components/extension/CandidateForm.tsx:131 | there is one piece per piece of the comma split, and piece i is the split's piece i trimmed, so each is trimmed and free of commas |
| CandidateForm.CommaPiecesAppend | src/components/extension/CandidateForm.tsx:131 | the pieces of a string holding a comma are the pieces before it followed by the pieces after it, so no piece is lost, merged or reordered |
| CandidateForm.SingleLocation | src/components/extension/CandidateForm.tsx:131-137 | a location without a comma is one piece, the whole location trimmed |
| CandidateForm.NonEmpty | src/components/extension/CandidateForm.tsx:198 | `.filter(Boolean)` keeps exactly the non-empty pieces, each as often as it occurs (the multiset of the input minus its empty strings) |
| CandidateForm.NonEmptyAppend | src/components/extension/CandidateForm.tsx:198 | the filter distributes over concatenation, so kept pieces stay in input order |
| CandidateForm.NonEmptySingle | src/components/extension/CandidateForm.tsx:198 | a single piece is kept exactly when it is not the empty string |
| CandidateForm.SkillList | src/components/extension/CandidateForm.tsx:198 | blank skills give the empty list; every skill is non-empty, trimmed and comma-free; otherwise the skills are the trimmed comma pieces minus the empty ones, duplicates kept |
| CandidateForm.SkillListFilters | src/components/extension/CandidateForm.tsx:198 | the blank-input guard is redundant: for every input the skill list is the filtered trimmed comma pieces |
| CandidateForm.SkillListAppend | src/components/extension/CandidateForm.tsx:198 | the skills of `a,b` are the skills of `a` followed by those of `b`, which fixes their order |
| CandidateForm.SkillsKept | src/components/extension/CandidateForm.tsx:198 | every non-blank comma piece of the input, trimmed, is among the skills |
| CandidateForm.BuildPayload | src/components/extension/CandidateForm.tsx:185-200 | the payload carries the chosen ids, the candidate name as trimmed first + " " + trimmed last, every text field trimmed, and the skill list |
| CandidateForm.CandidateNameShape | src/components/extension/CandidateForm.tsx:178-189 | a valid form's candidate name is trimmed, with the first name before a single space and the non-empty last name after it |
| CandidateForm.CandidateFormState.constructor | src/components/extension/CandidateForm.tsx:53-66 | the form starts blank and not submitting |
| CandidateForm.CandidateFormState.PrefillLinkedInUrl | src/components/extension/CandidateForm.tsx:74-82 | a non-empty URL found for the tab is written into the LinkedIn URL field; nothing else changes |
| CandidateForm.NameFrom | src/components/extension/CandidateForm.tsx:111-115 | the name rule writes only the two name fields, and only when both are empty in the form its guard reads |
| CandidateForm.SinglesFrom | src/components/extension/CandidateForm.tsx:117-127 | the role, company, summary and LinkedIn URL rules write only those four fields, each only where the form its guard reads has it empty |
| CandidateForm.LocationFrom | src/components/extension/CandidateForm.tsx:129-138 | the location rule writes only city and country, each only where the form its guard reads has it empty |
| CandidateForm.FillFrom | src/components/extension/CandidateForm.tsx:108-142 | the whole callback never writes email, phone, skills or notes, and writes no field that is non-empty in the form its guards read |
| CandidateForm.StaleAutoFill | src/components/extension/CandidateForm.tsx:85-153 | as written (guards reading the blank form of the first render): every field the response carries is written, the split name, role, company, headline, LinkedIn URL and a two-piece location, whatever the form holds |
| CandidateForm.StaleAutoFillOverwrites | src/components/extension/CandidateForm.tsx:74-82 | a LinkedIn URL already in the form and different from the response's `profileUrl` is overwritten as written and kept by the corrected rules; the same holds for a typed first name |
| CandidateForm.CandidateFormState.FillName | src/components/extension/CandidateForm.tsx:111-115 | the new form is the name rule applied with its guard reading the current form: split into both fields only when both are empty |
| CandidateForm.CandidateFormState.FillLocation | src/components/extension/CandidateForm.tsx:129-138 | the new form is the location rule applied to the current form: two or more pieces fill city and country only when both are empty; one piece fills only an empty city |
| CandidateForm.CandidateFormState.FillSingles | src/components/extension/CandidateForm.tsx:117-127 | the new form is the single-valued rules applied to the current form: role, company, summary and LinkedIn URL each written only where empty |
| CandidateForm.CandidateFormState.AutoFill | src/components/extension/CandidateForm.tsx:85-153 | corrected (see "## Findings"): nothing happens off a profile tab or without a response; otherwise the new form is `FillFrom` with the guards reading the current form, so no non-empty field is ever overwritten, email, phone, skills and notes are never touched, and each empty field the response can fill gets the value the rules give |
| CandidateForm.CandidateFormState.ResetForm | src/components/extension/CandidateForm.tsx:155-168 | every field is cleared except the LinkedIn URL |
| CandidateForm.CandidateFormState.HandleSubmit | src/components/extension/CandidateForm.tsx:170-215 | a payload is sent exactly when the form is valid (`isFormValid`), and it is the built payload; a missing selection or a blank name gives its error and no request; the form is reset only after a resolved request; `isSubmitting` ends false after an attempt |
| SearchableSelect.Filtered | src/components/extension/SidebarSearchableSelect.tsx:43-45 | the kept options are exactly those whose label contains the query, ignoring case |
| SearchableSelect.FilteredAppend | src/components/extension/SidebarSearchableSelect.tsx:43-45 | filtering keeps the options in their original order |
| SearchableSelect.FilteredIdempotent | src/components/extension/SidebarSearchableSelect.tsx:43-45 | filtering again with the same query changes nothing |
| SearchableSelect.EmptyQueryKeepsAll | src/components/extension/SidebarSearchableSelect.tsx:43-45 | an empty query keeps every option |
| SearchableSelect.SelectedOption | src/components/extension/SidebarSearchableSelect.tsx:40 | the selected option is the first whose id equals the value, and none when no id does |
| SearchableSelect.TriggerText | src/components/extension/SidebarSearchableSelect.tsx:97-108 | the trigger shows "Loading..." while loading, else the selected option's label, else the placeholder |
| SearchableSelect.SelectState.constructor | src/components/extension/SidebarSearchableSelect.tsx:35-36 | closed, with an empty query |
| SearchableSelect.SelectState.SetSearchQuery | src/components/extension/SidebarSearchableSelect.tsx:122 | typing sets the query and leaves the menu as it is |
| SearchableSelect.SelectState.HandleSelect | src/components/extension/SidebarSearchableSelect.tsx:72-76 | selecting reports the id, closes the menu and clears the query |
| SearchableSelect.SelectState.HandleToggle | src/components/extension/SidebarSearchableSelect.tsx:78-85 | does nothing while disabled or loading; otherwise flips the menu and clears the query when opening |
| SearchableSelect.SelectState.MouseDown | src/components/extension/SidebarSearchableSelect.tsx:49-58 | a press outside while open closes the menu and clears the query; any other press changes nothing |
| PanelApp.ScreenFor | src/components/extension/CandidatePanelApp.tsx:63-154 | OAuth in progress wins over every status; loading while not connecting shows the loader; unauthenticated shows setup with no error; error shows setup with its message; authenticated with a user shows settings or the form by view |
| PanelApp.FallbackExactly | src/components/extension/CandidatePanelApp.tsx:137-154 | the retry card appears exactly for loading while connecting and for authenticated without a user |
| PanelApp.AppScreensNeedUser | src/components/extension/CandidatePanelApp.tsx:115-134 | the form and the settings are shown exactly to an authenticated user outside OAuth |
| PanelApp.PanelState.constructor | src/components/extension/CandidatePanelApp.tsx:49-50 | the view starts on the form, not connecting |
| PanelApp.PanelState.ShowView | src/components/extension/CandidatePanelApp.tsx:121 | the settings and back buttons set the view and nothing else |
| PanelApp.PanelState.HandleOAuthConnect | src/components/extension/CandidatePanelApp.tsx:52-60 | the login's outcome is passed on and the busy flag is false afterwards, whatever the outcome |
| Settings.Mask | src/components/extension/SettingsPanel.tsx:30 | no token (or an empty one) masks to ''; otherwise the first up to 8 characters, the fill repeated 24 times, then the last up to 4 |
| Settings.RepeatAt | src/components/extension/SettingsPanel.tsx:30 | `fill.repeat(n)` has n copies of the fill, each at its own offset |
| Settings.MaskShape | src/components/extension/SettingsPanel.tsx:30 | the intended mask of a token of 12 or more characters is 36 characters: its first 8, 24 bullets, then its last 4 |
| Settings.GarbledMask | src/components/extension/SettingsPanel.tsx:30 | as written, the mask is 84 characters and its middle starts with `â€¢`, not a bullet |
| Settings.SettingsState.constructor | src/components/extension/SettingsPanel.tsx:26-28 | an empty entry, not updating, token hidden |
| Settings.SettingsState.DisplayedValue | src/components/extension/SettingsPanel.tsx:87-88 | the field shows the raw token when revealed and otherwise the corrected bullet mask `MaskedToken` (see "## Findings": the code as written shows the garbled mask of `GarbledMask`) |
| Settings.SettingsState.ToggleReveal | src/components/extension/SettingsPanel.tsx:96 | the eye button flips only the reveal flag |
| Settings.SettingsState.SetNewToken | src/components/extension/SettingsPanel.tsx:32-43 | typing sets the entry and nothing else |
| Settings.SettingsState.HandleUpdateToken | src/components/extension/SettingsPanel.tsx:32-43 | a blank entry does nothing; otherwise the trimmed entry is validated and stored by the hook; the entry is cleared, with the success toast, exactly when validation succeeds; `isUpdating` ends false |
| Settings.SettingsState.SubmitToken | src/components/extension/SettingsPanel.tsx:35-42 | for a non-blank entry: the success toast comes exactly when validation succeeds, and only then is the entry cleared and the token stored; `isUpdating` ends false |
| Settings.SettingsState.HandleClearPreferences | src/components/extension/SettingsPanel.tsx:45-48 | the preferences read as empty afterwards |
| Settings.SettingsState.HandleLogout | src/components/extension/SettingsPanel.tsx:50-53 | logging out leaves the hook unauthenticated with the token gone from storage and the client |
| Shell.CollapsedSlot.constructor | src/components/extension/SidebarShell.tsx:18-29 | the slot starts as the storage area holds it |
| Shell.CollapsedSlot.Read | src/components/extension/SidebarShell.tsx:18-29 | the flag reads false without storage or without the key, and as stored otherwise |
| Shell.CollapsedSlot.Write | src/components/extension/SidebarShell.tsx:31-42 | the flag is stored when storage exists; otherwise nothing changes |
| Shell.AvatarUrl | src/components/extension/SidebarShell.tsx:8-15 | the packaged avatar URL when `getURL` exists, else `/gio-avatar.png` |
| Shell.ShellState.constructor | src/components/extension/SidebarShell.tsx:45-46 | expanded and not loaded |
| Shell.ShellState.Load | src/components/extension/SidebarShell.tsx:49-56 | the flag is read from storage and the shell is marked loaded, in step with storage |
| Shell.ShellState.HandleCollapse | src/components/extension/SidebarShell.tsx:58-62 | collapses and persists true, keeping memory and storage in step; without storage the stored value is unchanged |
| Shell.ShellState.HandleExpand | src/components/extension/SidebarShell.tsx:64-68 | expands and persists false, keeping memory and storage in step; without storage the stored value is unchanged |
| Shell.ShellState.Render | src/components/extension/SidebarShell.tsx:71-117 | nothing until loaded; then only the floating button when collapsed, the full sidebar otherwise |
| ResumeDetection.ResumeStore.constructor | src/hooks/useLinkedInResumeDetection.ts:26 | the store starts as the storage area holds it |
| ResumeDetection.ResumeHook.constructor | src/hooks/useLinkedInResumeDetection.ts:15 | no resume, not listening |
| ResumeDetection.ResumeHook.Mount | src/hooks/useLinkedInResumeDetection.ts:18-48 | without storage nothing is read or subscribed; otherwise a stored resume is loaded and the listener is added |
| ResumeDetection.ResumeHook.Unmount | src/hooks/useLinkedInResumeDetection.ts:45-47 | the effect's cleanup removes the listener and keeps the slot |
| ResumeDetection.ResumeHook.OnStorageChange | src/hooks/useLinkedInResumeDetection.ts:34-41 | only a change to the resume key in the `local` area is taken: the slot gets the new value, or none when the key was removed |
| ResumeDetection.ResumeHook.ClearPendingResume | src/hooks/useLinkedInResumeDetection.ts:51-59 | with storage the key is removed and the slot emptied, so no resume is pending; without storage nothing happens |
| Background.IsLinkedInPage | public/background.js:7-15 | a missing, empty or unparseable URL is not LinkedIn; otherwise it is exactly when the hostname contains `linkedin.com` |
| Background.LinkedInPageIff | public/background.js:7-15 | the LinkedIn test holds exactly when `linkedin.com` occurs at some offset in a parsed hostname |
| Background.LinkedInHostsCount | public/background.js:10-11 | every hostname ending in `linkedin.com`, subdomains included, counts |
| Background.PopupFor | public/background.js:57-65 | the popup is '' exactly on LinkedIn tabs and `index.html` everywhere else |
| Background.OnClicked | public/background.js:18-54 | off LinkedIn nothing is sent; on LinkedIn `TOGGLE_SIDEBAR` goes first; the content script is injected only when that send fails; the retry toggle follows only a successful injection; at most three calls, all to the clicked tab |
| Background.InitialisedKeepsOthers | public/background.js:87-93 | the start-up pass leaves the popup of every tab id no eligible tab carries untouched |
| Background.InitialisedLastWins | public/background.js:87-93 | after the start-up pass each eligible tab has the popup its URL calls for |
| Background.PopupTable.constructor | public/background.js:57-65 | no per-tab popups yet |
| Background.PopupTable.UpdatePopupForTab | public/background.js:57-65 | sets that tab's popup from its URL and no other |
| Background.PopupTable.OnUpdated | public/background.js:68-72 | only a completed load with a URL updates the popup |
| Background.PopupTable.OnActivated | public/background.js:75-84 | an activated tab with a URL gets its popup; a failed tab lookup is caught and changes nothing |
| Background.PopupTable.Init | public/background.js:87-93 | the start-up loop updates exactly the tabs with a truthy id and URL, in order |

## Left out

- Timing. `waitForElement`'s 2000 ms observer, the 500 ms modal pause, the
  300 ms auto-fill delay and the 100 ms retry timer are not modelled. Each
  wait is modelled by what it yields; the retry is modelled as happening.
- The answer to the background worker's retry message is ignored, as in the
  code. The worker's console logging is left out.
- Real DOM clicks and the Escape key event are returned as `PageAction`
  values; their effect on the page is not modelled.
- `querySelector` / `querySelectorAll` / `getAttribute` are answers the
  `Element` carries, not a CSS selector engine.
- The extractors' `try`/`catch` around DOM reads: the modelled page never
  throws. Whether extraction threw is a parameter of the two listeners.
- `new URL` is not modelled beyond the clean-up of its input (`OAuth.Cleaned`).
  Whether a URL parses and its hostname are parameters. The parser's
  percent-encoding of the fragment is left out: `URLSearchParams` decodes
  those escapes again, so the token read is the same.
- `Settings.SettingsState.DisplayedValue` shows the corrected bullet mask.
  The code as written shows the garbled `â€¢` mask; that mask is modelled by
  `Settings.MaskedTokenAsWritten` and stated by `Settings.GarbledMask` (see
  "## Findings").
- `ChromeStorage.PrefStore.Current` reads a stored record that is not an
  object as the empty map. In the `localStorage` fallback, stored text `null`
  parses to `null`, and `getToken` would then throw. That case is not
  modelled.
- `OAuthBridge.StartOAuthViaBridge`: calling a non-function `sendMessage`
  rejects with V8's `TypeError` text. Other engines word it differently.
- `URLSearchParams` percent-decoding maps `%XX` to the code point XX and does
  not reassemble UTF-8 sequences.
- `toLowerCase` is ASCII-only. JavaScript strings are UTF-16, and slicing is
  modelled on characters, not code units.
- Regular expressions are hand-written matchers for the six patterns used,
  not a regex engine. Each matcher tries the alternatives in the order the
  backtracking engine does. No example headline is evaluated concretely.
- JSON decoding of response bodies and of stored `localStorage` text: a body
  is kept as text, and stored text that fails to parse is the `Unreadable`
  case.
- Network rejections of `fetch` are left out: the response is always
  delivered.
- `Auth.AuthHook`: the intermediate `loading` status each operation shows
  while waiting is not kept. Only the settled state is.
- `Dropdown.DropdownHook`: the loading flags are `true` only while a request
  is in flight. The model keeps only their settled value.
- `CandidateForm.CandidateFormState.AutoFill` is the corrected auto-fill: its
  guards read the form as it is when the callback runs. The code as written
  reads the blank form of the first render (see "## Findings" and
  `CandidateForm.StaleAutoFill`).
- `CandidateForm.CandidateFormState.PrefillLinkedInUrl` takes the value
  `getLinkedInUrl()` resolved to (see `ChromeStorage.GetLinkedInUrl`); the tab
  query itself is not modelled.
- The success/error toasts are modelled as values. Their rendering is left
  out.
- `PanelApp`: `oauthInProgress`, `loginWithOAuth` and `cancelOAuth` come from
  the authentication hook but are not part of `useExtensionAuth.ts` as shown.
  They are inputs here.
- The React root of the sidebar is modelled as present or absent. What it
  renders is not modelled.
- The CSS text of the two style sheets is not part of this model.
- Presentation-only files are not part of this model: `TokenSetup.tsx`,
  `GoGioLogo.tsx`, `GioFlipLoader.tsx`, `ExtensionPopup.tsx`, `App.tsx` and
  `pages/Index.tsx`. Neither are `src/lib/chromeApi.ts` (a thin wrapper over
  `chrome.tabs`) and the build configuration.
- Tab ids are integers, and 0 is falsy as in JavaScript.

## Findings

| source | as written | input that shows it | evidently intended | confidence | as-written member | corrected member |
|---|---|---|---|---|---|---|
| src/components/extension/SettingsPanel.tsx:30 | the mask fill is the three-character text `â€¢` (U+00E2 U+20AC U+00A2), the UTF-8 bytes of `•` read back as Windows-1252 | any token of 12 or more characters masks to 84 characters whose middle is `â€¢` repeated 24 times | 24 bullets `•` (U+2022), a 36-character mask | not executed | Settings.GarbledMask | Settings.MaskShape |
| src/components/extension/CandidateForm.tsx:85-153 | the auto-fill effect has an empty dependency list, so its callback keeps the first render's state and every `!field` guard tests a blank form | a profile tab whose prefill effect wrote the canonical URL `https://www.linkedin.com/in/jane` while the content script answers `profileUrl` `https://www.linkedin.com/in/jane/?trk=x`: the prefilled URL is replaced; a first name typed during the 300 ms delay is replaced the same way | only empty fields are filled, as the callback's own guards and comment say | not executed | CandidateForm.StaleAutoFill | CandidateForm.CandidateFormState.AutoFill |
