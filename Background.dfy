/** The background service worker: which tabs count as LinkedIn pages, the
    popup each tab gets (none on LinkedIn, so that the icon toggles the sidebar
    there), and the icon-click sequence that sends the toggle message and
    injects the content script when no script answers. */
module Background {
  import opened Wrappers
  import opened Text

  const LinkedInHost := "linkedin.com"
  const PopupPage := "index.html"
  const ContentScriptFile := "linkedin-content.js"
  const CompleteStatus := "complete"

  /** A tab URL: its text and the hostname `new URL(text)` gives for it
      (None: the constructor throws). */
  datatype TabUrl = TabUrl(text: string, host: Option<string>)

  /** A tab as `chrome.tabs.query` lists it; either property may be missing. */
  datatype Tab = Tab(id: Option<int>, url: Option<TabUrl>)

  /** A URL property is truthy when present and not empty. */
  predicate HasUrl(url: Option<TabUrl>) {
    url.Some? && url.value.text != ""
  }

  /** `isLinkedInPage(url)`: false for a missing or empty URL and for one the
      URL parser rejects; otherwise whether the hostname holds `linkedin.com`. */
  predicate IsLinkedInPage(url: Option<TabUrl>) {
    HasUrl(url) && url.value.host.Some? && Contains(url.value.host.value, LinkedInHost)
  }

  /** The LinkedIn test in terms of positions: the hostname holds
      `linkedin.com` at some offset, and every other URL is refused. */
  lemma LinkedInPageIff(url: Option<TabUrl>)
    ensures IsLinkedInPage(url) <==>
              HasUrl(url) && url.value.host.Some?
              && exists i: nat :: OccursAt(url.value.host.value, LinkedInHost, i)
  {
    if HasUrl(url) && url.value.host.Some? {
      ContainsIff(url.value.host.value, LinkedInHost);
    }
  }

  /** Every hostname ending in `linkedin.com` counts, subdomains included. */
  lemma LinkedInHostsCount(text: string, prefix: string)
    requires text != ""
    ensures IsLinkedInPage(Some(TabUrl(text, Some(prefix + LinkedInHost))))
  {
    var host := prefix + LinkedInHost;
    assert OccursAt(host, LinkedInHost, |prefix|) by {
      assert host[|prefix|..|prefix| + |LinkedInHost|] == LinkedInHost;
    }
    ContainsIff(host, LinkedInHost);
  }

  /** The popup `updatePopupForTab` sets: none on LinkedIn, the panel page
      everywhere else. */
  function PopupFor(url: Option<TabUrl>): (r: string)
    ensures r == "" <==> IsLinkedInPage(url)
    ensures r != "" ==> r == PopupPage
  {
    if IsLinkedInPage(url) then "" else PopupPage
  }

  /** A call the icon-click listener makes into the browser. */
  datatype Call = SendToggle(tabId: int) | Inject(tabId: int, file: string)

  /** The icon-click listener, given whether the first `TOGGLE_SIDEBAR`
      message is answered (`sendOk`) and whether injecting the content script
      succeeds (`injectOk`). Every failure is caught, so the listener always
      returns normally; the answer to the retry is ignored. */
  method OnClicked(tabId: int, url: Option<TabUrl>, sendOk: bool, injectOk: bool) returns (calls: seq<Call>)
    ensures !IsLinkedInPage(url) ==> calls == []
    ensures IsLinkedInPage(url) ==> |calls| >= 1 && calls[0] == SendToggle(tabId)
    ensures forall i :: 0 <= i < |calls| ==> calls[i].tabId == tabId
    ensures (exists i :: 0 <= i < |calls| && calls[i].Inject?) <==> IsLinkedInPage(url) && !sendOk
    ensures forall i :: 0 <= i < |calls| && calls[i].Inject? ==> calls[i].file == ContentScriptFile
    ensures |calls| == 3 <==> IsLinkedInPage(url) && !sendOk && injectOk
    ensures |calls| == 3 ==> calls[1].Inject? && calls[2] == SendToggle(tabId)
    ensures |calls| <= 3
  {
    calls := [];
    if IsLinkedInPage(url) {
      calls := calls + [SendToggle(tabId)];
      if !sendOk {
        calls := calls + [Inject(tabId, ContentScriptFile)];
        if injectOk {
          calls := calls + [SendToggle(tabId)];
        }
        assert calls[1].Inject?;
      }
    }
  }

  /** Whether `chrome.tabs.query` initialisation updates this tab: it needs a
      truthy id and a truthy URL. */
  predicate Eligible(tab: Tab) {
    tab.id.Some? && tab.id.value != 0 && HasUrl(tab.url)
  }

  /** The per-tab popups after updating every eligible tab of `tabs` in order. */
  function Initialised(popups: map<int, string>, tabs: seq<Tab>): map<int, string>
    decreases |tabs|
  {
    if tabs == [] then popups
    else
      var last := tabs[|tabs| - 1];
      var before := Initialised(popups, tabs[..|tabs| - 1]);
      if Eligible(last) then before[last.id.value := PopupFor(last.url)] else before
  }

  /** A tab id no eligible tab carries keeps the popup it had. */
  lemma {:induction false} InitialisedKeepsOthers(popups: map<int, string>, tabs: seq<Tab>, k: int)
    requires forall i :: 0 <= i < |tabs| && Eligible(tabs[i]) ==> tabs[i].id.value != k
    ensures k in Initialised(popups, tabs) <==> k in popups
    ensures k in popups ==> Initialised(popups, tabs)[k] == popups[k]
  {
    if tabs != [] {
      InitialisedKeepsOthers(popups, tabs[..|tabs| - 1], k);
    }
  }

  /** The popup of an eligible tab's id is the one its last eligible tab
      calls for. */
  lemma {:induction false} InitialisedLastWins(popups: map<int, string>, tabs: seq<Tab>, i: int)
    requires 0 <= i < |tabs| && Eligible(tabs[i])
    requires forall j :: i < j < |tabs| && Eligible(tabs[j]) ==> tabs[j].id != tabs[i].id
    ensures tabs[i].id.value in Initialised(popups, tabs)
    ensures Initialised(popups, tabs)[tabs[i].id.value] == PopupFor(tabs[i].url)
  {
    var n := |tabs| - 1;
    if i < n {
      InitialisedLastWins(popups, tabs[..n], i);
    }
  }

  /** The popup the browser shows for each tab, as the worker sets it. */
  class PopupTable {
    var popups: map<int, string>

    constructor ()
      ensures popups == map[]
    {
      popups := map[];
    }

    /** `updatePopupForTab(tabId, url)`. */
    method UpdatePopupForTab(tabId: int, url: Option<TabUrl>)
      modifies this
      ensures popups == old(popups)[tabId := PopupFor(url)]
    {
      popups := popups[tabId := PopupFor(url)];
    }

    /** `tabs.onUpdated`: only a load that completed with a URL updates the popup. */
    method OnUpdated(tabId: int, status: Option<string>, url: Option<TabUrl>)
      modifies this
      ensures status == Some(CompleteStatus) && HasUrl(url) ==> popups == old(popups)[tabId := PopupFor(url)]
      ensures status != Some(CompleteStatus) || !HasUrl(url) ==> popups == old(popups)
    {
      if status == Some(CompleteStatus) && HasUrl(url) {
        UpdatePopupForTab(tabId, url);
      }
    }

    /** `tabs.onActivated`, given what `chrome.tabs.get` settled with: a
        failed lookup is caught and changes nothing. */
    method OnActivated(tabId: int, got: Result<Option<TabUrl>>)
      modifies this
      ensures got.Ok? && HasUrl(got.value) ==> popups == old(popups)[tabId := PopupFor(got.value)]
      ensures got.Err? || !HasUrl(got.value) ==> popups == old(popups)
    {
      if got.Ok? && HasUrl(got.value) {
        UpdatePopupForTab(tabId, got.value);
      }
    }

    /** The start-up pass over every open tab. */
    method Init(tabs: seq<Tab>)
      modifies this
      ensures popups == Initialised(old(popups), tabs)
    {
      var n := 0;
      while n < |tabs|
        invariant 0 <= n <= |tabs|
        invariant popups == Initialised(old(popups), tabs[..n])
      {
        assert tabs[..n + 1][..n] == tabs[..n];
        var tab := tabs[n];
        if tab.id.Some? && tab.id.value != 0 && HasUrl(tab.url) {
          UpdatePopupForTab(tab.id.value, tab.url);
        }
        n := n + 1;
      }
      assert tabs[..n] == tabs;
    }
  }
}
