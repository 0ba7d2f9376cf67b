/** The shared profile extractor: the profile fields read from a LinkedIn profile
    page, each from a cascade of selectors with fallbacks that only ever fill a
    field still missing, and the contact details read from the Contact Info modal. */
module ProfileExtractor {
  import opened Wrappers
  import opened Text
  import opened Dom
  import opened Headline
  import opened Pattern

  datatype ProfileData = ProfileData(
    fullName: Option<string>,
    headline: Option<string>,
    location: Option<string>,
    currentCompany: Option<string>,
    currentRole: Option<string>,
    profileUrl: string)

  datatype ContactInfo = ContactInfo(
    email: Option<string>,
    phone: Option<string>,
    website: Option<string>,
    twitter: Option<string>)

  const NoContactInfo := ContactInfo(None, None, None, None)

  /** What the extraction does to the page besides reading it. */
  datatype PageAction = ClickContactLink | ClickDismiss | PressEscape

  const NameSelectors := ["h1.text-heading-xlarge", "h1.inline.t-24", "h1"]
  const HeadlineSelectors := ["div.text-body-medium.break-words",
                              ".pv-text-details__left-panel .text-body-medium",
                              "[data-generated-suggestion-target]"]
  const LocationSelectors := ["span.text-body-small.inline.t-black--light.break-words",
                              ".pv-text-details__left-panel .text-body-small.inline"]

  const ExperienceSelectors := ["#experience", "[id^=\"experience\"]",
                                "section[id*=\"experience\"]", "[data-section=\"experience\"]"]
  const HeadingSelector := "h2, [class*=\"title\"]"
  const EntrySelectors := ["li.artdeco-list__item", "li[class*=\"artdeco\"]", ".pvs-entity", "li"]
  const RoleSelectors := [
    "div.display-flex.align-items-center.mr1 span[aria-hidden=\"true\"]",
    "span.mr1.t-bold span[aria-hidden=\"true\"]",
    ".t-bold span[aria-hidden=\"true\"]",
    "[data-anonymize=\"title\"]",
    ".hoverable-link-text.t-bold span",
    ".t-bold > span",
    "span.t-bold"]
  const CompanySelectors := [
    "span.t-14.t-normal span[aria-hidden=\"true\"]",
    ".t-14.t-normal span[aria-hidden=\"true\"]",
    "[data-anonymize=\"company-name\"]",
    ".t-normal:not(.t-black--light) span[aria-hidden=\"true\"]",
    ".hoverable-link-text:not(.t-bold) span"]
  const IntroSelector := ".pv-text-details__right-panel"

  /** The company text of an experience entry: cut at the first `·`, trimmed,
      null when nothing is left. */
  function CompanyCut(text: string): (r: Option<string>)
    ensures r.Some? ==> r.value != "" && IsTrimmed(r.value) && '\U{00B7}' !in r.value
  {
    NonEmpty(Trim(BeforeFirst(Trim(text), '\U{00B7}')))
  }

  /** What the cut keeps is the trimmed text before the first `·` (all of it when
      there is none). */
  lemma CompanyCutKeepsPrefix(text: string)
    ensures var t := Trim(text);
            var before := BeforeFirst(t, '\U{00B7}');
            StartsWith(t, before)
            && ('\U{00B7}' in t ==> t[|before|] == '\U{00B7}')
            && ('\U{00B7}' !in t ==> before == t)
            && CompanyCut(text) == NonEmpty(Trim(before))
  {
    BeforeFirstIsPrefix(Trim(text), '\U{00B7}');
  }

  /** An intro-card button text that can be taken as the company. */
  predicate Qualifies(t: string) {
    t != "" && !Contains(t, "Contact") && !Contains(t, "connection")
  }

  /** The first qualifying text, or None. */
  function FirstQualifying(texts: seq<string>): (r: Option<string>)
    ensures r.Some? ==> Qualifies(r.value)
    ensures r.Some? ==> exists i :: 0 <= i < |texts| && r.value == texts[i] && Qualifies(texts[i])
                          && forall j :: 0 <= j < i ==> !Qualifies(texts[j])
    ensures r.None? ==> forall j :: 0 <= j < |texts| ==> !Qualifies(texts[j])
  {
    if texts == [] then None
    else
      var init := texts[..|texts| - 1];
      var p := FirstQualifying(init);
      assert forall j :: 0 <= j < |init| ==> init[j] == texts[j];
      if p.Some? then p
      else if Qualifies(texts[|texts| - 1]) then Some(texts[|texts| - 1])
      else None
  }

  /** `Array.from(document.querySelectorAll('section')).find(...)`: the first
      section whose heading text, lower-cased, mentions "experience". */
  predicate HeadsExperience(section: Element) {
    var heading := Query(section, HeadingSelector);
    heading.Some? && Contains(ToLower(heading.value.text), "experience")
  }

  function FindSection(sections: seq<Element>): (r: Option<Element>)
    ensures r.Some? ==> exists i :: 0 <= i < |sections| && r.value == sections[i] && HeadsExperience(sections[i])
                          && forall j :: 0 <= j < i ==> !HeadsExperience(sections[j])
    ensures r.None? ==> forall j :: 0 <= j < |sections| ==> !HeadsExperience(sections[j])
  {
    if sections == [] then None
    else if HeadsExperience(sections[0]) then Some(sections[0])
    else
      var r := FindSection(sections[1..]);
      assert forall j :: 0 < j < |sections| ==> sections[j] == sections[1..][j - 1];
      r
  }

  function ExperienceSection(doc: Element): Option<Element> {
    var bySelector := QueryFirst(doc, ExperienceSelectors);
    if bySelector.Some? then bySelector else FindSection(QueryAll(doc, "section"))
  }

  /** The most recent experience entry. */
  function FirstEntry(doc: Element): Option<Element> {
    var section := ExperienceSection(doc);
    if section.None? then None else QueryFirst(section.value, EntrySelectors)
  }

  /** The role read from the first experience entry. */
  function ExperienceRole(doc: Element): (r: Option<string>)
    ensures r.Some? ==> r.value != "" && IsTrimmed(r.value)
  {
    var entry := FirstEntry(doc);
    if entry.None? then None else TextOf(QueryFirst(entry.value, RoleSelectors))
  }

  /** The company read from the first experience entry. */
  function ExperienceCompany(doc: Element): (r: Option<string>)
    ensures r.Some? ==> r.value != "" && '\U{00B7}' !in r.value
  {
    var entry := FirstEntry(doc);
    if entry.None? then None
    else
      var el := QueryFirst(entry.value, CompanySelectors);
      if el.None? then None else CompanyCut(el.value.text)
  }

  /** The trimmed texts of some buttons, in document order. */
  function ButtonTexts(buttons: seq<Element>): (r: seq<string>)
    ensures |r| == |buttons| && forall k :: 0 <= k < |buttons| ==> r[k] == Trim(buttons[k].text)
  {
    seq(|buttons|, i requires 0 <= i < |buttons| => Trim(buttons[i].text))
  }

  /** The trimmed texts of the intro card's buttons, in document order. */
  function IntroButtonTexts(doc: Element): seq<string> {
    var intro := Query(doc, IntroSelector);
    if intro.None? then [] else ButtonTexts(QueryAll(intro.value, "button"))
  }

  /** A fallback value counts only when it is a non-empty string. */
  function Filled(o: Option<string>): (r: Option<string>)
    ensures r.Some? <==> Truthy(o)
    ensures r.Some? ==> r == o
  {
    if Truthy(o) then o else None
  }

  /** The intro-card fallback: walks the card's buttons and takes the first
      qualifying text as the company, unless a company is already known. It
      never touches the role. */
  method IntroFallback(doc: Element, company: Option<string>) returns (r: Option<string>)
    requires company.Some? ==> company.value != ""
    ensures company.Some? ==> r == company
    ensures company.None? ==> r == FirstQualifying(IntroButtonTexts(doc))
  {
    r := company;
    var intro := Query(doc, IntroSelector);
    if intro.Some? {
      r := ScanButtons(QueryAll(intro.value, "button"), company);
    }
  }

  /** `buttons.forEach(...)` of the intro-card fallback. */
  method ScanButtons(buttons: seq<Element>, company: Option<string>) returns (r: Option<string>)
    requires company.Some? ==> company.value != ""
    ensures company.Some? ==> r == company
    ensures company.None? ==> r == FirstQualifying(ButtonTexts(buttons))
  {
    r := company;
    ghost var texts := ButtonTexts(buttons);
    var i := 0;
    while i < |buttons|
      invariant 0 <= i <= |buttons|
      invariant company.Some? ==> r == company
      invariant company.None? ==> r == FirstQualifying(texts[..i])
    {
      var text := Trim(buttons[i].text);
      FirstQualifyingStep(texts, i);
      assert text == texts[i] && (Truthy(r) <==> r.Some?);
      if !Truthy(r) && text != "" && !Contains(text, "Contact") && !Contains(text, "connection") {
        r := Some(text);
      }
      i := i + 1;
    }
    assert texts[..i] == texts;
  }

  /** One more text extends the search only when nothing qualified before it. */
  lemma FirstQualifyingStep(texts: seq<string>, i: nat)
    requires i < |texts|
    ensures FirstQualifying(texts[..i + 1]) ==
              if FirstQualifying(texts[..i]).Some? then FirstQualifying(texts[..i])
              else if Qualifies(texts[i]) then Some(texts[i]) else None
  {
    assert texts[..i + 1][..i] == texts[..i];
  }

  /** The record `extractProfileData()` builds for this page: the three text
      cascades, the experience entry, then the intro card for a missing company,
      then the parsed headline for whatever is still missing. */
  function ProfileOf(doc: Element, href: string): ProfileData {
    var headline := FirstText(doc, HeadlineSelectors);
    var parsed := ParseHeadline(headline);
    var role := if ExperienceRole(doc).Some? then ExperienceRole(doc) else Filled(parsed.role);
    var intro := FirstQualifying(IntroButtonTexts(doc));
    var company :=
      if ExperienceCompany(doc).Some? then ExperienceCompany(doc)
      else if intro.Some? then intro
      else Filled(parsed.company);
    ProfileData(FirstText(doc, NameSelectors), headline, FirstText(doc, LocationSelectors), company, role, href)
  }

  /** `extractProfileData()` of the shared extractor. `href` is `window.location.href`. */
  method ExtractProfileData(doc: Element, href: string) returns (r: ProfileData)
    ensures r == ProfileOf(doc, href)
    ensures r.fullName == FirstText(doc, NameSelectors)
    ensures r.headline == FirstText(doc, HeadlineSelectors)
    ensures r.location == FirstText(doc, LocationSelectors)
    ensures r.profileUrl == href
    // the intro card never supplies a role; the headline fills only a missing one
    ensures ExperienceRole(doc).Some? ==> r.currentRole == ExperienceRole(doc)
    ensures ExperienceRole(doc).None? ==> r.currentRole == Filled(ParseHeadline(r.headline).role)
    // company: experience entry, else first qualifying intro button, else headline
    ensures ExperienceCompany(doc).Some? ==> r.currentCompany == ExperienceCompany(doc)
    ensures ExperienceCompany(doc).None? ==>
              r.currentCompany == (var intro := FirstQualifying(IntroButtonTexts(doc));
                                   if intro.Some? then intro
                                   else Filled(ParseHeadline(r.headline).company))
  {
    var fullName := FirstText(doc, NameSelectors);
    var headline := FirstText(doc, HeadlineSelectors);
    var location := FirstText(doc, LocationSelectors);

    // the most recent experience entry
    var currentRole := ExperienceRole(doc);
    var currentCompany := ExperienceCompany(doc);

    if !Truthy(currentRole) || !Truthy(currentCompany) {
      currentCompany := IntroFallback(doc, currentCompany);
    }

    if !Truthy(currentRole) || !Truthy(currentCompany) {
      var parsed := ParseHeadline(headline);
      if !Truthy(currentRole) && Truthy(parsed.role) {
        currentRole := parsed.role;
      }
      if !Truthy(currentCompany) && Truthy(parsed.company) {
        currentCompany := parsed.company;
      }
    }

    r := ProfileData(fullName, headline, location, currentCompany, currentRole, href);
  }

  /** `isLinkedInProfilePage()`: the address mentions `linkedin.com/in/`. */
  function IsLinkedInProfilePage(href: string): (r: bool)
    ensures r <==> exists i: nat :: OccursAt(href, "linkedin.com/in/", i)
  {
    ContainsIff(href, "linkedin.com/in/");
    Contains(href, "linkedin.com/in/")
  }

  const ContactLinkSelectors := ["#top-card-text-details-contact-info", "a[href*=\"contact-info\"]",
                                 "[data-control-name=\"contact_see_more\"]"]
  const ModalSelectors := [".pv-contact-info", ".artdeco-modal[role=\"dialog\"]", "[data-test-modal]",
                           ".artdeco-modal--layer-default"]
  const CloseSelectors := ["button[aria-label=\"Dismiss\"]", ".artdeco-modal__dismiss",
                           "button.artdeco-button--circle"]

  /** The value of a `mailto:` / `tel:` link: its href with the first occurrence of
      the scheme removed, trimmed, else the link's own text, else null. */
  function LinkValue(modal: Element, sel: string, scheme: string): (r: Option<string>)
    ensures r.Some? ==> r.value != "" && IsTrimmed(r.value)
    ensures Query(modal, sel).None? ==> r.None?
  {
    var link := Query(modal, sel);
    if link.None? then None
    else
      var href := Attr(link.value, "href");
      var fromHref := if href.Some? then Trim(ReplaceFirst(href.value, scheme, "")) else "";
      if fromHref != "" then Some(fromHref) else TextOf(link)
  }

  /** A link whose href starts with the scheme yields the rest of the href, trimmed,
      unless that is blank. */
  lemma LinkValueStripsScheme(modal: Element, sel: string, scheme: string, link: Element, href: string)
    requires Query(modal, sel) == Some(link) && Attr(link, "href") == Some(href)
    requires StartsWith(href, scheme) && Trim(href[|scheme|..]) != ""
    ensures LinkValue(modal, sel, scheme) == Some(Trim(href[|scheme|..]))
  {
    var rest := href[|scheme|..];
    assert "" + rest == rest;
    assert ReplaceFirst(href, scheme, "") == rest;
    assert Trim(ReplaceFirst(href, scheme, "")) == Trim(rest);
  }

  predicate IsTwitter(href: string) {
    Contains(href, "twitter.com") || Contains(href, "x.com")
  }

  predicate IsWebsite(href: string) {
    !StartsWith(href, "mailto:") && !StartsWith(href, "tel:") && !Contains(href, "linkedin.com")
    && StartsWith(href, "http")
  }

  /** The last twitter/x link. */
  function LastTwitter(hrefs: seq<string>): (r: Option<string>)
    ensures r.Some? ==> exists i :: 0 <= i < |hrefs| && r.value == hrefs[i] && IsTwitter(hrefs[i])
                          && forall j :: i < j < |hrefs| ==> !IsTwitter(hrefs[j])
    ensures r.None? ==> forall j :: 0 <= j < |hrefs| ==> !IsTwitter(hrefs[j])
  {
    if hrefs == [] then None
    else if IsTwitter(hrefs[|hrefs| - 1]) then Some(hrefs[|hrefs| - 1])
    else
      var init := hrefs[..|hrefs| - 1];
      assert forall j :: 0 <= j < |init| ==> init[j] == hrefs[j];
      LastTwitter(init)
  }

  /** The last link that is not twitter/x but an http link off LinkedIn. */
  function LastWebsite(hrefs: seq<string>): (r: Option<string>)
    ensures r.Some? ==> exists i :: 0 <= i < |hrefs| && r.value == hrefs[i]
                          && !IsTwitter(hrefs[i]) && IsWebsite(hrefs[i])
                          && forall j :: i < j < |hrefs| ==> IsTwitter(hrefs[j]) || !IsWebsite(hrefs[j])
    ensures r.None? ==> forall j :: 0 <= j < |hrefs| ==> IsTwitter(hrefs[j]) || !IsWebsite(hrefs[j])
  {
    if hrefs == [] then None
    else if !IsTwitter(hrefs[|hrefs| - 1]) && IsWebsite(hrefs[|hrefs| - 1]) then Some(hrefs[|hrefs| - 1])
    else
      var init := hrefs[..|hrefs| - 1];
      assert forall j :: 0 <= j < |init| ==> init[j] == hrefs[j];
      LastWebsite(init)
  }

  /** A link classified as twitter is never also taken as the website. */
  lemma TwitterAndWebsiteDisjoint(hrefs: seq<string>)
    requires LastTwitter(hrefs).Some? && LastWebsite(hrefs).Some?
    ensures LastTwitter(hrefs) != LastWebsite(hrefs)
  {
  }

  /** `link.getAttribute('href') || ''` for every `a[href]` of the modal. */
  function Hrefs(modal: Element): seq<string> {
    var links := QueryAll(modal, "a[href]");
    seq(|links|, i requires 0 <= i < |links| => Attr(links[i], "href").GetOr(""))
  }

  /** Waits for each selector in turn; the first whose element shows up wins
      (`waitForElement` resolves with the element once it is there, as read in
      the page after the click). */
  method FirstPresent(page: Element, sels: seq<string>) returns (found: Option<Element>)
    ensures found == QueryFirst(page, sels)
  {
    found := None;
    var i := 0;
    while i < |sels|
      invariant 0 <= i <= |sels|
      invariant found.None?
      invariant forall j :: 0 <= j < i ==> Query(page, sels[j]).None?
    {
      found := Query(page, sels[i]);
      if found.Some? {
        FirstQueryWins(page, sels, i);
        return;
      }
      i := i + 1;
    }
  }

  /** When the i-th selector is the first that matches, the cascade yields its element. */
  lemma FirstQueryWins(page: Element, sels: seq<string>, i: nat)
    requires i < |sels| && Query(page, sels[i]).Some?
    requires forall j :: 0 <= j < i ==> Query(page, sels[j]).None?
    ensures QueryFirst(page, sels) == Query(page, sels[i])
  {
    assert QueryFirst(page, sels).Some?;
    var k :| 0 <= k < |sels| && QueryFirst(page, sels) == Query(page, sels[k])
             && forall j :: 0 <= j < k ==> Query(page, sels[j]).None?;
  }

  const MailSelector := "a[href^=\"mailto:\"]"
  const TelSelector := "a[href^=\"tel:\"]"

  /** The email: the `mailto:` link's value, else the first regex match in the
      modal's text. */
  function ModalEmail(modal: Element): Option<string> {
    var mail := LinkValue(modal, MailSelector, "mailto:");
    if mail.Some? then mail else FindEmail(modal.text)
  }

  /** The phone: the `tel:` link's value, else the first regex match, trimmed. */
  function ModalPhone(modal: Element): Option<string> {
    var tel := LinkValue(modal, TelSelector, "tel:");
    if tel.Some? then tel
    else
      var m := FindPhone(modal.text);
      if m.Some? then Some(Trim(m.value)) else None
  }

  /** Walks the modal's links; the last twitter/x link and the last other http
      link off LinkedIn win. */
  method ClassifyLinks(modal: Element) returns (twitter: Option<string>, website: Option<string>)
    ensures twitter == LastTwitter(Hrefs(modal)) && website == LastWebsite(Hrefs(modal))
  {
    twitter, website := None, None;
    var links := QueryAll(modal, "a[href]");
    ghost var hrefs := Hrefs(modal);
    var i := 0;
    while i < |links|
      invariant 0 <= i <= |links| && |hrefs| == |links|
      invariant twitter == LastTwitter(hrefs[..i]) && website == LastWebsite(hrefs[..i])
    {
      var href := Attr(links[i], "href").GetOr("");
      assert hrefs[..i + 1][..i] == hrefs[..i] && href == hrefs[i];
      if Contains(href, "twitter.com") || Contains(href, "x.com") {
        twitter := Some(href);
      } else if !StartsWith(href, "mailto:") && !StartsWith(href, "tel:")
                && !Contains(href, "linkedin.com") && StartsWith(href, "http") {
        website := Some(href);
      }
      i := i + 1;
    }
    assert hrefs[..i] == hrefs;
  }

  /** What the open modal yields: its email, phone, website and twitter link. */
  function ModalInfo(modal: Element): ContactInfo {
    ContactInfo(ModalEmail(modal), ModalPhone(modal), LastWebsite(Hrefs(modal)), LastTwitter(Hrefs(modal)))
  }

  /** How the modal is closed: its dismiss button when it has one, else Escape. */
  function CloseAction(modal: Element): PageAction {
    if QueryFirst(modal, CloseSelectors).Some? then ClickDismiss else PressEscape
  }

  /** Reads the open modal: link values first, the regex fallback only for a
      field still missing, then the links' classification; and closes it. */
  method ReadModal(modal: Element) returns (r: ContactInfo, close: PageAction)
    ensures r == ModalInfo(modal) && close == CloseAction(modal)
  {
    var email: Option<string> := None;
    var phone: Option<string> := None;
    if Query(modal, MailSelector).Some? {
      email := LinkValue(modal, MailSelector, "mailto:");
    }
    if Query(modal, TelSelector).Some? {
      phone := LinkValue(modal, TelSelector, "tel:");
    }
    assert email == LinkValue(modal, MailSelector, "mailto:") && (Truthy(email) <==> email.Some?);
    assert phone == LinkValue(modal, TelSelector, "tel:") && (Truthy(phone) <==> phone.Some?);
    var twitter, website := ClassifyLinks(modal);

    if !Truthy(email) || !Truthy(phone) {
      var modalText := modal.text;
      if !Truthy(email) {
        var m := FindEmail(modalText);
        if m.Some? {
          email := m;
        }
      }
      if !Truthy(phone) {
        var m := FindPhone(modalText);
        if m.Some? {
          phone := Some(Trim(m.value));
        }
      }
    }

    assert email == ModalEmail(modal) && phone == ModalPhone(modal);
    var closeButton := QueryFirst(modal, CloseSelectors);
    close := if closeButton.Some? then ClickDismiss else PressEscape;
    r := ContactInfo(email, phone, website, twitter);
  }

  /** `extractContactInfo()`. `doc` is the page before the contact link is clicked,
      `afterClick` the page once the modal had its chance to appear. Returns the
      record and the actions performed on the page, in order. */
  method ExtractContactInfo(doc: Element, afterClick: Element) returns (r: ContactInfo, actions: seq<PageAction>)
    ensures QueryFirst(doc, ContactLinkSelectors).None? ==> r == NoContactInfo && actions == []
    ensures QueryFirst(doc, ContactLinkSelectors).Some? && QueryFirst(afterClick, ModalSelectors).None? ==>
              r == NoContactInfo && actions == [ClickContactLink]
    ensures QueryFirst(doc, ContactLinkSelectors).Some? && QueryFirst(afterClick, ModalSelectors).Some? ==>
              var modal := QueryFirst(afterClick, ModalSelectors).value;
              r == ModalInfo(modal) && actions == [ClickContactLink, CloseAction(modal)]
  {
    var contactLink := QueryFirst(doc, ContactLinkSelectors);
    if contactLink.None? {
      return NoContactInfo, [];
    }
    actions := [ClickContactLink];
    var found := FirstPresent(afterClick, ModalSelectors);
    if found.None? {
      return NoContactInfo, actions;
    }
    var close;
    r, close := ReadModal(found.value);
    actions := actions + [close];
    assert actions == [ClickContactLink, close];
  }
}
