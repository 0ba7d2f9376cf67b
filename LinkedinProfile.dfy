/** The older LinkedIn content script: the same name, headline and location
    cascades as the shared extractor, a shorter experience cascade, the intro-card
    fallback for the company, and no headline parsing; plus its message listener. */
module LinkedinProfile {
  import opened Wrappers
  import opened Dom
  import opened ProfileExtractor

  const LegacyExperienceSelectors := ["#experience", "[id^=\"experience\"]", "section[id*=\"experience\"]"]
  const LegacyEntrySelectors := ["li.artdeco-list__item", "li"]
  const LegacyRoleSelectors := [
    "div.display-flex.align-items-center.mr1 span[aria-hidden=\"true\"]",
    "span.mr1.t-bold span[aria-hidden=\"true\"]",
    ".t-bold span[aria-hidden=\"true\"]"]
  const LegacyCompanySelectors := [
    "span.t-14.t-normal span[aria-hidden=\"true\"]",
    ".t-14.t-normal span[aria-hidden=\"true\"]"]

  function LegacyEntry(doc: Element): Option<Element> {
    var section := QueryFirst(doc, LegacyExperienceSelectors);
    if section.None? then None else QueryFirst(section.value, LegacyEntrySelectors)
  }

  function LegacyRole(doc: Element): Option<string> {
    var entry := LegacyEntry(doc);
    if entry.None? then None else TextOf(QueryFirst(entry.value, LegacyRoleSelectors))
  }

  function LegacyCompany(doc: Element): (r: Option<string>)
    ensures r.Some? ==> r.value != "" && '\U{00B7}' !in r.value
  {
    var entry := LegacyEntry(doc);
    if entry.None? then None
    else
      var el := QueryFirst(entry.value, LegacyCompanySelectors);
      if el.None? then None else CompanyCut(el.value.text)
  }

  /** The record the older `extractProfileData()` builds for this page. */
  function LegacyProfileOf(doc: Element, href: string): ProfileData {
    var company := if LegacyCompany(doc).Some? then LegacyCompany(doc) else FirstQualifying(IntroButtonTexts(doc));
    ProfileData(FirstText(doc, NameSelectors), FirstText(doc, HeadlineSelectors), FirstText(doc, LocationSelectors),
                company, LegacyRole(doc), href)
  }

  /** `extractProfileData()` of the older script. `href` is `window.location.href`. */
  method ExtractLegacyProfileData(doc: Element, href: string) returns (r: ProfileData)
    ensures r == LegacyProfileOf(doc, href)
    ensures r.fullName == FirstText(doc, NameSelectors)
    ensures r.headline == FirstText(doc, HeadlineSelectors)
    ensures r.location == FirstText(doc, LocationSelectors)
    ensures r.profileUrl == href
    // the role comes from the experience entry alone
    ensures r.currentRole == LegacyRole(doc)
    ensures LegacyCompany(doc).Some? ==> r.currentCompany == LegacyCompany(doc)
    ensures LegacyCompany(doc).None? ==> r.currentCompany == FirstQualifying(IntroButtonTexts(doc))
  {
    var fullName := FirstText(doc, NameSelectors);
    var headline := FirstText(doc, HeadlineSelectors);
    var location := FirstText(doc, LocationSelectors);

    // the experience entry, read as the older cascade reads it
    var currentRole := LegacyRole(doc);
    var currentCompany := LegacyCompany(doc);

    if !Truthy(currentRole) || !Truthy(currentCompany) {
      currentCompany := IntroFallback(doc, currentCompany);
    }

    r := ProfileData(fullName, headline, location, currentCompany, currentRole, href);
  }

  /** What the listener passes to `sendResponse`. */
  datatype Reply = ProfileReply(data: ProfileData) | NullReply

  /** The `onMessage` listener. `msgType` is `msg?.type`; `extractionThrows` says
      whether extraction threw on this page. Returns the reply sent (None: none
      sent) and the listener's return value. */
  method OnMessage(msgType: Option<string>, doc: Element, href: string, extractionThrows: bool)
    returns (reply: Option<Reply>, keepOpen: bool)
    ensures keepOpen
    ensures msgType != Some("GET_LINKEDIN_PROFILE_DATA") ==> reply.None?
    ensures msgType == Some("GET_LINKEDIN_PROFILE_DATA") && extractionThrows ==> reply == Some(NullReply)
    ensures msgType == Some("GET_LINKEDIN_PROFILE_DATA") && !extractionThrows ==>
              reply == Some(ProfileReply(LegacyProfileOf(doc, href)))
  {
    reply := None;
    if msgType == Some("GET_LINKEDIN_PROFILE_DATA") {
      if extractionThrows {
        reply := Some(NullReply);
      } else {
        var data := ExtractLegacyProfileData(doc, href);
        reply := Some(ProfileReply(data));
      }
    }
    keepOpen := true;
  }
}
