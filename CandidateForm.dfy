/** The candidate form: auto-fill from the profile the content script extracted,
    the submit-time validation, the payload it sends and the reset after a
    successful submission. */
module CandidateForm {
  import opened Wrappers
  import opened Text

  /** The form's text fields. */
  datatype Fields = Fields(
    firstName: string, lastName: string, email: string, phone: string,
    linkedinUrl: string, currentCompany: string, currentRole: string,
    city: string, country: string, summary: string, skills: string, notes: string)

  const Blank := Fields("", "", "", "", "", "", "", "", "", "", "", "")

  /** The content script's answer to `GET_LINKEDIN_PROFILE_DATA`. */
  datatype ProfileResponse = ProfileResponse(
    fullName: Option<string>, headline: Option<string>, location: Option<string>,
    currentCompany: Option<string>, currentRole: Option<string>, profileUrl: string)

  /** A nullable string used as a condition. */
  predicate Truthy(s: Option<string>) {
    s.Some? && s.value != ""
  }

  /** `fullName.split(' ')`: the first piece, and the rest joined back with spaces. */
  function SplitName(fullName: string): (r: (string, string))
    ensures ' ' !in r.0
  {
    var parts := Split(fullName, ' ');
    (parts[0], Join(parts[1..], " "))
  }

  /** The name split loses nothing: with a space the two halves joined by a
      space give the name back, and without one the last name is empty. */
  lemma {:induction false} SplitNameRestores(fullName: string)
    ensures ' ' in fullName ==> SplitName(fullName).0 + " " + SplitName(fullName).1 == fullName
    ensures ' ' !in fullName ==> SplitName(fullName) == (fullName, "")
  {
    var parts := Split(fullName, ' ');
    JoinSplit(fullName, ' ');
    SplitSingle(fullName, ' ');
    if ' ' in fullName {
      assert Join(parts, " ") == parts[0] + " " + Join(parts[1..], " ");
    }
  }

  /** Each piece trimmed, in order. */
  function TrimAll(parts: seq<string>): (r: seq<string>)
    ensures |r| == |parts|
    ensures forall i :: 0 <= i < |r| ==> r[i] == Trim(parts[i])
    ensures forall i :: 0 <= i < |r| ==> IsTrimmed(r[i])
  {
    if parts == [] then [] else [Trim(parts[0])] + TrimAll(parts[1..])
  }

  /** Trimming the pieces brings in no character they lacked. */
  lemma TrimAllKeepsOut(parts: seq<string>, c: char)
    requires forall i :: 0 <= i < |parts| ==> c !in parts[i]
    ensures forall i :: 0 <= i < |parts| ==> c !in TrimAll(parts)[i]
  {
    forall i | 0 <= i < |parts| ensures c !in TrimAll(parts)[i] {
      TrimKeepsChars(parts[i]);
    }
  }

  /** `s.split(',').map(p => p.trim())`, as applied to the location and the skills. */
  function CommaPieces(location: string): (r: seq<string>)
    ensures |r| == |Split(location, ',')| >= 1
    ensures forall i :: 0 <= i < |r| ==> r[i] == Trim(Split(location, ',')[i])
    ensures forall i :: 0 <= i < |r| ==> IsTrimmed(r[i]) && ',' !in r[i]
  {
    TrimAllKeepsOut(Split(location, ','), ',');
    TrimAll(Split(location, ','))
  }

  /** Trimming piecewise commutes with concatenation. */
  lemma TrimAllAppend(a: seq<string>, b: seq<string>)
    ensures TrimAll(a + b) == TrimAll(a) + TrimAll(b)
  {
    assert forall i :: 0 <= i < |a| ==> (a + b)[i] == a[i];
    assert forall i :: |a| <= i < |a + b| ==> (a + b)[i] == b[i - |a|];
  }

  /** The pieces of a string holding a comma are those of the text before it,
      then those of the text after it. */
  lemma CommaPiecesAppend(a: string, b: string)
    ensures CommaPieces(a + "," + b) == CommaPieces(a) + CommaPieces(b)
  {
    SplitAppend(a, ',', b);
    TrimAllAppend(Split(a, ','), Split(b, ','));
  }

  /** A location without a comma is one piece: the whole location, trimmed. */
  lemma SingleLocation(location: string)
    requires ',' !in location
    ensures CommaPieces(location) == [Trim(location)]
  {
    SplitSingle(location, ',');
  }

  /** The active tab shows a LinkedIn profile: `url?.includes('linkedin.com/in/')`. */
  predicate OnProfilePage(tabUrl: Option<string>) {
    tabUrl.Some? && Contains(tabUrl.value, "linkedin.com/in/")
  }

  /** `isFormValid`. */
  predicate IsFormValid(orgId: string, jobId: string, stageId: string, form: Fields) {
    orgId != "" && jobId != "" && stageId != "" && Trim(form.firstName) != "" && Trim(form.lastName) != ""
  }

  /** `CandidatePayload`. */
  datatype Payload = Payload(
    organizationId: string, jobId: string, stageId: string, candidateName: string,
    email: string, phone: string, linkedinUrl: string, companyCurrent: string,
    roleCurrent: string, locationCity: string, locationCountry: string,
    profileSummary: string, skills: seq<string>, notes: string)

  /** The pieces that are not empty, in order. */
  function NonEmpty(parts: seq<string>): (r: seq<string>)
    ensures forall i :: 0 <= i < |r| ==> r[i] != "" && r[i] in parts
    ensures forall i :: 0 <= i < |parts| && parts[i] != "" ==> parts[i] in r
    ensures multiset(r) == multiset(parts)["" := 0]
  {
    if parts == [] then []
    else
      assert parts == [parts[0]] + parts[1..];
      if parts[0] == "" then NonEmpty(parts[1..])
      else [parts[0]] + NonEmpty(parts[1..])
  }

  /** Filtering keeps the order of the pieces: it distributes over concatenation. */
  lemma {:induction false} NonEmptyAppend(a: seq<string>, b: seq<string>)
    ensures NonEmpty(a + b) == NonEmpty(a) + NonEmpty(b)
  {
    if a == [] {
      assert a + b == b;
    } else {
      assert (a + b)[1..] == a[1..] + b;
      NonEmptyAppend(a[1..], b);
    }
  }

  /** One piece is kept exactly when it is not empty. */
  lemma NonEmptySingle(x: string)
    ensures NonEmpty([x]) == if x == "" then [] else [x]
  {
    assert [x][1..] == [];
  }

  /** Only empty pieces: nothing is kept. */
  lemma {:induction false} NonEmptyOfEmpties(parts: seq<string>)
    requires forall i :: 0 <= i < |parts| ==> parts[i] == ""
    ensures NonEmpty(parts) == []
  {
    if parts != [] {
      NonEmptyOfEmpties(parts[1..]);
    }
  }

  /** The skills list: comma pieces, trimmed, empty ones dropped; blank input
      gives none. */
  function SkillList(skills: string): (r: seq<string>)
    ensures Trim(skills) == "" ==> r == []
    ensures forall i :: 0 <= i < |r| ==> r[i] != "" && IsTrimmed(r[i]) && ',' !in r[i]
    ensures multiset(r) == multiset(CommaPieces(skills))["" := 0] || Trim(skills) == ""
  {
    if Trim(skills) == "" then [] else NonEmpty(CommaPieces(skills))
  }

  /** The guard for blank input is redundant: a blank string has only blank
      pieces, so the skills list is always the non-empty trimmed pieces, in
      order and with duplicates kept. */
  lemma SkillListFilters(skills: string)
    ensures SkillList(skills) == NonEmpty(CommaPieces(skills))
  {
    if Trim(skills) == "" {
      var p := CommaPieces(skills);
      var pieces := Split(skills, ',');
      SplitBlank(skills, ',');
      forall i | 0 <= i < |p| ensures p[i] == "" {
        assert AllSpace(pieces[i]);
        assert p[i] == Trim(pieces[i]);
      }
      NonEmptyOfEmpties(p);
    }
  }

  /** A skills string with a comma lists the skills before it, then those after it. */
  lemma SkillListAppend(a: string, b: string)
    ensures SkillList(a + "," + b) == SkillList(a) + SkillList(b)
  {
    SkillListFilters(a + "," + b);
    SkillListFilters(a);
    SkillListFilters(b);
    CommaPiecesAppend(a, b);
    NonEmptyAppend(CommaPieces(a), CommaPieces(b));
  }

  /** Every non-blank comma piece of the input is in the skills list. */
  lemma SkillsKept(skills: string, i: nat)
    requires Trim(skills) != "" && i < |Split(skills, ',')| && Trim(Split(skills, ',')[i]) != ""
    ensures Trim(Split(skills, ',')[i]) in SkillList(skills)
  {
    assert CommaPieces(skills)[i] == Trim(Split(skills, ',')[i]);
  }

  function BuildPayload(orgId: string, jobId: string, stageId: string, form: Fields): (r: Payload)
    ensures r.organizationId == orgId && r.jobId == jobId && r.stageId == stageId
    ensures r.candidateName == Trim(form.firstName) + " " + Trim(form.lastName)
    ensures r.skills == SkillList(form.skills)
    ensures r.email == Trim(form.email) && r.phone == Trim(form.phone) && r.notes == Trim(form.notes)
    ensures r.linkedinUrl == Trim(form.linkedinUrl) && r.profileSummary == Trim(form.summary)
    ensures r.companyCurrent == Trim(form.currentCompany) && r.roleCurrent == Trim(form.currentRole)
    ensures r.locationCity == Trim(form.city) && r.locationCountry == Trim(form.country)
  {
    Payload(orgId, jobId, stageId, Trim(form.firstName) + " " + Trim(form.lastName),
            Trim(form.email), Trim(form.phone), Trim(form.linkedinUrl), Trim(form.currentCompany),
            Trim(form.currentRole), Trim(form.city), Trim(form.country), Trim(form.summary),
            SkillList(form.skills), Trim(form.notes))
  }

  /** Two non-empty trimmed words joined by one space: trimmed, and split back
      at that space. */
  lemma JoinedName(first: string, last: string)
    requires first != "" && last != "" && IsTrimmed(first) && IsTrimmed(last)
    ensures var name := first + " " + last;
            IsTrimmed(name) && |first| < |name| && name[|first|] == ' '
            && name[..|first|] == first && name[|first| + 1..] == last
  {
    var name := first + " " + last;
    assert name[0] == first[0];
    assert name[|name| - 1] == last[|last| - 1];
    assert name[..|first|] == first;
    assert name[|first| + 1..] == last;
  }

  /** A valid form gives a candidate name with text on both sides of a space
      and no whitespace at either end. */
  lemma CandidateNameShape(orgId: string, jobId: string, stageId: string, form: Fields)
    requires IsFormValid(orgId, jobId, stageId, form)
    ensures var name := BuildPayload(orgId, jobId, stageId, form).candidateName;
            var first := Trim(form.firstName);
            IsTrimmed(name) && first != "" && |first| < |name| && name[|first|] == ' '
            && name[..|first|] == first && name[|first| + 1..] == Trim(form.lastName) != ""
  {
    JoinedName(Trim(form.firstName), Trim(form.lastName));
  }

  const SelectAll := "Please select organization, job, and stage"
  const EnterName := "Please enter candidate name"
  const Added := "Candidate added to GoGio!"
  const AddFailed := "Failed to add candidate"

  datatype Toast = ErrorToast(message: string) | SuccessToast(message: string)

  /** How the submission request ended: resolved, or rejected (Some(m): an
      `Error` with message m; None: anything else). */
  datatype Submitted = Resolved | Rejected(error: Option<string>)

  /** The name rule, its guard reading `seen`. */
  function NameFrom(seen: Fields, current: Fields, fullName: Option<string>): (r: Fields)
    ensures r == current || (r == current.(firstName := r.firstName, lastName := r.lastName)
                             && seen.firstName == "" && seen.lastName == "")
  {
    if Truthy(fullName) && seen.firstName == "" && seen.lastName == "" then
      current.(firstName := SplitName(fullName.value).0, lastName := SplitName(fullName.value).1)
    else current
  }

  /** The single-valued rules (role, company, summary from the headline, the
      LinkedIn URL), their guards reading `seen`. */
  function SinglesFrom(seen: Fields, current: Fields, p: ProfileResponse): (r: Fields)
    ensures r == current.(currentRole := r.currentRole, currentCompany := r.currentCompany,
                          summary := r.summary, linkedinUrl := r.linkedinUrl)
    ensures seen.currentRole != "" ==> r.currentRole == current.currentRole
    ensures seen.currentCompany != "" ==> r.currentCompany == current.currentCompany
    ensures seen.summary != "" ==> r.summary == current.summary
    ensures seen.linkedinUrl != "" ==> r.linkedinUrl == current.linkedinUrl
  {
    current.(
      currentRole := if Truthy(p.currentRole) && seen.currentRole == "" then p.currentRole.value else current.currentRole,
      currentCompany := if Truthy(p.currentCompany) && seen.currentCompany == "" then p.currentCompany.value
                        else current.currentCompany,
      summary := if Truthy(p.headline) && seen.summary == "" then p.headline.value else current.summary,
      linkedinUrl := if p.profileUrl != "" && seen.linkedinUrl == "" then p.profileUrl else current.linkedinUrl)
  }

  /** The location rule, its guards reading `seen`. */
  function LocationFrom(seen: Fields, current: Fields, location: Option<string>): (r: Fields)
    ensures r == current.(city := r.city, country := r.country)
    ensures seen.city != "" ==> r.city == current.city
    ensures seen.country != "" ==> r.country == current.country
  {
    if !Truthy(location) then current
    else
      var parts := CommaPieces(location.value);
      if |parts| >= 2 && seen.city == "" && seen.country == "" then
        current.(city := parts[0], country := Join(parts[1..], ", "))
      else if |parts| == 1 && seen.city == "" then current.(city := parts[0])
      else current
  }

  /** The writes the auto-fill callback makes to `current` when each of its
      guards reads the form `seen`: a field is written only where `seen` has
      it empty, and email, phone, skills and notes are never written. */
  function FillFrom(seen: Fields, current: Fields, p: ProfileResponse): (r: Fields)
    ensures r.email == current.email && r.phone == current.phone
    ensures r.skills == current.skills && r.notes == current.notes
    ensures seen.firstName != "" || seen.lastName != "" ==>
              r.firstName == current.firstName && r.lastName == current.lastName
    ensures seen.currentRole != "" ==> r.currentRole == current.currentRole
    ensures seen.currentCompany != "" ==> r.currentCompany == current.currentCompany
    ensures seen.summary != "" ==> r.summary == current.summary
    ensures seen.linkedinUrl != "" ==> r.linkedinUrl == current.linkedinUrl
    ensures seen.city != "" ==> r.city == current.city
    ensures seen.country != "" ==> r.country == current.country
  {
    LocationFrom(seen, SinglesFrom(seen, NameFrom(seen, current, p.fullName), p), p.location)
  }

  /** The auto-fill callback as written: the effect runs once at mount, so its
      callback's guards read the blank form of the first render, and every
      field the response carries is written over whatever the form holds now. */
  function StaleAutoFill(current: Fields, p: ProfileResponse): (r: Fields)
    ensures Truthy(p.fullName) ==> (r.firstName, r.lastName) == SplitName(p.fullName.value)
    ensures Truthy(p.currentRole) ==> r.currentRole == p.currentRole.value
    ensures Truthy(p.currentCompany) ==> r.currentCompany == p.currentCompany.value
    ensures Truthy(p.headline) ==> r.summary == p.headline.value
    ensures p.profileUrl != "" ==> r.linkedinUrl == p.profileUrl
    ensures Truthy(p.location) && |CommaPieces(p.location.value)| >= 2 ==>
              r.city == CommaPieces(p.location.value)[0]
              && r.country == Join(CommaPieces(p.location.value)[1..], ", ")
  {
    FillFrom(Blank, current, p)
  }

  /** The discrepancy: a LinkedIn URL already in the form (the canonical one the
      prefill effect wrote) is replaced by the response's raw `profileUrl`, and
      a name typed in the meantime by the split full name; reading the current
      form keeps both. */
  lemma {:induction false} StaleAutoFillOverwrites(current: Fields, p: ProfileResponse)
    requires current.linkedinUrl != "" && p.profileUrl != "" && p.profileUrl != current.linkedinUrl
    ensures StaleAutoFill(current, p).linkedinUrl != current.linkedinUrl
    ensures FillFrom(current, current, p).linkedinUrl == current.linkedinUrl
    ensures Truthy(p.fullName) && current.firstName != "" && SplitName(p.fullName.value).0 != current.firstName ==>
              StaleAutoFill(current, p).firstName != current.firstName
              && FillFrom(current, current, p).firstName == current.firstName
  {
  }

  class CandidateFormState {
    var form: Fields
    var isSubmitting: bool

    constructor ()
      ensures form == Blank && !isSubmitting
    {
      form := Blank;
      isSubmitting := false;
    }

    /** The prefill effect, given what `getLinkedInUrl()` resolved to (see
        `ChromeStorage.GetLinkedInUrl`): a non-empty URL is written, whatever
        the field held. */
    method PrefillLinkedInUrl(found: Option<string>)
      modifies this
      ensures form == if found.Some? && found.value != "" then old(form).(linkedinUrl := found.value) else old(form)
      ensures isSubmitting == old(isSubmitting)
    {
      if found.Some? && found.value != "" {
        form := form.(linkedinUrl := found.value);
      }
    }

    /** The name rule: split the full name when both name fields are empty. */
    method FillName(fullName: Option<string>)
      modifies this
      ensures form == NameFrom(old(form), old(form), fullName)
      ensures isSubmitting == old(isSubmitting)
    {
      if Truthy(fullName) && form.firstName == "" && form.lastName == "" {
        var name := SplitName(fullName.value);
        form := form.(firstName := name.0, lastName := name.1);
      }
    }

    /** The location rule: two or more comma pieces fill city and country when
        both are empty; a single piece fills an empty city. */
    method FillLocation(location: Option<string>)
      modifies this
      ensures form == LocationFrom(old(form), old(form), location)
      ensures isSubmitting == old(isSubmitting)
    {
      if Truthy(location) {
        var parts := CommaPieces(location.value);
        if |parts| >= 2 && form.city == "" && form.country == "" {
          form := form.(city := parts[0], country := Join(parts[1..], ", "));
        } else if |parts| == 1 && form.city == "" {
          form := form.(city := parts[0]);
        }
      }
    }

    /** The single-valued rules: role, company, summary (from the headline) and
        the LinkedIn URL, each filled when it is empty. */
    method FillSingles(p: ProfileResponse)
      modifies this
      ensures form == SinglesFrom(old(form), old(form), p)
      ensures isSubmitting == old(isSubmitting)
    {
      if Truthy(p.currentRole) && form.currentRole == "" {
        form := form.(currentRole := p.currentRole.value);
      }
      if Truthy(p.currentCompany) && form.currentCompany == "" {
        form := form.(currentCompany := p.currentCompany.value);
      }
      if Truthy(p.headline) && form.summary == "" {
        form := form.(summary := p.headline.value);
      }
      if p.profileUrl != "" && form.linkedinUrl == "" {
        form := form.(linkedinUrl := p.profileUrl);
      }
    }

    /** The auto-fill callback, with its guards reading the form as it is when
        the callback runs: on a LinkedIn profile tab with a response, each field
        the response carries is written only where the form is empty, so no
        non-empty field is overwritten (compare `StaleAutoFill`). */
    method AutoFill(tabUrl: Option<string>, response: Option<ProfileResponse>)
      modifies this
      ensures !OnProfilePage(tabUrl) || response.None? ==> form == old(form)
      ensures OnProfilePage(tabUrl) && response.Some? ==> form == FillFrom(old(form), old(form), response.value)
      ensures form.email == old(form.email) && form.phone == old(form.phone)
      ensures form.skills == old(form.skills) && form.notes == old(form.notes)
      ensures old(form.currentRole) != "" ==> form.currentRole == old(form.currentRole)
      ensures old(form.currentCompany) != "" ==> form.currentCompany == old(form.currentCompany)
      ensures old(form.summary) != "" ==> form.summary == old(form.summary)
      ensures old(form.linkedinUrl) != "" ==> form.linkedinUrl == old(form.linkedinUrl)
      ensures old(form.firstName) != "" || old(form.lastName) != "" ==>
                form.firstName == old(form.firstName) && form.lastName == old(form.lastName)
      ensures old(form.city) != "" ==> form.city == old(form.city)
      ensures old(form.country) != "" ==> form.country == old(form.country)
      ensures OnProfilePage(tabUrl) && response.Some? ==>
                var p := response.value;
                && (Truthy(p.fullName) && old(form.firstName) == "" && old(form.lastName) == "" ==>
                      (form.firstName, form.lastName) == SplitName(p.fullName.value))
                && (Truthy(p.currentRole) && old(form.currentRole) == "" ==> form.currentRole == p.currentRole.value)
                && (Truthy(p.currentCompany) && old(form.currentCompany) == "" ==>
                      form.currentCompany == p.currentCompany.value)
                && (Truthy(p.headline) && old(form.summary) == "" ==> form.summary == p.headline.value)
                && (p.profileUrl != "" && old(form.linkedinUrl) == "" ==> form.linkedinUrl == p.profileUrl)
      ensures OnProfilePage(tabUrl) && response.Some? && Truthy(response.value.location) ==>
                var parts := CommaPieces(response.value.location.value);
                && (|parts| >= 2 && old(form.city) == "" && old(form.country) == "" ==>
                      form.city == parts[0] && form.country == Join(parts[1..], ", "))
                && (|parts| == 1 && old(form.city) == "" ==> form.city == parts[0] && form.country == old(form.country))
      ensures isSubmitting == old(isSubmitting)
    {
      if !OnProfilePage(tabUrl) || response.None? {
        return;
      }
      FillName(response.value.fullName);
      FillSingles(response.value);
      FillLocation(response.value.location);
    }

    /** `resetForm()`: everything cleared except the LinkedIn URL. */
    method ResetForm()
      modifies this
      ensures form == Blank.(linkedinUrl := old(form.linkedinUrl))
      ensures isSubmitting == old(isSubmitting)
    {
      form := Blank.(linkedinUrl := form.linkedinUrl);
    }

    /** `handleSubmit()`: validate, send the payload, and reset the form only when
        the request resolved. Returns the payload sent (if any) and the toast. */
    method HandleSubmit(orgId: string, jobId: string, stageId: string, submitted: Submitted)
      returns (sent: Option<Payload>, toast: Toast)
      modifies this
      ensures sent.Some? <==> IsFormValid(orgId, jobId, stageId, old(form))
      ensures sent.Some? ==> sent.value == BuildPayload(orgId, jobId, stageId, old(form))
      ensures (orgId == "" || jobId == "" || stageId == "") ==> toast == ErrorToast(SelectAll)
      ensures orgId != "" && jobId != "" && stageId != "" && !IsFormValid(orgId, jobId, stageId, old(form)) ==>
                toast == ErrorToast(EnterName)
      ensures sent.Some? && submitted.Resolved? ==>
                toast == SuccessToast(Added) && form == Blank.(linkedinUrl := old(form.linkedinUrl))
      ensures sent.Some? && submitted.Rejected? ==>
                toast == ErrorToast(if submitted.error.Some? then submitted.error.value else AddFailed)
      ensures sent.None? || submitted.Rejected? ==> form == old(form)
      ensures sent.Some? ==> !isSubmitting
      ensures sent.None? ==> isSubmitting == old(isSubmitting)
    {
      if orgId == "" || jobId == "" || stageId == "" {
        return None, ErrorToast(SelectAll);
      }
      if Trim(form.firstName) == "" || Trim(form.lastName) == "" {
        return None, ErrorToast(EnterName);
      }
      isSubmitting := true;
      var payload := BuildPayload(orgId, jobId, stageId, form);
      sent := Some(payload);
      if submitted.Resolved? {
        toast := SuccessToast(Added);
        ResetForm();
      } else {
        toast := ErrorToast(if submitted.error.Some? then submitted.error.value else AddFailed);
      }
      isSubmitting := false;
    }
  }
}
