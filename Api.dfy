/** The backend API client: a bearer token held in a field, the request it sends
    for an endpoint, and the mapping from an HTTP response to a value or an
    error message. The network itself is a parameter: `fetch` is replaced by the
    response it would deliver. */
module Api {
  import opened Wrappers
  import opened Text

  const BaseUrl := "https://etrxjxstjfcozdjumfsj.supabase.co/functions/v1"
  const NoToken := "No authentication token set"
  const Unauthorized := "UNAUTHORIZED"

  const MePath := "/chrome-api-me"
  const OrganizationsPath := "/chrome-api-organizations"
  const JobsPrefix := "/chrome-api-jobs?organization_id="
  const StagesPrefix := "/chrome-api-stages?job_id="
  const CandidatesPath := "/chrome-api-candidates"

  /** The caller's `RequestInit`: method (`verb`), extra headers and body. */
  datatype Options = Options(verb: Option<string>, headers: map<string, string>, body: Option<string>)

  /** What is handed to `fetch`. */
  datatype Outgoing = Outgoing(url: string, verb: Option<string>, headers: map<string, string>, body: Option<string>)

  /** What `fetch` delivers: the status and the body text. */
  datatype HttpResponse = HttpResponse(status: nat, text: string)

  /** The request for an endpoint: the caller's options, with the JSON content
      type and the bearer token as default headers that the caller's own
      headers override. */
  function BuildRequest(token: string, endpoint: string, options: Options): (r: Outgoing)
    ensures r.url == BaseUrl + endpoint
    ensures r.verb == options.verb && r.body == options.body
    ensures r.headers.Keys == options.headers.Keys + {"Content-Type", "Authorization"}
    ensures forall k :: k in options.headers ==> r.headers[k] == options.headers[k]
    ensures "Authorization" !in options.headers ==> r.headers["Authorization"] == "Bearer " + token
    ensures "Content-Type" !in options.headers ==> r.headers["Content-Type"] == "application/json"
  {
    var defaults := map["Content-Type" := "application/json", "Authorization" := "Bearer " + token];
    Outgoing(BaseUrl + endpoint, options.verb, defaults + options.headers, options.body)
  }

  /** `response.ok`. */
  predicate IsOk(status: nat) {
    200 <= status <= 299
  }

  /** The outcome of a delivered response: the body on success (JSON decoding is
      not part of this model), otherwise the error message. */
  function Outcome(response: HttpResponse): (r: Result<string>)
    ensures r.Ok? <==> IsOk(response.status)
    ensures r.Ok? ==> r.value == response.text
    ensures response.status == 401 ==> r == Err(Unauthorized)
    ensures !IsOk(response.status) && response.status != 401 && response.text != "" ==> r == Err(response.text)
    ensures !IsOk(response.status) && response.status != 401 && response.text == "" ==>
              r == Err("Request failed with status " + NatToString(response.status))
    ensures r.Err? ==> r.message != ""
  {
    if !IsOk(response.status) then
      if response.status == 401 then Err(Unauthorized)
      else Err(if response.text != "" then response.text else "Request failed with status " + NatToString(response.status))
    else Ok(response.text)
  }

  /** An empty error body still reports which status it was. */
  lemma StatusRecoverable(status: nat)
    requires !IsOk(status) && status != 401
    ensures (var m := Outcome(HttpResponse(status, "")).message;
             var digits := m[|"Request failed with status "|..];
             (forall i :: 0 <= i < |digits| ==> '0' <= digits[i] <= '9') && DigitsValue(digits) == status)
  {
    var m := Outcome(HttpResponse(status, "")).message;
    assert m[|"Request failed with status "|..] == NatToString(status);
    NatToStringRoundTrip(status);
  }

  /** A 401 is reported the same way whatever its body says. */
  lemma UnauthorizedIgnoresBody(a: string, b: string)
    ensures Outcome(HttpResponse(401, a)) == Outcome(HttpResponse(401, b)) == Err(Unauthorized)
  {
  }

  function JobsEndpoint(organizationId: string): (r: string)
    ensures StartsWith(r, JobsPrefix) && r[|JobsPrefix|..] == organizationId
  {
    JobsPrefix + organizationId
  }

  function StagesEndpoint(jobId: string): (r: string)
    ensures StartsWith(r, StagesPrefix) && r[|StagesPrefix|..] == jobId
  {
    StagesPrefix + jobId
  }

  /** The submission request's options: a POST carrying the serialised payload. */
  function SubmitOptions(payloadJson: string): (r: Options)
    ensures r.verb == Some("POST") && r.body == Some(payloadJson) && r.headers == map[]
  {
    Options(Some("POST"), map[], Some(payloadJson))
  }

  class ApiClient {
    var token: Option<string>

    constructor ()
      ensures token.None?
    {
      token := None;
    }

    method SetToken(t: string)
      modifies this
      ensures token == Some(t)
    {
      token := Some(t);
    }

    method ClearToken()
      modifies this
      ensures token.None?
    {
      token := None;
    }

    /** `request(endpoint, options)`: without a (non-empty) token it rejects and
        sends nothing; otherwise it sends the request and maps the response that
        comes back. Returns the outcome and the request sent, if any. */
    function Request(endpoint: string, options: Options, response: HttpResponse): (r: (Result<string>, Option<Outgoing>))
      reads this
      ensures token.None? || token == Some("") ==> r == (Err(NoToken), None)
      ensures token.Some? && token.value != "" ==>
                r.1 == Some(BuildRequest(token.value, endpoint, options)) && r.0 == Outcome(response)
    {
      if token.None? || token.value == "" then (Err(NoToken), None)
      else (Outcome(response), Some(BuildRequest(token.value, endpoint, options)))
    }

    function GetMe(response: HttpResponse): (r: (Result<string>, Option<Outgoing>))
      reads this
      ensures r.1.Some? ==> r.1.value.url == BaseUrl + MePath && r.1.value.verb.None?
      ensures r == Request(MePath, Options(None, map[], None), response)
    {
      Request(MePath, Options(None, map[], None), response)
    }

    function GetOrganizations(response: HttpResponse): (r: (Result<string>, Option<Outgoing>))
      reads this
      ensures r.1.Some? ==> r.1.value.url == BaseUrl + OrganizationsPath && r.1.value.verb.None?
      ensures r == Request(OrganizationsPath, Options(None, map[], None), response)
    {
      Request(OrganizationsPath, Options(None, map[], None), response)
    }

    function GetJobs(organizationId: string, response: HttpResponse): (r: (Result<string>, Option<Outgoing>))
      reads this
      ensures r.1.Some? ==> r.1.value.url == BaseUrl + JobsEndpoint(organizationId)
      ensures r == Request(JobsEndpoint(organizationId), Options(None, map[], None), response)
    {
      Request(JobsEndpoint(organizationId), Options(None, map[], None), response)
    }

    function GetStages(jobId: string, response: HttpResponse): (r: (Result<string>, Option<Outgoing>))
      reads this
      ensures r.1.Some? ==> r.1.value.url == BaseUrl + StagesEndpoint(jobId)
      ensures r == Request(StagesEndpoint(jobId), Options(None, map[], None), response)
    {
      Request(StagesEndpoint(jobId), Options(None, map[], None), response)
    }

    function SubmitCandidate(payloadJson: string, response: HttpResponse): (r: (Result<string>, Option<Outgoing>))
      reads this
      ensures r.1.Some? ==> r.1.value.url == BaseUrl + CandidatesPath && r.1.value.verb == Some("POST")
                            && r.1.value.body == Some(payloadJson)
      ensures r == Request(CandidatesPath, SubmitOptions(payloadJson), response)
    {
      Request(CandidatesPath, SubmitOptions(payloadJson), response)
    }
  }
}
