/** Choosing between the direct OAuth flow and the background-script bridge, and
    the bridge's classification of what comes back from the background script. */
module OAuthBridge {
  import opened Wrappers
  import opened Text

  /** A property of a Chrome API object as a script sees it. */
  datatype Slot = Missing | Func | NonFunc(truthy: bool)

  datatype Runtime = Runtime(sendMessage: Slot)
  datatype Identity = Identity(launchWebAuthFlow: Slot)
  /** `globalThis.chrome`; an absent `runtime` or `identity` is None. */
  datatype Chrome = Chrome(runtime: Option<Runtime>, identity: Option<Identity>)

  predicate IsTruthy(s: Slot) {
    s.Func? || (s.NonFunc? && s.truthy)
  }

  /** `isChromeIdentityAvailable()` of the direct flow. */
  predicate IdentityAvailable(chrome: Option<Chrome>) {
    chrome.Some? && chrome.value.identity.Some? && chrome.value.identity.value.launchWebAuthFlow.Func?
  }

  /** `!!chrome?.runtime?.sendMessage`: the bridge's own guard. */
  predicate SendAvailable(chrome: Option<Chrome>) {
    chrome.Some? && chrome.value.runtime.Some? && IsTruthy(chrome.value.runtime.value.sendMessage)
  }

  /** The guard passes and `sendMessage` can be called. */
  predicate SendCallable(chrome: Option<Chrome>) {
    SendAvailable(chrome) && chrome.value.runtime.value.sendMessage.Func?
  }

  /** `isContentScriptContext()`. */
  function IsContentScriptContext(chrome: Option<Chrome>): (r: bool)
    ensures r <==> chrome.Some? && chrome.value.runtime.Some?
                   && chrome.value.runtime.value.sendMessage == Func
                   && !IdentityAvailable(chrome)
  {
    var hasRuntime := chrome.Some? && chrome.value.runtime.Some?;
    var hasSendMessage := hasRuntime && chrome.value.runtime.value.sendMessage.Func?;
    var hasIdentity := IdentityAvailable(chrome);
    hasRuntime && hasSendMessage && !hasIdentity
  }

  /** Where the bridge is chosen the direct flow would refuse to start, the
      bridge's own guard passes and `sendMessage` can be called. */
  lemma ContextChoosesBridge(chrome: Option<Chrome>)
    ensures IsContentScriptContext(chrome) ==> !IdentityAvailable(chrome) && SendCallable(chrome)
  {
  }

  const RuntimeUnavailable := "Chrome runtime API is not available."
  const UserCancelled := "User cancelled authentication."
  const FailedToCommunicate := "Failed to communicate with extension."
  const NoResponse := "No response from extension. Please try again."
  const OAuthFailed := "OAuth failed. Please try again."
  /** The message of the `TypeError` V8 throws when a truthy non-function is called. */
  const SendNotAFunction := "chrome.runtime.sendMessage is not a function"

  /** The background script's reply to `START_OAUTH`. */
  datatype OAuthResponse = OAuthResponse(success: bool, token: Option<string>, error: Option<string>)

  /** `text.toLowerCase().includes(word)`. */
  predicate Mentions(text: string, word: string) {
    Contains(ToLower(text), word)
  }

  /** The rejection message for a `chrome.runtime.lastError` with this message. */
  function LastErrorMessage(message: string): (r: string)
    ensures Mentions(message, "cancel") || Mentions(message, "closed") ==> r == UserCancelled
    ensures !(Mentions(message, "cancel") || Mentions(message, "closed")) ==>
              r == if message != "" then message else FailedToCommunicate
    ensures r != ""
  {
    if Mentions(message, "cancel") || Mentions(message, "closed") then UserCancelled
    else if message != "" then message
    else FailedToCommunicate
  }

  /** The rejection message for a response that did not carry a token. */
  function FailureMessage(error: Option<string>): (r: string)
    ensures r != ""
    ensures (var m := if error.Some? && error.value != "" then error.value else OAuthFailed;
             (Mentions(m, "cancel") || Mentions(m, "closed") || Mentions(m, "denied") ==> r == UserCancelled)
             && (!(Mentions(m, "cancel") || Mentions(m, "closed") || Mentions(m, "denied")) ==> r == m))
  {
    var errorMsg := if error.Some? && error.value != "" then error.value else OAuthFailed;
    if Mentions(errorMsg, "cancel") || Mentions(errorMsg, "closed") || Mentions(errorMsg, "denied") then UserCancelled
    else errorMsg
  }

  /** `startOAuthViaBridge()`: `lastError` is the `chrome.runtime.lastError` seen in
      the callback (Some(m): set with message m), `response` the reply (None: falsy).
      A truthy `sendMessage` that is not a function passes the guard, and calling
      it throws inside the promise executor, which rejects the promise. */
  function StartOAuthViaBridge(chrome: Option<Chrome>, lastError: Option<string>, response: Option<OAuthResponse>): (r: Result<string>)
    ensures !SendAvailable(chrome) ==> r == Err(RuntimeUnavailable)
    ensures SendAvailable(chrome) && !SendCallable(chrome) ==> r == Err(SendNotAFunction)
    ensures SendCallable(chrome) && lastError.Some? ==> r == Err(LastErrorMessage(lastError.value))
    ensures SendCallable(chrome) && lastError.None? && response.None? ==> r == Err(NoResponse)
    ensures r.Ok? <==> SendCallable(chrome) && lastError.None? && response.Some?
                       && response.value.success && response.value.token.Some? && response.value.token.value != ""
    ensures r.Ok? ==> Some(r.value) == response.value.token && r.value != ""
    ensures r.Err? ==> r.message != ""
  {
    if !SendAvailable(chrome) then Err(RuntimeUnavailable)
    else if !chrome.value.runtime.value.sendMessage.Func? then Err(SendNotAFunction)
    else if lastError.Some? then Err(LastErrorMessage(lastError.value))
    else if response.None? then Err(NoResponse)
    else if response.value.success && response.value.token.Some? && response.value.token.value != "" then
      Ok(response.value.token.value)
    else Err(FailureMessage(response.value.error))
  }

  /** A runtime error decides the outcome whatever the response says. */
  lemma LastErrorWins(chrome: Option<Chrome>, message: string, r1: Option<OAuthResponse>, r2: Option<OAuthResponse>)
    requires SendAvailable(chrome)
    ensures StartOAuthViaBridge(chrome, Some(message), r1) == StartOAuthViaBridge(chrome, Some(message), r2)
    ensures StartOAuthViaBridge(chrome, Some(message), r1).Err?
  {
  }

  lemma DeniedMentioned(m: string)
    requires m == "denied"
    ensures Mentions(m, "denied")
    ensures !Mentions(m, "cancel") && !Mentions(m, "closed")
  {
    assert ToLower(m) == m;
    assert OccursAt(m, "denied", 0);
    ContainsIff(m, "denied");
    ContainsIff(m, "cancel");
    ContainsIff(m, "closed");
    assert forall i: nat :: OccursAt(m, "cancel", i) ==> i == 0;
    assert forall i: nat :: OccursAt(m, "closed", i) ==> i == 0;
  }

  /** "denied" counts as a cancellation only in a failed response, not in a
      runtime error: the same text is passed through on one path and mapped to
      the cancellation message on the other. */
  lemma DeniedOnlyOnResponsePath(chrome: Option<Chrome>, m: string)
    requires SendCallable(chrome) && m == "denied"
    ensures StartOAuthViaBridge(chrome, Some(m), None) == Err(m)
    ensures StartOAuthViaBridge(chrome, None, Some(OAuthResponse(false, None, Some(m)))) == Err(UserCancelled)
  {
    DeniedMentioned(m);
  }
}
