/** The candidate panel shared by the popup and the sidebar: which screen it
    shows for the authentication state, and the connect handler's busy flag. */
module PanelApp {
  import opened Wrappers
  import opened Auth

  datatype View = FormView | SettingsView

  /** What the panel renders. `Setup` is the token-setup screen with its busy
      flag, its error and whether it shows the OAuth waiting state. */
  datatype Screen =
    | Setup(isLoading: bool, error: Option<string>, waiting: bool)
    | Loader
    | SettingsScreen
    | FormScreen
    | Fallback

  /** The render guard chain. `hasUser` says whether the hook holds a user. */
  function ScreenFor(oauthInProgress: bool, status: AuthStatus, hasUser: bool, error: Option<string>,
                     isConnecting: bool, view: View): (r: Screen)
    ensures oauthInProgress ==> r == Setup(true, None, true)
    ensures !oauthInProgress && status == Loading && !isConnecting ==> r == Loader
    ensures !oauthInProgress && status == Unauthenticated ==> r == Setup(isConnecting, None, false)
    ensures !oauthInProgress && status == Error ==> r == Setup(isConnecting, error, false)
    ensures !oauthInProgress && status == Authenticated && hasUser ==>
              r == if view == SettingsView then SettingsScreen else FormScreen
  {
    if oauthInProgress then Setup(true, None, true)
    else if status == Loading && !isConnecting then Loader
    else if status == Unauthenticated then Setup(isConnecting, None, false)
    else if status == Error then Setup(isConnecting, error, false)
    else if status == Authenticated && hasUser then (if view == SettingsView then SettingsScreen else FormScreen)
    else Fallback
  }

  /** The retry card appears exactly for a load while connecting and for an
      authenticated status without a user, and never during OAuth. */
  lemma FallbackExactly(oauthInProgress: bool, status: AuthStatus, hasUser: bool, error: Option<string>,
                        isConnecting: bool, view: View)
    ensures ScreenFor(oauthInProgress, status, hasUser, error, isConnecting, view) == Fallback <==>
              !oauthInProgress && ((status == Loading && isConnecting) || (status == Authenticated && !hasUser))
  {
  }

  /** The form and the settings screens are only ever shown to an
      authenticated user, and then the view alone chooses between them. */
  lemma AppScreensNeedUser(oauthInProgress: bool, status: AuthStatus, hasUser: bool, error: Option<string>,
                           isConnecting: bool, view: View)
    ensures var r := ScreenFor(oauthInProgress, status, hasUser, error, isConnecting, view);
            (r == FormScreen || r == SettingsScreen) <==> !oauthInProgress && status == Authenticated && hasUser
  {
  }

  class PanelState {
    var currentView: View
    var isConnecting: bool

    constructor ()
      ensures currentView == FormView && !isConnecting
    {
      currentView := FormView;
      isConnecting := false;
    }

    /** The settings button of the form, and the back button of the settings. */
    method ShowView(view: View)
      modifies this
      ensures currentView == view && isConnecting == old(isConnecting)
    {
      currentView := view;
    }

    /** `handleOAuthConnect()`, given what `loginWithOAuth()` settled with
        (Ok(b): resolved with b; Err: rejected): the result is passed on and
        the busy flag is cleared either way. */
    method HandleOAuthConnect(login: Result<bool>) returns (r: Result<bool>)
      modifies this
      ensures r == login
      ensures !isConnecting && currentView == old(currentView)
    {
      isConnecting := true;
      r := login;
      isConnecting := false;
    }
  }
}
