/** The settings panel: the masked display of the current token, the reveal
    toggle, replacing the token, clearing the preferences and logging out. */
module Settings {
  import opened Wrappers
  import opened Text
  import opened Api
  import opened ChromeStorage
  import opened Auth

  /** The bullet the mask is made of. */
  const Bullet := '\U{2022}'

  /** The character sequence the mask literal actually holds: the bytes of `•`
      read back as Windows-1252 text. */
  const GarbledBullet := "\U{00E2}\U{20AC}\U{00A2}"

  /** `token ? token.slice(0, 8) + fill.repeat(24) + token.slice(-4) : ''`. */
  function Mask(token: Option<string>, fill: string): (r: string)
    ensures token.None? || token == Some("") ==> r == ""
    ensures token.Some? && token.value != "" ==>
              r == SliceHead(token.value, 8) + Repeat(fill, 24) + SliceTail(token.value, 4)
  {
    if token.None? || token.value == "" then "" else SliceHead(token.value, 8) + Repeat(fill, 24) + SliceTail(token.value, 4)
  }

  /** The mask as the panel writes it. */
  function MaskedTokenAsWritten(token: Option<string>): string {
    Mask(token, GarbledBullet)
  }

  /** The mask as intended: 24 bullets between the token's ends. */
  function MaskedToken(token: Option<string>): string {
    Mask(token, [Bullet])
  }

  /** Each repetition of the fill sits at its own offset. */
  lemma {:induction false} RepeatAt(fill: string, n: nat, k: nat, i: nat)
    requires k < n && i < |fill|
    ensures |Repeat(fill, n)| == n * |fill|
    ensures k * |fill| + i < |Repeat(fill, n)| && Repeat(fill, n)[k * |fill| + i] == fill[i]
  {
    if k > 0 {
      RepeatAt(fill, n - 1, k - 1, i);
      assert k * |fill| + i == |fill| + ((k - 1) * |fill| + i);
    }
  }

  /** The intended mask of a token of at least 12 characters is 36 characters
      long: the first 8, then nothing but bullets, then the last 4. */
  lemma MaskShape(t: string)
    requires |t| >= 12
    ensures var m := MaskedToken(Some(t));
            && |m| == 36 && m[..8] == t[..8] && m[32..] == t[|t| - 4..]
            && forall i :: 8 <= i < 32 ==> m[i] == Bullet
  {
    var m := MaskedToken(Some(t));
    assert m == t[..8] + Repeat([Bullet], 24) + t[|t| - 4..];
    forall i | 8 <= i < 32
      ensures m[i] == Bullet
    {
      RepeatAt([Bullet], 24, i - 8, 0);
    }
  }

  /** As written, the middle of the mask is 72 characters and holds no bullet:
      for a token of 12 characters or more it starts `â€¢` right after the
      visible head. */
  lemma GarbledMask(t: string)
    requires |t| >= 12
    ensures var m := MaskedTokenAsWritten(Some(t));
            |m| == 84 && m[8..11] == GarbledBullet && m[8] != Bullet
  {
    var m := MaskedTokenAsWritten(Some(t));
    assert m == t[..8] + Repeat(GarbledBullet, 24) + t[|t| - 4..];
    forall i | 0 <= i < 3
      ensures m[8 + i] == GarbledBullet[i]
    {
      RepeatAt(GarbledBullet, 24, 0, i);
    }
  }

  const TokenUpdated := "Token updated successfully"
  const PreferencesCleared := "Preferences cleared"
  const Disconnected := "Disconnected from GoGio"

  class SettingsState {
    var newToken: string
    var isUpdating: bool
    var showToken: bool

    constructor ()
      ensures newToken == "" && !isUpdating && !showToken
    {
      newToken, isUpdating, showToken := "", false, false;
    }

    /** The read-only token field: the raw token when revealed, else the mask. */
    function DisplayedValue(token: Option<string>): (r: string)
      reads this
      ensures showToken ==> r == token.GetOr("")
      ensures !showToken ==> r == MaskedToken(token)
    {
      if showToken then token.GetOr("") else MaskedToken(token)
    }

    /** The eye button: flips only the reveal flag. */
    method ToggleReveal()
      modifies this
      ensures showToken == !old(showToken)
      ensures newToken == old(newToken) && isUpdating == old(isUpdating)
    {
      showToken := !showToken;
    }

    /** The update field's `onChange`. */
    method SetNewToken(text: string)
      modifies this
      ensures newToken == text && isUpdating == old(isUpdating) && showToken == old(showToken)
    {
      newToken := text;
    }

    /** `handleUpdateToken()`: a blank entry does nothing; otherwise the trimmed
        text goes to the authentication hook's `setToken`. */
    method HandleUpdateToken(auth: AuthHook, response: HttpResponse) returns (toast: Option<string>)
      modifies this, auth, auth.client, auth.store
      ensures Trim(old(newToken)) == "" ==>
                toast.None? && newToken == old(newToken) && isUpdating == old(isUpdating)
                && unchanged(auth, auth.client, auth.store)
      ensures Trim(old(newToken)) != "" ==>
                (toast.Some? <==> IsOk(response.status))
                && (toast.Some? ==> toast.value == TokenUpdated && newToken == ""
                                    && auth.store.GetToken() == Some(Trim(old(newToken))))
                && (toast.None? ==> newToken == old(newToken))
                && !isUpdating
      ensures showToken == old(showToken)
    {
      var entered := Trim(newToken);
      if entered == "" {
        return None;
      }
      toast := SubmitToken(auth, entered, response);
    }

    /** The non-blank branch of `handleUpdateToken()`: the field is cleared only
        when `setToken` reports success. */
    method SubmitToken(auth: AuthHook, entered: string, response: HttpResponse) returns (toast: Option<string>)
      requires entered != ""
      modifies this, auth, auth.client, auth.store
      ensures toast.Some? <==> IsOk(response.status)
      ensures toast.Some? ==> toast.value == TokenUpdated && newToken == "" && auth.store.GetToken() == Some(entered)
      ensures toast.None? ==> newToken == old(newToken)
      ensures !isUpdating && showToken == old(showToken)
    {
      isUpdating := true;
      var success := auth.SetToken(entered, response);
      isUpdating := false;
      if success {
        newToken := "";
        return Some(TokenUpdated);
      }
      return None;
    }

    /** `handleClearPreferences()`. */
    method HandleClearPreferences(store: PrefStore) returns (toast: string)
      modifies store
      ensures store.Current() == map[] && toast == PreferencesCleared
    {
      store.ClearPreferences();
      toast := PreferencesCleared;
    }

    /** `handleLogout()`: the hook's `clearToken`. */
    method HandleLogout(auth: AuthHook) returns (toast: string)
      modifies auth, auth.client, auth.store
      ensures auth.status == Unauthenticated && auth.store.GetToken().None? && auth.client.token.None?
      ensures toast == Disconnected
    {
      auth.ClearToken();
      toast := Disconnected;
    }
  }
}
