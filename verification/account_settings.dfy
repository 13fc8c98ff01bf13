/** AccountSettingsView: editing the display name and saving it through the
    auth view model. */
module AccountSettings {
  import opened Common
  import opened Store
  import opened Records
  import Auth

  /** The name the save sends: trimmed of spaces and tabs. */
  function SavedName(displayName: string): string {
    Trimming(displayName, Whitespaces)
  }

  /** Save is enabled exactly when the field holds a character that is not
      a space or tab, that is, when the name sent would not be empty. */
  function SaveEnabled(displayName: string): (r: bool)
    ensures r <==> SavedName(displayName) != ""
    ensures r <==> exists k :: 0 <= k < |displayName| && !Whitespaces.Contains(displayName[k])
  {
    SavedName(displayName) != ""
  }

  class AccountSettingsScreen {
    const auth: Auth.AuthViewModel
    var displayName: string
    var isSaving: bool

    constructor (auth: Auth.AuthViewModel)
      ensures this.auth == auth && displayName == "" && !isSaving
    {
      this.auth := auth;
      displayName := "";
      isSaving := false;
    }

    /** The field starts as the signed-in user's display name, or empty. */
    method OnAppear(user: Option<User>)
      modifies this
      ensures user.Some? && user.value.displayName.Some? ==> displayName == user.value.displayName.value
      ensures user.None? || user.value.displayName.None? ==> displayName == ""
      ensures isSaving == old(isSaving)
    {
      displayName := if user.Some? then user.value.displayName.GetOr("") else "";
    }

    /** "Save" (offered while not saving, enabled by `SaveEnabled`): sends
        the trimmed name, swallows any error, and ends saving either way.
        When the update goes through, the store is the old one with the
        profile merged (name and update time set, every other field kept),
        so its stored name is that trimmed, non-empty name; otherwise the
        store is unchanged. */
    method Save(currentUser: Option<User>, profileChangeCommits: bool, reachable: bool)
      requires !isSaving && SaveEnabled(displayName)
      modifies this, auth.db
      ensures !isSaving && displayName == old(displayName)
      ensures var ok := currentUser.Some? && profileChangeCommits && reachable;
              && (ok ==> var uid := currentUser.value.uid;
                         auth.db.docs == old(auth.db.docs)[UserPath(uid) :=
                           ApplyOps(Auth.ProfileOrEmpty(old(auth.db.docs), uid), Auth.DisplayNameOps(SavedName(old(displayName))), old(auth.db.clock))])
              && (ok ==> var profile := Lookup(auth.db.docs, UserPath(currentUser.value.uid));
                         && profile.Some?
                         && StringField(profile.value, "displayName") == Some(SavedName(old(displayName)))
                         && SavedName(old(displayName)) != "")
              && (!ok ==> auth.db.docs == old(auth.db.docs))
    {
      isSaving := true;
      var name := SavedName(displayName);
      ghost var docs0, clock0 := auth.db.docs, auth.db.clock;
      var r := auth.UpdateDisplayName(currentUser, name, profileChangeCommits, reachable);
      if r.Ok? {
        Auth.RenameKeepsProfile(docs0, currentUser.value.uid, name, clock0);
      }
      isSaving := false;
    }
  }
}
