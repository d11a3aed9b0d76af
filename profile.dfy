/** The account settings page of `app/profile/page.jsx`: its form fields, the guards each
    submit handler runs before calling the authentication service, and the fields it clears
    afterwards. */
module Profile {
  import opened Util

  const CurrentPasswordRequired := "Current password is required to update email"
  const PasswordTooShort := "New password must be at least 6 characters"
  const PasswordsDiffer := "New passwords do not match"
  const DeletePasswordRequired := "Please enter your password to confirm account deletion"
  const ProfileUpdateFailed := "Failed to update profile"
  const EmailUpdateFailed := "Failed to update email"
  const PasswordChangeFailed := "Failed to change password"
  const DeleteFailed := "Failed to delete account"

  /** The shortest new password the page accepts. */
  const MinPasswordLength := 6

  /** A call the page makes into the authentication context, with its arguments. */
  datatype AuthCall =
    | UpdateProfile(displayName: string, photoFile: Option<string>)
    | UpdateEmail(email: string, password: string)
    | ChangePassword(currentPassword: string, newPassword: string)
    | DeleteAccount(password: string)

  /** The guard of `handleEmailUpdate`: the current password must be given. */
  function EmailUpdateError(currentPassword: string): (e: Option<string>)
    ensures e.None? <==> currentPassword != ""
    ensures e.Some? ==> e.value == CurrentPasswordRequired
  {
    if currentPassword == "" then Some(CurrentPasswordRequired) else None
  }

  /** The guards of `handlePasswordChange`, length first: `None` exactly for a new password
      of at least six characters that equals its confirmation. */
  function PasswordChangeError(newPassword: string, confirmPassword: string): (e: Option<string>)
    ensures e.None? <==> |newPassword| >= MinPasswordLength && newPassword == confirmPassword
    ensures |newPassword| < MinPasswordLength ==> e == Some(PasswordTooShort)
    ensures |newPassword| >= MinPasswordLength && newPassword != confirmPassword ==> e == Some(PasswordsDiffer)
  {
    if |newPassword| < MinPasswordLength then Some(PasswordTooShort)
    else if newPassword != confirmPassword then Some(PasswordsDiffer)
    else None
  }

  /** The guard of `handleDeleteAccount`: the password must be typed again. */
  function DeleteAccountError(password: string): (e: Option<string>)
    ensures e.None? <==> password != ""
    ensures e.Some? ==> e.value == DeletePasswordRequired
  {
    if password == "" then Some(DeletePasswordRequired) else None
  }

  class ProfilePage {
    var displayName: string
    var email: string
    /** The name of the picked photo, if any. */
    var photoFile: Option<string>
    var currentPassword: string
    var newPassword: string
    var confirmPassword: string
    var deleteConfirmPassword: string
    var isUpdating: bool
    var isChangingPassword: bool
    var isDeleting: bool
    var error: string
    /** Every call made into the authentication context, oldest first. */
    var authCalls: seq<AuthCall>
    /** Where the router was sent, if anywhere. */
    var location: Option<string>

    constructor ()
      ensures displayName == "" && email == "" && photoFile == None
      ensures currentPassword == "" && newPassword == "" && confirmPassword == "" && deleteConfirmPassword == ""
      ensures !isUpdating && !isChangingPassword && !isDeleting && error == ""
      ensures authCalls == [] && location == None
    {
      displayName, email, photoFile := "", "", None;
      currentPassword, newPassword, confirmPassword, deleteConfirmPassword := "", "", "", "";
      isUpdating, isChangingPassword, isDeleting, error := false, false, false, "";
      authCalls, location := [], None;
    }

    /** `handlePhotoChange(e)`: a picked file replaces the stored one; the preview is not
        modelled. */
    method HandlePhotoChange(file: Option<string>)
      modifies this`photoFile
      ensures photoFile == if file.Some? then file else old(photoFile)
    {
      if file.Some? {
        photoFile := file;
      }
    }

    /** `handleProfileUpdate(e)`, with `outcome` the settlement of `updateUserProfile`. */
    method HandleProfileUpdate(outcome: Outcome)
      modifies this`error, this`isUpdating, this`authCalls, this`photoFile
      ensures authCalls == old(authCalls) + [UpdateProfile(displayName, old(photoFile))]
      ensures !isUpdating
      ensures outcome.Resolved? ==> error == "" && photoFile == None
      ensures outcome.Rejected? ==> error == MessageOr(outcome.message, ProfileUpdateFailed) && photoFile == old(photoFile)
    {
      error := "";
      isUpdating := true;
      authCalls := authCalls + [UpdateProfile(displayName, photoFile)];
      match outcome {
        case Resolved =>
          photoFile := None;
        case Rejected(message) =>
          error := MessageOr(message, ProfileUpdateFailed);
      }
      isUpdating := false;
    }

    /** `handleEmailUpdate(e)`, with `outcome` the settlement of `updateUserEmail`. */
    method HandleEmailUpdate(outcome: Outcome)
      modifies this`error, this`isUpdating, this`authCalls, this`currentPassword
      ensures EmailUpdateError(old(currentPassword)).Some? ==>
        error == CurrentPasswordRequired && authCalls == old(authCalls) &&
        isUpdating == old(isUpdating) && currentPassword == old(currentPassword)
      ensures EmailUpdateError(old(currentPassword)).None? ==>
        authCalls == old(authCalls) + [UpdateEmail(email, old(currentPassword))] && !isUpdating
      ensures EmailUpdateError(old(currentPassword)).None? && outcome.Resolved? ==>
        error == "" && currentPassword == ""
      ensures EmailUpdateError(old(currentPassword)).None? && outcome.Rejected? ==>
        error == MessageOr(outcome.message, EmailUpdateFailed) && currentPassword == old(currentPassword)
    {
      error := "";
      var invalid := EmailUpdateError(currentPassword);
      if invalid.Some? {
        error := invalid.value;
        return;
      }
      isUpdating := true;
      authCalls := authCalls + [UpdateEmail(email, currentPassword)];
      match outcome {
        case Resolved =>
          currentPassword := "";
        case Rejected(message) =>
          error := MessageOr(message, EmailUpdateFailed);
      }
      isUpdating := false;
    }

    /** `handlePasswordChange(e)`, with `outcome` the settlement of `changePassword`. */
    method HandlePasswordChange(outcome: Outcome)
      modifies this`error, this`isChangingPassword, this`authCalls, this`currentPassword, this`newPassword, this`confirmPassword
      ensures PasswordChangeError(old(newPassword), old(confirmPassword)).Some? ==>
        error == PasswordChangeError(old(newPassword), old(confirmPassword)).value &&
        authCalls == old(authCalls) && isChangingPassword == old(isChangingPassword) &&
        currentPassword == old(currentPassword) && newPassword == old(newPassword) && confirmPassword == old(confirmPassword)
      ensures PasswordChangeError(old(newPassword), old(confirmPassword)).None? ==>
        authCalls == old(authCalls) + [ChangePassword(old(currentPassword), old(newPassword))] && !isChangingPassword
      ensures PasswordChangeError(old(newPassword), old(confirmPassword)).None? && outcome.Resolved? ==>
        error == "" && currentPassword == "" && newPassword == "" && confirmPassword == ""
      ensures PasswordChangeError(old(newPassword), old(confirmPassword)).None? && outcome.Rejected? ==>
        error == MessageOr(outcome.message, PasswordChangeFailed) &&
        currentPassword == old(currentPassword) && newPassword == old(newPassword) && confirmPassword == old(confirmPassword)
    {
      error := "";
      var invalid := PasswordChangeError(newPassword, confirmPassword);
      if invalid.Some? {
        error := invalid.value;
        return;
      }
      isChangingPassword := true;
      authCalls := authCalls + [ChangePassword(currentPassword, newPassword)];
      match outcome {
        case Resolved =>
          currentPassword := "";
          newPassword := "";
          confirmPassword := "";
        case Rejected(message) =>
          error := MessageOr(message, PasswordChangeFailed);
      }
      isChangingPassword := false;
    }

    /** `handleDeleteAccount(e)`, with `outcome` the settlement of `deleteAccount`: on success
        the page goes home and `isDeleting` stays set; only a failure clears it. */
    method HandleDeleteAccount(outcome: Outcome)
      modifies this`error, this`isDeleting, this`authCalls, this`location
      ensures DeleteAccountError(old(deleteConfirmPassword)).Some? ==>
        error == DeletePasswordRequired && authCalls == old(authCalls) &&
        isDeleting == old(isDeleting) && location == old(location)
      ensures DeleteAccountError(old(deleteConfirmPassword)).None? ==>
        authCalls == old(authCalls) + [DeleteAccount(deleteConfirmPassword)]
      ensures DeleteAccountError(old(deleteConfirmPassword)).None? && outcome.Resolved? ==>
        error == "" && isDeleting && location == Some("/")
      ensures DeleteAccountError(old(deleteConfirmPassword)).None? && outcome.Rejected? ==>
        error == MessageOr(outcome.message, DeleteFailed) && !isDeleting && location == old(location)
    {
      error := "";
      var invalid := DeleteAccountError(deleteConfirmPassword);
      if invalid.Some? {
        error := invalid.value;
        return;
      }
      isDeleting := true;
      authCalls := authCalls + [DeleteAccount(deleteConfirmPassword)];
      match outcome {
        case Resolved =>
          location := Some("/");
        case Rejected(message) =>
          error := MessageOr(message, DeleteFailed);
          isDeleting := false;
      }
    }
  }
}
