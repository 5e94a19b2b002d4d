/** The Easy Apply dialog (components/EasyApplyModal.tsx): the signed-in
    user's profile it loads, the four ways to apply and the CV URL each passes
    to `onApply`, setting the default CV, and which options are offered.

    The outcomes of the awaited calls are inputs: `getCurrentUser` (the user
    and profile, or a thrown message), the document pick (a URI, a cancel, or
    a thrown message), the upload (a public URL or a thrown message),
    whether the profile update threw and whether the parent's `onApply`
    threw inside the upload handler. `onApply`, `onClose`, alerts and the
    requested profile updates are recorded as effects, in order. */
module EasyApply {
  import opened Results

  /** The two CV fields of a profile that the dialog reads. */
  datatype Profile = Profile(cvUrl: Option<string>, defaultCvUrl: Option<string>)

  /** What `getCurrentUser` resolves to: the user's id and profile, each possibly missing. */
  datatype CurrentUser = CurrentUser(userId: Option<string>, profile: Option<Profile>)

  datatype AlertKind =
    | NoDefaultCv               // "CV Mungon"
    | NoProfileCv               // "Info"
    | DefaultCvSaved            // "Sukses"
    | ErrorAlert(message: string)

  datatype Effect =
    | Applied(cvUrl: Option<string>, quickApply: bool)
    | Closed
    | Alerted(kind: AlertKind)
    | UploadRequested(userId: string, uri: string)
    | DefaultCvUpdated(userId: string, url: string, alsoCvUrl: bool)

  const DefaultErrorMessage: string := "Ndodhi nj\U{EB} gabim"
  const UserNotFoundMessage: string := "User not found"

  /** JavaScript truthiness of an optional string. */
  predicate Truthy(o: Option<string>) {
    o.Some? && o.value != ""
  }

  /** `pickDocument` gave a URI that `!cvUri` does not take for a cancel. */
  predicate CvPicked(picked: Result<Option<string>, string>) {
    picked.Ok? && Truthy(picked.value)
  }

  /** `userProfile?.default_cv_url`, truthy. */
  predicate HasDefaultCv(p: Option<Profile>) {
    p.Some? && Truthy(p.value.defaultCvUrl)
  }

  /** `userProfile?.cv_url`, truthy. */
  predicate HasProfileCv(p: Option<Profile>) {
    p.Some? && Truthy(p.value.cvUrl)
  }

  /** `error.message || 'Ndodhi një gabim'`. */
  function MessageOr(message: string): string {
    if message == "" then DefaultErrorMessage else message
  }

  // ---------------------------------------------------------------------------
  // Which options are offered

  /** The 1-click option is shown only with a default CV; otherwise a notice
      is, with a "set it now" link when the profile has a CV. */
  predicate QuickApplyShown(p: Option<Profile>) { HasDefaultCv(p) }
  predicate SetDefaultLinkShown(p: Option<Profile>) { !HasDefaultCv(p) && HasProfileCv(p) }
  predicate ExistingCvShown(p: Option<Profile>) { HasProfileCv(p) }
  /** The upload option is disabled while an upload runs. */
  predicate UploadEnabled(uploadingCv: bool) { !uploadingCv }

  // ---------------------------------------------------------------------------
  // The handlers' effects

  /** `handleQuickApply`. */
  function QuickApplyEffects(p: Option<Profile>): seq<Effect> {
    if !HasDefaultCv(p) then [Alerted(NoDefaultCv)]
    else [Applied(p.value.defaultCvUrl, true), Closed]
  }

  /** `handleApplyWithProfile`. */
  function ApplyWithProfileEffects(): seq<Effect> {
    [Applied(None, false), Closed]
  }

  /** `handleApplyWithExistingCV`. */
  function ApplyWithExistingCvEffects(p: Option<Profile>): seq<Effect> {
    if HasProfileCv(p) then [Applied(p.value.cvUrl, false), Closed] else []
  }

  /** `handleUploadNewCV(setAsDefault)`. A pick that throws escapes the
      handler before anything else happens, and a cancel or an empty URI
      returns at once; `applyThrew` is the message `onApply` threw, if it
      did, which the handler catches. The profile update for
      `setAsDefault` returns its error in the response instead of
      throwing, and the handler does not read it, so it has no fault input
      here. */
  function UploadNewCvEffects(setAsDefault: bool, picked: Result<Option<string>, string>,
                              user: Result<CurrentUser, string>, upload: Result<string, string>,
                              applyThrew: Option<string>): seq<Effect>
  {
    if !CvPicked(picked) then []
    else if user.Err? then [Alerted(ErrorAlert(MessageOr(user.error)))]
    else if user.value.userId.None? then [Alerted(ErrorAlert(UserNotFoundMessage))]
    else
      var id := user.value.userId.value;
      [UploadRequested(id, picked.value.value)] +
      match upload
      case Err(m) => [Alerted(ErrorAlert(MessageOr(m)))]
      case Ok(url) =>
        (if setAsDefault then [DefaultCvUpdated(id, url, true)] else []) + [Applied(Some(url), false)] +
        match applyThrew
        case Some(m) => [Alerted(ErrorAlert(MessageOr(m)))]
        case None => [Closed]
  }

  /** `handleSetDefaultCV`: the profile afterwards and the effects.
      `updateThrew` is the message the update threw, if it did. The update
      reports a refused write in its response instead of throwing, and the
      handler does not read that response, so `updateThrew == None` also
      covers an update that failed without throwing: the success alert and
      the local default follow it all the same. */
  function SetDefaultCvOutcome(p: Option<Profile>, user: Result<CurrentUser, string>, updateThrew: Option<string>)
    : (Option<Profile>, seq<Effect>)
  {
    if !HasProfileCv(p) then (p, [Alerted(NoProfileCv)])
    else if user.Err? then (p, [Alerted(ErrorAlert(MessageOr(user.error)))])
    else if user.value.userId.None? then (p, [])
    else
      var cv := p.value.cvUrl;
      var id := user.value.userId.value;
      match updateThrew
      case Some(m) => (p, [DefaultCvUpdated(id, cv.value, false), Alerted(ErrorAlert(MessageOr(m)))])
      case None => (Some(p.value.(defaultCvUrl := cv)), [DefaultCvUpdated(id, cv.value, false), Alerted(DefaultCvSaved)])
  }

  // ---------------------------------------------------------------------------
  // Properties

  /** Quick apply applies exactly when a default CV exists, with that CV and
      the quick-apply flag, and then closes; otherwise it only alerts. */
  lemma QuickApplySpec(p: Option<Profile>)
    ensures (exists e :: e in QuickApplyEffects(p) && e.Applied?) <==> QuickApplyShown(p)
    ensures QuickApplyShown(p) ==> QuickApplyEffects(p) == [Applied(Some(p.value.defaultCvUrl.value), true), Closed]
    ensures !QuickApplyShown(p) ==> QuickApplyEffects(p) == [Alerted(NoDefaultCv)]
  {
    if QuickApplyShown(p) {
      assert QuickApplyEffects(p)[0].Applied?;
    }
  }

  /** The unit test's profile: quick apply passes the default CV, not the
      profile CV; applying with the profile only passes no CV. */
  lemma ApplyExamples()
    ensures QuickApplyEffects(Some(Profile(Some("https://cv"), Some("https://cv-default"))))
              == [Applied(Some("https://cv-default"), true), Closed]
    ensures ApplyWithProfileEffects() == [Applied(None, false), Closed]
  {
  }

  /** Applying with the existing CV does something exactly when the option is
      offered, and then passes the profile's CV without the quick-apply flag. */
  lemma ExistingCvSpec(p: Option<Profile>)
    ensures ApplyWithExistingCvEffects(p) != [] <==> ExistingCvShown(p)
    ensures ExistingCvShown(p) ==> ApplyWithExistingCvEffects(p) == [Applied(Some(p.value.cvUrl.value), false), Closed]
  {
  }

  /** An upload applies exactly when a file was picked, a user is signed in
      and the upload succeeded, and it applies with the uploaded URL. With
      `setAsDefault` the profile's default and current CV are both set to that
      URL first. The dialog closes unless `onApply` throws, in which case the
      error alert follows the application. A cancelled or failed pick, or
      one giving an empty URI, does nothing at all. */
  lemma UploadNewCvSpec(setAsDefault: bool, picked: Result<Option<string>, string>,
                        user: Result<CurrentUser, string>, upload: Result<string, string>, applyThrew: Option<string>)
    ensures var es := UploadNewCvEffects(setAsDefault, picked, user, upload, applyThrew);
      && (!CvPicked(picked) ==> es == [])
      && ((exists e :: e in es && e.Applied?) <==>
            CvPicked(picked) && user.Ok? && user.value.userId.Some? && upload.Ok?)
      && (Closed in es <==>
            CvPicked(picked) && user.Ok? && user.value.userId.Some? && upload.Ok? && applyThrew.None?)
      && (CvPicked(picked) && user.Ok? && user.value.userId.Some? && upload.Ok? ==>
            var id := user.value.userId.value;
            es == [UploadRequested(id, picked.value.value)]
                  + (if setAsDefault then [DefaultCvUpdated(id, upload.value, true)] else [])
                  + [Applied(Some(upload.value), false)]
                  + (if applyThrew.None? then [Closed] else [Alerted(ErrorAlert(MessageOr(applyThrew.value)))]))
  {
    var es := UploadNewCvEffects(setAsDefault, picked, user, upload, applyThrew);
    if CvPicked(picked) && user.Ok? && user.value.userId.Some? && upload.Ok? {
      assert es[|es| - 2].Applied?;
    }
  }

  /** Setting the default CV needs a profile CV; when the update does not
      throw for a signed-in user (whether or not the backend accepted it) the
      CV becomes the default locally, so the 1-click
      option is offered from then on. Otherwise the profile is unchanged. */
  lemma SetDefaultCvSpec(p: Option<Profile>, user: Result<CurrentUser, string>, updateThrew: Option<string>)
    ensures var (q, es) := SetDefaultCvOutcome(p, user, updateThrew);
      && (!HasProfileCv(p) ==> q == p && es == [Alerted(NoProfileCv)])
      && (q != p ==> HasProfileCv(p) && user.Ok? && user.value.userId.Some? && updateThrew.None?)
      && (HasProfileCv(p) && user.Ok? && user.value.userId.Some? && updateThrew.None? ==>
            && q == Some(Profile(p.value.cvUrl, p.value.cvUrl))
            && QuickApplyShown(q) && !SetDefaultLinkShown(q)
            && es == [DefaultCvUpdated(user.value.userId.value, p.value.cvUrl.value, false), Alerted(DefaultCvSaved)])
  {
  }

  class EasyApplyModal {
    var userProfile: Option<Profile>
    var uploadingCv: bool
    var effects: seq<Effect>

    constructor()
      ensures userProfile == None && !uploadingCv && effects == []
    {
      userProfile := None;
      uploadingCv := false;
      effects := [];
    }

    /** `loadUserProfile`, run when the dialog becomes visible: a returned
        profile replaces the current one; a missing one or a throw keeps it. */
    method LoadUserProfile(user: Result<CurrentUser, string>)
      modifies this
      ensures userProfile == if user.Ok? && user.value.profile.Some? then user.value.profile else old(userProfile)
      ensures uploadingCv == old(uploadingCv) && effects == old(effects)
    {
      if user.Ok? && user.value.profile.Some? {
        userProfile := user.value.profile;
      }
    }

    method HandleQuickApply()
      modifies this
      ensures effects == old(effects) + QuickApplyEffects(userProfile)
      ensures userProfile == old(userProfile) && uploadingCv == old(uploadingCv)
    {
      if !HasDefaultCv(userProfile) {
        effects := effects + [Alerted(NoDefaultCv)];
        return;
      }
      effects := effects + [Applied(userProfile.value.defaultCvUrl, true), Closed];
    }

    method HandleApplyWithProfile()
      modifies this
      ensures effects == old(effects) + ApplyWithProfileEffects()
      ensures userProfile == old(userProfile) && uploadingCv == old(uploadingCv)
    {
      effects := effects + [Applied(None, false), Closed];
    }

    method HandleApplyWithExistingCv()
      modifies this
      ensures effects == old(effects) + ApplyWithExistingCvEffects(userProfile)
      ensures userProfile == old(userProfile) && uploadingCv == old(uploadingCv)
    {
      if HasProfileCv(userProfile) {
        effects := effects + [Applied(userProfile.value.cvUrl, false), Closed];
      }
    }

    /** `handleUploadNewCV`: `uploadingCv` is set once a file is picked and
        cleared on every later path; the local profile is not updated, even
        when the new CV is made the default. */
    method HandleUploadNewCv(setAsDefault: bool, picked: Result<Option<string>, string>,
                             user: Result<CurrentUser, string>, upload: Result<string, string>,
                             applyThrew: Option<string>)
      modifies this
      ensures effects == old(effects) + UploadNewCvEffects(setAsDefault, picked, user, upload, applyThrew)
      ensures userProfile == old(userProfile)
      ensures uploadingCv == if !CvPicked(picked) then old(uploadingCv) else false
    {
      if !CvPicked(picked) {
        return;
      }
      var uri := picked.value.value;
      uploadingCv := true;
      if user.Err? {
        effects := effects + [Alerted(ErrorAlert(MessageOr(user.error)))];
      } else if user.value.userId.None? {
        effects := effects + [Alerted(ErrorAlert(UserNotFoundMessage))];
      } else {
        var id := user.value.userId.value;
        effects := effects + [UploadRequested(id, uri)];
        if upload.Err? {
          effects := effects + [Alerted(ErrorAlert(MessageOr(upload.error)))];
        } else {
          if setAsDefault {
            effects := effects + [DefaultCvUpdated(id, upload.value, true)];
          }
          effects := effects + [Applied(Some(upload.value), false)];
          if applyThrew.Some? {
            effects := effects + [Alerted(ErrorAlert(MessageOr(applyThrew.value)))];
          } else {
            effects := effects + [Closed];
          }
        }
      }
      uploadingCv := false;
    }

    method HandleSetDefaultCv(user: Result<CurrentUser, string>, updateThrew: Option<string>)
      modifies this
      ensures (userProfile, effects) == (SetDefaultCvOutcome(old(userProfile), user, updateThrew).0,
                                         old(effects) + SetDefaultCvOutcome(old(userProfile), user, updateThrew).1)
      ensures uploadingCv == old(uploadingCv)
    {
      if !HasProfileCv(userProfile) {
        effects := effects + [Alerted(NoProfileCv)];
        return;
      }
      if user.Err? {
        effects := effects + [Alerted(ErrorAlert(MessageOr(user.error)))];
        return;
      }
      if user.value.userId.None? {
        assert effects + [] == effects;
        return;
      }
      var cv := userProfile.value.cvUrl;
      var id := user.value.userId.value;
      if updateThrew.Some? {
        effects := effects + [DefaultCvUpdated(id, cv.value, false), Alerted(ErrorAlert(MessageOr(updateThrew.value)))];
        return;
      }
      effects := effects + [DefaultCvUpdated(id, cv.value, false), Alerted(DefaultCvSaved)];
      userProfile := Some(userProfile.value.(defaultCvUrl := cv));
    }
  }
}
