/** The CV upload dialog (components/CVUploadModal.tsx): a mode switch between
    picking a file and typing a link, the two submit handlers with their
    validation, and the reset on close.

    The outcomes of the awaited calls are inputs: the document pick (a URI,
    a cancel, or a thrown message), the upload (a public URL or a thrown
    message) and the profile update (a thrown message, if any); so is the
    message the parent's `onSuccess` throws, if it does. Alerts, the
    requested calls and the `onSuccess`/`onClose` callbacks are recorded as
    effects, in order. */
module CvUpload {
  import opened Results
  import Text

  datatype Mode = Select | Link

  /** Why an error alert was shown; a thrown message is shown as it is, or
      the handler's default text when it is empty. */
  datatype AlertReason = LinkMissing | LinkNotHttp | UploadFailed(message: string) | SaveLinkFailed(message: string)

  datatype Effect =
    | ErrorAlert(reason: AlertReason)
    | UploadRequested(uri: string)
    | ProfileUpdateRequested(userId: string, cvUrl: string)
    | Succeeded(url: string)
    | Closed

  const UploadDefaultMessage: string := "Ndodhi nj\U{EB} gabim gjat\U{EB} ngarkimit t\U{EB} CV-s\U{EB}"
  const SaveLinkDefaultMessage: string := "Ndodhi nj\U{EB} gabim gjat\U{EB} ruajtjes s\U{EB} linkut"

  /** `error.message || fallback`. */
  function MessageOr(message: string, fallback: string): string {
    if message == "" then fallback else message
  }

  /** `pickDocument` gave a URI that `!docUri` does not take for a cancel:
      present and not empty. */
  predicate FilePicked(picked: Result<Option<string>, string>) {
    picked.Ok? && picked.value.Some? && picked.value.value != ""
  }

  /** The effects of `handleFilePick`. `picked` is the document URI, `None`
      for a cancel, or the message `pickDocument` threw; an empty URI is
      falsy and counts as a cancel. */
  function FilePickEffects(userId: string, picked: Result<Option<string>, string>,
                           upload: Result<string, string>, update: Option<string>,
                           successThrew: Option<string>): seq<Effect>
  {
    if picked.Err? then [ErrorAlert(UploadFailed(MessageOr(picked.error, UploadDefaultMessage)))]
    else if !FilePicked(picked) then []
    else
      var uri := picked.value.value;
      [UploadRequested(uri)] +
      match upload
      case Err(m) => [ErrorAlert(UploadFailed(MessageOr(m, UploadDefaultMessage)))]
      case Ok(url) =>
        [ProfileUpdateRequested(userId, url)] +
        match update
        case Some(m) => [ErrorAlert(UploadFailed(MessageOr(m, UploadDefaultMessage)))]
        case None =>
          [Succeeded(url)] +
          match successThrew
          case Some(m) => [ErrorAlert(UploadFailed(MessageOr(m, UploadDefaultMessage)))]
          case None => [Closed]
  }

  /** A cancelled pick, or one giving an empty URI, does nothing. The dialog closes exactly when a file was
      picked, uploaded and stored in the profile, in that order, and
      `onSuccess` returned; it reports the uploaded URL exactly when the
      profile was updated. Every other outcome ends in one alert, and when
      `onSuccess` throws that alert follows the report although the CV is
      stored. */
  lemma FilePickSpec(userId: string, picked: Result<Option<string>, string>,
                     upload: Result<string, string>, update: Option<string>, successThrew: Option<string>)
    ensures picked.Ok? && !FilePicked(picked) ==> FilePickEffects(userId, picked, upload, update, successThrew) == []
    ensures var es := FilePickEffects(userId, picked, upload, update, successThrew);
      (Closed in es) <==> FilePicked(picked) && upload.Ok? && update.None? && successThrew.None?
    ensures var es := FilePickEffects(userId, picked, upload, update, successThrew);
      (exists u :: Succeeded(u) in es) <==> FilePicked(picked) && upload.Ok? && update.None?
    ensures FilePicked(picked) && upload.Ok? && update.None? ==>
      FilePickEffects(userId, picked, upload, update, successThrew)
        == [UploadRequested(picked.value.value), ProfileUpdateRequested(userId, upload.value), Succeeded(upload.value)]
           + (if successThrew.None? then [Closed]
              else [ErrorAlert(UploadFailed(MessageOr(successThrew.value, UploadDefaultMessage)))])
    ensures var es := FilePickEffects(userId, picked, upload, update, successThrew);
      (picked.Err? || FilePicked(picked)) && !(FilePicked(picked) && upload.Ok? && update.None? && successThrew.None?) ==>
        |es| > 0 && es[|es| - 1].ErrorAlert? && forall i :: 0 <= i < |es| - 1 ==> !es[i].ErrorAlert?
  {
    var es := FilePickEffects(userId, picked, upload, update, successThrew);
    if FilePicked(picked) && upload.Ok? && update.None? {
      assert es[2] == Succeeded(upload.value);
    }
  }

  /** `link.startsWith('http://') || link.startsWith('https://')`. */
  predicate HasHttpScheme(link: string) {
    "http://" <= link || "https://" <= link
  }

  /** The `try` block of `handleLinkSubmit`: the profile update, then
      `onSuccess(link)` and `onClose`; a throw from the update or from
      `onSuccess` shows the alert. */
  function SaveLinkEffects(userId: string, link: string, update: Option<string>, successThrew: Option<string>): seq<Effect> {
    [ProfileUpdateRequested(userId, link)] +
    match update
    case Some(m) => [ErrorAlert(SaveLinkFailed(MessageOr(m, SaveLinkDefaultMessage)))]
    case None =>
      [Succeeded(link)] +
      match successThrew
      case Some(m) => [ErrorAlert(SaveLinkFailed(MessageOr(m, SaveLinkDefaultMessage)))]
      case None => [Closed]
  }

  /** The effects of `handleLinkSubmit`: a blank link and a link without an
      http or https scheme are refused before anything is saved. */
  function LinkSubmitEffects(userId: string, link: string, update: Option<string>, successThrew: Option<string>): seq<Effect> {
    if Text.Trim(link) == "" then [ErrorAlert(LinkMissing)]
    else if !HasHttpScheme(link) then [ErrorAlert(LinkNotHttp)]
    else SaveLinkEffects(userId, link, update, successThrew)
  }

  /** The profile is updated exactly for a non-blank link with an http or
      https scheme, and then with the link as typed, untrimmed. The link is
      then reported unless the update throws, and the dialog closes unless
      the update or `onSuccess` throws; a throw shows its message, or the
      default text when the message is empty. */
  lemma LinkSubmitSpec(userId: string, link: string, update: Option<string>, successThrew: Option<string>)
    ensures var es := LinkSubmitEffects(userId, link, update, successThrew);
      (exists u :: ProfileUpdateRequested(userId, u) in es) <==> !Text.IsBlank(link) && HasHttpScheme(link)
    ensures Text.IsBlank(link) ==> LinkSubmitEffects(userId, link, update, successThrew) == [ErrorAlert(LinkMissing)]
    ensures !Text.IsBlank(link) && !HasHttpScheme(link) ==>
      LinkSubmitEffects(userId, link, update, successThrew) == [ErrorAlert(LinkNotHttp)]
    ensures !Text.IsBlank(link) && HasHttpScheme(link) && update.None? && successThrew.None? ==>
      LinkSubmitEffects(userId, link, update, successThrew) == [ProfileUpdateRequested(userId, link), Succeeded(link), Closed]
    ensures !Text.IsBlank(link) && HasHttpScheme(link) && update.Some? ==>
      LinkSubmitEffects(userId, link, update, successThrew)
        == [ProfileUpdateRequested(userId, link), ErrorAlert(SaveLinkFailed(MessageOr(update.value, SaveLinkDefaultMessage)))]
    ensures !Text.IsBlank(link) && HasHttpScheme(link) && update.None? && successThrew.Some? ==>
      LinkSubmitEffects(userId, link, update, successThrew)
        == [ProfileUpdateRequested(userId, link), Succeeded(link),
            ErrorAlert(SaveLinkFailed(MessageOr(successThrew.value, SaveLinkDefaultMessage)))]
  {
    Text.TrimEmptyIffBlank(link);
    var es := LinkSubmitEffects(userId, link, update, successThrew);
    if Text.IsBlank(link) {
      assert es == [ErrorAlert(LinkMissing)];
    } else if !HasHttpScheme(link) {
      assert es == [ErrorAlert(LinkNotHttp)];
    } else {
      assert ProfileUpdateRequested(userId, link) == es[0];
    }
  }

  /** The scheme is checked on the untrimmed link: a link typed with a
      leading space is refused, although it may not be blank. */
  lemma LeadingSpaceRefused(userId: string, rest: string, update: Option<string>, successThrew: Option<string>)
    ensures !HasHttpScheme(" " + rest)
    ensures LinkSubmitEffects(userId, " " + rest, update, successThrew)
              == [ErrorAlert(if Text.IsBlank(" " + rest) then LinkMissing else LinkNotHttp)]
  {
    var link := " " + rest;
    assert !("http://" <= link) by {
      assert "http://"[0] != link[0];
    }
    assert !("https://" <= link) by {
      assert "https://"[0] != link[0];
    }
    Text.TrimEmptyIffBlank(link);
  }

  class CvUploadModal {
    const userId: string
    var mode: Mode
    var link: string
    var loading: bool
    var effects: seq<Effect>

    constructor(userId: string)
      ensures this.userId == userId && mode == Select && link == "" && !loading && effects == []
    {
      this.userId := userId;
      mode := Select;
      link := "";
      loading := false;
      effects := [];
    }

    /** "Vendos Link": switch to typing a link. */
    method ChooseLink()
      modifies this
      ensures mode == Link && link == old(link) && loading == old(loading) && effects == old(effects)
    {
      mode := Link;
    }

    /** "Kthehu": back to the choice, keeping what was typed. */
    method Back()
      modifies this
      ensures mode == Select && link == old(link) && loading == old(loading) && effects == old(effects)
    {
      mode := Select;
    }

    /** The link field's `onChangeText`. */
    method EditLink(text: string)
      modifies this
      ensures link == text && mode == old(mode) && loading == old(loading) && effects == old(effects)
    {
      link := text;
    }

    /** `handleFilePick`: `loading` is set for the duration and cleared on
        every path. */
    method HandleFilePick(picked: Result<Option<string>, string>, upload: Result<string, string>,
                          update: Option<string>, successThrew: Option<string>)
      modifies this
      ensures effects == old(effects) + FilePickEffects(userId, picked, upload, update, successThrew)
      ensures !loading && mode == old(mode) && link == old(link)
    {
      loading := true;
      var more: seq<Effect> := [];
      if picked.Err? {
        more := [ErrorAlert(UploadFailed(MessageOr(picked.error, UploadDefaultMessage)))];
      } else if FilePicked(picked) {
        var uri := picked.value.value;
        more := [UploadRequested(uri)];
        if upload.Err? {
          more := more + [ErrorAlert(UploadFailed(MessageOr(upload.error, UploadDefaultMessage)))];
        } else {
          more := more + [ProfileUpdateRequested(userId, upload.value)];
          if update.Some? {
            more := more + [ErrorAlert(UploadFailed(MessageOr(update.value, UploadDefaultMessage)))];
          } else {
            more := more + [Succeeded(upload.value)];
            if successThrew.Some? {
              more := more + [ErrorAlert(UploadFailed(MessageOr(successThrew.value, UploadDefaultMessage)))];
            } else {
              more := more + [Closed];
            }
          }
        }
      }
      effects := effects + more;
      loading := false;
    }

    /** `handleLinkSubmit`: validation first, then the profile update. */
    method HandleLinkSubmit(update: Option<string>, successThrew: Option<string>)
      modifies this
      ensures effects == old(effects) + LinkSubmitEffects(userId, old(link), update, successThrew)
      ensures loading == (old(loading) && (Text.Trim(link) == "" || !HasHttpScheme(link)))
      ensures mode == old(mode) && link == old(link)
    {
      if Text.Trim(link) == "" {
        effects := effects + [ErrorAlert(LinkMissing)];
      } else if !HasHttpScheme(link) {
        effects := effects + [ErrorAlert(LinkNotHttp)];
      } else {
        SaveLink(update, successThrew);
      }
    }

    /** The `try`/`finally` of `handleLinkSubmit`: `loading` is set for the
        duration of the update and cleared on every path. */
    method SaveLink(update: Option<string>, successThrew: Option<string>)
      modifies this
      ensures effects == old(effects) + SaveLinkEffects(userId, link, update, successThrew)
      ensures !loading && mode == old(mode) && link == old(link)
    {
      loading := true;
      var outcome: seq<Effect>;
      if update.Some? {
        outcome := [ErrorAlert(SaveLinkFailed(MessageOr(update.value, SaveLinkDefaultMessage)))];
      } else if successThrew.Some? {
        outcome := [Succeeded(link), ErrorAlert(SaveLinkFailed(MessageOr(successThrew.value, SaveLinkDefaultMessage)))];
      } else {
        outcome := [Succeeded(link), Closed];
      }
      effects := effects + ([ProfileUpdateRequested(userId, link)] + outcome);
      loading := false;
    }

    /** `resetAndClose`: back to the choice with an empty link, then `onClose`. */
    method ResetAndClose()
      modifies this
      ensures mode == Select && link == "" && loading == old(loading) && effects == old(effects) + [Closed]
    {
      mode := Select;
      link := "";
      effects := effects + [Closed];
    }
  }
}
