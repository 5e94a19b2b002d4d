/** The bookmark button (components/BookmarkButton.tsx): a component with
    `isSaved` and `loading` state over the saved-jobs table.

    Its asynchronous press handler is split at its awaits into `Press` (the
    synchronous start: the `loading` guard and `setLoading(true)`) and
    `Complete` (the rest, once the current user is known). Between the two,
    further presses find `loading` set. The signed-in user, and whether its
    lookup threw, is an input; so are the backend faults of the saved-jobs
    calls, and whether the parent's `onToggle` throws. Alerts and the
    `onToggle` callback are recorded as effects. */
module Bookmark {
  import opened Results
  import SavedJobs

  /** The answer of `getCurrentUser()`. */
  datatype UserLookup = SignedOut | SignedIn(id: string) | LookupThrew

  datatype Effect =
    | SavedStatusChecked(userId: string, jobId: string)
    | ToggleRequested(userId: string, jobId: string)
    | Alerted(title: string)
    | Toggled(isSaved: bool)

  /** Title of the "you must be signed in" alert. */
  const SignInTitle: string := "Kujdes"
  /** Title of the alert shown when the handler throws. */
  const ErrorTitle: string := "Error"

  /** The optional `onToggle` prop, as a call behaves: not given, returning,
      or throwing (into the handler's catch block). */
  datatype ToggleCallback = NotGiven | Returns | Throws

  /** The end of `handleToggle` once the user and the toggle's result are known:
      the new `isSaved` and the effects. `pressedSaved` is the `isSaved` the
      handler captured when pressed; `isSaved` is the current one. */
  function ToggleOutcome(jobId: string, isSaved: bool, pressedSaved: bool, user: UserLookup, success: bool,
                         onToggle: ToggleCallback): (bool, seq<Effect>)
  {
    match user
    case SignedOut => (isSaved, [Alerted(SignInTitle)])
    case LookupThrew => (isSaved, [Alerted(ErrorTitle)])
    case SignedIn(id) =>
      if success then
        (!pressedSaved, [ToggleRequested(id, jobId)] +
          match onToggle
          case NotGiven => []
          case Returns => [Toggled(!pressedSaved)]
          case Throws => [Toggled(!pressedSaved), Alerted(ErrorTitle)])
      else (isSaved, [ToggleRequested(id, jobId)])
  }

  /** Signed in, a successful toggle sets the opposite of the state seen at
      the press and reports it to `onToggle`; a failed one changes nothing.
      A throwing `onToggle` shows the error alert after the state has
      flipped. Without a user, or when the lookup throws, exactly one alert is
      shown, nothing is requested and the state stays. */
  lemma ToggleOutcomeSpec(jobId: string, isSaved: bool, pressedSaved: bool, user: UserLookup, success: bool,
                          onToggle: ToggleCallback)
    ensures var (saved, effects) := ToggleOutcome(jobId, isSaved, pressedSaved, user, success, onToggle);
      && (user.SignedIn? && success ==> saved == !pressedSaved && (onToggle != NotGiven <==> Toggled(saved) in effects))
      && (user.SignedIn? && !success ==> saved == isSaved && effects == [ToggleRequested(user.id, jobId)])
      && (user.SignedIn? ==> effects[0] == ToggleRequested(user.id, jobId))
      && (user.SignedIn? ==> (Alerted(ErrorTitle) in effects <==> success && onToggle == Throws))
      && (user.SignedIn? && success && onToggle == Throws ==>
            effects == [ToggleRequested(user.id, jobId), Toggled(saved), Alerted(ErrorTitle)])
      && (user.SignedOut? ==> saved == isSaved && effects == [Alerted(SignInTitle)])
      && (user.LookupThrew? ==> saved == isSaved && effects == [Alerted(ErrorTitle)])
  {
  }

  /** The unit test's scenario: user "u1" presses the button of an unsaved
      "job-2"; the toggle is requested for that pair and `onToggle(true)` runs. */
  lemma PressUnsavedCallsBack()
    ensures var (saved, effects) := ToggleOutcome("job-2", false, false, SignedIn("u1"), true, Returns);
      saved && effects == [ToggleRequested("u1", "job-2"), Toggled(true)]
  {
  }

  /** While the backend answers, the button's state follows the table: when
      `isSaved` agrees with the table before a press by a signed-in user and
      the lookup succeeds, it agrees afterwards, whether or not the write fails
      (a write failure other than a duplicate key). */
  lemma ToggleKeepsAgreement(rows: set<SavedJobs.SavedRow>, userId: string, jobId: string,
                             writeFault: Option<SavedJobs.DbError>, onToggle: ToggleCallback)
    requires writeFault.None? || writeFault.value.code != SavedJobs.UniqueViolation
    ensures var row := SavedJobs.SavedRow(userId, jobId);
      var isSaved := row in rows;
      var (after, ok) := SavedJobs.ToggleEffect(rows, row, None, writeFault);
      ToggleOutcome(jobId, isSaved, isSaved, SignedIn(userId), ok, onToggle).0 == (row in after)
  {
  }

  /** When the lookup inside the toggle fails on a saved job, the table keeps
      the row but the button flips to unsaved: the save that follows hits the
      unique constraint and reports success. */
  lemma FailedLookupShowsUnsaved(rows: set<SavedJobs.SavedRow>, userId: string, jobId: string,
                                 e: SavedJobs.DbError, onToggle: ToggleCallback)
    requires SavedJobs.SavedRow(userId, jobId) in rows
    ensures var (after, ok) := SavedJobs.ToggleEffect(rows, SavedJobs.SavedRow(userId, jobId), Some(e), None);
      && SavedJobs.SavedRow(userId, jobId) in after
      && ToggleOutcome(jobId, true, true, SignedIn(userId), ok, onToggle).0 == false
  {
    SavedJobs.ToggleAfterFailedLookup(rows, SavedJobs.SavedRow(userId, jobId), e);
  }

  class BookmarkButton {
    const jobId: string
    const hasOnToggle: bool
    const table: SavedJobs.SavedJobsTable
    var isSaved: bool
    var loading: bool
    /** The `isSaved` seen by the press in flight. */
    var pressedSaved: bool
    var effects: seq<Effect>

    /** How the `onToggle` prop behaves on a call that throws or not. */
    function Callback(throws: bool): ToggleCallback {
      if !hasOnToggle then NotGiven else if throws then Throws else Returns
    }

    /** Mounting: not saved, not loading. */
    constructor(jobId: string, hasOnToggle: bool, table: SavedJobs.SavedJobsTable)
      ensures this.jobId == jobId && this.hasOnToggle == hasOnToggle && this.table == table
      ensures !isSaved && !loading && effects == []
    {
      this.jobId := jobId;
      this.hasOnToggle := hasOnToggle;
      this.table := table;
      isSaved := false;
      loading := false;
      pressedSaved := false;
      effects := [];
    }

    /** `checkSavedStatus`, run on mount and when `jobId` changes: signed in,
        `isSaved` becomes the table's answer; otherwise nothing changes. */
    method CheckSavedStatus(user: UserLookup, lookupFault: Option<SavedJobs.DbError>)
      modifies this
      ensures loading == old(loading) && pressedSaved == old(pressedSaved)
      ensures user.SignedIn? ==> isSaved == (lookupFault.None? && SavedJobs.SavedRow(user.id, jobId) in table.rows)
      ensures user.SignedIn? ==> effects == old(effects) + [SavedStatusChecked(user.id, jobId)]
      ensures !user.SignedIn? ==> isSaved == old(isSaved) && effects == old(effects)
    {
      if user.SignedIn? {
        effects := effects + [SavedStatusChecked(user.id, jobId)];
        isSaved := table.IsJobSaved(user.id, jobId, lookupFault);
      }
    }

    /** The start of `handleToggle`: ignored while loading, otherwise sets
        `loading` and captures `isSaved`. */
    method Press() returns (started: bool)
      modifies this
      ensures started <==> !old(loading)
      ensures loading && isSaved == old(isSaved) && effects == old(effects)
      ensures pressedSaved == if started then old(isSaved) else old(pressedSaved)
    {
      if loading {
        return false;
      }
      loading := true;
      pressedSaved := isSaved;
      started := true;
    }

    /** The rest of `handleToggle`: toggle in the table when signed in, update
        the state as `ToggleOutcome` says, and clear `loading` on every path.
        `onToggleThrows` says whether the parent's `onToggle` throws this time. */
    method Complete(user: UserLookup, lookupFault: Option<SavedJobs.DbError>, writeFault: Option<SavedJobs.DbError>,
                    onToggleThrows: bool)
      requires loading
      modifies this, table
      ensures !loading
      ensures user.SignedIn? ==>
        var (rows, ok) := SavedJobs.ToggleEffect(old(table.rows), SavedJobs.SavedRow(user.id, jobId), lookupFault, writeFault);
        && table.rows == rows
        && (isSaved, effects) == (ToggleOutcome(jobId, old(isSaved), old(pressedSaved), user, ok, Callback(onToggleThrows)).0,
                                  old(effects) + ToggleOutcome(jobId, old(isSaved), old(pressedSaved), user, ok, Callback(onToggleThrows)).1)
      ensures !user.SignedIn? ==>
        && table.rows == old(table.rows)
        && (isSaved, effects) == (old(isSaved), old(effects) + ToggleOutcome(jobId, old(isSaved), old(pressedSaved), user, false, Callback(onToggleThrows)).1)
    {
      var success := false;
      if user.SignedIn? {
        success := table.ToggleSaveJob(user.id, jobId, lookupFault, writeFault);
      }
      var (saved, more) := ToggleOutcome(jobId, isSaved, pressedSaved, user, success, Callback(onToggleThrows));
      isSaved := saved;
      effects := effects + more;
      loading := false;
    }
  }
}
