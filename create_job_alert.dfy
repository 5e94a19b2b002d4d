/** The job-alert form (components/CreateJobAlertModal.tsx): the alert name
    generated from the feed's filters, validation and saving, and the reset
    that follows a save or a close. The component's `visible` and
    `initialFilters` props are parameters of the handlers that read them;
    `onSave`, `onClose` and the error alert are recorded as effects. */
module CreateJobAlert {
  import opened Results
  import Text

  datatype Frequency = Instant | Daily | Weekly

  /** The optional filters the feed hands to the form. */
  datatype InitialFilters = InitialFilters(
    searchQuery: Option<string>,
    jobType: Option<string>,
    location: Option<string>,
    workMode: Option<string>,
    experienceLevel: Option<string>)

  /** The `JobAlert` record passed to `onSave`. */
  datatype JobAlert = JobAlert(
    alertName: string,
    searchQuery: Option<string>,
    jobType: Option<string>,
    location: Option<string>,
    workMode: Option<string>,
    experienceLevel: Option<string>,
    minSalary: Option<int>,
    frequency: Frequency,
    isActive: bool)

  datatype Effect = ErrorAlert(title: string) | Saved(alert: JobAlert) | Closed

  const NameSeparator: string := " - "
  const ErrorTitle: string := "Error"

  /** JavaScript truthiness of an optional string: present and non-empty. */
  predicate Truthy(o: Option<string>) {
    o.Some? && o.value != ""
  }

  /** The parts the effect pushes: job type, location and work mode, each when truthy. */
  function NameParts(f: InitialFilters): seq<string> {
    (if Truthy(f.jobType) then [f.jobType.value] else [])
    + (if Truthy(f.location) then [f.location.value] else [])
    + (if Truthy(f.workMode) then [f.workMode.value] else [])
  }

  /** The parts are exactly the truthy values among job type, location and
      work mode, none of them empty, in that order; the search query and the
      experience level never contribute. */
  lemma NamePartsSpec(f: InitialFilters, q: Option<string>, e: Option<string>)
    ensures forall i :: 0 <= i < |NameParts(f)| ==> NameParts(f)[i] != ""
    ensures forall p :: p in NameParts(f) ==>
      (Truthy(f.jobType) && p == f.jobType.value) || (Truthy(f.location) && p == f.location.value)
      || (Truthy(f.workMode) && p == f.workMode.value)
    ensures Truthy(f.jobType) ==> NameParts(f)[0] == f.jobType.value
    ensures Truthy(f.location) ==> f.location.value in NameParts(f)
    ensures Truthy(f.workMode) ==> NameParts(f)[|NameParts(f)| - 1] == f.workMode.value
    ensures NameParts(f) == [] <==> !Truthy(f.jobType) && !Truthy(f.location) && !Truthy(f.workMode)
    ensures |NameParts(f)| == Count(Truthy(f.jobType)) + Count(Truthy(f.location)) + Count(Truthy(f.workMode))
    ensures Truthy(f.location) ==> NameParts(f)[Count(Truthy(f.jobType))] == f.location.value
    ensures NameParts(f.(searchQuery := q, experienceLevel := e)) == NameParts(f)
  {
  }

  function Count(b: bool): nat {
    if b then 1 else 0
  }

  /** The name of a form opened from a full-time search in Tirana with an empty
      work mode: the empty filter is skipped. */
  lemma AutoNameExample()
    ensures Text.Join(NameParts(InitialFilters(Some("q"), Some("full-time"), Some("Tirana"), Some(""), Some("senior"))),
                      NameSeparator) == "full-time - Tirana"
  {
    var parts := NameParts(InitialFilters(Some("q"), Some("full-time"), Some("Tirana"), Some(""), Some("senior")));
    assert parts == ["full-time", "Tirana"];
    assert Text.Join(parts[1..], NameSeparator) == "Tirana";
  }

  /** The record `handleSave` builds: the name as typed, the five filters as
      given, no minimum salary. */
  function AlertFrom(name: string, frequency: Frequency, isActive: bool, filters: Option<InitialFilters>): JobAlert {
    match filters
    case None => JobAlert(name, None, None, None, None, None, None, frequency, isActive)
    case Some(f) => JobAlert(name, f.searchQuery, f.jobType, f.location, f.workMode, f.experienceLevel, None, frequency, isActive)
  }

  /** `handleSave`'s decision: no alert for a name that trims to empty. */
  function SaveOutcome(name: string, frequency: Frequency, isActive: bool, filters: Option<InitialFilters>): Option<JobAlert> {
    if Text.Trim(name) == "" then None else Some(AlertFrom(name, frequency, isActive, filters))
  }

  /** A save is refused exactly for a blank name. An accepted one keeps the
      name untrimmed, copies every filter, the frequency and the active flag,
      and never sets a minimum salary. */
  lemma SaveOutcomeSpec(name: string, frequency: Frequency, isActive: bool, filters: Option<InitialFilters>)
    ensures SaveOutcome(name, frequency, isActive, filters).None? <==> Text.IsBlank(name)
    ensures SaveOutcome(name, frequency, isActive, filters).Some? ==>
      var a := SaveOutcome(name, frequency, isActive, filters).value;
      && a.alertName == name && a.minSalary == None
      && a.frequency == frequency && a.isActive == isActive
      && (filters.None? ==> a.searchQuery == a.jobType == a.location == a.workMode == a.experienceLevel == None)
      && (filters.Some? ==>
            && a.searchQuery == filters.value.searchQuery && a.jobType == filters.value.jobType
            && a.location == filters.value.location && a.workMode == filters.value.workMode
            && a.experienceLevel == filters.value.experienceLevel)
  {
    Text.TrimEmptyIffBlank(name);
  }

  class CreateJobAlertModal {
    var alertName: string
    var frequency: Frequency
    var isActive: bool
    var effects: seq<Effect>

    /** The empty form: no name, daily, active. */
    predicate IsReset()
      reads this
    {
      alertName == "" && frequency == Daily && isActive
    }

    constructor()
      ensures IsReset() && effects == []
    {
      alertName := "";
      frequency := Daily;
      isActive := true;
      effects := [];
    }

    /** The auto-name effect: when visible with filters, the truthy job type,
        location and work mode are pushed in order and, if any, joined with
        " - " into the name; otherwise the name stays. */
    method AutoName(visible: bool, filters: Option<InitialFilters>)
      modifies this
      ensures alertName == if visible && filters.Some? && NameParts(filters.value) != []
                           then Text.Join(NameParts(filters.value), NameSeparator)
                           else old(alertName)
      ensures frequency == old(frequency) && isActive == old(isActive) && effects == old(effects)
    {
      if visible && filters.Some? {
        var f := filters.value;
        var parts: seq<string> := [];
        if Truthy(f.jobType) {
          parts := parts + [f.jobType.value];
        }
        if Truthy(f.location) {
          parts := parts + [f.location.value];
        }
        if Truthy(f.workMode) {
          parts := parts + [f.workMode.value];
        }
        assert parts == NameParts(f);
        if |parts| > 0 {
          alertName := Text.Join(parts, NameSeparator);
        }
      }
    }

    /** `resetForm`. */
    method ResetForm()
      modifies this
      ensures IsReset() && effects == old(effects)
    {
      alertName := "";
      frequency := Daily;
      isActive := true;
    }

    /** `handleSave`: a blank name raises the error alert and keeps the form;
        otherwise the alert is passed to `onSave` and the form is reset. */
    method HandleSave(filters: Option<InitialFilters>)
      modifies this
      ensures SaveOutcome(old(alertName), old(frequency), old(isActive), filters).None? ==>
        && effects == old(effects) + [ErrorAlert(ErrorTitle)]
        && alertName == old(alertName) && frequency == old(frequency) && isActive == old(isActive)
      ensures SaveOutcome(old(alertName), old(frequency), old(isActive), filters).Some? ==>
        && effects == old(effects) + [Saved(SaveOutcome(old(alertName), old(frequency), old(isActive), filters).value)]
        && IsReset()
    {
      var name, freq, active := alertName, frequency, isActive;
      match SaveOutcome(name, freq, active, filters)
      case None =>
        effects := effects + [ErrorAlert(ErrorTitle)];
      case Some(alert) =>
        effects := effects + [Saved(alert)];
        alertName, frequency, isActive := "", Daily, true;
    }

    /** `handleClose`: reset, then `onClose`. */
    method HandleClose()
      modifies this
      ensures IsReset() && effects == old(effects) + [Closed]
    {
      ResetForm();
      effects := effects + [Closed];
    }
  }
}
