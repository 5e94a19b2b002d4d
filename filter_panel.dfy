/** The filter panel (components/FilterPanel.tsx): the richer `FilterOptions`
    of the feed screen and the handlers that build the new options object the
    panel hands to `onFilterChange`. Each handler is a pure function from the
    current options to the new ones. */
module FilterPanel {
  import opened Results
  import Filters

  /** Work modes ("remote", "hybrid", "onsite") and experience levels
      ("entry", "mid", "senior", "executive") are plain strings in the source. */
  type WorkMode = string
  type ExperienceLevel = string

  datatype DatePosted = AnyTime | Last24h | ThisWeek | ThisMonth
  datatype PanelSort = Newest | Oldest | SalaryHigh | SalaryLow

  datatype SalaryRange = SalaryRange(min: int, max: int)

  datatype FilterOptions = FilterOptions(
    jobTypes: seq<Filters.JobType>,
    locations: seq<string>,
    workModes: seq<WorkMode>,
    experienceLevels: seq<ExperienceLevel>,
    salaryRange: Option<SalaryRange>,
    datePosted: DatePosted,
    sortBy: PanelSort)

  // ---------------------------------------------------------------------------
  // Toggling one value of a selection list

  /** `s.filter(t => t !== v)`. */
  function Remove<T(==)>(s: seq<T>, v: T): seq<T> {
    if s == [] then [] else (if s[0] == v then [] else [s[0]]) + Remove(s[1..], v)
  }

  /** `s.includes(v) ? s.filter(t => t !== v) : [...s, v]`. */
  function Toggle<T(==)>(s: seq<T>, v: T): seq<T> {
    if v in s then Remove(s, v) else s + [v]
  }

  /** Removal drops every occurrence of `v` and keeps every other value as
      often as it occurred. */
  lemma {:induction false} RemoveCount<T>(s: seq<T>, v: T)
    ensures forall x :: multiset(Remove(s, v))[x] == if x == v then 0 else multiset(s)[x]
  {
    if s != [] {
      RemoveCount(s[1..], v);
      assert s == [s[0]] + s[1..];
    }
  }

  /** Removing a value that does not occur changes nothing. */
  lemma {:induction false} RemoveAbsent<T>(s: seq<T>, v: T)
    requires v !in s
    ensures Remove(s, v) == s
  {
    if s != [] {
      RemoveAbsent(s[1..], v);
      assert s == [s[0]] + s[1..];
    }
  }

  lemma {:induction false} RemoveAppended<T>(s: seq<T>, v: T)
    requires v !in s
    ensures Remove(s + [v], v) == s
  {
    if s == [] {
      assert [] + [v] == [v];
    } else {
      assert (s + [v])[1..] == s[1..] + [v];
      RemoveAppended(s[1..], v);
      assert s == [s[0]] + s[1..];
    }
  }

  /** A toggle appends an absent value at the end and removes every occurrence
      of a present one, keeping every other value with its multiplicity. */
  lemma ToggleEffect<T>(s: seq<T>, v: T)
    ensures v !in s ==> Toggle(s, v) == s + [v]
    ensures v in s ==> forall x :: multiset(Toggle(s, v))[x] == if x == v then 0 else multiset(s)[x]
  {
    if v in s { RemoveCount(s, v); }
  }

  /** After a toggle the toggled value's membership is flipped and every other
      value's membership is unchanged. */
  lemma ToggleFlipsMembership<T>(s: seq<T>, v: T)
    ensures (v in Toggle(s, v)) == (v !in s)
    ensures forall x :: x != v ==> ((x in Toggle(s, v)) == (x in s))
  {
    if v in s {
      RemoveCount(s, v);
      assert multiset(Toggle(s, v))[v] == 0;
      forall x | x != v ensures (x in Toggle(s, v)) == (x in s) {
        assert multiset(Toggle(s, v))[x] == multiset(s)[x];
      }
    }
  }

  /** Toggling an absent value twice gives back the original list. */
  lemma ToggleTwiceAbsent<T>(s: seq<T>, v: T)
    requires v !in s
    ensures Toggle(Toggle(s, v), v) == s
  {
    assert v in s + [v];
    RemoveAppended(s, v);
  }

  /** Toggling a value of an empty selection gives the one-element list. */
  lemma ToggleFromEmpty()
    ensures Toggle([], Filters.FullTime) == [Filters.FullTime]
  {
  }

  // ---------------------------------------------------------------------------
  // The four toggle handlers

  function ToggleJobType(f: FilterOptions, t: Filters.JobType): FilterOptions {
    f.(jobTypes := Toggle(f.jobTypes, t))
  }

  function ToggleLocation(f: FilterOptions, location: string): FilterOptions {
    f.(locations := Toggle(f.locations, location))
  }

  function ToggleWorkMode(f: FilterOptions, mode: WorkMode): FilterOptions {
    f.(workModes := Toggle(f.workModes, mode))
  }

  function ToggleExperienceLevel(f: FilterOptions, level: ExperienceLevel): FilterOptions {
    f.(experienceLevels := Toggle(f.experienceLevels, level))
  }

  /** Each toggle flips the membership of its value in its own list and leaves
      every other list, and every other field, as it was. */
  lemma ToggleJobTypeEffect(f: FilterOptions, t: Filters.JobType)
    ensures var r := ToggleJobType(f, t);
      && (t in r.jobTypes) == (t !in f.jobTypes)
      && (forall x :: x != t ==> ((x in r.jobTypes) == (x in f.jobTypes)))
      && r.locations == f.locations && r.workModes == f.workModes
      && r.experienceLevels == f.experienceLevels && r.salaryRange == f.salaryRange
      && r.datePosted == f.datePosted && r.sortBy == f.sortBy
  {
    ToggleFlipsMembership(f.jobTypes, t);
  }

  lemma ToggleLocationEffect(f: FilterOptions, location: string)
    ensures var r := ToggleLocation(f, location);
      && (location in r.locations) == (location !in f.locations)
      && (forall x :: x != location ==> ((x in r.locations) == (x in f.locations)))
      && r.jobTypes == f.jobTypes && r.workModes == f.workModes
      && r.experienceLevels == f.experienceLevels && r.salaryRange == f.salaryRange
      && r.datePosted == f.datePosted && r.sortBy == f.sortBy
  {
    ToggleFlipsMembership(f.locations, location);
  }

  lemma ToggleWorkModeEffect(f: FilterOptions, mode: WorkMode)
    ensures var r := ToggleWorkMode(f, mode);
      && (mode in r.workModes) == (mode !in f.workModes)
      && (forall x :: x != mode ==> ((x in r.workModes) == (x in f.workModes)))
      && r.jobTypes == f.jobTypes && r.locations == f.locations
      && r.experienceLevels == f.experienceLevels && r.salaryRange == f.salaryRange
      && r.datePosted == f.datePosted && r.sortBy == f.sortBy
  {
    ToggleFlipsMembership(f.workModes, mode);
  }

  lemma ToggleExperienceLevelEffect(f: FilterOptions, level: ExperienceLevel)
    ensures var r := ToggleExperienceLevel(f, level);
      && (level in r.experienceLevels) == (level !in f.experienceLevels)
      && (forall x :: x != level ==> ((x in r.experienceLevels) == (x in f.experienceLevels)))
      && r.jobTypes == f.jobTypes && r.locations == f.locations
      && r.workModes == f.workModes && r.salaryRange == f.salaryRange
      && r.datePosted == f.datePosted && r.sortBy == f.sortBy
  {
    ToggleFlipsMembership(f.experienceLevels, level);
  }

  // ---------------------------------------------------------------------------
  // hasActiveFilters and clear-all

  predicate HasActiveFilters(f: FilterOptions) {
    |f.jobTypes| > 0 || |f.locations| > 0 || |f.workModes| > 0 || |f.experienceLevels| > 0
    || f.salaryRange != None || f.datePosted != AnyTime
  }

  /** The options with nothing selected, for a given sort order. */
  function Cleared(sortBy: PanelSort): FilterOptions {
    FilterOptions([], [], [], [], None, AnyTime, sortBy)
  }

  /** The "clear all" button is shown exactly when some filter is active. */
  predicate ClearAllShown(f: FilterOptions) {
    HasActiveFilters(f)
  }

  /** No filter is active exactly when the options are the cleared ones with
      the same sort order: the sort order never counts as a filter. */
  lemma NoActiveFiltersIffCleared(f: FilterOptions)
    ensures !HasActiveFilters(f) <==> f == Cleared(f.sortBy)
    ensures !ClearAllShown(f) <==> f == Cleared(f.sortBy)
  {
  }

  /** Choosing a sort order neither turns filters on nor off. */
  lemma SortNeverCounts(f: FilterOptions, s: PanelSort)
    ensures HasActiveFilters(SelectSort(f, s)) == HasActiveFilters(f)
  {
  }

  /** Adding a value to any selection makes a filter active. */
  lemma AddingActivates(f: FilterOptions, t: Filters.JobType, mode: WorkMode)
    ensures t !in f.jobTypes ==> HasActiveFilters(ToggleJobType(f, t))
    ensures mode !in f.workModes ==> HasActiveFilters(ToggleWorkMode(f, mode))
  {
  }

  // ---------------------------------------------------------------------------
  // Salary presets

  /** The four salary chips, in display order. */
  const Presets: seq<SalaryRange> :=
    [SalaryRange(0, 500), SalaryRange(500, 1000), SalaryRange(1000, 2000), SalaryRange(2000, 99999)]

  /** `filters.salaryRange?.min === range.min && filters.salaryRange?.max === range.max`. */
  predicate IsPresetSelected(f: FilterOptions, p: SalaryRange) {
    f.salaryRange.Some? && f.salaryRange.value.min == p.min && f.salaryRange.value.max == p.max
  }

  /** Pressing a chip clears the range when that chip is selected and selects it otherwise. */
  function PressPreset(f: FilterOptions, p: SalaryRange): FilterOptions {
    f.(salaryRange := if IsPresetSelected(f, p) then None else Some(p))
  }

  /** A chip is selected exactly when the current range is that chip's range. */
  lemma PresetSelectedIffEqual(f: FilterOptions, p: SalaryRange)
    ensures IsPresetSelected(f, p) <==> f.salaryRange == Some(p)
  {
  }

  /** The chips behave as a single choice: after a press either no chip is
      selected (the pressed one was) or exactly the pressed one is. Nothing
      but the salary range changes. */
  lemma PressPresetSingleChoice(f: FilterOptions, i: nat)
    requires i < |Presets|
    ensures var r := PressPreset(f, Presets[i]);
      && (IsPresetSelected(f, Presets[i]) ==>
            (r.salaryRange == None && forall j :: 0 <= j < |Presets| ==> !IsPresetSelected(r, Presets[j])))
      && (!IsPresetSelected(f, Presets[i]) ==>
            forall j :: 0 <= j < |Presets| ==> (IsPresetSelected(r, Presets[j]) <==> j == i))
      && r == f.(salaryRange := r.salaryRange)
  {
  }

  /** Pressing the same chip twice restores the options when none was selected. */
  lemma PressPresetTwice(f: FilterOptions, p: SalaryRange)
    requires f.salaryRange == None
    ensures PressPreset(PressPreset(f, p), p) == f
  {
  }

  // ---------------------------------------------------------------------------
  // Date-posted and sort choices

  function SelectDatePosted(f: FilterOptions, d: DatePosted): FilterOptions {
    f.(datePosted := d)
  }

  function SelectSort(f: FilterOptions, s: PanelSort): FilterOptions {
    f.(sortBy := s)
  }

  /** Each choice sets its own field, replaces nothing else and is idempotent. */
  lemma ChoicesReplaceOneField(f: FilterOptions, d: DatePosted, s: PanelSort)
    ensures SelectDatePosted(f, d).datePosted == d
    ensures SelectDatePosted(f, d) == f.(datePosted := d) && SelectDatePosted(SelectDatePosted(f, d), d) == SelectDatePosted(f, d)
    ensures SelectSort(f, s).sortBy == s
    ensures SelectSort(f, s) == f.(sortBy := s) && SelectSort(SelectSort(f, s), s) == SelectSort(f, s)
  {
  }
}
