/** Client-side job filtering and sorting (lib/filters.ts): `filterJobs`,
    `extractSalaryNumber` and `getUniqueLocations`. Everything here is a pure
    function over values; `filterJobs` works on a private copy of its input, so
    the caller's array is never changed (a Dafny `seq` cannot be). */
module Filters {
  import opened Text

  datatype JobType = FullTime | PartTime | Contract | Internship

  /** The fields of a job row that the filter reads. `createdAt` stands for
      `new Date(created_at).getTime()`. */
  datatype Job = Job(
    id: string,
    title: string,
    description: string,
    location: string,
    salary: string,
    jobType: JobType,
    createdAt: int)

  datatype SortBy = Newest | Oldest | Salary

  /** The filter options of lib/filters.ts (not the richer panel options). */
  datatype FilterOptions = FilterOptions(jobTypes: seq<JobType>, locations: seq<string>, sortBy: SortBy)

  // ---------------------------------------------------------------------------
  // The three filters

  /** `searchQuery.trim()` is non-empty, i.e. the query has a non-blank
      character (Text.TrimEmptyIffBlank); otherwise it constrains nothing. */
  predicate SearchActive(query: string) {
    !IsBlank(query)
  }

  /** The lower-cased, untrimmed query occurs in the lower-cased title,
      description or location. */
  predicate MatchesSearch(job: Job, query: string) {
    var q := ToLower(query);
    Contains(ToLower(job.title), q) || Contains(ToLower(job.description), q)
    || Contains(ToLower(job.location), q)
  }

  /** Some selected location, lower-cased, occurs in the lower-cased job location. */
  predicate MatchesSomeLocation(job: Job, locations: seq<string>) {
    exists i :: 0 <= i < |locations| && Contains(ToLower(job.location), ToLower(locations[i]))
  }

  /** A condition on one job; `Both` is the conjunction of two conditions. */
  datatype Criterion =
    | Always
    | SearchFor(query: string)
    | TypeIn(types: seq<JobType>)
    | LocationIn(locations: seq<string>)
    | Both(first: Criterion, second: Criterion)

  predicate Holds(c: Criterion, job: Job) {
    match c
    case Always => true
    case SearchFor(q) => MatchesSearch(job, q)
    case TypeIn(types) => job.jobType in types
    case LocationIn(locations) => MatchesSomeLocation(job, locations)
    case Both(c1, c2) => Holds(c1, job) && Holds(c2, job)
  }

  /** `Array.prototype.filter`: the jobs satisfying `c`, in input order. */
  function Select(jobs: seq<Job>, c: Criterion): seq<Job> {
    if jobs == [] then []
    else (if Holds(c, jobs[0]) then [jobs[0]] else []) + Select(jobs[1..], c)
  }

  /** The filter keeps every satisfying job as often as it occurs and drops the rest. */
  lemma {:induction false} SelectCount(jobs: seq<Job>, c: Criterion)
    ensures forall job :: multiset(Select(jobs, c))[job] == if Holds(c, job) then multiset(jobs)[job] else 0
  {
    if jobs != [] {
      SelectCount(jobs[1..], c);
      assert jobs == [jobs[0]] + jobs[1..];
    }
  }

  /** Each of the three stages of `filterJobs`, with the condition it applies
      (`Always` when the stage is skipped). */
  function SearchCriterion(query: string): Criterion {
    if SearchActive(query) then SearchFor(query) else Always
  }

  function TypeCriterion(f: FilterOptions): Criterion {
    if |f.jobTypes| > 0 then TypeIn(f.jobTypes) else Always
  }

  function LocationCriterion(f: FilterOptions): Criterion {
    if |f.locations| > 0 then LocationIn(f.locations) else Always
  }

  /** The three filters run one after the other, each skipped when inactive. */
  function Narrow(jobs: seq<Job>, query: string, f: FilterOptions): seq<Job> {
    var afterSearch := if SearchActive(query) then Select(jobs, SearchFor(query)) else jobs;
    var afterType := if |f.jobTypes| > 0 then Select(afterSearch, TypeIn(f.jobTypes)) else afterSearch;
    if |f.locations| > 0 then Select(afterType, LocationIn(f.locations)) else afterType
  }

  /** Whether `filterJobs` keeps a job: the conjunction of the three filters,
      each of which constrains nothing when inactive. */
  predicate Keep(job: Job, query: string, f: FilterOptions) {
    (SearchActive(query) ==> MatchesSearch(job, query))
    && (|f.jobTypes| > 0 ==> job.jobType in f.jobTypes)
    && (|f.locations| > 0 ==> MatchesSomeLocation(job, f.locations))
  }

  function KeepCriterion(query: string, f: FilterOptions): (c: Criterion)
    ensures forall job :: Holds(c, job) == Keep(job, query, f)
  {
    var c := Both(Both(SearchCriterion(query), TypeCriterion(f)), LocationCriterion(f));
    forall job ensures Holds(c, job) == Keep(job, query, f) {
      assert Holds(SearchCriterion(query), job) == (SearchActive(query) ==> MatchesSearch(job, query));
      assert Holds(TypeCriterion(f), job) == (|f.jobTypes| > 0 ==> job.jobType in f.jobTypes);
      assert Holds(LocationCriterion(f), job) == (|f.locations| > 0 ==> MatchesSomeLocation(job, f.locations));
    }
    c
  }

  lemma {:induction false} SelectAlways(jobs: seq<Job>)
    ensures Select(jobs, Always) == jobs
  {
    if jobs != [] {
      SelectAlways(jobs[1..]);
    }
  }

  /** Filtering twice is filtering once by the conjunction. */
  lemma {:induction false} SelectTwice(jobs: seq<Job>, c1: Criterion, c2: Criterion)
    ensures Select(Select(jobs, c1), c2) == Select(jobs, Both(c1, c2))
  {
    if jobs != [] {
      SelectTwice(jobs[1..], c1, c2);
      var rest := Select(jobs[1..], c1);
      if Holds(c1, jobs[0]) {
        var once := [jobs[0]] + rest;
        assert Select(jobs, c1) == once;
        assert once[0] == jobs[0] && once[1..] == rest;
        assert Select(once, c2) == (if Holds(c2, jobs[0]) then [jobs[0]] else []) + Select(rest, c2);
      } else {
        assert Select(jobs, c1) == rest;
      }
    }
  }

  lemma SelectMaybe(jobs: seq<Job>, active: bool, c: Criterion)
    ensures (if active then Select(jobs, c) else jobs) == Select(jobs, if active then c else Always)
  {
    if !active { SelectAlways(jobs); }
  }

  /** The sequential stages of `filterJobs` are one conjunctive filter. */
  lemma NarrowIsConjunction(jobs: seq<Job>, query: string, f: FilterOptions)
    ensures Narrow(jobs, query, f) == Select(jobs, KeepCriterion(query, f))
  {
    var s1 := if SearchActive(query) then Select(jobs, SearchFor(query)) else jobs;
    SelectMaybe(jobs, SearchActive(query), SearchFor(query));
    var s2 := if |f.jobTypes| > 0 then Select(s1, TypeIn(f.jobTypes)) else s1;
    SelectMaybe(s1, |f.jobTypes| > 0, TypeIn(f.jobTypes));
    SelectTwice(jobs, SearchCriterion(query), TypeCriterion(f));
    SelectMaybe(s2, |f.locations| > 0, LocationIn(f.locations));
    SelectTwice(jobs, Both(SearchCriterion(query), TypeCriterion(f)), LocationCriterion(f));
  }

  // ---------------------------------------------------------------------------
  // Salary figure

  /** The length of the run of digits at the start of `s`. */
  function LeadingDigits(s: string): (n: nat)
    ensures n <= |s| && AllDigits(s[..n]) && (n < |s| ==> !IsDigit(s[n]))
  {
    if s == [] || !IsDigit(s[0]) then 0
    else
      var n := LeadingDigits(s[1..]);
      assert s[..n + 1] == [s[0]] + s[1..][..n];
      n + 1
  }

  /** `salary.match(/\d+/g)` followed by `parseInt` of each match: the values of
      the maximal runs of ASCII digits, left to right. */
  function Numbers(s: string): seq<nat>
    decreases |s|
  {
    if s == [] then []
    else if !IsDigit(s[0]) then Numbers(s[1..])
    else
      var n := LeadingDigits(s);
      [DecimalValue(s[..n])] + Numbers(s[n..])
  }

  /** `extractSalaryNumber`: 0 without a number, the number when there is one,
      the mean of the first two otherwise. */
  function ExtractSalaryNumber(salary: string): real {
    var numbers := Numbers(salary);
    if |numbers| == 0 then 0.0
    else if |numbers| == 1 then numbers[0] as real
    else (numbers[0] + numbers[1]) as real / 2.0
  }

  predicate NoDigits(s: string) {
    forall i :: 0 <= i < |s| ==> !IsDigit(s[i])
  }

  /** Text without digits contributes no number. */
  lemma {:induction false} NumbersSkip(text: string, rest: string)
    requires NoDigits(text)
    ensures Numbers(text + rest) == Numbers(rest)
    decreases |text|
  {
    if text != [] {
      var s := text + rest;
      assert s != [] && s[0] == text[0] && !IsDigit(s[0]);
      assert s[1..] == text[1..] + rest;
      NumbersSkip(text[1..], rest);
    } else {
      assert text + rest == rest;
    }
  }

  /** A maximal digit run contributes its value. */
  lemma NumbersRun(run: string, rest: string)
    requires run != [] && AllDigits(run)
    requires rest == [] || !IsDigit(rest[0])
    ensures Numbers(run + rest) == [DecimalValue(run)] + Numbers(rest)
  {
    var s := run + rest;
    LeadingRun(run, rest);
    assert s[..|run|] == run && s[|run|..] == rest;
  }

  lemma {:induction false} LeadingRun(run: string, rest: string)
    requires AllDigits(run)
    requires rest == [] || !IsDigit(rest[0])
    ensures LeadingDigits(run + rest) == |run|
    decreases |run|
  {
    if run != [] {
      assert (run + rest)[1..] == run[1..] + rest;
      LeadingRun(run[1..], rest);
    } else {
      assert run + rest == rest;
    }
  }

  /** A string with no digit gives 0. */
  lemma SalaryWithoutNumber(salary: string)
    requires NoDigits(salary)
    ensures ExtractSalaryNumber(salary) == 0.0
  {
    NumbersSkip(salary, "");
    assert salary + "" == salary;
  }

  /** A string with exactly one digit run gives that run's value. */
  lemma SalaryOfOneNumber(before: string, run: string, after: string)
    requires NoDigits(before) && NoDigits(after)
    requires run != [] && AllDigits(run)
    ensures ExtractSalaryNumber(before + run + after) == DecimalValue(run) as real
  {
    NumbersSkip(before, run + after);
    NumbersRun(run, after);
    NumbersSkip(after, "");
    assert after + "" == after;
    assert before + run + after == before + (run + after);
  }

  /** Two digit runs separated by non-digits give the mean of the two, whatever follows. */
  lemma SalaryOfRange(before: string, low: string, between: string, high: string, after: string)
    requires NoDigits(before) && between != [] && NoDigits(between)
    requires low != [] && AllDigits(low) && high != [] && AllDigits(high)
    requires after == [] || !IsDigit(after[0])
    ensures ExtractSalaryNumber(before + low + between + high + after)
         == (DecimalValue(low) + DecimalValue(high)) as real / 2.0
  {
    var tail2 := high + after;
    var tail1 := between + tail2;
    var tail0 := low + tail1;
    assert before + low + between + high + after == before + tail0;
    NumbersSkip(before, tail0);
    NumbersRun(low, tail1);
    NumbersSkip(between, tail2);
    NumbersRun(high, after);
  }

  lemma Decimal1000()
    ensures DecimalValue("1000") == 1000
  {
    assert "1000"[..3] == "100" && "100"[..2] == "10" && "10"[..1] == "1";
  }

  lemma Decimal1500()
    ensures DecimalValue("1500") == 1500
  {
    assert "1500"[..3] == "150" && "150"[..2] == "15" && "15"[..1] == "1";
  }

  lemma Decimal2000()
    ensures DecimalValue("2000") == 2000
  {
    assert "2000"[..3] == "200" && "200"[..2] == "20" && "20"[..1] == "2";
  }

  lemma RangeSalaryExample()
    ensures ExtractSalaryNumber("€1000-1500") == 1250.0
  {
    Decimal1000();
    Decimal1500();
    SalaryOfRange("€", "1000", "-", "1500", "");
    assert "€" + "1000" + "-" + "1500" + "" == "€1000-1500";
  }

  lemma SingleSalaryExample()
    ensures ExtractSalaryNumber("€2000") == 2000.0
  {
    Decimal2000();
    SalaryOfOneNumber("€", "2000", "");
    assert "€" + "2000" + "" == "€2000";
  }

  /** The two examples in the documentation comment of `extractSalaryNumber`. */
  lemma DocumentedSalaryExamples()
    ensures ExtractSalaryNumber("€1000-1500") == 1250.0
    ensures ExtractSalaryNumber("€2000") == 2000.0
  {
    RangeSalaryExample();
    SingleSalaryExample();
  }

  // ---------------------------------------------------------------------------
  // Stable sort

  /** The comparator of `filterJobs` as a rank: the sort puts lower ranks first.
      `newest` compares b - a on timestamps, `oldest` a - b, `salary` the
      salary figures b - a. */
  function Rank(order: SortBy, job: Job): real {
    match order
    case Newest => -(job.createdAt as real)
    case Oldest => job.createdAt as real
    case Salary => -ExtractSalaryNumber(job.salary)
  }

  /** `Rank` for one sort option, as the key the sort below orders by. */
  function RankOf(order: SortBy): Job -> real {
    job => Rank(order, job)
  }

  /** The sort is stated for any rank function `key`: lower keys come first. */
  predicate SortedByRank(s: seq<Job>, key: Job -> real) {
    forall i, j :: 0 <= i < j < |s| ==> key(s[i]) <= key(s[j])
  }

  /** The jobs of rank `k`, in order: a stable sort keeps each of these intact. */
  function RankClass(s: seq<Job>, key: Job -> real, k: real): seq<Job> {
    if s == [] then [] else (if key(s[0]) == k then [s[0]] else []) + RankClass(s[1..], key, k)
  }

  /** Inserts `x` before the first job whose rank is not below its own. */
  function Insert(x: Job, s: seq<Job>, key: Job -> real): seq<Job> {
    if s == [] || key(x) <= key(s[0]) then [x] + s
    else [s[0]] + Insert(x, s[1..], key)
  }

  /** `Array.prototype.sort` with a comparator, which is stable (ECMAScript 2019). */
  function StableSort(s: seq<Job>, key: Job -> real): seq<Job> {
    if s == [] then [] else Insert(s[0], StableSort(s[1..], key), key)
  }

  lemma {:induction false} InsertMultiset(x: Job, s: seq<Job>, key: Job -> real)
    ensures multiset(Insert(x, s, key)) == multiset(s) + multiset{x}
  {
    if s != [] && key(x) > key(s[0]) {
      InsertMultiset(x, s[1..], key);
      assert s == [s[0]] + s[1..];
    }
  }

  /** The result of an insertion starts with `x` or with the old first job. */
  lemma InsertHead(x: Job, s: seq<Job>, key: Job -> real)
    ensures Insert(x, s, key) != []
    ensures Insert(x, s, key)[0] == x || (s != [] && Insert(x, s, key)[0] == s[0])
  {
  }

  lemma {:induction false} InsertSorted(x: Job, s: seq<Job>, key: Job -> real)
    requires SortedByRank(s, key)
    ensures SortedByRank(Insert(x, s, key), key)
  {
    if s != [] && key(x) > key(s[0]) {
      var rest := Insert(x, s[1..], key);
      InsertSorted(x, s[1..], key);
      InsertHead(x, s[1..], key);
      assert key(s[0]) <= key(rest[0]) by {
        if |s| > 1 { assert s[1..][0] == s[1]; }
      }
      SortedCons(s[0], rest, key);
    }
  }

  /** A job ranked no higher than the head of a sorted list can go in front of it. */
  lemma SortedCons(a: Job, rest: seq<Job>, key: Job -> real)
    requires SortedByRank(rest, key)
    requires rest != [] ==> key(a) <= key(rest[0])
    ensures SortedByRank([a] + rest, key)
  {
    var r := [a] + rest;
    forall i, j | 0 <= i < j < |r| ensures key(r[i]) <= key(r[j]) {
      if i == 0 {
        assert r[j] == rest[j - 1];
        if j > 1 { assert key(rest[0]) <= key(rest[j - 1]); }
      } else {
        assert r[i] == rest[i - 1] && r[j] == rest[j - 1];
      }
    }
  }

  /** Insertion puts `x` ahead of every job of equal rank, so each rank class of
      the result is the old class with `x` in front when `x` belongs to it. */
  lemma {:induction false} InsertClass(x: Job, s: seq<Job>, key: Job -> real, k: real)
    ensures RankClass(Insert(x, s, key), key, k)
         == (if key(x) == k then [x] else []) + RankClass(s, key, k)
  {
    if s == [] || key(x) <= key(s[0]) {
      RankClassCons(x, s, key, k);
    } else {
      var rest := Insert(x, s[1..], key);
      InsertClass(x, s[1..], key, k);
      RankClassCons(s[0], rest, key, k);
      RankClassCons(s[0], s[1..], key, k);
      assert s == [s[0]] + s[1..];
      assert Insert(x, s, key) == [s[0]] + rest;
      // `x` and `s[0]` have different ranks, so at most one of them is in the
      // class, and the two prefixes commute.
      var cx := if key(x) == k then [x] else [];
      var c0 := if key(s[0]) == k then [s[0]] else [];
      var tail := RankClass(s[1..], key, k);
      assert cx == [] || c0 == [];
      assert c0 + (cx + tail) == cx + (c0 + tail);
    }
  }

  lemma RankClassCons(a: Job, rest: seq<Job>, key: Job -> real, k: real)
    ensures RankClass([a] + rest, key, k) == (if key(a) == k then [a] else []) + RankClass(rest, key, k)
  {
    assert ([a] + rest)[0] == a && ([a] + rest)[1..] == rest;
  }

  /** The sort orders by rank, permutes its input, and keeps jobs of equal rank
      in their input order. */
  lemma {:induction false} StableSortCorrect(s: seq<Job>, key: Job -> real)
    ensures SortedByRank(StableSort(s, key), key)
    ensures multiset(StableSort(s, key)) == multiset(s)
    ensures forall k :: RankClass(StableSort(s, key), key, k) == RankClass(s, key, k)
  {
    if s != [] {
      var rest := StableSort(s[1..], key);
      StableSortCorrect(s[1..], key);
      InsertSorted(s[0], rest, key);
      InsertMultiset(s[0], rest, key);
      assert s == [s[0]] + s[1..];
      forall k ensures RankClass(StableSort(s, key), key, k) == RankClass(s, key, k) {
        InsertClass(s[0], rest, key, k);
      }
    }
  }

  // ---------------------------------------------------------------------------
  // filterJobs

  /** `filterJobs(jobs, searchQuery, filters)`: narrow, then sort. */
  function FilterJobs(jobs: seq<Job>, query: string, f: FilterOptions): seq<Job> {
    StableSort(Narrow(jobs, query, f), RankOf(f.sortBy))
  }

  /** `filterJobs` keeps exactly the jobs passing all three filters, each as
      often as in the input, and nothing that was not in the input. */
  lemma FilterJobsKeeps(jobs: seq<Job>, query: string, f: FilterOptions)
    ensures forall job :: multiset(FilterJobs(jobs, query, f))[job]
                        == if Keep(job, query, f) then multiset(jobs)[job] else 0
    ensures forall job :: job in FilterJobs(jobs, query, f) ==> job in jobs
  {
    var c, n, r := KeepCriterion(query, f), Narrow(jobs, query, f), FilterJobs(jobs, query, f);
    NarrowIsConjunction(jobs, query, f);
    SelectCount(jobs, c);
    StableSortCorrect(n, RankOf(f.sortBy));
    assert multiset(r) == multiset(Select(jobs, c));
    forall job ensures multiset(r)[job] == if Keep(job, query, f) then multiset(jobs)[job] else 0 {
      assert Holds(c, job) == Keep(job, query, f);
    }
    forall job | job in r ensures job in jobs {
      assert multiset(r)[job] > 0;
    }
  }

  /** `filterJobs` orders its result as the selected sort asks. */
  lemma FilterJobsOrder(jobs: seq<Job>, query: string, f: FilterOptions)
    ensures var r := FilterJobs(jobs, query, f);
      && (f.sortBy == Newest ==> forall i, j :: 0 <= i < j < |r| ==> r[i].createdAt >= r[j].createdAt)
      && (f.sortBy == Oldest ==> forall i, j :: 0 <= i < j < |r| ==> r[i].createdAt <= r[j].createdAt)
      && (f.sortBy == Salary ==>
            forall i, j :: 0 <= i < j < |r| ==> ExtractSalaryNumber(r[i].salary) >= ExtractSalaryNumber(r[j].salary))
  {
    var r := FilterJobs(jobs, query, f);
    StableSortCorrect(Narrow(jobs, query, f), RankOf(f.sortBy));
    assert forall i, j :: 0 <= i < j < |r| ==> RankOf(f.sortBy)(r[i]) <= RankOf(f.sortBy)(r[j]);
  }

  /** Jobs that tie under the sort keep their input order. */
  lemma FilterJobsStable(jobs: seq<Job>, query: string, f: FilterOptions, k: real)
    ensures RankClass(FilterJobs(jobs, query, f), RankOf(f.sortBy), k)
         == RankClass(Select(jobs, KeepCriterion(query, f)), RankOf(f.sortBy), k)
  {
    NarrowIsConjunction(jobs, query, f);
    StableSortCorrect(Narrow(jobs, query, f), RankOf(f.sortBy));
  }

  // ---------------------------------------------------------------------------
  // getUniqueLocations

  function Locations(jobs: seq<Job>): (r: seq<string>)
    ensures |r| == |jobs| && forall i :: 0 <= i < |jobs| ==> r[i] == jobs[i].location
  {
    seq(|jobs|, i requires 0 <= i < |jobs| => jobs[i].location)
  }

  predicate NoDuplicates(s: seq<string>) {
    forall i, j :: 0 <= i < j < |s| ==> s[i] != s[j]
  }

  /** `Array.from(new Set(s))`: first occurrences, in insertion order. */
  function Distinct(s: seq<string>): (r: seq<string>)
    ensures NoDuplicates(r)
    ensures forall x :: x in r <==> x in s
  {
    if s == [] then []
    else
      var d := Distinct(s[..|s| - 1]);
      assert s == s[..|s| - 1] + [s[|s| - 1]];
      if s[|s| - 1] in d then d else d + [s[|s| - 1]]
  }

  predicate StrictlySorted(s: seq<string>) {
    forall i, j :: 0 <= i < j < |s| ==> LexLess(s[i], s[j])
  }

  function InsertLex(x: string, s: seq<string>): (r: seq<string>)
    requires StrictlySorted(s) && x !in s
    ensures StrictlySorted(r)
    ensures forall y :: y in r <==> y == x || y in s
  {
    if s == [] then [x]
    else if LexLess(x, s[0]) then
      forall j | 0 < j < |s| ensures LexLess(x, s[j]) {
        LexLessTransitive(x, s[0], s[j]);
      }
      [x] + s
    else
      LexLessTotal(x, s[0]);
      var r := InsertLex(x, s[1..]);
      assert forall y :: y in r ==> LexLess(s[0], y);
      [s[0]] + r
  }

  function SortLex(s: seq<string>): (r: seq<string>)
    requires NoDuplicates(s)
    ensures StrictlySorted(r)
    ensures forall y :: y in r <==> y in s
  {
    if s == [] then []
    else
      assert s == [s[0]] + s[1..];
      InsertLex(s[0], SortLex(s[1..]))
  }

  /** `getUniqueLocations`: every job location once, in lexicographic order. */
  function GetUniqueLocations(jobs: seq<Job>): (r: seq<string>)
    ensures StrictlySorted(r) && NoDuplicates(r)
    ensures forall x :: x in r <==> exists i :: 0 <= i < |jobs| && jobs[i].location == x
  {
    var locations := Locations(jobs);
    var r := SortLex(Distinct(locations));
    forall i, j | 0 <= i < j < |r| ensures r[i] != r[j] {
      LexLessIrreflexive(r[i]);
    }
    forall x ensures x in r <==> exists i :: 0 <= i < |jobs| && jobs[i].location == x {
      if x in locations {
        var i :| 0 <= i < |locations| && locations[i] == x;
        assert jobs[i].location == x;
      }
    }
    r
  }

  lemma HeadIsMember(s: seq<string>)
    ensures s != [] ==> s[0] in s
  {
  }

  /** A strictly sorted list is determined by its elements, so the result of
      `getUniqueLocations` does not depend on how the set is enumerated. */
  lemma {:induction false} StrictlySortedUnique(a: seq<string>, b: seq<string>)
    requires StrictlySorted(a) && StrictlySorted(b)
    requires forall x :: x in a <==> x in b
    ensures a == b
  {
    if a != [] && b != [] {
      assert a[0] in a && b[0] in b;
      if a[0] != b[0] {
        var k :| 0 <= k < |b| && b[k] == a[0];
        var m :| 0 <= m < |a| && a[m] == b[0];
        assert k > 0 && m > 0;
        assert LexLess(b[0], a[0]) && LexLess(a[0], b[0]);
        LexLessAsymmetric(a[0], b[0]);
      }
      forall x ensures x in a[1..] <==> x in b[1..] {
        if x in a[1..] {
          var i :| 0 <= i < |a[1..]| && a[1..][i] == x;
          assert a[i + 1] == x && LexLess(a[0], x);
          LexLessIrreflexive(x);
          assert x in b;
          var j :| 0 <= j < |b| && b[j] == x;
          assert j != 0 && b[1..][j - 1] == x;
        }
        if x in b[1..] {
          var i :| 0 <= i < |b[1..]| && b[1..][i] == x;
          assert b[i + 1] == x && LexLess(b[0], x);
          LexLessIrreflexive(x);
          assert x in a;
          var j :| 0 <= j < |a| && a[j] == x;
          assert j != 0 && a[1..][j - 1] == x;
        }
      }
      StrictlySortedUnique(a[1..], b[1..]);
      assert a == [a[0]] + a[1..] && b == [b[0]] + b[1..];
    } else {
      HeadIsMember(a);
      HeadIsMember(b);
    }
  }
}
