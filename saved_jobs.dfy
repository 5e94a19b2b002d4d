/** Saved jobs (lib/savedJobs.ts) over an abstract `saved_jobs` table: the set
    of (user, job) pairs, unique per pair.

    Each backend call either behaves as the table dictates or fails with an
    error given as an input (`fault`); the functions map the responses to the
    values the library returns. */
module SavedJobs {
  import opened Results

  datatype SavedRow = SavedRow(userId: string, jobId: string)

  /** A PostgREST error; only its `code` is read. */
  datatype DbError = DbError(code: string)

  /** PostgREST: `.single()` found no row. */
  const NotFound: string := "PGRST116"
  /** PostgreSQL `unique_violation`. */
  const UniqueViolation: string := "23505"

  // ---------------------------------------------------------------------------
  // Response mappings

  /** The answer of `.single()`: whether a row came back, and the error. */
  datatype SingleResponse = SingleResponse(found: bool, error: Option<DbError>)

  /** What the table answers to the lookup of one row, or the injected fault. */
  function LookupResponse(rows: set<SavedRow>, row: SavedRow, fault: Option<DbError>): SingleResponse {
    match fault
    case Some(e) => SingleResponse(false, Some(e))
    case None => if row in rows then SingleResponse(true, None) else SingleResponse(false, Some(DbError(NotFound)))
  }

  /** `isJobSaved`: an error other than "not found" is thrown and caught as
      `false`; otherwise whether a row came back. */
  function IsJobSavedFrom(r: SingleResponse): bool {
    if r.error.Some? && r.error.value.code != NotFound then false else r.found
  }

  /** `saveJob`: success, or failure with a duplicate-key error, reads as saved. */
  function SaveResultFrom(error: Option<DbError>): bool {
    error.None? || error.value.code == UniqueViolation
  }

  /** `unsaveJob`: saved unless the delete reported an error. */
  function UnsaveResultFrom(error: Option<DbError>): bool {
    error.None?
  }

  /** `getSavedJobs`: the rows returned, or `[]` on any error. */
  function SavedJobsFrom<T>(data: seq<T>, error: Option<DbError>): seq<T> {
    if error.Some? then [] else data
  }

  /** `getSavedJobsCount`: the count, 0 when it is null, and 0 on any error. */
  function CountFrom(count: Option<nat>, error: Option<DbError>): nat {
    if error.Some? then 0 else count.GetOr(0)
  }

  /** The lookup reports a saved job exactly when the row exists and no
      failure occurred; "not found" reads as `false`, as does any other error. */
  lemma IsJobSavedSpec(rows: set<SavedRow>, row: SavedRow, fault: Option<DbError>)
    ensures IsJobSavedFrom(LookupResponse(rows, row, fault)) <==> fault.None? && row in rows
    ensures IsJobSavedFrom(SingleResponse(false, Some(DbError(NotFound)))) == false
  {
  }

  /** Errors read as empty or zero results; otherwise the data passes through. */
  lemma ListingsSpec<T>(data: seq<T>, count: Option<nat>, error: Option<DbError>)
    ensures error.Some? ==> SavedJobsFrom(data, error) == [] && CountFrom(count, error) == 0
    ensures error.None? ==> SavedJobsFrom(data, error) == data
    ensures error.None? ==> CountFrom(count, error) == (if count.Some? then count.value else 0)
    ensures CountFrom(Some(2), None) == 2
  {
  }

  // ---------------------------------------------------------------------------
  // Table transitions

  /** The table after `saveJob` and what it returns: the insert adds the row;
      a duplicate is refused by the unique constraint, which reads as saved. */
  function SaveEffect(rows: set<SavedRow>, row: SavedRow, fault: Option<DbError>): (set<SavedRow>, bool) {
    match fault
    case Some(e) => (rows, SaveResultFrom(Some(e)))
    case None =>
      if row in rows then (rows, SaveResultFrom(Some(DbError(UniqueViolation))))
      else (rows + {row}, SaveResultFrom(None))
  }

  /** The table after `unsaveJob` and what it returns; deleting an absent row
      is not an error. */
  function UnsaveEffect(rows: set<SavedRow>, row: SavedRow, fault: Option<DbError>): (set<SavedRow>, bool) {
    match fault
    case Some(e) => (rows, UnsaveResultFrom(Some(e)))
    case None => (rows - {row}, UnsaveResultFrom(None))
  }

  /** `toggleSaveJob`: look the row up, then unsave when found and save otherwise. */
  function ToggleEffect(rows: set<SavedRow>, row: SavedRow, lookupFault: Option<DbError>, writeFault: Option<DbError>)
    : (set<SavedRow>, bool)
  {
    if IsJobSavedFrom(LookupResponse(rows, row, lookupFault)) then UnsaveEffect(rows, row, writeFault)
    else SaveEffect(rows, row, writeFault)
  }

  /** Without a failure the row is saved afterwards and the call reports
      success, whether or not it was saved before; other rows are untouched. */
  lemma SaveIsIdempotent(rows: set<SavedRow>, row: SavedRow)
    ensures SaveEffect(rows, row, None) == (rows + {row}, true)
    ensures SaveEffect(SaveEffect(rows, row, None).0, row, None) == SaveEffect(rows, row, None)
  {
    if row in rows {
      assert rows + {row} == rows;
    }
  }

  /** A failed save reports success only for a duplicate key, and leaves the table. */
  lemma SaveFailure(rows: set<SavedRow>, row: SavedRow, e: DbError)
    ensures SaveEffect(rows, row, Some(e)) == (rows, e.code == UniqueViolation)
  {
  }

  /** Without a failure the row is gone afterwards and the call reports success. */
  lemma UnsaveSpec(rows: set<SavedRow>, row: SavedRow, fault: Option<DbError>)
    ensures UnsaveEffect(rows, row, fault).1 <==> fault.None?
    ensures fault.None? ==> UnsaveEffect(rows, row, fault).0 == rows - {row}
    ensures fault.Some? ==> UnsaveEffect(rows, row, fault).0 == rows
  {
  }

  /** Without failures a toggle flips the row's membership, changes no other
      row and reports success; starting unsaved it inserts the row. */
  lemma ToggleFlips(rows: set<SavedRow>, row: SavedRow)
    ensures var (after, ok) := ToggleEffect(rows, row, None, None);
      && ok
      && (row in after <==> row !in rows)
      && (forall r :: r != row ==> (r in after <==> r in rows))
      && (row !in rows ==> after == rows + {row})
  {
  }

  /** A toggle whose lookup fails treats the job as unsaved and saves it; on a
      job that is already saved the insert hits the unique constraint, so the
      call reports success while the table does not change. */
  lemma ToggleAfterFailedLookup(rows: set<SavedRow>, row: SavedRow, e: DbError)
    requires row in rows
    ensures ToggleEffect(rows, row, Some(e), None) == (rows, true)
  {
  }

  // ---------------------------------------------------------------------------
  // The table as an object

  class SavedJobsTable {
    var rows: set<SavedRow>

    constructor(initial: set<SavedRow>)
      ensures rows == initial
    {
      rows := initial;
    }

    /** `isJobSaved(userId, jobId)`. */
    method IsJobSaved(userId: string, jobId: string, fault: Option<DbError>) returns (saved: bool)
      ensures saved <==> fault.None? && SavedRow(userId, jobId) in rows
    {
      IsJobSavedSpec(rows, SavedRow(userId, jobId), fault);
      saved := IsJobSavedFrom(LookupResponse(rows, SavedRow(userId, jobId), fault));
    }

    /** `saveJob(userId, jobId)`. */
    method SaveJob(userId: string, jobId: string, fault: Option<DbError>) returns (ok: bool)
      modifies this
      ensures (rows, ok) == SaveEffect(old(rows), SavedRow(userId, jobId), fault)
    {
      var row := SavedRow(userId, jobId);
      var error: Option<DbError>;
      if fault.Some? {
        error := fault;
      } else if row in rows {
        error := Some(DbError(UniqueViolation));
      } else {
        rows := rows + {row};
        error := None;
      }
      ok := SaveResultFrom(error);
    }

    /** `unsaveJob(userId, jobId)`. */
    method UnsaveJob(userId: string, jobId: string, fault: Option<DbError>) returns (ok: bool)
      modifies this
      ensures (rows, ok) == UnsaveEffect(old(rows), SavedRow(userId, jobId), fault)
    {
      if fault.None? {
        rows := rows - {SavedRow(userId, jobId)};
      }
      ok := UnsaveResultFrom(fault);
    }

    /** `toggleSaveJob(userId, jobId)`. */
    method ToggleSaveJob(userId: string, jobId: string, lookupFault: Option<DbError>, writeFault: Option<DbError>)
      returns (ok: bool)
      modifies this
      ensures (rows, ok) == ToggleEffect(old(rows), SavedRow(userId, jobId), lookupFault, writeFault)
    {
      var saved := IsJobSaved(userId, jobId, lookupFault);
      if saved {
        ok := UnsaveJob(userId, jobId, writeFault);
      } else {
        ok := SaveJob(userId, jobId, writeFault);
      }
    }

    /** `getSavedJobsCount(userId)`: the number of the user's rows. */
    method GetSavedJobsCount(userId: string, fault: Option<DbError>) returns (n: nat)
      ensures fault.Some? ==> n == 0
      ensures fault.None? ==> n == |set r | r in rows && r.userId == userId|
    {
      var count := |set r | r in rows && r.userId == userId|;
      n := CountFrom(Some(count), fault);
    }
  }
}
