/** The rows of the `hiring_cycle_steps`, `applications` and `jobs` tables as
    the hiring-cycle components see them. */
module HiringData {

  import opened Common

  /** A row of the `applications` table; `cumulative_marks` may be missing. */
  datatype Application = Application(id: Id, cumulativeMarks: Option<seq<int>>)

  /** An element of a step's `applications` column. The step-details view reads
      it both as an application record (`app.id`) and as a bare id
      (`applications.includes(appId)`), so both shapes are admitted. */
  datatype Entry = IdEntry(appId: Id) | RecordEntry(app: Application) {
    /** `entry.id`: a record's id; `undefined` on a bare id. */
    function IdField(): Option<Id> {
      match this
      case IdEntry(_) => None
      case RecordEntry(a) => Some(a.id)
    }
  }

  /** A row of `hiring_cycle_steps`. Each of the three id lists may be missing. */
  datatype Step = Step(
    name: string,
    sequenceOrder: int,
    applications: Option<seq<Entry>>,
    passedApplications: Option<seq<Id>>,
    failedApplications: Option<seq<Id>>)

  /** A row of `jobs`; only `open_positions` matters to the hiring logic. */
  datatype Job = Job(title: string, openPositions: Option<int>)

  /** `list || []` */
  function ListOr<T>(list: Option<seq<T>>): seq<T> {
    list.GetOr([])
  }
}
