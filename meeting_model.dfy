/** The `meetings` table: the row shape, its non-null columns and the status default. */
module MeetingModel {
  import opened Base

  const Active: string := "active"
  const Cancelled: string := "cancelled"

  /**
   * A stored meeting. Title, dates and status are plain values, so none of them
   * can be null; description and document may be missing. There is no
   * participants column.
   */
  datatype Meeting = Meeting(
    id: nat,
    title: string,
    description: Option<string>,
    startDate: Date,
    endDate: Date,
    document: Option<string>,
    status: string)

  /** What `Meeting.create` is handed: any attribute may be missing. */
  datatype CreationAttributes = CreationAttributes(
    title: Option<string>,
    description: Option<string>,
    startDate: Option<Date>,
    endDate: Option<Date>,
    document: Option<string>,
    status: Option<string>)

  /**
   * The row `Meeting.create` inserts under the auto-increment key `id`. A missing
   * title or date fails validation, which the handlers report as a server
   * error; description and document are optional; status defaults to "active".
   */
  function CreateRow(id: nat, a: CreationAttributes): (r: Result<Meeting>)
    ensures r.Ok? <==> a.title.Some? && a.startDate.Some? && a.endDate.Some?
    ensures r.Err? ==> r.error == ServerError
    ensures r.Ok? ==> r.value.id == id
    ensures r.Ok? && a.status.None? ==> r.value.status == Active
    ensures r.Ok? ==> r.value.description == a.description && r.value.document == a.document
  {
    if a.title.None? || a.startDate.None? || a.endDate.None? then Err(ServerError)
    else Ok(Meeting(id, a.title.value, a.description, a.startDate.value, a.endDate.value,
                    a.document, a.status.GetOr(Active)))
  }
}
