/** The `logs` table: the audit row written when a meeting is deleted. */
module LogModel {
  import opened Base

  /** A log row holds exactly these four columns; meetingId and reason cannot be null. */
  datatype Log = Log(id: nat, meetingId: nat, deletedAt: Date, reason: string)

  /** The row `Log.create` inserts under the auto-increment key `id`; deletedAt defaults to the current time. */
  function NewLog(id: nat, meetingId: nat, deletedAt: Option<Date>, reason: string, now: Date): (l: Log)
    ensures l.id == id && l.meetingId == meetingId && l.reason == reason
    ensures deletedAt.None? ==> l.deletedAt == now
    ensures deletedAt.Some? ==> l.deletedAt == deletedAt.value
  {
    Log(id, meetingId, deletedAt.GetOr(now), reason)
  }
}
