/**
 * The meeting handlers: create, list, read, update, delete and cancel over the
 * `meetings` table, with the `logs` table and the shared mail transport.
 */
module MeetingController {
  import opened Base
  import opened Mailer
  import opened MeetingModel
  import opened LogModel

  type Table = map<nat, Meeting>

  /** The reason every deletion log carries. */
  const DeleteReason: string := "Kullanıcı tarafından silindi"
  /** The one address the create and delete notices go to. */
  const NoticeAddress: string := "ucankalecansu@gmail.com"

  /**
   * The fields of a create or update request body. A date is `None` when it is
   * absent or sent empty. Status and participants may be sent but create ignores
   * them, and update ignores participants.
   */
  datatype MeetingBody = MeetingBody(
    title: Option<string>,
    description: Option<string>,
    startDate: Option<Date>,
    endDate: Option<Date>,
    status: Option<string>,
    participants: Option<string>)

  /** What createMeeting hands to `Meeting.create`: the body's fields, the upload, and status "active". */
  function CreationFor(body: MeetingBody, file: Option<string>): CreationAttributes {
    CreationAttributes(body.title, body.description, body.startDate, body.endDate, file, Some(Active))
  }

  /**
   * The notice createMeeting sends about a new meeting: to the one fixed address,
   * reporting the dates and the description, or "Yok" when there is none.
   */
  function CreatedMail(m: Meeting): (mail: Mail)
    ensures mail.to == [NoticeAddress] && mail.subject == "Yeni Toplantı Oluşturuldu: " + m.title
    ensures mail.body.MeetingNotice? && mail.body.startDate == m.startDate && mail.body.endDate == m.endDate
    ensures Truthy(m.description) ==> mail.body.description == m.description.value
    ensures !Truthy(m.description) ==> mail.body.description == "Yok"
  {
    Mail([NoticeAddress], "Yeni Toplantı Oluşturuldu: " + m.title,
         MeetingNotice(m.startDate, m.endDate, OrElse(m.description, "Yok")))
  }

  /** The notice deleteMeeting sends about a removed meeting: the same report as on creation, under its own subject. */
  function DeletedMail(m: Meeting): (mail: Mail)
    ensures mail.to == [NoticeAddress] && mail.subject == "Toplantı Silindi: " + m.title
    ensures mail.body == CreatedMail(m).body
  {
    Mail([NoticeAddress], "Toplantı Silindi: " + m.title,
         MeetingNotice(m.startDate, m.endDate, OrElse(m.description, "Yok")))
  }

  /** `findByPk`, answering 404 when no row has the key. */
  function Find(t: Table, id: nat): (r: Result<Meeting>)
    ensures r.Ok? <==> id in t
    ensures r.Ok? ==> r.value == t[id]
    ensures r.Err? ==> r.error == NotFound
  {
    if id in t then Ok(t[id]) else Err(NotFound)
  }

  /** Whether an update body carries any value that would overwrite a field. */
  predicate Supplies(body: MeetingBody) {
    Truthy(body.title) || Truthy(body.description) || body.startDate.Some?
    || body.endDate.Some? || Truthy(body.status)
  }

  /**
   * The row after updateMeeting: a field is overwritten with a truthy supplied
   * value, and a field that changes has taken the supplied value; an upload
   * replaces the document and nothing else changes it; the id never changes.
   */
  function Merge(m: Meeting, body: MeetingBody, file: Option<string>): (r: Meeting)
    ensures r.id == m.id
    ensures Truthy(body.title) ==> r.title == body.title.value
    ensures r.title != m.title ==> Truthy(body.title) && r.title == body.title.value
    ensures Truthy(body.description) ==> r.description == body.description
    ensures r.description != m.description ==> Truthy(body.description) && r.description == body.description
    ensures body.startDate.Some? ==> r.startDate == body.startDate.value
    ensures r.startDate != m.startDate ==> body.startDate.Some?
    ensures body.endDate.Some? ==> r.endDate == body.endDate.value
    ensures r.endDate != m.endDate ==> body.endDate.Some?
    ensures Truthy(body.status) ==> r.status == body.status.value
    ensures r.status != m.status ==> Truthy(body.status) && r.status == body.status.value
    ensures file.Some? ==> r.document == file
    ensures r.document != m.document ==> file.Some?
  {
    m.(document := if file.Some? then file else m.document,
       title := OrElse(body.title, m.title),
       description := if Truthy(body.description) then body.description else m.description,
       startDate := body.startDate.GetOr(m.startDate),
       endDate := body.endDate.GetOr(m.endDate),
       status := OrElse(body.status, m.status))
  }

  /** The row after cancelMeeting: status "cancelled", every other field as it was. */
  function Cancel(m: Meeting): (c: Meeting)
    ensures c.status == Cancelled
    ensures c.(status := m.status) == m
  {
    m.(status := Cancelled)
  }

  /** The table after updateMeeting on `id`. */
  function UpdateIn(t: Table, id: nat, body: MeetingBody, file: Option<string>): Table {
    if id in t then t[id := Merge(t[id], body, file)] else t
  }

  /** The table after cancelMeeting on `id`. */
  function CancelIn(t: Table, id: nat): Table {
    if id in t then t[id := Cancel(t[id])] else t
  }

  /** The table after deleteMeeting on `id`. */
  function DeleteIn(t: Table, id: nat): Table {
    t - {id}
  }

  /**
   * Creation succeeds exactly when the body gives a title and both dates; whatever
   * the body says about status, the meeting is active, and it holds the body's
   * fields and the upload.
   */
  lemma CreatedIsActive(id: nat, body: MeetingBody, file: Option<string>)
    ensures var r := CreateRow(id, CreationFor(body, file));
            && (r.Ok? <==> body.title.Some? && body.startDate.Some? && body.endDate.Some?)
            && (r.Err? ==> r.error == ServerError)
            && (r.Ok? ==> && r.value.id == id && r.value.status == Active && r.value.document == file
                          && r.value.title == body.title.value && r.value.description == body.description
                          && r.value.startDate == body.startDate.value && r.value.endDate == body.endDate.value)
  {
  }

  /** An update that supplies nothing truthy and no file leaves the row as it was. */
  lemma MergeNothing(m: Meeting, body: MeetingBody)
    requires !Supplies(body)
    ensures Merge(m, body, None) == m
  {
  }

  /** Sending the same update twice gives the same row as sending it once. */
  lemma MergeTwice(m: Meeting, body: MeetingBody, file: Option<string>)
    ensures Merge(Merge(m, body, file), body, file) == Merge(m, body, file)
  {
  }

  /** Cancelling twice leaves the same table as cancelling once. */
  lemma CancelTwice(t: Table, id: nat)
    ensures CancelIn(CancelIn(t, id), id) == CancelIn(t, id)
  {
  }

  /** Once a meeting is deleted, reading it answers 404. */
  lemma FindAfterDelete(t: Table, id: nat)
    ensures Find(DeleteIn(t, id), id) == Err(NotFound)
  {
  }

  /** Update, cancel and delete on one id leave every other row as it was. */
  lemma OnlyAddressedRowChanges(t: Table, id: nat, other: nat, body: MeetingBody, file: Option<string>)
    requires other != id
    ensures Find(UpdateIn(t, id, body, file), other) == Find(t, other)
    ensures Find(CancelIn(t, id), other) == Find(t, other)
    ensures Find(DeleteIn(t, id), other) == Find(t, other)
  {
  }

  /** Update, cancel and delete on an unknown id leave the table as it was. */
  lemma UnknownIdChangesNothing(t: Table, id: nat, body: MeetingBody, file: Option<string>)
    requires id !in t
    ensures UpdateIn(t, id, body, file) == t && CancelIn(t, id) == t && DeleteIn(t, id) == t
  {
  }

  /** The handlers over one database: the meetings and logs tables and the mail transport. */
  class MeetingStore {
    var meetings: Table
    var logs: seq<Log>
    /** The next values of the two auto-increment keys. */
    var nextId: nat
    var nextLogId: nat
    const transport: Transport

    /**
     * Every row sits under its own id, below the next key, and has a status;
     * log ids increase; a logged meeting is gone and its id is never issued again.
     */
    ghost predicate Valid()
      reads this
    {
      && 0 < nextId && 0 < nextLogId
      && (forall id :: id in meetings ==> meetings[id].id == id && 0 < id < nextId && meetings[id].status != "")
      && (forall i :: 0 <= i < |logs| ==>
            0 < logs[i].id < nextLogId && logs[i].meetingId < nextId && logs[i].meetingId !in meetings)
      && (forall i, j :: 0 <= i < j < |logs| ==> logs[i].id < logs[j].id)
    }

    constructor(transport: Transport)
      ensures Valid()
      ensures meetings == map[] && logs == [] && nextId == 1 && nextLogId == 1 && this.transport == transport
    {
      meetings := map[];
      logs := [];
      nextId := 1;
      nextLogId := 1;
      this.transport := transport;
    }

    /** createMeeting: inserts an active meeting under a fresh id and mails the notice address. */
    method CreateMeeting(body: MeetingBody, file: Option<string>) returns (r: Result<Meeting>)
      requires Valid()
      modifies this, transport
      ensures Valid()
      ensures r == CreateRow(old(nextId), CreationFor(body, file))
      ensures r.Ok? ==> r.value.id !in old(meetings) && r.value.status == Active
      ensures r.Ok? ==> meetings == old(meetings)[r.value.id := r.value]
                        && transport.outbox == old(transport.outbox) + [CreatedMail(r.value)]
      ensures r.Err? ==> meetings == old(meetings) && transport.outbox == old(transport.outbox)
      ensures nextId == (if r.Ok? then old(nextId) + 1 else old(nextId))
      ensures logs == old(logs) && nextLogId == old(nextLogId)
    {
      r := CreateRow(nextId, CreationFor(body, file));
      if r.Err? {
        return;
      }
      meetings := meetings[nextId := r.value];
      nextId := nextId + 1;
      transport.SendMail(CreatedMail(r.value));
    }

    /** getMeetings: every row once, in no particular order. */
    method GetMeetings() returns (rows: seq<Meeting>)
      requires Valid()
      ensures (set i | 0 <= i < |rows| :: rows[i].id) == meetings.Keys
      ensures forall i :: 0 <= i < |rows| ==> rows[i].id in meetings && meetings[rows[i].id] == rows[i]
      ensures forall i, j :: 0 <= i < j < |rows| ==> rows[i].id != rows[j].id
    {
      rows := [];
      var pending := meetings.Keys;
      while pending != {}
        invariant pending <= meetings.Keys
        invariant (set i | 0 <= i < |rows| :: rows[i].id) == meetings.Keys - pending
        invariant forall i :: 0 <= i < |rows| ==> rows[i].id in meetings && meetings[rows[i].id] == rows[i]
        invariant forall i, j :: 0 <= i < j < |rows| ==> rows[i].id != rows[j].id
        decreases pending
      {
        var id :| id in pending;
        ghost var before := rows;
        rows := rows + [meetings[id]];
        assert (set i | 0 <= i < |rows| :: rows[i].id) == (set i | 0 <= i < |before| :: before[i].id) + {id} by {
          assert rows[|before|].id == id;
          assert forall i :: 0 <= i < |before| ==> rows[i] == before[i];
        }
        pending := pending - {id};
      }
    }

    /** getMeeting: the row with that id, or 404. */
    method GetMeeting(id: nat) returns (r: Result<Meeting>)
      ensures r == Find(meetings, id)
    {
      if id !in meetings {
        return Err(NotFound);
      }
      r := Ok(meetings[id]);
    }

    /** updateMeeting: overwrites the fields the body supplies truthy values for; no mail. */
    method UpdateMeeting(id: nat, body: MeetingBody, file: Option<string>) returns (r: Result<Meeting>)
      requires Valid()
      modifies this
      ensures Valid()
      ensures r == (if id in old(meetings) then Ok(Merge(old(meetings)[id], body, file)) else Err(NotFound))
      ensures meetings == UpdateIn(old(meetings), id, body, file)
      ensures logs == old(logs) && nextId == old(nextId) && nextLogId == old(nextLogId)
    {
      if id !in meetings {
        return Err(NotFound);
      }
      var m := meetings[id];
      if file.Some? {
        m := m.(document := file);
      }
      m := m.(title := OrElse(body.title, m.title));
      m := m.(description := if Truthy(body.description) then body.description else m.description);
      m := m.(startDate := body.startDate.GetOr(m.startDate));
      m := m.(endDate := body.endDate.GetOr(m.endDate));
      m := m.(status := OrElse(body.status, m.status));
      meetings := meetings[id := m];
      r := Ok(m);
    }

    /** deleteMeeting: writes one log row, removes the meeting and mails the notice address. */
    method DeleteMeeting(id: nat, now: Date) returns (r: Result<()>)
      requires Valid()
      modifies this, transport
      ensures Valid()
      ensures r.Err? <==> id !in old(meetings)
      ensures r.Err? ==> r.error == NotFound && logs == old(logs)
                         && transport.outbox == old(transport.outbox)
      ensures r.Ok? ==> logs == old(logs) + [Log(old(nextLogId), id, now, DeleteReason)]
                        && transport.outbox == old(transport.outbox) + [DeletedMail(old(meetings)[id])]
      ensures meetings == DeleteIn(old(meetings), id)
      ensures nextId == old(nextId) && nextLogId == (if r.Ok? then old(nextLogId) + 1 else old(nextLogId))
    {
      if id !in meetings {
        return Err(NotFound);
      }
      var m := meetings[id];
      logs := logs + [NewLog(nextLogId, m.id, Some(now), DeleteReason, now)];
      nextLogId := nextLogId + 1;
      meetings := meetings - {id};
      transport.SendMail(DeletedMail(m));
      r := Ok(());
    }

    /** cancelMeeting: sets the status to "cancelled"; no mail. */
    method CancelMeeting(id: nat) returns (r: Result<Meeting>)
      requires Valid()
      modifies this
      ensures Valid()
      ensures r == (if id in old(meetings) then Ok(Cancel(old(meetings)[id])) else Err(NotFound))
      ensures meetings == CancelIn(old(meetings), id)
      ensures logs == old(logs) && nextId == old(nextId) && nextLogId == old(nextLogId)
    {
      if id !in meetings {
        return Err(NotFound);
      }
      var m := meetings[id];
      m := m.(status := Cancelled);
      meetings := meetings[id := m];
      r := Ok(m);
    }
  }
}
