/**
 * The meetings page of the frontend: how the edit form turns a participants
 * string into a list and back, the end-date rule, and the requests the page
 * sends when it saves, cancels or deletes a meeting.
 */
module MeetingPage {
  import opened Base
  import opened JsString
  import opened MailHelper
  import opened MeetingModel
  import opened MeetingController

  /** A meeting as the page receives it from the list endpoint. */
  datatype Row = Row(
    id: nat,
    title: string,
    description: Option<string>,
    startDate: Option<Date>,
    endDate: Option<Date>,
    participants: Option<string>)   // None also stands for a value that is not a string

  /** The values of the edit form's fields. */
  datatype FormValues = FormValues(
    title: Option<string>,
    description: Option<string>,
    startDate: Option<Date>,
    endDate: Option<Date>,
    participants: Option<seq<string>>,
    document: Option<string>)

  /** The form after `resetFields`. */
  const EmptyForm := FormValues(None, None, None, None, None, None)

  /** The multipart fields a save sends. */
  datatype Submission = Submission(
    title: string,
    description: string,
    startDate: Date,
    endDate: Date,
    participants: string,
    document: Option<string>)

  /** The requests the page sends to the backend. */
  datatype ApiCall =
    | ListMeetings
    | PostMeeting(data: Submission)
    | PutMeeting(id: nat, data: Submission)
    | CancelRequest(id: nat)
    | DeleteRequest(id: nat)

  /** openEdit's participant list: the comma pieces, each trimmed; `[]` for a missing or empty string. */
  function SplitParticipants(participants: Option<string>): (xs: seq<string>)
    ensures participants.None? || participants.value == "" ==> xs == []
    ensures participants.Some? && participants.value != "" ==> |xs| == multiset(participants.value)[','] + 1
    ensures forall i :: 0 <= i < |xs| ==> Trimmed(xs[i]) && CommaFree(xs[i])
  {
    if participants.Some? && |participants.value| > 0 then
      SplitCount(participants.value);
      var pieces := Split(participants.value);
      var xs := TrimEach(pieces);
      assert forall i :: 0 <= i < |xs| ==> CommaFree(xs[i]) by {
        forall i | 0 <= i < |xs| ensures CommaFree(xs[i]) {
          if ',' in xs[i] {
            TrimInside(pieces[i], ',');
          }
        }
      }
      xs
    else []
  }

  /** submitForm's participants field: the list joined with commas, or "" when there is no list. */
  function JoinParticipants(participants: Option<seq<string>>): (s: string)
    ensures s == "" <==> participants.None? || participants.value == [] || participants.value == [""]
  {
    if participants.Some? then
      JoinEmpty(participants.value);
      Join(participants.value)
    else ""
  }

  /** A list of well-formed addresses survives being saved and opened for editing again; `[]` travels as "". */
  lemma ParticipantsRoundTrip(xs: seq<string>)
    requires WellFormedEmails(xs)
    ensures xs == [] ==> JoinParticipants(Some(xs)) == ""
    ensures SplitParticipants(Some(JoinParticipants(Some(xs)))) == xs
  {
    if xs != [] {
      var s := Join(xs);
      assert s == JoinParticipants(Some(xs));
      assert s != "";
      SplitOfJoin(xs);
      forall i | 0 <= i < |xs| ensures Trim(xs[i]) == xs[i] {
        TrimOfTrimmed(xs[i]);
      }
      assert TrimEach(Split(s)) == xs;
    }
  }

  /** A participants string whose pieces carry no outer blanks survives being opened for editing and saved again. */
  lemma ParticipantsStringRoundTrip(s: string)
    requires forall i :: 0 <= i < |Split(s)| ==> Trimmed(Split(s)[i])
    ensures JoinParticipants(Some(SplitParticipants(Some(s)))) == s
  {
    if s != "" {
      var pieces := Split(s);
      forall i | 0 <= i < |pieces| ensures Trim(pieces[i]) == pieces[i] {
        TrimOfTrimmed(pieces[i]);
      }
      assert TrimEach(pieces) == pieces;
      JoinOfSplit(s);
    }
  }

  /** The end-date field's validator: it passes when either date is missing or the end is not before the start. */
  function EndDateAccepted(startDate: Option<Date>, endDate: Option<Date>): bool {
    endDate.None? || startDate.None? || !(endDate.value < startDate.value)
  }

  /**
   * The request submitForm sends, or None when it sends nothing: the end is
   * before the start, or a date is missing (turning it into text throws).
   */
  function SubmitRequest(editingId: Option<nat>, values: FormValues): (call: Option<ApiCall>)
    ensures call.Some? <==> values.startDate.Some? && values.endDate.Some?
                            && values.startDate.value <= values.endDate.value
    ensures call.Some? ==> EndDateAccepted(values.startDate, values.endDate)
    ensures call.Some? ==> (call.value.PostMeeting? <==> editingId.None?)
                           && (call.value.PutMeeting? <==> editingId.Some?)
                           && (call.value.PutMeeting? ==> call.value.id == editingId.value)
    ensures call.Some? ==> && call.value.data.title == values.title.GetOr("undefined")
                           && call.value.data.startDate == values.startDate.value
                           && call.value.data.endDate == values.endDate.value
                           && call.value.data.description == OrElse(values.description, "")
                           && call.value.data.participants == JoinParticipants(values.participants)
                           && call.value.data.document == values.document
  {
    if values.startDate.None? || values.endDate.None? || values.endDate.value < values.startDate.value then None
    else
      // FormData turns a missing title into the text "undefined".
      var data := Submission(values.title.GetOr("undefined"), OrElse(values.description, ""),
                             values.startDate.value, values.endDate.value,
                             JoinParticipants(values.participants), values.document);
      if editingId.None? then Some(PostMeeting(data)) else Some(PutMeeting(editingId.value, data))
  }

  /** The body the backend reads from a saved form; it has no status field. */
  function BodyOf(data: Submission): MeetingBody {
    MeetingBody(Some(data.title), Some(data.description), Some(data.startDate), Some(data.endDate),
                None, Some(data.participants))
  }

  /** Saving the form with the description cleared keeps the stored description, and never changes the status. */
  lemma ClearedDescriptionIsKept(m: Meeting, data: Submission, file: Option<string>)
    requires data.description == ""
    ensures Merge(m, BodyOf(data), file).description == m.description
    ensures Merge(m, BodyOf(data), file).status == m.status
  {
  }

  /** When both dates are filled in, the end-date validator passes exactly when submitForm sends a request. */
  lemma ValidatorAgreesWithSubmit(editingId: Option<nat>, values: FormValues)
    requires values.startDate.Some? && values.endDate.Some?
    ensures EndDateAccepted(values.startDate, values.endDate) <==> SubmitRequest(editingId, values).Some?
  {
  }

  /** A stored meeting as the list endpoint returns it: the table has no participants column. */
  function RowOf(m: Meeting): Row {
    Row(m.id, m.title, m.description, Some(m.startDate), Some(m.endDate), None)
  }

  /** The form openEdit fills from a row: its participants split into a list, and no document. */
  function EditForm(record: Row): FormValues {
    FormValues(Some(record.title), record.description, record.startDate, record.endDate,
               Some(SplitParticipants(record.participants)), None)
  }

  /**
   * Opening a stored meeting for editing and saving it untouched sends an update
   * of that meeting exactly when its dates are in order, and the backend's merge
   * of that update leaves the row as it was.
   */
  lemma EditAndSaveKeepsMeeting(m: Meeting)
    ensures var call := SubmitRequest(Some(m.id), EditForm(RowOf(m)));
            && (call.Some? <==> m.startDate <= m.endDate)
            && (call.Some? ==> && call.value == PutMeeting(m.id, call.value.data)
                               && call.value.data.participants == ""
                               && Merge(m, BodyOf(call.value.data), call.value.data.document) == m)
  {
  }

  /** The page's state. `sent` records the requests issued, in order. */
  class Page {
    var open: bool
    var editingId: Option<nat>
    var submitting: bool
    var cancelling: bool
    var form: FormValues
    var sent: seq<ApiCall>

    /** The first render: everything closed and empty, and the list requested. */
    constructor()
      ensures !open && editingId.None? && !submitting && !cancelling && form == EmptyForm
      ensures sent == [ListMeetings]
    {
      open := false;
      editingId := None;
      submitting := false;
      cancelling := false;
      form := EmptyForm;
      sent := [ListMeetings];
    }

    /** openCreate: an empty form for a new meeting. */
    method OpenCreate()
      modifies this
      ensures open && editingId.None? && form == EmptyForm
      ensures sent == old(sent) && submitting == old(submitting) && cancelling == old(cancelling)
    {
      editingId := None;
      form := EmptyForm;
      open := true;
    }

    /** openEdit: the form filled from a row, its participants split into a list, no document. */
    method OpenEdit(record: Row)
      modifies this
      ensures open && editingId == Some(record.id)
      ensures form == EditForm(record)
      ensures sent == old(sent) && submitting == old(submitting) && cancelling == old(cancelling)
    {
      editingId := Some(record.id);
      var participantArray := SplitParticipants(record.participants);
      form := FormValues(Some(record.title), record.description, record.startDate, record.endDate,
                         Some(participantArray), None);
      open := true;
    }

    /** deleteMeeting: the delete request, then a fresh list when it succeeded. */
    method DeleteMeeting(id: nat, succeeded: bool)
      modifies this
      ensures sent == old(sent) + [DeleteRequest(id)] + (if succeeded then [ListMeetings] else [])
      ensures open == old(open) && editingId == old(editingId) && form == old(form)
      ensures submitting == old(submitting) && cancelling == old(cancelling)
    {
      sent := sent + [DeleteRequest(id)];
      if succeeded {
        sent := sent + [ListMeetings];
      }
    }

    /** cancelMeeting: nothing without a meeting being edited; otherwise the cancel request, closing the form when it succeeded. */
    method CancelMeeting(succeeded: bool)
      modifies this
      ensures old(editingId).None? ==> sent == old(sent) && open == old(open) && form == old(form)
                                       && cancelling == old(cancelling)
      ensures old(editingId).Some? ==>
                && sent == old(sent) + [CancelRequest(old(editingId).value)] + (if succeeded then [ListMeetings] else [])
                && open == (old(open) && !succeeded)
                && form == (if succeeded then EmptyForm else old(form))
                && !cancelling
      ensures editingId == old(editingId) && submitting == old(submitting)
    {
      if editingId.None? {
        return;
      }
      cancelling := true;
      sent := sent + [CancelRequest(editingId.value)];
      if succeeded {
        open := false;
        form := EmptyForm;
        sent := sent + [ListMeetings];
      }
      cancelling := false;
    }

    /**
     * submitForm: nothing is sent when the end is before the start or a date is
     * missing; otherwise a create (no meeting being edited) or an update of the
     * edited meeting, closing the form when it succeeded.
     */
    method SubmitForm(values: FormValues, succeeded: bool)
      modifies this
      ensures var call := SubmitRequest(old(editingId), values);
              && sent == old(sent) + (if call.None? then [] else [call.value] + (if succeeded then [ListMeetings] else []))
              && open == (old(open) && !(call.Some? && succeeded))
              && form == (if call.Some? && succeeded then EmptyForm else old(form))
      ensures !submitting && editingId == old(editingId) && cancelling == old(cancelling)
    {
      submitting := true;
      if values.startDate.Some? && values.endDate.Some? && values.endDate.value < values.startDate.value {
        submitting := false;
        return;
      }
      if values.startDate.None? || values.endDate.None? {
        submitting := false;
        return;
      }
      var data := Submission(values.title.GetOr("undefined"), OrElse(values.description, ""),
                             values.startDate.value, values.endDate.value,
                             JoinParticipants(values.participants), values.document);
      if editingId.None? {
        sent := sent + [PostMeeting(data)];
      } else {
        sent := sent + [PutMeeting(editingId.value, data)];
      }
      if succeeded {
        open := false;
        form := EmptyForm;
        sent := sent + [ListMeetings];
      }
      submitting := false;
    }
  }
}
