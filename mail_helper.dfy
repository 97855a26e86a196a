/** `sendMailToParticipants`: one notice to every address of a comma-separated participants string. */
module MailHelper {
  import opened Base
  import opened JsString
  import opened Mailer

  /**
   * The addresses a participants string names: the comma pieces, each trimmed,
   * with the empty ones dropped; order and repetitions are kept.
   */
  function Recipients(participants: string): (emails: seq<string>)
    ensures forall i :: 0 <= i < |emails| ==> emails[i] != "" && Trimmed(emails[i]) && CommaFree(emails[i])
    ensures |emails| <= multiset(participants)[','] + 1
    ensures emails == [] <==> forall i :: 0 <= i < |Split(participants)| ==> AllSpace(Split(participants)[i])
  {
    var pieces := Split(participants);
    var trimmed := TrimEach(pieces);
    var emails := DropEmpty(trimmed);
    SplitCount(participants);
    forall i | 0 <= i < |emails| ensures emails[i] != "" && Trimmed(emails[i]) && CommaFree(emails[i]) {
      var j :| 0 <= j < |trimmed| && trimmed[j] == emails[i];
      assert emails[i] == Trim(pieces[j]);
      if ',' in emails[i] {
        TrimInside(pieces[j], ',');
      }
    }
    assert emails == [] <==> forall i :: 0 <= i < |pieces| ==> AllSpace(pieces[i]) by {
      forall i | 0 <= i < |pieces| {
        TrimEmpty(pieces[i]);
      }
    }
    emails
  }

  /** Addresses as the frontend picks them: non-empty, trimmed and without commas. */
  predicate WellFormedEmails(xs: seq<string>) {
    forall i :: 0 <= i < |xs| ==> xs[i] != "" && Trimmed(xs[i]) && CommaFree(xs[i])
  }

  /** Every non-empty trimmed piece is a recipient as often as it occurs, so repeated addresses are all kept. */
  lemma RecipientsKeepRepeats(participants: string, e: string)
    requires e != ""
    ensures multiset(Recipients(participants))[e] == multiset(TrimEach(Split(participants)))[e]
  {
    DropEmptyKeepsRepeats(TrimEach(Split(participants)), e);
  }

  /** A piece without commas names its trimmed self, or nobody when it is blank. */
  lemma RecipientsOfPiece(a: string)
    requires CommaFree(a)
    ensures Recipients(a) == if Trim(a) == "" then [] else [Trim(a)]
  {
    SplitOfPiece(a);
  }

  /** The recipients of two parts joined by a comma are those of the first part followed by those of the second. */
  lemma RecipientsAppend(a: string, b: string)
    ensures Recipients(a + "," + b) == Recipients(a) + Recipients(b)
  {
    SplitAppend(a, b);
    TrimEachAppend(Split(a), Split(b));
    DropEmptyAppend(TrimEach(Split(a)), TrimEach(Split(b)));
  }

  /** Trimming each piece of a concatenation trims each part. */
  lemma TrimEachAppend(xs: seq<string>, ys: seq<string>)
    ensures TrimEach(xs + ys) == TrimEach(xs) + TrimEach(ys)
  {
  }

  /** Parsing a list of well-formed addresses joined with commas gives exactly that list back. */
  lemma RecipientsOfJoin(xs: seq<string>)
    requires WellFormedEmails(xs)
    ensures Recipients(Join(xs)) == xs
  {
    var pieces := Split(Join(xs));
    if xs == [] {
      assert pieces == [""];
    } else {
      SplitOfJoin(xs);
      forall i | 0 <= i < |xs| ensures Trim(xs[i]) == xs[i] {
        TrimOfTrimmed(xs[i]);
      }
      assert TrimEach(pieces) == xs;
    }
  }

  /**
   * The mails `sendMailToParticipants` sends: none when the string is missing or
   * empty or names nobody, otherwise a single one addressed to all recipients.
   */
  function ParticipantMails(participants: Option<string>, subject: string, html: string): (mails: seq<Mail>)
    ensures |mails| <= 1
    ensures mails == [] <==> !Truthy(participants) || Recipients(participants.value) == []
    ensures mails != [] ==> mails[0] == Mail(Recipients(participants.value), subject, Html(html))
  {
    if !Truthy(participants) then []
    else
      var emails := Recipients(participants.value);
      if |emails| == 0 then [] else [Mail(emails, subject, Html(html))]
  }

  /** A participants string made only of blanks and commas sends nothing. */
  lemma BlankParticipantsSendNothing(participants: string, subject: string, html: string)
    requires forall c :: c in participants ==> c == ',' || IsSpace(c)
    ensures ParticipantMails(Some(participants), subject, html) == []
  {
    var pieces := Split(participants);
    forall i | 0 <= i < |pieces| ensures AllSpace(pieces[i]) {
      PieceChars(participants, i);
    }
  }

  /** Every character of a split piece occurs in the split string. */
  lemma {:induction false} PieceChars(s: string, i: nat)
    requires i < |Split(s)|
    ensures forall c :: c in Split(s)[i] ==> c in s
  {
    JoinOfSplit(s);
    var pieces := Split(s);
    JoinHasPieces(pieces, i);
  }

  /** A join contains every character of every piece. */
  lemma {:induction false} JoinHasPieces(xs: seq<string>, i: nat)
    requires i < |xs|
    ensures forall c :: c in xs[i] ==> c in Join(xs)
  {
    if |xs| > 1 {
      if i > 0 {
        JoinHasPieces(xs[1..], i - 1);
      }
    }
  }

  /** Sends the participant notice through `transport`. */
  method SendMailToParticipants(transport: Transport, participants: Option<string>, subject: string, html: string)
    modifies transport
    ensures transport.outbox == old(transport.outbox) + ParticipantMails(participants, subject, html)
  {
    if !Truthy(participants) {
      return;
    }
    var emails := Recipients(participants.value);
    if |emails| == 0 {
      return;
    }
    transport.SendMail(Mail(emails, subject, Html(html)));
  }
}
