# Meeting app: a Dafny model of the meeting lifecycle

This project models the core of a meeting-management application, which has a
Node/Express backend and a React frontend. It covers:

- **Meeting handlers** (`MeetingController`). Create, list, read, update, cancel
  and delete work on one database. The database holds the `meetings` table
  (a map from id to `Meeting`), the `logs` table and a shared mail transport
  whose sent mails collect in an outbox. `MeetingStore` is a class whose methods
  change these fields in place, as the handlers do. Read, update, cancel and
  delete are specified by the table functions `Find`, `UpdateIn`, `CancelIn` and
  `DeleteIn`. Create is specified by the row function `CreateRow` and the map
  update in its contract. List is specified by its contract alone. Lemmas state
  the lifecycle properties.
- **Table schemas** (`MeetingModel`, `LogModel`, `UserModel`). These give the row
  shapes, the non-null columns, the `"active"` status default, the default
  `deletedAt`, the unique email and the auto-increment keys.
- **Participant mail helper** (`MailHelper`, on top of `JsString`, a model of
  JavaScript's `split`, `trim`, `join`, `map` and `filter`). It covers recipient
  parsing, when nothing is sent, and the one mail addressed to all recipients.
- **Auth handlers** (`AuthController`). Register rejects a taken email and
  stores the hash of the password. Login tells an unknown email apart from a
  wrong password. Hashing, hash comparison and token signing are functions
  handed to the `UserTable`. Its invariant requires only that a password matches
  its own hash.
- **Meetings page** (`MeetingPage`). This is the frontend's participant split
  and join, with their round trip. It also covers the end-date rule and the
  requests the page sends on save, cancel and delete (class `Page`). The
  server's reply comes in as a `succeeded` parameter.

Dates are integers; only their order matters. A request's date field is `None`
when it is absent or sent as the empty string. Both of these are falsy, so
they behave the same.

What the code does, and the model with it:
- The backend has no participants column.
- Update and cancel send no mail.
- Create and delete mail one fixed address, not the participants.
- No diff or union of old and new recipients is computed on update.
- The mail helper keeps duplicate addresses.
- Delete always writes a `Log` row.

## Model

| member | source | states |
|---|---|---|
| `JsString.Trim` | backend/src/utils/mailHelper.ts:9 | a trimmed value has no whitespace at either end and is no longer than the input |
| `JsString.TrimInside` | backend/src/utils/mailHelper.ts:9 | trimming adds no character, so a comma-free piece stays comma-free |
| `JsString.TrimEmpty` | backend/src/utils/mailHelper.ts:9 | trimming gives "" exactly when the piece is all whitespace |
| `JsString.TrimOfTrimmed` | meeting-app-frontend/src/pages/meeting.tsx:76 | trimming a string without outer whitespace changes nothing |
| `JsString.Split` | backend/src/utils/mailHelper.ts:9 | `split(",")` gives at least one piece, and no piece contains a comma |
| `JsString.SplitCount` | backend/src/utils/mailHelper.ts:9 | a split has exactly one piece more than the string has commas |
| `JsString.SplitAppend` | backend/src/utils/mailHelper.ts:9 | splitting two parts with a comma between them gives the pieces of the first part, then those of the second |
| `JsString.JoinOfSplit` | meeting-app-frontend/src/pages/meeting.tsx:133 | joining a split with "," rebuilds the original string |
| `JsString.SplitOfJoin` | meeting-app-frontend/src/pages/meeting.tsx:76 | splitting a join of comma-free pieces gives the pieces back |
| `JsString.Join` | meeting-app-frontend/src/pages/meeting.tsx:133 | `join(",")` starts with the first piece, and comma-free pieces give exactly one comma fewer than pieces |
| `JsString.JoinEmpty` | meeting-app-frontend/src/pages/meeting.tsx:133 | a join is "" only for no pieces or a single empty piece |
| `JsString.TrimEach` | backend/src/utils/mailHelper.ts:9 | `map(e => e.trim())` keeps the length and trims element by element |
| `JsString.DropEmpty` | backend/src/utils/mailHelper.ts:9 | `filter(Boolean)` keeps only non-empty entries taken from the input; the result is empty iff every entry is empty; it changes nothing when no entry is empty |
| `JsString.DropEmptyKeepsRepeats` | backend/src/utils/mailHelper.ts:9 | filtering keeps every non-empty string as many times as it occurred |
| `JsString.DropEmptyAppend` | backend/src/utils/mailHelper.ts:9 | filtering a concatenation filters each part and keeps the parts in order; with the contract of `DropEmpty` on one entry this fixes the order of the kept entries |
| `MailHelper.Recipients` | backend/src/utils/mailHelper.ts:9-11 | every recipient is non-empty, trimmed and comma-free; there are at most commas + 1; there are none exactly when every piece is blank |
| `MailHelper.RecipientsKeepRepeats` | backend/src/utils/mailHelper.ts:9 | repeated addresses are all kept, with no de-duplication |
| `MailHelper.RecipientsOfPiece` | backend/src/utils/mailHelper.ts:9 | a piece without commas names its trimmed self, or nobody when it is blank |
| `MailHelper.RecipientsAppend` | backend/src/utils/mailHelper.ts:9 | the recipients of two parts joined by a comma are those of the first part followed by those of the second, so recipients keep the order of the string |
| `MailHelper.RecipientsOfJoin` | backend/src/utils/mailHelper.ts:9 | parsing a comma-join of well-formed addresses gives exactly that list, in order |
| `MailHelper.ParticipantMails` | backend/src/utils/mailHelper.ts:8-18 | no mail for a missing or empty string or one that names nobody; otherwise exactly one mail, addressed to all recipients at once |
| `MailHelper.BlankParticipantsSendNothing` | backend/src/utils/mailHelper.ts:11 | a string made only of commas and blanks sends nothing |
| `MailHelper.SendMailToParticipants` | backend/src/utils/mailHelper.ts:3-19 | the outbox grows by exactly the mails `ParticipantMails` gives |
| `Mailer.Transport.SendMail` | backend/src/config/mailer.ts:6-14 | sending appends the message to the outbox |
| `MeetingModel.CreateRow` | backend/src/models/Meeting.ts:26-37 | creation succeeds iff title and both dates are given, otherwise a server error; the key is the auto-increment id; status defaults to "active"; description and document may be missing |
| `LogModel.NewLog` | backend/src/models/Log.ts:20-28 | a log row has exactly id, meetingId, deletedAt and reason; deletedAt defaults to the current time |
| `MeetingController.Find` | backend/src/controllers/meeting.ts:55-57 | reading an id with no row answers 404; otherwise it gives that row unchanged |
| `MeetingController.CreatedIsActive` | backend/src/controllers/meeting.ts:10-20 | creation succeeds exactly when the body gives a title and both dates, otherwise 500; whatever the body says about status, the row is "active"; it holds the body's title, description and dates and the upload |
| `MeetingController.CreatedMail` | backend/src/controllers/meeting.ts:23-34 | the creation notice goes to the one fixed address whatever the participants; its subject names the title; it reports the dates and the description, or "Yok" when there is none |
| `MeetingController.DeletedMail` | backend/src/controllers/meeting.ts:104-115 | the deletion notice goes to the same fixed address under its own subject naming the title, with the same report as the creation notice |
| `MeetingController.Merge` | backend/src/controllers/meeting.ts:70-76 | update overwrites title, description, dates and status with a truthy supplied value, and a changed field has taken the supplied value; an upload replaces the document and nothing else changes it; the id never changes |
| `MeetingController.MergeNothing` | backend/src/controllers/meeting.ts:72-76 | an update with no truthy value and no file leaves the row identical |
| `MeetingController.MergeTwice` | backend/src/controllers/meeting.ts:70-76 | repeating the same update changes nothing more |
| `MeetingController.Cancel` | backend/src/controllers/meeting.ts:129 | cancel sets status to "cancelled" and changes no other field |
| `MeetingController.CancelTwice` | backend/src/controllers/meeting.ts:129-130 | cancelling twice leaves the same table as cancelling once |
| `MeetingController.FindAfterDelete` | backend/src/controllers/meeting.ts:101 | after a delete, reading that id answers 404 |
| `MeetingController.OnlyAddressedRowChanges` | backend/src/controllers/meeting.ts:66-76 | update, cancel and delete leave every other meeting as it was |
| `MeetingController.UnknownIdChangesNothing` | backend/src/controllers/meeting.ts:67 | update, cancel and delete on an unknown id leave the table as it was |
| `MeetingController.MeetingStore.constructor` | backend/src/models/Meeting.ts:28 | an empty database whose two key counters start at 1 |
| `MeetingController.MeetingStore.CreateMeeting` | backend/src/controllers/meeting.ts:8-40 | an active meeting under a fresh id and the meeting key counter advanced, or a server error with nothing stored and no counter moved; one notice to the fixed address; logs unchanged; the invariant is kept |
| `MeetingController.MeetingStore.GetMeetings` | backend/src/controllers/meeting.ts:43-50 | every stored meeting exactly once, unchanged, in no promised order |
| `MeetingController.MeetingStore.GetMeeting` | backend/src/controllers/meeting.ts:53-61 | the answer is `Find` on the table: the row, or 404 |
| `MeetingController.MeetingStore.UpdateMeeting` | backend/src/controllers/meeting.ts:64-83 | 404 for an unknown id with nothing changed; otherwise the merged row is stored and returned; no log and no mail |
| `MeetingController.MeetingStore.DeleteMeeting` | backend/src/controllers/meeting.ts:86-121 | 404 for an unknown id with no log and no mail; otherwise one log row with the next log key, that id and reason "Kullanıcı tarafından silindi", the log key counter advanced, the row removed, one notice mailed |
| `MeetingController.MeetingStore.CancelMeeting` | backend/src/controllers/meeting.ts:124-136 | 404 for an unknown id; otherwise only the status becomes "cancelled"; no log and no mail |
| `UserModel.FindByEmail` | backend/src/controllers/auth.ts:16 | finds nothing exactly when no user has that email; a user it finds has that email and is stored |
| `UserModel.FindAppended` | backend/src/models/User.ts:31 | a user added with an email nobody had is the one found by that email |
| `UserModel.FindUnique` | backend/src/models/User.ts:31 | with unique emails, looking up a user's email finds that very user |
| `AuthController.RegisterResult` | backend/src/controllers/auth.ts:10-48 | 400 exactly when the email is taken; success exactly when every field is given and the email is free; every other request (absent email, missing password, name or phone) answers 500; the new user gets the next key, the given names, email and phone, hash(password) and the uploaded image |
| `AuthController.RegisterKeepsTable` | backend/src/controllers/auth.ts:16-28 | one register keeps emails unique and keys distinct and increasing |
| `AuthController.RegisterAllKeepsTable` | backend/src/models/User.ts:28-31 | after any run of registers, no two users share an email or an id |
| `AuthController.LoginResult` | backend/src/controllers/auth.ts:50-70 | 404 exactly for a JSON `null` email (looked up as `IS NULL`, which no row matches) or an unknown email; 500 for an absent email or a password that is not a string; 400 exactly for a known email whose hash does not match; success exactly for a known email whose hash matches, with a token signed over that user's id and email |
| `AuthController.RegisterThenLogin` | backend/src/controllers/auth.ts:19-66 | someone who has just registered logs in with the same email and password |
| `AuthController.WelcomeGreetsRegistrant` | backend/src/controllers/auth.ts:30-42 | the welcome mail of a successful register goes to the registering address alone, under the welcome subject, greeting the registrant by first and last name |
| `AuthController.UserTable.constructor` | backend/src/models/User.ts:26-37 | an empty users table whose key counter starts at 1, holding the hashing, matching and signing functions |
| `AuthController.UserTable.Register` | backend/src/controllers/auth.ts:10-48 | the outcome is `RegisterResult`; the table grows by exactly the new user or not at all; a welcome mail only on success; unique emails kept |
| `AuthController.UserTable.Login` | backend/src/controllers/auth.ts:50-70 | the outcome is `LoginResult`; the users table is not modified |
| `MeetingPage.SplitParticipants` | meeting-app-frontend/src/pages/meeting.tsx:74-77 | [] for a missing or empty value; otherwise commas + 1 pieces, each trimmed and comma-free |
| `MeetingPage.JoinParticipants` | meeting-app-frontend/src/pages/meeting.tsx:132-135 | the participants field is "" exactly when there is no list, an empty list or a single empty entry |
| `MeetingPage.ParticipantsRoundTrip` | meeting-app-frontend/src/pages/meeting.tsx:74-77 | a list of non-empty, trimmed, comma-free emails is unchanged by a join (submit) followed by a split (edit); [] travels as "" and back |
| `MeetingPage.ParticipantsStringRoundTrip` | meeting-app-frontend/src/pages/meeting.tsx:132-135 | a string whose pieces have no outer blanks is unchanged by a split followed by a join |
| `MeetingPage.ValidatorAgreesWithSubmit` | meeting-app-frontend/src/pages/meeting.tsx:295-299 | with both dates filled in, the end-date validator passes exactly when the guard in submitForm lets the request through |
| `MeetingPage.SubmitRequest` | meeting-app-frontend/src/pages/meeting.tsx:115-150 | a request is sent iff both dates are present and the end is not before the start; POST iff no meeting is being edited, else PUT to that id; it carries the title ("undefined" when missing), the dates, the description or "", the joined participants and the document |
| `MeetingPage.ClearedDescriptionIsKept` | backend/src/controllers/meeting.ts:73 | a form saved with an empty description keeps the stored description, and the status stays as it was |
| `MeetingPage.EditAndSaveKeepsMeeting` | meeting-app-frontend/src/pages/meeting.tsx:72-150 | opening a stored meeting for editing and saving it untouched sends a PUT for that meeting exactly when its dates are in order, with no participants, and the backend's merge of it leaves the row as it was |
| `MeetingPage.Page.constructor` | meeting-app-frontend/src/pages/meeting.tsx:26-47 | the first render is closed and empty and asks for the list |
| `MeetingPage.Page.OpenCreate` | meeting-app-frontend/src/pages/meeting.tsx:66-70 | an empty form with no meeting being edited, opened |
| `MeetingPage.Page.OpenEdit` | meeting-app-frontend/src/pages/meeting.tsx:72-87 | the form is `EditForm` of the row: its fields, participants split, no document; that id is being edited |
| `MeetingPage.Page.DeleteMeeting` | meeting-app-frontend/src/pages/meeting.tsx:89-97 | one delete request, then a list refresh on success |
| `MeetingPage.Page.CancelMeeting` | meeting-app-frontend/src/pages/meeting.tsx:99-113 | nothing happens when no meeting is being edited; otherwise one cancel request for that id, and the form closes on success |
| `MeetingPage.Page.SubmitForm` | meeting-app-frontend/src/pages/meeting.tsx:115-160 | the requests sent are exactly `SubmitRequest`'s plus a refresh on success; nothing is sent for an end before the start; the form closes only on success |

## Left out

- Express routing, multer upload storage, Swagger, server start and database sync: framework plumbing. An upload appears only as its stored file name.
- SMTP delivery and the `from` address: a send is an append to the outbox. A transport failure turns a handler's reply into 500 after its database write; this is not modelled.
- Database failures other than a missing required column: these are the catch-all 500 of every handler and depend on the database.
- Success status codes (200, 201) and reply message texts: replies carry only their value or failure kind.
- HTML mail bodies: a mail body keeps only the values it reports (dates, description or "Yok", names).
- `AuthController.UserTable.Register`: bcrypt's random salt is not modelled. Hashing is one fixed function, and the invariant assumes only that a password matches its own hash. That a wrong password never matches is not modelled.
- `UserModel.FindByEmail`: emails are compared by exact equality. The MySQL database (backend/src/server.ts:13) compares them under its collation, which is usually case-insensitive and may ignore trailing spaces. So "A@x.com" and "a@x.com" are one email for the unique index and for `findOne`, but two in the model. The same holds for `AuthController.RegisterResult` and `AuthController.LoginResult`.
- `AuthController.LoginResult`: the JWT secret and the one-day expiry are not modelled; the token is the signing function applied to the claims.
- The user listing handler (`backend/src/controllers/user.ts`): its ordering and projection are a database query.
- The User–Meeting association: no shown code fills it.
- `MeetingController.MeetingStore.CreateMeeting`: the meeting key (Meeting.ts:28) is an unbounded natural, so running out of its 32-bit unsigned range is not modelled.
- `MeetingController.MeetingStore.DeleteMeeting`: the same holds for the log key (Log.ts:22).
- `AuthController.UserTable.Register`: the same holds for the user key (User.ts:28).
- Date parsing and formatting (dayjs, ISO strings, invalid dates): dates are integers.
- The participant picker's user list, notices (`message.*`), loading flags other than `submitting` and `cancelling`, and all rendering.
- Concurrency between requests: each handler runs as one atomic step.
