# Enroller: participant queries and meeting handlers

A model of the decision logic of the Enroller backend, which stores
meetings and participants and enrols participants in meetings.

- `Wrappers.dfy`: `Option` stands for Java's nullable references. `Result`
  stands for an operation that either succeeds or raises a persistence error.
- `Participants.dfy` models `ParticipantService`.
  - The listing method `getAll(sortBy, sortOrder, key)` builds its HQL text
    clause by clause. `GetAllFiltered` does the same. It is proved equal to
    the rendering (`QueryText`) of the listing the three parameters ask for
    (`ListingOf`).
  - `ParseQuery` reads a query text back into a listing. The round-trip lemma
    `ParseQueryText` shows that the text determines the key filter and the
    ordering it was built from.
  - Separate lemmas state each clause rule: where the WHERE clause goes, when
    ORDER BY appears, and when a direction word is added. The filter key is
    copied into the text verbatim and is not escaped, exactly as the code
    does it.
  - The participant table is a class holding a map from login to
    participant. The password encoder is injected as a function.
- `Meetings.dfy` models `MeetingRestController`.
  - The controller is a class holding the meeting table, a map from id to
    meeting. Each handler returns the HTTP status code and the payload value.
  - `Merge` is the partial-update rule of `PUT /meetings/{id}`. A null field
    keeps the stored value.
  - A meeting holds references to participant rows. The model keeps them
    by login, as the join table does, in a `set<Option<string>>`; `None` is
    a null reference. `Roster` resolves the references through the
    participant table when the set is returned, so a later update of a
    participant shows through, as it does for Java's managed references.

Edge cases the handlers keep as the code has them:

- An unknown login is not rejected by `POST /meetings/{id}/participants`:
  the code passes the null lookup result to the meeting
  (MeetingRestController.java:111-112), and `AddParticipant` adds it to the
  set as `None`.
- A body whose `login` value is null is answered with 400, like a body
  without the key (line 106). The body is a `map<string, string>`, so the
  model reads a null `login` value as an absent key.
- `DELETE /meetings/{id}/participants/{login}` removes the lookup result
  from the set, and so does `RemoveParticipant`. For an unknown login that
  result is null, so the call removes a null entry that an earlier
  enrolment left in the set.
- For `GET /meetings`, a non-empty login that matches no participant
  resolves to null. The search then runs exactly as it does for an empty
  parameter.

## Model

| member | source | states |
|---|---|---|
| `Participants.ListingOf` | src/main/java/com/company/enroller/persistence/ParticipantService.java:29-39 | What the request asks for. The empty key means no filter. Only `sortBy == "login"` orders, and only the exact words "ASC" and "DESC" choose a direction. The listing is well formed. |
| `Participants.QueryText` | src/main/java/com/company/enroller/persistence/ParticipantService.java:30 | Every listing query starts with `FROM Participant`. |
| `Participants.ParseQueryText` | src/main/java/com/company/enroller/persistence/ParticipantService.java:29-39 | Round trip: decoding the query text of any well-formed listing gives that listing back. |
| `Participants.QueryTextInjective` | src/main/java/com/company/enroller/persistence/ParticipantService.java:29-39 | Two different listings never produce the same query text. |
| `Participants.WhereClauseIffKey` | src/main/java/com/company/enroller/persistence/ParticipantService.java:30-33 | An empty key gives no WHERE clause: the text is the base query, or the base query followed directly by ORDER BY. A non-empty key puts ` WHERE login LIKE '%key%'`, with the key verbatim, directly after `FROM Participant`. |
| `Participants.OrderByIffLogin` | src/main/java/com/company/enroller/persistence/ParticipantService.java:34-35 | The query ends in an ORDER BY login clause iff `sortBy == "login"`, whatever `sortOrder` is. The clause follows the filter clause. |
| `Participants.DirectionOnlyForAscDesc` | src/main/java/com/company/enroller/persistence/ParticipantService.java:36-38 | The query ends with ` ASC` (or ` DESC`) iff sortBy is "login" and sortOrder is exactly that word. Any other sortOrder leaves the text ending at ` ORDER BY login`. |
| `Participants.NeutralArgumentsGiveBaseQuery` | src/main/java/com/company/enroller/persistence/ParticipantService.java:24-39 | With an empty key and a sortBy other than "login", the query equals the text of the parameterless `getAll`. That text decodes to the unfiltered, unordered listing. |
| `Participants.ParticipantService.constructor` | src/main/java/com/company/enroller/persistence/ParticipantService.java:15-22 | The service starts over a given login-keyed table with the injected encoder. |
| `Participants.ParticipantService.GetAll` | src/main/java/com/company/enroller/persistence/ParticipantService.java:24-27 | The parameterless query is `FROM Participant`, and it decodes to "all participants, no order". |
| `Participants.ParticipantService.GetAllFiltered` | src/main/java/com/company/enroller/persistence/ParticipantService.java:29-42 | The text built step by step is the rendering of `ListingOf(sortBy, sortOrder, key)`, and it decodes back to that listing. |
| `Participants.ParticipantService.FindByLogin` | src/main/java/com/company/enroller/persistence/ParticipantService.java:44-46 | Absent iff no row has that login. Otherwise it gives the stored participant, whose login is the one asked for. It reads the table and changes nothing. |
| `Participants.ParticipantService.Add` | src/main/java/com/company/enroller/persistence/ParticipantService.java:48-56 | A new login is stored with password `encode(original password)`, and the same updated participant is returned. An existing login fails with `DuplicateLogin` and the table is unchanged. The table stays keyed by login. |
| `Participants.ParticipantService.Update` | src/main/java/com/company/enroller/persistence/ParticipantService.java:58-62 | Upsert: the entry for the participant's login becomes the participant. Every other login keeps its entry. |
| `Participants.ParticipantService.Delete` | src/main/java/com/company/enroller/persistence/ParticipantService.java:64-68 | Exactly that login leaves the table. Every other entry is unchanged. |
| `Meetings.Merge` | src/main/java/com/company/enroller/controllers/MeetingRestController.java:76-84 | A non-null payload field overwrites the stored field and a null one keeps it. This holds for title, description and date. The id and the participant set are never changed. |
| `Meetings.MergeIdempotent` | src/main/java/com/company/enroller/controllers/MeetingRestController.java:72-86 | Applying the same payload twice gives the same meeting as applying it once. |
| `Meetings.MergeAllNull` | src/main/java/com/company/enroller/controllers/MeetingRestController.java:76-84 | A payload whose fields are all null leaves the meeting unchanged. |
| `Meetings.MergeTwice` | src/main/java/com/company/enroller/controllers/MeetingRestController.java:76-85 | Two updates in a row equal one update whose payload is the second laid over the first. |
| `Meetings.Enroll` | src/main/java/com/company/enroller/controllers/MeetingRestController.java:112 | `meeting.addParticipant`: the reference is held afterwards. Every other reference is held iff it was before, and every other field of the meeting is unchanged. |
| `Meetings.Withdraw` | src/main/java/com/company/enroller/controllers/MeetingRestController.java:125 | `meeting.removeParticipant`: the reference is not held afterwards. Every other reference is held iff it was before, and every other field of the meeting is unchanged. |
| `Meetings.EnrollWithdraw` | src/main/java/com/company/enroller/controllers/MeetingRestController.java:112-125 | Enrolling a reference the meeting already holds changes nothing, and withdrawing an absent one changes nothing. Withdrawing undoes an enrolment that added the reference. After enrolment the reference is held, after withdrawal it is not, and withdrawing after an enrolment equals withdrawing alone. |
| `Meetings.MeetingRestController.constructor` | src/main/java/com/company/enroller/controllers/MeetingRestController.java:20-24 | The controller starts over an id-keyed table with its injected services. |
| `Meetings.MeetingRestController.FindById` | src/main/java/com/company/enroller/controllers/MeetingRestController.java:42 | `findById` is absent iff no meeting has that id. Otherwise it gives the stored meeting. |
| `Meetings.MeetingRestController.ReferenceTo` | src/main/java/com/company/enroller/controllers/MeetingRestController.java:111 | The reference `findByLogin` yields is null iff no participant has the login; otherwise it is that login. |
| `Meetings.MeetingRestController.Roster` | src/main/java/com/company/enroller/controllers/MeetingRestController.java:95 | The participant set returned for a meeting. It holds a null iff the meeting holds a null reference or a reference to a login that has no row. Every reference to a stored login gives that participant as the table holds it now, and every participant returned is referred to by the meeting. |
| `Meetings.MeetingRestController.FindMeetings` | src/main/java/com/company/enroller/controllers/MeetingRestController.java:26-38 | Always 200. The search receives the participant only for a non-empty, known login. An empty or unknown login passes null. The table is unchanged. |
| `Meetings.MeetingRestController.GetMeeting` | src/main/java/com/company/enroller/controllers/MeetingRestController.java:40-47 | 404 iff the id is absent, with no payload. Otherwise 200 with the stored meeting. The table is unchanged. |
| `Meetings.MeetingRestController.AddMeeting` | src/main/java/com/company/enroller/controllers/MeetingRestController.java:49-58 | If `alreadyExist` holds: 409, nothing added, no id used. Otherwise the meeting is stored under a fresh id, nothing else changes, and 201 is returned with it. |
| `Meetings.MeetingRestController.DeleteMeeting` | src/main/java/com/company/enroller/controllers/MeetingRestController.java:60-68 | An absent id gives 404 and nothing is deleted. A present id gives 200 and exactly that meeting is removed. Other meetings are untouched. |
| `Meetings.MeetingRestController.UpdateMeeting` | src/main/java/com/company/enroller/controllers/MeetingRestController.java:70-87 | An absent id gives 404 and no change. Otherwise 200, and the stored meeting becomes `Merge(stored, payload)`. Other meetings are untouched. |
| `Meetings.MeetingRestController.GetParticipants` | src/main/java/com/company/enroller/controllers/MeetingRestController.java:89-96 | 404 iff the id is absent. Otherwise 200 with the participants the meeting refers to (`Roster`). The table is unchanged. |
| `Meetings.MeetingRestController.AddParticipant` | src/main/java/com/company/enroller/controllers/MeetingRestController.java:98-116 | The meeting is checked first (404), then the `login` key (400). Both leave the table unchanged. Otherwise the lookup result joins that meeting's set (`Enroll`), 200 is returned with the new set, and other meetings are untouched. A login already enrolled leaves the table unchanged. A known login is afterwards enrolled; an unknown one puts a null (`None`) into the set. |
| `Meetings.MeetingRestController.RemoveParticipant` | src/main/java/com/company/enroller/controllers/MeetingRestController.java:118-128 | An absent meeting gives 404 and no change. Otherwise the lookup result leaves that meeting's set (`Withdraw`), 200 is returned with the new set, and other meetings are untouched. A reference the meeting does not hold leaves the table unchanged and returns the set as it was. A known login is afterwards not enrolled. |

## Left out

- HTTP routing, JSON (de)serialisation and `ResponseEntity`: only the status code and the payload value are modelled. The text of the 400 and 409 messages is not.
- Evaluation of the HQL (LIKE matching, collation, result order): the database does this. `GetAll` and `GetAllFiltered` return the query text, not the participants.
- Hibernate session, transactions and `DatabaseConnector`: the tables are maps. Connectivity failures are not modelled. A Hibernate exception on deleting or merging a row in an unexpected state is not modelled either.
- `PasswordEncoder.encode`: an injected function. Its salting, which makes two encodings of one password differ, is not modelled.
- `ParticipantService.Add`: Java mutates the caller's participant object in place. The model returns the updated value instead, so it does not capture that the caller's object has the hashed password even when the save fails.
- Meetings are values: the aliasing between the managed entity that `findById` returns and the stored row is not modelled. Each handler writes the updated meeting back, as `meetingService.update` does.
- MeetingService is not part of this model.
  - `alreadyExist` and `findMeetings` are injected functions over the table, so the title-and-date duplicate rule and the search filters are not modelled.
  - `findById`, `add`, `update` and `delete` are map operations.
  - Fresh ids come from a counter above every stored id.
  - Cascades on delete are not modelled. Deleting a meeting never touches the participant table.
- `Meeting.addParticipant` and `Meeting.removeParticipant` are not part of this model. They are taken to be set insertion and set removal (`Enroll`, `Withdraw`).
- Deleting a participant whom a meeting still refers to is not modelled: the database's foreign-key behaviour is not in this model. `Roster` would show such a reference as null.
- Meeting ids are unbounded integers, not 64-bit `long`.
- The race between `alreadyExist` and `add` under concurrent requests is out of scope.
