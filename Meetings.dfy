/** MeetingRestController: each handler is a transition of the meeting table
    that answers with an HTTP status code and a payload. The persistence
    layer behind MeetingService is replaced by a map from meeting id to
    meeting; its duplicate check and its search are injected functions. */
module Meetings {
  import opened Wrappers
  import opened Participants

  const OK := 200
  const CREATED := 201
  const BAD_REQUEST := 400
  const NOT_FOUND := 404
  const CONFLICT := 409

  /** A meeting as stored, or as received in a request body, where a None
      field stands for a JSON null. The participants are the meeting's
      references to participant rows, held by login as the join table holds
      them; a null reference, left by a login that did not resolve, is None. */
  datatype Meeting = Meeting(
    id: int,
    title: Option<string>,
    description: Option<string>,
    date: Option<string>,
    participants: set<Option<string>>)

  /** A field of a partial update: a null incoming value leaves the current one. */
  function Override<T>(current: Option<T>, incoming: Option<T>): Option<T> {
    if incoming.Some? then incoming else current
  }

  /** The meeting after a PUT with `payload`, field by field: a present
      value overwrites, a null keeps, and the id and the participant set are
      never touched. */
  function Merge(stored: Meeting, payload: Meeting): (m: Meeting)
    ensures m.id == stored.id
    ensures m.participants == stored.participants
    ensures payload.title.None? ==> m.title == stored.title
    ensures payload.title.Some? ==> m.title == payload.title
    ensures payload.description.None? ==> m.description == stored.description
    ensures payload.description.Some? ==> m.description == payload.description
    ensures payload.date.None? ==> m.date == stored.date
    ensures payload.date.Some? ==> m.date == payload.date
  {
    stored.(
      title := Override(stored.title, payload.title),
      description := Override(stored.description, payload.description),
      date := Override(stored.date, payload.date))
  }

  /** Applying the same payload twice stores what applying it once does. */
  lemma MergeIdempotent(stored: Meeting, payload: Meeting)
    ensures Merge(Merge(stored, payload), payload) == Merge(stored, payload)
  {
  }

  /** A payload whose fields are all null changes nothing. */
  lemma MergeAllNull(stored: Meeting, payload: Meeting)
    requires payload.title.None? && payload.description.None? && payload.date.None?
    ensures Merge(stored, payload) == stored
  {
  }

  /** Two successive updates store what one update with the later payload
      laid over the earlier one does. */
  lemma MergeTwice(stored: Meeting, first: Meeting, second: Meeting)
    ensures Merge(Merge(stored, first), second) == Merge(stored, Merge(first, second))
  {
  }

  /** Meeting.addParticipant: the reference joins the meeting's set; every
      other reference and every other field stay as they were. */
  function Enroll(m: Meeting, ref: Option<string>): (r: Meeting)
    ensures ref in r.participants
    ensures forall other :: other != ref ==> (other in r.participants <==> other in m.participants)
    ensures r.(participants := m.participants) == m
  {
    m.(participants := m.participants + {ref})
  }

  /** Meeting.removeParticipant: the reference leaves the meeting's set;
      every other reference and every other field stay as they were. */
  function Withdraw(m: Meeting, ref: Option<string>): (r: Meeting)
    ensures ref !in r.participants
    ensures forall other :: other != ref ==> (other in r.participants <==> other in m.participants)
    ensures r.(participants := m.participants) == m
  {
    m.(participants := m.participants - {ref})
  }

  /** Enrolling a reference the meeting already holds changes nothing, and
      withdrawing it afterwards undoes an enrolment that did change it;
      withdrawing a reference the meeting does not hold changes nothing. */
  lemma EnrollWithdraw(m: Meeting, ref: Option<string>)
    ensures ref in m.participants ==> Enroll(m, ref) == m
    ensures ref !in m.participants ==> Withdraw(Enroll(m, ref), ref) == m && Withdraw(m, ref) == m
    ensures ref in Enroll(m, ref).participants && ref !in Withdraw(m, ref).participants
    ensures Enroll(m, ref).participants - {ref} == Withdraw(m, ref).participants
  {
  }

  class MeetingRestController {
    /** The meeting table, keyed by id. */
    var meetings: map<int, Meeting>
    /** The next identifier the persistence layer hands out. */
    var nextId: int
    const participantService: ParticipantService
    /** MeetingService.alreadyExist over the current table. */
    const alreadyExist: (map<int, Meeting>, Meeting) -> bool
    /** MeetingService.findMeetings over the current table: title,
        description, the resolved participant (or null) and the sort mode. */
    const searchMeetings: (map<int, Meeting>, string, string, Option<Participant>, string) -> seq<Meeting>

    /** Every meeting is stored under its own id, ids still to be handed
        out are above every stored one, and participants are keyed by login. */
    ghost predicate Valid()
      reads this, participantService
    {
      && (forall id :: id in meetings ==> meetings[id].id == id && id < nextId)
      && participantService.Valid()
    }

    constructor (
      stored: map<int, Meeting>,
      firstFreeId: int,
      participants: ParticipantService,
      existing: (map<int, Meeting>, Meeting) -> bool,
      search: (map<int, Meeting>, string, string, Option<Participant>, string) -> seq<Meeting>)
      requires forall id :: id in stored ==> stored[id].id == id && id < firstFreeId
      requires participants.Valid()
      ensures Valid()
      ensures meetings == stored && nextId == firstFreeId
      ensures participantService == participants && alreadyExist == existing && searchMeetings == search
    {
      meetings := stored;
      nextId := firstFreeId;
      participantService := participants;
      alreadyExist := existing;
      searchMeetings := search;
    }

    /** MeetingService.findById: the stored meeting, or null. */
    function FindById(id: int): (found: Option<Meeting>)
      reads this
      ensures found.Some? <==> id in meetings
      ensures found.Some? ==> found.value == meetings[id]
    {
      if id in meetings then Some(meetings[id]) else None
    }

    /** The reference findByLogin gives for a login: that participant's
        login, or null when no participant has it. */
    function ReferenceTo(login: string): (ref: Option<string>)
      reads this, participantService
      ensures ref.Some? <==> login in participantService.participants
      ensures ref.Some? && participantService.Valid() ==> ref == Some(login)
    {
      match participantService.FindByLogin(login)
      case None => None
      case Some(p) => Some(p.login)
    }

    /** The participants a meeting's references stand for, read from the
        participant table as it is now; a null reference stays null. */
    function Roster(refs: set<Option<string>>): (roster: set<Option<Participant>>)
      reads this, participantService
      ensures None in roster <==>
        None in refs || exists login :: Some(login) in refs && login !in participantService.participants
      ensures forall login :: Some(login) in refs && login in participantService.participants ==>
        Some(participantService.participants[login]) in roster
      ensures participantService.Valid() ==> forall p :: Some(p) in roster ==>
        && Some(p.login) in refs
        && p.login in participantService.participants
        && participantService.participants[p.login] == p
    {
      var table := participantService.participants;
      var roster := set ref | ref in refs ::
        if ref.Some? && ref.value in table then Some(table[ref.value]) else None;
      assert forall p :: Some(p) in roster ==> exists login :: Some(login) in refs && login in table && table[login] == p by {
        forall p | Some(p) in roster
          ensures exists login :: Some(login) in refs && login in table && table[login] == p
        {
          var ref :| ref in refs && Some(p) == (if ref.Some? && ref.value in table then Some(table[ref.value]) else None);
          assert Some(ref.value) == ref;
        }
      }
      assert None in roster ==> None in refs || exists login :: Some(login) in refs && login !in table by {
        if None in roster {
          var ref :| ref in refs && None == (if ref.Some? && ref.value in table then Some(table[ref.value]) else None);
          if ref.Some? {
            assert Some(ref.value) == ref;
          }
        }
      }
      assert (exists login :: Some(login) in refs && login !in table) ==> None in roster by {
        if login :| Some(login) in refs && login !in table {
          var ref := Some(login);
          assert ref in refs;
        }
      }
      roster
    }

    /** GET /meetings: a participant is looked up only for a non-empty
        parameter; an empty or unknown login searches with null. */
    method FindMeetings(title: string, description: string, participant: string, sortMode: string)
      returns (status: int, found: seq<Meeting>)
      ensures status == OK
      ensures participant == "" || participant !in participantService.participants ==>
        found == searchMeetings(meetings, title, description, None, sortMode)
      ensures participant != "" && participant in participantService.participants ==>
        found == searchMeetings(meetings, title, description, Some(participantService.participants[participant]), sortMode)
    {
      var provided: Option<Participant> := None;
      if participant != "" {
        provided := participantService.FindByLogin(participant);
      }
      found := searchMeetings(meetings, title, description, provided, sortMode);
      status := OK;
    }

    /** GET /meetings/{id}: 404 exactly when no meeting has that id. */
    method GetMeeting(id: int) returns (status: int, meeting: Option<Meeting>)
      ensures status == NOT_FOUND <==> id !in meetings
      ensures status == NOT_FOUND ==> meeting == None
      ensures status != NOT_FOUND ==> status == OK && meeting == Some(meetings[id])
    {
      var found := FindById(id);
      if found.None? {
        return NOT_FOUND, None;
      }
      return OK, found;
    }

    /** POST /meetings: 409 and no insertion when the meeting already
        exists; otherwise it is stored under a new id and returned with 201. */
    method AddMeeting(meeting: Meeting) returns (status: int, created: Option<Meeting>)
      requires Valid()
      modifies this
      ensures Valid()
      ensures old(alreadyExist(meetings, meeting)) ==>
        status == CONFLICT && created == None && meetings == old(meetings) && nextId == old(nextId)
      ensures !old(alreadyExist(meetings, meeting)) ==>
        && status == CREATED
        && created == Some(meeting.(id := old(nextId)))
        && old(nextId) !in old(meetings)
        && meetings == old(meetings)[old(nextId) := created.value]
    {
      if alreadyExist(meetings, meeting) {
        return CONFLICT, None;
      }
      var stored := meeting.(id := nextId);
      meetings := meetings[stored.id := stored];
      nextId := nextId + 1;
      return CREATED, Some(stored);
    }

    /** DELETE /meetings/{id}: 404 and nothing deleted for an unknown id;
        otherwise exactly that meeting is removed. */
    method DeleteMeeting(id: int) returns (status: int)
      requires Valid()
      modifies this
      ensures Valid() && nextId == old(nextId)
      ensures id !in old(meetings) ==> status == NOT_FOUND && meetings == old(meetings)
      ensures id in old(meetings) ==> status == OK && meetings == old(meetings) - {id}
      ensures forall other :: other in old(meetings) && other != id ==>
        other in meetings && meetings[other] == old(meetings)[other]
    {
      var found := FindById(id);
      if found.None? {
        return NOT_FOUND;
      }
      meetings := meetings - {found.value.id};
      return OK;
    }

    /** PUT /meetings/{id}: 404 and no change for an unknown id; otherwise
        the stored meeting becomes its merge with the payload. */
    method UpdateMeeting(id: int, payload: Meeting) returns (status: int)
      requires Valid()
      modifies this
      ensures Valid() && nextId == old(nextId)
      ensures id !in old(meetings) ==> status == NOT_FOUND && meetings == old(meetings)
      ensures id in old(meetings) ==>
        status == OK && meetings == old(meetings)[id := Merge(old(meetings)[id], payload)]
    {
      var found := FindById(id);
      if found.None? {
        return NOT_FOUND;
      }
      var meeting := found.value;
      if payload.title.Some? {
        meeting := meeting.(title := payload.title);
      }
      if payload.description.Some? {
        meeting := meeting.(description := payload.description);
      }
      if payload.date.Some? {
        meeting := meeting.(date := payload.date);
      }
      meetings := meetings[meeting.id := meeting];
      return OK;
    }

    /** GET /meetings/{id}/participants: 404 for an unknown id, else the
        participants the meeting refers to. */
    method GetParticipants(id: int) returns (status: int, enrolled: Option<set<Option<Participant>>>)
      ensures status == NOT_FOUND <==> id !in meetings
      ensures status == NOT_FOUND ==> enrolled == None
      ensures status != NOT_FOUND ==> status == OK && enrolled == Some(Roster(meetings[id].participants))
    {
      var found := FindById(id);
      if found.None? {
        return NOT_FOUND, None;
      }
      return OK, Some(Roster(found.value.participants));
    }

    /** POST /meetings/{id}/participants: 404 for an unknown meeting, then
        400 when the body has no "login"; otherwise the reference findByLogin
        gives, null included, joins the meeting's set. */
    method AddParticipant(id: int, body: map<string, string>)
      returns (status: int, enrolled: Option<set<Option<Participant>>>)
      requires Valid()
      modifies this
      ensures Valid() && nextId == old(nextId)
      ensures id !in old(meetings) ==> status == NOT_FOUND && enrolled == None && meetings == old(meetings)
      ensures id in old(meetings) && "login" !in body ==>
        status == BAD_REQUEST && enrolled == None && meetings == old(meetings)
      ensures id in old(meetings) && "login" in body ==>
        && status == OK
        && meetings == old(meetings)[id := Enroll(old(meetings)[id], ReferenceTo(body["login"]))]
        && enrolled == Some(Roster(meetings[id].participants))
      ensures id in old(meetings) && "login" in body && ReferenceTo(body["login"]) in old(meetings)[id].participants ==>
        meetings == old(meetings)
      ensures id in old(meetings) && "login" in body && body["login"] in participantService.participants ==>
        Some(body["login"]) in meetings[id].participants
      ensures id in old(meetings) && "login" in body && body["login"] !in participantService.participants ==>
        None in meetings[id].participants
    {
      var found := FindById(id);
      if found.None? {
        return NOT_FOUND, None;
      }
      if "login" !in body {
        return BAD_REQUEST, None;
      }
      var newcomer := participantService.FindByLogin(body["login"]);
      var meeting := found.value;
      meeting := meeting.(participants := meeting.participants + {if newcomer.Some? then Some(newcomer.value.login) else None});
      meetings := meetings[meeting.id := meeting];
      EnrollWithdraw(found.value, ReferenceTo(body["login"]));
      return OK, Some(Roster(meeting.participants));
    }

    /** DELETE /meetings/{id}/participants/{login}: 404 for an unknown
        meeting; otherwise the reference findByLogin gives leaves the set. */
    method RemoveParticipant(id: int, login: string)
      returns (status: int, enrolled: Option<set<Option<Participant>>>)
      requires Valid()
      modifies this
      ensures Valid() && nextId == old(nextId)
      ensures id !in old(meetings) ==> status == NOT_FOUND && enrolled == None && meetings == old(meetings)
      ensures id in old(meetings) ==>
        && status == OK
        && meetings == old(meetings)[id := Withdraw(old(meetings)[id], ReferenceTo(login))]
        && enrolled == Some(Roster(meetings[id].participants))
      ensures id in old(meetings) && ReferenceTo(login) !in old(meetings)[id].participants ==>
        meetings == old(meetings) && enrolled == Some(Roster(old(meetings)[id].participants))
      ensures id in old(meetings) && login in participantService.participants ==>
        Some(login) !in meetings[id].participants
    {
      var found := FindById(id);
      if found.None? {
        return NOT_FOUND, None;
      }
      var leaving := participantService.FindByLogin(login);
      var meeting := found.value;
      meeting := meeting.(participants := meeting.participants - {if leaving.Some? then Some(leaving.value.login) else None});
      meetings := meetings[meeting.id := meeting];
      EnrollWithdraw(found.value, ReferenceTo(login));
      return OK, Some(Roster(meeting.participants));
    }
  }
}
