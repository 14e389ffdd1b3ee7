/** ParticipantService: the HQL text of the participant listing, and the
    participant store keyed by login. The database session is replaced by a
    map from login to participant; the password encoder is injected. */
module Participants {
  import opened Wrappers

  datatype Participant = Participant(
    login: string,
    password: string,
    firstName: string,
    lastName: string,
    email: string)

  /** Raised by the persistence layer when a row with that login exists. */
  datatype PersistenceError = DuplicateLogin

  // ---------------------------------------------------------------------
  // String helpers
  // ---------------------------------------------------------------------

  predicate StartsWith(s: string, prefix: string) {
    |prefix| <= |s| && s[..|prefix|] == prefix
  }

  predicate EndsWith(s: string, suffix: string) {
    |suffix| <= |s| && s[|s| - |suffix|..] == suffix
  }

  lemma EndsWithAppend(a: string, b: string)
    ensures EndsWith(a + b, b) && (a + b)[..|a|] == a
  {
    assert (a + b)[|a|..] == b;
  }

  /** A string cannot end with `suffix` if they differ at the j-th last character. */
  lemma NotEndsWith(s: string, suffix: string, j: nat)
    requires 0 < j <= |suffix| && j <= |s|
    requires s[|s| - j] != suffix[|suffix| - j]
    ensures !EndsWith(s, suffix)
  {
    if |suffix| <= |s| {
      assert s[|s| - |suffix|..][|suffix| - j] == s[|s| - j];
    }
  }

  // ---------------------------------------------------------------------
  // The listing query
  // ---------------------------------------------------------------------

  const BaseQuery := "FROM Participant"
  const WherePrefix := " WHERE login LIKE '%"
  const WhereSuffix := "%'"
  const OrderByLogin := " ORDER BY login"

  datatype Direction = Asc | Desc

  /** What a listing asks the database for: an optional login substring
      filter and an optional ordering by login with an optional direction. */
  datatype Ordering = Unordered | ByLogin(direction: Option<Direction>)
  datatype Listing = Listing(filter: Option<string>, ordering: Ordering)

  function Keyword(d: Direction): string {
    match d
    case Asc => "ASC"
    case Desc => "DESC"
  }

  /** A listing whose filter, when present, is a non-empty substring. */
  predicate WellFormed(l: Listing) {
    l.filter != Some("")
  }

  /** The listing the three request parameters of getAll ask for: the empty
      key means no filter, only sortBy "login" orders, and only the exact
      words "ASC" and "DESC" choose a direction. */
  function ListingOf(sortBy: string, sortOrder: string, key: string): (l: Listing)
    ensures WellFormed(l)
    ensures l.filter.Some? <==> key != ""
    ensures key != "" ==> l.filter == Some(key)
    ensures l.ordering.ByLogin? <==> sortBy == "login"
    ensures sortBy == "login" ==>
      && (l.ordering.direction == Some(Asc) <==> sortOrder == "ASC")
      && (l.ordering.direction == Some(Desc) <==> sortOrder == "DESC")
  {
    Listing(
      if key == "" then None else Some(key),
      if sortBy != "login" then Unordered
      else if sortOrder == "ASC" then ByLogin(Some(Asc))
      else if sortOrder == "DESC" then ByLogin(Some(Desc))
      else ByLogin(None))
  }

  function FilterClause(filter: Option<string>): string {
    match filter
    case None => ""
    case Some(key) => WherePrefix + key + WhereSuffix
  }

  function OrderClause(o: Ordering): string {
    match o
    case Unordered => ""
    case ByLogin(None) => OrderByLogin
    case ByLogin(Some(d)) => OrderByLogin + " " + Keyword(d)
  }

  /** The HQL text of a listing: the filter clause, if any, comes right
      after the entity name and before the ordering clause. */
  function QueryText(l: Listing): (q: string)
    ensures StartsWith(q, BaseQuery)
  {
    EndsWithAppend(BaseQuery, FilterClause(l.filter) + OrderClause(l.ordering));
    BaseQuery + FilterClause(l.filter) + OrderClause(l.ordering)
  }

  /** Reads the ordering off the end of a query: the rest of the text and
      the ordering it ends with. */
  function SplitOrdering(q: string): (string, Ordering) {
    var asc, desc := OrderByLogin + " ASC", OrderByLogin + " DESC";
    if EndsWith(q, asc) then (q[..|q| - |asc|], ByLogin(Some(Asc)))
    else if EndsWith(q, desc) then (q[..|q| - |desc|], ByLogin(Some(Desc)))
    else if EndsWith(q, OrderByLogin) then (q[..|q| - |OrderByLogin|], ByLogin(None))
    else (q, Unordered)
  }

  /** Reads the filter off a query whose ordering has been removed. */
  function ParseFilter(s: string): Option<Option<string>> {
    var head := BaseQuery + WherePrefix;
    if s == BaseQuery then Some(None)
    else if StartsWith(s, head) && EndsWith(s, WhereSuffix) && |head| + |WhereSuffix| < |s|
    then Some(Some(s[|head|..|s| - |WhereSuffix|]))
    else None
  }

  /** Decodes the listing a query text asks for, or None when the text is
      not a listing query. */
  function ParseQuery(q: string): Option<Listing> {
    var (rest, ordering) := SplitOrdering(q);
    match ParseFilter(rest)
    case None => None
    case Some(filter) => Some(Listing(filter, ordering))
  }

  /** The text before the ordering clause ends in the entity name or in the
      closing quote of the filter. */
  lemma FilterPartLastChar(f: Option<string>)
    ensures var r := BaseQuery + FilterClause(f); |r| > 0 && r[|r| - 1] in {'t', '\''}
  {
  }

  lemma SplitOrderingOf(l: Listing)
    ensures SplitOrdering(QueryText(l)) == (BaseQuery + FilterClause(l.filter), l.ordering)
  {
    var r := BaseQuery + FilterClause(l.filter);
    var q := QueryText(l);
    FilterPartLastChar(l.filter);
    var asc, desc := OrderByLogin + " ASC", OrderByLogin + " DESC";
    match l.ordering
    case Unordered =>
      assert q == r;
      NotEndsWith(q, asc, 1);
      NotEndsWith(q, desc, 1);
      NotEndsWith(q, OrderByLogin, 1);
    case ByLogin(None) =>
      assert q == r + OrderByLogin;
      NotEndsWith(q, asc, 1);
      NotEndsWith(q, desc, 1);
      EndsWithAppend(r, OrderByLogin);
    case ByLogin(Some(Asc)) =>
      assert q == r + asc;
      EndsWithAppend(r, asc);
    case ByLogin(Some(Desc)) =>
      assert q == r + desc;
      NotEndsWith(q, asc, 4);
      EndsWithAppend(r, desc);
  }

  lemma ParseFilterOf(f: Option<string>)
    requires f != Some("")
    ensures ParseFilter(BaseQuery + FilterClause(f)) == Some(f)
  {
    match f
    case None =>
    case Some(key) =>
      var head := BaseQuery + WherePrefix;
      var s := BaseQuery + FilterClause(f);
      assert s == head + key + WhereSuffix;
      EndsWithAppend(head + key, WhereSuffix);
      EndsWithAppend(head, key);
      assert s[..|head|] == head;
      assert s[|head|..|s| - |WhereSuffix|] == key;
  }

  /** Round trip: the query text determines the listing it was built from,
      so two different listings never share a query. */
  lemma ParseQueryText(l: Listing)
    requires WellFormed(l)
    ensures ParseQuery(QueryText(l)) == Some(l)
  {
    SplitOrderingOf(l);
    ParseFilterOf(l.filter);
  }

  lemma QueryTextInjective(l1: Listing, l2: Listing)
    requires WellFormed(l1) && WellFormed(l2)
    requires QueryText(l1) == QueryText(l2)
    ensures l1 == l2
  {
    ParseQueryText(l1);
    ParseQueryText(l2);
  }

  /** The filter of getAll: none for the empty key; otherwise the LIKE
      clause, with the key copied verbatim, directly after the entity name. */
  lemma WhereClauseIffKey(sortBy: string, sortOrder: string, key: string)
    ensures var q := QueryText(ListingOf(sortBy, sortOrder, key));
      && (key == "" ==> q == BaseQuery || StartsWith(q, BaseQuery + OrderByLogin))
      && (key != "" ==> StartsWith(q, BaseQuery + WherePrefix + key + WhereSuffix))
  {
  }

  /** An ORDER BY clause is present exactly when sortBy is "login", and it
      then follows the filter clause. */
  lemma OrderByIffLogin(sortBy: string, sortOrder: string, key: string)
    ensures var q := QueryText(ListingOf(sortBy, sortOrder, key));
      && (sortBy == "login" <==>
            EndsWith(q, OrderByLogin) || EndsWith(q, OrderByLogin + " ASC") || EndsWith(q, OrderByLogin + " DESC"))
      && (sortBy == "login" ==> StartsWith(q, BaseQuery + FilterClause(ListingOf(sortBy, sortOrder, key).filter) + OrderByLogin))
  {
    var l := ListingOf(sortBy, sortOrder, key);
    var r := BaseQuery + FilterClause(l.filter);
    var q := QueryText(l);
    SplitOrderingOf(l);
    FilterPartLastChar(l.filter);
    if sortBy == "login" {
      match l.ordering
      case ByLogin(None) =>
        EndsWithAppend(r, OrderByLogin);
      case ByLogin(Some(d)) =>
        assert q == (r + OrderByLogin) + (" " + Keyword(d));
        EndsWithAppend(r + OrderByLogin, " " + Keyword(d));
        EndsWithAppend(r, OrderByLogin + " " + Keyword(d));
    } else {
      assert q == r;
      NotEndsWith(q, OrderByLogin + " ASC", 1);
      NotEndsWith(q, OrderByLogin + " DESC", 1);
      NotEndsWith(q, OrderByLogin, 1);
    }
  }

  /** A direction word ends the query exactly when sortBy is "login" and
      sortOrder is exactly that word; any other sortOrder adds nothing. */
  lemma DirectionOnlyForAscDesc(sortBy: string, sortOrder: string, key: string)
    ensures var q := QueryText(ListingOf(sortBy, sortOrder, key));
      && (EndsWith(q, " ASC") <==> sortBy == "login" && sortOrder == "ASC")
      && (EndsWith(q, " DESC") <==> sortBy == "login" && sortOrder == "DESC")
      && (sortBy == "login" && sortOrder != "ASC" && sortOrder != "DESC" ==> EndsWith(q, OrderByLogin))
  {
    var l := ListingOf(sortBy, sortOrder, key);
    var r := BaseQuery + FilterClause(l.filter);
    var q := QueryText(l);
    FilterPartLastChar(l.filter);
    match l.ordering
    case Unordered =>
      assert q == r;
      NotEndsWith(q, " ASC", 1);
      NotEndsWith(q, " DESC", 1);
    case ByLogin(None) =>
      assert q == r + OrderByLogin;
      EndsWithAppend(r, OrderByLogin);
      NotEndsWith(q, " ASC", 1);
      NotEndsWith(q, " DESC", 1);
    case ByLogin(Some(Asc)) =>
      assert q == (r + OrderByLogin) + " ASC";
      EndsWithAppend(r + OrderByLogin, " ASC");
      NotEndsWith(q, " DESC", 4);
    case ByLogin(Some(Desc)) =>
      assert q == (r + OrderByLogin) + " DESC";
      EndsWithAppend(r + OrderByLogin, " DESC");
      NotEndsWith(q, " ASC", 4);
  }

  /** With no key and no login ordering, the listing is the plain query of
      the parameterless getAll. */
  lemma NeutralArgumentsGiveBaseQuery(sortBy: string, sortOrder: string)
    requires sortBy != "login"
    ensures QueryText(ListingOf(sortBy, sortOrder, "")) == BaseQuery
    ensures ParseQuery(BaseQuery) == Some(Listing(None, Unordered))
  {
  }

  // ---------------------------------------------------------------------
  // The participant store
  // ---------------------------------------------------------------------

  class ParticipantService {
    /** The participant table, keyed by login. */
    var participants: map<string, Participant>
    /** The injected one-way, salted password encoder. */
    const passwordEncoder: string -> string

    /** Every participant is stored under its own login. */
    ghost predicate Valid()
      reads this
    {
      forall login :: login in participants ==> participants[login].login == login
    }

    constructor (stored: map<string, Participant>, encoder: string -> string)
      requires forall login :: login in stored ==> stored[login].login == login
      ensures Valid()
      ensures participants == stored && passwordEncoder == encoder
    {
      participants := stored;
      passwordEncoder := encoder;
    }

    /** getAll(): the unfiltered, unordered listing. */
    method GetAll() returns (hql: string)
      ensures hql == BaseQuery
      ensures ParseQuery(hql) == Some(Listing(None, Unordered))
    {
      hql := BaseQuery;
      NeutralArgumentsGiveBaseQuery("", "");
    }

    /** getAll(sortBy, sortOrder, key): grows the query clause by clause. */
    method GetAllFiltered(sortBy: string, sortOrder: string, key: string) returns (hql: string)
      ensures hql == QueryText(ListingOf(sortBy, sortOrder, key))
      ensures ParseQuery(hql) == Some(ListingOf(sortBy, sortOrder, key))
    {
      ghost var l := ListingOf(sortBy, sortOrder, key);
      hql := BaseQuery;
      if key != "" {
        hql := hql + WherePrefix + key + WhereSuffix;
      }
      assert hql == BaseQuery + FilterClause(l.filter);
      if sortBy == "login" {
        hql := hql + OrderByLogin;
        if sortOrder == "ASC" || sortOrder == "DESC" {
          assert sortOrder == Keyword(l.ordering.direction.value);
          hql := hql + " " + sortOrder;
        }
      }
      assert hql == BaseQuery + FilterClause(l.filter) + OrderClause(l.ordering);
      ParseQueryText(l);
    }

    /** findByLogin: the stored participant, or None when no row has that login. */
    function FindByLogin(login: string): (found: Option<Participant>)
      reads this
      ensures found.Some? <==> login in participants
      ensures found.Some? ==> found.value == participants[login]
      ensures found.Some? && Valid() ==> found.value.login == login
    {
      if login in participants then Some(participants[login]) else None
    }

    /** add: replaces the password by its encoding, then saves; a login that
        is already stored makes the save fail and leaves the table as it was. */
    method Add(participant: Participant) returns (saved: Result<Participant, PersistenceError>)
      requires Valid()
      modifies this
      ensures Valid()
      ensures participant.login in old(participants) ==>
        saved == Failure(DuplicateLogin) && participants == old(participants)
      ensures participant.login !in old(participants) ==>
        && saved == Success(participant.(password := passwordEncoder(participant.password)))
        && participants == old(participants)[participant.login := saved.value]
    {
      var hashed := participant.(password := passwordEncoder(participant.password));
      if participant.login in participants {
        saved := Failure(DuplicateLogin);
      } else {
        participants := participants[participant.login := hashed];
        saved := Success(hashed);
      }
    }

    /** update: merges the participant into the row with its login,
        inserting it when there is none. */
    method Update(participant: Participant)
      requires Valid()
      modifies this
      ensures Valid()
      ensures participants == old(participants)[participant.login := participant]
      ensures forall login :: login in old(participants) && login != participant.login ==>
        login in participants && participants[login] == old(participants)[login]
    {
      participants := participants[participant.login := participant];
    }

    /** delete: removes the row with the participant's login. */
    method Delete(participant: Participant)
      requires Valid()
      modifies this
      ensures Valid()
      ensures participants == old(participants) - {participant.login}
      ensures participant.login !in participants
      ensures forall login :: login in old(participants) && login != participant.login ==>
        login in participants && participants[login] == old(participants)[login]
    {
      participants := participants - {participant.login};
    }
  }
}
