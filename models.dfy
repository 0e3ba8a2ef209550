/**
 * The four tables of the verification service (cases, notes, decline reasons
 * and closures), the constructors that fill a row from a request dict, the
 * query rules over the tables, and the `as_dict` projections.
 *
 * The case table is a map from `verification_id` to its row; ids are handed
 * out from 1 upwards. A query without `ORDER BY` has no order the database
 * promises; the model chooses one: ascending id for cases, insertion order
 * for closures.
 */
module Models {
  import opened Wrappers
  import opened Json
  import Strings
  import Query

  /** `datetime` values, as opaque ordered instants. */
  type Timestamp = int

  const PENDING: string := "Pending"
  const APPROVED: string := "Approved"
  const DECLINED: string := "Declined"
  const CLOSED: string := "Closed"
  /** Only ever reported by `as_dict`, never stored. */
  const IN_PROGRESS: string := "In Progress"

  datatype CaseRecord = CaseRecord(
    userId: string,
    ldapId: string,
    registrationData: Dict,
    status: string,
    dateAdded: Timestamp,
    staffId: Option<string>,
    dateAgreed: Option<Timestamp>)

  datatype Note = Note(noteId: int, caseId: int, noteDetail: string, staffId: Option<string>, dateAdded: Timestamp)

  datatype DeclineReason = DeclineReason(
    declineId: int,
    description: string,
    detail: string,
    advice: string,
    dateAdded: Timestamp,
    dateEnded: Option<Timestamp>)

  datatype Close = Close(closeId: int, caseId: int, closeDetail: string, requester: string, staffId: Option<string>, dateAdded: Timestamp)

  // ---------------------------------------------------------------------------
  // Request fields

  /** A `staff_id` as requests carry it: a string, or `null` for nobody. */
  predicate IsStaffValue(v: Json) {
    v.JNull? || v.JStr?
  }

  function StaffOf(v: Json): (r: Option<string>)
    requires IsStaffValue(v)
    ensures r.None? <==> v.JNull?
    ensures v.JStr? ==> r == Some(v.s)
  {
    if v.JStr? then Some(v.s) else None
  }

  predicate HasStr(d: Dict, k: string) {
    Get(d, k).Some? && Get(d, k).value.JStr?
  }

  function StrOf(d: Dict, k: string): (r: string)
    requires HasStr(d, k)
    ensures (k, JStr(r)) in d
  {
    Get(d, k).value.s
  }

  /** `d['staff_id']` is present and is a string or null. */
  predicate HasStaffId(d: Dict) {
    Get(d, "staff_id").Some? && IsStaffValue(Get(d, "staff_id").value)
  }

  function StaffIdOf(d: Dict): Option<string>
    requires HasStaffId(d)
  {
    StaffOf(Get(d, "staff_id").value)
  }

  // ---------------------------------------------------------------------------
  // Constructors

  /** What `Case(user_data)` reads with `[]`: a missing key is a `KeyError` in the source. */
  predicate CaseDetailsOk(d: Dict) {
    && HasStr(d, "user_id") && HasStr(d, "ldap_id") && HasStr(d, "status")
    && Get(d, "registration_data").Some? && Get(d, "registration_data").value.JObject?
    && (Get(d, "staff_id").None? || IsStaffValue(Get(d, "staff_id").value))
  }

  /**
   * `Case(user_data)`: copies the user id, ldap id, registration data and
   * status (no default for the status), takes `staff_id` with `None` as the
   * default, and leaves `date_agreed` empty; `date_added` is the insertion time.
   */
  function NewCase(d: Dict, now: Timestamp): (c: CaseRecord)
    requires CaseDetailsOk(d)
    ensures ("user_id", JStr(c.userId)) in d && ("ldap_id", JStr(c.ldapId)) in d && ("status", JStr(c.status)) in d
    ensures Get(d, "registration_data") == Some(JObject(c.registrationData))
    ensures !HasKey(d, "staff_id") ==> c.staffId.None?
    ensures HasKey(d, "staff_id") ==> c.staffId == StaffOf(Get(d, "staff_id").value)
    ensures c.dateAgreed.None? && c.dateAdded == now
  {
    CaseRecord(
      StrOf(d, "user_id"), StrOf(d, "ldap_id"), Get(d, "registration_data").value.fields, StrOf(d, "status"), now,
      match Get(d, "staff_id") case None => None case Some(v) => StaffOf(v),
      None)
  }

  /** `Note(entry)` for the entry `_add_note` builds from a case id, a staff id and a text. */
  function NewNote(noteId: int, caseId: int, staffId: Option<string>, noteText: string, now: Timestamp): (n: Note)
    ensures n.noteId == noteId && n.dateAdded == now
    ensures n.caseId == caseId && n.noteDetail == noteText && n.staffId == staffId
  {
    Note(noteId, caseId, noteText, staffId, now)
  }

  /** What `DeclineReason(decline)` reads with `[]`. */
  predicate DeclineEntryOk(d: Dict) {
    HasStr(d, "decline_reason") && HasStr(d, "decline_text") && HasStr(d, "decline_advice")
  }

  /**
   * `DeclineReason(decline)`: the description, detail and advice come from the
   * entry; the reason is in use (`date_ended` empty) from `now` on.
   */
  function NewDeclineReason(declineId: int, d: Dict, now: Timestamp): (x: DeclineReason)
    requires DeclineEntryOk(d)
    ensures x.declineId == declineId && x.dateAdded == now && x.dateEnded.None?
    ensures Get(d, "decline_reason") == Some(JStr(x.description))
    ensures Get(d, "decline_text") == Some(JStr(x.detail))
    ensures Get(d, "decline_advice") == Some(JStr(x.advice))
  {
    DeclineReason(declineId, StrOf(d, "decline_reason"), StrOf(d, "decline_text"), StrOf(d, "decline_advice"), now, None)
  }

  /** What `Close(case_id, closure)` reads with `[]`. */
  predicate CloseDetailsOk(d: Dict) {
    HasStr(d, "close_detail") && HasStr(d, "requester") && HasStaffId(d)
  }

  /** `Close(case_id, closure)`: tied to the case, copying detail, requester and staff id. */
  function NewClose(closeId: int, caseId: int, d: Dict, now: Timestamp): (c: Close)
    requires CloseDetailsOk(d)
    ensures c.closeId == closeId && c.caseId == caseId && c.dateAdded == now
    ensures ("close_detail", JStr(c.closeDetail)) in d && ("requester", JStr(c.requester)) in d
    ensures c.staffId == StaffOf(Get(d, "staff_id").value)
  {
    Close(closeId, caseId, StrOf(d, "close_detail"), StrOf(d, "requester"), StaffIdOf(d), now)
  }

  // ---------------------------------------------------------------------------
  // Queries

  /** Every case id lies in `[1, next)`: the table has handed out only ids below `next`. */
  predicate IdsBelow(cases: map<int, CaseRecord>, next: int) {
    forall id :: id in cases ==> 1 <= id < next
  }

  /** The ids of the rows of `cases` in `[lo, hi)`, ascending. */
  function IdsBetween(cases: map<int, CaseRecord>, lo: int, hi: int): (ids: seq<int>)
    ensures forall i :: 0 <= i < |ids| ==> lo <= ids[i] < hi && ids[i] in cases
    ensures forall id :: lo <= id < hi && id in cases ==> id in ids
    ensures Query.Increasing(ids)
    decreases hi - lo
  {
    if hi <= lo then []
    else
      var rest := IdsBetween(cases, lo + 1, hi);
      if lo in cases then
        Query.IncreasingCons(lo, rest);
        [lo] + rest
      else rest
  }

  /** The case table in the order the model chooses for an unordered query: ascending id. */
  function TableOrder(cases: map<int, CaseRecord>, next: int): (ids: seq<int>)
    requires IdsBelow(cases, next)
    ensures forall id :: multiset(ids)[id] == if id in cases then 1 else 0
    ensures forall i :: 0 <= i < |ids| ==> ids[i] in cases
    ensures forall id :: id in ids <==> id in cases
    ensures Query.Increasing(ids)
  {
    var ids := IdsBetween(cases, 1, next);
    Query.IncreasingOnce(ids);
    ids
  }

  /** `Case.get_case_by_id`: the row with that primary key, or nothing. */
  function CaseGetById(cases: map<int, CaseRecord>, caseId: int): (r: Option<CaseRecord>)
    ensures r.Some? <==> caseId in cases
    ensures r.Some? ==> r.value == cases[caseId]
  {
    if caseId in cases then Some(cases[caseId]) else None
  }

  /** The first id of the ascending `ids` whose row has that ldap id. */
  function FirstWithLdap(cases: map<int, CaseRecord>, ids: seq<int>, ldapId: string): (r: Option<int>)
    requires forall i :: 0 <= i < |ids| ==> ids[i] in cases
    requires Query.Increasing(ids)
    ensures r.None? ==> forall i :: 0 <= i < |ids| ==> cases[ids[i]].ldapId != ldapId
    ensures r.Some? ==> r.value in ids && r.value in cases && cases[r.value].ldapId == ldapId
    ensures r.Some? ==> forall i :: 0 <= i < |ids| && ids[i] < r.value ==> cases[ids[i]].ldapId != ldapId
    decreases |ids|
  {
    if ids == [] then None
    else if cases[ids[0]].ldapId == ldapId then Some(ids[0])
    else
      assert forall i :: 1 <= i < |ids| ==> ids[i] == ids[1..][i - 1];
      FirstWithLdap(cases, ids[1..], ldapId)
  }

  /** `Case.get_case_by_ldap_id`: the first case, in table order, with that ldap id. */
  function CaseGetByLdapId(cases: map<int, CaseRecord>, next: int, ldapId: string): (r: Option<int>)
    requires IdsBelow(cases, next)
    ensures r.None? <==> forall id :: id in cases ==> cases[id].ldapId != ldapId
    ensures r.Some? ==> r.value in cases && cases[r.value].ldapId == ldapId
    ensures r.Some? ==> forall id :: id in cases && id < r.value ==> cases[id].ldapId != ldapId
  {
    var ids := TableOrder(cases, next);
    var r := FirstWithLdap(cases, ids, ldapId);
    assert forall id :: id in cases ==> exists i :: 0 <= i < |ids| && ids[i] == id;
    r
  }

  /** `Case.get_pending`: exactly the Pending cases, each once, newest first. */
  function CaseGetPending(cases: map<int, CaseRecord>, next: int): (r: seq<int>)
    requires IdsBelow(cases, next)
    ensures forall id :: multiset(r)[id] == if id in cases && cases[id].status == PENDING then 1 else 0
    ensures forall id :: id in r <==> id in cases && cases[id].status == PENDING
    ensures forall i :: 0 <= i < |r| ==> r[i] in cases
    ensures forall i, j :: 0 <= i < j < |r| ==> r[i] != r[j]
    ensures forall i, j :: 0 <= i < j < |r| ==> cases[r[i]].dateAdded >= cases[r[j]].dateAdded
  {
    var pending := Query.Filter(TableOrder(cases, next), id => id in cases && cases[id].status == PENDING);
    var r := Query.SortBy(pending, NewestFirst(cases));
    PendingFacts(cases, next, pending, r);
    r
  }

  /** The sort key that puts later `date_added` first. */
  function NewestFirst(cases: map<int, CaseRecord>): int -> int {
    (id: int) => if id in cases then -cases[id].dateAdded else 0
  }

  lemma PendingFacts(cases: map<int, CaseRecord>, next: int, pending: seq<int>, r: seq<int>)
    requires IdsBelow(cases, next)
    requires pending == Query.Filter(TableOrder(cases, next), id => id in cases && cases[id].status == PENDING)
    requires r == Query.SortBy(pending, NewestFirst(cases))
    ensures forall id :: multiset(r)[id] == if id in cases && cases[id].status == PENDING then 1 else 0
    ensures forall id :: id in r <==> id in cases && cases[id].status == PENDING
    ensures forall i :: 0 <= i < |r| ==> r[i] in cases
    ensures forall i, j :: 0 <= i < j < |r| ==> r[i] != r[j]
    ensures forall i, j :: 0 <= i < j < |r| ==> cases[r[i]].dateAdded >= cases[r[j]].dateAdded
  {
    var ids := TableOrder(cases, next);
    var p := id => id in cases && cases[id].status == PENDING;
    var key := NewestFirst(cases);
    Query.SortedFilter(ids, p, key, r);
    Query.AtMostOnceDistinct(r);
  }

  /** The `as_dict` of each case in `ids`, in that order. */
  function CaseViews(cases: map<int, CaseRecord>, ids: seq<int>, notes: seq<Note>): (r: seq<CaseView>)
    requires forall i :: 0 <= i < |ids| ==> ids[i] in cases
    ensures |r| == |ids| && forall i :: 0 <= i < |ids| ==> r[i] == CaseAsView(ids[i], cases[ids[i]], notes)
  {
    seq(|ids|, i requires 0 <= i < |ids| => CaseAsView(ids[i], cases[ids[i]], notes))
  }

  /** The `as_dict` of each Pending case, newest first, each showing In Progress once it has notes. */
  function PendingViews(cases: map<int, CaseRecord>, next: int, notes: seq<Note>): (r: seq<CaseView>)
    requires IdsBelow(cases, next)
    ensures forall i :: 0 <= i < |r| ==> r[i].caseId in cases && cases[r[i].caseId].status == PENDING
    ensures forall id :: id in cases && cases[id].status == PENDING ==> exists i :: 0 <= i < |r| && r[i].caseId == id
    ensures forall i, j :: 0 <= i < j < |r| ==> r[i].caseId != r[j].caseId
    ensures forall i, j :: 0 <= i < j < |r| ==> r[i].dateAdded >= r[j].dateAdded
    ensures forall i :: 0 <= i < |r| ==> r[i].status == DisplayStatus(PENDING, HasNotes(notes, r[i].caseId))
  {
    CaseViews(cases, CaseGetPending(cases, next), notes)
  }

  /** One `ilike('%' + needle + '%')` condition of `Case.search`, on a registration field. */
  datatype SearchFilter = SearchFilter(field: string, needle: string)

  /**
   * The condition holds when the field is present with a textual value
   * containing the needle, ignoring case; a missing or `null` field never matches.
   */
  predicate FieldContains(registration: Dict, field: string, needle: string) {
    match Get(registration, field)
    case None => false
    case Some(v) =>
      match AsText(v)
      case None => false
      case Some(text) => Strings.Contains(Strings.Lower(text), Strings.Lower(needle))
  }

  predicate FilterHolds(c: CaseRecord, f: SearchFilter) {
    FieldContains(c.registrationData, f.field, f.needle)
  }

  predicate MatchesAll(c: CaseRecord, filters: seq<SearchFilter>) {
    forall f :: f in filters ==> FilterHolds(c, f)
  }

  /** The condition a non-empty search parameter contributes; an empty one contributes none. */
  function FilterFor(field: string, needle: string): (r: seq<SearchFilter>)
    ensures |r| <= 1
    ensures forall f :: f in r <==> f == SearchFilter(field, needle) && needle != ""
  {
    if needle == "" then [] else [SearchFilter(field, needle)]
  }

  /**
   * The filter list `Case.search` builds: one condition per non-empty
   * parameter, on first_name, last_name, organisation_name and email.
   */
  method SearchFilters(firstName: string, lastName: string, organisationName: string, email: string)
    returns (filters: seq<SearchFilter>)
    ensures filters == FilterFor("first_name", firstName) + FilterFor("last_name", lastName)
                       + FilterFor("organisation_name", organisationName) + FilterFor("email", email)
    ensures forall f :: f in filters <==>
      || (f == SearchFilter("first_name", firstName) && firstName != "")
      || (f == SearchFilter("last_name", lastName) && lastName != "")
      || (f == SearchFilter("organisation_name", organisationName) && organisationName != "")
      || (f == SearchFilter("email", email) && email != "")
  {
    filters := [];
    if firstName != "" {
      filters := filters + [SearchFilter("first_name", firstName)];
    }
    if lastName != "" {
      filters := filters + [SearchFilter("last_name", lastName)];
    }
    if organisationName != "" {
      filters := filters + [SearchFilter("organisation_name", organisationName)];
    }
    if email != "" {
      filters := filters + [SearchFilter("email", email)];
    }
  }

  /** A case meets a concatenation of conditions exactly when it meets both parts. */
  lemma MatchesAllConcat(c: CaseRecord, a: seq<SearchFilter>, b: seq<SearchFilter>)
    ensures MatchesAll(c, a + b) <==> MatchesAll(c, a) && MatchesAll(c, b)
  {
    if MatchesAll(c, a) && MatchesAll(c, b) {
      forall f | f in a + b ensures FilterHolds(c, f) {
        assert f in a || f in b;
      }
    }
  }

  /** `Case.query.filter(*filters)`: the cases meeting every condition, in table order. */
  function CaseSearch(cases: map<int, CaseRecord>, next: int, filters: seq<SearchFilter>): (r: seq<int>)
    requires IdsBelow(cases, next)
    ensures forall id :: id in r <==> id in cases && MatchesAll(cases[id], filters)
    ensures forall id :: multiset(r)[id] == if id in cases && MatchesAll(cases[id], filters) then 1 else 0
    ensures Query.Increasing(r)
  {
    var ids := TableOrder(cases, next);
    var r := Query.Filter(ids, id => id in cases && MatchesAll(cases[id], filters));
    assert Query.Increasing(r) by {
      Query.FilterKeepsIncreasing(ids, id => id in cases && MatchesAll(cases[id], filters));
    }
    r
  }

  /** With every parameter blank there is no condition, so a search returns the whole table. */
  lemma BlankSearchReturnsAll(cases: map<int, CaseRecord>, next: int)
    requires IdsBelow(cases, next)
    ensures CaseSearch(cases, next, []) == TableOrder(cases, next)
  {
    var ids := TableOrder(cases, next);
    Query.FilterAcceptingAll(ids, id => id in cases && MatchesAll(cases[id], []));
  }

  /** `Note.get_notepad_by_case_id`: exactly that case's notes, newest first. */
  function NoteGetByCaseId(notes: seq<Note>, caseId: int): (r: seq<Note>)
    ensures forall n :: multiset(r)[n] == if n.caseId == caseId then multiset(notes)[n] else 0
    ensures forall n :: n in r <==> n in notes && n.caseId == caseId
    ensures forall i, j :: 0 <= i < j < |r| ==> r[i].dateAdded >= r[j].dateAdded
  {
    var mine := Query.Filter(notes, (n: Note) => n.caseId == caseId);
    var key := (n: Note) => -n.dateAdded;
    var r := Query.SortBy(mine, key);
    Query.SameElements(r, mine);
    assert forall i, j :: 0 <= i < j < |r| ==> key(r[i]) <= key(r[j]);
    r
  }

  /** `DeclineReason.get_all_decline_reasons`: the reasons still in use, by ascending id. */
  function DeclineReasonGetAll(reasons: seq<DeclineReason>): (r: seq<DeclineReason>)
    ensures forall x :: multiset(r)[x] == if x.dateEnded.None? then multiset(reasons)[x] else 0
    ensures forall x :: x in r <==> x in reasons && x.dateEnded.None?
    ensures forall i, j :: 0 <= i < j < |r| ==> r[i].declineId <= r[j].declineId
  {
    var current := Query.Filter(reasons, (x: DeclineReason) => x.dateEnded.None?);
    var key := (x: DeclineReason) => x.declineId;
    var r := Query.SortBy(current, key);
    Query.SameElements(r, current);
    assert forall i, j :: 0 <= i < j < |r| ==> key(r[i]) <= key(r[j]);
    r
  }

  /** `Close.get_closure_by_case_id`: the first closure recorded for the case, if any. */
  function CloseGetByCaseId(closures: seq<Close>, caseId: int): (r: Option<Close>)
    ensures r.Some? <==> exists c :: c in closures && c.caseId == caseId
    ensures r.Some? ==> r.value.caseId == caseId
    ensures r.Some? ==> exists i :: (0 <= i < |closures| && closures[i] == r.value
                                     && forall j :: 0 <= j < i ==> closures[j].caseId != caseId)
    decreases |closures|
  {
    if closures == [] then None
    else if closures[0].caseId == caseId then Some(closures[0])
    else
      var r := CloseGetByCaseId(closures[1..], caseId);
      assert forall c :: c in closures && c.caseId == caseId ==> c in closures[1..];
      if r.Some? then
        var i :| 0 <= i < |closures[1..]| && closures[1..][i] == r.value
          && forall j :: 0 <= j < i ==> closures[1..][j].caseId != caseId;
        assert closures[i + 1] == r.value;
        assert forall j :: 1 <= j < i + 1 ==> closures[j] == closures[1..][j - 1];
        r
      else r
  }

  // ---------------------------------------------------------------------------
  // Projections (`as_dict`)

  datatype CaseView = CaseView(
    caseId: int,
    userId: string,
    ldapId: string,
    registrationData: Dict,
    dateAdded: Timestamp,
    staffId: Option<string>,
    dateAgreed: Option<Timestamp>,
    status: string)

  predicate HasNotes(notes: seq<Note>, caseId: int) {
    exists n :: n in notes && n.caseId == caseId
  }

  /** The status `as_dict` reports: a Pending case that has notes shows as In Progress. */
  function DisplayStatus(status: string, hasNotes: bool): (r: string)
    ensures r == IN_PROGRESS <==> (status == PENDING && hasNotes) || status == IN_PROGRESS
    ensures r != status ==> status == PENDING && hasNotes
  {
    if status == PENDING && hasNotes then IN_PROGRESS else status
  }

  /** `Case.as_dict`: every stored column, with the displayed status in place of the stored one. */
  function CaseAsView(caseId: int, c: CaseRecord, notes: seq<Note>): (v: CaseView)
    ensures v.caseId == caseId && v.userId == c.userId && v.ldapId == c.ldapId
    ensures v.registrationData == c.registrationData && v.staffId == c.staffId
    ensures v.dateAdded == c.dateAdded && v.dateAgreed == c.dateAgreed
    ensures v.status == DisplayStatus(c.status, HasNotes(notes, caseId))
  {
    CaseView(caseId, c.userId, c.ldapId, c.registrationData, c.dateAdded, c.staffId, c.dateAgreed,
      DisplayStatus(c.status, HasNotes(notes, caseId)))
  }

  /** A note added to a Pending case makes it show as In Progress from then on. */
  lemma NoteMakesPendingInProgress(caseId: int, c: CaseRecord, notes: seq<Note>, n: Note)
    requires c.status == PENDING && n.caseId == caseId
    ensures CaseAsView(caseId, c, notes + [n]).status == IN_PROGRESS
  {
    assert n in notes + [n];
  }

  /** Without notes, and for every stored status other than Pending, the stored status is reported. */
  lemma StoredStatusShown(caseId: int, c: CaseRecord, notes: seq<Note>)
    requires c.status != PENDING || !HasNotes(notes, caseId)
    ensures CaseAsView(caseId, c, notes).status == c.status
  {
  }

  datatype NoteView = NoteView(noteId: int, caseId: int, noteText: string, staffId: Option<string>, dateAdded: Timestamp)

  /** `Note.as_dict`: the stored detail comes back as `note_text`, the verification id as `case_id`. */
  function NoteAsView(n: Note): (v: NoteView)
    ensures v.noteText == n.noteDetail && v.caseId == n.caseId
  {
    NoteView(n.noteId, n.caseId, n.noteDetail, n.staffId, n.dateAdded)
  }

  /** `_extract_rows(Note.get_notepad_by_case_id(case_id))`: the views of the case's notes. */
  function NoteViews(notes: seq<Note>, caseId: int): seq<NoteView> {
    var ns := NoteGetByCaseId(notes, caseId);
    seq(|ns|, i requires 0 <= i < |ns| => NoteAsView(ns[i]))
  }

  /** The notepad of a case holds only that case's notes, newest first. */
  lemma NoteViewsOrder(notes: seq<Note>, caseId: int)
    ensures var r := NoteViews(notes, caseId);
      && (forall i :: 0 <= i < |r| ==> r[i].caseId == caseId)
      && (forall i, j :: 0 <= i < j < |r| ==> r[i].dateAdded >= r[j].dateAdded)
  {
    var ns := NoteGetByCaseId(notes, caseId);
    var r := NoteViews(notes, caseId);
    forall i | 0 <= i < |r| ensures r[i] == NoteAsView(ns[i]) && r[i].caseId == caseId && r[i].dateAdded == ns[i].dateAdded {
      assert ns[i] in ns;
    }
  }

  /** The notepad has one entry per note of the case. */
  lemma NoteViewsCount(notes: seq<Note>, caseId: int)
    ensures |NoteViews(notes, caseId)| == |Query.Filter(notes, (n: Note) => n.caseId == caseId)|
  {
    NoteCount(notes, caseId, NoteGetByCaseId(notes, caseId));
  }

  /** Every note of the case is on its notepad. */
  lemma NoteViewsComplete(notes: seq<Note>, caseId: int, n: Note)
    requires n in notes && n.caseId == caseId
    ensures NoteAsView(n) in NoteViews(notes, caseId)
  {
    var ns := NoteGetByCaseId(notes, caseId);
    var i :| 0 <= i < |ns| && ns[i] == n;
    assert NoteViews(notes, caseId)[i] == NoteAsView(n);
  }

  /** Every entry of the notepad is the view of a note of the case. */
  lemma NoteViewsSound(notes: seq<Note>, caseId: int, i: int)
    requires 0 <= i < |NoteViews(notes, caseId)|
    ensures exists n :: n in notes && n.caseId == caseId && NoteViews(notes, caseId)[i] == NoteAsView(n)
  {
    var ns := NoteGetByCaseId(notes, caseId);
    assert ns[i] in ns;
    assert NoteViews(notes, caseId)[i] == NoteAsView(ns[i]);
  }

  /** The case's notes, sorted, are as many as the notes the filter keeps. */
  lemma NoteCount(notes: seq<Note>, caseId: int, ns: seq<Note>)
    requires ns == NoteGetByCaseId(notes, caseId)
    ensures |ns| == |Query.Filter(notes, (n: Note) => n.caseId == caseId)|
  {
    var mine := Query.Filter(notes, (n: Note) => n.caseId == caseId);
    assert forall n :: multiset(ns)[n] == multiset(mine)[n];
    assert multiset(ns) == multiset(mine);
    assert |multiset(ns)| == |ns| && |multiset(mine)| == |mine|;
  }

  /** The note text and case id a note is built from come back unchanged from `as_dict`. */
  lemma NoteRoundTrip(noteId: int, caseId: int, staffId: Option<string>, noteText: string, now: Timestamp)
    ensures NoteAsView(NewNote(noteId, caseId, staffId, noteText, now)) == NoteView(noteId, caseId, noteText, staffId, now)
  {
  }

  datatype DeclineReasonView = DeclineReasonView(
    declineId: int,
    description: string,
    detail: string,
    advice: string,
    dateAdded: Timestamp,
    dateEnded: Option<Timestamp>)

  /** `DeclineReason.as_dict`. */
  function DeclineReasonAsView(x: DeclineReason): (v: DeclineReasonView)
    ensures v.description == x.description && v.detail == x.detail && v.advice == x.advice
  {
    DeclineReasonView(x.declineId, x.description, x.detail, x.advice, x.dateAdded, x.dateEnded)
  }
}
