/**
 * The verification service: the case workflow over the four tables.
 *
 * `Store` holds the tables and carries one method per service operation that
 * writes. Each method takes the outcome of its call into a sibling service
 * (the account service or the dataset-access service) as a parameter and
 * reports the request it issued in `call`; every check and that call come
 * before the first write, so an operation that fails leaves the store as it
 * was. `now` is the clock reading the operation records.
 */
module Service {
  import opened Wrappers
  import opened Errors
  import opened Json
  import opened Models
  import Strings
  import Query

  const ACTION_APPROVE: string := "Approve"
  const ACTION_DECLINE: string := "Decline"
  const AUTO_REQUESTER: string := "HMLR"
  const AUTO_CLOSE_DETAIL: string := "Automated account closure"

  /** The requests the service sends to its sibling services. */
  datatype ExternalCall =
    | AccountApprove(ldapId: string)
    | AccountDecline(ldapId: string, reason: string, advice: string, userId: string)
    | AccountClose(ldapId: string, userId: string, requester: string)
    | UlapdUpdate(profile: Dict)
    | UlapdUpdateDatasetAccess(payload: Dict)
    | AccountGet(ldapId: string)

  // ---------------------------------------------------------------------------
  // The advisory lock

  /**
   * `_can_perform_action`: a Pending case may only be acted on by the staff
   * member it is locked to (or, when it is locked to nobody, by a caller that
   * names nobody); a case in any other status is open to everyone.
   */
  predicate CanPerformAction(c: CaseRecord, staffId: Option<string>) {
    c.status == PENDING ==> staffId == c.staffId
  }

  /** The three faces of the lock rule. */
  lemma LockRule(c: CaseRecord, staffId: Option<string>)
    ensures c.status != PENDING ==> CanPerformAction(c, staffId)
    ensures c.status == PENDING && c.staffId.Some? ==> (CanPerformAction(c, staffId) <==> staffId == c.staffId)
    ensures c.status == PENDING && c.staffId.None? && staffId.Some? ==> !CanPerformAction(c, staffId)
  {
  }

  // ---------------------------------------------------------------------------
  // Pure helpers

  /** `_status_update`: the decision, the deciding staff member and the decision time; nothing else changes. */
  function Decided(c: CaseRecord, decision: string, staffId: Option<string>, now: Timestamp): (d: CaseRecord)
    ensures d.status == decision && d.staffId == staffId && d.dateAgreed == Some(now)
    ensures d.(status := c.status, staffId := c.staffId, dateAgreed := c.dateAgreed) == c
  {
    c.(status := decision, staffId := staffId, dateAgreed := Some(now))
  }

  /** The request data echoed back with `status_updated` set and `case_id` added. */
  function Actioned(data: Dict, caseId: int): (r: Dict)
    ensures Get(r, "status_updated") == Some(JBool(true)) && Get(r, "case_id") == Some(JInt(caseId))
    ensures forall k :: k != "status_updated" && k != "case_id" ==> Get(r, k) == Get(data, k)
  {
    Assign(Assign(data, "status_updated", JBool(true)), "case_id", JInt(caseId))
  }

  /** What a decline reads from the request: a non-empty reason (its first letter is indexed) and advice. */
  predicate DeclineDataOk(data: Dict) {
    HasStr(data, "reason") && StrOf(data, "reason") != "" && HasStr(data, "advice")
  }

  /** The note a decline leaves, with the reason as supplied. */
  function DeclineNote(reason: string, advice: string): string {
    "Declined: Reason - " + reason + "; Next Steps - " + advice
  }

  /** "A", "A and B", "A, B and C": an English list, defined independently of `join`. */
  function EnglishList(xs: seq<string>): string
    decreases |xs|
  {
    if |xs| == 0 then ""
    else if |xs| == 1 then xs[0]
    else if |xs| == 2 then xs[0] + " and " + xs[1]
    else xs[0] + ", " + EnglishList(xs[1..])
  }

  /** Joining all but the last with ", " and adding " and " + last gives the English list. */
  lemma {:induction false} JoinAndLastIsEnglishList(xs: seq<string>)
    requires |xs| >= 2
    ensures Strings.Join(", ", xs[..|xs| - 1]) + " and " + xs[|xs| - 1] == EnglishList(xs)
    decreases |xs|
  {
    if |xs| == 2 {
      assert xs[..1] == [xs[0]];
    } else {
      var tail := xs[1..];
      JoinAndLastIsEnglishList(tail);
      assert xs[..|xs| - 1] == [xs[0]] + tail[..|tail| - 1];
      assert ([xs[0]] + tail[..|tail| - 1])[1..] == tail[..|tail| - 1];
      assert tail[|tail| - 1] == xs[|xs| - 1];
    }
  }

  /**
   * `_add_update_note`'s wording: "No" when the user is no longer contactable,
   * the single preference, or the list of preferences with the plural verb.
   */
  function ContactNote(contactable: bool, contacts: seq<string>): (t: string)
    requires contactable ==> |contacts| > 0
    ensures !contactable ==> t == "Contact Preference has been updated to No due to User request"
    ensures contactable && |contacts| == 1 ==> t == "Contact Preference has been updated to " + contacts[0] + " due to User request"
    ensures contactable && |contacts| > 1 ==>
      t == "Contact Preferences have been updated to " + EnglishList(contacts) + " due to User request"
  {
    if !contactable then "Contact Preference has been updated to No due to User request"
    else if |contacts| == 1 then "Contact Preference has been updated to " + contacts[0] + " due to User request"
    else
      var start := Strings.Join(", ", contacts[..|contacts| - 1]);
      JoinAndLastIsEnglishList(contacts);
      "Contact Preferences have been updated to " + (start + " and " + contacts[|contacts| - 1]) + " due to User request"
  }

  /** A list of strings as JSON carries it. */
  predicate IsStrArray(v: Json) {
    v.JArray? && forall i :: 0 <= i < |v.items| ==> v.items[i].JStr?
  }

  function Strs(v: Json): (r: seq<string>)
    requires IsStrArray(v)
    ensures |r| == |v.items| && forall i :: 0 <= i < |r| ==> v.items[i] == JStr(r[i])
  {
    seq(|v.items|, i requires 0 <= i < |v.items| => v.items[i].s)
  }

  /** What `update_user_details` reads from its request once the case is found. */
  predicate UserUpdateOk(data: Dict) {
    && Get(data, "updated_data").Some? && Get(data, "updated_data").value.JObject?
    && var upd := Get(data, "updated_data").value.fields;
       HasKey(upd, "contactable") ==>
         && HasStaffId(data)
         && Get(upd, "contact_preferences").Some?
         && (Truthy(Get(upd, "contactable").value) ==>
               IsStrArray(Get(upd, "contact_preferences").value) && |Get(upd, "contact_preferences").value.items| > 0)
  }

  function UpdatedData(data: Dict): Dict
    requires UserUpdateOk(data)
  {
    Get(data, "updated_data").value.fields
  }

  /** The note `update_user_details` adds when `contactable` is among the updated keys. */
  function ContactNoteFor(data: Dict): string
    requires UserUpdateOk(data) && HasKey(UpdatedData(data), "contactable")
  {
    var upd := UpdatedData(data);
    var contactable := Truthy(Get(upd, "contactable").value);
    ContactNote(contactable, if contactable then Strs(Get(upd, "contact_preferences").value) else [])
  }

  /** One licence of an access update: an `agreed` flag and a `licence_id`. */
  predicate LicenceOk(v: Json) {
    v.JObject? && HasKey(v.fields, "agreed") && HasStr(v.fields, "licence_id")
  }

  /** What `update_dataset_access` reads from its request once the case is found. */
  predicate AccessUpdateOk(d: Dict) {
    && Get(d, "licences").Some? && Get(d, "licences").value.JArray?
    && (forall i :: 0 <= i < |Get(d, "licences").value.items| ==> LicenceOk(Get(d, "licences").value.items[i]))
    && HasStaffId(d)
  }

  function AccessMessage(licence: Json): string
    requires LicenceOk(licence)
  {
    "access " + (if Truthy(Get(licence.fields, "agreed").value) then "granted" else "removed")
      + " for " + StrOf(licence.fields, "licence_id") + " dataset"
  }

  /** One message per licence, in list order. */
  function AccessMessages(licences: seq<Json>): (msgs: seq<string>)
    requires forall i :: 0 <= i < |licences| ==> LicenceOk(licences[i])
    ensures |msgs| == |licences| && forall i :: 0 <= i < |licences| ==> msgs[i] == AccessMessage(licences[i])
  {
    seq(|licences|, i requires 0 <= i < |licences| => AccessMessage(licences[i]))
  }

  /** The loop of `update_dataset_access` that collects the access messages. */
  method DatasetAccessMessages(licences: seq<Json>) returns (msgs: seq<string>)
    requires forall i :: 0 <= i < |licences| ==> LicenceOk(licences[i])
    ensures msgs == AccessMessages(licences)
  {
    msgs := [];
    var i := 0;
    while i < |licences|
      invariant 0 <= i <= |licences|
      invariant msgs == AccessMessages(licences[..i])
    {
      msgs := msgs + [AccessMessage(licences[i])];
      i := i + 1;
    }
    assert licences[..|licences|] == licences;
  }

  function DatasetAccessNote(msgs: seq<string>): string {
    "Data access updated: " + Strings.Join(", ", msgs)
  }

  /** The group name in a DN: `dn.split(',')[0][3:]`, the first component without its `cn=`. */
  function GroupName(dn: string): string {
    Strings.DropFirst(Strings.BeforeFirst(dn, ','), 3)
  }

  /** For a DN `cn=<name>,...` the group name is exactly `<name>`. */
  lemma GroupNameOfCn(name: string, rest: string)
    requires ',' !in name
    requires rest == "" || rest[0] == ','
    ensures GroupName("cn=" + name + rest) == name
  {
    assert "cn=" + name + rest == ("cn=" + name) + rest;
    Strings.BeforeFirstOfHead("cn=" + name, rest, ',');
    assert ("cn=" + name)[3..] == name;
  }

  /** The names of DNs of the form `cn=<name>,...` are exactly those names, in order. */
  lemma GroupNamesOfCns(names: seq<string>, rests: seq<string>, dns: seq<string>)
    requires |names| == |rests| == |dns|
    requires forall i :: 0 <= i < |dns| ==> dns[i] == "cn=" + names[i] + rests[i]
    requires forall i :: 0 <= i < |names| ==> ',' !in names[i] && (rests[i] == "" || rests[i][0] == ',')
    ensures GroupNames(dns) == names
  {
    forall i | 0 <= i < |dns| ensures GroupName(dns[i]) == names[i] {
      GroupNameOfCn(names[i], rests[i]);
    }
  }

  /** The `groups` attribute of an account: one DN as a string, or a list of DNs. */
  predicate GroupsReplyOk(details: Json) {
    details.JObject? && Get(details.fields, "groups").Some?
    && (Get(details.fields, "groups").value.JStr? || IsStrArray(Get(details.fields, "groups").value))
  }

  function GroupDns(details: Json): (dns: seq<string>)
    requires GroupsReplyOk(details)
    ensures Get(details.fields, "groups").value.JStr? ==> dns == [Get(details.fields, "groups").value.s]
    ensures IsStrArray(Get(details.fields, "groups").value) ==> dns == Strs(Get(details.fields, "groups").value)
  {
    var g := Get(details.fields, "groups").value;
    if g.JStr? then [g.s] else Strs(g)
  }

  function GroupNames(dns: seq<string>): (names: seq<string>)
    ensures |names| == |dns| && forall i :: 0 <= i < |dns| ==> names[i] == GroupName(dns[i])
  {
    seq(|dns|, i requires 0 <= i < |dns| => GroupName(dns[i]))
  }

  /**
   * `_filter_groups_to_update`: the requested memberships that differ from
   * the current ones, i.e. exactly the entries whose target is not what the
   * user already has. Every existing DN starts with `cn=`, so `find('cn=')` is 0.
   */
  method FilterGroupsToUpdate(existing: seq<string>, newGroups: Dict) returns (changes: Dict)
    requires forall i :: 0 <= i < |existing| ==> Strings.IsPrefix("cn=", existing[i])
    requires forall i :: 0 <= i < |newGroups| ==> newGroups[i].1.JBool?
    requires DistinctKeys(newGroups)
    ensures forall e :: e in changes <==> e in newGroups && e.1 == JBool(e.0 !in GroupNames(existing))
    ensures DistinctKeys(changes)
  {
    var userGroups := GroupNames(existing);
    changes := [];
    var i := 0;
    while i < |newGroups|
      invariant 0 <= i <= |newGroups|
      invariant forall e :: e in changes <==> e in newGroups[..i] && e.1 == JBool(e.0 !in userGroups)
      invariant DistinctKeys(changes)
    {
      var (key, value) := newGroups[i];
      assert newGroups[..i + 1] == newGroups[..i] + [newGroups[i]];
      if (key in userGroups) != value.b {
        assert !HasKey(changes, key);
        changes := changes + [(key, value)];
        assert DistinctKeys(changes) by {
          forall a, b | 0 <= a < b < |changes| ensures changes[a].0 != changes[b].0 {
            if b == |changes| - 1 {
              assert changes[a] in changes[..|changes| - 1];
            }
          }
        }
      }
      i := i + 1;
    }
    assert newGroups[..|newGroups|] == newGroups;
  }

  /** A row of `get_decline_reasons`: the reason, its text and its advice. */
  datatype DeclineOffer = DeclineOffer(reason: string, text: string, advice: string)

  function Offer(v: DeclineReasonView): (o: DeclineOffer)
    ensures o.reason == v.description && o.text == v.detail && o.advice == v.advice
  {
    DeclineOffer(v.description, v.detail, v.advice)
  }

  /** The loop of `get_decline_reasons`: one offer per row, in row order. */
  method ReshapeReasons(rows: seq<DeclineReason>) returns (offers: seq<DeclineOffer>)
    ensures |offers| == |rows| && forall j :: 0 <= j < |rows| ==> offers[j] == Offer(DeclineReasonAsView(rows[j]))
  {
    offers := [];
    var i := 0;
    while i < |rows|
      invariant 0 <= i <= |rows|
      invariant |offers| == i
      invariant forall j :: 0 <= j < i ==> offers[j] == Offer(DeclineReasonAsView(rows[j]))
    {
      offers := offers + [Offer(DeclineReasonAsView(rows[i]))];
      i := i + 1;
    }
  }

  /**
   * A reason stored from a catalogue entry is offered back under the very keys
   * the entry supplied: `decline_reason`, `decline_text` and `decline_advice`.
   */
  lemma OfferRoundTrip(declineId: int, entry: Dict, now: Timestamp)
    requires DeclineEntryOk(entry)
    ensures Offer(DeclineReasonAsView(NewDeclineReason(declineId, entry, now)))
      == DeclineOffer(StrOf(entry, "decline_reason"), StrOf(entry, "decline_text"), StrOf(entry, "decline_advice"))
  {
  }

  /** Reshaping rows that hold exactly the current reasons offers exactly the current reasons. */
  lemma OffersCoverReasons(reasons: seq<DeclineReason>, rows: seq<DeclineReason>, offers: seq<DeclineOffer>)
    requires forall x :: x in rows <==> x in reasons && x.dateEnded.None?
    requires |offers| == |rows| && forall j :: 0 <= j < |rows| ==> offers[j] == Offer(DeclineReasonAsView(rows[j]))
    ensures forall o :: o in offers <==> exists x :: x in reasons && x.dateEnded.None? && o == Offer(DeclineReasonAsView(x))
  {
    forall o | o in offers ensures exists x :: x in reasons && x.dateEnded.None? && o == Offer(DeclineReasonAsView(x)) {
      var j :| 0 <= j < |offers| && offers[j] == o;
      assert rows[j] in rows;
    }
    forall o | exists x :: x in reasons && x.dateEnded.None? && o == Offer(DeclineReasonAsView(x)) ensures o in offers {
      var x :| x in reasons && x.dateEnded.None? && o == Offer(DeclineReasonAsView(x));
      assert x in rows;
      var j :| 0 <= j < |rows| && rows[j] == x;
      assert offers[j] == o;
    }
  }

  /** `get_pending_by_id`: the case's `as_dict` plus its notes. */
  datatype CaseDetail = CaseDetail(view: CaseView, notes: seq<NoteView>)

  /** `get_closure_by_id`: the closure's detail and the time it was recorded. */
  datatype ClosureView = ClosureView(closureReason: string, dateClosed: Timestamp)

  /** A search parameter as `.get(name, '')` yields it: missing or null means blank. */
  predicate SearchParamOk(params: Dict, name: string) {
    Get(params, name).None? || Get(params, name).value.JNull? || Get(params, name).value.JStr?
  }

  function SearchParam(params: Dict, name: string): (t: string)
    requires SearchParamOk(params, name)
    ensures HasStr(params, name) ==> t == StrOf(params, name)
    ensures !HasStr(params, name) ==> t == ""
  {
    match Get(params, name)
    case Some(JStr(s)) => s
    case _ => ""
  }

  /** The conditions of a search with these four parameters, stated field by field. */
  predicate MatchesParams(c: CaseRecord, firstName: string, lastName: string, organisationName: string, email: string) {
    && (firstName != "" ==> FilterHolds(c, SearchFilter("first_name", firstName)))
    && (lastName != "" ==> FilterHolds(c, SearchFilter("last_name", lastName)))
    && (organisationName != "" ==> FilterHolds(c, SearchFilter("organisation_name", organisationName)))
    && (email != "" ==> FilterHolds(c, SearchFilter("email", email)))
  }

  /** The filter list of a search holds exactly when every non-blank parameter matches its field. */
  lemma FiltersMatchParams(c: CaseRecord, filters: seq<SearchFilter>,
                           firstName: string, lastName: string, organisationName: string, email: string)
    requires filters == FilterFor("first_name", firstName) + FilterFor("last_name", lastName)
                        + FilterFor("organisation_name", organisationName) + FilterFor("email", email)
    ensures MatchesAll(c, filters) <==> MatchesParams(c, firstName, lastName, organisationName, email)
  {
    var f1, f2 := FilterFor("first_name", firstName), FilterFor("last_name", lastName);
    var f3, f4 := FilterFor("organisation_name", organisationName), FilterFor("email", email);
    MatchesAllConcat(c, f1 + f2 + f3, f4);
    MatchesAllConcat(c, f1 + f2, f3);
    MatchesAllConcat(c, f1, f2);
    MatchesFilterFor(c, "first_name", firstName);
    MatchesFilterFor(c, "last_name", lastName);
    MatchesFilterFor(c, "organisation_name", organisationName);
    MatchesFilterFor(c, "email", email);
  }

  /** The filter a parameter contributes holds exactly when the parameter is blank or matches its field. */
  lemma MatchesFilterFor(c: CaseRecord, field: string, needle: string)
    ensures MatchesAll(c, FilterFor(field, needle)) <==> (needle != "" ==> FilterHolds(c, SearchFilter(field, needle)))
  {
  }

  /** The search over the filters built from the parameters selects exactly the cases matching the parameters. */
  lemma SearchByParams(cases: map<int, CaseRecord>, next: int, filters: seq<SearchFilter>,
                       firstName: string, lastName: string, organisationName: string, email: string)
    requires IdsBelow(cases, next)
    requires filters == FilterFor("first_name", firstName) + FilterFor("last_name", lastName)
                        + FilterFor("organisation_name", organisationName) + FilterFor("email", email)
    ensures forall id :: id in CaseSearch(cases, next, filters) <==>
      id in cases && MatchesParams(cases[id], firstName, lastName, organisationName, email)
  {
    forall id | id in cases
      ensures MatchesAll(cases[id], filters) <==> MatchesParams(cases[id], firstName, lastName, organisationName, email)
    {
      FiltersMatchParams(cases[id], filters, firstName, lastName, organisationName, email);
    }
  }

  datatype Snapshot = Snapshot(
    cases: map<int, CaseRecord>,
    nextCaseId: int,
    notes: seq<Note>,
    nextNoteId: int,
    closures: seq<Close>,
    nextCloseId: int,
    reasons: seq<DeclineReason>)

  class Store {
    var cases: map<int, CaseRecord>
    var nextCaseId: int
    var notes: seq<Note>
    var nextNoteId: int
    var closures: seq<Close>
    var nextCloseId: int
    var reasons: seq<DeclineReason>

    /** Ids are handed out from 1; every note and closure belongs to an existing case. */
    ghost predicate Valid()
      reads this
    {
      && nextCaseId >= 1 && nextNoteId >= 1 && nextCloseId >= 1
      && IdsBelow(cases, nextCaseId)
      && (forall n :: n in notes ==> n.caseId in cases && n.noteId < nextNoteId)
      && (forall c :: c in closures ==> c.caseId in cases && c.closeId < nextCloseId)
    }

    ghost function Snap(): Snapshot
      reads this
    {
      Snapshot(cases, nextCaseId, notes, nextNoteId, closures, nextCloseId, reasons)
    }

    /** An empty store with the decline-reason catalogue seeded. */
    constructor (catalogue: seq<DeclineReason>)
      ensures Valid()
      ensures Snap() == Snapshot(map[], 1, [], 1, [], 1, catalogue)
    {
      cases := map[];
      nextCaseId := 1;
      notes := [];
      nextNoteId := 1;
      closures := [];
      nextCloseId := 1;
      reasons := catalogue;
    }

    /** `_add_note`. */
    method AddNote(caseId: int, staffId: Option<string>, text: string, now: Timestamp)
      requires Valid() && caseId in cases
      modifies this
      ensures Valid()
      ensures Snap() == old(Snap()).(notes := old(notes) + [NewNote(old(nextNoteId), caseId, staffId, text, now)],
                                     nextNoteId := old(nextNoteId) + 1)
    {
      notes := notes + [NewNote(nextNoteId, caseId, staffId, text, now)];
      nextNoteId := nextNoteId + 1;
    }

    /** Stores new registration data on a case; the `db.session.commit()` of `update_user_details`. */
    method StoreRegistration(caseId: int, registrationData: Dict)
      requires Valid() && caseId in cases
      modifies this
      ensures Valid()
      ensures Snap() == old(Snap()).(cases := old(cases)[caseId := old(cases)[caseId].(registrationData := registrationData)])
    {
      cases := cases[caseId := cases[caseId].(registrationData := registrationData)];
    }

    /** `_status_update` on a stored case. */
    method StatusUpdate(caseId: int, decision: string, staffId: Option<string>, now: Timestamp)
      requires Valid() && caseId in cases
      modifies this
      ensures Valid()
      ensures Snap() == old(Snap()).(cases := old(cases)[caseId := Decided(old(cases)[caseId], decision, staffId, now)])
    {
      cases := cases[caseId := Decided(cases[caseId], decision, staffId, now)];
    }

    /** `dps_action`: approve or decline a case; the current status is never checked. */
    method DpsAction(action: string, caseId: int, data: Dict, account: Ack, now: Timestamp)
      returns (r: Result<Dict>, call: Option<ExternalCall>)
      requires Valid()
      requires caseId in cases ==> HasStaffId(data)
      requires caseId in cases && action == ACTION_DECLINE && CanPerformAction(cases[caseId], StaffIdOf(data))
        ==> DeclineDataOk(data)
      modifies this
      ensures Valid()
      ensures r.Err? ==> unchanged(this)
      ensures caseId !in old(cases) ==> r == Err(AppError(CaseNotFound, 404)) && call.None?
      ensures caseId in old(cases) && !CanPerformAction(old(cases)[caseId], StaffIdOf(data))
        ==> r == Err(AppError(LockingError, 403)) && call.None?
      ensures caseId in old(cases) && CanPerformAction(old(cases)[caseId], StaffIdOf(data))
        && action != ACTION_APPROVE && action != ACTION_DECLINE
        ==> r == Err(AppError(VerificationError, 500)) && call.None?
      ensures caseId in old(cases) && CanPerformAction(old(cases)[caseId], StaffIdOf(data)) && action == ACTION_APPROVE
        ==> call == Some(AccountApprove(old(cases)[caseId].ldapId))
      ensures caseId in old(cases) && CanPerformAction(old(cases)[caseId], StaffIdOf(data)) && action == ACTION_DECLINE
        ==> call == Some(AccountDecline(old(cases)[caseId].ldapId, Strings.LowerFirst(StrOf(data, "reason")),
                                        StrOf(data, "advice"), old(cases)[caseId].userId))
      ensures call.Some? && account.Refused? ==> r == Err(DependencyError(AccountApi, account.failure))
      ensures call.Some? && account.Acked? ==> r == Ok(Actioned(data, caseId))
      ensures call.Some? && account.Acked? && action == ACTION_APPROVE
        ==> Snap() == old(Snap()).(cases := old(cases)[caseId := Decided(old(cases)[caseId], APPROVED, StaffIdOf(data), now)])
      ensures call.Some? && account.Acked? && action == ACTION_DECLINE
        ==> Snap() == old(Snap()).(
              cases := old(cases)[caseId := Decided(old(cases)[caseId], DECLINED, StaffIdOf(data), now)],
              notes := old(notes) + [NewNote(old(nextNoteId), caseId, StaffIdOf(data),
                                             DeclineNote(StrOf(data, "reason"), StrOf(data, "advice")), now)],
              nextNoteId := old(nextNoteId) + 1)
    {
      if caseId !in cases {
        return Err(AppError(CaseNotFound, 404)), None;
      }
      var c := cases[caseId];
      var staff := StaffIdOf(data);
      if !CanPerformAction(c, staff) {
        return Err(AppError(LockingError, 403)), None;
      }
      if action == ACTION_APPROVE {
        call := Some(AccountApprove(c.ldapId));
        if account.Refused? {
          return Err(DependencyError(AccountApi, account.failure)), call;
        }
        StatusUpdate(caseId, APPROVED, staff, now);
      } else if action == ACTION_DECLINE {
        var reason := StrOf(data, "reason");
        var advice := StrOf(data, "advice");
        call := Some(AccountDecline(c.ldapId, Strings.LowerFirst(reason), advice, c.userId));
        if account.Refused? {
          return Err(DependencyError(AccountApi, account.failure)), call;
        }
        StatusUpdate(caseId, DECLINED, staff, now);
        AddNote(caseId, staff, DeclineNote(reason, advice), now);
      } else {
        return Err(AppError(VerificationError, 500)), None;
      }
      r := Ok(Actioned(data, caseId));
    }

    /** The writes of a closure: the Close row and the Closed status. */
    method RecordClosure(caseId: int, data: Dict, now: Timestamp)
      requires Valid() && caseId in cases && CloseDetailsOk(data)
      modifies this
      ensures Valid()
      ensures Snap() == old(Snap()).(
        cases := old(cases)[caseId := old(cases)[caseId].(status := CLOSED)],
        closures := old(closures) + [NewClose(old(nextCloseId), caseId, data, now)],
        nextCloseId := old(nextCloseId) + 1)
    {
      closures := closures + [NewClose(nextCloseId, caseId, data, now)];
      nextCloseId := nextCloseId + 1;
      cases := cases[caseId := cases[caseId].(status := CLOSED)];
    }

    /** `close_account`: only an Approved case can be closed by staff. */
    method CloseAccount(caseId: int, data: Dict, account: Ack, now: Timestamp)
      returns (r: Result<Dict>, call: Option<ExternalCall>)
      requires Valid()
      requires caseId in cases && cases[caseId].status == APPROVED ==> CloseDetailsOk(data)
      modifies this
      ensures Valid()
      ensures r.Err? ==> unchanged(this)
      ensures caseId !in old(cases) ==> r == Err(AppError(CaseNotFound, 404)) && call.None?
      ensures caseId in old(cases) && old(cases)[caseId].status != APPROVED
        ==> r == Err(AppError(VerificationError, 409)) && call.None?
      ensures caseId in old(cases) && old(cases)[caseId].status == APPROVED
        ==> call == Some(AccountClose(old(cases)[caseId].ldapId, old(cases)[caseId].userId, StrOf(data, "requester")))
      ensures call.Some? && account.Refused? ==> r == Err(DependencyError(AccountApi, account.failure))
      ensures call.Some? && account.Acked? ==> r == Ok(Actioned(data, caseId))
      ensures call.Some? && account.Acked? ==>
        Snap() == old(Snap()).(
          cases := old(cases)[caseId := old(cases)[caseId].(status := CLOSED)],
          closures := old(closures) + [NewClose(old(nextCloseId), caseId, data, now)],
          nextCloseId := old(nextCloseId) + 1)
    {
      if caseId !in cases {
        return Err(AppError(CaseNotFound, 404)), None;
      }
      var c := cases[caseId];
      if c.status != APPROVED {
        return Err(AppError(VerificationError, 409)), None;
      }
      call := Some(AccountClose(c.ldapId, c.userId, StrOf(data, "requester")));
      if account.Refused? {
        return Err(DependencyError(AccountApi, account.failure)), call;
      }
      RecordClosure(caseId, data, now);
      r := Ok(Actioned(data, caseId));
    }

    /** The closing branch of `auto_close`: the closure, then the note, which the Closed status lets through. */
    method CloseAndNote(id: int, closeRequest: Dict, now: Timestamp)
      requires Valid() && id in cases
      requires CloseDetailsOk(closeRequest) && HasStr(closeRequest, "note_text")
      modifies this
      ensures Valid()
      ensures Snap() == old(Snap()).(
        cases := old(cases)[id := old(cases)[id].(status := CLOSED)],
        closures := old(closures) + [NewClose(old(nextCloseId), id, closeRequest, now)],
        nextCloseId := old(nextCloseId) + 1,
        notes := old(notes) + [NewNote(old(nextNoteId), id, StaffIdOf(closeRequest), StrOf(closeRequest, "note_text"), now)],
        nextNoteId := old(nextNoteId) + 1)
    {
      RecordClosure(id, closeRequest, now);
      var noted := InsertNote(id, closeRequest, now);
    }

    /** The eligible branch of `auto_close`: mark the request as automatic, then close and note. */
    method AutoCloseCase(id: int, closeData: Dict, now: Timestamp)
      requires Valid() && id in cases
      requires HasStaffId(closeData) && HasStr(closeData, "note_text")
      modifies this
      ensures Valid()
      ensures Snap() == old(Snap()).(
        cases := old(cases)[id := old(cases)[id].(status := CLOSED)],
        closures := old(closures) + [Close(old(nextCloseId), id, AUTO_CLOSE_DETAIL, AUTO_REQUESTER, StaffIdOf(closeData), now)],
        nextCloseId := old(nextCloseId) + 1,
        notes := old(notes) + [NewNote(old(nextNoteId), id, StaffIdOf(closeData), StrOf(closeData, "note_text"), now)],
        nextNoteId := old(nextNoteId) + 1)
    {
      var closeRequest := MarkAutoClosure(closeData);
      CloseAndNote(id, closeRequest, now);
    }

    /** The case `auto_close` works on: the first with that ldap id. */
    function CaseByLdap(ldapId: string): (r: Option<int>)
      reads this
      requires Valid()
      ensures r.Some? ==> r.value in cases && cases[r.value].ldapId == ldapId
      ensures r.None? <==> forall id :: id in cases ==> cases[id].ldapId != ldapId
    {
      CaseGetByLdapId(cases, nextCaseId, ldapId)
    }

    /**
     * `auto_close`: when `close` is set, the case is closed whatever its status
     * and a closure by "HMLR" is recorded; either way the request's note is
     * then added through `insert_note`, with its lock check.
     */
    method AutoClose(ldapId: string, closeData: Dict, now: Timestamp) returns (r: Result<Dict>)
      requires Valid()
      requires CaseByLdap(ldapId).Some?
      requires Get(closeData, "close").Some? && HasStaffId(closeData)
      requires Truthy(Get(closeData, "close").value) || CanPerformAction(cases[CaseByLdap(ldapId).value], StaffIdOf(closeData))
        ==> HasStr(closeData, "note_text")
      modifies this
      ensures Valid()
      ensures r.Err? ==> unchanged(this)
      ensures r.Ok? ==> r.value == [("status", JBool(true))]
      ensures Truthy(Get(closeData, "close").value) ==>
        var id := old(CaseByLdap(ldapId)).value;
        var closure := Close(old(nextCloseId), id, AUTO_CLOSE_DETAIL, AUTO_REQUESTER, StaffIdOf(closeData), now);
        && r.Ok?
        && Snap() == old(Snap()).(
             cases := old(cases)[id := old(cases)[id].(status := CLOSED)],
             closures := old(closures) + [closure],
             nextCloseId := old(nextCloseId) + 1,
             notes := old(notes) + [NewNote(old(nextNoteId), id, StaffIdOf(closeData), StrOf(closeData, "note_text"), now)],
             nextNoteId := old(nextNoteId) + 1)
      ensures !Truthy(Get(closeData, "close").value) ==>
        var id := old(CaseByLdap(ldapId)).value;
        if CanPerformAction(old(cases)[id], StaffIdOf(closeData)) then
          && r.Ok?
          && Snap() == old(Snap()).(
               notes := old(notes) + [NewNote(old(nextNoteId), id, StaffIdOf(closeData), StrOf(closeData, "note_text"), now)],
               nextNoteId := old(nextNoteId) + 1)
        else r == Err(AppError(LockingError, 403))
    {
      var id := CaseByLdap(ldapId).value;
      if Truthy(Get(closeData, "close").value) {
        AutoCloseCase(id, closeData, now);
      } else {
        var noted := InsertNote(id, closeData, now);
        if noted.Err? {
          return Err(noted.error);
        }
      }
      r := Ok([("status", JBool(true))]);
    }

    /** `insert_case`: the new row under the next free id, which is returned. */
    method InsertCase(caseDetails: Dict, now: Timestamp) returns (id: int)
      requires Valid() && CaseDetailsOk(caseDetails)
      modifies this
      ensures Valid()
      ensures id == old(nextCaseId) && id !in old(cases)
      ensures Snap() == old(Snap()).(cases := old(cases)[id := NewCase(caseDetails, now)], nextCaseId := id + 1)
    {
      id := nextCaseId;
      cases := cases[id := NewCase(caseDetails, now)];
      nextCaseId := nextCaseId + 1;
    }

    /** `insert_note`: a note on an existing case, subject to the lock. */
    method InsertNote(caseId: int, noteData: Dict, now: Timestamp) returns (r: Result<()>)
      requires Valid()
      requires caseId in cases ==> HasStaffId(noteData)
      requires caseId in cases && CanPerformAction(cases[caseId], StaffIdOf(noteData)) ==> HasStr(noteData, "note_text")
      modifies this
      ensures Valid()
      ensures r.Err? ==> unchanged(this)
      ensures caseId !in old(cases) ==> r == Err(AppError(CaseNotFound, 404))
      ensures caseId in old(cases) && !CanPerformAction(old(cases)[caseId], StaffIdOf(noteData))
        ==> r == Err(AppError(LockingError, 403))
      ensures caseId in old(cases) && CanPerformAction(old(cases)[caseId], StaffIdOf(noteData))
        ==> r == Ok(()) && Snap() == old(Snap()).(
              notes := old(notes) + [NewNote(old(nextNoteId), caseId, StaffIdOf(noteData), StrOf(noteData, "note_text"), now)],
              nextNoteId := old(nextNoteId) + 1)
    {
      if caseId !in cases {
        return Err(AppError(CaseNotFound, 404));
      }
      if CanPerformAction(cases[caseId], StaffIdOf(noteData)) {
        AddNote(caseId, StaffIdOf(noteData), StrOf(noteData, "note_text"), now);
        r := Ok(());
      } else {
        r := Err(AppError(LockingError, 403));
      }
    }

    /**
     * `manage_case_lock`: lock the case to `owner`, or unlock it when there is
     * none. A resolved case (Approved or Declined) cannot be locked; a Closed
     * case can.
     */
    method ManageCaseLock(caseId: int, owner: Option<string>) returns (r: Result<()>)
      requires Valid()
      modifies this
      ensures Valid()
      ensures r.Err? ==> unchanged(this)
      ensures caseId !in old(cases) ==> r == Err(AppError(CaseNotFound, 404))
      ensures caseId in old(cases) && old(cases)[caseId].status in [APPROVED, DECLINED]
        ==> r == Err(AppError(LockingError, DEFAULT_HTTP_CODE))
      ensures caseId in old(cases) && old(cases)[caseId].status !in [APPROVED, DECLINED]
        ==> r == Ok(()) && Snap() == old(Snap()).(cases := old(cases)[caseId := old(cases)[caseId].(staffId := owner)])
    {
      if caseId !in cases {
        return Err(AppError(CaseNotFound, 404));
      }
      if cases[caseId].status in [APPROVED, DECLINED] {
        return Err(AppError(LockingError, DEFAULT_HTTP_CODE));
      }
      cases := cases[caseId := cases[caseId].(staffId := owner)];
      r := Ok(());
    }

    /**
     * `update_user_details`: sends the user id plus the updated keys to the
     * dataset-access service, merges the updated keys into the registration
     * data, and notes a change of contact preferences.
     */
    method UpdateUserDetails(caseId: int, data: Dict, ulapd: Ack, now: Timestamp)
      returns (r: Result<Dict>, call: Option<ExternalCall>)
      requires Valid()
      requires caseId in cases ==> UserUpdateOk(data)
      modifies this
      ensures Valid()
      ensures r.Err? ==> unchanged(this)
      ensures caseId !in old(cases) ==> r == Err(AppError(CaseNotFound, 404)) && call.None?
      ensures caseId in old(cases) ==> call.Some? && call.value.UlapdUpdate?
      ensures caseId in old(cases) ==>
        forall k :: Get(call.value.profile, k) ==
          if HasKey(UpdatedData(data), k) then LastValue(UpdatedData(data), k)
          else if k == "user_id" then Some(JStr(old(cases)[caseId].userId)) else None
      ensures call.Some? && ulapd.Refused? ==> r == Err(DependencyError(UlapdApi, ulapd.failure))
      ensures call.Some? && ulapd.Acked? ==>
        && r == Ok([("updated", JBool(true))])
        && caseId in cases
        && (forall k :: Get(cases[caseId].registrationData, k) ==
              if HasKey(UpdatedData(data), k) then LastValue(UpdatedData(data), k)
              else Get(old(cases)[caseId].registrationData, k))
        && Snap() == old(Snap()).(
             cases := old(cases)[caseId := old(cases)[caseId].(registrationData := cases[caseId].registrationData)],
             notes := if HasKey(UpdatedData(data), "contactable")
                      then old(notes) + [NewNote(old(nextNoteId), caseId, StaffIdOf(data), ContactNoteFor(data), now)]
                      else old(notes),
             nextNoteId := if HasKey(UpdatedData(data), "contactable") then old(nextNoteId) + 1 else old(nextNoteId))
    {
      if caseId !in cases {
        return Err(AppError(CaseNotFound, 404)), None;
      }
      var c := cases[caseId];
      var upd := UpdatedData(data);
      var profile := Update([("user_id", JStr(c.userId))], upd);
      call := Some(UlapdUpdate(profile));
      if ulapd.Refused? {
        return Err(DependencyError(UlapdApi, ulapd.failure)), call;
      }
      ApplyUserDetails(caseId, data, now);
      r := Ok([("updated", JBool(true))]);
    }

    /** The local half of `update_user_details`: merge the updated keys, then note a change of preferences. */
    method ApplyUserDetails(caseId: int, data: Dict, now: Timestamp)
      requires Valid() && caseId in cases && UserUpdateOk(data)
      modifies this
      ensures Valid() && caseId in cases
      ensures forall k :: (Get(cases[caseId].registrationData, k) ==
        if HasKey(UpdatedData(data), k) then LastValue(UpdatedData(data), k)
        else Get(old(cases)[caseId].registrationData, k))
      ensures Snap() == old(Snap()).(
        cases := old(cases)[caseId := old(cases)[caseId].(registrationData := cases[caseId].registrationData)],
        notes := if HasKey(UpdatedData(data), "contactable")
                 then old(notes) + [NewNote(old(nextNoteId), caseId, StaffIdOf(data), ContactNoteFor(data), now)]
                 else old(notes),
        nextNoteId := if HasKey(UpdatedData(data), "contactable") then old(nextNoteId) + 1 else old(nextNoteId))
    {
      var upd := UpdatedData(data);
      var merged := Update(cases[caseId].registrationData, upd);
      StoreRegistration(caseId, merged);
      ghost var stored := cases;
      NoteContactChange(caseId, data, now);
      assert cases == stored && cases[caseId].registrationData == merged;
    }

    /** `_add_update_note`, reached only when `contactable` is among the updated keys. */
    method NoteContactChange(caseId: int, data: Dict, now: Timestamp)
      requires Valid() && caseId in cases && UserUpdateOk(data)
      modifies this
      ensures Valid()
      ensures Snap() == old(Snap()).(
        notes := if HasKey(UpdatedData(data), "contactable")
                 then old(notes) + [NewNote(old(nextNoteId), caseId, StaffIdOf(data), ContactNoteFor(data), now)]
                 else old(notes),
        nextNoteId := if HasKey(UpdatedData(data), "contactable") then old(nextNoteId) + 1 else old(nextNoteId))
    {
      if HasKey(UpdatedData(data), "contactable") {
        AddNote(caseId, StaffIdOf(data), ContactNoteFor(data), now);
      }
    }

    /**
     * `update_dataset_access`: forwards the licences to the dataset-access
     * service and notes the change. It takes no lock.
     */
    method UpdateDatasetAccess(caseId: int, updatedAccess: Dict, ulapd: Ack, now: Timestamp)
      returns (r: Result<Dict>, call: Option<ExternalCall>)
      requires Valid()
      requires caseId in cases ==> AccessUpdateOk(updatedAccess)
      modifies this
      ensures Valid()
      ensures r.Err? ==> unchanged(this)
      ensures caseId !in old(cases) ==> r == Err(AppError(CaseNotFound, 404)) && call.None?
      ensures caseId in old(cases) ==> call == Some(UlapdUpdateDatasetAccess(
        [("user_details_id", JStr(old(cases)[caseId].userId)), ("licences", Get(updatedAccess, "licences").value)]))
      ensures call.Some? && ulapd.Refused? ==> r == Err(DependencyError(UlapdApi, ulapd.failure))
      ensures call.Some? && ulapd.Acked? ==>
        && r == Ok(call.value.payload)
        && Snap() == old(Snap()).(
             notes := old(notes) + [NewNote(old(nextNoteId), caseId, StaffIdOf(updatedAccess),
               DatasetAccessNote(AccessMessages(Get(updatedAccess, "licences").value.items)), now)],
             nextNoteId := old(nextNoteId) + 1)
    {
      if caseId !in cases {
        return Err(AppError(CaseNotFound, 404)), None;
      }
      var licences := Get(updatedAccess, "licences").value;
      var payload := [("user_details_id", JStr(cases[caseId].userId)), ("licences", licences)];
      call := Some(UlapdUpdateDatasetAccess(payload));
      if ulapd.Refused? {
        return Err(DependencyError(UlapdApi, ulapd.failure)), call;
      }
      var msgs := DatasetAccessMessages(licences.items);
      AddNote(caseId, StaffIdOf(updatedAccess), DatasetAccessNote(msgs), now);
      r := Ok(payload);
    }

    /** `get_pending`: the `as_dict` of each Pending case, newest first. */
    function GetPending(): (r: seq<CaseView>)
      reads this
      requires Valid()
      ensures r == PendingViews(cases, nextCaseId, notes)
    {
      PendingViews(cases, nextCaseId, notes)
    }

    /** `get_pending_by_id`: the case with its notes, newest first, or CASE_NOT_FOUND. */
    function GetPendingById(caseId: int): (r: Result<CaseDetail>)
      reads this
      ensures caseId !in cases <==> r == Err(AppError(CaseNotFound, 404))
      ensures r.Ok? ==> r.value.view == CaseAsView(caseId, cases[caseId], notes) && r.value.notes == NoteViews(notes, caseId)
    {
      if caseId !in cases then Err(AppError(CaseNotFound, 404))
      else Ok(CaseDetail(CaseAsView(caseId, cases[caseId], notes), NoteViews(notes, caseId)))
    }

    /** `get_closure_by_id`: the first closure of the case, or CASE_NOT_FOUND when it has none. */
    function GetClosureById(caseId: int): (r: Result<ClosureView>)
      reads this
      ensures r.Err? <==> forall c :: c in closures ==> c.caseId != caseId
      ensures r.Err? ==> r.error == AppError(CaseNotFound, 404)
      ensures r.Ok? ==> exists c :: (c in closures && c.caseId == caseId && r.value == ClosureView(c.closeDetail, c.dateAdded))
    {
      match CloseGetByCaseId(closures, caseId)
      case None => Err(AppError(CaseNotFound, 404))
      case Some(c) => Ok(ClosureView(c.closeDetail, c.dateAdded))
    }

    /**
     * `get_groups`: the names of the groups the case's account belongs to,
     * read from the account service, together with the case.
     */
    method GetGroups(caseId: int, account: Reply<Json>) returns (r: Result<(seq<string>, CaseRecord)>, call: Option<ExternalCall>)
      requires caseId in cases && account.Answered? ==> GroupsReplyOk(account.value)
      ensures caseId !in cases ==> r == Err(AppError(CaseNotFound, 404)) && call.None?
      ensures caseId in cases ==> call == Some(AccountGet(cases[caseId].ldapId))
      ensures caseId in cases && account.Unavailable? ==> r == Err(DependencyError(AccountApi, account.failure))
      ensures caseId in cases && account.Answered? ==>
        && r.Ok? && r.value.1 == cases[caseId]
        && var dns := GroupDns(account.value);
           |r.value.0| == |dns| && forall i :: 0 <= i < |dns| ==> r.value.0[i] == GroupName(dns[i])
    {
      if caseId !in cases {
        return Err(AppError(CaseNotFound, 404)), None;
      }
      var c := cases[caseId];
      call := Some(AccountGet(c.ldapId));
      match account {
        case Unavailable(failure) =>
          r := Err(DependencyError(AccountApi, failure));
        case Answered(details) =>
          r := Ok((GroupNames(GroupDns(details)), c));
      }
    }

    /** `get_decline_reasons`: each reason still in use, reshaped, by ascending id. */
    method GetDeclineReasons() returns (offers: seq<DeclineOffer>)
      ensures forall o :: o in offers <==> exists x :: x in reasons && x.dateEnded.None? && o == Offer(DeclineReasonAsView(x))
      ensures var rows := DeclineReasonGetAll(reasons);
        |offers| == |rows| && forall j :: 0 <= j < |rows| ==> offers[j] == Offer(DeclineReasonAsView(rows[j]))
    {
      var rows := DeclineReasonGetAll(reasons);
      offers := ReshapeReasons(rows);
      OffersCoverReasons(reasons, rows, offers);
    }

    /** `perform_search`: the cases matching every non-blank parameter, in table order. */
    method PerformSearch(params: Dict) returns (r: seq<CaseView>)
      requires Valid()
      requires SearchParamOk(params, "first_name") && SearchParamOk(params, "last_name")
      requires SearchParamOk(params, "organisation_name") && SearchParamOk(params, "email")
      ensures forall i :: 0 <= i < |r| ==> r[i].caseId in cases
      ensures forall id :: (exists i :: 0 <= i < |r| && r[i].caseId == id) <==>
        id in cases && MatchesParams(cases[id], SearchParam(params, "first_name"), SearchParam(params, "last_name"),
                                     SearchParam(params, "organisation_name"), SearchParam(params, "email"))
      ensures forall i, j :: 0 <= i < j < |r| ==> r[i].caseId < r[j].caseId
      ensures forall i :: 0 <= i < |r| ==> r[i] == CaseAsView(r[i].caseId, cases[r[i].caseId], notes)
    {
      var firstName := SearchParam(params, "first_name");
      var lastName := SearchParam(params, "last_name");
      var organisationName := SearchParam(params, "organisation_name");
      var email := SearchParam(params, "email");
      var filters := SearchFilters(firstName, lastName, organisationName, email);
      var ids := CaseSearch(cases, nextCaseId, filters);
      SearchByParams(cases, nextCaseId, filters, firstName, lastName, organisationName, email);
      r := CaseViews(cases, ids, notes);
    }
  }

  /**
   * The two assignments `auto_close` makes to the request before recording
   * the closure: the automatic requester and detail; every other key, the
   * staff id and note text among them, is left as it was.
   */
  method MarkAutoClosure(closeData: Dict) returns (d: Dict)
    requires HasStaffId(closeData)
    ensures CloseDetailsOk(d)
    ensures StrOf(d, "requester") == AUTO_REQUESTER && StrOf(d, "close_detail") == AUTO_CLOSE_DETAIL
    ensures forall k :: k != "requester" && k != "close_detail" ==> Get(d, k) == Get(closeData, k)
    ensures StaffIdOf(d) == StaffIdOf(closeData)
    ensures HasStr(d, "note_text") == HasStr(closeData, "note_text")
    ensures HasStr(d, "note_text") ==> StrOf(d, "note_text") == StrOf(closeData, "note_text")
  {
    d := Assign(closeData, "requester", JStr(AUTO_REQUESTER));
    d := Assign(d, "close_detail", JStr(AUTO_CLOSE_DETAIL));
    assert Get(d, "staff_id") == Get(closeData, "staff_id");
    assert Get(d, "note_text") == Get(closeData, "note_text");
  }
}
