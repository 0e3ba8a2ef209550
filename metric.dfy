/**
 * The metric events the service emits: shaping a flattened case into a
 * metric payload, the bounded retry loop around `add_event`, and one event
 * per licence of a dataset-access update.
 */
module Metric {
  import opened Wrappers
  import opened Json
  import Strings

  /** `_create_metric_payload`'s result: a `user` and an `activity` dictionary. */
  datatype MetricPayload = MetricPayload(user: Dict, activity: Dict)

  const CKAN_USER_ID := "ckan_user_id"

  /** `key in 'user_id'`: a substring test, so `user`, `id` and even the empty key pass it. */
  predicate IsUserIdKey(k: string) {
    Strings.Contains("user_id", k)
  }

  /** Keys copied into `user` under their own name. */
  predicate IsUserKey(k: string) {
    k == "user_type" || k == "status"
  }

  /** Keys copied into `activity` under their own name. */
  predicate IsActivityKey(k: string) {
    k == "activity_type" || k == "dataset"
  }

  /** The value of the last entry whose key passes `key in 'user_id'`. */
  function LastUserId(d: Dict): (r: Option<Json>)
    ensures r.Some? <==> exists i :: 0 <= i < |d| && IsUserIdKey(d[i].0)
    ensures r.Some? ==> exists i :: 0 <= i < |d| && IsUserIdKey(d[i].0) && d[i].1 == r.value
    decreases |d|
  {
    if d == [] then None
    else if IsUserIdKey(d[|d| - 1].0) then Some(d[|d| - 1].1)
    else
      assert forall i :: 0 <= i < |d| - 1 ==> d[..|d| - 1][i] == d[i];
      LastUserId(d[..|d| - 1])
  }

  /** The `user` half of what `_create_metric_payload(data)` holds: later entries win, other keys are dropped. */
  ghost predicate UserFor(data: Dict, user: Dict) {
    && Get(user, CKAN_USER_ID) == LastUserId(data)
    && Get(user, "user_type") == LastValue(data, "user_type")
    && Get(user, "status") == LastValue(data, "status")
    && (forall k :: k != CKAN_USER_ID && !IsUserKey(k) ==> Get(user, k).None?)
  }

  /** The `activity` half: `dataset` and `filename` are always there, null unless `data` sets them. */
  ghost predicate ActivityFor(data: Dict, activity: Dict) {
    && Get(activity, "activity_type") == LastValue(data, "activity_type")
    && Get(activity, "dataset") == Some(LastValue(data, "dataset").GetOr(JNull))
    && Get(activity, "filename") == Some(JNull)
    && (forall k :: !IsActivityKey(k) && k != "filename" ==> Get(activity, k).None?)
  }

  /** What `_create_metric_payload(data)` holds, key by key. */
  ghost predicate PayloadFor(data: Dict, p: MetricPayload) {
    UserFor(data, p.user) && ActivityFor(data, p.activity)
  }

  /** Unfolding `LastUserId` over an entry put at the end. */
  lemma LastUserIdSnoc(d: Dict, x: (string, Json))
    ensures LastUserId(d + [x]) == if IsUserIdKey(x.0) then Some(x.1) else LastUserId(d)
  {
    assert (d + [x])[..|d|] == d;
  }

  /** What `user` holds under key `k` after the entries of `data`. */
  function UserValue(data: Dict, k: string): Option<Json> {
    if k == CKAN_USER_ID then LastUserId(data)
    else if IsUserKey(k) then LastValue(data, k)
    else None
  }

  /** What `activity` holds under key `k` after the entries of `data`. */
  function ActivityValue(data: Dict, k: string): Option<Json> {
    if k == "dataset" then Some(LastValue(data, k).GetOr(JNull))
    else if k == "activity_type" then LastValue(data, k)
    else if k == "filename" then Some(JNull)
    else None
  }

  /** What one entry's writes leave under key `k` of `user`. */
  lemma UserStepAt(user: Dict, key: string, value: Json, k: string)
    ensures Get(UserStep(user, key, value), k)
      == if IsUserKey(key) && k == key then Some(value)
         else if IsUserIdKey(key) && k == CKAN_USER_ID then Some(value)
         else Get(user, k)
  {
    var u := if IsUserIdKey(key) then Assign(user, CKAN_USER_ID, value) else user;
    assert Get(u, k) == if IsUserIdKey(key) && k == CKAN_USER_ID then Some(value) else Get(user, k);
  }

  /** What one entry's write leaves under key `k` of `activity`. */
  lemma ActivityStepAt(activity: Dict, key: string, value: Json, k: string)
    ensures Get(ActivityStep(activity, key, value), k) == if IsActivityKey(key) && k == key then Some(value) else Get(activity, k)
  {
  }

  /** The `user` half of `PayloadOf`, one key at a time. */
  lemma {:induction false} UserAt(data: Dict, k: string)
    ensures Get(PayloadOf(data).user, k) == UserValue(data, k)
    decreases |data|
  {
    if data != [] {
      var d, x := data[..|data| - 1], data[|data| - 1];
      assert data == d + [x];
      UserAt(d, k);
      UserStepAt(PayloadOf(d).user, x.0, x.1, k);
      LastUserIdSnoc(d, x);
      LastValueSnoc(d, x, k);
      if k == CKAN_USER_ID {
        assert !IsUserKey(k);
      }
    }
  }

  /** The `activity` half of `PayloadOf`, one key at a time. */
  lemma {:induction false} ActivityAt(data: Dict, k: string)
    ensures Get(PayloadOf(data).activity, k) == ActivityValue(data, k)
    decreases |data|
  {
    if data == [] {
      var a := INITIAL_PAYLOAD.activity;
      assert Get(a, k) == if k == "dataset" then Some(JNull) else Get(a[1..], k);
    } else {
      var d, x := data[..|data| - 1], data[|data| - 1];
      assert data == d + [x];
      ActivityAt(d, k);
      ActivityStepAt(PayloadOf(d).activity, x.0, x.1, k);
      LastValueSnoc(d, x, k);
    }
  }

  /** `PayloadOf` repeats no key in `user`. */
  lemma {:induction false} UserDistinct(data: Dict)
    ensures DistinctKeys(PayloadOf(data).user)
    decreases |data|
  {
    if data != [] {
      var d, x := data[..|data| - 1], data[|data| - 1];
      UserDistinct(d);
      UserStepDistinct(PayloadOf(d).user, x.0, x.1);
    }
  }

  /** One entry's writes repeat no key of `user`. */
  lemma UserStepDistinct(user: Dict, key: string, value: Json)
    requires DistinctKeys(user)
    ensures DistinctKeys(UserStep(user, key, value))
  {
    var u := if IsUserIdKey(key) then Assign(user, CKAN_USER_ID, value) else user;
    AssignKeepsDistinct(user, CKAN_USER_ID, value);
    AssignKeepsDistinct(u, key, value);
  }

  /** `PayloadOf` repeats no key in `activity`, which starts with `dataset` and `filename`. */
  lemma {:induction false} ActivityShape(data: Dict)
    ensures DistinctKeys(PayloadOf(data).activity)
    ensures var a := PayloadOf(data).activity; |a| >= 2 && a[0].0 == "dataset" && a[1].0 == "filename"
    decreases |data|
  {
    if data != [] {
      var d, x := data[..|data| - 1], data[|data| - 1];
      ActivityShape(d);
      AssignKeepsDistinct(PayloadOf(d).activity, x.0, x.1);
    }
  }

  /** The writes one entry makes to `user`: `ckan_user_id` first, then the entry's own key. */
  function UserStep(user: Dict, key: string, value: Json): Dict {
    var u := if IsUserIdKey(key) then Assign(user, CKAN_USER_ID, value) else user;
    if IsUserKey(key) then Assign(u, key, value) else u
  }

  /** The write one entry makes to `activity`. */
  function ActivityStep(activity: Dict, key: string, value: Json): Dict {
    if IsActivityKey(key) then Assign(activity, key, value) else activity
  }

  const INITIAL_PAYLOAD := MetricPayload([], [("dataset", JNull), ("filename", JNull)])

  /** The payload after the writes of every entry of `data`, in order, starting from the initial one. */
  function PayloadOf(data: Dict): MetricPayload
    decreases |data|
  {
    if data == [] then INITIAL_PAYLOAD
    else
      var p := PayloadOf(data[..|data| - 1]);
      var x := data[|data| - 1];
      MetricPayload(UserStep(p.user, x.0, x.1), ActivityStep(p.activity, x.0, x.1))
  }

  /** The writes of `_create_metric_payload` produce exactly what `PayloadFor` describes. */
  lemma PayloadOfMeaning(data: Dict)
    ensures PayloadFor(data, PayloadOf(data))
    ensures DistinctKeys(PayloadOf(data).user) && DistinctKeys(PayloadOf(data).activity)
    ensures var a := PayloadOf(data).activity; |a| >= 2 && a[0].0 == "dataset" && a[1].0 == "filename"
  {
    UserDistinct(data);
    ActivityShape(data);
    var p := PayloadOf(data);
    forall k ensures Get(p.user, k) == UserValue(data, k) && Get(p.activity, k) == ActivityValue(data, k) {
      UserAt(data, k);
      ActivityAt(data, k);
    }
    assert Get(p.user, "user_type") == UserValue(data, "user_type");
    assert Get(p.user, "status") == UserValue(data, "status");
    assert Get(p.activity, "activity_type") == ActivityValue(data, "activity_type");
  }

  /** `_create_metric_payload`: one pass over the entries of `data`, in order. */
  method CreateMetricPayload(data: Dict) returns (p: MetricPayload)
    ensures p == PayloadOf(data)
    ensures PayloadFor(data, p)
    ensures DistinctKeys(p.user) && DistinctKeys(p.activity)
    ensures |p.activity| >= 2 && p.activity[0].0 == "dataset" && p.activity[1].0 == "filename"
  {
    var user: Dict := [];
    var activity: Dict := [("dataset", JNull), ("filename", JNull)];
    var i := 0;
    while i < |data|
      invariant 0 <= i <= |data|
      invariant MetricPayload(user, activity) == PayloadOf(data[..i])
    {
      user, activity := WriteEntry(user, activity, data[i].0, data[i].1);
      assert data[..i + 1][..i] == data[..i];
      i := i + 1;
    }
    assert data[..|data|] == data;
    p := MetricPayload(user, activity);
    PayloadOfMeaning(data);
  }

  /** The body of the loop of `_create_metric_payload`: the writes one entry makes. */
  method WriteEntry(user: Dict, activity: Dict, key: string, value: Json) returns (user': Dict, activity': Dict)
    ensures user' == UserStep(user, key, value) && activity' == ActivityStep(activity, key, value)
  {
    user', activity' := user, activity;
    if IsUserIdKey(key) {
      user' := Assign(user', CKAN_USER_ID, value);
    }
    if IsUserKey(key) {
      user' := Assign(user', key, value);
    }
    if IsActivityKey(key) {
      activity' := Assign(activity', key, value);
    }
  }

  /**
   * The retry loop of `insert_metric_event`: `add_event` is tried at most
   * `retries` times and the loop stops at the first success; a failed
   * attempt is logged and swallowed. `delivers(n)` says whether attempt
   * `n` (from 0) succeeds.
   */
  method SendWithRetry(retries: int, delivers: nat -> bool) returns (attempts: nat, delivered: bool)
    ensures attempts <= if retries > 0 then retries else 0
    ensures delivered <==> exists n: nat :: n < retries && delivers(n)
    ensures delivered ==> attempts > 0 && delivers(attempts - 1)
    ensures forall n: nat :: n < attempts - 1 ==> !delivers(n)
    ensures !delivered ==> attempts == if retries > 0 then retries else 0
  {
    attempts, delivered := 0, false;
    while attempts < retries && !delivered
      invariant attempts <= if retries > 0 then retries else 0
      invariant delivered ==> attempts > 0 && delivers(attempts - 1)
      invariant forall n: nat :: n < attempts - (if delivered then 1 else 0) ==> !delivers(n)
      decreases retries - attempts
    {
      delivered := delivers(attempts);
      attempts := attempts + 1;
    }
  }

  /** What `insert_metric_event` reads: a `registration_data` dictionary to flatten. */
  predicate EventDataOk(data: Dict) {
    Get(data, "registration_data").Some? && Get(data, "registration_data").value.JObject?
  }

  function RegistrationOf(data: Dict): Dict
    requires EventDataOk(data)
  {
    Get(data, "registration_data").value.fields
  }

  /**
   * What flattening `data` for `activity` leaves behind: a dict with one entry
   * per key, holding the registration keys at the top level (they win over
   * same-named keys), no `registration_data`, and `activity_type` set.
   */
  ghost predicate FlattenedFor(activity: string, data: Dict, flat: Dict)
    requires EventDataOk(data)
  {
    && DistinctKeys(flat)
    && forall k :: (Get(flat, k) ==
      if k == "activity_type" then Some(JStr(activity))
      else if k == "registration_data" then None
      else if HasKey(RegistrationOf(data), k) then LastValue(RegistrationOf(data), k)
      else Get(data, k))
  }

  /**
   * `insert_metric_event(activity, data)`: flattens `data` in place (the
   * registration keys move to the top level and win over same-named keys,
   * `registration_data` goes, `activity_type` is set), builds the payload
   * from it and sends it with retries. Returns the flattened data, the
   * payload and the retry outcome.
   */
  method InsertMetricEvent(activity: string, data: Dict, retries: int, delivers: nat -> bool)
    returns (flat: Dict, payload: MetricPayload, attempts: nat, delivered: bool)
    requires DistinctKeys(data) && EventDataOk(data)
    ensures DistinctKeys(flat)
    ensures forall k :: (Get(flat, k) ==
      if k == "activity_type" then Some(JStr(activity))
      else if k == "registration_data" then None
      else if HasKey(RegistrationOf(data), k) then LastValue(RegistrationOf(data), k)
      else Get(data, k))
    ensures PayloadFor(flat, payload)
    ensures Get(payload.activity, "activity_type") == Some(JStr(activity))
    ensures attempts <= if retries > 0 then retries else 0
    ensures delivered <==> exists n: nat :: n < retries && delivers(n)
    ensures !delivered ==> attempts == if retries > 0 then retries else 0
  {
    var registration := RegistrationOf(data);
    var merged := Update(data, registration);
    RemoveKeepsDistinct(merged, "registration_data");
    var removed := Remove(merged, "registration_data");
    AssignKeepsDistinct(removed, "activity_type", JStr(activity));
    flat := Assign(removed, "activity_type", JStr(activity));
    payload := CreateMetricPayload(flat);
    LastValueIsGet(flat, "activity_type");
    attempts, delivered := SendWithRetry(retries, delivers);
  }

  /** One licence of an access update, as `handle_dataset_access_metrics` reads it. */
  predicate MetricLicenceOk(v: Json) {
    v.JObject? && HasKey(v.fields, "agreed") && HasKey(v.fields, "licence_id")
  }

  function LicenceActivity(licence: Json): (a: string)
    requires MetricLicenceOk(licence)
    ensures a == "role added" <==> Truthy(Get(licence.fields, "agreed").value)
    ensures a == "role added" || a == "role removed"
  {
    if Truthy(Get(licence.fields, "agreed").value) then "role added" else "role removed"
  }

  /** One `insert_metric_event` call: the dict it was given, what it sent, and how the sending went. */
  datatype MetricEvent = MetricEvent(activity: string, data: Dict, flat: Dict, payload: MetricPayload,
                                     attempts: nat, delivered: bool)

  /** What the event for licence number `i` is. */
  ghost predicate EventFor(caseDetails: Dict, licence: Json, i: nat, retries: int, delivers: (nat, nat) -> bool, e: MetricEvent)
    requires MetricLicenceOk(licence)
  {
    && e.activity == LicenceActivity(licence)
    && (forall k :: Get(e.data, k) ==
          if k == "dataset" then Get(licence.fields, "licence_id") else LastValue(caseDetails, k))
    && EventDataOk(e.data)
    && FlattenedFor(e.activity, e.data, e.flat)
    && PayloadFor(e.flat, e.payload)
    && Get(e.payload.activity, "activity_type") == Some(JStr(e.activity))
    && e.attempts <= (if retries > 0 then retries else 0)
    && (e.delivered <==> exists n: nat :: n < retries && delivers(i, n))
  }

  /** What `handle_dataset_access_metrics` reads from the case. */
  predicate CaseDetailsOk(caseDetails: Dict) {
    LastValue(caseDetails, "registration_data").Some? && LastValue(caseDetails, "registration_data").value.JObject?
  }

  /** The copy `handle_dataset_access_metrics` makes for one licence: the case plus its `dataset`. */
  method LicenceData(caseDetails: Dict, licence: Json) returns (data: Dict)
    requires MetricLicenceOk(licence) && CaseDetailsOk(caseDetails)
    ensures DistinctKeys(data) && EventDataOk(data)
    ensures forall k :: (Get(data, k) ==
      if k == "dataset" then Get(licence.fields, "licence_id") else LastValue(caseDetails, k))
  {
    data := Update([], caseDetails);
    AssignKeepsDistinct(data, "dataset", Get(licence.fields, "licence_id").value);
    data := Assign(data, "dataset", Get(licence.fields, "licence_id").value);
  }

  /** The body of `handle_dataset_access_metrics` for licence number `i`. */
  method LicenceEvent(caseDetails: Dict, licence: Json, i: nat, retries: int, delivers: (nat, nat) -> bool)
    returns (event: MetricEvent)
    requires CaseDetailsOk(caseDetails) && MetricLicenceOk(licence)
    ensures EventFor(caseDetails, licence, i, retries, delivers, event)
  {
    var data := LicenceData(caseDetails, licence);
    var activity := LicenceActivity(licence);
    var attemptOf := (n: nat) => delivers(i, n);
    var flat, payload, attempts, delivered := InsertMetricEvent(activity, data, retries, attemptOf);
    assert delivered <==> exists n: nat :: n < retries && delivers(i, n) by {
      assert forall n: nat :: attemptOf(n) == delivers(i, n);
    }
    event := MetricEvent(activity, data, flat, payload, attempts, delivered);
  }

  /**
   * The `dataset` an event reports is the licence's `licence_id`, unless the
   * registration data carries a `dataset` of its own, which then wins.
   */
  lemma EventDataset(caseDetails: Dict, licence: Json, i: nat, retries: int, delivers: (nat, nat) -> bool, e: MetricEvent)
    requires MetricLicenceOk(licence)
    requires EventFor(caseDetails, licence, i, retries, delivers, e)
    ensures !HasKey(RegistrationOf(e.data), "dataset") ==>
      Get(e.payload.activity, "dataset") == Get(licence.fields, "licence_id")
    ensures HasKey(RegistrationOf(e.data), "dataset") ==>
      Get(e.payload.activity, "dataset") == LastValue(RegistrationOf(e.data), "dataset")
  {
  }

  /** Appending the event of the next licence keeps every event what its licence makes it. */
  lemma EventsExtend(caseDetails: Dict, licences: seq<Json>, retries: int, delivers: (nat, nat) -> bool,
                     events: seq<MetricEvent>, event: MetricEvent)
    requires |events| < |licences|
    requires forall i :: 0 <= i < |licences| ==> MetricLicenceOk(licences[i])
    requires forall j :: 0 <= j < |events| ==> EventFor(caseDetails, licences[j], j, retries, delivers, events[j])
    requires EventFor(caseDetails, licences[|events|], |events|, retries, delivers, event)
    ensures forall j :: 0 <= j < |events| + 1 ==>
      EventFor(caseDetails, licences[j], j, retries, delivers, (events + [event])[j])
  {
    forall j | 0 <= j < |events| + 1
      ensures EventFor(caseDetails, licences[j], j, retries, delivers, (events + [event])[j])
    {
      if j < |events| {
        assert (events + [event])[j] == events[j];
      }
    }
  }

  /**
   * `handle_dataset_access_metrics`: one metric event per licence, in list
   * order; `delivers(i, n)` says whether attempt `n` of event `i` succeeds.
   */
  method HandleDatasetAccessMetrics(caseDetails: Dict, licences: seq<Json>, retries: int, delivers: (nat, nat) -> bool)
    returns (events: seq<MetricEvent>)
    requires CaseDetailsOk(caseDetails)
    requires forall i :: 0 <= i < |licences| ==> MetricLicenceOk(licences[i])
    ensures |events| == |licences|
    ensures forall i :: 0 <= i < |events| ==> EventFor(caseDetails, licences[i], i, retries, delivers, events[i])
  {
    events := [];
    var i := 0;
    while i < |licences|
      invariant 0 <= i <= |licences| && |events| == i
      invariant forall j :: 0 <= j < i ==> EventFor(caseDetails, licences[j], j, retries, delivers, events[j])
    {
      var event := LicenceEvent(caseDetails, licences[i], i, retries, delivers);
      EventsExtend(caseDetails, licences, retries, delivers, events, event);
      events := events + [event];
      i := i + 1;
    }
  }
}
