# Verification API core, modelled in Dafny

This project models the core of the verification API. That service lets staff review user-verification *cases*. Staff can lock, approve, decline, note and close a case, and the service passes each decision on to the account service (LDAP accounts), the dataset-access service (ulapd) and the metric service. The model covers four parts of the source:

- **The case workflow.** `verification_api/services/verification_service.py` with the tables of `verification_api/models.py`.
  - The store is the class `Service.Store`. It holds the case table (a map from `verification_id` to a row), the notes, the closures and the decline-reason catalogue, with their id counters.
  - Every service operation that writes is a method with a `modifies` clause. Its `ensures` states the whole new store (`Snap()`) in terms of the old one. It also states which request went to the sibling service (`call`) and which `ApplicationError` kind and HTTP code come back on each error path.
  - What the sibling service did is a parameter (`Ack`/`Reply`). Every check and that call come before the first write, so every `Err` leaves the store `unchanged`.
  - The advisory lock is `Service.CanPerformAction`. The table queries, the `search` filters and the `as_dict` projections are functions in `Models`, with the filtering and ordering rules of `Query`.
- **Metric payloads.** `verification_api/dependencies/metric_api.py` flattens a case, shapes it, key by key, into the `user`/`activity` payload, and sends it through the bounded retry loop.
  - Python's `key in 'user_id'` is a substring test, so `user`, `id` and the empty key also write `ckan_user_id`. The model keeps that test as written.
- **The cascading health check.** `cascade_health` in `verification_api/views/general.py`:
  - the depth guard;
  - the classification of each database probe and each HTTP probe;
  - the fold into the overall status.

  Every probe is an input: a value or an exception.
- **Dictionaries.** Python dicts are ordered association lists (`Json.Dict`). `Get`, item assignment, `pop` and `update` have the insertion-order semantics of Python.

Four behaviours of the code are easy to miss, and the model keeps each as written:

- An unlocked Pending case (`staff_id` null) accepts only a caller whose `staff_id` is also null, not any staff member.
- A decline sends the reason to the account service with its first letter lower-cased. The note keeps the reason as supplied.
- A Closed case can still be locked. Only Approved and Declined cases refuse the lock.
- A case can acquire more than one Close row (`auto_close` never checks the status). `get_closure_by_id` reads the first one.

## Model

| member | source | states |
|---|---|---|
| Errors.HandleErrors | verification_api/services/verification_service.py:16-33 | A storage failure is re-raised as SQLALCHEMY_ERROR, with code 500 exactly on reads and 422 exactly on writes. An application error passes through unchanged. |
| Errors.DependencyError | verification_api/dependencies/account_api.py:26-34 | A failed call into a sibling service becomes an error of that service and failure type, with the default code 500, because the client passes no code. |
| Json.Assign | verification_api/dependencies/metric_api.py:43 | After `d[k] = v`, `k` maps to `v` and every other key keeps its value. An existing key keeps its position; a new key is appended at the end. |
| Json.Remove | verification_api/dependencies/metric_api.py:42 | After `d.pop(k)`, `k` is gone, every other key keeps its value, and no entry is invented. |
| Json.Update | verification_api/services/verification_service.py:339-342 | After the merge loop, each key maps to the last value the update gives it, or else to its old value. The old keys keep their order, and a dict stays free of repeated keys. |
| Json.AsText | verification_api/models.py:51 | `->>` gives a string's text, and SQL NULL for JSON null. There is no text exactly for null, arrays and objects. |
| Json.Get | verification_api/services/verification_service.py:202-205 | `d.get(k)` gives a value exactly when `k` is a key, and that value is stored under `k`. |
| Json.GetIsFirst | verification_api/services/verification_service.py:202-205 | `d.get(k)` gives the value of the first entry carrying `k`. |
| Json.LastValue | verification_api/dependencies/metric_api.py:80-88 | The value a key-by-key loop leaves for `k` exists exactly when `k` is a key, and is stored under `k`. |
| Json.LastValueIsLast | verification_api/dependencies/metric_api.py:80-88 | That value is the one of the last entry carrying `k`. |
| Json.RemoveKeepsDistinct | verification_api/dependencies/metric_api.py:42 | Popping a key never makes a key repeat. |
| Json.AssignKeepsDistinct | verification_api/dependencies/metric_api.py:43 | Assigning a key never makes a key repeat. |
| Json.LastValueIsGet | verification_api/dependencies/metric_api.py:80 | In a real dict (no repeated key), the value a key-by-key loop leaves for a key is the value `get` finds. |
| Query.Filter | verification_api/models.py:45 | `filter_by` keeps exactly the rows the condition accepts, each as often as it occurs. |
| Query.SortBy | verification_api/models.py:45 | `order_by` gives a permutation of its input (same multiset), sorted by the key. |
| Query.SortedFilter | verification_api/models.py:45 | Filtering and then ordering gives exactly the accepted rows with their multiplicities, in key order. |
| Query.FilterKeepsIncreasing | verification_api/models.py:60 | Filtering keeps the ascending id order the model gives the table. |
| Query.FilterAcceptingAll | verification_api/models.py:60 | A query with no condition returns the table as it is. |
| Models.NewCase | verification_api/models.py:27-33 | The new row copies the user id, ldap id, registration data and status from the request. `staff_id` defaults to null when absent, and `date_agreed` starts empty. |
| Models.NewNote | verification_api/models.py:87-90 | The new note belongs to the given case and copies the text and the staff id, under the given id and time. |
| Models.NewDeclineReason | verification_api/models.py:115-118 | The new reason takes its description, detail and advice from `decline_reason`, `decline_text` and `decline_advice`, and has no `date_ended`. |
| Models.NewClose | verification_api/models.py:144-148 | The new Close row belongs to the given case and copies the close detail, the requester and the staff id from the request. |
| Models.CaseGetById | verification_api/models.py:35-37 | The row with that primary key is returned when it exists, and nothing otherwise. |
| Models.CaseGetByLdapId | verification_api/models.py:39-41 | The first case carrying that ldap id, in the ascending id order the model chooses, is returned. Nothing is returned exactly when no case has it. |
| Models.CaseGetPending | verification_api/models.py:43-45 | Exactly the Pending cases are returned, each once, with later `date_added` first. |
| Models.PendingViews | verification_api/services/verification_service.py:36-38 | `get_pending` returns one `as_dict` per Pending case and no other case, newest first. Each case shows In Progress exactly when it has notes. |
| Models.CaseViews | verification_api/services/verification_service.py:311-312 | `_extract_rows` gives one `as_dict` per row, in row order. |
| Models.SearchFilters | verification_api/models.py:48-58 | A search has one ilike condition for each non-empty parameter, on its own field, in the order first_name, last_name, organisation_name, email. |
| Models.CaseSearch | verification_api/models.py:60 | The result is exactly the cases meeting every condition, each once, in the ascending id order the model chooses. |
| Models.BlankSearchReturnsAll | verification_api/models.py:47-60 | With every parameter blank, a search returns the whole table. |
| Models.NoteGetByCaseId | verification_api/models.py:92-94 | Exactly the case's notes are returned, each as often as stored, newest first. |
| Models.NoteViews | verification_api/services/verification_service.py:47-48 | The notepad of a case is the `as_dict` of each of its notes, newest first; the four lemmas below state this. |
| Models.NoteViewsOrder | verification_api/models.py:92-94 | The notepad of a case holds only notes of that case, newest first. |
| Models.NoteViewsCount | verification_api/models.py:92-94 | The notepad has as many entries as the case has notes. |
| Models.NoteViewsComplete | verification_api/models.py:92-94 | Every note of the case appears on its notepad. |
| Models.NoteViewsSound | verification_api/models.py:92-94 | Every notepad entry is the `as_dict` of a note of that case. |
| Models.DeclineReasonGetAll | verification_api/models.py:120-122 | Exactly the reasons without `date_ended` are returned, each as often as stored, by ascending `decline_id`. |
| Models.CloseGetByCaseId | verification_api/models.py:150-152 | The first closure of the case, in the insertion order the model chooses, is returned. Nothing is returned exactly when the case has no closure. |
| Models.DisplayStatus | verification_api/models.py:63-65 | The displayed status differs from the stored one only for a Pending case with notes, which shows In Progress. |
| Models.CaseAsView | verification_api/models.py:62-76 | `as_dict` reports every stored column unchanged, with the displayed status in place of the stored status. |
| Models.NoteMakesPendingInProgress | verification_api/models.py:63-65 | Once a note is added to a Pending case, the case shows as In Progress. |
| Models.StoredStatusShown | verification_api/models.py:63-65 | A case that is not Pending, or has no notes, shows its stored status. |
| Models.NoteAsView | verification_api/models.py:96-103 | `as_dict` reports the note detail as `note_text` and the verification id as `case_id`. |
| Models.NoteRoundTrip | verification_api/models.py:87-103 | A note built from a case id, a staff id and a text reports exactly those back, with its id and time. |
| Models.DeclineReasonAsView | verification_api/models.py:124-132 | `as_dict` reports the description, the detail and the advice unchanged. |
| Service.CanPerformAction | verification_api/services/verification_service.py:333-336 | A Pending case may be acted on only by a caller naming the staff id it is locked to; any other case by everyone. |
| Service.LockRule | verification_api/services/verification_service.py:333-336 | A non-Pending case is open to everyone. A Pending case locked to someone is open exactly to that staff member. An unlocked Pending case rejects every caller who names a staff id. |
| Service.Decided | verification_api/services/verification_service.py:327-330 | `_status_update` sets the status, the staff id and a decision time, and changes no other column. |
| Service.Actioned | verification_api/services/verification_service.py:85-86 | The request is echoed with `status_updated` true and `case_id` set. Every other key keeps its value. |
| Service.JoinAndLastIsEnglishList | verification_api/services/verification_service.py:353-354 | Joining all but the last item with ", " and then adding " and " plus the last item gives the English list of the items. |
| Service.ContactNote | verification_api/services/verification_service.py:345-358 | The note says "No" when the user is not contactable. It names the one preference, or gives the English list of several with the plural wording. |
| Service.AccessMessages | verification_api/services/verification_service.py:255-258 | There is one message per licence, in list order ("granted" when agreed is truthy, "removed" otherwise). |
| Service.DatasetAccessMessages | verification_api/services/verification_service.py:254-258 | The message loop collects exactly those messages. |
| Service.GroupNameOfCn | verification_api/services/verification_service.py:281 | The group name of `cn=<name>,...` is `<name>`. |
| Service.GroupNamesOfCns | verification_api/services/verification_service.py:281 | A list of such DNs gives exactly their names, in order. |
| Service.GroupDns | verification_api/services/verification_service.py:276-279 | A single DN string is treated as a list of one DN, and a list of DN strings is taken as it is. |
| Service.GroupNames | verification_api/services/verification_service.py:281 | There is one group name per DN, in order. |
| Service.FilterGroupsToUpdate | verification_api/services/verification_service.py:361-371 | The result holds exactly the requested memberships whose target differs from the current membership, without repeated keys. |
| Service.Offer | verification_api/services/verification_service.py:175-179 | A decline offer carries the reason's description, detail and advice. |
| Service.OfferRoundTrip | verification_api/models.py:115-132 | A reason stored from a catalogue entry is offered back with that entry's `decline_reason`, `decline_text` and `decline_advice`. |
| Service.ReshapeReasons | verification_api/services/verification_service.py:172-182 | The reshaping loop gives one offer per row, in row order. |
| Service.OffersCoverReasons | verification_api/services/verification_service.py:170-182 | The offers are exactly the reshaped current reasons. |
| Service.SearchParam | verification_api/services/verification_service.py:202-205 | A missing or null parameter reads as blank. |
| Service.MatchesFilterFor | verification_api/models.py:50-58 | A parameter's condition holds exactly when the parameter is blank or its field contains it. |
| Service.FiltersMatchParams | verification_api/models.py:48-60 | A case meets the filter list exactly when every non-blank parameter is found in its field. |
| Service.SearchByParams | verification_api/models.py:47-60 | A search selects exactly the cases that match every non-blank parameter. |
| Service.MarkAutoClosure | verification_api/services/verification_service.py:124-125 | `auto_close` sets the requester to HMLR and the detail to the automated-closure text. Every other key, staff id and note text included, keeps its value. |
| Service.Store.AddNote | verification_api/services/verification_service.py:315-324 | `_add_note` appends exactly one note under the next note id, and nothing else changes. |
| Service.Store.StoreRegistration | verification_api/services/verification_service.py:222 | Only the case's registration data changes. |
| Service.Store.StatusUpdate | verification_api/services/verification_service.py:327-330 | Only the case's decision columns change. |
| Service.Store.DpsAction | verification_api/services/verification_service.py:55-89 | The errors are 404 for a missing case, then 403 on a failed lock check, then VERIFICATION_ERROR 500 for an unknown action; a refused account call passes its error through. Every error leaves the store unchanged. An approve sends the approval and decides the case, adding no note. A decline sends the reason with its first letter lower-cased, decides the case, and appends one note with the reason as supplied. The current status is never checked. |
| Service.Store.RecordClosure | verification_api/services/verification_service.py:107-110 | Exactly one Close row is added and the status becomes Closed. |
| Service.Store.CloseAccount | verification_api/services/verification_service.py:92-114 | The errors are 404 for a missing case and VERIFICATION_ERROR 409 when the case is not Approved; a refused call passes its error through. Errors change nothing. On success exactly one Close row is added and the status becomes Closed. |
| Service.Store.CloseAndNote | verification_api/services/verification_service.py:122-130 | Closing adds the closure, and the Closed status then lets the note through the lock. |
| Service.Store.AutoCloseCase | verification_api/services/verification_service.py:122-130 | An eligible close adds one HMLR closure and one note from the request. |
| Service.Store.CaseByLdap | verification_api/services/verification_service.py:119 | `auto_close` works on the first case with the ldap id. |
| Service.Store.AutoClose | verification_api/services/verification_service.py:117-132 | With `close` set, the case is closed whatever its status, one HMLR closure is added and the note is appended. Otherwise only the note is added, subject to the lock (403 and no change when it fails). Success returns `{status: true}`. |
| Service.Store.InsertCase | verification_api/services/verification_service.py:147-152 | The new row goes in under a fresh id, which is returned, and nothing else changes. |
| Service.Store.InsertNote | verification_api/services/verification_service.py:155-167 | A missing case gives 404 and a failed lock check gives 403, both with the notes unchanged. Otherwise exactly one note is appended. |
| Service.Store.ManageCaseLock | verification_api/services/verification_service.py:185-197 | A missing case gives 404. An Approved or Declined case gives LOCKING_ERROR with the default code 500. Either error leaves the store unchanged. Any other status, Closed included, sets only `staff_id` to the owner, or to null when there is none. |
| Service.Store.UpdateUserDetails | verification_api/services/verification_service.py:209-229 | A missing case gives 404. ulapd receives the user id overlaid with the updated keys, and a refusal changes nothing. On success the keys are merged into the registration data, and one contact note is added exactly when `contactable` is among them. |
| Service.Store.ApplyUserDetails | verification_api/services/verification_service.py:222-225 | The registration data becomes the old data overlaid with the update, and the contact note is added when `contactable` was updated. |
| Service.Store.NoteContactChange | verification_api/services/verification_service.py:345-358 | One note with the contact wording is added when `contactable` is among the updated keys, and nothing otherwise. |
| Service.Store.UpdateDatasetAccess | verification_api/services/verification_service.py:239-263 | A missing case gives 404. ulapd receives the user id and the licences, and a refusal changes nothing. On success exactly one note listing the access messages is added, and the payload is returned. No lock is taken. |
| Service.Store.GetPendingById | verification_api/services/verification_service.py:41-52 | A missing case gives 404, exactly. Otherwise the result is the case's `as_dict` together with its notepad. |
| Service.Store.GetClosureById | verification_api/services/verification_service.py:135-144 | A case without a closure gives 404, exactly. Otherwise the result is the detail and date of one of its closures. |
| Service.Store.GetGroups | verification_api/services/verification_service.py:266-282 | A missing case gives 404 and sends no request. Otherwise the account is read by ldap id; a failed read passes its error through. On success the group name of each DN is returned, with the case. |
| Service.Store.GetDeclineReasons | verification_api/services/verification_service.py:170-182 | The offers are exactly the current reasons reshaped: the j-th offer is the j-th current reason (by ascending `decline_id`) as a description, detail and advice. |
| Service.Store.GetPending | verification_api/services/verification_service.py:36-38 | `get_pending` gives the `as_dict` of the Pending cases, newest first, as `Models.PendingViews` states. |
| Service.Store.PerformSearch | verification_api/services/verification_service.py:200-206 | The result is the `as_dict` of exactly the cases matching every non-blank parameter, in the ascending id order the model chooses. |
| Metric.LastUserId | verification_api/dependencies/metric_api.py:81-82 | `ckan_user_id` takes the value of the last entry whose key is a substring of "user_id". |
| Metric.UserStepAt | verification_api/dependencies/metric_api.py:81-85 | One entry writes `ckan_user_id` when its key is a substring of "user_id", and its own key when that key is `user_type` or `status`. Nothing else in `user` changes. |
| Metric.ActivityStepAt | verification_api/dependencies/metric_api.py:87-88 | One entry writes its own key into `activity` only when that key is `activity_type` or `dataset`. |
| Metric.UserAt | verification_api/dependencies/metric_api.py:71-90 | Every key of `user` holds the value the last relevant entry gave it. Every other key is absent. |
| Metric.ActivityAt | verification_api/dependencies/metric_api.py:71-90 | `dataset` and `filename` are always present in `activity` (null unless set), and `activity_type` holds its last value. Every other key is absent. |
| Metric.UserDistinct | verification_api/dependencies/metric_api.py:71-90 | `user` repeats no key. |
| Metric.ActivityShape | verification_api/dependencies/metric_api.py:72-78 | `activity` starts with `dataset` and `filename` and repeats no key. |
| Metric.PayloadOfMeaning | verification_api/dependencies/metric_api.py:71-90 | The payload built from the entries is what `PayloadFor` describes key by key, and is a well-formed pair of dicts. |
| Metric.CreateMetricPayload | verification_api/dependencies/metric_api.py:71-90 | The loop builds exactly that payload. |
| Metric.WriteEntry | verification_api/dependencies/metric_api.py:80-88 | The body of the loop makes the writes of one entry. |
| Metric.SendWithRetry | verification_api/dependencies/metric_api.py:48-56 | There are at most `METRIC_RETRY` attempts. Delivery happens exactly when some attempt within the bound succeeds, and the loop stops at the first success. Failure uses every attempt. |
| Metric.InsertMetricEvent | verification_api/dependencies/metric_api.py:39-59 | The registration keys move to the top level and override, `registration_data` goes, and `activity_type` is set. The payload of the flattened dict is sent with the retry bounds above. |
| Metric.LicenceActivity | verification_api/dependencies/metric_api.py:67 | The activity is "role added" exactly when `agreed` is truthy, and "role removed" otherwise. |
| Metric.LicenceData | verification_api/dependencies/metric_api.py:64-66 | Each licence gets a copy of the case with its `dataset` set to the licence id. |
| Metric.EventDataset | verification_api/dependencies/metric_api.py:39-68 | An event reports the licence's `licence_id` as its `dataset`, unless the registration data carries a `dataset` of its own, which then wins. |
| Metric.LicenceEvent | verification_api/dependencies/metric_api.py:63-68 | One licence gives one event, as `EventFor` describes it: the data is the case plus the licence's `dataset`, and the flattened dict, the payload and the retry outcome follow from it. |
| Metric.EventsExtend | verification_api/dependencies/metric_api.py:63-68 | Appending the next licence's event keeps every event matched to its licence. |
| Metric.HandleDatasetAccessMetrics | verification_api/dependencies/metric_api.py:62-68 | There is exactly one event per licence, in list order, each as `EventFor` describes. |
| Health.DbEntryFor | verification_api/views/general.py:40-54 | A database is OK exactly when the probe returned a timestamp, and then reports that timestamp. It is BAD with no timestamp when the probe raised. |
| Health.ServiceEntryFor | verification_api/views/general.py:62-97 | A service is OK exactly on 200 and BAD exactly on 500. Any other code, or an exception, is UNKNOWN. A reply's code, content type and body are reported; an exception reports them as null. |
| Health.WithSlash | verification_api/views/general.py:59-60 | A trailing `/` is added only when missing. |
| Health.ProbeUrl | verification_api/views/general.py:59-69 | The probed URL is the configured one with a trailing `/`, then `health/cascade/` and the decimal digits of `depth - 1`. |
| Health.CascadeHealth | verification_api/views/general.py:20-115 | A depth outside `[0, MAX_HEALTH_CASCADE]` gives the ERROR body with 500 and probes nothing. Otherwise the report lists every database and, above depth 0, every service. It is 500/BAD exactly when some probe failed, and 200/OK otherwise. |
| Health.ProbeAll | verification_api/views/general.py:31-99 | The loop over the dependencies collects those entries and requests in configuration order, and the overall status is 500 exactly on a failure. |
| Health.CheckDependency | verification_api/views/general.py:40-99 | A dependency is probed as a database when its URL contains "postgres", or else as a service when depth > 0. |
| Health.ProbeDatabase | verification_api/views/general.py:40-54 | A database probe gives its entry and marks a failure exactly when it raised. |
| Health.ProbeService | verification_api/views/general.py:56-99 | A service probe gives its entry and marks a failure exactly when it is not OK. |
| Health.DbEntriesAt | verification_api/views/general.py:35-54 | The k-th `db` entry is the entry of the k-th database dependency. |
| Health.ServiceEntriesAt | verification_api/views/general.py:35-99 | At depth 0 there are no service entries. Otherwise the k-th entry is that of the k-th non-database dependency. |
| Health.ProbeUrlsAt | verification_api/views/general.py:35-69 | The k-th URL requested is the cascade URL of the k-th non-database dependency, and none are requested at depth 0. |
| Health.HealthyIff | verification_api/views/general.py:31-113 | The report is OK exactly when every database returned a timestamp and, above depth 0, every service answered 200. |
| Strings.Contains | verification_api/views/general.py:40 | `needle in hay`: the needle occurs somewhere in the text. |
| Strings.ContainsAt | verification_api/views/general.py:40 | An occurrence at any position makes `in` true. |
| Strings.ContainsPosition | verification_api/views/general.py:40 | Conversely, `in` being true names a position where the needle occurs. |
| Strings.ContainsEmpty | verification_api/dependencies/metric_api.py:81 | The empty key is found in every string, `'user_id'` included. |
| Strings.Lower | verification_api/models.py:51-58 | Lower-casing keeps the length and lower-cases each ASCII letter in place. |
| Strings.Join | verification_api/services/verification_service.py:260 | `sep.join(xs)` starts with the first item. |
| Strings.JoinSnoc | verification_api/services/verification_service.py:353-354 | Joining one more item appends the separator and that item. |
| Strings.LowerFirst | verification_api/services/verification_service.py:72 | Only the first character is lower-cased, and the rest stays identical. |
| Strings.BeforeFirst | verification_api/services/verification_service.py:281 | `split(',')[0]` is the longest prefix without a comma. |
| Strings.DropFirst | verification_api/services/verification_service.py:281 | `[3:]` drops the first three characters, and gives empty text for shorter strings. |
| Strings.NatToString | verification_api/views/general.py:69 | `str(n)` gives a non-empty string of decimal digits that denotes `n`, with no leading zero, and one digit exactly below 10. |

## Left out

- HTTP routing, the Flask response envelope, status-code mapping in the views, headers, logging and error-message text are not modelled. Only the `ApplicationError` kind and its code are.
- Database sessions, commits and rollbacks are not modelled. Each operation is atomic, and a storage failure appears only through `Errors.HandleErrors`. Concurrent requests, and the race between the lock check and the write, are out of scope.
- The sibling services (account, ulapd, metric) are not modelled. Their replies are parameters and their requests are reported as `ExternalCall` values; the clients' URL building, headers and timeouts are left out.
- `get_dataset_list_details`, `get_dataset_activity` and `get_user_dataset_access` only forward one ulapd call, so they are not modelled.
- Clocks are `now` parameters and timestamps are integers. `str(datetime)` rendering, in `as_dict` views and in `get_closure_by_id`, is not modelled.
- Query order: `get_case_by_ldap_id` (verification_api/models.py:41), `search` (verification_api/models.py:60) and `get_closure_by_case_id` (verification_api/models.py:152) have no `ORDER BY`, so the database promises no order. The model fixes one: ascending id for cases and insertion order for closures. Which row is "first", and the order of search results, are therefore a modelling choice.
- Records are values, not ORM objects with identity. Ids are integers, and a route's string id is taken as already converted.
- Strings.Lower: lower-cases ASCII letters only. `ilike` does Unicode case folding, and SQL `%`/`_` wildcards inside a search parameter are read literally.
- Strings.LowerFirst: lower-cases an ASCII first letter only. Python's `lower()` is Unicode-aware, and for some characters (such as 'İ') it gives two code points, so the result can be longer than the input.
- Json.AsText: gives no text for arrays and objects, so a search never matches such a field. PostgreSQL's `->>` renders them as JSON text, which `ilike` can match. Numbers and booleans get a plain rendering.
- Request shapes that the source indexes with `[]` are `requires`, because a missing key is an unhandled `KeyError` there. Examples are `data['staff_id']` and `data['reason'][0]` on a non-empty reason.
- `auto_close` for an ldap id no case has is a `requires` in `Service.Store.AutoClose`, because the source fails with an `AttributeError` on `None`.
- `_filter_groups_to_update` assumes every existing DN starts with `cn=`, so `find('cn=')` is 0.
- `_add_update_note` with a truthy `contactable` and an empty preference list raises `IndexError`, so that case is excluded by a `requires`.
- `METRIC_RETRY` and `MAX_HEALTH_CASCADE` are parameters, and `DEPENDENCIES` is a sequence of (name, URL) pairs in configuration order. An absent setting is the empty sequence.
- Each `add_event` attempt is an input (`delivers`). Its HTTP, connection and timeout errors are caught and logged by the retry loop, and the model represents them as a failed attempt. The outer `except ApplicationError` of `insert_metric_event` guards the client set-up only, and is not modelled.
- Health: an HTTP reply whose body is not JSON, or which has no content-type header, raises outside the `try` in the source; the model assumes a JSON body. A service URL that is empty crashes on `value[-1]`, so a non-empty URL is a `requires` (`UrlsOk`).
- Health: the database timestamp is taken as already rendered. The app name, commit, headers and server timestamp of the report are not modelled.
- Health.CheckDependency: `ConnectionAbortedError` and any other exception are one outcome, as both handlers do the same thing.
- Configuration loading, application startup and migrations are not part of this model.
