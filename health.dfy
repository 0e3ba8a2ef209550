/**
 * The cascading health check: every configured dependency is probed once,
 * databases directly and other services through their own cascade route one
 * level down, and the report is BAD as soon as one probe is not OK.
 */
module Health {
  import opened Wrappers
  import opened Json
  import Strings

  /** What `postgres.get_current_timestamp()` did: the rendered timestamp, or an exception. */
  datatype DbProbe = DbTimestamp(stamp: string) | DbRaised

  /** What the GET of a service's cascade URL did: a reply with a JSON body, or an exception. */
  datatype HttpProbe = HttpReply(statusCode: int, contentType: string, content: Json) | HttpRaised

  /** One entry of `db`; a failed probe has no `current_timestamp`. */
  datatype DbEntry = DbEntry(name: string, currentTimestamp: Option<string>, status: string)

  /** One entry of `services` (all of type `http`); a raised probe has null code, type and content. */
  datatype ServiceEntry = ServiceEntry(name: string, statusCode: Option<int>, contentType: Option<string>,
                                       content: Option<Json>, status: string)

  /** The JSON body: the ERROR answer to a depth out of range, or the report. */
  datatype HealthBody =
    | CascadeError(depth: int)
    | CascadeReport(depth: int, status: string, db: seq<DbEntry>, services: seq<ServiceEntry>)

  datatype HealthResponse = HealthResponse(httpStatus: int, body: HealthBody)

  /** `"postgres" in value`: the dependency is a database. */
  predicate IsDb(url: string) {
    Strings.Contains(url, "postgres")
  }

  /** The entry for a database dependency. */
  function DbEntryFor(name: string, probe: DbProbe): (e: DbEntry)
    ensures e.name == name
    ensures e.status == "OK" <==> probe.DbTimestamp?
    ensures e.status == "BAD" <==> probe.DbRaised?
    ensures e.currentTimestamp.Some? <==> probe.DbTimestamp?
    ensures probe.DbTimestamp? ==> e.currentTimestamp == Some(probe.stamp)
  {
    match probe
    case DbTimestamp(stamp) => DbEntry(name, Some(stamp), "OK")
    case DbRaised => DbEntry(name, None, "BAD")
  }

  /** The entry for a service dependency: 200 is OK, 500 is BAD, any other code or an exception is UNKNOWN. */
  function ServiceEntryFor(name: string, probe: HttpProbe): (e: ServiceEntry)
    ensures e.name == name
    ensures e.status == "OK" <==> probe.HttpReply? && probe.statusCode == 200
    ensures e.status == "BAD" <==> probe.HttpReply? && probe.statusCode == 500
    ensures e.status == "UNKNOWN" <==> probe.HttpRaised? || (probe.statusCode != 200 && probe.statusCode != 500)
    ensures probe.HttpRaised? ==> e.statusCode.None? && e.contentType.None? && e.content.None?
    ensures probe.HttpReply? ==>
      e.statusCode == Some(probe.statusCode) && e.contentType == Some(probe.contentType) && e.content == Some(probe.content)
  {
    match probe
    case HttpRaised => ServiceEntry(name, None, None, None, "UNKNOWN")
    case HttpReply(code, contentType, content) =>
      ServiceEntry(name, Some(code), Some(contentType), Some(content),
                   if code == 200 then "OK" else if code == 500 then "BAD" else "UNKNOWN")
  }

  /** The URL with a trailing `/`, added only when missing. */
  function WithSlash(url: string): (u: string)
    requires |url| > 0
    ensures |u| > 0 && u[|u| - 1] == '/'
    ensures Strings.IsPrefix(url, u) && |u| <= |url| + 1
    ensures url[|url| - 1] == '/' ==> u == url
  {
    if url[|url| - 1] != '/' then url + "/" else url
  }

  /** The URL of a service's cascade route one level down. */
  function ProbeUrl(url: string, depth: int): (r: string)
    requires |url| > 0 && depth > 0
    ensures var tail := "health/cascade/" + Strings.NatToString(depth - 1);
      && Strings.IsPrefix(url, r)
      && |r| > |tail| && r[|r| - |tail|..] == tail && r[|r| - |tail| - 1] == '/'
    ensures r == WithSlash(url) + "health/cascade/" + Strings.NatToString(depth - 1)
  {
    var u := WithSlash(url);
    var tail := "health/cascade/" + Strings.NatToString(depth - 1);
    assert (u + tail)[..|url|] == u[..|url|];
    assert (u + tail)[|u + tail| - |tail|..] == tail;
    u + tail
  }

  /** What the handler demands of the configuration: a service probed at all has a non-empty URL. */
  predicate UrlsOk(deps: seq<(string, string)>, depth: int) {
    depth > 0 ==> forall i :: 0 <= i < |deps| && !IsDb(deps[i].1) ==> |deps[i].1| > 0
  }

  /** The `db` entries for the dependencies, in configuration order; `dbProbe(i)` is the probe of dependency `i`. */
  function DbEntries(deps: seq<(string, string)>, dbProbe: nat -> DbProbe): seq<DbEntry>
    decreases |deps|
  {
    if deps == [] then []
    else
      var n := |deps| - 1;
      DbEntries(deps[..n], dbProbe) + (if IsDb(deps[n].1) then [DbEntryFor(deps[n].0, dbProbe(n))] else [])
  }

  /** The `services` entries; none at depth 0. */
  function ServiceEntries(deps: seq<(string, string)>, depth: int, httpProbe: nat -> HttpProbe): seq<ServiceEntry>
    decreases |deps|
  {
    if deps == [] then []
    else
      var n := |deps| - 1;
      ServiceEntries(deps[..n], depth, httpProbe)
        + (if !IsDb(deps[n].1) && depth > 0 then [ServiceEntryFor(deps[n].0, httpProbe(n))] else [])
  }

  /** The URLs requested, one per service entry. */
  function ProbeUrls(deps: seq<(string, string)>, depth: int): seq<string>
    requires UrlsOk(deps, depth)
    decreases |deps|
  {
    if deps == [] then []
    else
      var n := |deps| - 1;
      assert UrlsOk(deps[..n], depth) by {
        assert forall i :: 0 <= i < n ==> deps[..n][i] == deps[i];
      }
      ProbeUrls(deps[..n], depth) + (if !IsDb(deps[n].1) && depth > 0 then [ProbeUrl(deps[n].1, depth)] else [])
  }

  /** Some probe failed: a database entry is BAD or a service entry is not OK. */
  predicate AnyFailure(dbs: seq<DbEntry>, services: seq<ServiceEntry>) {
    (exists i :: 0 <= i < |dbs| && dbs[i].status == "BAD") || (exists i :: 0 <= i < |services| && services[i].status != "OK")
  }

  /**
   * `cascade_health(depth)`: with `maxCascade` the MAX_HEALTH_CASCADE setting and
   * `deps` the DEPENDENCIES setting in its order. Returns the response and the
   * URLs requested.
   */
  method CascadeHealth(depth: int, maxCascade: int, deps: seq<(string, string)>,
                       dbProbe: nat -> DbProbe, httpProbe: nat -> HttpProbe)
    returns (resp: HealthResponse, requested: seq<string>)
    requires 0 <= depth <= maxCascade ==> UrlsOk(deps, depth)
    ensures depth < 0 || depth > maxCascade ==> resp == HealthResponse(500, CascadeError(depth)) && requested == []
    ensures 0 <= depth <= maxCascade ==>
      && resp.body.CascadeReport? && resp.body.depth == depth
      && resp.body.db == DbEntries(deps, dbProbe)
      && resp.body.services == ServiceEntries(deps, depth, httpProbe)
      && requested == ProbeUrls(deps, depth)
      && (resp.httpStatus == 500 <==> AnyFailure(resp.body.db, resp.body.services))
      && (resp.httpStatus == 500 || resp.httpStatus == 200)
      && resp.body.status == (if resp.httpStatus == 500 then "BAD" else "OK")
  {
    if depth < 0 || depth > maxCascade {
      return HealthResponse(500, CascadeError(depth)), [];
    }
    var dbs, services, overall;
    dbs, services, requested, overall := ProbeAll(deps, depth, dbProbe, httpProbe);
    var status := if overall == 500 then "BAD" else "OK";
    resp := HealthResponse(overall, CascadeReport(depth, status, dbs, services));
  }

  /**
   * The loop over the dependencies, in configuration order: the `db` and
   * `services` entries, the URLs requested, and the overall status.
   */
  method ProbeAll(deps: seq<(string, string)>, depth: int, dbProbe: nat -> DbProbe, httpProbe: nat -> HttpProbe)
    returns (dbs: seq<DbEntry>, services: seq<ServiceEntry>, requested: seq<string>, overall: int)
    requires UrlsOk(deps, depth)
    ensures dbs == DbEntries(deps, dbProbe)
    ensures services == ServiceEntries(deps, depth, httpProbe)
    ensures requested == ProbeUrls(deps, depth)
    ensures overall == 500 || overall == 200
    ensures overall == 500 <==> AnyFailure(dbs, services)
  {
    dbs, services, requested, overall := [], [], [], 200;
    var i := 0;
    while i < |deps|
      invariant 0 <= i <= |deps|
      invariant UrlsOk(deps[..i], depth)
      invariant dbs == DbEntries(deps[..i], dbProbe)
      invariant services == ServiceEntries(deps[..i], depth, httpProbe)
      invariant requested == ProbeUrls(deps[..i], depth)
      invariant overall == 500 || overall == 200
      invariant overall == 500 <==> AnyFailure(dbs, services)
    {
      EntriesStep(deps, i, depth, dbProbe, httpProbe);
      var db, service, request, failed := CheckDependency(deps[i].0, deps[i].1, i, depth, dbProbe, httpProbe);
      if failed {
        overall := 500;
      }
      FailureAppend(dbs, services, db, service);
      dbs, services, requested := dbs + db, services + service, requested + request;
      i := i + 1;
    }
    assert deps[..|deps|] == deps;
  }

  /**
   * One pass of the loop over the dependencies: a database is probed directly,
   * another service only when depth > 0; the entries and the request it adds,
   * and whether the overall status drops to 500.
   */
  method CheckDependency(name: string, url: string, i: nat, depth: int,
                         dbProbe: nat -> DbProbe, httpProbe: nat -> HttpProbe)
    returns (db: seq<DbEntry>, service: seq<ServiceEntry>, request: seq<string>, failed: bool)
    requires !IsDb(url) && depth > 0 ==> |url| > 0
    ensures db == if IsDb(url) then [DbEntryFor(name, dbProbe(i))] else []
    ensures service == if !IsDb(url) && depth > 0 then [ServiceEntryFor(name, httpProbe(i))] else []
    ensures request == if !IsDb(url) && depth > 0 then [ProbeUrl(url, depth)] else []
    ensures failed <==> AnyFailure(db, service)
  {
    db, service, request, failed := [], [], [], false;
    if IsDb(url) {
      var entry, bad := ProbeDatabase(name, dbProbe(i));
      db, failed := [entry], bad;
    } else if depth > 0 {
      request := [ProbeUrl(url, depth)];
      var entry, bad := ProbeService(name, httpProbe(i));
      service, failed := [entry], bad;
    }
  }

  /** One database probe: the entry it yields, and whether the overall status drops to 500. */
  method ProbeDatabase(name: string, probe: DbProbe) returns (db: DbEntry, failed: bool)
    ensures db == DbEntryFor(name, probe)
    ensures failed <==> AnyFailure([db], [])
  {
    match probe {
      case DbTimestamp(stamp) =>
        db := DbEntry(name, Some(stamp), "OK");
        failed := false;
      case DbRaised =>
        failed := true;
        db := DbEntry(name, None, "BAD");
    }
    assert [db][0] == db;
  }

  /** One service probe: the entry it yields, and whether the overall status drops to 500. */
  method ProbeService(name: string, probe: HttpProbe) returns (service: ServiceEntry, failed: bool)
    ensures service == ServiceEntryFor(name, probe)
    ensures failed <==> AnyFailure([], [service])
  {
    match probe {
      case HttpRaised =>
        service := ServiceEntry(name, None, None, None, "UNKNOWN");
        failed := true;
      case HttpReply(code, contentType, content) =>
        if code == 200 {
          service := ServiceEntry(name, Some(code), Some(contentType), Some(content), "OK");
          failed := false;
        } else if code == 500 {
          service := ServiceEntry(name, Some(code), Some(contentType), Some(content), "BAD");
          failed := true;
        } else {
          service := ServiceEntry(name, Some(code), Some(contentType), Some(content), "UNKNOWN");
          failed := true;
        }
    }
    assert [service][0] == service;
  }

  /** One more dependency adds its own entry, and request, to those of the ones before it. */
  lemma EntriesStep(deps: seq<(string, string)>, i: nat, depth: int, dbProbe: nat -> DbProbe, httpProbe: nat -> HttpProbe)
    requires i < |deps| && UrlsOk(deps, depth)
    ensures UrlsOk(deps[..i], depth) && UrlsOk(deps[..i + 1], depth)
    ensures DbEntries(deps[..i + 1], dbProbe)
      == DbEntries(deps[..i], dbProbe) + (if IsDb(deps[i].1) then [DbEntryFor(deps[i].0, dbProbe(i))] else [])
    ensures ServiceEntries(deps[..i + 1], depth, httpProbe)
      == ServiceEntries(deps[..i], depth, httpProbe)
         + (if !IsDb(deps[i].1) && depth > 0 then [ServiceEntryFor(deps[i].0, httpProbe(i))] else [])
    ensures !IsDb(deps[i].1) && depth > 0 ==> |deps[i].1| > 0
    ensures ProbeUrls(deps[..i + 1], depth)
      == ProbeUrls(deps[..i], depth) + (if !IsDb(deps[i].1) && depth > 0 then [ProbeUrl(deps[i].1, depth)] else [])
  {
    assert deps[..i + 1][..i] == deps[..i];
    assert deps[..i + 1][i] == deps[i];
    assert forall j :: 0 <= j <= i ==> deps[..i + 1][j] == deps[j];
  }

  /** Appending entries fails exactly when the old entries or the new ones do. */
  lemma FailureAppend(dbs: seq<DbEntry>, services: seq<ServiceEntry>, moreDbs: seq<DbEntry>, moreServices: seq<ServiceEntry>)
    ensures AnyFailure(dbs + moreDbs, services + moreServices) <==> AnyFailure(dbs, services) || AnyFailure(moreDbs, moreServices)
  {
    var d, s := dbs + moreDbs, services + moreServices;
    assert forall i :: 0 <= i < |dbs| ==> d[i] == dbs[i];
    assert forall i :: 0 <= i < |moreDbs| ==> d[|dbs| + i] == moreDbs[i];
    assert forall i :: 0 <= i < |services| ==> s[i] == services[i];
    assert forall i :: 0 <= i < |moreServices| ==> s[|services| + i] == moreServices[i];
  }

  /** The positions, in configuration order, of the database dependencies (`db`) or of the others. */
  function Where(deps: seq<(string, string)>, db: bool): seq<nat>
    decreases |deps|
  {
    if deps == [] then []
    else
      var n := |deps| - 1;
      Where(deps[..n], db) + (if IsDb(deps[n].1) == db then [n] else [])
  }

  /** `Where` lists each position of the wanted kind exactly once, in increasing order, and no other. */
  lemma {:induction false} WhereFacts(deps: seq<(string, string)>, db: bool)
    ensures forall k :: 0 <= k < |Where(deps, db)| ==> Where(deps, db)[k] < |deps| && IsDb(deps[Where(deps, db)[k]].1) == db
    ensures forall k, l :: 0 <= k < l < |Where(deps, db)| ==> Where(deps, db)[k] < Where(deps, db)[l]
    ensures forall i :: 0 <= i < |deps| && IsDb(deps[i].1) == db ==> i in Where(deps, db)
    decreases |deps|
  {
    if deps != [] {
      var n := |deps| - 1;
      var prefix := deps[..n];
      assert forall j :: 0 <= j < n ==> prefix[j] == deps[j];
      WhereFacts(prefix, db);
      var before := Where(prefix, db);
      assert Where(deps, db) == before + (if IsDb(deps[n].1) == db then [n] else []);
      assert forall k :: 0 <= k < |before| ==> before[k] < n;
    }
  }

  /** Entry `k` of `db` comes from the `k`-th database dependency and its own probe. */
  lemma {:induction false} DbEntriesAt(deps: seq<(string, string)>, dbProbe: nat -> DbProbe)
    ensures |DbEntries(deps, dbProbe)| == |Where(deps, true)|
    ensures forall k :: 0 <= k < |Where(deps, true)| && Where(deps, true)[k] < |deps| ==>
      DbEntries(deps, dbProbe)[k] == DbEntryFor(deps[Where(deps, true)[k]].0, dbProbe(Where(deps, true)[k]))
    decreases |deps|
  {
    if deps != [] {
      var n := |deps| - 1;
      var prefix := deps[..n];
      assert forall j :: 0 <= j < n ==> prefix[j] == deps[j];
      DbEntriesAt(prefix, dbProbe);
      WhereFacts(prefix, true);
    }
  }

  /** Entry `k` of `services` comes from the `k`-th other dependency and its own probe; at depth 0 there are none. */
  lemma {:induction false} ServiceEntriesAt(deps: seq<(string, string)>, depth: int, httpProbe: nat -> HttpProbe)
    ensures depth <= 0 ==> ServiceEntries(deps, depth, httpProbe) == []
    ensures depth > 0 ==> |ServiceEntries(deps, depth, httpProbe)| == |Where(deps, false)|
    ensures depth > 0 ==> forall k :: 0 <= k < |Where(deps, false)| && Where(deps, false)[k] < |deps| ==>
      ServiceEntries(deps, depth, httpProbe)[k] == ServiceEntryFor(deps[Where(deps, false)[k]].0, httpProbe(Where(deps, false)[k]))
    decreases |deps|
  {
    if deps != [] {
      var n := |deps| - 1;
      var prefix := deps[..n];
      assert forall j :: 0 <= j < n ==> prefix[j] == deps[j];
      ServiceEntriesAt(prefix, depth, httpProbe);
      WhereFacts(prefix, false);
    }
  }

  /** Request `k` goes to the cascade route of the `k`-th other dependency; at depth 0 nothing is requested. */
  lemma {:induction false} ProbeUrlsAt(deps: seq<(string, string)>, depth: int)
    requires UrlsOk(deps, depth)
    ensures depth <= 0 ==> ProbeUrls(deps, depth) == []
    ensures depth > 0 ==> |ProbeUrls(deps, depth)| == |Where(deps, false)|
    ensures depth > 0 ==> forall k :: 0 <= k < |Where(deps, false)| ==>
      && Where(deps, false)[k] < |deps| && !IsDb(deps[Where(deps, false)[k]].1)
      && ProbeUrls(deps, depth)[k] == ProbeUrl(deps[Where(deps, false)[k]].1, depth)
    decreases |deps|
  {
    WhereFacts(deps, false);
    if deps != [] {
      var n := |deps| - 1;
      var prefix := deps[..n];
      assert forall j :: 0 <= j < n ==> prefix[j] == deps[j];
      assert UrlsOk(prefix, depth);
      ProbeUrlsAt(prefix, depth);
      if depth > 0 {
        var w, before := Where(deps, false), Where(prefix, false);
        var urls, urlsBefore := ProbeUrls(deps, depth), ProbeUrls(prefix, depth);
        assert w == before + (if !IsDb(deps[n].1) then [n] else []);
        assert urls == urlsBefore + (if !IsDb(deps[n].1) then [ProbeUrl(deps[n].1, depth)] else []);
        forall k | 0 <= k < |w|
          ensures urls[k] == ProbeUrl(deps[w[k]].1, depth)
        {
          if k < |before| {
            assert w[k] == before[k] && urls[k] == urlsBefore[k];
          } else {
            assert w[k] == n && urls[k] == ProbeUrl(deps[n].1, depth);
          }
        }
      }
    }
  }

  /**
   * The report is OK exactly when every database probe returned a timestamp and
   * every service probed answered 200.
   */
  lemma HealthyIff(deps: seq<(string, string)>, depth: int, dbProbe: nat -> DbProbe, httpProbe: nat -> HttpProbe)
    ensures !AnyFailure(DbEntries(deps, dbProbe), ServiceEntries(deps, depth, httpProbe)) <==>
      forall i :: 0 <= i < |deps| ==>
        && (IsDb(deps[i].1) ==> dbProbe(i).DbTimestamp?)
        && (!IsDb(deps[i].1) && depth > 0 ==> httpProbe(i).HttpReply? && httpProbe(i).statusCode == 200)
  {
    WhereFacts(deps, true);
    WhereFacts(deps, false);
    DbEntriesAt(deps, dbProbe);
    ServiceEntriesAt(deps, depth, httpProbe);
  }
}
