/**
  `list_datarequests`: the ordered requests of a query, one page of them, their
  number, and the facets by organisation and by status.
 */
module Listing {
  import opened Wrappers
  import opened Platform
  import opened Seqs
  import opened Db
  import opened Failures
  import Helpers

  // ---------------------------------------------------------------------------
  // Organisation facet

  /** The insertion order of a dictionary: a key is appended the first time it is set. */
  function AddKey(keys: seq<string>, k: string): seq<string> {
    if k in keys then keys else keys + [k]
  }

  /** No key is listed twice. */
  predicate Distinct(keys: seq<string>) {
    forall i, j :: 0 <= i < j < |keys| ==> keys[i] != keys[j]
  }

  /** The organisations of the rows, in the order of their first row; rows without an
      organisation (`None` or empty) are not counted. */
  function OrgKeys(rows: seq<DataRequest>): (keys: seq<string>)
    ensures Distinct(keys)
    ensures forall k :: k in keys <==> exists i :: 0 <= i < |rows| && rows[i].organizationId == Some(k) && k != ""
  {
    if rows == [] then []
    else
      var prior := rows[..|rows| - 1];
      var last := rows[|rows| - 1].organizationId;
      var keys := OrgKeys(prior);
      assert forall i :: 0 <= i < |prior| ==> prior[i] == rows[i];
      if Truthy(last) then AddKey(keys, last.value) else keys
  }

  /** The number of rows of organisation `k`. */
  function OrgCount(rows: seq<DataRequest>, k: string): nat {
    Count(rows, (d: DataRequest) => d.organizationId == Some(k))
  }

  lemma OrgCountSnoc(rows: seq<DataRequest>, d: DataRequest, k: string)
    ensures OrgCount(rows + [d], k) == OrgCount(rows, k) + (if d.organizationId == Some(k) then 1 else 0)
  {
    CountAppend(rows, [d], (d: DataRequest) => d.organizationId == Some(k));
  }

  /** An organisation that is not yet a key has no rows so far. */
  lemma OrgCountOfNewKey(rows: seq<DataRequest>, k: string)
    requires k != "" && k !in OrgKeys(rows)
    ensures OrgCount(rows, k) == 0
  {
    CountPositive(rows, (d: DataRequest) => d.organizationId == Some(k));
  }

  /** `keys` and `counts` are the organisation dictionary of `rows`. */
  ghost predicate OrgTally(rows: seq<DataRequest>, keys: seq<string>, counts: map<string, nat>) {
    && keys == OrgKeys(rows)
    && (forall k :: k in counts <==> k in keys)
    && "" !in counts
    && (forall k :: k in counts ==> counts[k] == OrgCount(rows, k))
  }

  /** One more row counted by `counts[org] = counts.get(org, 0) + 1`. */
  lemma OrgTallyStep(rows: seq<DataRequest>, d: DataRequest, keys: seq<string>, counts: map<string, nat>)
    requires OrgTally(rows, keys, counts)
    requires Truthy(d.organizationId)
    ensures var k := d.organizationId.value;
      OrgTally(rows + [d], AddKey(keys, k), counts[k := (if k in counts then counts[k] else 0) + 1])
  {
    var k := d.organizationId.value;
    assert (rows + [d])[..|rows|] == rows;
    if k !in counts {
      OrgCountOfNewKey(rows, k);
    }
    forall j ensures OrgCount(rows + [d], j) == OrgCount(rows, j) + (if d.organizationId == Some(j) then 1 else 0) {
      OrgCountSnoc(rows, d, j);
    }
  }

  /** A row without an organisation changes nothing. */
  lemma OrgTallySkip(rows: seq<DataRequest>, d: DataRequest, keys: seq<string>, counts: map<string, nat>)
    requires OrgTally(rows, keys, counts)
    requires !Truthy(d.organizationId)
    ensures OrgTally(rows + [d], keys, counts)
  {
    assert (rows + [d])[..|rows|] == rows;
    forall j | j in counts ensures OrgCount(rows + [d], j) == OrgCount(rows, j) {
      OrgCountSnoc(rows, d, j);
    }
  }

  /** The counting loop: `counts[org] = counts.get(org, 0) + 1` for every row with an
      organisation; `keys` is the dictionary's key order. */
  method CountOrganizations(rows: seq<DataRequest>) returns (keys: seq<string>, counts: map<string, nat>)
    ensures keys == OrgKeys(rows)
    ensures forall k :: k in counts <==> k in keys
    ensures forall k :: k in counts ==> counts[k] == OrgCount(rows, k)
  {
    keys := [];
    counts := map[];
    for i := 0 to |rows|
      invariant OrgTally(rows[..i], keys, counts)
    {
      var organizationId := rows[i].organizationId;
      assert rows[..i + 1] == rows[..i] + [rows[i]];
      if Truthy(organizationId) {
        OrgTallyStep(rows[..i], rows[i], keys, counts);
        var k := organizationId.value;
        counts := counts[k := (if k in counts then counts[k] else 0) + 1];
        keys := AddKey(keys, k);
      } else {
        OrgTallySkip(rows[..i], rows[i], keys, counts);
      }
    }
    assert rows[..|rows|] == rows;
  }

  /** A facet entry: the name shown, its display name and the number of requests. */
  datatype FacetItem = FacetItem(name: string, displayName: string, count: nat)

  /** The organisation entries in key order; an organisation the platform cannot show
      is left out. */
  function OrgItems(keys: seq<string>, rows: seq<DataRequest>, show: string -> Option<Organization>): seq<FacetItem> {
    if keys == [] then []
    else
      var k := keys[|keys| - 1];
      var prior := OrgItems(keys[..|keys| - 1], rows, show);
      match show(k)
      case None => prior
      case Some(o) => prior + [FacetItem(o.name, o.displayName, OrgCount(rows, k))]
  }

  /** The formatting loop of the organisation facet. */
  method FormatOrganizationFacet(keys: seq<string>, counts: map<string, nat>, show: string -> Option<Organization>,
                                 ghost rows: seq<DataRequest>)
    returns (items: seq<FacetItem>)
    requires forall k :: k in keys ==> k in counts && counts[k] == OrgCount(rows, k)
    ensures items == OrgItems(keys, rows, show)
  {
    items := [];
    for i := 0 to |keys|
      invariant items == OrgItems(keys[..i], rows, show)
    {
      assert keys[..i + 1][..i] == keys[..i];
      var organization := show(keys[i]);
      if organization.Some? {
        items := items + [FacetItem(organization.value.name, organization.value.displayName, counts[keys[i]])];
      }
    }
    assert keys[..|keys|] == keys;
  }

  /** Every entry is an organisation of the rows that the platform shows, with its
      number of rows, which is positive; every such organisation has an entry. */
  lemma {:induction false} OrgItemsMeaning(keys: seq<string>, rows: seq<DataRequest>, show: string -> Option<Organization>)
    requires forall k :: k in keys ==> OrgCount(rows, k) > 0
    ensures var items := OrgItems(keys, rows, show);
      && |items| <= |keys|
      && (forall it :: it in items ==>
            exists k :: k in keys && show(k).Some? &&
              it == FacetItem(show(k).value.name, show(k).value.displayName, OrgCount(rows, k)))
      && (forall k :: k in keys && show(k).Some? ==>
            FacetItem(show(k).value.name, show(k).value.displayName, OrgCount(rows, k)) in items)
      && (forall it :: it in items ==> it.count > 0)
  {
    if keys != [] {
      var prior := keys[..|keys| - 1];
      assert forall k :: k in prior ==> k in keys;
      OrgItemsMeaning(prior, rows, show);
      assert forall k :: k in keys ==> k in prior || k == keys[|keys| - 1];
    }
  }

  /** An organisation of the rows has at least one row. */
  lemma OrgKeysCounted(rows: seq<DataRequest>)
    ensures forall k :: k in OrgKeys(rows) ==> OrgCount(rows, k) > 0
  {
    forall k | k in OrgKeys(rows) ensures OrgCount(rows, k) > 0 {
      CountPositive(rows, (d: DataRequest) => d.organizationId == Some(k));
    }
  }

  // ---------------------------------------------------------------------------
  // Status facet

  /** The statuses the status facet counts, in the order of its dictionary. */
  const FacetStatuses: seq<string> := ["Assigned", "Processing", "Finalised - Approved", "Finalised - Not Approved",
                                       "Assign to Internal Data Catalogue Support"]

  /** The status facet knows exactly the statuses of the status list, in its order. */
  lemma FacetStatusesAreStatusList()
    ensures FacetStatuses == Helpers.StatusValues()
  {
  }

  /** The number of rows with status `s`. */
  function StatusCount(rows: seq<DataRequest>, s: string): nat {
    Count(rows, (d: DataRequest) => d.status == s)
  }

  lemma StatusCountSnoc(rows: seq<DataRequest>, d: DataRequest, s: string)
    ensures StatusCount(rows + [d], s) == StatusCount(rows, s) + (if d.status == s then 1 else 0)
  {
    CountAppend(rows, [d], (d: DataRequest) => d.status == s);
  }

  /** The counting loop of the status facet: each known status starts at zero and a
      row with a known status adds one to it; other statuses are not counted. */
  method CountStatuses(rows: seq<DataRequest>) returns (counts: map<string, nat>)
    ensures forall s :: s in counts <==> s in FacetStatuses
    ensures forall s :: s in counts ==> counts[s] == StatusCount(rows, s)
  {
    counts := map[FacetStatuses[0] := 0, FacetStatuses[1] := 0, FacetStatuses[2] := 0,
                  FacetStatuses[3] := 0, FacetStatuses[4] := 0];
    for i := 0 to |rows|
      invariant forall s :: s in counts <==> s in FacetStatuses
      invariant forall s :: s in counts ==> counts[s] == StatusCount(rows[..i], s)
    {
      var status := rows[i].status;
      assert rows[..i + 1] == rows[..i] + [rows[i]];
      forall s ensures StatusCount(rows[..i + 1], s) == StatusCount(rows[..i], s) + (if status == s then 1 else 0) {
        StatusCountSnoc(rows[..i], rows[i], s);
      }
      if status in counts {
        counts := counts[status := counts[status] + 1];
      }
    }
    assert rows[..|rows|] == rows;
  }

  /** The status entries in the order of `statuses`, each status with rows only. */
  function StatusItems(statuses: seq<string>, rows: seq<DataRequest>): seq<FacetItem> {
    if statuses == [] then []
    else
      var s := statuses[|statuses| - 1];
      var prior := StatusItems(statuses[..|statuses| - 1], rows);
      if StatusCount(rows, s) != 0 then prior + [FacetItem(s, s, StatusCount(rows, s))] else prior
  }

  /** The formatting loop of the status facet. */
  method FormatStatusFacet(counts: map<string, nat>, ghost rows: seq<DataRequest>) returns (items: seq<FacetItem>)
    requires forall s :: s in FacetStatuses ==> s in counts && counts[s] == StatusCount(rows, s)
    ensures items == StatusItems(FacetStatuses, rows)
  {
    items := [];
    for i := 0 to |FacetStatuses|
      invariant items == StatusItems(FacetStatuses[..i], rows)
    {
      var status := FacetStatuses[i];
      assert FacetStatuses[..i + 1][..i] == FacetStatuses[..i];
      if counts[status] != 0 {
        items := items + [FacetItem(status, status, counts[status])];
      }
    }
    assert FacetStatuses[..|FacetStatuses|] == FacetStatuses;
  }

  /** The name of a facet entry. */
  function ItemName(it: FacetItem): string {
    it.name
  }

  /** The test "this status has rows among `rows`", as a value to filter with. */
  function WithRows(rows: seq<DataRequest>): string -> bool {
    (s: string) => StatusCount(rows, s) > 0
  }

  /** The names of the entries are the statuses with rows, in their order. */
  lemma {:induction false} StatusItemsNames(statuses: seq<string>, rows: seq<DataRequest>)
    ensures Map(ItemName, StatusItems(statuses, rows)) == Filter(statuses, WithRows(rows))
  {
    if statuses != [] {
      var prior := statuses[..|statuses| - 1];
      var s := statuses[|statuses| - 1];
      var p := WithRows(rows);
      StatusItemsNames(prior, rows);
      FilterSnoc(statuses, p);
      if StatusCount(rows, s) != 0 {
        MapSnoc(ItemName, StatusItems(prior, rows), FacetItem(s, s, StatusCount(rows, s)));
      }
    }
  }

  /** Each entry shows its status and its number of rows, which is positive. */
  lemma {:induction false} StatusItemsCounts(statuses: seq<string>, rows: seq<DataRequest>)
    ensures forall it :: it in StatusItems(statuses, rows) ==>
      it.name in statuses && it.displayName == it.name && it.count == StatusCount(rows, it.name) > 0
  {
    if statuses != [] {
      var prior := statuses[..|statuses| - 1];
      StatusItemsCounts(prior, rows);
      assert forall s :: s in prior ==> s in statuses;
    }
  }

  /** Status counts add up to at most the number of rows. */
  lemma StatusFacetBounded(rows: seq<DataRequest>, s: string)
    ensures StatusCount(rows, s) <= |rows|
    ensures StatusCount(rows, s) > 0 <==> exists i :: 0 <= i < |rows| && rows[i].status == s
  {
    CountPositive(rows, (d: DataRequest) => d.status == s);
  }

  // ---------------------------------------------------------------------------
  // list_datarequests

  /** The parameters of the listing as the caller gives them. */
  datatype ListParams = ListParams(
    organizationId: Option<string>,
    userId: Option<string>,
    status: Option<string>,
    q: Option<string>,
    sort: Option<string>,
    offset: Option<int>,
    limit: Option<int>)

  /** The facets, each present only when it has entries. */
  datatype Facets = Facets(organization: Option<seq<FacetItem>>, status: Option<seq<FacetItem>>)

  datatype ListResult = ListResult(count: nat, facets: Facets, result: seq<DataRequest>)

  /** `{'items': items}` when there are items, no facet otherwise. */
  function NonEmpty(items: seq<FacetItem>): (r: Option<seq<FacetItem>>)
    ensures r.Some? <==> items != []
    ensures r.Some? ==> r.value == items
  {
    if items == [] then None else Some(items)
  }

  /** The organisation filter: one given by name or identifier is resolved to its
      identifier by the platform (`None` where the lookup raises); an empty or missing
      one is passed on as it is. */
  function ResolvedOrganization(given: Option<string>, host: Host): Option<Option<string>> {
    if Truthy(given) then
      match host.organizationShow(given.value)
      case None => None
      case Some(o) => Some(Some(o.id))
    else Some(given)
  }

  /** The user filter, resolved the same way by the user lookup. */
  function ResolvedUser(given: Option<string>, userShow: string -> Option<string>): Option<Option<string>> {
    if Truthy(given) then
      match userShow(given.value)
      case None => None
      case Some(id) => Some(Some(id))
    else Some(given)
  }

  /** The query of the listing: never filtered by `closed`, descending only for `desc`. */
  function ListQuery(organizationId: Option<string>, userId: Option<string>, params: ListParams): Query {
    Query(organizationId, userId, None, params.q, params.sort == Some("desc"), params.status)
  }

  /** The result of the listing from the ordered requests: their number, the page
      `[offset, offset + limit)` and the two facets. */
  function Page(ordered: seq<DataRequest>, offset: int, limit: int, show: string -> Option<Organization>): ListResult {
    ListResult(|ordered|,
               Facets(NonEmpty(OrgItems(OrgKeys(ordered), ordered, show)), NonEmpty(StatusItems(FacetStatuses, ordered))),
               PySlice(ordered, offset, offset + limit))
  }

  /** Dictizing the page and counting and formatting the facets. */
  method ListPage(ordered: seq<DataRequest>, offset: int, limit: int, show: string -> Option<Organization>)
    returns (r: ListResult)
    ensures r == Page(ordered, offset, limit, show)
  {
    var datarequests := PySlice(ordered, offset, offset + limit);
    var keys, orgCounts := CountOrganizations(ordered);
    var statusCounts := CountStatuses(ordered);
    var organizationFacet := FormatOrganizationFacet(keys, orgCounts, show, ordered);
    var statusFacet := FormatStatusFacet(statusCounts, ordered);
    return ListResult(|ordered|, Facets(NonEmpty(organizationFacet), NonEmpty(statusFacet)), datarequests);
  }

  /** What the listing returns for these parameters. */
  function Listed(rs: seq<DataRequest>, params: ListParams, access: bool, viewer: Viewer, host: Host,
                  userShow: string -> Option<string>, limits: Limits): Result<ListResult>
  {
    var orgId := ResolvedOrganization(params.organizationId, host);
    var userId := ResolvedUser(params.userId, userShow);
    if !access then Fail(NotAuthorized)
    else if orgId.None? || userId.None? then Fail(NotFound)
    else
      var ordered := GetOrderedByDate(rs, ListQuery(orgId.value, userId.value, params), viewer);
      Ok(Page(ordered, params.offset.GetOr(0), params.limit.GetOr(limits.perPage), host.organizationShow))
  }

  /** `list_datarequests`. `access` is the platform's answer to the access check,
      `viewer` the logged-in user, `userShow` the user lookup (giving the identifier)
      and `limits.perPage` the default page size. */
  method ListDatarequests(rs: seq<DataRequest>, params: ListParams, access: bool, viewer: Viewer, host: Host,
                          userShow: string -> Option<string>, limits: Limits)
    returns (r: Result<ListResult>)
    ensures !access ==> r == Fail(NotAuthorized)
    ensures access ==>
      var orgId := ResolvedOrganization(params.organizationId, host);
      var userId := ResolvedUser(params.userId, userShow);
      if orgId.None? || userId.None? then r == Fail(NotFound)
      else
        var ordered := GetOrderedByDate(rs, ListQuery(orgId.value, userId.value, params), viewer);
        r == Ok(Page(ordered, params.offset.GetOr(0), params.limit.GetOr(limits.perPage), host.organizationShow))
    ensures r == Listed(rs, params, access, viewer, host, userShow, limits)
  {
    if !access {
      return Fail(NotAuthorized);
    }
    var organizationId := params.organizationId;
    if Truthy(organizationId) {
      var organization := host.organizationShow(organizationId.value);
      if organization.None? {
        return Fail(NotFound);
      }
      organizationId := Some(organization.value.id);
    }
    var userId := params.userId;
    if Truthy(userId) {
      var user := userShow(userId.value);
      if user.None? {
        return Fail(NotFound);
      }
      userId := user;
    }
    assert ResolvedOrganization(params.organizationId, host) == Some(organizationId);
    assert ResolvedUser(params.userId, userShow) == Some(userId);
    var desc := params.sort == Some("desc");
    var query := Query(organizationId, userId, None, params.q, desc, params.status);
    assert query == ListQuery(organizationId, userId, params);
    var ordered := GetOrderedByDate(rs, query, viewer);
    var page := ListPage(ordered, params.offset.GetOr(0), params.limit.GetOr(limits.perPage), host.organizationShow);
    return Ok(page);
  }

  /** What the listing promises: the whole number of selected requests, a page of at
      most `limit` of them from `offset` on, facets only when they have entries, an
      organisation entry for each organisation of the requests that the platform shows,
      and the status entries in the status list's order without zeros. */
  lemma ListingMeaning(ordered: seq<DataRequest>, offset: nat, limit: nat, show: string -> Option<Organization>)
    ensures var r := Page(ordered, offset, limit, show);
      && r.count == |ordered|
      && |r.result| <= limit
      && (offset < |ordered| ==>
            r.result == ordered[offset..if offset + limit <= |ordered| then offset + limit else |ordered|])
      && (offset >= |ordered| ==> r.result == [])
    ensures var r := Page(ordered, offset, limit, show);
      && (r.facets.organization.Some? ==> r.facets.organization.value != [])
      && (r.facets.status.Some? ==> r.facets.status.value != [])
  {
    PySliceWindow(ordered, offset, limit);
  }

  /** The status facet is present exactly when some request has a known status. */
  lemma StatusFacetPresent(ordered: seq<DataRequest>)
    ensures NonEmpty(StatusItems(FacetStatuses, ordered)).Some? <==>
      exists i :: 0 <= i < |ordered| && ordered[i].status in FacetStatuses
  {
    StatusItemsPresent(FacetStatuses, ordered);
  }

  /** There are entries for `statuses` exactly when some request has one of them. */
  lemma StatusItemsPresent(statuses: seq<string>, ordered: seq<DataRequest>)
    ensures StatusItems(statuses, ordered) != [] <==>
      exists i :: 0 <= i < |ordered| && ordered[i].status in statuses
  {
    var items := StatusItems(statuses, ordered);
    StatusItemsNames(statuses, ordered);
    var names := Filter(statuses, WithRows(ordered));
    assert |names| == |items|;
    if exists i :: 0 <= i < |ordered| && ordered[i].status in statuses {
      var i :| 0 <= i < |ordered| && ordered[i].status in statuses;
      KnownStatusNamed(statuses, ordered, i);
    }
    if items != [] {
      NamedStatusHasRow(statuses, ordered);
    }
  }

  /** A request with one of `statuses` puts that status among the names with rows. */
  lemma KnownStatusNamed(statuses: seq<string>, ordered: seq<DataRequest>, i: nat)
    requires i < |ordered| && ordered[i].status in statuses
    ensures Filter(statuses, WithRows(ordered)) != []
  {
    var s := ordered[i].status;
    StatusFacetBounded(ordered, s);
    var k :| 0 <= k < |statuses| && statuses[k] == s;
    assert WithRows(ordered)(statuses[k]);
  }

  /** A status among the names with rows has a request with that status. */
  lemma NamedStatusHasRow(statuses: seq<string>, ordered: seq<DataRequest>)
    requires Filter(statuses, WithRows(ordered)) != []
    ensures exists i :: 0 <= i < |ordered| && ordered[i].status in statuses
  {
    var names := Filter(statuses, WithRows(ordered));
    var s := names[0];
    assert s in statuses && WithRows(ordered)(s);
    StatusFacetBounded(ordered, s);
  }

  /** Each organisation entry names an organisation of the requests that the platform
      shows and gives its number of requests; each such organisation has its entry. */
  lemma OrganizationFacetMeaning(ordered: seq<DataRequest>, show: string -> Option<Organization>)
    ensures var items := OrgItems(OrgKeys(ordered), ordered, show);
      && (forall it :: it in items ==>
            it.count > 0 &&
            exists i :: 0 <= i < |ordered| && Truthy(ordered[i].organizationId) &&
              var o := show(ordered[i].organizationId.value);
              o.Some? && it == FacetItem(o.value.name, o.value.displayName, OrgCount(ordered, ordered[i].organizationId.value)))
      && (forall i :: 0 <= i < |ordered| && Truthy(ordered[i].organizationId) && show(ordered[i].organizationId.value).Some? ==>
            var o := show(ordered[i].organizationId.value).value;
            FacetItem(o.name, o.displayName, OrgCount(ordered, ordered[i].organizationId.value)) in items)
  {
    OrgKeysCounted(ordered);
    OrgItemsMeaning(OrgKeys(ordered), ordered, show);
  }

  /** Each status entry is a known status with requests, shown as itself with its
      number of requests, and the entries follow the status list's order. */
  lemma StatusFacetMeaning(ordered: seq<DataRequest>)
    ensures var items := StatusItems(FacetStatuses, ordered);
      && Map(ItemName, items) == Filter(FacetStatuses, WithRows(ordered))
      && (forall it :: it in items ==>
            it.name in FacetStatuses && it.displayName == it.name && it.count == StatusCount(ordered, it.name) > 0)
  {
    StatusItemsNames(FacetStatuses, ordered);
    StatusItemsCounts(FacetStatuses, ordered);
  }
}
