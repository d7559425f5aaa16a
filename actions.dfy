/**
  The data request actions over the extension's three tables: creating, updating,
  closing and deleting requests, commenting on them, following and unfollowing
  them, and purging an account's requests. The tables live in a `Store`; the
  platform's access check, the clock and the generated identifiers are parameters
  of each action.
 */
module Actions {
  import opened Wrappers
  import opened Text
  import opened Platform
  import opened Db
  import opened Seqs
  import opened Failures
  import Common
  import Validator
  import Throttle
  import Notifications
  import Listing

  // ---------------------------------------------------------------------------
  // Dictionaries and records

  /** `value or None`. */
  function OrNone(v: Option<string>): (r: Option<string>)
    ensures r.Some? <==> Truthy(v)
    ensures r.Some? ==> r == v
  {
    if Truthy(v) then v else None
  }

  /** `_undictize_datarequest_closing_circumstances`: with closing circumstances
      enabled, the circumstance and the date are copied, empty ones as `None`. */
  function UndictizeClosingCircumstances(row: DataRequest, fields: Validator.FormData, enabled: bool): DataRequest {
    if enabled then
      row.(closeCircumstance := OrNone(Validator.Get(fields, "close_circumstance", None)),
           approxPublishingDate := OrNone(Validator.Get(fields, "approx_publishing_date", None)))
    else row
  }

  /** `data_dict[key]` reads a text: the key is there and its value is not `None`. */
  predicate Present(fields: Validator.FormData, key: string) {
    key in fields && fields[key].Some?
  }

  /** The value of a present key. */
  function Value(fields: Validator.FormData, key: string): string
    requires Present(fields, key)
  {
    fields[key].value
  }

  /** The data `_undictize_datarequest_basic` can copy: every key it reads with
      `data_dict[key]` is there, and every text column gets a text. */
  predicate Storable(fields: Validator.FormData) {
    && "organization_id" in fields
    && Present(fields, "title") && Present(fields, "description")
    && Present(fields, "data_use_type") && Present(fields, "who_will_access_this_data")
    && Present(fields, "requesting_organisation") && Present(fields, "data_storage_environment")
    && Present(fields, "data_outputs_type") && Present(fields, "data_outputs_description")
    && Present(fields, "status")
  }

  /** `_undictize_datarequest_basic`: the form's values written into the row, `None`
      where a key is missing (a `KeyError`) or a text column would get `None` (which
      the source stores as NULL, and which a row here cannot hold). */
  function UndictizeDatarequestBasic(row: DataRequest, fields: Validator.FormData, enabled: bool): (r: Option<DataRequest>)
    ensures r.Some? <==> Storable(fields)
  {
    if !Storable(fields) then None
    else
      var copied := row.(
        title := Value(fields, "title"),
        description := Value(fields, "description"),
        organizationId := OrNone(fields["organization_id"]));
      Some(UndictizeClosingCircumstances(copied, fields, enabled).(
        dataUseType := Value(fields, "data_use_type"),
        whoWillAccessThisData := Value(fields, "who_will_access_this_data"),
        requestingOrganisation := Value(fields, "requesting_organisation"),
        dataStorageEnvironment := Value(fields, "data_storage_environment"),
        dataOutputsType := Value(fields, "data_outputs_type"),
        dataOutputsDescription := Value(fields, "data_outputs_description"),
        status := Value(fields, "status")))
  }

  /** The copied row holds the form's values and keeps the identity, the creator,
      the open and close times, the closed flag, the accepted dataset and the
      requested dataset of the row; the closing circumstance and the date change
      only when closing circumstances are enabled. */
  lemma UndictizeMeaning(row: DataRequest, fields: Validator.FormData, enabled: bool)
    requires Storable(fields)
    ensures var d := UndictizeDatarequestBasic(row, fields, enabled).value;
      && d.title == fields["title"].value && d.description == fields["description"].value
      && d.organizationId == OrNone(fields["organization_id"])
      && d.dataUseType == fields["data_use_type"].value
      && d.whoWillAccessThisData == fields["who_will_access_this_data"].value
      && d.requestingOrganisation == fields["requesting_organisation"].value
      && d.dataStorageEnvironment == fields["data_storage_environment"].value
      && d.dataOutputsType == fields["data_outputs_type"].value
      && d.dataOutputsDescription == fields["data_outputs_description"].value
      && d.status == fields["status"].value
      && d.id == row.id && d.userId == row.userId && d.openTime == row.openTime && d.closeTime == row.closeTime
      && d.closed == row.closed && d.acceptedDatasetId == row.acceptedDatasetId
      && d.requestedDataset == row.requestedDataset
      && (!enabled ==> d.closeCircumstance == row.closeCircumstance && d.approxPublishingDate == row.approxPublishingDate)
      && (enabled ==>
            && d.closeCircumstance == OrNone(Validator.Get(fields, "close_circumstance", None))
            && d.approxPublishingDate == OrNone(Validator.Get(fields, "approx_publishing_date", None)))
  {
  }

  /** Data the validator accepts can be copied: once its defaults are written back,
      every key the copy reads is there with a text. */
  lemma AcceptedFormIsStorable(fields: Validator.FormData, host: Host, limits: Limits)
    requires Validator.Readable(fields, host)
    requires Validator.DatarequestErrors(fields, host, limits) == map[]
    ensures Storable(Validator.WrittenBack(fields, host))
  {
    Validator.ValidateDatarequestAccepts(fields, host, limits);
    AcceptedTexts(fields, host, limits);
    var w := Validator.WrittenBack(fields, host);
    assert "organization_id" in w && Present(w, "title") && Present(w, "status");
    TextKept(fields, host, "description");
    TextKept(fields, host, "data_use_type");
    TextKept(fields, host, "who_will_access_this_data");
    TextKept(fields, host, "requesting_organisation");
    TextKept(fields, host, "data_storage_environment");
    TextKept(fields, host, "data_outputs_type");
    TextKept(fields, host, "data_outputs_description");
  }

  /** Valid data gives a text to each field with a presence rule. */
  lemma AcceptedTexts(fields: Validator.FormData, host: Host, limits: Limits)
    requires Validator.Readable(fields, host)
    requires Validator.DatarequestValid(fields, host, limits)
    ensures Truthy(Validator.Get(fields, "description", Some("")))
    ensures Truthy(Validator.Get(fields, "data_use_type", Some("")))
    ensures Truthy(Validator.Get(fields, "who_will_access_this_data", Some("")))
    ensures Truthy(Validator.Get(fields, "requesting_organisation", Some("")))
    ensures Truthy(Validator.Get(fields, "data_storage_environment", Some("")))
    ensures Truthy(Validator.Get(fields, "data_outputs_type", Some("")))
    ensures Truthy(Validator.Get(fields, "data_outputs_description", Some("")))
    ensures Validator.ResolvedStatus(fields).Some?
  {
    assert Validator.RuleHolds(fields, host, limits, Validator.DescriptionField);
    assert Validator.RuleHolds(fields, host, limits, Validator.DataUseTypeField);
    assert Validator.RuleHolds(fields, host, limits, Validator.WhoWillAccessField);
    assert Validator.RuleHolds(fields, host, limits, Validator.RequestingOrganisationField);
    assert Validator.RuleHolds(fields, host, limits, Validator.DataStorageEnvironmentField);
    assert Validator.RuleHolds(fields, host, limits, Validator.DataOutputsTypeField);
    assert Validator.RuleHolds(fields, host, limits, Validator.DataOutputsDescriptionField);
    assert Validator.RuleHolds(fields, host, limits, Validator.StatusField);
  }

  /** A key the validator does not write back keeps its submitted text. */
  lemma TextKept(fields: Validator.FormData, host: Host, key: string)
    requires key != "organization_id" && key != "title" && key != "status"
    requires Truthy(Validator.Get(fields, key, Some("")))
    ensures Present(Validator.WrittenBack(fields, host), key)
  {
  }

  /** The new row of `create_datarequest`: a fresh row with the form's values, the
      creator and the open time. */
  function Created(fields: Validator.FormData, enabled: bool, creatorId: string, now: Time, freshId: string)
    : (r: Option<DataRequest>)
    ensures r.Some? <==> Storable(fields)
    ensures r.Some? ==>
      && r.value.id == freshId && r.value.userId == creatorId && r.value.openTime == Some(now)
      && !r.value.closed && r.value.closeTime.None? && r.value.acceptedDatasetId.None?
  {
    match UndictizeDatarequestBasic(NewDataRequest(freshId), fields, enabled)
    case None => None
    case Some(d) => Some(d.(userId := creatorId, openTime := Some(now)))
  }

  /** The row once `close_datarequest` has closed it: closed now, with the accepted
      dataset given (`None` for an empty one) and the closing circumstances copied. */
  function Closed(row: DataRequest, fields: Validator.FormData, enabled: bool, now: Time): (r: DataRequest)
    ensures r.closed && r.closeTime == Some(now)
    ensures r.acceptedDatasetId == OrNone(Validator.Get(fields, "accepted_dataset_id", None))
    ensures r.id == row.id && r.userId == row.userId && r.title == row.title && r.status == row.status
         && r.organizationId == row.organizationId && r.openTime == row.openTime
  {
    UndictizeClosingCircumstances(
      row.(closed := true,
           acceptedDatasetId := OrNone(Validator.Get(fields, "accepted_dataset_id", None)),
           closeTime := Some(now)),
      fields, enabled)
  }

  // ---------------------------------------------------------------------------
  // Notifications

  /** A notification: the template it is written with and the users it goes to. */
  datatype Mail = Mail(template: string, recipients: set<string>)

  /** `_get_organization(row.organization_id)` for a row that has one: the
      organisation, `None` when it has none or the lookup fails. */
  function OrganizationOf(row: DataRequest, host: Host): Option<Organization> {
    if Truthy(row.organizationId) then host.organizationShow(row.organizationId.value) else None
  }

  /** The request as the notifications see its dictionary. */
  function Summary(row: DataRequest, host: Host): Notifications.RequestSummary {
    Notifications.RequestSummary(row.id, row.userId, OrganizationOf(row, host))
  }

  /** The mail to the notified members of an organisation, except `actorId`; no mail
      without an organisation. */
  function OrganizationMail(template: string, config: Common.Config, org: Option<Organization>, actorId: string)
    : (r: seq<Mail>)
    ensures org.None? ==> r == []
    ensures org.Some? ==>
      && |r| == 1 && r[0].template == template
      && forall u :: u in r[0].recipients <==> u in Notifications.AdminUsers(config, org.value) && u != actorId
  {
    if org.Some? then [Mail(template, Notifications.AdminUsers(config, org.value) - {actorId})] else []
  }

  /** The mail to everybody involved in a request. */
  ghost predicate MailsInvolved(mails: seq<Mail>, template: string, config: Common.Config, request: Notifications.RequestSummary,
                          followers: seq<Follower>, comments: seq<Comment>, actorId: string) {
    |mails| == 1 && mails[0].template == template &&
    forall u :: u in mails[0].recipients <==> Notifications.Involved(config, request, followers, comments, actorId, u)
  }

  // ---------------------------------------------------------------------------
  // Tables

  /** No two requests share an identifier, and none has an empty one. */
  predicate UniqueIds(rows: seq<DataRequest>) {
    && (forall i, j :: 0 <= i < j < |rows| ==> rows[i].id != rows[j].id)
    && (forall i :: 0 <= i < |rows| ==> rows[i].id != "")
  }

  predicate UniqueCommentIds(cs: seq<Comment>) {
    forall i, j :: 0 <= i < j < |cs| ==> cs[i].id != cs[j].id
  }

  /** A user follows a request at most once. */
  predicate UniqueFollows(fs: seq<Follower>) {
    forall i, j :: 0 <= i < j < |fs| ==> (fs[i].datarequestId, fs[i].userId) != (fs[j].datarequestId, fs[j].userId)
  }

  /** The (request, user) pairs of the followers table. */
  function Follows(fs: seq<Follower>): set<(string, string)> {
    set i | 0 <= i < |fs| :: (fs[i].datarequestId, fs[i].userId)
  }

  /** The position of the first occurrence of an identifier among the identifiers
      of a table, in table order. */
  function FirstIndex(ids: seq<string>, id: string): (r: Option<nat>)
    ensures r.Some? ==> r.value < |ids| && ids[r.value] == id && forall j :: 0 <= j < r.value ==> ids[j] != id
    ensures r.None? <==> forall j :: 0 <= j < |ids| ==> ids[j] != id
  {
    if ids == [] then None
    else if ids[0] == id then Some(0)
    else
      match FirstIndex(ids[1..], id)
      case None => None
      case Some(i) => Some(i + 1)
  }

  /** The index of the first row with the identifier. */
  function IndexOf(rows: seq<DataRequest>, id: string): (r: Option<nat>)
    ensures r.Some? ==> r.value < |rows| && rows[r.value].id == id && forall j :: 0 <= j < r.value ==> rows[j].id != id
    ensures r.None? <==> forall j :: 0 <= j < |rows| ==> rows[j].id != id
  {
    FirstIndex(Ids(rows), id)
  }

  /** The index of the first comment with the identifier. */
  function CommentIndex(cs: seq<Comment>, id: string): (r: Option<nat>)
    ensures r.Some? ==> r.value < |cs| && cs[r.value].id == id && forall j :: 0 <= j < r.value ==> cs[j].id != id
    ensures r.None? <==> forall j :: 0 <= j < |cs| ==> cs[j].id != id
  {
    FirstIndex(Map((c: Comment) => c.id, cs), id)
  }

  /** The index of the first follower row of the user for the request. */
  function FollowIndex(fs: seq<Follower>, datarequestId: string, userId: string): (r: Option<nat>)
    ensures r.Some? ==> r.value < |fs| && fs[r.value].datarequestId == datarequestId && fs[r.value].userId == userId
    ensures r.None? <==> forall j :: 0 <= j < |fs| ==> !(fs[j].datarequestId == datarequestId && fs[j].userId == userId)
  {
    if fs == [] then None
    else if fs[0].datarequestId == datarequestId && fs[0].userId == userId then Some(0)
    else
      match FollowIndex(fs[1..], datarequestId, userId)
      case None => None
      case Some(i) => Some(i + 1)
  }

  /** The first row found by `DataRequest.get(id=..)` is the row at `IndexOf`. */
  lemma IndexOfIsFirstFound(rows: seq<DataRequest>, id: string)
    ensures IndexOf(rows, id).None? <==> GetById(rows, id) == []
    ensures IndexOf(rows, id).Some? ==> GetById(rows, id)[0] == rows[IndexOf(rows, id).value]
  {
    match IndexOf(rows, id)
    case None =>
      NoneFound(rows, id);
    case Some(i) =>
      IndexOfFirst(rows, id, i);
  }

  lemma {:induction false} NoneFound(rows: seq<DataRequest>, id: string)
    requires forall j :: 0 <= j < |rows| ==> rows[j].id != id
    ensures GetById(rows, id) == []
  {
    if rows != [] {
      assert rows[0].id != id;
      NoneFound(rows[1..], id);
    }
  }

  lemma {:induction false} IndexOfFirst(rows: seq<DataRequest>, id: string, i: nat)
    requires i < |rows| && rows[i].id == id
    requires forall j :: 0 <= j < i ==> rows[j].id != id
    ensures GetById(rows, id) != [] && GetById(rows, id)[0] == rows[i]
  {
    if i > 0 {
      assert rows[1..][i - 1] == rows[i];
      IndexOfFirst(rows[1..], id, i - 1);
    }
  }

  /** Adding a row with a new, non-empty identifier keeps the identifiers unique. */
  lemma AppendFreshKeepsUnique(rows: seq<DataRequest>, d: DataRequest)
    requires UniqueIds(rows)
    requires d.id != "" && forall i :: 0 <= i < |rows| ==> rows[i].id != d.id
    ensures UniqueIds(rows + [d])
  {
    var g := rows + [d];
    assert forall i :: 0 <= i < |rows| ==> g[i] == rows[i];
  }

  /** The table with the row of the identifier replaced. */
  function ReplaceById(rows: seq<DataRequest>, id: string, d: DataRequest): (r: seq<DataRequest>)
    ensures |r| == |rows|
  {
    seq(|rows|, i requires 0 <= i < |rows| => if rows[i].id == id then d else rows[i])
  }

  /** The table without its first row of the identifier: `session.delete(result[0])`. */
  function RemoveFirst(rows: seq<DataRequest>, id: string): (r: seq<DataRequest>) {
    match IndexOf(rows, id)
    case None => rows
    case Some(i) => rows[..i] + rows[i + 1..]
  }

  /** The table once each identifier in turn has had its first row deleted. */
  function RemoveAll(rows: seq<DataRequest>, ids: seq<string>): seq<DataRequest> {
    if ids == [] then rows else RemoveFirst(RemoveAll(rows, ids[..|ids| - 1]), ids[|ids| - 1])
  }

  /** The identifiers of the listed requests, in order. */
  function Ids(rows: seq<DataRequest>): (r: seq<string>)
    ensures |r| == |rows| && forall i :: 0 <= i < |rows| ==> r[i] == rows[i].id
  {
    Map((d: DataRequest) => d.id, rows)
  }

  /** With unique identifiers, replacing the row at the identifier's index replaces
      the one row with that identifier, and the identifiers stay unique. */
  lemma ReplaceAtIndex(rows: seq<DataRequest>, i: nat, d: DataRequest)
    requires UniqueIds(rows) && i < |rows| && d.id == rows[i].id
    ensures rows[i := d] == ReplaceById(rows, rows[i].id, d)
    ensures UniqueIds(rows[i := d])
  {
  }

  /** Deleting the first row of an identifier keeps the identifiers unique and keeps
      exactly the rows with another identifier. */
  lemma RemoveFirstMeaning(rows: seq<DataRequest>, id: string)
    requires UniqueIds(rows)
    ensures UniqueIds(RemoveFirst(rows, id))
    ensures forall d :: d in RemoveFirst(rows, id) <==> d in rows && d.id != id
    ensures |RemoveFirst(rows, id)| == |rows| - (if IndexOf(rows, id).Some? then 1 else 0)
  {
    match IndexOf(rows, id)
    case None =>
      forall d | d in rows ensures d.id != id {
        var k :| 0 <= k < |rows| && rows[k] == d;
      }
    case Some(i) =>
      RemoveAtMeaning(rows, i);
  }

  /** Deleting the row at an index keeps the identifiers unique and keeps exactly
      the rows with another identifier. */
  lemma RemoveAtMeaning(rows: seq<DataRequest>, i: nat)
    requires UniqueIds(rows) && i < |rows|
    ensures UniqueIds(rows[..i] + rows[i + 1..])
    ensures forall d :: d in rows[..i] + rows[i + 1..] <==> d in rows && d.id != rows[i].id
  {
    var r := rows[..i] + rows[i + 1..];
    RemovedAt(rows, i, r);
    forall a, b | 0 <= a < b < |r| ensures r[a].id != r[b].id {
      assert r[a] == rows[if a < i then a else a + 1];
      assert r[b] == rows[if b < i then b else b + 1];
    }
    forall d | d in r ensures d in rows && d.id != rows[i].id {
      var k :| 0 <= k < |r| && r[k] == d;
      assert r[k] == rows[if k < i then k else k + 1];
    }
    forall d | d in rows && d.id != rows[i].id ensures d in r {
      var k :| 0 <= k < |rows| && rows[k] == d;
      if k < i { assert r[k] == d; } else { assert r[k - 1] == d; }
    }
  }

  /** The rows left after deleting the one at `i`, by position. */
  lemma RemovedAt(rows: seq<DataRequest>, i: nat, r: seq<DataRequest>)
    requires i < |rows| && r == rows[..i] + rows[i + 1..]
    ensures |r| == |rows| - 1
    ensures forall k :: 0 <= k < |r| ==> r[k] == rows[if k < i then k else k + 1]
  {
  }

  /** With unique identifiers, deleting the rows of a sequence of identifiers keeps
      exactly the rows whose identifier is not among them. */
  lemma {:induction false} RemoveAllMeaning(rows: seq<DataRequest>, ids: seq<string>)
    requires UniqueIds(rows)
    ensures UniqueIds(RemoveAll(rows, ids))
    ensures forall d :: d in RemoveAll(rows, ids) <==> d in rows && d.id !in ids
    decreases |ids|
  {
    if ids != [] {
      var init := ids[..|ids| - 1];
      RemoveAllMeaning(rows, init);
      RemoveFirstMeaning(RemoveAll(rows, init), ids[|ids| - 1]);
      assert ids == init + [ids[|ids| - 1]];
    }
  }

  /** The first comment found by `Comment.get(id=..)` is the comment at `CommentIndex`. */
  lemma CommentIndexIsFirstFound(cs: seq<Comment>, id: string)
    ensures CommentIndex(cs, id).None? <==> CommentsById(cs, id) == []
    ensures CommentIndex(cs, id).Some? ==> CommentsById(cs, id)[0] == cs[CommentIndex(cs, id).value]
  {
    match CommentIndex(cs, id)
    case None =>
      NoCommentFound(cs, id);
    case Some(i) =>
      CommentIndexFirst(cs, id, i);
  }

  lemma {:induction false} NoCommentFound(cs: seq<Comment>, id: string)
    requires forall j :: 0 <= j < |cs| ==> cs[j].id != id
    ensures CommentsById(cs, id) == []
  {
    if cs != [] {
      assert cs[0].id != id;
      NoCommentFound(cs[1..], id);
    }
  }

  lemma {:induction false} CommentIndexFirst(cs: seq<Comment>, id: string, i: nat)
    requires i < |cs| && cs[i].id == id
    requires forall j :: 0 <= j < i ==> cs[j].id != id
    ensures CommentsById(cs, id) != [] && CommentsById(cs, id)[0] == cs[i]
  {
    if i > 0 {
      assert cs[1..][i - 1] == cs[i];
      CommentIndexFirst(cs[1..], id, i - 1);
    }
  }

  /** Adding a follower row adds its pair; with the pair new, each pair stays unique. */
  lemma FollowsAppend(fs: seq<Follower>, f: Follower)
    requires UniqueFollows(fs)
    requires (f.datarequestId, f.userId) !in Follows(fs)
    ensures Follows(fs + [f]) == Follows(fs) + {(f.datarequestId, f.userId)}
    ensures UniqueFollows(fs + [f])
  {
    var g := fs + [f];
    assert forall i :: 0 <= i < |fs| ==> g[i] == fs[i];
    assert g[|fs|] == f;
    forall q | q in Follows(g) ensures q in Follows(fs) + {(f.datarequestId, f.userId)} {
      var i :| 0 <= i < |g| && q == (g[i].datarequestId, g[i].userId);
      if i < |fs| { assert q in Follows(fs); }
    }
    forall q | q in Follows(fs) ensures q in Follows(g) {
      var i :| 0 <= i < |fs| && q == (fs[i].datarequestId, fs[i].userId);
      assert q == (g[i].datarequestId, g[i].userId);
    }
    assert (f.datarequestId, f.userId) == (g[|fs|].datarequestId, g[|fs|].userId);
    forall i, j | 0 <= i < j < |g| ensures (g[i].datarequestId, g[i].userId) != (g[j].datarequestId, g[j].userId) {
      if j == |fs| {
        assert (fs[i].datarequestId, fs[i].userId) in Follows(fs);
      }
    }
  }

  /** Deleting the row of a pair that occurs once removes exactly that pair. */
  lemma FollowsRemove(fs: seq<Follower>, i: nat)
    requires UniqueFollows(fs) && i < |fs|
    ensures Follows(fs[..i] + fs[i + 1..]) == Follows(fs) - {(fs[i].datarequestId, fs[i].userId)}
    ensures UniqueFollows(fs[..i] + fs[i + 1..])
  {
    var g := fs[..i] + fs[i + 1..];
    var p := (fs[i].datarequestId, fs[i].userId);
    assert forall k :: 0 <= k < |g| ==> g[k] == fs[if k < i then k else k + 1];
    forall q | q in Follows(g) ensures q in Follows(fs) && q != p {
      var k :| 0 <= k < |g| && q == (g[k].datarequestId, g[k].userId);
      var m := if k < i then k else k + 1;
      assert q == (fs[m].datarequestId, fs[m].userId);
    }
    forall q | q in Follows(fs) && q != p ensures q in Follows(g) {
      var m :| 0 <= m < |fs| && q == (fs[m].datarequestId, fs[m].userId);
      assert m != i;
      var k := if m < i then m else m - 1;
      assert g[k] == fs[m];
    }
  }

  lemma {:induction false} DistinctCount<T>(s: seq<T>, x: T)
    requires forall i, j :: 0 <= i < j < |s| ==> s[i] != s[j]
    ensures multiset(s)[x] <= 1
  {
    if s != [] {
      assert s == [s[0]] + s[1..];
      DistinctCount(s[1..], x);
      if s[0] == x {
        assert x !in s[1..];
      }
    }
  }

  lemma TwiceCount<T>(s: seq<T>, i: nat, j: nat)
    requires i < j < |s| && s[i] == s[j]
    ensures multiset(s)[s[i]] >= 2
  {
    assert s == s[..j] + [s[j]] + s[j + 1..];
    assert s[i] in s[..j];
  }

  /** A subsequence of rows with unique identifiers has unique identifiers. */
  lemma {:induction false} FilterKeepsUniqueIds(rows: seq<DataRequest>, p: DataRequest -> bool)
    requires UniqueIds(rows)
    ensures UniqueIds(Filter(rows, p))
  {
    if rows != [] {
      FilterKeepsUniqueIds(rows[1..], p);
      var rest := Filter(rows[1..], p);
      forall k | 0 <= k < |rest| ensures rest[k].id != rows[0].id {
        var m :| 0 <= m < |rows[1..]| && rows[1..][m] == rest[k];
        assert rows[m + 1] == rest[k];
      }
    }
  }

  /** The listing holds each request at most once: with unique identifiers in the
      table, the identifiers of the ordered requests are distinct. */
  lemma OrderedIdsDistinct(rows: seq<DataRequest>, query: Query, viewer: Viewer)
    requires UniqueIds(rows)
    ensures var o := GetOrderedByDate(rows, query, viewer);
      forall i, j :: 0 <= i < j < |o| ==> o[i].id != o[j].id
  {
    FilterKeepsUniqueIds(rows, SelectedBy(query, viewer));
    ReorderedIdsDistinct(GetOrderedByDate(rows, query, viewer), Filter(rows, SelectedBy(query, viewer)));
  }

  /** Reordering rows with unique identifiers keeps their identifiers distinct. */
  lemma ReorderedIdsDistinct(o: seq<DataRequest>, f: seq<DataRequest>)
    requires UniqueIds(f) && multiset(o) == multiset(f)
    ensures forall i, j :: 0 <= i < j < |o| ==> o[i].id != o[j].id
  {
    forall i, j | 0 <= i < j < |o| ensures o[i].id != o[j].id {
      if o[i].id == o[j].id {
        assert o[i] in multiset(f) && o[j] in multiset(f);
        var a :| 0 <= a < |f| && f[a] == o[i];
        var b :| 0 <= b < |f| && f[b] == o[j];
        assert a == b;
        TwiceCount(o, i, j);
        DistinctCount(f, o[i]);
        assert false;
      }
    }
  }

  // ---------------------------------------------------------------------------
  // Reading

  /** `show_datarequest`: the request with the identifier. */
  function ShowDatarequest(rows: seq<DataRequest>, id: Option<string>, access: bool): (r: Result<DataRequest>)
    ensures !Truthy(id) ==> r == Fail(MissingId)
    ensures Truthy(id) && !access ==> r == Fail(NotAuthorized)
    ensures Truthy(id) && access ==> (r == Fail(NotFound) <==> forall i :: 0 <= i < |rows| ==> rows[i].id != id.value)
    ensures Truthy(id) && access && IndexOf(rows, id.value).Some? ==> r == Ok(rows[IndexOf(rows, id.value).value])
  {
    IndexOfIsFirstFound(rows, id.GetOr(""));
    if !Truthy(id) then Fail(MissingId)
    else if !access then Fail(NotAuthorized)
    else
      var result := GetById(rows, id.value);
      if result == [] then Fail(NotFound) else Ok(result[0])
  }

  /** What `show_datarequest` gives the comment validator for a request identifier:
      the request, or `None` where it raises (a missing, empty or unknown
      identifier, or a failed access check). */
  function ShownForComment(rows: seq<DataRequest>, id: Option<string>, access: bool): (r: Option<DataRequest>)
    ensures r.Some? <==> ShowDatarequest(rows, id, access).Ok?
    ensures r.Some? ==> r.value in rows && r.value.id == id.value
  {
    match ShowDatarequest(rows, id, access)
    case Ok(d) => Some(d)
    case Fail(_) => None
  }

  /** `show_datarequest_comment`: the comment with the identifier. */
  function ShowDatarequestComment(cs: seq<Comment>, id: Option<string>, access: bool): (r: Result<Comment>)
    ensures !Truthy(id) ==> r == Fail(MissingId)
    ensures Truthy(id) && !access ==> r == Fail(NotAuthorized)
    ensures Truthy(id) && access ==> (r == Fail(NotFound) <==> forall i :: 0 <= i < |cs| ==> cs[i].id != id.value)
    ensures r.Ok? ==> r.value in cs && r.value.id == id.value
  {
    if !Truthy(id) then Fail(MissingId)
    else if !access then Fail(NotAuthorized)
    else
      var result := CommentsById(cs, id.value);
      if result == [] then
        Fail(NotFound)
      else
        assert result[0] in cs;
        Ok(result[0])
  }

  /** `list_datarequest_comments`: the request's comments in time order, newest
      first only for the sort `desc`. */
  function ListDatarequestComments(cs: seq<Comment>, datarequestId: Option<string>, sort: Option<string>, access: bool)
    : (r: Result<seq<Comment>>)
    ensures !Truthy(datarequestId) ==> r == Fail(MissingId)
    ensures Truthy(datarequestId) && !access ==> r == Fail(NotAuthorized)
    ensures r.Ok? ==> Truthy(datarequestId) && access
    ensures r.Ok? ==>
      && multiset(r.value) == multiset(Filter(cs, OfRequest(datarequestId.value)))
      && forall i, j :: 0 <= i < j < |r.value| ==>
           if sort == Some("desc") then r.value[j].time <= r.value[i].time else r.value[i].time <= r.value[j].time
    ensures Truthy(datarequestId) && access ==> r.Ok?
  {
    if !Truthy(datarequestId) then Fail(MissingId)
    else if !access then Fail(NotAuthorized)
    else
      CommentsOrderedByDateOrder(cs, datarequestId.value, sort == Some("desc"));
      Ok(CommentsOrderedByDate(cs, datarequestId.value, sort == Some("desc")))
  }

  /** What an update that got past the lookup does with the request's `row`:
      crash on a form without a title or with a title or description of `None`,
      refuse what the validator rejects, and otherwise commit the copied row; with
      the organisation changed and `notify_on_update` set, mail the new
      organisation's members and then the old one's, crashing after the commit
      when the old organisation cannot be shown. */
  predicate UpdateEffect(before: seq<DataRequest>, row: DataRequest, submitted: Validator.FormData, host: Host,
                         limits: Limits, config: Common.Config, enabled: bool, actorId: string,
                         after: seq<DataRequest>, r: Result<DataRequest>, mails: seq<Mail>)
  {
    if "title" !in submitted || !Validator.Readable(submitted, host) then
      r == Fail(Crashed) && after == before && mails == []
    else if Validator.DatarequestErrors(submitted, host, limits) != map[] then
      r == Fail(Invalid(Validator.DatarequestErrors(submitted, host, limits))) && after == before && mails == []
    else
      var w := Validator.WrittenBack(submitted, host);
      var updated := UndictizeDatarequestBasic(row, w, enabled);
      var notify := row.organizationId != w["organization_id"]
                    && Common.GetConfigBoolValue(config, "ckanext.datarequests.notify_on_update");
      var unassigned := PreviousOrganization(row, host);
      && updated.Some?
      && after == ReplaceById(before, row.id, updated.value)
      && (!notify ==> r == Ok(updated.value) && mails == [])
      && (notify ==>
            var assignedMail := OrganizationMail("new_datarequest_organisation", config, OrganizationOf(updated.value, host), actorId);
            if unassigned.None? then r == Fail(Crashed) && mails == assignedMail
            else
              && r == Ok(updated.value)
              && mails == assignedMail + [Mail("unassigned_datarequest_organisation",
                                           Notifications.AdminUsers(config, unassigned.value) - {actorId})])
  }

  /** `_get_organization(unassigned_organisation_id)`: the organisation the request
      had before an update, `None` for none or a failed lookup. */
  function PreviousOrganization(row: DataRequest, host: Host): Option<Organization> {
    if row.organizationId.Some? then host.organizationShow(row.organizationId.value) else None
  }

  // ---------------------------------------------------------------------------
  // The store

  class Store {
    var datarequests: seq<DataRequest>
    var comments: seq<Comment>
    var followers: seq<Follower>

    /** The tables as the actions keep them: request and comment identifiers are
        unique (they are generated), and a user follows a request at most once. */
    ghost predicate Valid()
      reads this
    {
      UniqueIds(datarequests) && UniqueCommentIds(comments) && UniqueFollows(followers)
    }

    constructor ()
      ensures Valid()
      ensures datarequests == [] && comments == [] && followers == []
    {
      datarequests := [];
      comments := [];
      followers := [];
    }

    /** An identifier no request has yet. */
    predicate FreshId(id: string)
      reads this
    {
      id != "" && forall i :: 0 <= i < |datarequests| ==> datarequests[i].id != id
    }

    predicate FreshCommentId(id: string)
      reads this
    {
      forall i :: 0 <= i < |comments| ==> comments[i].id != id
    }

    // -------------------------------------------------------------------------
    // Creating and changing requests

    /** `create_datarequest`: the access check, the validation (which writes its
        defaults back into `data`), the creation throttle, then the new row, and a
        mail to the notified members of its organisation except the creator. */
    method CreateDatarequest(data: Validator.RequestData, access: bool, host: Host, limits: Limits,
                             cache: Throttle.Cache, creator: User, canCreateDataset: string -> bool, siteId: string,
                             config: Common.Config, enabled: bool, now: Time, freshId: string)
      returns (r: Result<DataRequest>, mails: seq<Mail>)
      requires Valid() && FreshId(freshId)
      modifies this, data, cache
      ensures Valid()
      ensures comments == old(comments) && followers == old(followers)
      ensures !access ==>
        r == Fail(NotAuthorized) && datarequests == old(datarequests) && mails == []
        && data.fields == old(data.fields) && cache.entries == old(cache.entries)
      ensures access && !Validator.Readable(old(data.fields), host) ==>
        r == Fail(Crashed) && datarequests == old(datarequests) && mails == [] && cache.entries == old(cache.entries)
      ensures access && Validator.Readable(old(data.fields), host) ==>
        data.fields == Validator.WrittenBack(old(data.fields), host)
      ensures access && Validator.Readable(old(data.fields), host) &&
              Validator.DatarequestErrors(old(data.fields), host, limits) != map[] ==>
        r == Fail(Invalid(Validator.DatarequestErrors(old(data.fields), host, limits)))
        && datarequests == old(datarequests) && mails == [] && cache.entries == old(cache.entries)
      ensures access && Validator.Readable(old(data.fields), host) &&
              Validator.DatarequestErrors(old(data.fields), host, limits) == map[] ==>
        var key := Throttle.CacheKey(siteId, creator.id);
        var privileged := Throttle.Privileged(creator, canCreateDataset);
        var attempts := Throttle.CreationAttempts(Throttle.Visible(old(cache.entries), key, now));
        var verdict := Throttle.Verdict(privileged, attempts);
        && cache.entries == Throttle.CounterAfter(old(cache.entries), privileged, key, attempts, now)
        && (verdict.Throttled? ==> r == Fail(TooManyRequests(verdict.minutes)) && datarequests == old(datarequests) && mails == [])
        && (verdict.StoreFailed? ==> r == Fail(Crashed) && datarequests == old(datarequests) && mails == [])
        && (verdict.Passed? ==>
              var row := Created(Validator.WrittenBack(old(data.fields), host), enabled, creator.id, now, freshId);
              && row.Some?
              && r == Ok(row.value)
              && datarequests == old(datarequests) + [row.value]
              && mails == OrganizationMail("new_datarequest", config, OrganizationOf(row.value, host), creator.id))
    {
      mails := [];
      if !access {
        return Fail(NotAuthorized), mails;
      }
      if !Validator.Readable(data.fields, host) {
        // `validate_datarequest` raises a `TypeError` on a title or description of `None`.
        return Fail(Crashed), mails;
      }
      ghost var submitted := data.fields;
      var validated := Validator.ValidateDatarequest(data, host, limits);
      if validated.Rejected? {
        return Fail(Invalid(validated.errors)), mails;
      }
      AcceptedFormIsStorable(submitted, host, limits);
      r, mails := ThrottledCreation(data.fields, host, cache, creator, canCreateDataset, siteId, config, enabled, now, freshId);
    }

    /** The part of `create_datarequest` after the validation: the creation throttle,
        then the new row from the validated `fields` and the mail about it. */
    method ThrottledCreation(fields: Validator.FormData, host: Host, cache: Throttle.Cache, creator: User,
                             canCreateDataset: string -> bool, siteId: string, config: Common.Config,
                             enabled: bool, now: Time, freshId: string)
      returns (r: Result<DataRequest>, mails: seq<Mail>)
      requires Valid() && FreshId(freshId) && Storable(fields)
      modifies this, cache
      ensures Valid()
      ensures comments == old(comments) && followers == old(followers)
      ensures var key := Throttle.CacheKey(siteId, creator.id);
        var privileged := Throttle.Privileged(creator, canCreateDataset);
        var attempts := Throttle.CreationAttempts(Throttle.Visible(old(cache.entries), key, now));
        var verdict := Throttle.Verdict(privileged, attempts);
        && cache.entries == Throttle.CounterAfter(old(cache.entries), privileged, key, attempts, now)
        && (verdict.Throttled? ==> r == Fail(TooManyRequests(verdict.minutes)) && datarequests == old(datarequests) && mails == [])
        && (verdict.StoreFailed? ==> r == Fail(Crashed) && datarequests == old(datarequests) && mails == [])
        && (verdict.Passed? ==>
              var row := Created(fields, enabled, creator.id, now, freshId);
              && row.Some?
              && r == Ok(row.value)
              && datarequests == old(datarequests) + [row.value]
              && mails == OrganizationMail("new_datarequest", config, OrganizationOf(row.value, host), creator.id))
    {
      mails := [];
      var throttled := Throttle.ThrottleDatarequest(cache, creator, canCreateDataset, siteId, now);
      if throttled.Throttled? {
        return Fail(TooManyRequests(throttled.minutes)), mails;
      }
      if throttled.StoreFailed? {
        return Fail(Crashed), mails;
      }
      var row;
      row, mails := AppendCreated(fields, host, creator.id, config, enabled, now, freshId);
      return Ok(row), mails;
    }

    /** The new row of `create_datarequest`, stored, and the mail to the notified
        members of its organisation except the creator. */
    method AppendCreated(fields: Validator.FormData, host: Host, creatorId: string, config: Common.Config,
                         enabled: bool, now: Time, freshId: string)
      returns (row: DataRequest, mails: seq<Mail>)
      requires Valid() && FreshId(freshId) && Storable(fields)
      modifies this
      ensures Valid()
      ensures comments == old(comments) && followers == old(followers)
      ensures Created(fields, enabled, creatorId, now, freshId) == Some(row)
      ensures datarequests == old(datarequests) + [row]
      ensures mails == OrganizationMail("new_datarequest", config, OrganizationOf(row, host), creatorId)
    {
      var created := Created(fields, enabled, creatorId, now, freshId);
      row := created.value;
      AppendFreshKeepsUnique(datarequests, row);
      datarequests := datarequests + [row];
      mails := OrganizationMail("new_datarequest", config, OrganizationOf(row, host), creatorId);
    }

    /** `update_datarequest`: the identifier, the access check, the request, the
        title (a `KeyError` when the form has none), the validation, then the
        form's values are committed. With `notify_on_update` set and the
        organisation changed, the new organisation's members are told, and then the
        old one's, which fails after the commit when the old organisation cannot be
        shown. */
    method UpdateDatarequest(data: Validator.RequestData, access: bool, host: Host, limits: Limits,
                             config: Common.Config, enabled: bool, actorId: string)
      returns (r: Result<DataRequest>, mails: seq<Mail>)
      requires Valid()
      modifies this, data
      ensures Valid()
      ensures comments == old(comments) && followers == old(followers)
      ensures var id := Validator.Get(old(data.fields), "id", Some(""));
        !Truthy(id) || !access || IndexOf(old(datarequests), id.value).None? ==>
          && datarequests == old(datarequests) && mails == [] && data.fields == old(data.fields)
          && r == (if !Truthy(id) then Fail(MissingId) else if !access then Fail(NotAuthorized) else Fail(NotFound))
      ensures var id := Validator.Get(old(data.fields), "id", Some(""));
        Truthy(id) && access && IndexOf(old(datarequests), id.value).Some? ==>
          var row := old(datarequests)[IndexOf(old(datarequests), id.value).value];
          && UpdateEffect(old(datarequests), row, old(data.fields), host, limits, config, enabled, actorId,
                          datarequests, r, mails)
          && data.fields == (if "title" in old(data.fields) && Validator.Readable(old(data.fields), host)
                             then Validator.WrittenBack(old(data.fields), host) else old(data.fields))
    {
      mails := [];
      var id := Validator.Get(data.fields, "id", Some(""));
      if !Truthy(id) {
        return Fail(MissingId), mails;
      }
      if !access {
        return Fail(NotAuthorized), mails;
      }
      var found := IndexOf(datarequests, id.value);
      if found.None? {
        return Fail(NotFound), mails;
      }
      var i := found.value;
      var row := datarequests[i];
      if "title" !in data.fields || !Validator.Readable(data.fields, host) {
        return Fail(Crashed), mails;
      }
      ghost var submitted := data.fields;
      var validated := Validator.ValidateDatarequest(data, host, limits);
      if validated.Rejected? {
        return Fail(Invalid(validated.errors)), mails;
      }
      AcceptedFormIsStorable(submitted, host, limits);
      var organisationUpdated := row.organizationId != data.fields["organization_id"];
      var updated := UndictizeDatarequestBasic(row, data.fields, enabled).value;
      UndictizeMeaning(row, data.fields, enabled);
      ReplaceAtIndex(datarequests, i, updated);
      datarequests := datarequests[i := updated];
      if organisationUpdated && Common.GetConfigBoolValue(config, "ckanext.datarequests.notify_on_update") {
        mails := OrganizationMail("new_datarequest_organisation", config, OrganizationOf(updated, host), actorId);
        var unassigned := PreviousOrganization(row, host);
        if unassigned.None? {
          // `_get_organization` gives `None`, and reading its users raises an `AttributeError`.
          return Fail(Crashed), mails;
        }
        mails := mails + [Mail("unassigned_datarequest_organisation",
                               Notifications.AdminUsers(config, unassigned.value) - {actorId})];
      }
      return Ok(updated), mails;
    }

    /** `delete_datarequest`: the identifier, the access check, then the first row
        with the identifier is deleted. The request's comments and followers stay. */
    method DeleteDatarequest(id: Option<string>, access: bool) returns (r: Result<DataRequest>)
      requires Valid()
      modifies this
      ensures Valid()
      ensures comments == old(comments) && followers == old(followers)
      ensures r == ShowDatarequest(old(datarequests), id, access)
      ensures r.Ok? ==> datarequests == RemoveFirst(old(datarequests), id.value)
      ensures r.Fail? ==> datarequests == old(datarequests)
    {
      IndexOfIsFirstFound(datarequests, id.GetOr(""));
      if !Truthy(id) {
        return Fail(MissingId);
      }
      if !access {
        return Fail(NotAuthorized);
      }
      var found := IndexOf(datarequests, id.value);
      if found.None? {
        return Fail(NotFound);
      }
      var i := found.value;
      var row := datarequests[i];
      RemoveFirstMeaning(datarequests, id.value);
      datarequests := datarequests[..i] + datarequests[i + 1..];
      return Ok(row);
    }

    /** `close_datarequest`: the identifier, the access check, the request, the
        closing validation as written, then a request already closed is refused;
        otherwise it is closed and everybody involved is told. `isDate` is the
        `yyyy-mm-dd` check. A validation that raises makes the call fail. */
    method CloseDatarequest(fields: Validator.FormData, access: bool, host: Host, isDate: string -> bool,
                            config: Common.Config, enabled: bool, now: Time, actorId: string)
      returns (r: Result<DataRequest>, mails: seq<Mail>)
      requires Valid()
      modifies this
      ensures Valid()
      ensures comments == old(comments) && followers == old(followers)
      ensures var id := Validator.Get(fields, "id", Some(""));
        && (!Truthy(id) ==> r == Fail(MissingId))
        && (Truthy(id) && !access ==> r == Fail(NotAuthorized))
        && (Truthy(id) && access && IndexOf(old(datarequests), id.value).None? ==> r == Fail(NotFound))
      ensures var id := Validator.Get(fields, "id", Some(""));
        Truthy(id) && access && IndexOf(old(datarequests), id.value).Some? ==>
          Closing(r, mails, old(datarequests), IndexOf(old(datarequests), id.value).value,
                  Validator.ValidateClosingAsWritten(fields, enabled, host, isDate),
                  fields, host, config, enabled, now, actorId)
      ensures r.Fail? ==> datarequests == old(datarequests) && mails == []
    {
      mails := [];
      var id := Validator.Get(fields, "id", Some(""));
      if !Truthy(id) {
        return Fail(MissingId), mails;
      }
      if !access {
        return Fail(NotAuthorized), mails;
      }
      var found := IndexOf(datarequests, id.value);
      if found.None? {
        return Fail(NotFound), mails;
      }
      var checked := Validator.ValidateClosingAsWritten(fields, enabled, host, isDate);
      r, mails := CloseFound(found.value, checked, fields, host, config, enabled, now, actorId);
    }

    /** `close_datarequest` with the closing validation as intended, which refuses a
        missing accepted dataset or date instead of letting it through or raising. */
    method CloseDatarequestIntended(fields: Validator.FormData, access: bool, host: Host, isDate: string -> bool,
                                    config: Common.Config, enabled: bool, now: Time, actorId: string)
      returns (r: Result<DataRequest>, mails: seq<Mail>)
      requires Valid()
      modifies this
      ensures Valid()
      ensures comments == old(comments) && followers == old(followers)
      ensures var id := Validator.Get(fields, "id", Some(""));
        && (!Truthy(id) ==> r == Fail(MissingId))
        && (Truthy(id) && !access ==> r == Fail(NotAuthorized))
        && (Truthy(id) && access && IndexOf(old(datarequests), id.value).None? ==> r == Fail(NotFound))
      ensures var id := Validator.Get(fields, "id", Some(""));
        Truthy(id) && access && IndexOf(old(datarequests), id.value).Some? ==>
          Closing(r, mails, old(datarequests), IndexOf(old(datarequests), id.value).value,
                  Validator.ValidateClosing(fields, enabled, host, isDate),
                  fields, host, config, enabled, now, actorId)
      ensures r != Fail(Crashed)
      ensures r.Fail? ==> datarequests == old(datarequests) && mails == []
    {
      mails := [];
      var id := Validator.Get(fields, "id", Some(""));
      if !Truthy(id) {
        return Fail(MissingId), mails;
      }
      if !access {
        return Fail(NotAuthorized), mails;
      }
      var found := IndexOf(datarequests, id.value);
      if found.None? {
        return Fail(NotFound), mails;
      }
      var checked := Validator.ValidateClosing(fields, enabled, host, isDate);
      r, mails := CloseFound(found.value, checked, fields, host, config, enabled, now, actorId);
    }

    /** What closing the request at `i` of `before` does once the closing validation
        gave `checked`: a raise is a crash, a rejection is reported, a request already
        closed is refused, and otherwise the row is replaced by its closed form and
        one mail goes to exactly the involved users. */
    ghost predicate Closing(r: Result<DataRequest>, mails: seq<Mail>, before: seq<DataRequest>, i: nat,
                            checked: Validator.Outcome<()>, fields: Validator.FormData, host: Host,
                            config: Common.Config, enabled: bool, now: Time, actorId: string)
      reads this
    {
      && i < |before|
      && (checked.Crashed? ==> r == Fail(Crashed))
      && (checked.Rejected? ==> r == Fail(Invalid(checked.errors)))
      && (checked.Accepted? && before[i].closed ==> r == Fail(AlreadyClosed))
      && (checked.Accepted? && !before[i].closed ==>
            && r == Ok(Closed(before[i], fields, enabled, now))
            && datarequests == ReplaceById(before, before[i].id, r.value)
            && MailsInvolved(mails, "close_datarequest", config, Summary(r.value, host), followers, comments, actorId))
    }

    /** The end of `close_datarequest`, once the request at `i` is found. */
    method CloseFound(i: nat, checked: Validator.Outcome<()>, fields: Validator.FormData, host: Host,
                      config: Common.Config, enabled: bool, now: Time, actorId: string)
      returns (r: Result<DataRequest>, mails: seq<Mail>)
      requires Valid() && i < |datarequests|
      modifies this
      ensures Valid()
      ensures comments == old(comments) && followers == old(followers)
      ensures Closing(r, mails, old(datarequests), i, checked, fields, host, config, enabled, now, actorId)
      ensures r.Fail? ==> datarequests == old(datarequests) && mails == []
    {
      mails := [];
      if checked.Crashed? {
        return Fail(Crashed), mails;
      }
      if checked.Rejected? {
        return Fail(Invalid(checked.errors)), mails;
      }
      var row := datarequests[i];
      if row.closed {
        return Fail(AlreadyClosed), mails;
      }
      var closed := Closed(row, fields, enabled, now);
      ReplaceAtIndex(datarequests, i, closed);
      datarequests := datarequests[i := closed];
      var users := Notifications.GetDatarequestInvolvedUsers(config, Summary(closed, host), followers, comments, actorId);
      mails := [Mail("close_datarequest", users.value)];
      return Ok(closed), mails;
    }

    // -------------------------------------------------------------------------
    // Comments

    /** `comment_datarequest`: the request identifier, the access check, the comment
        validation (which looks the request up with `show_datarequest`, whose own
        access check is `showAccess`), then the escaped comment is stored with the
        acting user and the time, and everybody involved is told. */
    method CommentDatarequest(fields: Validator.FormData, access: bool, showAccess: bool, host: Host, limits: Limits,
                              config: Common.Config, now: Time, actorId: string, freshId: string)
      returns (r: Result<Comment>, mails: seq<Mail>)
      requires Valid() && FreshCommentId(freshId)
      modifies this
      ensures Valid()
      ensures datarequests == old(datarequests) && followers == old(followers)
      ensures var id := Validator.Get(fields, "datarequest_id", Some(""));
        && (!Truthy(id) ==> r == Fail(MissingId))
        && (Truthy(id) && !access ==> r == Fail(NotAuthorized))
        && (Truthy(id) && access && ShownForComment(old(datarequests), id, showAccess).None? ==>
              r == Fail(Invalid(Validator.Only(Validator.DataRequestField, Validator.NotFound(Validator.DataRequestField)))))
      ensures var id := Validator.Get(fields, "datarequest_id", Some(""));
        var text := Validator.Get(fields, "comment", Some(""));
        Truthy(id) && access && ShownForComment(old(datarequests), id, showAccess).Some? ==>
          && (text.None? ==> r == Fail(Crashed))
          && (text.Some? && Validator.CommentErrors(text.value, host, limits) != [] ==>
                r == Fail(Invalid(map[Validator.CommentField := Validator.CommentErrors(text.value, host, limits)])))
          && (text.Some? && Validator.CommentErrors(text.value, host, limits) == [] ==>
                && r == Ok(Comment(freshId, actorId, id.value, now, Escape(text.value)))
                && comments == old(comments) + [r.value]
                && MailsInvolved(mails, "new_comment", config, Summary(ShownForComment(old(datarequests), id, showAccess).value, host),
                                 followers, comments, actorId))
      ensures r.Fail? ==> comments == old(comments) && mails == []
    {
      mails := [];
      var id := Validator.Get(fields, "datarequest_id", Some(""));
      if !Truthy(id) {
        return Fail(MissingId), mails;
      }
      if !access {
        return Fail(NotAuthorized), mails;
      }
      var rows := datarequests;
      var show := (x: Option<string>) => ShownForComment(rows, x, showAccess);
      var validated := Validator.ValidateComment(fields, show, host, limits);
      if validated.Rejected? {
        return Fail(Invalid(validated.errors)), mails;
      }
      if validated.Crashed? {
        return Fail(Crashed), mails;
      }
      var text := Validator.Get(fields, "comment", Some(""));
      var comment := Comment(freshId, actorId, id.value, now, Escape(text.value));
      comments := comments + [comment];
      var users := Notifications.GetDatarequestInvolvedUsers(config, Summary(validated.value, host), followers, comments, actorId);
      mails := [Mail("new_comment", users.value)];
      return Ok(comment), mails;
    }

    /** `update_datarequest_comment`: the identifier, the access check, the comment,
        the comment validation, then the comment gets the escaped text and the
        request identifier of the form. */
    method UpdateDatarequestComment(fields: Validator.FormData, access: bool, showAccess: bool, host: Host,
                                    limits: Limits)
      returns (r: Result<Comment>)
      requires Valid()
      modifies this
      ensures Valid()
      ensures datarequests == old(datarequests) && followers == old(followers)
      ensures var id := Validator.Get(fields, "id", Some(""));
        && (!Truthy(id) ==> r == Fail(MissingId))
        && (Truthy(id) && !access ==> r == Fail(NotAuthorized))
        && (Truthy(id) && access ==> (r == Fail(NotFound) <==> CommentIndex(old(comments), id.value).None?))
      ensures var id := Validator.Get(fields, "id", Some(""));
        var text := Validator.Get(fields, "comment", Some(""));
        var request := Validator.Get(fields, "datarequest_id", None);
        Truthy(id) && access && CommentIndex(old(comments), id.value).Some? ==>
          var i := CommentIndex(old(comments), id.value).value;
          && ("datarequest_id" !in fields || ShownForComment(datarequests, request, showAccess).None? ==>
                r == Fail(Invalid(Validator.Only(Validator.DataRequestField, Validator.NotFound(Validator.DataRequestField)))))
          && ("datarequest_id" in fields && ShownForComment(datarequests, request, showAccess).Some? ==>
                && (text.None? ==> r == Fail(Crashed))
                && (text.Some? && Validator.CommentErrors(text.value, host, limits) != [] ==>
                      r == Fail(Invalid(map[Validator.CommentField := Validator.CommentErrors(text.value, host, limits)])))
                && (text.Some? && Validator.CommentErrors(text.value, host, limits) == [] ==>
                      && r == Ok(old(comments)[i].(comment := Escape(text.value), datarequestId := request.value))
                      && comments == old(comments)[i := r.value]))
      ensures r.Fail? ==> comments == old(comments)
    {
      var id := Validator.Get(fields, "id", Some(""));
      if !Truthy(id) {
        return Fail(MissingId);
      }
      if !access {
        return Fail(NotAuthorized);
      }
      var found := CommentIndex(comments, id.value);
      if found.None? {
        return Fail(NotFound);
      }
      var i := found.value;
      var rows := datarequests;
      var show := (x: Option<string>) => ShownForComment(rows, x, showAccess);
      var validated := Validator.ValidateComment(fields, show, host, limits);
      if validated.Rejected? {
        return Fail(Invalid(validated.errors));
      }
      if validated.Crashed? {
        return Fail(Crashed);
      }
      var text := Validator.Get(fields, "comment", Some(""));
      var request := Validator.Get(fields, "datarequest_id", Some(""));
      var updated := comments[i].(comment := Escape(text.value), datarequestId := request.value);
      comments := comments[i := updated];
      return Ok(updated);
    }

    /** `delete_datarequest_comment`: the identifier, the access check, then the
        comment with the identifier is deleted. */
    method DeleteDatarequestComment(id: Option<string>, access: bool) returns (r: Result<Comment>)
      requires Valid()
      modifies this
      ensures Valid()
      ensures datarequests == old(datarequests) && followers == old(followers)
      ensures r == ShowDatarequestComment(old(comments), id, access)
      ensures r.Ok? ==>
        var i := CommentIndex(old(comments), id.value).value;
        r.value == old(comments)[i] && comments == old(comments)[..i] + old(comments)[i + 1..]
      ensures r.Fail? ==> comments == old(comments)
    {
      CommentIndexIsFirstFound(comments, id.GetOr(""));
      if !Truthy(id) {
        return Fail(MissingId);
      }
      if !access {
        return Fail(NotAuthorized);
      }
      var found := CommentIndex(comments, id.value);
      if found.None? {
        return Fail(NotFound);
      }
      var i := found.value;
      var comment := comments[i];
      ghost var g := comments[..i] + comments[i + 1..];
      assert forall k :: 0 <= k < |g| ==> g[k] == comments[if k < i then k else k + 1];
      comments := comments[..i] + comments[i + 1..];
      return Ok(comment);
    }

    // -------------------------------------------------------------------------
    // Following

    /** `follow_datarequest`: the identifier, the access check, the request, then a
        user already following it is refused; otherwise the pair is stored. */
    method FollowDatarequest(id: Option<string>, access: bool, actorId: string, now: Time, freshId: string)
      returns (r: Result<bool>)
      requires Valid()
      modifies this
      ensures Valid()
      ensures datarequests == old(datarequests) && comments == old(comments)
      ensures !Truthy(id) ==> r == Fail(MissingId)
      ensures Truthy(id) && !access ==> r == Fail(NotAuthorized)
      ensures Truthy(id) && access ==>
        && (IndexOf(datarequests, id.value).None? ==> r == Fail(NotFound))
        && (IndexOf(datarequests, id.value).Some? && (id.value, actorId) in old(Follows(followers)) ==>
              r == Fail(AlreadyFollowing))
        && (IndexOf(datarequests, id.value).Some? && (id.value, actorId) !in old(Follows(followers)) ==>
              && r == Ok(true)
              && followers == old(followers) + [Follower(freshId, actorId, id.value, now)]
              && Follows(followers) == old(Follows(followers)) + {(id.value, actorId)})
      ensures r.Fail? ==> followers == old(followers)
    {
      if !Truthy(id) {
        return Fail(MissingId);
      }
      if !access {
        return Fail(NotAuthorized);
      }
      var found := IndexOf(datarequests, id.value);
      if found.None? {
        return Fail(NotFound);
      }
      var following := FollowIndex(followers, id.value, actorId);
      if following.Some? {
        assert (id.value, actorId) == (followers[following.value].datarequestId, followers[following.value].userId);
        return Fail(AlreadyFollowing);
      }
      var follower := Follower(freshId, actorId, id.value, now);
      FollowsAppend(followers, follower);
      followers := followers + [follower];
      return Ok(true);
    }

    /** `unfollow_datarequest`: the identifier, the access check, then a user not
        following the request is refused; otherwise the first row of the pair is deleted. */
    method UnfollowDatarequest(id: Option<string>, access: bool, actorId: string) returns (r: Result<bool>)
      requires Valid()
      modifies this
      ensures Valid()
      ensures datarequests == old(datarequests) && comments == old(comments)
      ensures !Truthy(id) ==> r == Fail(MissingId)
      ensures Truthy(id) && !access ==> r == Fail(NotAuthorized)
      ensures Truthy(id) && access ==>
        && ((id.value, actorId) !in old(Follows(followers)) ==> r == Fail(NotFollowing))
        && ((id.value, actorId) in old(Follows(followers)) ==>
              && r == Ok(true)
              && FollowIndex(old(followers), id.value, actorId).Some?
              && (var k := FollowIndex(old(followers), id.value, actorId).value;
                  followers == old(followers)[..k] + old(followers)[k + 1..])
              && Follows(followers) == old(Follows(followers)) - {(id.value, actorId)})
      ensures r.Fail? ==> followers == old(followers)
    {
      if !Truthy(id) {
        return Fail(MissingId);
      }
      if !access {
        return Fail(NotAuthorized);
      }
      var following := FollowIndex(followers, id.value, actorId);
      if following.None? {
        return Fail(NotFollowing);
      }
      var i := following.value;
      FollowsRemove(followers, i);
      followers := followers[..i] + followers[i + 1..];
      return Ok(true);
    }

    // -------------------------------------------------------------------------
    // Purging

    /** The deletions of a purge, one identifier after the other; only sysadmins may
        purge, so each deletion's own access check passes. The first deletion that
        fails ends the purge, the earlier ones staying done. */
    method DeleteEach(ids: seq<string>) returns (r: Result<bool>)
      requires Valid()
      modifies this
      ensures Valid()
      ensures comments == old(comments) && followers == old(followers)
      ensures r.Ok? ==> r.value && datarequests == RemoveAll(old(datarequests), ids)
      ensures ((forall i, j :: 0 <= i < j < |ids| ==> ids[i] != ids[j]) &&
               (forall i :: 0 <= i < |ids| ==> IndexOf(old(datarequests), ids[i]).Some?)) ==> r.Ok?
    {
      ghost var start := datarequests;
      ghost var distinct := (forall i, j :: 0 <= i < j < |ids| ==> ids[i] != ids[j]) &&
                            (forall i :: 0 <= i < |ids| ==> IndexOf(start, ids[i]).Some?);
      for k := 0 to |ids|
        invariant Valid()
        invariant comments == old(comments) && followers == old(followers)
        invariant datarequests == RemoveAll(start, ids[..k])
        invariant distinct ==> forall m :: k <= m < |ids| ==> IndexOf(datarequests, ids[m]).Some?
      {
        ghost var before := datarequests;
        assert ids[..k + 1][..k] == ids[..k];
        var deleted := DeleteDatarequest(Some(ids[k]), true);
        if deleted.Fail? {
          return Fail(deleted.failure);
        }
        if distinct {
          StillPresent(before, ids, k);
        }
      }
      assert ids[..|ids|] == ids;
      return Ok(true);
    }

    /** `purge_datarequests` as written: the requests the listing returns for the
        data, a single page when the data gives no limit, are deleted. */
    method PurgeDatarequestsAsWritten(params: Listing.ListParams, access: bool, viewer: Viewer, host: Host,
                                      userShow: string -> Option<string>, limits: Limits)
      returns (r: Result<bool>)
      requires Valid()
      modifies this
      ensures Valid()
      ensures comments == old(comments) && followers == old(followers)
      ensures !access ==> r == Fail(NotAuthorized)
      ensures access ==>
        var listed := Listing.Listed(old(datarequests), params, true, viewer, host, userShow, limits);
        && (listed.Fail? ==> r == Fail(listed.failure))
        && (listed.Ok? ==> r == Ok(true) && datarequests == RemoveAll(old(datarequests), Ids(listed.value.result)))
      ensures r.Fail? ==> datarequests == old(datarequests)
    {
      if !access {
        return Fail(NotAuthorized);
      }
      var listed := Listing.ListDatarequests(datarequests, params, true, viewer, host, userShow, limits);
      if listed.Fail? {
        return Fail(listed.failure);
      }
      PageIdsPresent(datarequests, params, viewer, host, userShow, limits);
      r := DeleteEach(Ids(listed.value.result));
    }

    /** `purge_datarequests` as intended: every request the listing selects for the
        data is deleted, whatever the page size. The listing is asked for all of them
        at once. */
    method PurgeDatarequests(params: Listing.ListParams, access: bool, viewer: Viewer, host: Host,
                             userShow: string -> Option<string>, limits: Limits)
      returns (r: Result<bool>)
      requires Valid()
      modifies this
      ensures Valid()
      ensures comments == old(comments) && followers == old(followers)
      ensures !access ==> r == Fail(NotAuthorized) && datarequests == old(datarequests)
      ensures access ==>
        var orgId := Listing.ResolvedOrganization(params.organizationId, host);
        var userId := Listing.ResolvedUser(params.userId, userShow);
        if orgId.None? || userId.None? then r == Fail(NotFound) && datarequests == old(datarequests)
        else
          var query := Listing.ListQuery(orgId.value, userId.value, params);
          && r == Ok(true)
          && forall d :: d in datarequests <==> d in old(datarequests) && !Selected(d, query, viewer)
    {
      if !access {
        return Fail(NotAuthorized);
      }
      var all := params.(offset := Some(0), limit := Some(|datarequests|));
      var listed := Listing.ListDatarequests(datarequests, all, true, viewer, host, userShow, limits);
      if listed.Fail? {
        return Fail(listed.failure);
      }
      ghost var before := datarequests;
      ListingEverything(before, params, viewer, host, userShow, limits);
      PageIdsPresent(before, all, viewer, host, userShow, limits);
      r := DeleteEach(Ids(listed.value.result));
      PurgeRemovesEverySelected(before, Listing.ListQuery(Listing.ResolvedOrganization(params.organizationId, host).value,
                                                          Listing.ResolvedUser(params.userId, userShow).value, params), viewer);
    }
  }

  /** Asked for as many requests as the table holds from the first one, the listing
      returns every selected request, in order. */
  lemma ListingEverything(rows: seq<DataRequest>, params: Listing.ListParams, viewer: Viewer, host: Host,
                          userShow: string -> Option<string>, limits: Limits)
    requires Listing.Listed(rows, params.(offset := Some(0), limit := Some(|rows|)), true, viewer, host, userShow, limits).Ok?
    ensures var orgId := Listing.ResolvedOrganization(params.organizationId, host).value;
      var userId := Listing.ResolvedUser(params.userId, userShow).value;
      Listing.Listed(rows, params.(offset := Some(0), limit := Some(|rows|)), true, viewer, host, userShow, limits).value.result
        == GetOrderedByDate(rows, Listing.ListQuery(orgId, userId, params), viewer)
  {
    var all := params.(offset := Some(0), limit := Some(|rows|));
    var orgId := Listing.ResolvedOrganization(params.organizationId, host).value;
    var userId := Listing.ResolvedUser(params.userId, userShow).value;
    var query := Listing.ListQuery(orgId, userId, params);
    assert Listing.ListQuery(orgId, userId, all) == query;
    var ordered := GetOrderedByDate(rows, query, viewer);
    Listing.ListingMeaning(ordered, 0, |rows|, host.organizationShow);
    assert |ordered| <= |rows| by {
      assert multiset(ordered) == multiset(Filter(rows, SelectedBy(query, viewer)));
      assert |multiset(ordered)| == |ordered|;
    }
    if ordered != [] {
      assert ordered[0..|ordered|] == ordered;
    }
  }

  /** Deleting the row of one of a list of distinct identifiers leaves the rows of
      the later ones in the table. */
  lemma StillPresent(rows: seq<DataRequest>, ids: seq<string>, k: nat)
    requires UniqueIds(rows) && k < |ids|
    requires forall i, j :: 0 <= i < j < |ids| ==> ids[i] != ids[j]
    requires forall m :: k <= m < |ids| ==> IndexOf(rows, ids[m]).Some?
    ensures forall m :: k + 1 <= m < |ids| ==> IndexOf(RemoveFirst(rows, ids[k]), ids[m]).Some?
  {
    var after := RemoveFirst(rows, ids[k]);
    RemoveFirstMeaning(rows, ids[k]);
    forall m | k + 1 <= m < |ids| ensures IndexOf(after, ids[m]).Some? {
      var j := IndexOf(rows, ids[m]).value;
      assert rows[j] in after;
      var n :| 0 <= n < |after| && after[n] == rows[j];
    }
  }

  /** The requests on a page of the listing are rows of the table with distinct
      identifiers. */
  lemma PageIdsPresent(rows: seq<DataRequest>, params: Listing.ListParams, viewer: Viewer, host: Host,
                       userShow: string -> Option<string>, limits: Limits)
    requires UniqueIds(rows)
    requires Listing.Listed(rows, params, true, viewer, host, userShow, limits).Ok?
    ensures RowsOf(rows, Listing.Listed(rows, params, true, viewer, host, userShow, limits).value.result)
  {
    var orgId := Listing.ResolvedOrganization(params.organizationId, host).value;
    var userId := Listing.ResolvedUser(params.userId, userShow).value;
    var offset := params.offset.GetOr(0);
    ListedPage(rows, params, viewer, host, userShow, limits);
    SelectionPageIds(rows, Listing.ListQuery(orgId, userId, params), viewer, offset, offset + params.limit.GetOr(limits.perPage));
  }

  /** `page` holds requests of `rows`, each once: distinct identifiers, each found in `rows`. */
  predicate RowsOf(rows: seq<DataRequest>, page: seq<DataRequest>) {
    && (forall i, j :: 0 <= i < j < |page| ==> page[i].id != page[j].id)
    && (forall i :: 0 <= i < |page| ==> IndexOf(rows, page[i].id).Some?)
  }

  /** Any slice of the ordered selection holds each request of the table at most once. */
  lemma SelectionPageIds(rows: seq<DataRequest>, query: Query, viewer: Viewer, start: int, stop: int)
    requires UniqueIds(rows)
    ensures RowsOf(rows, PySlice(GetOrderedByDate(rows, query, viewer), start, stop))
  {
    var ordered := GetOrderedByDate(rows, query, viewer);
    OrderedIdsDistinct(rows, query, viewer);
    SliceKeepsIds(ordered, start, stop);
    var page := PySlice(ordered, start, stop);
    forall i | 0 <= i < |page| ensures IndexOf(rows, page[i].id).Some? {
      var k :| 0 <= k < |ordered| && ordered[k] == page[i];
      assert ordered[k] in rows;
    }
  }

  /** The page of a listing is the slice of the ordered selection its offset and
      limit give. */
  lemma ListedPage(rows: seq<DataRequest>, params: Listing.ListParams, viewer: Viewer, host: Host,
                   userShow: string -> Option<string>, limits: Limits)
    requires Listing.Listed(rows, params, true, viewer, host, userShow, limits).Ok?
    ensures var orgId := Listing.ResolvedOrganization(params.organizationId, host).value;
      var userId := Listing.ResolvedUser(params.userId, userShow).value;
      var ordered := GetOrderedByDate(rows, Listing.ListQuery(orgId, userId, params), viewer);
      var offset := params.offset.GetOr(0);
      Listing.Listed(rows, params, true, viewer, host, userShow, limits).value.result
        == PySlice(ordered, offset, offset + params.limit.GetOr(limits.perPage))
  {
  }

  /** A slice of requests with distinct identifiers has distinct identifiers, and
      its rows come from the sliced sequence. */
  lemma SliceKeepsIds(o: seq<DataRequest>, start: int, stop: int)
    requires forall i, j :: 0 <= i < j < |o| ==> o[i].id != o[j].id
    ensures var page := PySlice(o, start, stop);
      && (forall i, j :: 0 <= i < j < |page| ==> page[i].id != page[j].id)
      && (forall i :: 0 <= i < |page| ==> page[i] in o)
  {
    var a := SliceBound(start, |o|);
    var b := SliceBound(stop, |o|);
    var page := PySlice(o, start, stop);
    if a < b {
      assert forall i :: 0 <= i < |page| ==> page[i] == o[a + i];
    }
  }

  /** The purge as written leaves requests behind: when the data gives no offset and
      no limit and more requests are selected than fit on a page, some selected
      request is still in the table after the purge. */
  lemma PurgeAsWrittenLeavesRequests(rows: seq<DataRequest>, params: Listing.ListParams, viewer: Viewer, host: Host,
                                     userShow: string -> Option<string>, limits: Limits)
    requires UniqueIds(rows)
    requires params.offset.None? && params.limit.None?
    requires Listing.Listed(rows, params, true, viewer, host, userShow, limits).Ok?
    requires Listing.Listed(rows, params, true, viewer, host, userShow, limits).value.count > limits.perPage
    ensures var listed := Listing.Listed(rows, params, true, viewer, host, userShow, limits).value;
      var orgId := Listing.ResolvedOrganization(params.organizationId, host).value;
      var userId := Listing.ResolvedUser(params.userId, userShow).value;
      exists d :: d in RemoveAll(rows, Ids(listed.result)) && Selected(d, Listing.ListQuery(orgId, userId, params), viewer)
  {
    var orgId := Listing.ResolvedOrganization(params.organizationId, host).value;
    var userId := Listing.ResolvedUser(params.userId, userShow).value;
    var query := Listing.ListQuery(orgId, userId, params);
    var ordered := GetOrderedByDate(rows, query, viewer);
    var page := Listing.Listed(rows, params, true, viewer, host, userShow, limits).value.result;
    Listing.ListingMeaning(ordered, 0, limits.perPage, host.organizationShow);
    assert page == ordered[..limits.perPage];
    OrderedIdsDistinct(rows, query, viewer);
    var d := ordered[limits.perPage];
    assert d.id !in Ids(page);
    RemoveAllMeaning(rows, Ids(page));
    assert d in RemoveAll(rows, Ids(page));
  }

  /** The intended purge leaves nothing of what it selected: in a table with unique
      identifiers, deleting the identifiers of every selected request keeps
      exactly the requests not selected. */
  lemma PurgeRemovesEverySelected(rows: seq<DataRequest>, query: Query, viewer: Viewer)
    requires UniqueIds(rows)
    ensures forall d :: d in RemoveAll(rows, Ids(GetOrderedByDate(rows, query, viewer))) <==>
      d in rows && !Selected(d, query, viewer)
  {
    var ordered := GetOrderedByDate(rows, query, viewer);
    RemoveAllMeaning(rows, Ids(ordered));
    forall d | d in rows ensures d.id in Ids(ordered) <==> Selected(d, query, viewer) {
      SelectedIdListed(rows, query, viewer, d);
    }
  }

  /** With unique identifiers, a row's identifier is among those of the ordered
      selection exactly when the row is selected. */
  lemma SelectedIdListed(rows: seq<DataRequest>, query: Query, viewer: Viewer, d: DataRequest)
    requires UniqueIds(rows) && d in rows
    ensures d.id in Ids(GetOrderedByDate(rows, query, viewer)) <==> Selected(d, query, viewer)
  {
    var ordered := GetOrderedByDate(rows, query, viewer);
    var ids := Ids(ordered);
    var a :| 0 <= a < |rows| && rows[a] == d;
    if Selected(d, query, viewer) {
      var k :| 0 <= k < |ordered| && ordered[k] == d;
      assert ids[k] == d.id;
    }
    if d.id in ids {
      var k :| 0 <= k < |ids| && ids[k] == d.id;
      var b :| 0 <= b < |rows| && rows[b] == ordered[k];
      assert a == b;
    }
  }
}
