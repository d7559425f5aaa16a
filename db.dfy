/**
  The three tables of the extension (data requests, their comments and their
  followers) held as sequences of rows, and the queries the rest of the
  extension runs on them.
 */
module Db {
  import opened Wrappers
  import opened Text
  import opened Seqs

  /** A timestamp; only the order of timestamps matters to the extension. */
  type Time = int

  /** A row of the `datarequests` table. */
  datatype DataRequest = DataRequest(
    userId: string,
    id: string,
    title: string,
    description: string,
    organizationId: Option<string>,
    openTime: Option<Time>,
    acceptedDatasetId: Option<string>,
    closeTime: Option<Time>,
    closed: bool,
    closeCircumstance: Option<string>,
    approxPublishingDate: Option<string>,
    dataUseType: string,
    whoWillAccessThisData: string,
    requestingOrganisation: string,
    dataStorageEnvironment: string,
    dataOutputsType: string,
    dataOutputsDescription: string,
    status: string,
    requestedDataset: string)

  /** A row of the `datarequests_comments` table. */
  datatype Comment = Comment(id: string, userId: string, datarequestId: string, time: Time, comment: string)

  /** A row of the `datarequests_followers` table. */
  datatype Follower = Follower(id: string, userId: string, datarequestId: string, time: Time)

  /** The status a new row gets when none is written. */
  const DefaultStatus: string := "Assigned"

  /** A fresh `DataRequest()` with the column defaults; `id` is the generated identifier. */
  function NewDataRequest(id: string): (d: DataRequest)
    ensures d.id == id && !d.closed && d.status == DefaultStatus
    ensures d.organizationId.None? && d.openTime.None? && d.closeTime.None? && d.acceptedDatasetId.None?
  {
    DataRequest("", id, "", "", None, None, None, None, false, Some(""), None,
                "", "", "", "", "", "", DefaultStatus, "")
  }

  // ---------------------------------------------------------------------------
  // Lookups by key and counts

  /** `DataRequest.get(id=id)`: the rows with that identifier. */
  function GetById(rs: seq<DataRequest>, id: string): (r: seq<DataRequest>)
    ensures forall i :: 0 <= i < |r| ==> r[i].id == id && r[i] in rs
    ensures forall i :: 0 <= i < |rs| && rs[i].id == id ==> rs[i] in r
  {
    Filter(rs, (d: DataRequest) => d.id == id)
  }

  /** `Comment.get(id=id)`. */
  function CommentsById(cs: seq<Comment>, id: string): (r: seq<Comment>)
    ensures forall i :: 0 <= i < |r| ==> r[i].id == id && r[i] in cs
    ensures forall i :: 0 <= i < |cs| && cs[i].id == id ==> cs[i] in r
  {
    Filter(cs, (c: Comment) => c.id == id)
  }

  /** `DataRequestFollower.get(datarequest_id=.., user_id=..)`. */
  function FollowersOf(fs: seq<Follower>, datarequestId: string, userId: string): (r: seq<Follower>)
    ensures forall i :: 0 <= i < |r| ==> r[i].datarequestId == datarequestId && r[i].userId == userId && r[i] in fs
    ensures forall i :: 0 <= i < |fs| && fs[i].datarequestId == datarequestId && fs[i].userId == userId ==> fs[i] in r
  {
    Filter(fs, (f: Follower) => f.datarequestId == datarequestId && f.userId == userId)
  }

  /** `DataRequestFollower.get(datarequest_id=..)`. */
  function FollowersOfRequest(fs: seq<Follower>, datarequestId: string): (r: seq<Follower>)
    ensures forall i :: 0 <= i < |r| ==> r[i].datarequestId == datarequestId && r[i] in fs
    ensures forall i :: 0 <= i < |fs| && fs[i].datarequestId == datarequestId ==> fs[i] in r
  {
    Filter(fs, (f: Follower) => f.datarequestId == datarequestId)
  }

  /** `datarequest_exists`: some row has the same title, ignoring case. */
  function DatarequestExists(rs: seq<DataRequest>, title: string): (r: bool)
    ensures r <==> exists i :: 0 <= i < |rs| && Lower(rs[i].title) == Lower(title)
  {
    if rs == [] then false
    else if Lower(rs[0].title) == Lower(title) then true
    else
      var rest := DatarequestExists(rs[1..], title);
      assert rest ==> exists i :: 0 <= i < |rs| && Lower(rs[i].title) == Lower(title) by {
        if rest {
          var i :| 0 <= i < |rs[1..]| && Lower(rs[1..][i].title) == Lower(title);
          assert rs[i + 1] == rs[1..][i];
        }
      }
      assert (exists i :: 0 <= i < |rs| && Lower(rs[i].title) == Lower(title)) ==> rest by {
        if exists i :: 0 <= i < |rs| && Lower(rs[i].title) == Lower(title) {
          var i :| 0 <= i < |rs| && Lower(rs[i].title) == Lower(title);
          assert i != 0;
          assert rs[1..][i - 1] == rs[i];
        }
      }
      rest
  }

  /** `get_open_datarequests_number`: the number of rows not closed. */
  function OpenDatarequestsNumber(rs: seq<DataRequest>): (n: nat)
    ensures n <= |rs|
  {
    Count(rs, (d: DataRequest) => !d.closed)
  }

  /** `get_datarequest_followers_number(datarequest_id=..)`. */
  function FollowersNumber(fs: seq<Follower>, datarequestId: string): (n: nat)
    ensures n <= |fs|
  {
    Count(fs, (f: Follower) => f.datarequestId == datarequestId)
  }

  /** The test "is a comment on `datarequestId`", as a value to filter with. */
  function OfRequest(datarequestId: string): Comment -> bool {
    (c: Comment) => c.datarequestId == datarequestId
  }

  /** `get_comment_datarequests_number(datarequest_id=..)`. */
  function CommentsNumber(cs: seq<Comment>, datarequestId: string): (n: nat)
    ensures n <= |cs|
  {
    Count(cs, OfRequest(datarequestId))
  }

  /** The open count is the number of open rows: positive exactly when one is open,
      and the whole table exactly when none is closed. */
  lemma OpenNumberCountsOpenRows(rs: seq<DataRequest>)
    ensures OpenDatarequestsNumber(rs) == |Filter(rs, (d: DataRequest) => !d.closed)|
    ensures OpenDatarequestsNumber(rs) > 0 <==> exists i :: 0 <= i < |rs| && !rs[i].closed
    ensures OpenDatarequestsNumber(rs) == |rs| <==> forall i :: 0 <= i < |rs| ==> !rs[i].closed
  {
    var p := (d: DataRequest) => !d.closed;
    CountIsFilterLength(rs, p);
    CountPositive(rs, p);
    CountAll(rs, p);
  }

  /** Storing a follower adds one to the count of its own request and leaves every
      other request's count as it was. */
  lemma FollowersNumberAppend(fs: seq<Follower>, f: Follower, datarequestId: string)
    ensures FollowersNumber(fs + [f], datarequestId)
         == FollowersNumber(fs, datarequestId) + (if f.datarequestId == datarequestId then 1 else 0)
  {
    CountAppend(fs, [f], (g: Follower) => g.datarequestId == datarequestId);
  }

  /** The same for a stored comment. */
  lemma CommentsNumberAppend(cs: seq<Comment>, c: Comment, datarequestId: string)
    ensures CommentsNumber(cs + [c], datarequestId)
         == CommentsNumber(cs, datarequestId) + (if c.datarequestId == datarequestId then 1 else 0)
  {
    CountAppend(cs, [c], (d: Comment) => d.datarequestId == datarequestId);
  }

  /** The follower count is positive exactly when some follower row names the request. */
  lemma FollowersNumberPositive(fs: seq<Follower>, datarequestId: string)
    ensures FollowersNumber(fs, datarequestId) > 0 <==> exists i :: 0 <= i < |fs| && fs[i].datarequestId == datarequestId
    ensures FollowersNumber(fs, datarequestId) == |FollowersOfRequest(fs, datarequestId)|
  {
    var p := (f: Follower) => f.datarequestId == datarequestId;
    CountPositive(fs, p);
    CountIsFilterLength(fs, p);
  }

  // ---------------------------------------------------------------------------
  // Case-insensitive pattern matching

  /** SQL `ILIKE`: `%` matches any run of characters, `_` any single character, a
      backslash makes the next pattern character literal, and letters compare
      without regard to case. */
  predicate ILike(s: string, p: string)
    decreases |s| + |p|
  {
    if p == [] then s == []
    else if p[0] == '%' then ILike(s, p[1..]) || (s != [] && ILike(s[1..], p))
    else if s == [] then false
    else if p[0] == '_' then ILike(s[1..], p[1..])
    else if p[0] == '\\' then |p| >= 2 && LowerChar(s[0]) == LowerChar(p[1]) && ILike(s[1..], p[2..])
    else LowerChar(s[0]) == LowerChar(p[0]) && ILike(s[1..], p[1..])
  }

  /** Text with none of the characters `ILIKE` treats specially. */
  predicate PlainText(q: string) {
    forall k :: 0 <= k < |q| ==> q[k] != '%' && q[k] != '_' && q[k] != '\\'
  }

  /** `'%{0}%'.format(q)`. */
  function SearchPattern(q: string): string {
    "%" + q + "%"
  }

  lemma {:induction false} ILikeAnything(s: string)
    ensures ILike(s, "%")
    decreases |s|
  {
    if s != [] {
      ILikeAnything(s[1..]);
    }
  }

  /** A plain text followed by `%` matches exactly the texts it starts, ignoring case. */
  lemma {:induction false} ILikePrefix(s: string, q: string)
    requires PlainText(q)
    ensures ILike(s, q + "%") <==> |q| <= |s| && Lower(s[..|q|]) == Lower(q)
    decreases |q|
  {
    if q == [] {
      assert q + "%" == "%";
      ILikeAnything(s);
      assert Lower(s[..0]) == Lower(q);
    } else {
      var p := q + "%";
      assert p[0] == q[0] && p[1..] == q[1..] + "%";
      if s != [] {
        ILikePrefix(s[1..], q[1..]);
        if |q| <= |s| {
          var a, b := Lower(s[..|q|]), Lower(q);
          assert a == [LowerChar(s[0])] + Lower(s[1..][..|q| - 1]) by {
            assert s[1..][..|q| - 1] == s[1..|q|];
          }
          assert b == [LowerChar(q[0])] + Lower(q[1..]);
        }
      }
    }
  }

  /** A pattern that starts with `%` matches exactly when the rest matches some suffix. */
  lemma {:induction false} ILikeLeadingPercent(s: string, r: string)
    ensures ILike(s, "%" + r) <==> exists k :: 0 <= k <= |s| && ILike(s[k..], r)
    decreases |s|
  {
    var p := "%" + r;
    assert p[1..] == r;
    assert s[0..] == s;
    if s != [] {
      ILikeLeadingPercent(s[1..], r);
      if exists k :: 0 <= k <= |s[1..]| && ILike(s[1..][k..], r) {
        var k :| 0 <= k <= |s[1..]| && ILike(s[1..][k..], r);
        assert s[1..][k..] == s[k + 1..];
      }
      if exists k :: 0 <= k <= |s| && ILike(s[k..], r) {
        var k :| 0 <= k <= |s| && ILike(s[k..], r);
        if k > 0 {
          assert s[1..][k - 1..] == s[k..];
        }
      }
    }
  }

  /** The free-text search: for a search text with no pattern characters, the
      pattern `%q%` matches exactly the texts that contain `q`, ignoring case. */
  lemma SearchIsCaseInsensitiveContains(s: string, q: string)
    requires PlainText(q)
    ensures ILike(s, SearchPattern(q)) <==> Contains(Lower(s), Lower(q))
  {
    var r := q + "%";
    assert SearchPattern(q) == "%" + r;
    ILikeLeadingPercent(s, r);
    if ILike(s, SearchPattern(q)) {
      var k :| 0 <= k <= |s| && ILike(s[k..], r);
      MatchAtIsOccurrence(s, q, k);
    }
    if Contains(Lower(s), Lower(q)) {
      var k :| 0 <= k <= |Lower(s)| - |Lower(q)| && OccursAt(Lower(s), Lower(q), k);
      MatchAtIsOccurrence(s, q, k);
    }
  }

  /** `q%` matches the suffix of `s` from `k` exactly when `q` occurs at `k`, ignoring case. */
  lemma MatchAtIsOccurrence(s: string, q: string, k: int)
    requires PlainText(q) && 0 <= k <= |s|
    ensures ILike(s[k..], q + "%") <==> OccursAt(Lower(s), Lower(q), k)
  {
    ILikePrefix(s[k..], q);
    if k + |q| <= |s| {
      assert s[k..][..|q|] == s[k..k + |q|];
      assert Lower(s)[k..k + |q|] == Lower(s[k..k + |q|]);
    }
  }

  // ---------------------------------------------------------------------------
  // get_ordered_by_date

  /** The optional filters of `get_ordered_by_date`; `None` means not given. */
  datatype Query = Query(
    organizationId: Option<string>,
    userId: Option<string>,
    closed: Option<bool>,
    q: Option<string>,
    desc: bool,
    status: Option<string>)

  /** The user the query runs for: whether they are a sysadmin, their identifier
      (`None` when nobody is logged in) and the identifiers of the organisations
      they may read. */
  datatype Viewer = Viewer(sysadmin: bool, id: Option<string>, readableOrgs: seq<string>)

  /** The equality filters: each one given must hold (a NULL column equals nothing). */
  predicate MatchesParams(d: DataRequest, query: Query) {
    && (query.organizationId.Some? ==> d.organizationId == query.organizationId)
    && (query.userId.Some? ==> d.userId == query.userId.value)
    && (query.closed.Some? ==> d.closed == query.closed.value)
    && (query.status.Some? ==> d.status == query.status.value)
  }

  /** The free-text filter on title or description. */
  predicate MatchesText(d: DataRequest, query: Query) {
    query.q.Some? ==> ILike(d.title, SearchPattern(query.q.value)) || ILike(d.description, SearchPattern(query.q.value))
  }

  /** The organisation restriction applied to users who are not sysadmins when no
      organisation filter is given. */
  predicate Visible(d: DataRequest, query: Query, viewer: Viewer) {
    viewer.sysadmin || query.organizationId.Some? ||
    (d.organizationId.Some? && d.organizationId.value in viewer.readableOrgs)
  }

  predicate Selected(d: DataRequest, query: Query, viewer: Viewer) {
    MatchesText(d, query) && MatchesParams(d, query) && Visible(d, query, viewer)
  }

  /** A request of the logged-in user, listed ahead of the others. */
  predicate Pinned(d: DataRequest, viewer: Viewer) {
    viewer.id.Some? && viewer.id.value != "" && d.userId == viewer.id.value
  }

  /** Open times in ascending order with NULL as the largest value, which is where
      PostgreSQL puts NULL both in ascending order (last) and descending order (first). */
  predicate OpenTimeLe(a: Option<Time>, b: Option<Time>) {
    b.None? || (a.Some? && a.value <= b.value)
  }

  /** `order_by(current_user_order.desc(), open_time asc/desc)`: `a` may be listed before `b`. */
  predicate ListOrder(viewer: Viewer, desc: bool, a: DataRequest, b: DataRequest) {
    if Pinned(a, viewer) != Pinned(b, viewer) then Pinned(a, viewer)
    else if desc then OpenTimeLe(b.openTime, a.openTime)
    else OpenTimeLe(a.openTime, b.openTime)
  }

  /** The list order, as a value to sort with. */
  function ListOrderBy(viewer: Viewer, desc: bool): (DataRequest, DataRequest) -> bool {
    (a: DataRequest, b: DataRequest) => ListOrder(viewer, desc, a, b)
  }

  /** The test "selected by `query` for `viewer`", as a value to filter with. */
  function SelectedBy(query: Query, viewer: Viewer): DataRequest -> bool {
    (d: DataRequest) => Selected(d, query, viewer)
  }

  /** `DataRequest.get_ordered_by_date`: the selected rows, ordered. */
  function GetOrderedByDate(rs: seq<DataRequest>, query: Query, viewer: Viewer): (r: seq<DataRequest>)
    ensures multiset(r) == multiset(Filter(rs, SelectedBy(query, viewer)))
    ensures forall i :: 0 <= i < |r| ==> r[i] in rs && Selected(r[i], query, viewer)
    ensures forall i :: 0 <= i < |rs| && Selected(rs[i], query, viewer) ==> rs[i] in r
  {
    var selected := Filter(rs, SelectedBy(query, viewer));
    var r := SortBy(selected, ListOrderBy(viewer, query.desc));
    SameMembers(r, selected);
    r
  }

  lemma ListOrderTotalPreorder(viewer: Viewer, desc: bool)
    ensures Total(ListOrderBy(viewer, desc))
    ensures Transitive(ListOrderBy(viewer, desc))
  {
  }

  /** The listing order: the logged-in user's own requests first, then every run of
      equally pinned requests by open time, ascending or descending as asked. */
  lemma GetOrderedByDateOrder(rs: seq<DataRequest>, query: Query, viewer: Viewer)
    ensures var r := GetOrderedByDate(rs, query, viewer);
      forall i, j :: 0 <= i < j < |r| ==>
        && (Pinned(r[j], viewer) ==> Pinned(r[i], viewer))
        && (Pinned(r[i], viewer) == Pinned(r[j], viewer) ==>
              if query.desc then OpenTimeLe(r[j].openTime, r[i].openTime)
              else OpenTimeLe(r[i].openTime, r[j].openTime))
  {
    var le := ListOrderBy(viewer, query.desc);
    ListOrderTotalPreorder(viewer, query.desc);
    SortBySorted(Filter(rs, SelectedBy(query, viewer)), le);
  }

  /** Without a current user nothing is pinned, and the whole result is ordered by open time. */
  lemma AnonymousOrderIsByOpenTime(rs: seq<DataRequest>, query: Query, viewer: Viewer)
    requires viewer.id.None? || viewer.id == Some("")
    ensures var r := GetOrderedByDate(rs, query, viewer);
      forall i, j :: 0 <= i < j < |r| ==>
        if query.desc then OpenTimeLe(r[j].openTime, r[i].openTime)
        else OpenTimeLe(r[i].openTime, r[j].openTime)
  {
    GetOrderedByDateOrder(rs, query, viewer);
  }

  /** The restriction to readable organisations: a user who is not a sysadmin and
      gives no organisation only sees requests of organisations they may read. */
  lemma RestrictedToReadableOrgs(rs: seq<DataRequest>, query: Query, viewer: Viewer)
    requires !viewer.sysadmin && query.organizationId.None?
    ensures var r := GetOrderedByDate(rs, query, viewer);
      forall i :: 0 <= i < |r| ==> r[i].organizationId.Some? && r[i].organizationId.value in viewer.readableOrgs
  {
  }

  /** For a search text without pattern characters, a row is kept by the text filter
      exactly when its title or its description contains the text, ignoring case. */
  lemma TextFilterIsSubstringSearch(d: DataRequest, query: Query)
    requires query.q.Some? && PlainText(query.q.value)
    ensures MatchesText(d, query) <==>
      Contains(Lower(d.title), Lower(query.q.value)) || Contains(Lower(d.description), Lower(query.q.value))
  {
    SearchIsCaseInsensitiveContains(d.title, query.q.value);
    SearchIsCaseInsensitiveContains(d.description, query.q.value);
  }

  // ---------------------------------------------------------------------------
  // Comment.get_ordered_by_date

  predicate CommentOrder(desc: bool, a: Comment, b: Comment) {
    if desc then b.time <= a.time else a.time <= b.time
  }

  /** The comment order, as a value to sort with. */
  function CommentOrderBy(desc: bool): (Comment, Comment) -> bool {
    (a: Comment, b: Comment) => CommentOrder(desc, a, b)
  }

  /** `Comment.get_ordered_by_date`: the comments of a request, ordered by time.
      Every listed comment belongs to the request and every comment of the request is listed. */
  function CommentsOrderedByDate(cs: seq<Comment>, datarequestId: string, desc: bool): (r: seq<Comment>)
    ensures multiset(r) == multiset(Filter(cs, OfRequest(datarequestId)))
    ensures forall i :: 0 <= i < |r| ==> r[i].datarequestId == datarequestId && r[i] in cs
    ensures forall i :: 0 <= i < |cs| && cs[i].datarequestId == datarequestId ==> cs[i] in r
  {
    var selected := Filter(cs, OfRequest(datarequestId));
    var r := SortBy(selected, CommentOrderBy(desc));
    SameMembers(r, selected);
    r
  }

  /** The comments come in time order, oldest first unless `desc` is asked for. */
  lemma CommentsOrderedByDateOrder(cs: seq<Comment>, datarequestId: string, desc: bool)
    ensures var r := CommentsOrderedByDate(cs, datarequestId, desc);
      forall i, j :: 0 <= i < j < |r| ==> if desc then r[j].time <= r[i].time else r[i].time <= r[j].time
  {
    var le := CommentOrderBy(desc);
    var r := CommentsOrderedByDate(cs, datarequestId, desc);
    SortBySorted(Filter(cs, OfRequest(datarequestId)), le);
    forall i, j | 0 <= i < j < |r| ensures CommentOrder(desc, r[i], r[j]) {
      assert le(r[i], r[j]);
    }
  }
}
