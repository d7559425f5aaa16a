/**
  The web pages' own logic: the summary of a validation error shown above a form,
  the links of the listing's pager and how the listing page reads them back, the
  form data posted to the create, update and close actions, and who may edit the
  status field. Rendering, redirects, flash messages and the captcha are the
  platform's.

  Query and form parameters are taken as the first value sent for each name, a
  map from name to text.
 */
module Controller {
  import opened Wrappers
  import opened Text
  import opened Platform
  import Db
  import Validator
  import Listing
  import Auth
  import Actions

  /** The first value of each sent parameter. */
  type Params = map<string, string>

  /** `get_first_query_param(name, default)` and `get_first_post_param(name, default)`. */
  function FirstParam(params: Params, name: string, default: Option<string>): (r: Option<string>)
    ensures name in params ==> r == Some(params[name])
    ensures name !in params ==> r == default
  {
    if name in params then Some(params[name]) else default
  }

  // ---------------------------------------------------------------------------
  // _get_errors_summary

  /** `_get_errors_summary`: every field of the error dictionary with its messages
      joined by `, `. */
  method GetErrorsSummary(errors: map<string, seq<string>>) returns (summary: map<string, string>)
    ensures summary.Keys == errors.Keys
    ensures forall k :: k in errors ==> summary[k] == Join(errors[k], ", ")
  {
    summary := map[];
    var remaining := errors.Keys;
    while remaining != {}
      invariant remaining <= errors.Keys
      invariant summary.Keys == errors.Keys - remaining
      invariant forall k :: k in summary ==> summary[k] == Join(errors[k], ", ")
      decreases remaining
    {
      var k :| k in remaining;
      summary := summary[k := Join(errors[k], ", ")];
      remaining := remaining - {k};
    }
  }

  /** Each part after the first, with the space the separator leaves in front. */
  function Spaced(parts: seq<string>): (r: seq<string>)
    ensures |r| == |parts|
  {
    seq(|parts|, i requires 0 <= i < |parts| => " " + parts[i])
  }

  /** The summary keeps the messages apart: when no message holds a comma, splitting
      a field's summary at the commas gives back its messages, each after the first
      with the space of the separator in front. */
  lemma {:induction false} SummarySplitsBack(messages: seq<string>)
    requires messages != []
    requires forall i :: 0 <= i < |messages| ==> ',' !in messages[i]
    ensures Split(Join(messages, ", "), ',') == [messages[0]] + Spaced(messages[1..])
    decreases |messages|
  {
    if |messages| == 1 {
      SplitOfText(messages[0], ',');
      assert Spaced(messages[1..]) == [];
    } else {
      var rest := messages[1..];
      var joined := Join(rest, ", ");
      assert Join(messages, ", ") == messages[0] + [','] + ([' '] + joined);
      SplitAfterPart(messages[0], [' '] + joined, ',');
      assert forall i :: 0 <= i < |rest| ==> rest[i] == messages[i + 1];
      SummarySplitsBack(rest);
      var parts := Split(joined, ',');
      assert parts == [rest[0]] + Spaced(rest[1..]);
      assert Split([' '] + joined, ',') == [[' '] + parts[0]] + parts[1..];
      assert rest[1..] == messages[2..];
    }
  }

  /** Splitting a text without the separator gives that text alone. */
  lemma {:induction false} SplitOfText(s: string, sep: char)
    requires sep !in s
    ensures Split(s, sep) == [s]
    decreases |s|
  {
    if s != [] {
      assert sep !in s[1..];
      SplitOfText(s[1..], sep);
      assert s == [s[0]] + s[1..];
    }
  }

  /** A part without the separator, then the separator, splits off as one part. */
  lemma {:induction false} SplitAfterPart(a: string, b: string, sep: char)
    requires sep !in a
    ensures Split(a + [sep] + b, sep) == [a] + Split(b, sep)
    decreases |a|
  {
    var s := a + [sep] + b;
    if a == [] {
      assert s == [sep] + b;
      assert s[1..] == b;
    } else {
      assert s[0] == a[0] && s[1..] == a[1..] + [sep] + b;
      assert sep !in a[1..];
      SplitAfterPart(a[1..], b, sep);
      assert a == [a[0]] + a[1..];
    }
  }

  // ---------------------------------------------------------------------------
  // The listing page and its pager

  /** A value put in a link: a text, an integer or `None`. */
  datatype PyValue = Str(s: string) | Int(i: int) | NoneValue

  /** `_encode_params` on one value: a text as it is, anything else as `str(v)`. */
  function EncodeValue(v: PyValue): string {
    match v
    case Str(s) => s
    case Int(i) => IntToString(i)
    case NoneValue => "None"
  }

  /** `_encode_params`. */
  function EncodeParams(params: seq<(string, PyValue)>): (r: seq<(string, string)>)
    ensures |r| == |params|
    ensures forall i :: 0 <= i < |r| ==> r[i].0 == params[i].0
  {
    seq(|params|, i requires 0 <= i < |params| => (params[i].0, EncodeValue(params[i].1)))
  }

  /** What an encoded value reads back as: the text it was, and for an integer the
      integer, through `int()`. */
  lemma EncodedValueReadsBack(v: PyValue)
    ensures v.Str? ==> EncodeValue(v) == v.s
    ensures v.Int? ==> ParseInt(EncodeValue(v)) == Some(v.i)
  {
    if v.Int? {
      IntRoundTrip(v.i);
    }
  }

  /** `pager_url`: the search text only when it is non-empty, the status only when
      there is one (an empty one too), then always the sort and the page. */
  function PagerParams(status: Option<string>, sort: string, q: Option<string>, page: int): (r: seq<(string, PyValue)>)
    ensures |r| == 2 + (if Truthy(q) then 1 else 0) + (if status.Some? then 1 else 0)
    ensures r[|r| - 2] == ("sort", Str(sort)) && r[|r| - 1] == ("page", Int(page))
    ensures Truthy(q) ==> r[0] == ("q", Str(q.value))
    ensures !Truthy(q) ==> forall i :: 0 <= i < |r| ==> r[i].0 != "q"
    ensures status.Some? ==> r[|r| - 3] == ("status", Str(status.value))
    ensures status.None? ==> forall i :: 0 <= i < |r| ==> r[i].0 != "status"
  {
    (if Truthy(q) then [("q", Str(q.value))] else [])
    + (if status.Some? then [("status", Str(status.value))] else [])
    + [("sort", Str(sort)), ("page", Int(page))]
  }

  /** The parameters a link sends, as the page it leads to reads them: the first
      value of each name. */
  function QueryOf(pairs: seq<(string, string)>): (r: Params)
    ensures forall name :: name in r <==> exists i :: 0 <= i < |pairs| && pairs[i].0 == name
  {
    if pairs == [] then map[]
    else
      var rest := QueryOf(pairs[1..]);
      assert forall i :: 1 <= i < |pairs| ==> pairs[i] == pairs[1..][i - 1];
      rest[pairs[0].0 := pairs[0].1]
  }

  /** What `_show_index` reads from the query and passes to `list_datarequests`,
      with the page number and the raw sort, search text and status it keeps for
      the template and the pager. */
  datatype IndexRequest = IndexRequest(params: Listing.ListParams, page: int, sort: string, q: string,
                                       status: Option<string>, requestingOrganisation: string)

  /** `int(get_first_query_param('page', 1))`: `None` where `int()` raises. */
  function PageNumber(query: Params): (r: Option<int>)
    ensures r.None? <==> "page" in query && ParseInt(query["page"]).None?
    ensures "page" !in query ==> r == Some(1)
  {
    if "page" in query then ParseInt(query["page"]) else Some(1)
  }

  /** The sort of the listing page: `asc` only when asked for, `desc` otherwise. */
  function NormalisedSort(query: Params): (sort: string)
    ensures sort == "asc" || sort == "desc"
    ensures sort == "asc" <==> FirstParam(query, "sort", None) == Some("asc")
  {
    var sort := FirstParam(query, "sort", Some("desc")).value;
    if sort == "asc" || sort == "desc" then sort else "desc"
  }

  /** `_show_index` up to the listing call: the page number (`None` where `int()`
      raises and the page aborts with 400), the window of `perPage` requests it
      shows, the sort normalised to `asc` or `desc`, and the status, search text and
      user filters when they are non-empty. The requesting organisation is put in
      the data under `requesting_organisation`, a key `list_datarequests` does not
      read, so it does not filter. */
  function ShowIndexRequest(query: Params, userId: Option<string>, requestingOrganisation: string, perPage: nat)
    : (r: Option<IndexRequest>)
    ensures r.None? <==> "page" in query && ParseInt(query["page"]).None?
    ensures r.Some? ==>
      && r.value.page == PageNumber(query).value
      && r.value.params.offset == Some((r.value.page - 1) * perPage)
      && r.value.params.limit == Some(perPage)
    ensures r.Some? ==>
      && r.value.sort == NormalisedSort(query)
      && r.value.params.sort == Some(r.value.sort)
    ensures r.Some? ==>
      && r.value.status == FirstParam(query, "status", None)
      && r.value.params.status == Actions.OrNone(r.value.status)
    ensures r.Some? ==>
      && r.value.q == FirstParam(query, "q", Some("")).value
      && r.value.params.q == Actions.OrNone(Some(r.value.q))
    ensures r.Some? ==>
      && r.value.params.userId == Actions.OrNone(userId)
      && r.value.params.organizationId.None?
  {
    match PageNumber(query)
    case None => None
    case Some(page) =>
      var status := FirstParam(query, "status", None);
      var q := FirstParam(query, "q", Some("")).value;
      var sort := NormalisedSort(query);
      Some(IndexRequest(
        Listing.ListParams(None, Actions.OrNone(userId), Actions.OrNone(status), Actions.OrNone(Some(q)),
                           Some(sort), Some((page - 1) * perPage), Some(perPage)),
        page, sort, q, status, requestingOrganisation))
  }

  /** Following a pager link shows the same listing on the other page: the link built
      from the page's status, sort and search text, read back by the listing page,
      gives the same filters and sort, and the window of the linked page. The bound
      `pager_url` carries only the status and the sort; the search text reaches the
      link only when the page template passes it to the pager, which is assumed here. */
  lemma PagerRoundTrip(query: Params, userId: Option<string>, requestingOrganisation: string, perPage: nat, page: int)
    requires ShowIndexRequest(query, userId, requestingOrganisation, perPage).Some?
    ensures var r := ShowIndexRequest(query, userId, requestingOrganisation, perPage).value;
      var link := QueryOf(EncodeParams(PagerParams(r.status, r.sort, Some(r.q), page)));
      ShowIndexRequest(link, userId, requestingOrganisation, perPage)
        == Some(r.(page := page, params := r.params.(offset := Some((page - 1) * perPage))))
  {
    var r := ShowIndexRequest(query, userId, requestingOrganisation, perPage).value;
    var link := QueryOf(EncodeParams(PagerParams(r.status, r.sort, Some(r.q), page)));
    PagerLinkReads(r.status, r.sort, Some(r.q), page);
    IntRoundTrip(page);
    assert PageNumber(link) == Some(page);
    assert NormalisedSort(link) == r.sort;
  }

  /** The parameters a pager link sends, as the listing page reads them. */
  lemma PagerLinkReads(status: Option<string>, sort: string, q: Option<string>, page: int)
    ensures var link := QueryOf(EncodeParams(PagerParams(status, sort, q, page)));
      && FirstParam(link, "page", None) == Some(IntToString(page))
      && FirstParam(link, "sort", None) == Some(sort)
      && FirstParam(link, "status", None) == status
      && FirstParam(link, "q", Some("")) == (if Truthy(q) then q else Some(""))
  {
    var pg := IntToString(page);
    var tail := [("sort", sort), ("page", pg)];
    var withStatus := if status.Some? then [("status", status.value)] + tail else tail;
    var pairs := if Truthy(q) then [("q", q.value)] + withStatus else withStatus;
    PagerEncoded(status, sort, q, page);
    TailQuery(sort, pg);
    var m1 := QueryOf(withStatus);
    if status.Some? {
      QueryOfCons(("status", status.value), tail);
    }
    assert "page" in m1 && m1["page"] == pg && "sort" in m1 && m1["sort"] == sort && "q" !in m1;
    assert FirstParam(m1, "status", None) == status;
    if Truthy(q) {
      QueryOfCons(("q", q.value), withStatus);
    }
  }

  /** The encoded pairs of a pager link. */
  lemma PagerEncoded(status: Option<string>, sort: string, q: Option<string>, page: int)
    ensures var tail := [("sort", sort), ("page", IntToString(page))];
      var withStatus := if status.Some? then [("status", status.value)] + tail else tail;
      EncodeParams(PagerParams(status, sort, q, page)) == if Truthy(q) then [("q", q.value)] + withStatus else withStatus
  {
  }

  /** The sort and the page of a pager link, as read back. */
  lemma TailQuery(sort: string, pg: string)
    ensures var m := QueryOf([("sort", sort), ("page", pg)]);
      && "page" in m && m["page"] == pg && "sort" in m && m["sort"] == sort
      && "q" !in m && "status" !in m
  {
    QueryOfCons(("page", pg), []);
    QueryOfCons(("sort", sort), [("page", pg)]);
  }

  /** The first pair of a link gives the value of its name. */
  lemma QueryOfCons(p: (string, string), rest: seq<(string, string)>)
    ensures QueryOf([p] + rest) == QueryOf(rest)[p.0 := p.1]
  {
    assert ([p] + rest)[1..] == rest;
  }

  /** The requesting organisation a page asks for changes nothing in what is listed. */
  lemma RequestingOrganisationNotFiltered(query: Params, userId: Option<string>, a: string, b: string, perPage: nat)
    ensures match (ShowIndexRequest(query, userId, a, perPage), ShowIndexRequest(query, userId, b, perPage))
      case (Some(x), Some(y)) => x.params == y.params
      case (None, None) => true
      case _ => false
  {
  }

  // ---------------------------------------------------------------------------
  // Posted forms

  /** The texts of the data request form, each posted as the empty text when not sent. */
  const TextFields: set<string> := {
    "title", "description", "organization_id", "data_use_type", "who_will_access_this_data",
    "requesting_organisation", "data_storage_environment", "data_outputs_type", "data_outputs_description"
  }

  /** The keys `_process_post` fills: the identifier for an update only. */
  function FormKeys(update: bool): set<string> {
    TextFields + {"status", "requested_dataset"} + (if update then {"id"} else {})
  }

  /** The posted value of a form key, with the default of `_process_post`. */
  function PostedValue(post: Params, key: string): Option<string> {
    if key in TextFields then FirstParam(post, key, Some(""))
    else if key == "status" then FirstParam(post, key, Some(Db.DefaultStatus))
    else if key == "requested_dataset" then FirstParam(post, key, None)
    else FirstParam(post, key, Some(""))
  }

  /** `_process_post` up to the action call: no data when nothing was posted;
      otherwise every text field (the empty text when not sent), the status
      (`Assigned` when not sent), the requested dataset (`None` when not sent) and,
      for an update only, the identifier (the empty text when not sent). */
  function PostedForm(post: Params, update: bool): (r: Option<Validator.FormData>)
    ensures r.None? <==> post == map[]
    ensures r.Some? ==> forall k :: k in TextFields ==> k in r.value && r.value[k] == FirstParam(post, k, Some(""))
    ensures r.Some? ==> "status" in r.value && r.value["status"] == FirstParam(post, "status", Some(Db.DefaultStatus))
    ensures r.Some? ==> "requested_dataset" in r.value && r.value["requested_dataset"] == FirstParam(post, "requested_dataset", None)
    ensures r.Some? ==> ("id" in r.value <==> update)
    ensures r.Some? && update ==> r.value["id"] == FirstParam(post, "id", Some(""))
    ensures r.Some? ==> forall k :: k in r.value ==> k in TextFields || k == "status" || k == "requested_dataset" || k == "id"
  {
    if post == map[] then None
    else Some(map k | k in FormKeys(update) :: PostedValue(post, k))
  }

  /** Posted data can always be read by the validator and, once its defaults are
      written back, copied into a row: the title and the description are texts, and
      so is every field the copy reads. */
  lemma PostedFormIsStorable(post: Params, update: bool, host: Host)
    requires post != map[]
    ensures Validator.Readable(PostedForm(post, update).value, host)
    ensures "title" in PostedForm(post, update).value
    ensures Actions.Storable(Validator.WrittenBack(PostedForm(post, update).value, host))
  {
    var form := PostedForm(post, update).value;
    assert "title" in TextFields && "description" in TextFields && "organization_id" in TextFields;
    PostedTextKept(post, update, host, "description");
    PostedTextKept(post, update, host, "data_use_type");
    PostedTextKept(post, update, host, "who_will_access_this_data");
    PostedTextKept(post, update, host, "requesting_organisation");
    PostedTextKept(post, update, host, "data_storage_environment");
    PostedTextKept(post, update, host, "data_outputs_type");
    PostedTextKept(post, update, host, "data_outputs_description");
  }

  /** A posted text the validator does not write back is still a text afterwards. */
  lemma PostedTextKept(post: Params, update: bool, host: Host, key: string)
    requires post != map[] && key in TextFields
    requires key != "organization_id" && key != "title"
    ensures Actions.Present(Validator.WrittenBack(PostedForm(post, update).value, host), key)
  {
    assert key != "status" by {
      assert "status" !in TextFields;
    }
  }

  /** The data `close` posts to `close_datarequest`: the accepted dataset and, with
      closing circumstances enabled, the circumstance, the date and the condition,
      each `None` when not sent; no data when nothing was posted (the page is shown). */
  function ClosingForm(post: Params, enabled: bool, id: string): (r: Option<Validator.FormData>)
    ensures r.None? <==> post == map[]
    ensures r.Some? ==> "id" in r.value && r.value["id"] == Some(id)
    ensures r.Some? ==>
      && "accepted_dataset_id" in r.value
      && r.value["accepted_dataset_id"] == FirstParam(post, "accepted_dataset_id", None)
    ensures r.Some? ==> forall k :: k in ["close_circumstance", "approx_publishing_date", "condition"] ==>
      (k in r.value <==> enabled) && (enabled ==> r.value[k] == FirstParam(post, k, None))
  {
    if post == map[] then None
    else
      var form := map["accepted_dataset_id" := FirstParam(post, "accepted_dataset_id", None), "id" := Some(id)];
      Some(if enabled then
             form["close_circumstance" := FirstParam(post, "close_circumstance", None)]
                 ["approx_publishing_date" := FirstParam(post, "approx_publishing_date", None)]
                 ["condition" := FirstParam(post, "condition", None)]
           else form)
  }

  /** The close page nominating a dataset without choosing one posts `None` for it,
      which the closing validator lets through as written and rejects as intended. */
  lemma ClosingWithoutDataset(host: Host, isDate: string -> bool, id: string)
    ensures ClosingForm(map["close_circumstance" := "Released", "condition" := "nominate_dataset"], true, id).Some?
    ensures var form := ClosingForm(map["close_circumstance" := "Released", "condition" := "nominate_dataset"], true, id).value;
      && form["accepted_dataset_id"] == None
      && Validator.ValidateClosingAsWritten(form, true, host, isDate) == Validator.Accepted(())
      && Validator.ValidateClosing(form, true, host, isDate).Rejected?
  {
    var post := map["close_circumstance" := "Released", "condition" := "nominate_dataset"];
    assert "condition" in post;
  }

  // ---------------------------------------------------------------------------
  // update: the status field

  /** `access_to_status_field` in `update`: true for a sysadmin, then set by the walk
      over the members of the request's organisation, which stops at the acting user
      as an editor or an admin. Reading the capacity of a matching member that has
      none raises (`None`). */
  method AccessToStatusField(current: Option<User>, organization: Option<Organization>) returns (r: Option<bool>)
    ensures organization.None? ==> r == Some(current.Some? && current.value.sysadmin)
    ensures organization.Some? ==>
      match Auth.MembershipDecision(organization.value.users, Auth.CurrentId(current))
      case None => r.None?
      case Some(b) => r == Some((current.Some? && current.value.sysadmin) || b)
  {
    var access := current.Some? && current.value.sysadmin;
    var currentId := Auth.CurrentId(current);
    if organization.None? {
      return Some(access);
    }
    var users := organization.value.users;
    var i := 0;
    while i < |users|
      invariant 0 <= i <= |users|
      invariant Auth.MembershipDecision(users, currentId) == Auth.MembershipDecision(users[i..], currentId)
    {
      assert users[i..][1..] == users[i + 1..];
      if users[i].id == currentId.GetOr("") && currentId.Some? {
        if users[i].capacity.None? {
          return None;
        }
        if users[i].capacity.value in ["editor", "admin"] {
          access := true;
          return Some(access);
        }
      }
      i := i + 1;
    }
    return Some(access);
  }
}
