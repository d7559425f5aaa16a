/**
  The authorisation functions of the data request actions. Each decides whether
  the acting user may run an action; `None` stands for a decision that raises
  instead of answering.
 */
module Auth {
  import opened Wrappers
  import opened Text
  import opened Platform
  import Common
  import Db

  // ---------------------------------------------------------------------------
  // asbool

  /** The spellings `asbool` reads as true and as false, after stripping and lower-casing. */
  const TrueWords: seq<string> := ["true", "yes", "on", "y", "t", "1"]
  const FalseWords: seq<string> := ["false", "no", "off", "n", "f", "0"]

  /** The platform's `asbool`: a boolean as it is; a text is stripped and lower-cased
      and must be one of the known spellings, and any other text raises. */
  function AsBool(v: Common.ConfigValue): (r: Option<bool>)
    ensures v.Flag? ==> r == Some(v.b)
    ensures v.Setting? ==> (r == Some(true) <==> Lower(Strip(v.text)) in TrueWords)
    ensures v.Setting? ==> (r == Some(false) <==> Lower(Strip(v.text)) in FalseWords)
    ensures v.Setting? ==> (r.None? <==> Lower(Strip(v.text)) !in TrueWords + FalseWords)
  {
    match v
    case Flag(b) => Some(b)
    case Setting(t) =>
      var word := Lower(Strip(t));
      if word in TrueWords then Some(true)
      else if word in FalseWords then Some(false)
      else None
  }

  // ---------------------------------------------------------------------------
  // create_datarequest

  /** The acting user as the action context names them: `user` is the user name it
      may hold and `authUser` the user object it may hold. */
  datatype AuthContext = AuthContext(user: Option<string>, authUser: Option<User>)

  /** The name `_is_any_group_member` checks: the context's user name, or else the
      name of the context's user object. */
  function MemberName(context: AuthContext): Option<string> {
    if Truthy(context.user) then context.user
    else if context.authUser.Some? then Some(context.authUser.value.name)
    else None
  }

  /** `_is_any_group_member`: a user name is found and the user may read some
      organisation (`canReadSomeOrg` is the platform's permission check). */
  function IsAnyGroupMember(context: AuthContext, canReadSomeOrg: string -> bool): bool {
    var name := MemberName(context);
    Truthy(name) && canReadSomeOrg(name.value)
  }

  const CreateIfNotInOrganization := "ckanext.auth.create_datarequest_if_not_in_organization"

  /** `create_datarequest`: allowed when the setting reads as true, which it does when
      not set, or when the user belongs to some organisation. */
  function CreateDatarequest(config: Common.Config, context: AuthContext, canReadSomeOrg: string -> bool): Option<bool> {
    match AsBool(Common.Lookup(config, CreateIfNotInOrganization, Common.Setting("True")))
    case None => None
    case Some(b) => Some(b || IsAnyGroupMember(context, canReadSomeOrg))
  }

  /** Without the setting anybody may create a request; with it set to a false
      spelling only members of some organisation may; an unknown spelling raises. */
  lemma CreateRule(config: Common.Config, context: AuthContext, canReadSomeOrg: string -> bool)
    ensures CreateIfNotInOrganization !in config ==> CreateDatarequest(config, context, canReadSomeOrg) == Some(true)
    ensures CreateIfNotInOrganization in config && AsBool(config[CreateIfNotInOrganization]) == Some(false) ==>
      CreateDatarequest(config, context, canReadSomeOrg) == Some(IsAnyGroupMember(context, canReadSomeOrg))
    ensures CreateDatarequest(config, context, canReadSomeOrg).None? <==>
      CreateIfNotInOrganization in config && AsBool(config[CreateIfNotInOrganization]).None?
  {
    DefaultReadsTrue();
  }

  /** The default `"True"` reads as true. */
  lemma DefaultReadsTrue()
    ensures AsBool(Common.Setting("True")) == Some(true)
  {
    var w := "True";
    LetterIsNotSpace(w[0]);
    LetterIsNotSpace(w[3]);
    assert StripLeading(w) == w;
    assert StripTrailing(w) == w;
    assert Lower(w) == TrueWords[0] by {
      assert |Lower(w)| == 4;
      assert LowerChar('T') == 't';
    }
  }

  lemma LetterIsNotSpace(c: char)
    requires IsAlpha(c)
    ensures !IsSpace(c)
  {
    assert forall k :: 0 <= k < |SpaceChars| ==> SpaceChars[k] != c;
    NotOneOf(c, SpaceChars);
  }

  // ---------------------------------------------------------------------------
  // show_datarequest and list_datarequest_comments

  /** `show_datarequest`: a sysadmin sees every request; anybody else (an anonymous
      user included, `current == None`) only those whose requesting organisation is
      one they may read. `readableOrgIds` are the identifiers of those organisations.
      The lookup raises when there is no request with the identifier. */
  function ShowDatarequest(current: Option<User>, rows: seq<Db.DataRequest>, id: Option<string>,
                           readableOrgIds: seq<string>): (r: Option<bool>)
    ensures current.Some? && current.value.sysadmin ==> r == Some(true)
  {
    if current.Some? && current.value.sysadmin then Some(true)
    else
      var found := if id.Some? then Db.GetById(rows, id.value) else [];
      if found == [] then None
      else Some(found[0].requestingOrganisation in readableOrgIds)
  }

  /** For anybody but a sysadmin, the answer follows the first request with the
      identifier: allowed exactly when its requesting organisation is readable, and
      raising when there is none. */
  lemma ShowRule(current: Option<User>, rows: seq<Db.DataRequest>, id: string, readableOrgIds: seq<string>)
    requires current.None? || !current.value.sysadmin
    ensures ShowDatarequest(current, rows, Some(id), readableOrgIds).None? <==>
      forall i :: 0 <= i < |rows| ==> rows[i].id != id
    ensures forall i :: 0 <= i < |rows| && rows[i].id == id && (forall j :: 0 <= j < i ==> rows[j].id != id) ==>
      ShowDatarequest(current, rows, Some(id), readableOrgIds) == Some(rows[i].requestingOrganisation in readableOrgIds)
  {
    forall i | 0 <= i < |rows| && rows[i].id == id && (forall j :: 0 <= j < i ==> rows[j].id != id)
      ensures Db.GetById(rows, id) != [] && Db.GetById(rows, id)[0] == rows[i]
    {
      FirstById(rows, id, i);
    }
  }

  /** The first row the lookup finds is the first row with the identifier. */
  lemma {:induction false} FirstById(rows: seq<Db.DataRequest>, id: string, i: nat)
    requires i < |rows| && rows[i].id == id
    requires forall j :: 0 <= j < i ==> rows[j].id != id
    ensures Db.GetById(rows, id) != [] && Db.GetById(rows, id)[0] == rows[i]
  {
    if i > 0 {
      assert rows[1..][i - 1] == rows[i];
      FirstById(rows[1..], id, i - 1);
    }
  }

  /** `list_datarequest_comments`: the decision of `show_datarequest` for the request
      the comments belong to; a missing `datarequest_id` raises. */
  function ListDatarequestComments(current: Option<User>, rows: seq<Db.DataRequest>, datarequestId: Option<string>,
                                   readableOrgIds: seq<string>): (r: Option<bool>)
    ensures datarequestId.Some? ==> r == ShowDatarequest(current, rows, datarequestId, readableOrgIds)
    ensures datarequestId.None? ==> r.None?
  {
    if datarequestId.None? then None else ShowDatarequest(current, rows, datarequestId, readableOrgIds)
  }

  // ---------------------------------------------------------------------------
  // auth_if_creator and auth_if_editor_or_admin

  /** The data dictionary an auth function is given or looks up: the request's
      identifier, its creator when the dictionary carries one, and its organisation
      with the organisation's members. */
  datatype RequestDict = RequestDict(id: Option<string>, userId: Option<string>, organization: Option<Organization>)

  /** The dictionary both functions decide on: the given one when it carries a
      creator, otherwise what the show action returned for its identifier (`shown`,
      `None` where the show action raises). */
  function Effective(data: RequestDict, shown: Option<RequestDict>): Option<RequestDict> {
    if data.userId.Some? then Some(data) else shown
  }

  /** `auth_if_creator`: allowed exactly when the acting user created the request.
      It raises when the show action does, when the dictionary has no creator and
      when the context has no user object. */
  function AuthIfCreator(context: AuthContext, data: RequestDict, shown: Option<RequestDict>): (r: Option<bool>)
    ensures r == Some(true) <==>
      Effective(data, shown).Some? && context.authUser.Some? &&
      Effective(data, shown).value.userId == Some(context.authUser.value.id)
    ensures r.None? <==>
      Effective(data, shown).None? || Effective(data, shown).value.userId.None? || context.authUser.None?
  {
    var d := Effective(data, shown);
    if d.None? || d.value.userId.None? || context.authUser.None? then None
    else Some(d.value.userId.value == context.authUser.value.id)
  }

  /** The member at `i` is the acting user and is an editor or an admin. */
  predicate EditorOrAdminAt(users: seq<Member>, currentId: Option<string>, i: int)
    requires 0 <= i < |users|
  {
    currentId == Some(users[i].id) && users[i].capacity.Some? && users[i].capacity.value in ["editor", "admin"]
  }

  /** The loop of `auth_if_editor_or_admin`, member by member: true at the first
      member that is the acting user with an editor or admin capacity; reading the
      capacity of a matching member that has none raises. */
  function MembershipDecision(users: seq<Member>, currentId: Option<string>): Option<bool> {
    if users == [] then Some(false)
    else if currentId == Some(users[0].id) && users[0].capacity.None? then None
    else if currentId == Some(users[0].id) && users[0].capacity.value in ["editor", "admin"] then Some(true)
    else MembershipDecision(users[1..], currentId)
  }

  /** Every member entry of the acting user has a capacity. */
  predicate CapacityKnown(users: seq<Member>, currentId: Option<string>) {
    forall i :: 0 <= i < |users| && currentId == Some(users[i].id) ==> users[i].capacity.Some?
  }

  /** The decision is true only for an editor or admin member who is the acting user,
      and when every matching member has a capacity, it is true exactly then. */
  lemma {:induction false} MembershipDecisionMeaning(users: seq<Member>, currentId: Option<string>)
    ensures MembershipDecision(users, currentId) == Some(true) ==>
      exists i :: 0 <= i < |users| && EditorOrAdminAt(users, currentId, i)
    ensures CapacityKnown(users, currentId) ==>
      MembershipDecision(users, currentId) == Some(exists i :: 0 <= i < |users| && EditorOrAdminAt(users, currentId, i))
  {
    if users != [] {
      var rest := users[1..];
      MembershipDecisionMeaning(rest, currentId);
      assert forall i :: 0 <= i < |rest| ==> rest[i] == users[i + 1];
      if currentId == Some(users[0].id) && users[0].capacity.Some? && users[0].capacity.value in ["editor", "admin"] {
        assert EditorOrAdminAt(users, currentId, 0);
      }
      if exists i :: 0 <= i < |rest| && EditorOrAdminAt(rest, currentId, i) {
        var i :| 0 <= i < |rest| && EditorOrAdminAt(rest, currentId, i);
        assert EditorOrAdminAt(users, currentId, i + 1);
      }
      if exists i :: 0 <= i < |users| && EditorOrAdminAt(users, currentId, i) {
        var i :| 0 <= i < |users| && EditorOrAdminAt(users, currentId, i);
        if i > 0 {
          assert EditorOrAdminAt(rest, currentId, i - 1);
        }
      }
    }
  }

  /** The identifier of the acting user, `None` when nobody is logged in. */
  function CurrentId(current: Option<User>): Option<string> {
    if current.Some? then Some(current.value.id) else None
  }

  /** What `auth_if_editor_or_admin` answers: the membership decision over the
      members of the request's organisation; it raises when the show action does and
      when the request has no organisation. */
  function EditorOrAdminDecision(current: Option<User>, data: RequestDict, shown: Option<RequestDict>): Option<bool> {
    var d := Effective(data, shown);
    if d.None? || d.value.organization.None? then None
    else MembershipDecision(d.value.organization.value.users, CurrentId(current))
  }

  /** `auth_if_editor_or_admin`: walks the organisation's members with a flag and
      stops at the first editor or admin who is the acting user. */
  method AuthIfEditorOrAdmin(current: Option<User>, data: RequestDict, shown: Option<RequestDict>)
    returns (r: Option<bool>)
    ensures r == EditorOrAdminDecision(current, data, shown)
  {
    var d := Effective(data, shown);
    if d.None? || d.value.organization.None? {
      return None;
    }
    var users := d.value.organization.value.users;
    var currentId := if current.Some? then Some(current.value.id) else None;
    var isEditorOrAdmin := false;
    var i := 0;
    while i < |users|
      invariant 0 <= i <= |users|
      invariant !isEditorOrAdmin
      invariant MembershipDecision(users, currentId) == MembershipDecision(users[i..], currentId)
    {
      assert users[i..][0] == users[i] && users[i..][1..] == users[i + 1..];
      if currentId == Some(users[i].id) {
        if users[i].capacity.None? {
          // `user['capacity']` raises a `KeyError`.
          return None;
        }
        if users[i].capacity.value in ["editor", "admin"] {
          isEditorOrAdmin := true;
          break;
        }
      }
      i := i + 1;
    }
    return Some(isEditorOrAdmin);
  }

  // ---------------------------------------------------------------------------
  // The actions

  /** `update_datarequest`: the creator may update the request, and so may an editor
      or admin of its organisation. */
  method UpdateDatarequest(context: AuthContext, current: Option<User>, data: RequestDict, shown: Option<RequestDict>)
    returns (r: Option<bool>)
    ensures AuthIfCreator(context, data, shown) == Some(true) ==> r == Some(true)
    ensures AuthIfCreator(context, data, shown).None? ==> r.None?
    ensures AuthIfCreator(context, data, shown) == Some(false) ==> r == EditorOrAdminDecision(current, data, shown)
  {
    var isCurrentCreator := AuthIfCreator(context, data, shown);
    if isCurrentCreator.None? {
      return None;
    }
    if isCurrentCreator.value {
      return isCurrentCreator;
    }
    r := AuthIfEditorOrAdmin(current, data, shown);
  }

  /** Updating is allowed exactly to the creator and to an editor or admin of the
      organisation, when every member entry of the acting user has a capacity. */
  lemma UpdateRule(context: AuthContext, current: Option<User>, data: RequestDict, shown: Option<RequestDict>)
    requires var d := Effective(data, shown);
      d.Some? && d.value.userId.Some? && d.value.organization.Some? && context.authUser.Some?
      && context.authUser.value.id != d.value.userId.value
      && CapacityKnown(d.value.organization.value.users, CurrentId(current))
    ensures var users := Effective(data, shown).value.organization.value.users;
      EditorOrAdminDecision(current, data, shown) ==
        Some(exists i :: 0 <= i < |users| && EditorOrAdminAt(users, CurrentId(current), i))
    ensures AuthIfCreator(context, data, shown) == Some(false)
  {
    MembershipDecisionMeaning(Effective(data, shown).value.organization.value.users, CurrentId(current));
  }

  /** `delete_datarequest`, `close_datarequest` and, with the comment's show action,
      `update_datarequest_comment` and `delete_datarequest_comment`: creator only. */
  function CreatorOnly(context: AuthContext, data: RequestDict, shown: Option<RequestDict>): (r: Option<bool>)
    ensures r == Some(true) <==>
      (context.authUser.Some? && Effective(data, shown).Some? &&
       Effective(data, shown).value.userId == Some(context.authUser.value.id))
  {
    AuthIfCreator(context, data, shown)
  }

  /** `list_datarequests`, `comment_datarequest`, `show_datarequest_comment`,
      `follow_datarequest` and `unfollow_datarequest` allow everybody; `purge_datarequests`
      allows nobody, sysadmins aside, who skip auth functions altogether. */
  datatype OpenAction = ListDatarequests | CommentDatarequest | ShowDatarequestComment | FollowDatarequest | UnfollowDatarequest

  function OpenActionAllowed(a: OpenAction): (r: bool)
    ensures r
  {
    match a
    case ListDatarequests => true
    case CommentDatarequest => true
    case ShowDatarequestComment => true
    case FollowDatarequest => true
    case UnfollowDatarequest => true
  }

  function PurgeDatarequests(): (r: bool)
    ensures !r
  {
    false
  }
}
