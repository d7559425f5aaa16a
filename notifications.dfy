/**
  Who is told about a data request: the administrators of its organisation, and
  everybody involved in the request.
 */
module Notifications {
  import opened Wrappers
  import opened Platform
  import Common
  import Db

  const NotifyAllMembers := "ckanext.datarequests.notify_all_members"

  /** Whether every member of the organisation is notified, `True` when not set. */
  predicate NotifyAll(config: Common.Config) {
    Common.GetConfigBoolValue(config, NotifyAllMembers, Common.Flag(true))
  }

  /** `_get_admin_users_from_organisation`: the members of the organisation who are
      notified, every member or only those whose capacity is `admin`. */
  function AdminUsers(config: Common.Config, org: Organization): (r: set<string>)
    ensures forall id :: id in r <==>
      exists i :: 0 <= i < |org.users| && org.users[i].id == id &&
        (NotifyAll(config) || org.users[i].capacity == Some("admin"))
  {
    if NotifyAll(config) then set i | 0 <= i < |org.users| :: org.users[i].id
    else set i | 0 <= i < |org.users| && org.users[i].capacity == Some("admin") :: org.users[i].id
  }

  /** The administrators are members; without the option set they are all members,
      and with it set to false they are exactly the members whose capacity is `admin`. */
  lemma AdminUsersAreMembers(config: Common.Config, org: Organization)
    ensures forall id :: id in AdminUsers(config, org) ==> exists i :: 0 <= i < |org.users| && org.users[i].id == id
    ensures NotifyAllMembers !in config ==>
      forall i :: 0 <= i < |org.users| ==> org.users[i].id in AdminUsers(config, org)
    ensures NotifyAllMembers in config && config[NotifyAllMembers] == Common.Flag(false) ==>
      forall i :: 0 <= i < |org.users| ==>
        (org.users[i].id in AdminUsers(config, org) <==>
         exists j :: 0 <= j < |org.users| && org.users[j].id == org.users[i].id && org.users[j].capacity == Some("admin"))
  {
  }

  /** The request as its dictionary describes it to the notifications: its identifier,
      its creator and its organisation (`None` when it has none or the lookup failed). */
  datatype RequestSummary = RequestSummary(id: string, userId: string, organization: Option<Organization>)

  /** The followers of the request: `[f.user_id for f in DataRequestFollower.get(datarequest_id=..)]`. */
  function FollowerIds(followers: seq<Db.Follower>, datarequestId: string): (r: set<string>)
    ensures forall u :: u in r <==>
      exists i :: 0 <= i < |followers| && followers[i].datarequestId == datarequestId && followers[i].userId == u
  {
    var following := Db.FollowersOfRequest(followers, datarequestId);
    var r := set f | f in following :: f.userId;
    assert forall u :: u in r ==> exists i :: 0 <= i < |followers| && followers[i].datarequestId == datarequestId && followers[i].userId == u by {
      forall u | u in r ensures exists i :: 0 <= i < |followers| && followers[i].datarequestId == datarequestId && followers[i].userId == u {
        var f :| f in following && f.userId == u;
        var k :| 0 <= k < |following| && following[k] == f;
        var i :| 0 <= i < |followers| && followers[i] == f;
      }
    }
    r
  }

  /** Everybody who commented on the request, read from the comment listing. */
  function CommenterIds(comments: seq<Db.Comment>, datarequestId: string): (r: set<string>)
    ensures forall u :: u in r <==>
      exists i :: 0 <= i < |comments| && comments[i].datarequestId == datarequestId && comments[i].userId == u
  {
    var commented := Db.CommentsOrderedByDate(comments, datarequestId, false);
    var r := set c | c in commented :: c.userId;
    assert forall u :: u in r ==> exists i :: 0 <= i < |comments| && comments[i].datarequestId == datarequestId && comments[i].userId == u by {
      forall u | u in r ensures exists i :: 0 <= i < |comments| && comments[i].datarequestId == datarequestId && comments[i].userId == u {
        var c :| c in commented && c.userId == u;
        var k :| 0 <= k < |commented| && commented[k] == c;
        var i :| 0 <= i < |comments| && comments[i] == c;
      }
    }
    r
  }

  /** The users told about the request: the creator, a follower, a commenter or a
      notified member of its organisation, but never the acting user `actorId`. */
  predicate Involved(config: Common.Config, request: RequestSummary, followers: seq<Db.Follower>,
                     comments: seq<Db.Comment>, actorId: string, u: string) {
    && u != actorId
    && (|| u == request.userId
        || (exists i :: 0 <= i < |followers| && followers[i].datarequestId == request.id && followers[i].userId == u)
        || (exists i :: 0 <= i < |comments| && comments[i].datarequestId == request.id && comments[i].userId == u)
        || (request.organization.Some? && u in AdminUsers(config, request.organization.value)))
  }

  /** `_get_datarequest_involved_users`: the creator, the followers, everybody who
      commented and the notified members of the organisation, except the acting user
      `actorId`. The comments are read through the comment listing, which raises on an
      empty request identifier. */
  method GetDatarequestInvolvedUsers(config: Common.Config, request: RequestSummary, followers: seq<Db.Follower>,
                                     comments: seq<Db.Comment>, actorId: string)
    returns (r: Option<set<string>>)
    ensures r.None? <==> request.id == ""
    ensures r.Some? ==> forall u :: u in r.value <==> Involved(config, request, followers, comments, actorId, u)
  {
    var users: set<string> := {};
    users := users + {request.userId};
    users := users + FollowerIds(followers, request.id);
    if request.id == "" {
      return None;
    }
    users := users + CommenterIds(comments, request.id);
    if request.organization.Some? {
      users := users + AdminUsers(config, request.organization.value);
    }
    users := users - {actorId};
    return Some(users);
  }
}
