# Data requests, modelled in Dafny

This project models the core of the CKAN data requests extension, a plugin that lets
users ask for data that is not yet published. A request has a creator and an
organisation, a status and a closed flag, an accepted dataset and open and close
times. Other users can comment on a request and follow it. The model covers:

- the actions that create, update, close and delete requests, comment on them, follow
  and unfollow them, list them with their facets and purge an account's requests;
- the creation throttle, a counter kept in a cache;
- who is told about a change;
- the form validators;
- the authorisation rules;
- the queries of the three tables;
- the template helpers and the configuration flag;
- the logic of the web pages: the error summary, the pager links, the posted forms
  and who may edit the status.

The model is split into modules:

| module | file | models |
|---|---|---|
| `Wrappers`, `Seqs`, `Text` | `wrappers.dfy`, `seqs.dfy`, `text.dfy` | `Option`; filtering, counting and stable sorting of rows; Python's `split`, `strip`, `join`, `lower`, `isalpha`, `int()`, `str()` and `html.escape` |
| `Common` | `common.dfy` | `get_config_bool_value` |
| `Db` | `db.dfy` | the three tables and their queries (`ckanext/datarequests/db.py`) |
| `Platform` | `platform.dfy` | what CKAN answers: datasets, organisations, members, validators, the profanity filter, site limits |
| `Helpers` | `helpers.dfy` | `ckanext/datarequests/helpers.py` |
| `Validator` | `validator.dfy` | `ckanext/datarequests/validator.py` |
| `Auth` | `auth.dfy` | `ckanext/datarequests/auth.py` |
| `Throttle` | `throttle.dfy` | `throttle_datarequest` and its cache |
| `Notifications` | `notifications.dfy` | `_get_admin_users_from_organisation`, `_get_datarequest_involved_users` |
| `Failures` | `failures.dfy` | the exceptions an action raises |
| `Listing` | `listing.dfy` | `list_datarequests`: paging and the two facets |
| `Actions` | `actions.dfy` | the other actions of `ckanext/datarequests/actions.py`, over a `Store` with the three tables |
| `Controller` | `controller.dfy` | `ckanext/datarequests/controllers/controller_functions.py` |

The source works in place in several spots, and the model keeps that form there:

- `validate_datarequest` fills an error dictionary (`Validator.ErrorDict`) and
  writes defaults back into the submitted data (`Validator.RequestData`).
- The actions change the tables of an `Actions.Store`.
- The throttle rewrites a `Throttle.Cache`.
- The loops of the source stay loops: the closing circumstances, the status label,
  who is involved and the facet counts. Each loop is proved against a function.

Elsewhere the model states properties of pure functions. The platform's answers
(`organization_show`, `package_show`, `group_id_exists`, `package_name_exists`, the
profanity filter) are fields of `Platform.Host`. The clock, the generated
identifiers, the result of `check_access` and the `yyyy-mm-dd` check are parameters.

Where the code and its documentation differ, the model follows the code:

- `list_datarequests` does not read the `requesting_organisation` value that the
  listing page puts in its data. So that value filters nothing
  (`Controller.RequestingOrganisationNotFiltered`).
- `validate_datarequest` neither reads `avoid_existing_title_check` nor calls
  `datarequest_exists`. So duplicate titles are accepted, and `Db.DatarequestExists`
  is modelled on its own.
- `auth.py`'s `show_datarequest` compares the request's `requesting_organisation`
  with the organisations the user may read. It does not compare the request's
  `organization_id`.
- `get_ordered_by_date` sorts with the database's `ORDER BY`, where rows that tie
  come in no promised order. The model sorts stably. Its contracts promise only the
  order of rows that do not tie, plus the permutation.

## Model

| member | source | states |
|---|---|---|
| Text.AlphaCount | ckanext/datarequests/validator.py:38 | the number of letters never exceeds the length of the text |
| Text.AlphaCountAppend | ckanext/datarequests/validator.py:38 | the letter count of a concatenation is the sum of the counts |
| Text.StripIdempotent | ckanext/datarequests/helpers.py:60-62 | stripping a stripped text changes nothing |
| Text.SplitLength | ckanext/datarequests/helpers.py:59-60 | `split` yields one more part than there are separators |
| Text.SplitPartsHaveNoSeparator | ckanext/datarequests/helpers.py:59-60 | no part of a `split` contains the separator |
| Text.JoinSplit | ckanext/datarequests/helpers.py:59-60 | joining the parts of a `split` with the separator gives back the text |
| Text.IntRoundTrip | ckanext/datarequests/controllers/controller_functions.py:72-78 | `int(str(i)) == i`: the page number a pager link sends reads back as that number |
| Text.ParseIntRejectsBlank | ckanext/datarequests/controllers/controller_functions.py:78 | an empty or blank page is not an integer, so the listing page aborts on it (lines 146-149) |
| Text.Escape | ckanext/datarequests/actions.py:158 | an escaped comment holds no `<`, `>` or quote characters and is no shorter than the original |
| Text.EscapePlainText | ckanext/datarequests/actions.py:158 | a comment without markup characters is stored as it was written |
| Common.GetConfigBoolValue | ckanext/datarequests/common.py:26-29 | the result is false exactly when the looked-up value is the boolean `False` or the text `False` |
| Common.ConfigBoolOfFlag | ckanext/datarequests/common.py:28 | a configured boolean is returned unchanged |
| Common.ConfigBoolOfText | ckanext/datarequests/common.py:28 | a configured text is true unless it is exactly `False`, so `false`, `0`, `no` and the empty text read as true |
| Common.ConfigBoolOfMissing | ckanext/datarequests/common.py:26-27 | an unset option reads as the default, which is false unless another default is given |
| Db.GetById | ckanext/datarequests/db.py:43-47 | exactly the rows with the identifier are returned |
| Db.CommentsById | ckanext/datarequests/db.py:113-117 | exactly the comments with the identifier are returned |
| Db.FollowersOf | ckanext/datarequests/db.py:136-140 | exactly the follower rows of that request and that user are returned |
| Db.FollowersOfRequest | ckanext/datarequests/db.py:136-140 | exactly the follower rows of that request are returned |
| Db.DatarequestExists | ckanext/datarequests/db.py:49-53 | true exactly when some row's lower-cased title equals the lower-cased title |
| Db.OpenDatarequestsNumber | ckanext/datarequests/db.py:105-108 | the count of rows not closed is at most the table size |
| Db.OpenNumberCountsOpenRows | ckanext/datarequests/db.py:105-108 | the open count is the number of open rows; it is positive exactly when a row is open and equals the table size exactly when none is closed |
| Db.FollowersNumber | ckanext/datarequests/db.py:142-147 | the follower count of a request is at most the number of follower rows |
| Db.FollowersNumberAppend | ckanext/datarequests/db.py:142-147 | storing a follower adds one to its own request's count and leaves every other count unchanged |
| Db.FollowersNumberPositive | ckanext/datarequests/db.py:142-147 | the follower count is positive exactly when some row names the request, and equals the number of its follower rows |
| Db.CommentsNumber | ckanext/datarequests/db.py:126-131 | the comment count of a request is at most the number of comments |
| Db.CommentsNumberAppend | ckanext/datarequests/db.py:126-131 | storing a comment adds one to its own request's count and leaves every other count unchanged |
| Db.ILikeAnything | ckanext/datarequests/db.py:74-76 | the pattern `%` matches every text |
| Db.ILikePrefix | ckanext/datarequests/db.py:74-76 | for a text without pattern characters `q`, the pattern `q%` matches exactly the texts that start with `q`, ignoring case |
| Db.ILikeLeadingPercent | ckanext/datarequests/db.py:74-76 | a pattern `%r` matches exactly when `r` matches some suffix |
| Db.MatchAtIsOccurrence | ckanext/datarequests/db.py:74-76 | for a search text without `%`, `_` or `\`, `q%` matches the suffix from `k` exactly when `q` occurs at `k`, ignoring case |
| Db.SearchIsCaseInsensitiveContains | ckanext/datarequests/db.py:74-76 | for a search text without `%`, `_` or `\`, the search pattern `%q%` matches exactly the texts that contain `q`, ignoring case |
| Db.TextFilterIsSubstringSearch | ckanext/datarequests/db.py:74-76 | for a search text without `%`, `_` or `\`, a row passes the free-text filter exactly when its title or its description contains the search text, ignoring case |
| Db.GetOrderedByDate | ckanext/datarequests/db.py:55-103 | the result is a permutation of the selected rows: every listed row is in the table and selected, and every selected row is listed |
| Db.ListOrderTotalPreorder | ckanext/datarequests/db.py:94-101 | the listing order is total and transitive |
| Db.GetOrderedByDateOrder | ckanext/datarequests/db.py:80-101 | the current user's own requests come first, and each run of equally pinned requests is ordered by open time, ascending or descending as asked |
| Db.AnonymousOrderIsByOpenTime | ckanext/datarequests/db.py:91-101 | with no current user the whole result is ordered by open time |
| Db.RestrictedToReadableOrgs | ckanext/datarequests/db.py:82-89 | a user who is not a sysadmin and gives no organisation only gets requests of organisations they may read |
| Db.CommentsOrderedByDate | ckanext/datarequests/db.py:119-124 | the result is a permutation of the request's comments: every listed comment belongs to the request and every comment of the request is listed |
| Db.CommentsOrderedByDateOrder | ckanext/datarequests/db.py:119-124 | the comments come in time order, oldest first unless descending order is asked for |
| Db.NewDataRequest | ckanext/datarequests/db.py:153-172 | a new row has the generated identifier, is open, has status `Assigned`, and has no organisation, open time, close time or accepted dataset |
| Helpers.ParseClosingCircumstance | ckanext/datarequests/helpers.py:60-62 | a line that does not hold exactly one `\|` gets the empty condition |
| Helpers.ParsedCircumstanceIsClean | ckanext/datarequests/helpers.py:60-62 | the circumstance and the condition hold no `\|` and have no surrounding whitespace |
| Helpers.CircumstanceWithoutCondition | ckanext/datarequests/helpers.py:60-62 | a line without `\|` is all circumstance, stripped, with the empty condition |
| Helpers.CircumstanceWithCondition | ckanext/datarequests/helpers.py:60-62 | a line `a\|b` gives the circumstance `a` and the condition `b`, each stripped |
| Helpers.SplitOfPair | ckanext/datarequests/helpers.py:60 | splitting `a\|b` on `\|` gives exactly `a` and `b` |
| Helpers.GetClosingCircumstances | ckanext/datarequests/helpers.py:52-65 | one parsed entry for each line of the configured text, in order, blank lines included |
| Helpers.ClosingCircumstancesFollowLines | ckanext/datarequests/helpers.py:59 | there is one more line than there are line breaks, and the lines joined with line breaks give the configured text back |
| Helpers.NoClosingCircumstancesConfigured | ckanext/datarequests/helpers.py:59-63 | an unset option gives a single entry with empty circumstance and condition |
| Helpers.StatusValues | ckanext/datarequests/helpers.py:76-83 | the values of the status list, in its order |
| Helpers.StatusListShape | ckanext/datarequests/helpers.py:76-83 | five distinct values, each shown as itself, labelled `closed` exactly for the two final ones and `open` otherwise, `Assigned` among them |
| Helpers.GetStatusLabel | ckanext/datarequests/helpers.py:86-93 | a known status gives its list entry, and any other status gives the default label `open`/`Assigned` |
| Helpers.OpenDatarequestsBadge | ckanext/datarequests/helpers.py:43-49 | no badge exactly when it is not asked for; otherwise the badge shows the open count |
| Helpers.IsFollowingDatarequest | ckanext/datarequests/helpers.py:39-40 | true exactly when some follower row pairs the request with the user |
| Auth.AsBool | ckanext/datarequests/auth.py:30 | a boolean reads as itself; a text reads as true or false exactly when, stripped and lower-cased, it is one of the true or false spellings, and raises otherwise |
| Auth.CreateRule | ckanext/datarequests/auth.py:28-41 | without the setting anybody may create; with a false spelling only members of some organisation may; an unknown spelling raises |
| Auth.DefaultReadsTrue | ckanext/datarequests/auth.py:30 | the default text `True` reads as true |
| Auth.ShowDatarequest | ckanext/datarequests/auth.py:44-56 | a sysadmin is always allowed |
| Auth.ShowRule | ckanext/datarequests/auth.py:47-54 | for anybody else the decision raises exactly when no request has the identifier, and otherwise allows exactly when the first such request's requesting organisation is readable |
| Auth.FirstById | ckanext/datarequests/auth.py:48-49 | the row the lookup finds first is the first row with the identifier |
| Auth.ListDatarequestComments | ckanext/datarequests/auth.py:109-112 | the decision of the show rule for the request; a missing request identifier raises |
| Auth.AuthIfCreator | ckanext/datarequests/auth.py:59-65 | allowed exactly when the dictionary in force names the acting user as creator; raises exactly when the show action raises, there is no creator, or there is no user object |
| Auth.MembershipDecisionMeaning | ckanext/datarequests/auth.py:74-81 | true only when some member is the acting user with capacity editor or admin, and, when every matching member has a capacity, true exactly then |
| Auth.AuthIfEditorOrAdmin | ckanext/datarequests/auth.py:68-81 | the loop with its flag and `break` gives the membership decision over the organisation's members, raising when the show action does or there is no organisation |
| Auth.UpdateDatarequest | ckanext/datarequests/auth.py:84-89 | the creator is allowed; otherwise the answer is the editor-or-admin decision; a raising creator check raises |
| Auth.UpdateRule | ckanext/datarequests/auth.py:84-89 | for a user who is not the creator, updating is allowed exactly when they are an editor or admin member of the organisation |
| Auth.CreatorOnly | ckanext/datarequests/auth.py:97-102 | delete, close and the comment update and delete (also lines 120-125) are allowed exactly to the creator |
| Auth.OpenActionAllowed | ckanext/datarequests/auth.py:92-94 | listing (and, at lines 105-106, 115-117 and 128-133, commenting, showing a comment, following and unfollowing) is always allowed |
| Auth.PurgeDatarequests | ckanext/datarequests/auth.py:136-138 | purging is never allowed |
| Throttle.Cache.Get | ckanext/datarequests/actions.py:224 | a value is returned exactly when one is stored under the key and has not expired, and it is the stored value |
| Throttle.Cache.Set | ckanext/datarequests/actions.py:238 | a positive expiry stores the value under the key until `now + ex`; a non-positive one is refused and changes nothing |
| Throttle.Verdict | ckanext/datarequests/actions.py:215-240 | a privileged account passes; an unprivileged one passes with no earlier attempt and is refused with `5 * attempts` minutes otherwise |
| Throttle.ThrottleDatarequest | ckanext/datarequests/actions.py:210-240 | a privileged account passes and the cache is unchanged; otherwise the answer and the new cache are those of the counter read under the account's key |
| Throttle.ReadAttempts | ckanext/datarequests/actions.py:219-227 | the counter visible under the key, 0 when missing, empty or not a number |
| Throttle.RecordAttempt | ckanext/datarequests/actions.py:229-240 | the raised counter is stored with its expiry and the account is refused exactly when it had attempts before |
| Throttle.UnprivilegedOutcome | ckanext/datarequests/actions.py:229-240 | the raised counter is stored under the key and is still visible now, the account is refused exactly when it had attempts, and the minutes reported times 60 are the expiry |
| Throttle.ExpiryRule | ckanext/datarequests/actions.py:229-240 | the expiry is 300 seconds for a first attempt and `attempts * 300` otherwise, a whole number of minutes the message reports exactly, and positive for a non-negative counter |
| Throttle.CounterIsCapped | ckanext/datarequests/actions.py:237 | the counter grows by one below 100 and stays put from 100 on, so starting at or below 100 it never passes 100 |
| Throttle.CounterReadsBack | ckanext/datarequests/actions.py:224-238 | the stored counter reads back as the same number |
| Throttle.MissingCounterIsZero | ckanext/datarequests/actions.py:223-227 | a missing or empty counter, or one that is not a number, reads as 0 |
| Throttle.NextAttemptIsThrottled | ckanext/datarequests/actions.py:229-240 | an account that tries again before its counter expires reads the raised counter, between 1 and 100, and is told to wait five minutes per attempt |
| Notifications.AdminUsers | ckanext/datarequests/actions.py:202-207 | an identifier is notified exactly when it is a member's, and the member is an `admin` or every member is notified |
| Notifications.AdminUsersAreMembers | ckanext/datarequests/actions.py:203-207 | the notified are members; with the option unset every member is notified, and with it false exactly the `admin` members |
| Notifications.FollowerIds | ckanext/datarequests/actions.py:170 | exactly the users with a follower row for the request |
| Notifications.CommenterIds | ckanext/datarequests/actions.py:171 | exactly the users who commented on the request |
| Notifications.GetDatarequestInvolvedUsers | ckanext/datarequests/actions.py:162-180 | the set is the creator, the followers, the commenters and the notified organisation members, without the acting user; an empty request identifier makes the comment listing raise |
| Listing.OrgKeys | ckanext/datarequests/actions.py:512-517 | the organisation dictionary's keys: no key twice, and exactly the non-empty organisations of the rows |
| Listing.OrgCountSnoc | ckanext/datarequests/actions.py:517 | one more row adds one to its own organisation's count and leaves the others |
| Listing.OrgCountOfNewKey | ckanext/datarequests/actions.py:517 | an organisation not yet a key has no rows so far, which is what `get(organization_id, 0)` reads |
| Listing.OrgTallyStep | ckanext/datarequests/actions.py:516-517 | counting a row with an organisation keeps the keys and counts those of the rows so far |
| Listing.OrgTallySkip | ckanext/datarequests/actions.py:516 | a row without an organisation leaves the keys and counts as they were |
| Listing.CountOrganizations | ckanext/datarequests/actions.py:504-517 | the keys are the rows' organisations in order of first appearance, and each count is the number of rows of that organisation |
| Listing.FormatOrganizationFacet | ckanext/datarequests/actions.py:523-533 | one entry per key in key order, with name, display name and count, skipping organisations the platform cannot show |
| Listing.OrgItemsMeaning | ckanext/datarequests/actions.py:523-533 | every entry is a key the platform shows with its row count, which is positive, and every such key has its entry |
| Listing.OrgKeysCounted | ckanext/datarequests/actions.py:516-517 | every organisation key has at least one row |
| Listing.FacetStatusesAreStatusList | ckanext/datarequests/actions.py:505-511 | the statuses the facet counts are the status list's values in its order |
| Listing.StatusCountSnoc | ckanext/datarequests/actions.py:519-520 | one more row adds one to its own status's count and leaves the others |
| Listing.CountStatuses | ckanext/datarequests/actions.py:505-520 | the dictionary has exactly the five known statuses, each with its number of rows; other statuses are not counted |
| Listing.FormatStatusFacet | ckanext/datarequests/actions.py:535-542 | the entries are the known statuses with rows, in dictionary order, each shown with its count |
| Listing.StatusItemsNames | ckanext/datarequests/actions.py:535-542 | the entries' names are exactly the statuses with rows, in the facet's order |
| Listing.StatusItemsCounts | ckanext/datarequests/actions.py:537-542 | each entry is a known status, displayed as itself, with its row count, which is positive |
| Listing.StatusFacetBounded | ckanext/datarequests/actions.py:519-520 | a status count is at most the number of rows, and positive exactly when some row has that status |
| Listing.NonEmpty | ckanext/datarequests/actions.py:550-555 | a facet is present exactly when it has entries, and then holds them |
| Listing.ListPage | ckanext/datarequests/actions.py:496-557 | the result holds the number of ordered rows, the slice `[offset:offset + limit]` and both facets |
| Listing.ListDatarequests | ckanext/datarequests/actions.py:461-557 | a refused access check fails; an organisation or user the platform cannot find fails; otherwise the paged result of the ordered rows for the resolved filters, never filtered by `closed`, descending only for `sort == 'desc'` |
| Listing.ListingMeaning | ckanext/datarequests/actions.py:498-555 | the count is the number of selected rows, the page is at most `limit` rows from `offset` on, and a facet is only present with entries |
| Listing.StatusFacetPresent | ckanext/datarequests/actions.py:535-555 | the status facet is present exactly when some row has a known status |
| Listing.StatusItemsPresent | ckanext/datarequests/actions.py:535-542 | there are entries exactly when some row has one of the statuses |
| Listing.KnownStatusNamed | ckanext/datarequests/actions.py:519-537 | a row with a known status makes that status one with rows |
| Listing.NamedStatusHasRow | ckanext/datarequests/actions.py:519-537 | a status with rows has a row with that status |
| Listing.OrganizationFacetMeaning | ckanext/datarequests/actions.py:512-533 | each organisation entry belongs to an organisation of the rows that the platform shows and gives its number of rows; each such organisation has its entry |
| Listing.StatusFacetMeaning | ckanext/datarequests/actions.py:505-542 | the status entries are the known statuses with rows in the facet's order, each displayed as itself with its positive count |
| Actions.OrNone | ckanext/datarequests/actions.py:127 | `value or None` keeps a truthy value and gives `None` for an empty or missing one |
| Actions.UndictizeDatarequestBasic | ckanext/datarequests/actions.py:123-136 | the copy succeeds exactly when every key read with `data_dict[key]` is present with a text; a missing key raises `KeyError`, while a key present with `None` would store NULL, which the model does not represent (unreachable after validation, see `AcceptedFormIsStorable`) |
| Actions.UndictizeMeaning | ckanext/datarequests/actions.py:123-142 | the copied row holds each form value, an empty organisation as `None`, keeps identity, creator, times, closed flag and accepted dataset, and changes the closing circumstance and date only when closing circumstances are enabled |
| Actions.AcceptedFormIsStorable | ckanext/datarequests/actions.py:275-288 | data the validator accepts, once its defaults are written back, can always be copied into a row |
| Actions.AcceptedTexts | ckanext/datarequests/validator.py:42-176 | accepted data has a non-empty text for every field with a presence rule and a resolved status |
| Actions.TextKept | ckanext/datarequests/actions.py:123-136 | a key the validator does not write back keeps its submitted text |
| Actions.Created | ckanext/datarequests/actions.py:282-288 | the new row exists exactly when the data is storable, and then has the fresh identifier, the creator, the open time, is open and has no close time nor accepted dataset |
| Actions.Closed | ckanext/datarequests/actions.py:638-644 | the closed row is closed at the given time, has the accepted dataset of the form (`None` for an empty one), and keeps identity, creator, title, status, organisation and open time |
| Actions.OrganizationMail | ckanext/datarequests/actions.py:292-296 | no mail without an organisation; otherwise one mail whose recipients are exactly the organisation's notified members other than the actor |
| Actions.IndexOf | ckanext/datarequests/actions.py:328-332 | the index found holds the identifier and no earlier row does; there is none exactly when no row has the identifier |
| Actions.CommentIndex | ckanext/datarequests/actions.py:730-732 | the index found holds the comment identifier and no earlier comment does; none exactly when no comment has it (both tables use the one `FirstIndex` over their identifiers) |
| Actions.FollowIndex | ckanext/datarequests/actions.py:901-902 | the index found is a follower row of the user for the request; none exactly when no such row exists |
| Actions.IndexOfIsFirstFound | ckanext/datarequests/actions.py:328-332 | `DataRequest.get(id=..)` is empty exactly when `IndexOf` finds nothing, and its first row is the row at that index |
| Actions.CommentIndexIsFirstFound | ckanext/datarequests/actions.py:730-734 | `Comment.get(id=..)` is empty exactly when `CommentIndex` finds nothing, and its first comment is the one at that index |
| Actions.AppendFreshKeepsUnique | ckanext/datarequests/actions.py:282-289 | adding a row with a new, non-empty identifier keeps request identifiers unique |
| Actions.ReplaceById | ckanext/datarequests/actions.py:395-398 | replacing a row by identifier keeps the table's size |
| Actions.ReplaceAtIndex | ckanext/datarequests/actions.py:395-398 | with unique identifiers, updating the row at the found index is replacing the one row with that identifier, and identifiers stay unique |
| Actions.RemoveFirstMeaning | ckanext/datarequests/actions.py:586-592 | deleting the first row of an identifier keeps identifiers unique, keeps exactly the rows with other identifiers and shrinks the table by one exactly when the identifier was there |
| Actions.RemoveAtMeaning | ckanext/datarequests/actions.py:590-592 | deleting the row at an index keeps identifiers unique and keeps exactly the rows with another identifier |
| Actions.RemoveAllMeaning | ckanext/datarequests/actions.py:963-964 | deleting a sequence of identifiers one after the other keeps exactly the rows whose identifier is not among them |
| Actions.Ids | ckanext/datarequests/actions.py:963-964 | the identifiers of the listed requests, position by position |
| Actions.FollowsAppend | ckanext/datarequests/actions.py:906-912 | storing a new follower adds exactly its (request, user) pair and keeps each pair unique |
| Actions.FollowsRemove | ckanext/datarequests/actions.py:948-951 | deleting the follower row of a pair removes exactly that pair and keeps pairs unique |
| Actions.FilterKeepsUniqueIds | ckanext/datarequests/db.py:55-103 | selecting rows from a table with unique identifiers keeps them unique |
| Actions.OrderedIdsDistinct | ckanext/datarequests/db.py:55-103 | the ordered selection the listing pages through holds each request at most once |
| Actions.ShowDatarequest | ckanext/datarequests/actions.py:301-335 | a missing or empty identifier fails first, then a failed access check, then not found exactly when no row has the identifier; otherwise the first row with it |
| Actions.ShownForComment | ckanext/datarequests/validator.py:210-213 | the comment validator gets a request exactly when `show_datarequest` succeeds, and it is a row with that identifier |
| Actions.ShowDatarequestComment | ckanext/datarequests/actions.py:706-734 | a missing or empty identifier fails first, then access, then not found exactly when no comment has the identifier; a found comment is in the table with that identifier |
| Actions.ListDatarequestComments | ckanext/datarequests/actions.py:737-785 | missing identifier and failed access fail; otherwise always succeeds with exactly the request's comments (as a multiset), oldest first, newest first only for the sort `desc` |
| Actions.Store.CreateDatarequest | ckanext/datarequests/actions.py:243-298 | access, then the `TypeError` of unreadable data, then validation errors, then the throttle verdict decide the outcome; data written back by the validator; on success exactly one row appended with the submitted values and one mail to the organisation's members except the creator; comments and followers unchanged; table invariants kept |
| Actions.Store.ThrottledCreation | ckanext/datarequests/actions.py:278-296 | the throttle counter is updated as the throttle says; throttled or failed store leaves the table alone, otherwise the created row is appended and mailed about |
| Actions.Store.AppendCreated | ckanext/datarequests/actions.py:282-296 | appends exactly the created row and returns the mail to the organisation's members except the creator |
| Actions.Store.UpdateDatarequest | ckanext/datarequests/actions.py:338-416 | missing identifier, access, not found change nothing; a missing title or unreadable data crash, validation errors are returned; otherwise the one row is replaced by the copied values, and with `notify_on_update` and a changed organisation the new then the old organisation are mailed, crashing after the commit when the old organisation cannot be shown |
| Actions.Store.DeleteDatarequest | ckanext/datarequests/actions.py:560-594 | fails exactly as `show_datarequest` would; a success removes the first row with the identifier and nothing else, leaving its comments and followers |
| Actions.Store.CloseDatarequest | ckanext/datarequests/actions.py:597-656 | identifier, access and lookup failures first, then the closing validation as written (`Validator.ValidateClosingAsWritten`): its raise is a crash, so a missing date fails the call and a missing accepted dataset closes the request; then an already closed request is refused; otherwise the row is replaced by its closed form and one mail goes to exactly the involved users; any failure changes nothing |
| Actions.Store.CloseDatarequestIntended | ckanext/datarequests/actions.py:597-656 | the same steps with the corrected closing validation: the call never crashes, and a missing accepted dataset or date is refused |
| Actions.Store.CommentDatarequest | ckanext/datarequests/actions.py:659-703 | identifier and access failures, the not-found error of the validator, the crash on a `None` comment, comment errors; otherwise exactly one comment with the escaped text, the actor and the time is appended and one mail goes to exactly the involved users |
| Actions.Store.UpdateDatarequestComment | ckanext/datarequests/actions.py:788-830 | identifier, access, not found exactly when no comment has the identifier, then the validator's outcome; on success only that comment changes, to the escaped text and the form's request identifier |
| Actions.Store.DeleteDatarequestComment | ckanext/datarequests/actions.py:833-866 | fails exactly as `show_datarequest_comment` would; a success removes exactly the found comment |
| Actions.Store.FollowDatarequest | ckanext/datarequests/actions.py:869-914 | identifier, access, unknown request and already following are refused without change; otherwise one follower row is appended and the followed pairs grow by exactly that pair |
| Actions.Store.UnfollowDatarequest | ckanext/datarequests/actions.py:917-953 | identifier and access failures; a user not following is refused; otherwise the first row of the pair (`FollowIndex`) is deleted, the other rows keeping their order, identifiers and times, and exactly the pair leaves the follower pairs |
| Actions.Store.DeleteEach | ckanext/datarequests/actions.py:963-964 | a completed purge loop leaves the table with every listed identifier deleted; with distinct identifiers that all exist the loop always completes |
| Actions.Store.PurgeDatarequestsAsWritten | ckanext/datarequests/actions.py:956-966 | the purge as written: access, then the listing's failure, otherwise exactly the requests on the listed page are deleted |
| Actions.Store.PurgeDatarequests | ckanext/datarequests/actions.py:956-966 | the purge as intended: access or an unknown organisation or user fail without change; otherwise the table keeps exactly the requests the listing does not select |
| Actions.ListingEverything | ckanext/datarequests/actions.py:544-555 | listing from offset 0 with a limit as large as the table returns the whole ordered selection |
| Actions.StillPresent | ckanext/datarequests/actions.py:963-964 | deleting one of a list of distinct existing identifiers leaves the rows of the later identifiers in place |
| Actions.PageIdsPresent | ckanext/datarequests/actions.py:962-964 | each request on a listed page is a row of the table, and the page has no identifier twice |
| Actions.SelectionPageIds | ckanext/datarequests/actions.py:544-555 | any slice of the ordered selection has distinct identifiers, each found in the table |
| Actions.ListedPage | ckanext/datarequests/actions.py:544-555 | the listed page is the slice of the ordered selection given by the offset and the limit (the page size by default) |
| Actions.SliceKeepsIds | ckanext/datarequests/actions.py:544-555 | a Python slice of distinct requests is distinct and taken from the sliced sequence |
| Actions.PurgeAsWrittenLeavesRequests | ckanext/datarequests/actions.py:956-966 | with no offset or limit and more selected requests than a page holds, a selected request survives the purge as written |
| Actions.PurgeRemovesEverySelected | ckanext/datarequests/actions.py:956-966 | deleting the identifiers of the whole ordered selection keeps exactly the unselected requests |
| Actions.SelectedIdListed | ckanext/datarequests/db.py:55-103 | with unique identifiers, a row's identifier is in the ordered selection exactly when the row is selected |
| Validator.LabelsDistinct | ckanext/datarequests/validator.py:54-168 | the fields are reported under pairwise different names, so a dictionary keyed by field is one keyed by name |
| Validator.WithMessage | ckanext/datarequests/validator.py:30-34 | `_add_error` appends the message at the end of the field's list (starting the list when absent) and changes no other field |
| Validator.WithMessageKeepsMessages | ckanext/datarequests/validator.py:30-34 | adding a message never loses one, and the new message is found under its field |
| Validator.ErrorDict.Add | ckanext/datarequests/validator.py:30-34 | the dictionary afterwards is exactly `WithMessage` of the one before |
| Validator.RequestData.Set | ckanext/datarequests/validator.py:67 | `request_data[key] = value` changes that key only |
| Validator.HasAlphaCharsProperties | ckanext/datarequests/validator.py:37-39 | the letter count is additive over concatenation, `n` letters need at least `n` characters, and zero letters are always enough |
| Validator.DatarequestErrors | ckanext/datarequests/validator.py:42-176 | the error dictionary holds, for every field, exactly the messages of its rules in the source's order, and no field without messages |
| Validator.StagedMessages | ckanext/datarequests/validator.py:42-173 | after the first `k` fields are checked, exactly those fields carry their messages |
| Validator.ValidationResult | ckanext/datarequests/validator.py:175-176 | the validation raises exactly when some message was recorded, with that dictionary |
| Validator.NoMessagesIffRuleHolds | ckanext/datarequests/validator.py:52-173 | a field gets no message exactly when its rule, stated independently of the message order, holds |
| Validator.ValidateDatarequestAccepts | ckanext/datarequests/validator.py:42-176 | `validate_datarequest` accepts exactly the data that meets every field rule |
| Validator.TitleMessages | ckanext/datarequests/validator.py:83-108 | the title gets the empty, too-long and profanity messages each exactly when its rule fails, at most two at once |
| Validator.DescriptionBaseMessages | ckanext/datarequests/validator.py:94-103 | the description's empty, too-long and not-alphabetical messages each exactly when that rule fails; an empty description gets only the first |
| Validator.DescriptionMessages | ckanext/datarequests/validator.py:94-110 | the profanity message of the description appears exactly when the filter rejects it and none of its other rules fired |
| Validator.StatusMessages | ckanext/datarequests/validator.py:165-173 | an unlisted status is reported as not valid; an empty one is reported both as empty and as not valid |
| Validator.StatusDefaultsToAssigned | ckanext/datarequests/validator.py:166-167 | without a status the data is written back with `Assigned`, which draws no status message |
| Validator.DatasetWithoutOrganization | ckanext/datarequests/validator.py:58-70 | a requested dataset without an organisation is reported as not found, still gives its title as the default, and leaves the organisation empty |
| Validator.WrittenBackResolvesSame | ckanext/datarequests/validator.py:66-67 | writing back the organisation, title and status changes nothing the rules read |
| Validator.WrittenBackIsStable | ckanext/datarequests/validator.py:42-176 | validating the written-back data again writes nothing new and yields the same dictionary |
| Validator.WrittenBackSameMessages | ckanext/datarequests/validator.py:42-173 | every field of the written-back data has the messages it had before |
| Validator.WrittenBackKeeps | ckanext/datarequests/validator.py:67-167 | write-back touches only the organisation, the title and the status |
| Validator.CheckRequestedDataset | ckanext/datarequests/validator.py:52-63 | records exactly the requested-dataset messages and returns the dataset's title and organisation as defaults, the title even when the organisation is missing |
| Validator.CheckOrganization | ckanext/datarequests/validator.py:65-76 | records exactly the organisation messages |
| Validator.CheckTitle | ckanext/datarequests/validator.py:83-91 | records exactly the title's length and presence messages, in that order |
| Validator.CheckDescription | ckanext/datarequests/validator.py:93-103 | records exactly the description's presence, length and letter messages, in that order |
| Validator.CheckProfanity | ckanext/datarequests/validator.py:105-110 | adds the profanity messages after both fields' rules, the description's only when it has no message yet |
| Validator.CheckRequired | ckanext/datarequests/validator.py:112-116 | a required field gets `cannot be empty` exactly when it is not given |
| Validator.CheckAlphabetical | ckanext/datarequests/validator.py:118-125 | a required field gets `cannot be empty` when not given, otherwise the letters message when it has fewer than two letters |
| Validator.CheckRequestingOrganisation | ckanext/datarequests/validator.py:127-138 | records exactly the requesting organisation's presence and known-group messages |
| Validator.CheckStatus | ckanext/datarequests/validator.py:168-173 | records exactly the status's presence and listed-value messages |
| Validator.CheckHiddenFields | ckanext/datarequests/validator.py:48-76 | after the hidden fields, the organisation is written back and the first two fields' messages are recorded |
| Validator.CheckVisibleFields | ckanext/datarequests/validator.py:82-110 | after the visible fields, the title is written back and the first four fields' messages are recorded |
| Validator.CheckAccessFields | ckanext/datarequests/validator.py:112-125 | after the usage fields, the first six fields' messages are recorded |
| Validator.CheckRequesterFields | ckanext/datarequests/validator.py:127-147 | after the requester fields, the first eight fields' messages are recorded |
| Validator.CheckOutputFields | ckanext/datarequests/validator.py:149-162 | after the output fields, the first ten fields' messages are recorded |
| Validator.CheckStatusField | ckanext/datarequests/validator.py:164-173 | after the status, all defaults are written back and every field's messages are recorded |
| Validator.WithTitleKeepsOthers | ckanext/datarequests/validator.py:67-84 | writing the organisation and title back leaves every other key as submitted |
| Validator.AccessMessages | ckanext/datarequests/validator.py:112-125 | the usage fields read the same from the partly written-back data as from the submitted data |
| Validator.RequesterMessages | ckanext/datarequests/validator.py:127-147 | the requester fields read the same from the partly written-back data as from the submitted data |
| Validator.OutputMessages | ckanext/datarequests/validator.py:149-162 | the output fields read the same from the partly written-back data as from the submitted data |
| Validator.ValidateDatarequest | ckanext/datarequests/validator.py:42-176 | the submitted data ends with its defaults written back, and the outcome is a rejection with exactly the dictionary of every failed rule, acceptance otherwise |
| Validator.AcceptedDatasetCheck | ckanext/datarequests/validator.py:198-203 | an accepted dataset that is given must exist; never crashes |
| Validator.NominateWithoutDatasetPasses | ckanext/datarequests/validator.py:186-187 | as written, nominating a dataset with the accepted dataset posted as `None` passes the closing validation |
| Validator.NominateWithoutDateCrashes | ckanext/datarequests/validator.py:188-196 | as written, nominating a date with the date posted as `None` raises a `TypeError` rather than a `ValidationError` |
| Validator.ValidateClosingAsWritten | ckanext/datarequests/validator.py:179-203 | the closing validation as written raises exactly when circumstances are enabled, a circumstance is given, the condition is `nominate_approximate_date` and the date is missing |
| Validator.ValidateClosing | ckanext/datarequests/validator.py:179-203 | the corrected closing validation never crashes |
| Validator.ValidateClosingMeaning | ckanext/datarequests/validator.py:179-203 | the corrected closing validation accepts exactly the data meeting every closing rule, and a rejection names one field with one message |
| Validator.ClosingVersionsAgree | ckanext/datarequests/validator.py:179-203 | with the accepted dataset and the date present as texts, the as-written and the corrected validation agree |
| Validator.CommentMessages | ckanext/datarequests/validator.py:215-224 | a comment passes exactly when non-empty, within the limit and not profane, each message exactly when its rule fails |
| Validator.CheckComment | ckanext/datarequests/validator.py:215-224 | records exactly the comment's messages, under the comment field only |
| Validator.ValidateComment | ckanext/datarequests/validator.py:206-229 | an unknown or missing data request is reported first; then a `None` comment crashes, failed comment rules raise with their messages, else the found request is returned |
| Controller.FirstParam | ckanext/datarequests/controllers/controller_functions.py:78-97 | the first value sent for a name, the default when it was not sent |
| Controller.GetErrorsSummary | ckanext/datarequests/controllers/controller_functions.py:22-28 | the summary has exactly the keys of the error dictionary, each mapped to its messages joined by `, ` |
| Controller.SummarySplitsBack | ckanext/datarequests/controllers/controller_functions.py:22-28 | when no message holds a comma, splitting a summary line at commas gives the messages back (each after the first with its leading space) |
| Controller.EncodeParams | ckanext/datarequests/controllers/controller_functions.py:31-33 | encoding keeps the number, order and names of the parameters |
| Controller.EncodedValueReadsBack | ckanext/datarequests/controllers/controller_functions.py:31-33 | an encoded text is that text, and an encoded integer parses back to the integer |
| Controller.PagerParams | ckanext/datarequests/controllers/controller_functions.py:62-74 | `q` only when non-empty, `status` only when not `None`, then always `sort` and `page` last, in that order |
| Controller.QueryOf | ckanext/datarequests/controllers/controller_functions.py:78-97 | a link's parameters as the page reads them: exactly the names the link sends |
| Controller.PageNumber | ckanext/datarequests/controllers/controller_functions.py:78 | the page is 1 when not sent and fails (the 400 abort of lines 146-149) exactly when the sent page is not an integer |
| Controller.NormalisedSort | ckanext/datarequests/controllers/controller_functions.py:97-98 | the sort is `asc` or `desc`, and `asc` exactly when `asc` was asked for |
| Controller.ShowIndexRequest | ckanext/datarequests/controllers/controller_functions.py:76-103 | aborts exactly for a non-integer page; otherwise offset `(page - 1) * perPage`, limit `perPage`, the normalised sort, and the status, search text and user only when non-empty |
| Controller.PagerRoundTrip | ckanext/datarequests/controllers/controller_functions.py:62-116 | assuming the template passes the search text to the pager (the bound `pager_url` at line 116 carries only status and sort), following a pager link gives the same filters and sort and the window of the linked page |
| Controller.PagerLinkReads | ckanext/datarequests/controllers/controller_functions.py:62-74 | a pager link read back gives its search text, status, sort and page number |
| Controller.RequestingOrganisationNotFiltered | ckanext/datarequests/controllers/controller_functions.py:91-92 | the requesting organisation passed to the listing page changes nothing in the listing's parameters |
| Controller.PostedForm | ckanext/datarequests/controllers/controller_functions.py:160-178 | no data exactly when nothing was posted; otherwise every text field with the empty default, the status defaulting to `Assigned`, the requested dataset defaulting to `None`, and `id` exactly for an update |
| Controller.PostedFormIsStorable | ckanext/datarequests/controllers/controller_functions.py:160-182 | posted data can always be read by the validator, has a title, and once its defaults are written back can be stored |
| Controller.PostedTextKept | ckanext/datarequests/controllers/controller_functions.py:164-173 | a posted text the validator does not write back is still a text afterwards |
| Controller.ClosingForm | ckanext/datarequests/controllers/controller_functions.py:392-400 | no data exactly when nothing was posted; otherwise the identifier, the accepted dataset defaulting to `None`, and the circumstance, date and condition exactly when closing circumstances are enabled |
| Controller.ClosingWithoutDataset | ckanext/datarequests/controllers/controller_functions.py:392-402 | the close page nominating a dataset without choosing one posts `None`, which the closing validator lets through as written and rejects as intended |
| Controller.AccessToStatusField | ckanext/datarequests/controllers/controller_functions.py:283-300 | true for a sysadmin or an editor or admin member of the request's organisation; a crash exactly when the walk meets the user's member entry without a capacity |

## Left out

- Translation: `tk._` is taken as the identity, both for the status facet's `display_name` (actions.py:540) and for the validator's messages; the translation catalogues are not part of this model.
- Mail: `_send_mail`, the templates and the job queue are left out. The model computes each mail's template and recipient set only (`Actions.Mail`).
- Redis: the connection and its clock are left out. The throttle's cache is a `Throttle.Cache` of values with an expiry time. The time is a parameter.
- The ORM session: `add`, `commit` and `delete` are modelled as changes to the `Store`'s sequences.
- Database migrations: the table and mapper definitions, `init_db` and `update_db` are left out, and so is `cli.py`.
- Host lookups: `organization_show`, `package_show`, `user_show`, `group_id_exists`, `package_name_exists`, `organizations_available` and `has_user_permission_for_some_org` are function parameters or plain booleans. They return `None` where the platform raises.
- `check_access`: its result is a boolean parameter of each action, since the platform decides it, sysadmin bypass included.
- Purge: the deletions inside `purge_datarequests` are taken as authorised, since only sysadmins may purge.
- Profanity: the filter and its word list are `Host.isProfane`. The `ckan.comments.check_for_profanity` setting is `Host.profanityCheckEnabled`.
- The clock: `datetime.utcnow()` and `now()` are a `now` parameter.
- Dates: `strptime(..., '%Y-%m-%d')` is the `isDate` parameter.
- Identifiers: the uuids of new rows are a `freshId` parameter, which the actions require to be unused.
- Characters: `str.isalpha()` and `str.lower()` are restricted to ASCII letters, and `int()` to ASCII digits. Unicode letters and digits are not modelled.
- Escaping: `escape` is modelled as Python 3's `html.escape`. The fallback to Python 2's `cgi.escape`, which leaves quotes alone, is not modelled.
- Dictize lookups: the lookups `_dictize_datarequest` and `_dictize_comment` add (the user, the organisation, the accepted dataset, the follower count) are not part of the returned values. Actions return the stored row or comment.
- The user cache: `_get_user`'s `USERS_CACHE` has no observable effect and is left out.
- `closing_circumstances_enabled`: the flag is a boolean parameter (`enabled`), because the plugin module that exposes it to templates is not part of this model.
- Unmodelled files: `plugin.py`, `constants.py` and `request_helpers.py` are not part of this model. The limits from `constants.py` are the fields of `Platform.Limits`.
- Icon helpers: `is_fontawesome_4`, the icon helpers and the CKAN version checks read version strings as floats and are left out.
- The comments badge: `get_comments_badge` only renders a snippet and is left out.
- Web pages: rendering, redirects, flash messages, the captcha, `abort` and `log` calls in the controller are left out.
- URL encoding: the percent-encoding of `urlencode` is left out. A link is modelled by its (name, value) pairs.
- Actions.Store.UpdateDatarequest: data without a title, and a title or description of `None`, are modelled as a crash (`Crashed`). The model does not say which exception is raised.
- Actions.UndictizeDatarequestBasic: a key present with `None` is refused like a missing key. The source assigns `None` there, and the nullable text columns (db.py:157-171) would store NULL; only a `None` title fails, at commit, since `title` is the primary key. Row fields in the model cannot hold NULL. No caller reaches this case, because `validate_datarequest` rejects such values first (`Actions.AcceptedFormIsStorable`, `Controller.PostedFormIsStorable`).
- Actions.Store.CreateDatarequest: a title or description of `None` is modelled as a crash, as in `UpdateDatarequest`.
- Throttle.ExpiryRule: `int(expiry / 60)` is modelled as exact division truncated toward zero. The rounding of the float division for counters beyond 2^53 is not modelled.
- Db.GetOrderedByDate: rows with equal keys are sorted stably. The database promises no order for them, so the contracts state only the order of rows that do not tie.
- Db.SearchIsCaseInsensitiveContains: `%`, `_` and the backslash escape of `ILIKE` are modelled, but the substring lemmas hold only for a search text without those characters, because db.py:74-76 puts `q` into the pattern unescaped, so there they act as wildcards.
- Controller.AccessToStatusField: a member entry of the acting user without a capacity is modelled as a crash (`None`). The model does not say which exception is raised. Every member entry is taken to have an `id`.

## Findings

| source | as written | input that shows it | evidently intended | confidence | as-written member | corrected member |
|---|---|---|---|---|---|---|
| ckanext/datarequests/actions.py:956-966 | `purge_datarequests` deletes the requests that `list_datarequests` returns, and that action returns one page (`DATAREQUESTS_PER_PAGE` requests) when no limit is given | a purge of a user with more requests than fit on a page, with no `offset` or `limit` | every request of the account is deleted | not executed | Actions.PurgeAsWrittenLeavesRequests | Actions.PurgeRemovesEverySelected |
| ckanext/datarequests/validator.py:186-187 | the accepted dataset is compared with `''` only, so `None` gets through | closing with circumstances enabled, condition `nominate_dataset`, and no `accepted_dataset_id` posted: the close page sends `None` | the request is refused with `Accepted dataset cannot be empty` | not executed | Validator.NominateWithoutDatasetPasses | Validator.ValidateClosingMeaning |
| ckanext/datarequests/validator.py:189-194 | the date is compared with `''` only, and `strptime(None, ...)` then raises a `TypeError`, which is not caught | closing with circumstances enabled, condition `nominate_approximate_date`, and no `approx_publishing_date` posted: the close page sends `None` | the request is refused with `Approximate publishing date cannot be empty` | not executed | Validator.NominateWithoutDateCrashes | Validator.ValidateClosingMeaning |
