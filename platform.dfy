/**
  What the extension asks of the CKAN platform it runs in, as plain values:
  the site limits, and the lookups and checks the platform answers.
 */
module Platform {
  import opened Wrappers

  /** The site-wide limits: maximum title, description and comment lengths and
      the number of requests on a page. */
  datatype Limits = Limits(nameMax: nat, descriptionMax: nat, commentMax: nat, perPage: nat)

  /** A member of an organisation and the capacity they hold in it (`None` when
      the member entry has none). */
  datatype Member = Member(id: string, capacity: Option<string>)

  /** A user account: its identifier, its name and whether it is a sysadmin. */
  datatype User = User(id: string, name: string, sysadmin: bool)

  /** An organisation as `organization_show` returns it, with its members. */
  datatype Organization = Organization(id: string, name: string, displayName: string, users: seq<Member>)

  /** A dataset as `package_show` returns it; `organization` is `None` for a
      dataset that belongs to no organisation. */
  datatype Package = Package(id: string, title: string, organization: Option<Organization>)

  /** The platform's answers, each for the moment of the call:
      - `packageShow` and `organizationShow` give `None` where the platform raises;
      - `groupIdExists` and `packageNameExists` are the platform validators;
      - `isProfane` is the profanity filter, and `profanityCheckEnabled` the
        `ckan.comments.check_for_profanity` setting. */
  datatype Host = Host(
    packageShow: string -> Option<Package>,
    organizationShow: string -> Option<Organization>,
    groupIdExists: string -> bool,
    packageNameExists: string -> bool,
    isProfane: string -> bool,
    profanityCheckEnabled: bool)

  /** A Python value that is true in a condition: not `None` and not empty. */
  predicate Truthy(v: Option<string>) {
    v.Some? && v.value != ""
  }
}
