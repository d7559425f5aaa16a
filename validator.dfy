/**
  Validation of the data request form, of the closing form and of comments.

  Errors accumulate in a dictionary from the (translated) field name to the
  list of messages for that field; `validate_datarequest` also writes the
  defaults it settles on back into the submitted data.  Field names and
  messages are modelled as datatypes; `Label` and `Wording` give the wording the
  user sees (before translation).
 */
module Validator {
  import opened Wrappers
  import opened Text
  import opened Platform
  import Helpers
  import Db

  /** Submitted form data: field name to value; `None` is a Python `None`. */
  type FormData = map<string, Option<string>>

  /** `d.get(key, default)` on submitted data. */
  function Get(fields: FormData, key: string, default: Option<string>): Option<string> {
    if key in fields then fields[key] else default
  }

  // ---------------------------------------------------------------------------
  // Fields and messages

  /** The fields the validators report on. */
  datatype Field =
    | RequestedDatasetField | OrganizationField | TitleField | DescriptionField | DataUseTypeField
    | WhoWillAccessField | RequestingOrganisationField | DataStorageEnvironmentField
    | DataOutputsTypeField | DataOutputsDescriptionField | StatusField
    | CircumstancesField | AcceptedDatasetField | ApproximatePublishingDateField | AcceptedDatasetLookupField
    | DataRequestField | CommentField

  /** The name under which a field's messages are reported. */
  function Label(f: Field): string {
    match f
    case RequestedDatasetField => "Requested dataset"
    case OrganizationField => "Organization"
    case TitleField => "Title"
    case DescriptionField => "Purpose of data use"
    case DataUseTypeField => "Data use type"
    case WhoWillAccessField => "Who will access this data"
    case RequestingOrganisationField => "Requesting organisation"
    case DataStorageEnvironmentField => "Data storage environment"
    case DataOutputsTypeField => "Data outputs type"
    case DataOutputsDescriptionField => "Data outputs description"
    case StatusField => "Status"
    case CircumstancesField => "Circumstances"
    case AcceptedDatasetField => "Accepted dataset"
    case ApproximatePublishingDateField => "Approximate publishing date"
    case AcceptedDatasetLookupField => "Accepted Dataset"
    case DataRequestField => "Data Request"
    case CommentField => "Comment"
  }

  /** Different fields are reported under different names, so keying the
      messages by field is keying them by name. */
  lemma LabelsDistinct(f: Field, g: Field)
    requires f != g
    ensures Label(f) != Label(g)
  {
  }

  /** The messages the validators produce. */
  datatype Message =
    | CannotBeEmpty(field: Field)
    | NotFound(field: Field)
    | NotValid(field: Field)
    | TooLong(field: Field, max: nat)
    | NotAlphabetical(field: Field)
    | Profane
    | StatusNotValid
    | DateFormat
    | DatasetNotFound
    | CommentTooShort
    | CommentTooLong(max: nat)
    | CommentProfane

  /** The wording of a message. */
  function Wording(m: Message): string {
    match m
    case CannotBeEmpty(f) => Label(f) + " cannot be empty"
    case NotFound(f) => Label(f) + " not found"
    case NotValid(f) => Label(f) + " is not valid"
    case TooLong(f, max) => Label(f) + " must be a maximum of " + NatToString(max) + " characters long"
    case NotAlphabetical(f) => Label(f) + " need to be longer than two characters and alphabetical"
    case Profane => "Blocked due to profanity"
    case StatusNotValid => "Status value is not valid"
    case DateFormat => "Approximate publishing date must be in format yyyy-mm-dd"
    case DatasetNotFound => "Dataset not found"
    case CommentTooShort => "Comments must be a minimum of 1 character long"
    case CommentTooLong(max) => "Comments must be a maximum of " + NatToString(max) + " characters long"
    case CommentProfane => "Comment blocked due to profanity."
  }

  /** Field to its messages, in the order they were added. */
  type Errors = map<Field, seq<Message>>

  /** The outcome of a validation: it passes with a value, raises a
      `ValidationError` with its error dictionary, or fails with another
      exception (a `TypeError` of the platform). */
  datatype Outcome<T> = Accepted(value: T) | Rejected(errors: Errors) | Crashed

  // ---------------------------------------------------------------------------
  // _add_error

  /** `_add_error(errors, field, message)`: appends `message` to the field's list,
      or starts the list with it. */
  function WithMessage(errors: Errors, field: Field, message: Message): (r: Errors)
    ensures r.Keys == errors.Keys + {field}
    ensures forall f :: f in errors ==> |errors[f]| <= |r[f]| && r[f][..|errors[f]|] == errors[f]
    ensures |r[field]| == (if field in errors then |errors[field]| else 0) + 1
    ensures r[field][|r[field]| - 1] == message
    ensures forall f :: f in r && f != field ==> r[f] == errors[f]
  {
    if field in errors then errors[field := errors[field] + [message]] else errors[field := [message]]
  }

  /** Adding a message never removes one, and the new message can be found under its field. */
  lemma WithMessageKeepsMessages(errors: Errors, field: Field, message: Message)
    ensures var r := WithMessage(errors, field, message);
      && (forall f, m :: f in errors && m in errors[f] ==> f in r && m in r[f])
      && message in r[field]
  {
    var r := WithMessage(errors, field, message);
    forall f, m | f in errors && m in errors[f] ensures f in r && m in r[f] {
      assert r[f][..|errors[f]|] == errors[f];
      var k :| 0 <= k < |errors[f]| && errors[f][k] == m;
      assert r[f][k] == m;
    }
  }

  /** The messages recorded for a field; none when it is absent. */
  function Messages(errors: Errors, f: Field): seq<Message> {
    if f in errors then errors[f] else []
  }

  /** No field is recorded without a message. */
  predicate WellFormed(errors: Errors) {
    forall f :: f in errors ==> errors[f] != []
  }

  /** A field's messages, recorded only when there are some. */
  function Put(errors: Errors, field: Field, msgs: seq<Message>): Errors {
    if msgs == [] then errors else errors[field := msgs]
  }

  /** Adding one more message to a field recorded by `Put`. */
  lemma AddToPut(errors: Errors, field: Field, msgs: seq<Message>, message: Message)
    requires field !in errors
    ensures WithMessage(Put(errors, field, msgs), field, message) == Put(errors, field, msgs + [message])
  {
    if msgs == [] {
      assert msgs + [message] == [message];
    }
  }

  /** Adding a message to a field recorded before another one. */
  lemma AddBelowLater(errors: Errors, field: Field, msgs: seq<Message>, later: Field, laterMsgs: seq<Message>,
                      message: Message)
    requires field !in errors && later !in errors && field != later
    ensures WithMessage(Put(Put(errors, field, msgs), later, laterMsgs), field, message)
         == Put(Put(errors, field, msgs + [message]), later, laterMsgs)
  {
    if msgs == [] {
      assert msgs + [message] == [message];
    }
  }

  /** The error dictionary the validators fill in. */
  class ErrorDict {
    var entries: Errors

    constructor ()
      ensures entries == map[]
    {
      entries := map[];
    }

    /** `_add_error(self, field, message)`. */
    method Add(field: Field, message: Message)
      modifies this
      ensures entries == WithMessage(old(entries), field, message)
    {
      if field in entries {
        entries := entries[field := entries[field] + [message]];
      } else {
        entries := entries[field := [message]];
      }
    }
  }

  /** The submitted form data, which `validate_datarequest` updates in place. */
  class RequestData {
    var fields: FormData

    constructor (submitted: FormData)
      ensures fields == submitted
    {
      fields := submitted;
    }

    /** `request_data[key] = value`. */
    method Set(key: string, value: Option<string>)
      modifies this
      ensures fields == old(fields)[key := value]
    {
      fields := fields[key := value];
    }
  }

  // ---------------------------------------------------------------------------
  // _has_alpha_chars

  /** `_has_alpha_chars(s, n)`: at least `n` characters of `s` are letters. */
  function HasAlphaChars(s: string, minAlphaChars: nat): bool {
    AlphaCount(s) >= minAlphaChars
  }

  /** The letter count is additive, so a text keeps enough letters when more is
      appended on either side; `n` letters need at least `n` characters; and
      every text has zero letters. */
  lemma HasAlphaCharsProperties(s: string, t: string, n: nat)
    ensures HasAlphaChars(s, n) ==> HasAlphaChars(s + t, n) && HasAlphaChars(t + s, n)
    ensures HasAlphaChars(s, n) ==> |s| >= n
    ensures HasAlphaChars(s, 0)
    ensures HasAlphaChars(s + t, n) <==> AlphaCount(s) + AlphaCount(t) >= n
  {
    AlphaCountAppend(s, t);
    AlphaCountAppend(t, s);
  }

  // ---------------------------------------------------------------------------
  // validate_datarequest: the messages of each field

  /** The dataset named by the hidden `requested_dataset` field, when it is given and found. */
  function RequestedPackage(fields: FormData, host: Host): Option<Package> {
    var requested := Get(fields, "requested_dataset", None);
    if Truthy(requested) then host.packageShow(requested.value) else None
  }

  function RequestedDatasetErrors(fields: FormData, host: Host): seq<Message> {
    if !Truthy(Get(fields, "requested_dataset", None)) then [CannotBeEmpty(RequestedDatasetField)]
    else
      match RequestedPackage(fields, host)
      case None => [NotFound(RequestedDatasetField)]
      case Some(p) => if p.organization.None? then [NotFound(RequestedDatasetField)] else []
  }

  /** The title to fall back on: the dataset's, even when reading its organisation then fails. */
  function DefaultTitle(fields: FormData, host: Host): string {
    match RequestedPackage(fields, host)
    case Some(p) => p.title
    case None => ""
  }

  /** The organisation to fall back on: the dataset's organisation. */
  function DefaultOrgId(fields: FormData, host: Host): string {
    match RequestedPackage(fields, host)
    case Some(p) => if p.organization.Some? then p.organization.value.id else ""
    case None => ""
  }

  /** The values written back into the submitted data. */
  function ResolvedOrganization(fields: FormData, host: Host): Option<string> {
    Get(fields, "organization_id", Some(DefaultOrgId(fields, host)))
  }

  function ResolvedTitle(fields: FormData, host: Host): Option<string> {
    Get(fields, "title", Some(DefaultTitle(fields, host)))
  }

  function ResolvedStatus(fields: FormData): Option<string> {
    Get(fields, "status", Some(Db.DefaultStatus))
  }

  function Description(fields: FormData): Option<string> {
    Get(fields, "description", Some(""))
  }

  function OrganizationErrors(org: Option<string>, host: Host): seq<Message> {
    if !Truthy(org) then [CannotBeEmpty(OrganizationField)]
    else if !host.groupIdExists(org.value) then [NotValid(OrganizationField)]
    else []
  }

  /** The length and presence rules of the title, then the profanity rule. */
  function TitleErrors(title: string, host: Host, limits: Limits): seq<Message> {
    TitleBaseErrors(title, limits) + TitleProfanityErrors(title, host)
  }

  function TitleBaseErrors(title: string, limits: Limits): seq<Message> {
    (if |title| > limits.nameMax then [TooLong(TitleField, limits.nameMax)] else [])
    + (if title == "" then [CannotBeEmpty(TitleField)] else [])
  }

  function TitleProfanityErrors(title: string, host: Host): seq<Message> {
    if host.profanityCheckEnabled && host.isProfane(title) then [Profane] else []
  }

  /** The presence, length and letter rules of the description; the profanity rule
      only runs when none of them has fired. */
  function DescriptionErrors(description: string, host: Host, limits: Limits): seq<Message> {
    DescriptionBaseErrors(description, limits) + DescriptionProfanityErrors(description, host, limits)
  }

  function DescriptionBaseErrors(description: string, limits: Limits): seq<Message> {
    (if description == "" then [CannotBeEmpty(DescriptionField)] else [])
    + (if |description| > limits.descriptionMax then [TooLong(DescriptionField, limits.descriptionMax)] else [])
    + (if description != "" && !HasAlphaChars(description, 2) then [NotAlphabetical(DescriptionField)] else [])
  }

  function DescriptionProfanityErrors(description: string, host: Host, limits: Limits): seq<Message> {
    if host.profanityCheckEnabled && DescriptionBaseErrors(description, limits) == [] && host.isProfane(description)
    then [Profane] else []
  }

  /** A field that must be given. */
  function RequiredErrors(value: Option<string>, field: Field): seq<Message> {
    if !Truthy(value) then [CannotBeEmpty(field)] else []
  }

  /** A field that must be given and hold at least two letters. */
  function AlphabeticalErrors(value: Option<string>, field: Field): seq<Message> {
    if !Truthy(value) then [CannotBeEmpty(field)]
    else if !HasAlphaChars(value.value, 2) then [NotAlphabetical(field)]
    else []
  }

  function RequestingOrganisationErrors(value: Option<string>, host: Host): seq<Message> {
    if !Truthy(value) then [CannotBeEmpty(RequestingOrganisationField)]
    else if !host.groupIdExists(value.value) then [NotValid(RequestingOrganisationField)]
    else []
  }

  function StatusErrors(status: Option<string>): seq<Message> {
    (if !Truthy(status) then [CannotBeEmpty(StatusField)] else [])
    + (if status.None? || status.value !in Helpers.StatusValues() then [StatusNotValid] else [])
  }

  /** The submitted data `validate_datarequest` can read without raising a
      `TypeError`: the title and the description, when present, are texts. */
  predicate Readable(fields: FormData, host: Host) {
    ResolvedTitle(fields, host).Some? && Description(fields).Some?
  }

  /** The messages each field of the data request form gets, rule by rule. */
  function FieldMessages(fields: FormData, host: Host, limits: Limits, f: Field): seq<Message>
    requires Readable(fields, host)
  {
    match f
    case RequestedDatasetField => RequestedDatasetErrors(fields, host)
    case OrganizationField => OrganizationErrors(ResolvedOrganization(fields, host), host)
    case TitleField => TitleErrors(ResolvedTitle(fields, host).value, host, limits)
    case DescriptionField => DescriptionErrors(Description(fields).value, host, limits)
    case DataUseTypeField => RequiredErrors(Get(fields, "data_use_type", Some("")), f)
    case WhoWillAccessField => AlphabeticalErrors(Get(fields, "who_will_access_this_data", Some("")), f)
    case RequestingOrganisationField => RequestingOrganisationErrors(Get(fields, "requesting_organisation", Some("")), host)
    case DataStorageEnvironmentField => AlphabeticalErrors(Get(fields, "data_storage_environment", Some("")), f)
    case DataOutputsTypeField => RequiredErrors(Get(fields, "data_outputs_type", Some("")), f)
    case DataOutputsDescriptionField => AlphabeticalErrors(Get(fields, "data_outputs_description", Some("")), f)
    case StatusField => StatusErrors(ResolvedStatus(fields))
    case _ => []
  }

  /** The number of fields of the data request form. */
  const FormFieldCount := 11

  /** The position of a form field in the order `validate_datarequest` checks them;
      the other fields come after all of them. */
  function Stage(f: Field): nat {
    match f
    case RequestedDatasetField => 0
    case OrganizationField => 1
    case TitleField => 2
    case DescriptionField => 3
    case DataUseTypeField => 4
    case WhoWillAccessField => 5
    case RequestingOrganisationField => 6
    case DataStorageEnvironmentField => 7
    case DataOutputsTypeField => 8
    case DataOutputsDescriptionField => 9
    case StatusField => 10
    case _ => 11
  }

  lemma StageInjective(f: Field, g: Field)
    requires Stage(f) < FormFieldCount && Stage(f) == Stage(g)
    ensures f == g
  {
  }

  /** The form fields in the order `validate_datarequest` checks them. */
  const FormFields: seq<Field> := [
    RequestedDatasetField, OrganizationField, TitleField, DescriptionField,
    DataUseTypeField, WhoWillAccessField, RequestingOrganisationField,
    DataStorageEnvironmentField, DataOutputsTypeField, DataOutputsDescriptionField,
    StatusField
  ]

  lemma FormFieldStage(i: nat)
    requires i < |FormFields|
    ensures |FormFields| == FormFieldCount && Stage(FormFields[i]) == i
  {
  }

  /** The dictionary once the first `k` form fields have been checked, when
      `msgs[i]` are the messages of the `i`-th form field: each field checked so
      far with its messages, when it has some. */
  function Staged(msgs: seq<seq<Message>>, k: nat): (r: Errors)
    requires k <= |msgs| <= |FormFields|
    ensures WellFormed(r)
    ensures forall f :: f in r ==> Stage(f) < k
  {
    if k == 0 then map[]
    else
      FormFieldStage(k - 1);
      Put(Staged(msgs, k - 1), FormFields[k - 1], msgs[k - 1])
  }

  /** After `k` fields, exactly the fields checked so far carry their messages. */
  lemma {:induction false} StagedMessages(msgs: seq<seq<Message>>, k: nat, f: Field)
    requires k <= |msgs| <= |FormFields|
    ensures Messages(Staged(msgs, k), f) == if Stage(f) < k then msgs[Stage(f)] else []
  {
    if k > 0 {
      var g := FormFields[k - 1];
      StagedMessages(msgs, k - 1, f);
      FormFieldStage(k - 1);
      PutMessages(Staged(msgs, k - 1), g, msgs[k - 1], f);
      if Stage(f) == k - 1 {
        StageInjective(f, g);
      }
    }
  }

  /** The messages of a field once another field's messages are recorded. */
  lemma PutMessages(errors: Errors, g: Field, msgs: seq<Message>, f: Field)
    requires g !in errors
    ensures Messages(Put(errors, g, msgs), f) == if f == g then msgs else Messages(errors, f)
  {
  }

  /** The messages of the form fields, in the order they are checked. */
  function AllFieldMessages(fields: FormData, host: Host, limits: Limits): (ms: seq<seq<Message>>)
    requires Readable(fields, host)
    ensures |ms| == |FormFields|
    ensures forall i :: 0 <= i < |ms| ==> ms[i] == FieldMessages(fields, host, limits, FormFields[i])
  {
    seq(|FormFields|, i requires 0 <= i < |FormFields| => FieldMessages(fields, host, limits, FormFields[i]))
  }

  /** The error dictionary of `validate_datarequest`: every field holds exactly the
      messages of its rules, and a field without messages is absent. */
  function DatarequestErrors(fields: FormData, host: Host, limits: Limits): (r: Errors)
    requires Readable(fields, host)
    ensures WellFormed(r)
    ensures forall f :: Messages(r, f) == FieldMessages(fields, host, limits, f)
  {
    var ms := AllFieldMessages(fields, host, limits);
    var r := Staged(ms, FormFieldCount);
    assert forall f :: Messages(r, f) == FieldMessages(fields, host, limits, f) by {
      forall f ensures Messages(r, f) == FieldMessages(fields, host, limits, f) {
        StagedMessages(ms, FormFieldCount, f);
        if Stage(f) < FormFieldCount {
          FormFieldStage(Stage(f));
          StageInjective(f, FormFields[Stage(f)]);
        }
      }
    }
    r
  }

  /** The dictionary once the organisation is written back. */
  function WithOrganization(fields: FormData, host: Host): FormData {
    fields["organization_id" := ResolvedOrganization(fields, host)]
  }

  /** The dictionary once the organisation and the title are written back. */
  function WithTitle(fields: FormData, host: Host): FormData {
    WithOrganization(fields, host)["title" := ResolvedTitle(fields, host)]
  }

  /** The submitted data after `validate_datarequest` has written its defaults back. */
  function WrittenBack(fields: FormData, host: Host): FormData {
    WithTitle(fields, host)["status" := ResolvedStatus(fields)]
  }

  /** `validate_datarequest` raises exactly when some message was recorded. */
  function ValidationResult(errors: Errors): (r: Outcome<()>)
    ensures r.Accepted? <==> errors == map[]
    ensures r.Rejected? ==> r.errors == errors
    ensures !r.Crashed?
  {
    if errors == map[] then Accepted(()) else Rejected(errors)
  }

  // ---------------------------------------------------------------------------
  // validate_datarequest: what the dictionary means

  /** A text field that is given and holds at least two letters. */
  predicate HasLetters(v: Option<string>) {
    v.Some? && v.value != "" && AlphaCount(v.value) >= 2
  }

  /** The rule of one form field of `validate_datarequest`, stated on its own: the
      requested dataset exists and belongs to an organisation; the organisation and
      the requesting organisation are known groups; the title and the description
      are given and short enough; the description and three usage fields hold at
      least two letters; neither the title nor the description is profane when the
      filter is on; the status is listed. Other fields have no rule. */
  predicate RuleHolds(fields: FormData, host: Host, limits: Limits, f: Field)
    requires Readable(fields, host)
  {
    var title := ResolvedTitle(fields, host).value;
    var description := Description(fields).value;
    match f
    case RequestedDatasetField =>
      RequestedPackage(fields, host).Some? && RequestedPackage(fields, host).value.organization.Some?
    case OrganizationField =>
      var organization := ResolvedOrganization(fields, host);
      organization.Some? && organization.value != "" && host.groupIdExists(organization.value)
    case TitleField =>
      title != "" && |title| <= limits.nameMax && !(host.profanityCheckEnabled && host.isProfane(title))
    case DescriptionField =>
      description != "" && |description| <= limits.descriptionMax && AlphaCount(description) >= 2
      && !(host.profanityCheckEnabled && host.isProfane(description))
    case DataUseTypeField => Truthy(Get(fields, "data_use_type", Some("")))
    case WhoWillAccessField => HasLetters(Get(fields, "who_will_access_this_data", Some("")))
    case RequestingOrganisationField =>
      var requesting := Get(fields, "requesting_organisation", Some(""));
      requesting.Some? && requesting.value != "" && host.groupIdExists(requesting.value)
    case DataStorageEnvironmentField => HasLetters(Get(fields, "data_storage_environment", Some("")))
    case DataOutputsTypeField => Truthy(Get(fields, "data_outputs_type", Some("")))
    case DataOutputsDescriptionField => HasLetters(Get(fields, "data_outputs_description", Some("")))
    case StatusField => ResolvedStatus(fields).Some? && ResolvedStatus(fields).value in Helpers.StatusValues()
    case _ => true
  }

  /** Every rule holds. */
  predicate DatarequestValid(fields: FormData, host: Host, limits: Limits)
    requires Readable(fields, host)
  {
    forall f :: RuleHolds(fields, host, limits, f)
  }

  /** A field has no message exactly when its rule holds. */
  lemma NoMessagesIffRuleHolds(fields: FormData, host: Host, limits: Limits, f: Field)
    requires Readable(fields, host)
    ensures FieldMessages(fields, host, limits, f) == [] <==> RuleHolds(fields, host, limits, f)
  {
    match f
    case TitleField =>
      TitleMessages(ResolvedTitle(fields, host).value, host, limits);
    case DescriptionField =>
      DescriptionMessages(Description(fields).value, host, limits);
    case StatusField =>
      StatusMessages(ResolvedStatus(fields));
      Helpers.StatusListShape();
    case _ =>
  }

  /** Two well-formed dictionaries with the same messages for every field are equal. */
  lemma SameMessagesSameErrors(r1: Errors, r2: Errors)
    requires WellFormed(r1) && WellFormed(r2)
    requires forall f :: Messages(r1, f) == Messages(r2, f)
    ensures r1 == r2
  {
    assert forall f :: f in r1 <==> Messages(r1, f) != [];
    assert forall f :: f in r2 <==> Messages(r2, f) != [];
    assert r1.Keys == r2.Keys;
  }

  /** `validate_datarequest` accepts the data exactly when every rule holds. */
  lemma ValidateDatarequestAccepts(fields: FormData, host: Host, limits: Limits)
    requires Readable(fields, host)
    ensures ValidationResult(DatarequestErrors(fields, host, limits)).Accepted? <==> DatarequestValid(fields, host, limits)
  {
    var r := DatarequestErrors(fields, host, limits);
    if DatarequestValid(fields, host, limits) {
      forall f ensures Messages(r, f) == Messages(map[], f) {
        NoMessagesIffRuleHolds(fields, host, limits, f);
      }
      SameMessagesSameErrors(r, map[]);
    } else {
      var f :| !RuleHolds(fields, host, limits, f);
      NoMessagesIffRuleHolds(fields, host, limits, f);
      assert Messages(r, f) != [];
    }
  }

  /** The title gets `cannot be empty` exactly when it is empty, the length message
      exactly when it is too long, and the profanity message exactly when the filter
      is on and rejects it; at most two of them at once. */
  lemma TitleMessages(title: string, host: Host, limits: Limits)
    ensures CannotBeEmpty(TitleField) in TitleErrors(title, host, limits) <==> title == ""
    ensures TooLong(TitleField, limits.nameMax) in TitleErrors(title, host, limits) <==> |title| > limits.nameMax
    ensures Profane in TitleErrors(title, host, limits) <==> host.profanityCheckEnabled && host.isProfane(title)
    ensures |TitleErrors(title, host, limits)| <= 2
  {
  }

  /** The presence, length and letter messages of the description, each exactly
      when its rule fails; an empty description gets only the first. */
  lemma DescriptionBaseMessages(description: string, limits: Limits)
    ensures var ms := DescriptionBaseErrors(description, limits);
      && (CannotBeEmpty(DescriptionField) in ms <==> description == "")
      && (TooLong(DescriptionField, limits.descriptionMax) in ms <==> |description| > limits.descriptionMax)
      && (NotAlphabetical(DescriptionField) in ms <==> description != "" && AlphaCount(description) < 2)
      && (Profane !in ms)
      && (ms == [] <==> description != "" && |description| <= limits.descriptionMax && AlphaCount(description) >= 2)
      && (description == "" ==> ms == [CannotBeEmpty(DescriptionField)])
  {
  }

  /** The description's messages: those of its base rules, and the profanity
      message only when none of them applies and the filter rejects it. */
  lemma DescriptionMessages(description: string, host: Host, limits: Limits)
    ensures var ms := DescriptionErrors(description, host, limits);
      && (CannotBeEmpty(DescriptionField) in ms <==> description == "")
      && (TooLong(DescriptionField, limits.descriptionMax) in ms <==> |description| > limits.descriptionMax)
      && (NotAlphabetical(DescriptionField) in ms <==> description != "" && AlphaCount(description) < 2)
      && (Profane in ms <==>
            host.profanityCheckEnabled && host.isProfane(description)
            && description != "" && |description| <= limits.descriptionMax && AlphaCount(description) >= 2)
      && (description == "" ==> ms == [CannotBeEmpty(DescriptionField)])
  {
    DescriptionBaseMessages(description, limits);
    var base := DescriptionBaseErrors(description, limits);
    if description == "" {
      assert base + [] == base;
    }
  }

  /** A status that is not listed is reported as not valid; an empty one is both
      reported as empty and as not valid. */
  lemma StatusMessages(status: Option<string>)
    ensures StatusNotValid in StatusErrors(status) <==> status.None? || status.value !in Helpers.StatusValues()
    ensures CannotBeEmpty(StatusField) in StatusErrors(status) ==> StatusErrors(status) == [CannotBeEmpty(StatusField), StatusNotValid]
  {
    Helpers.StatusListShape();
  }

  /** Without a status the request is written back as `Assigned`, which passes. */
  lemma StatusDefaultsToAssigned(fields: FormData, host: Host, limits: Limits)
    requires Readable(fields, host) && "status" !in fields
    ensures WrittenBack(fields, host)["status"] == Some(Db.DefaultStatus)
    ensures StatusField !in DatarequestErrors(fields, host, limits)
  {
    Helpers.StatusListShape();
    assert Messages(DatarequestErrors(fields, host, limits), StatusField) == [];
  }

  /** A requested dataset without an organisation is reported as not found, yet its
      title becomes the default title, and without an organisation of its own the
      request is also reported for an empty organisation. */
  lemma DatasetWithoutOrganization(fields: FormData, host: Host, limits: Limits, p: Package)
    requires Readable(fields, host)
    requires RequestedPackage(fields, host) == Some(p) && p.organization.None?
    ensures Messages(DatarequestErrors(fields, host, limits), RequestedDatasetField) == [NotFound(RequestedDatasetField)]
    ensures "title" !in fields ==> WrittenBack(fields, host)["title"] == Some(p.title)
    ensures "organization_id" !in fields ==>
      Messages(DatarequestErrors(fields, host, limits), OrganizationField) == [CannotBeEmpty(OrganizationField)]
  {
  }

  /** The written-back data resolves to the same values as the submitted data. */
  lemma WrittenBackResolvesSame(fields: FormData, host: Host)
    ensures var w := WrittenBack(fields, host);
      && RequestedPackage(w, host) == RequestedPackage(fields, host)
      && ResolvedOrganization(w, host) == ResolvedOrganization(fields, host)
      && ResolvedTitle(w, host) == ResolvedTitle(fields, host)
      && ResolvedStatus(w) == ResolvedStatus(fields)
      && Description(w) == Description(fields)
      && (forall key, default :: key !in {"organization_id", "title", "status"} ==>
            Get(w, key, default) == Get(fields, key, default))
  {
    var w := WrittenBack(fields, host);
    assert Get(w, "requested_dataset", None) == Get(fields, "requested_dataset", None);
  }

  /** The written-back data reads the same again: validating it once more gives the
      same dictionary and writes nothing new. */
  lemma WrittenBackIsStable(fields: FormData, host: Host, limits: Limits)
    requires Readable(fields, host)
    ensures Readable(WrittenBack(fields, host), host)
    ensures WrittenBack(WrittenBack(fields, host), host) == WrittenBack(fields, host)
    ensures DatarequestErrors(WrittenBack(fields, host), host, limits) == DatarequestErrors(fields, host, limits)
  {
    var w := WrittenBack(fields, host);
    WrittenBackResolvesSame(fields, host);
    forall f ensures Messages(DatarequestErrors(w, host, limits), f) == Messages(DatarequestErrors(fields, host, limits), f) {
      WrittenBackSameMessages(fields, host, limits, f);
    }
    SameMessagesSameErrors(DatarequestErrors(w, host, limits), DatarequestErrors(fields, host, limits));
  }

  /** Each field of the written-back data has the messages it had before. */
  lemma WrittenBackSameMessages(fields: FormData, host: Host, limits: Limits, f: Field)
    requires Readable(fields, host) && Readable(WrittenBack(fields, host), host)
    ensures FieldMessages(WrittenBack(fields, host), host, limits, f) == FieldMessages(fields, host, limits, f)
  {
    match f
    case DataUseTypeField => WrittenBackKeeps(fields, host, "data_use_type");
    case WhoWillAccessField => WrittenBackKeeps(fields, host, "who_will_access_this_data");
    case RequestingOrganisationField => WrittenBackKeeps(fields, host, "requesting_organisation");
    case DataStorageEnvironmentField => WrittenBackKeeps(fields, host, "data_storage_environment");
    case DataOutputsTypeField => WrittenBackKeeps(fields, host, "data_outputs_type");
    case DataOutputsDescriptionField => WrittenBackKeeps(fields, host, "data_outputs_description");
    case _ => WrittenBackResolvesSame(fields, host);
  }

  /** Writing back leaves every key but the organisation, the title and the status alone. */
  lemma WrittenBackKeeps(fields: FormData, host: Host, key: string)
    requires key != "organization_id" && key != "title" && key != "status"
    ensures Get(WrittenBack(fields, host), key, Some("")) == Get(fields, key, Some(""))
  {
  }

  // ---------------------------------------------------------------------------
  // validate_datarequest: the steps

  /** The hidden `requested_dataset` field; gives the title and organisation to fall back on. */
  method CheckRequestedDataset(errors: ErrorDict, fields: FormData, host: Host)
    returns (defaultTitle: string, defaultOrgId: string)
    requires RequestedDatasetField !in errors.entries
    modifies errors
    ensures errors.entries == Put(old(errors.entries), RequestedDatasetField, RequestedDatasetErrors(fields, host))
    ensures defaultTitle == DefaultTitle(fields, host) && defaultOrgId == DefaultOrgId(fields, host)
  {
    defaultTitle, defaultOrgId := "", "";
    var requested := Get(fields, "requested_dataset", None);
    if !Truthy(requested) {
      errors.Add(RequestedDatasetField, CannotBeEmpty(RequestedDatasetField));
    } else {
      var package := host.packageShow(requested.value);
      if package.None? {
        errors.Add(RequestedDatasetField, NotFound(RequestedDatasetField));
      } else {
        defaultTitle := package.value.title;
        if package.value.organization.None? {
          // Reading the organisation's id fails after the title was taken.
          errors.Add(RequestedDatasetField, NotFound(RequestedDatasetField));
        } else {
          defaultOrgId := package.value.organization.value.id;
        }
      }
    }
  }

  /** The organisation must be given and be a known group. */
  method CheckOrganization(errors: ErrorDict, organizationId: Option<string>, host: Host)
    requires OrganizationField !in errors.entries
    modifies errors
    ensures errors.entries == Put(old(errors.entries), OrganizationField, OrganizationErrors(organizationId, host))
  {
    if !Truthy(organizationId) {
      errors.Add(OrganizationField, CannotBeEmpty(OrganizationField));
    }
    if Truthy(organizationId) && !host.groupIdExists(organizationId.value) {
      errors.Add(OrganizationField, NotValid(OrganizationField));
    }
  }

  /** The length and presence rules of the title. */
  method CheckTitle(errors: ErrorDict, title: string, limits: Limits)
    requires TitleField !in errors.entries
    modifies errors
    ensures errors.entries == Put(old(errors.entries), TitleField, TitleBaseErrors(title, limits))
  {
    ghost var before := errors.entries;
    if |title| > limits.nameMax {
      errors.Add(TitleField, TooLong(TitleField, limits.nameMax));
    }
    ghost var m: seq<Message> := if |title| > limits.nameMax then [TooLong(TitleField, limits.nameMax)] else [];
    if title == "" {
      AddToPut(before, TitleField, m, CannotBeEmpty(TitleField));
      errors.Add(TitleField, CannotBeEmpty(TitleField));
    } else {
      assert m + [] == m;
    }
  }

  /** The presence, length and letter rules of the description. */
  method CheckDescription(errors: ErrorDict, description: string, limits: Limits)
    requires DescriptionField !in errors.entries
    modifies errors
    ensures errors.entries == Put(old(errors.entries), DescriptionField, DescriptionBaseErrors(description, limits))
  {
    ghost var before := errors.entries;
    if description == "" {
      errors.Add(DescriptionField, CannotBeEmpty(DescriptionField));
    }
    ghost var m1: seq<Message> := if description == "" then [CannotBeEmpty(DescriptionField)] else [];
    assert errors.entries == Put(before, DescriptionField, m1);
    if |description| > limits.descriptionMax {
      AddToPut(before, DescriptionField, m1, TooLong(DescriptionField, limits.descriptionMax));
      errors.Add(DescriptionField, TooLong(DescriptionField, limits.descriptionMax));
    } else {
      assert m1 + [] == m1;
    }
    ghost var m2 := m1 + (if |description| > limits.descriptionMax then [TooLong(DescriptionField, limits.descriptionMax)] else []);
    assert errors.entries == Put(before, DescriptionField, m2);
    if description != "" && !HasAlphaChars(description, 2) {
      AddToPut(before, DescriptionField, m2, NotAlphabetical(DescriptionField));
      errors.Add(DescriptionField, NotAlphabetical(DescriptionField));
    } else {
      assert m2 + [] == m2;
    }
  }

  /** The profanity rules, which run after both the title and the description
      rules; the description is checked only when none of its rules fired. */
  method CheckProfanity(errors: ErrorDict, title: string, description: string, host: Host, limits: Limits,
                        ghost e: Errors)
    requires TitleField !in e && DescriptionField !in e
    requires errors.entries == Put(Put(e, TitleField, TitleBaseErrors(title, limits)),
                                   DescriptionField, DescriptionBaseErrors(description, limits))
    modifies errors
    ensures errors.entries == Put(Put(e, TitleField, TitleErrors(title, host, limits)),
                                  DescriptionField, DescriptionErrors(description, host, limits))
  {
    ghost var t := TitleBaseErrors(title, limits);
    ghost var d := DescriptionBaseErrors(description, limits);
    assert t + [] == t && d + [] == d;
    if host.profanityCheckEnabled {
      if host.isProfane(title) {
        AddBelowLater(e, TitleField, t, DescriptionField, d, Profane);
        errors.Add(TitleField, Profane);
      }
      assert errors.entries == Put(Put(e, TitleField, TitleErrors(title, host, limits)), DescriptionField, d);
      if DescriptionField !in errors.entries && host.isProfane(description) {
        AddToPut(Put(e, TitleField, TitleErrors(title, host, limits)), DescriptionField, [], Profane);
        errors.Add(DescriptionField, Profane);
      }
    }
  }

  /** A field that must be given. */
  method CheckRequired(errors: ErrorDict, value: Option<string>, field: Field)
    requires field !in errors.entries
    modifies errors
    ensures errors.entries == Put(old(errors.entries), field, RequiredErrors(value, field))
  {
    if !Truthy(value) {
      errors.Add(field, CannotBeEmpty(field));
    }
  }

  /** A field that must be given and hold at least two letters. */
  method CheckAlphabetical(errors: ErrorDict, value: Option<string>, field: Field)
    requires field !in errors.entries
    modifies errors
    ensures errors.entries == Put(old(errors.entries), field, AlphabeticalErrors(value, field))
  {
    if !Truthy(value) {
      errors.Add(field, CannotBeEmpty(field));
    }
    if Truthy(value) && !HasAlphaChars(value.value, 2) {
      errors.Add(field, NotAlphabetical(field));
    }
  }

  /** The requesting organisation must be given and be a known group. */
  method CheckRequestingOrganisation(errors: ErrorDict, value: Option<string>, host: Host)
    requires RequestingOrganisationField !in errors.entries
    modifies errors
    ensures errors.entries == Put(old(errors.entries), RequestingOrganisationField, RequestingOrganisationErrors(value, host))
  {
    if !Truthy(value) {
      errors.Add(RequestingOrganisationField, CannotBeEmpty(RequestingOrganisationField));
    }
    if Truthy(value) && !host.groupIdExists(value.value) {
      errors.Add(RequestingOrganisationField, NotValid(RequestingOrganisationField));
    }
  }

  /** The status must be given and be one of the listed statuses. */
  method CheckStatus(errors: ErrorDict, status: Option<string>)
    requires StatusField !in errors.entries
    modifies errors
    ensures errors.entries == Put(old(errors.entries), StatusField, StatusErrors(status))
  {
    ghost var e := errors.entries;
    if !Truthy(status) {
      errors.Add(StatusField, CannotBeEmpty(StatusField));
    }
    ghost var m: seq<Message> := if !Truthy(status) then [CannotBeEmpty(StatusField)] else [];
    if status.None? || status.value !in Helpers.StatusValues() {
      AddToPut(e, StatusField, m, StatusNotValid);
      errors.Add(StatusField, StatusNotValid);
    } else {
      assert m + [] == m;
    }
  }

  /** The hidden fields: the requested dataset and the organisation, which is
      written back with the dataset's organisation as its default. */
  method CheckHiddenFields(errors: ErrorDict, data: RequestData, host: Host, ghost f0: FormData,
                           ghost ms: seq<seq<Message>>)
    returns (defaultTitle: string)
    requires data.fields == f0 && errors.entries == map[] && |ms| == |FormFields|
    requires ms[0] == RequestedDatasetErrors(f0, host)
    requires ms[1] == OrganizationErrors(ResolvedOrganization(f0, host), host)
    modifies errors, data
    ensures data.fields == WithOrganization(f0, host)
    ensures errors.entries == Staged(ms, 2)
    ensures defaultTitle == DefaultTitle(f0, host)
  {
    var defaultOrgId;
    defaultTitle, defaultOrgId := CheckRequestedDataset(errors, data.fields, host);
    assert errors.entries == Staged(ms, 1);
    var organizationId := Get(data.fields, "organization_id", Some(defaultOrgId));
    data.Set("organization_id", organizationId);
    CheckOrganization(errors, organizationId, host);
  }

  /** The visible fields: the title, written back with the dataset's title as its
      default, and the description, then the profanity filter on both. */
  method CheckVisibleFields(errors: ErrorDict, data: RequestData, defaultTitle: string, host: Host, limits: Limits,
                            ghost f0: FormData, ghost ms: seq<seq<Message>>)
    requires Readable(f0, host) && data.fields == WithOrganization(f0, host) && defaultTitle == DefaultTitle(f0, host)
    requires |ms| == |FormFields|
    requires ms[2] == TitleErrors(ResolvedTitle(f0, host).value, host, limits)
    requires ms[3] == DescriptionErrors(Description(f0).value, host, limits)
    requires errors.entries == Staged(ms, 2)
    modifies errors, data
    ensures data.fields == WithTitle(f0, host)
    ensures errors.entries == Staged(ms, 4)
  {
    var title := Get(data.fields, "title", Some(defaultTitle));
    data.Set("title", title);
    var description := Get(data.fields, "description", Some(""));
    assert title == ResolvedTitle(f0, host) && description == Description(f0);
    ghost var e2 := errors.entries;
    CheckTitle(errors, title.value, limits);
    CheckDescription(errors, description.value, limits);
    CheckProfanity(errors, title.value, description.value, host, limits, e2);
  }

  /** Writing the organisation and the title back leaves every other field as submitted. */
  lemma WithTitleKeepsOthers(fields: FormData, host: Host, key: string, default: Option<string>)
    requires key != "organization_id" && key != "title"
    ensures Get(WithTitle(fields, host), key, default) == Get(fields, key, default)
  {
  }

  /** The fields about the use of the data and who will access it. */
  method CheckAccessFields(errors: ErrorDict, fields: FormData, host: Host, ghost ms: seq<seq<Message>>)
    requires |ms| == |FormFields|
    requires ms[4] == RequiredErrors(Get(fields, "data_use_type", Some("")), DataUseTypeField)
    requires ms[5] == AlphabeticalErrors(Get(fields, "who_will_access_this_data", Some("")), WhoWillAccessField)
    requires errors.entries == Staged(ms, 4)
    modifies errors
    ensures errors.entries == Staged(ms, 6)
  {
    var dataUseType := Get(fields, "data_use_type", Some(""));
    CheckRequired(errors, dataUseType, DataUseTypeField);
    assert errors.entries == Staged(ms, 5);
    var whoWillAccess := Get(fields, "who_will_access_this_data", Some(""));
    CheckAlphabetical(errors, whoWillAccess, WhoWillAccessField);
  }

  /** The messages of these fields, read from the data with the organisation and the
      title written back, are those of the submitted data. */
  lemma AccessMessages(f0: FormData, host: Host, limits: Limits)
    requires Readable(f0, host)
    ensures var ms := AllFieldMessages(f0, host, limits);
      var fields := WithTitle(f0, host);
      ms[4] == RequiredErrors(Get(fields, "data_use_type", Some("")), DataUseTypeField)
      && ms[5] == AlphabeticalErrors(Get(fields, "who_will_access_this_data", Some("")), WhoWillAccessField)
  {
    WithTitleKeepsOthers(f0, host, "data_use_type", Some(""));
    WithTitleKeepsOthers(f0, host, "who_will_access_this_data", Some(""));
  }

  /** The fields about the requesting organisation and where the data will be stored. */
  method CheckRequesterFields(errors: ErrorDict, fields: FormData, host: Host, ghost ms: seq<seq<Message>>)
    requires |ms| == |FormFields|
    requires ms[6] == RequestingOrganisationErrors(Get(fields, "requesting_organisation", Some("")), host)
    requires ms[7] == AlphabeticalErrors(Get(fields, "data_storage_environment", Some("")), DataStorageEnvironmentField)
    requires errors.entries == Staged(ms, 6)
    modifies errors
    ensures errors.entries == Staged(ms, 8)
  {
    var requestingOrganisation := Get(fields, "requesting_organisation", Some(""));
    CheckRequestingOrganisation(errors, requestingOrganisation, host);
    assert errors.entries == Staged(ms, 7);
    var storage := Get(fields, "data_storage_environment", Some(""));
    CheckAlphabetical(errors, storage, DataStorageEnvironmentField);
  }

  /** The messages of these fields, read from the data with the organisation and the
      title written back, are those of the submitted data. */
  lemma RequesterMessages(f0: FormData, host: Host, limits: Limits)
    requires Readable(f0, host)
    ensures var ms := AllFieldMessages(f0, host, limits);
      var fields := WithTitle(f0, host);
      ms[6] == RequestingOrganisationErrors(Get(fields, "requesting_organisation", Some("")), host)
      && ms[7] == AlphabeticalErrors(Get(fields, "data_storage_environment", Some("")), DataStorageEnvironmentField)
  {
    WithTitleKeepsOthers(f0, host, "requesting_organisation", Some(""));
    WithTitleKeepsOthers(f0, host, "data_storage_environment", Some(""));
  }

  /** The fields about the outputs of the data use. */
  method CheckOutputFields(errors: ErrorDict, fields: FormData, host: Host, ghost ms: seq<seq<Message>>)
    requires |ms| == |FormFields|
    requires ms[8] == RequiredErrors(Get(fields, "data_outputs_type", Some("")), DataOutputsTypeField)
    requires ms[9] == AlphabeticalErrors(Get(fields, "data_outputs_description", Some("")), DataOutputsDescriptionField)
    requires errors.entries == Staged(ms, 8)
    modifies errors
    ensures errors.entries == Staged(ms, 10)
  {
    var outputsType := Get(fields, "data_outputs_type", Some(""));
    CheckRequired(errors, outputsType, DataOutputsTypeField);
    assert errors.entries == Staged(ms, 9);
    var outputsDescription := Get(fields, "data_outputs_description", Some(""));
    CheckAlphabetical(errors, outputsDescription, DataOutputsDescriptionField);
  }

  /** The messages of these fields, read from the data with the organisation and the
      title written back, are those of the submitted data. */
  lemma OutputMessages(f0: FormData, host: Host, limits: Limits)
    requires Readable(f0, host)
    ensures var ms := AllFieldMessages(f0, host, limits);
      var fields := WithTitle(f0, host);
      ms[8] == RequiredErrors(Get(fields, "data_outputs_type", Some("")), DataOutputsTypeField)
      && ms[9] == AlphabeticalErrors(Get(fields, "data_outputs_description", Some("")), DataOutputsDescriptionField)
  {
    WithTitleKeepsOthers(f0, host, "data_outputs_type", Some(""));
    WithTitleKeepsOthers(f0, host, "data_outputs_description", Some(""));
  }

  /** The status, written back with `Assigned` as its default. */
  method CheckStatusField(errors: ErrorDict, data: RequestData, host: Host, ghost f0: FormData,
                          ghost ms: seq<seq<Message>>)
    requires data.fields == WithTitle(f0, host) && |ms| == |FormFields|
    requires ms[10] == StatusErrors(ResolvedStatus(f0))
    requires errors.entries == Staged(ms, 10)
    modifies errors, data
    ensures data.fields == WrittenBack(f0, host)
    ensures errors.entries == Staged(ms, FormFieldCount)
  {
    var status := Get(data.fields, "status", Some(Db.DefaultStatus));
    WithTitleKeepsOthers(f0, host, "status", Some(Db.DefaultStatus));
    data.Set("status", status);
    CheckStatus(errors, status);
  }

  /** The messages of the hidden fields, the visible fields and the status. */
  lemma FormMessages(f0: FormData, host: Host, limits: Limits)
    requires Readable(f0, host)
    ensures var ms := AllFieldMessages(f0, host, limits);
      && ms[0] == RequestedDatasetErrors(f0, host)
      && ms[1] == OrganizationErrors(ResolvedOrganization(f0, host), host)
      && ms[2] == TitleErrors(ResolvedTitle(f0, host).value, host, limits)
      && ms[3] == DescriptionErrors(Description(f0).value, host, limits)
      && ms[10] == StatusErrors(ResolvedStatus(f0))
  {
  }

  /** `validate_datarequest(context, request_data)`: records the messages of every
      rule that fails, writes the organisation, title and status it settled on back
      into `data`, and raises with the messages when there are any. */
  method ValidateDatarequest(data: RequestData, host: Host, limits: Limits) returns (r: Outcome<()>)
    requires Readable(data.fields, host)
    modifies data
    ensures data.fields == WrittenBack(old(data.fields), host)
    ensures r == ValidationResult(DatarequestErrors(old(data.fields), host, limits))
  {
    ghost var f0 := data.fields;
    ghost var ms := AllFieldMessages(f0, host, limits);
    FormMessages(f0, host, limits);
    var errors := new ErrorDict();
    var defaultTitle := CheckHiddenFields(errors, data, host, f0, ms);
    CheckVisibleFields(errors, data, defaultTitle, host, limits, f0, ms);
    AccessMessages(f0, host, limits);
    CheckAccessFields(errors, data.fields, host, ms);
    RequesterMessages(f0, host, limits);
    CheckRequesterFields(errors, data.fields, host, ms);
    OutputMessages(f0, host, limits);
    CheckOutputFields(errors, data.fields, host, ms);
    CheckStatusField(errors, data, host, f0, ms);
    if |errors.entries| > 0 {
      return Rejected(errors.entries);
    }
    return Accepted(());
  }

  // ---------------------------------------------------------------------------
  // validate_datarequest_closing

  /** A dictionary holding a single field with a single message: what the closing
      validation raises on its first failed rule. */
  function Only(field: Field, message: Message): Errors {
    map[field := [message]]
  }

  /** The last closing rule: an accepted dataset that is given must exist. */
  function AcceptedDatasetCheck(fields: FormData, host: Host): (r: Outcome<()>)
    ensures !r.Crashed?
    ensures r.Accepted? <==>
      var accepted := Get(fields, "accepted_dataset_id", Some(""));
      !Truthy(accepted) || host.packageNameExists(accepted.value)
  {
    var accepted := Get(fields, "accepted_dataset_id", Some(""));
    if Truthy(accepted) && !host.packageNameExists(accepted.value) then
      Rejected(Only(AcceptedDatasetLookupField, DatasetNotFound))
    else
      Accepted(())
  }

  /** `validate_datarequest_closing` as written. `enabled` is the value of the
      `closing_circumstances_enabled` helper; `isDate` tells whether a text parses as
      `%Y-%m-%d`. A missing accepted dataset or date is compared with the empty text
      only, so `None` gets past the first check and makes the date parse raise. */
  function ValidateClosingAsWritten(fields: FormData, enabled: bool, host: Host, isDate: string -> bool): (r: Outcome<()>)
    ensures r.Crashed? <==>
      && enabled && Truthy(Get(fields, "close_circumstance", None))
      && Get(fields, "condition", None) == Some("nominate_approximate_date")
      && Get(fields, "approx_publishing_date", Some("")).None?
  {
    var circumstance := Get(fields, "close_circumstance", None);
    var condition := Get(fields, "condition", None);
    var date := Get(fields, "approx_publishing_date", Some(""));
    if enabled && !Truthy(circumstance) then
      Rejected(Only(CircumstancesField, CannotBeEmpty(CircumstancesField)))
    else if enabled && Truthy(condition) && condition.value == "nominate_dataset"
            && Get(fields, "accepted_dataset_id", Some("")) == Some("") then
      Rejected(Only(AcceptedDatasetField, CannotBeEmpty(AcceptedDatasetField)))
    else if enabled && Truthy(condition) && condition.value == "nominate_approximate_date" && date == Some("") then
      Rejected(Only(ApproximatePublishingDateField, CannotBeEmpty(ApproximatePublishingDateField)))
    else if enabled && Truthy(condition) && condition.value == "nominate_approximate_date" && date.None? then
      Crashed
    else if enabled && Truthy(condition) && condition.value == "nominate_approximate_date" && !isDate(date.value) then
      Rejected(Only(ApproximatePublishingDateField, DateFormat))
    else
      AcceptedDatasetCheck(fields, host)
  }

  /** The closing form posts `None` for a parameter it did not send. */
  const NominateWithoutDataset: FormData :=
    map["close_circumstance" := Some("Released"), "condition" := Some("nominate_dataset"),
        "accepted_dataset_id" := None]

  const NominateWithoutDate: FormData :=
    map["close_circumstance" := Some("Released"), "condition" := Some("nominate_approximate_date"),
        "approx_publishing_date" := None]

  /** As written, nominating a dataset without sending one closes the request. */
  lemma NominateWithoutDatasetPasses(host: Host, isDate: string -> bool)
    ensures ValidateClosingAsWritten(NominateWithoutDataset, true, host, isDate) == Accepted(())
  {
  }

  /** As written, nominating a date without sending one raises a `TypeError`. */
  lemma NominateWithoutDateCrashes(host: Host, isDate: string -> bool)
    ensures ValidateClosingAsWritten(NominateWithoutDate, true, host, isDate) == Crashed
  {
  }

  /** `validate_datarequest_closing` as intended: a missing accepted dataset or date
      counts as empty. */
  function ValidateClosing(fields: FormData, enabled: bool, host: Host, isDate: string -> bool): (r: Outcome<()>)
    ensures !r.Crashed?
  {
    var circumstance := Get(fields, "close_circumstance", None);
    var condition := Get(fields, "condition", None);
    var date := Get(fields, "approx_publishing_date", Some(""));
    if enabled && !Truthy(circumstance) then
      Rejected(Only(CircumstancesField, CannotBeEmpty(CircumstancesField)))
    else if enabled && Truthy(condition) && condition.value == "nominate_dataset"
            && !Truthy(Get(fields, "accepted_dataset_id", Some(""))) then
      Rejected(Only(AcceptedDatasetField, CannotBeEmpty(AcceptedDatasetField)))
    else if enabled && Truthy(condition) && condition.value == "nominate_approximate_date" && !Truthy(date) then
      Rejected(Only(ApproximatePublishingDateField, CannotBeEmpty(ApproximatePublishingDateField)))
    else if enabled && Truthy(condition) && condition.value == "nominate_approximate_date" && !isDate(date.value) then
      Rejected(Only(ApproximatePublishingDateField, DateFormat))
    else
      AcceptedDatasetCheck(fields, host)
  }

  /** What closing demands, stated on its own: with circumstances enabled a
      circumstance is given, nominating a dataset gives one, and nominating a date
      gives one in the `yyyy-mm-dd` format; any accepted dataset given exists. */
  predicate ClosingValid(fields: FormData, enabled: bool, host: Host, isDate: string -> bool) {
    var condition := Get(fields, "condition", None);
    var accepted := Get(fields, "accepted_dataset_id", Some(""));
    var date := Get(fields, "approx_publishing_date", Some(""));
    && (enabled ==> Truthy(Get(fields, "close_circumstance", None)))
    && (enabled && condition == Some("nominate_dataset") ==> Truthy(accepted))
    && (enabled && condition == Some("nominate_approximate_date") ==> Truthy(date) && isDate(date.value))
    && (Truthy(accepted) ==> host.packageNameExists(accepted.value))
  }

  /** The corrected closing validation passes exactly the data that meets every rule,
      and a rejection names one field with one message. */
  lemma ValidateClosingMeaning(fields: FormData, enabled: bool, host: Host, isDate: string -> bool)
    ensures ValidateClosing(fields, enabled, host, isDate).Accepted? <==> ClosingValid(fields, enabled, host, isDate)
    ensures var r := ValidateClosing(fields, enabled, host, isDate);
      r.Rejected? ==> exists f, m :: r.errors == Only(f, m)
  {
  }

  /** The two closing validations differ only where the as-written one lets a missing
      value through: with every value present they agree. */
  lemma ClosingVersionsAgree(fields: FormData, enabled: bool, host: Host, isDate: string -> bool)
    requires Get(fields, "accepted_dataset_id", Some("")).Some?
    requires Get(fields, "approx_publishing_date", Some("")).Some?
    ensures ValidateClosingAsWritten(fields, enabled, host, isDate) == ValidateClosing(fields, enabled, host, isDate)
  {
  }

  // ---------------------------------------------------------------------------
  // validate_comment

  /** The messages of a comment: too short when empty, too long beyond the limit,
      and profane when the filter is on and rejects it. */
  function CommentErrors(comment: string, host: Host, limits: Limits): seq<Message> {
    (if comment == "" then [CommentTooShort] else [])
    + (if |comment| > limits.commentMax then [CommentTooLong(limits.commentMax)] else [])
    + (if host.profanityCheckEnabled && host.isProfane(comment) then [CommentProfane] else [])
  }

  /** A comment passes exactly when it is non-empty, within the limit and not profane;
      each message appears exactly when its rule fails. */
  lemma CommentMessages(comment: string, host: Host, limits: Limits)
    ensures var ms := CommentErrors(comment, host, limits);
      && (ms == [] <==> comment != "" && |comment| <= limits.commentMax
                         && !(host.profanityCheckEnabled && host.isProfane(comment)))
      && (CommentTooShort in ms <==> comment == "")
      && (CommentTooLong(limits.commentMax) in ms <==> |comment| > limits.commentMax)
      && (CommentProfane in ms <==> host.profanityCheckEnabled && host.isProfane(comment))
  {
  }

  /** The comment rules of `validate_comment`, recorded in a fresh dictionary. */
  method CheckComment(c: string, host: Host, limits: Limits) returns (r: Errors)
    ensures r == Put(map[], CommentField, CommentErrors(c, host, limits))
  {
    var errors := new ErrorDict();
    ghost var ms: seq<Message> := [];
    if c == "" {
      errors.Add(CommentField, CommentTooShort);
      ms := [CommentTooShort];
    }
    assert errors.entries == Put(map[], CommentField, ms);
    if |c| > limits.commentMax {
      AddToPut(map[], CommentField, ms, CommentTooLong(limits.commentMax));
      errors.Add(CommentField, CommentTooLong(limits.commentMax));
      ms := ms + [CommentTooLong(limits.commentMax)];
    }
    assert errors.entries == Put(map[], CommentField, ms);
    if host.profanityCheckEnabled && host.isProfane(c) {
      AddToPut(map[], CommentField, ms, CommentProfane);
      errors.Add(CommentField, CommentProfane);
      ms := ms + [CommentProfane];
    }
    assert ms == CommentErrors(c, host, limits);
    return errors.entries;
  }

  /** `validate_comment(context, request_data)`: looks the data request up with `show`
      (`None` where the lookup raises, a missing id included), then checks the comment
      and returns the data request it found. */
  method ValidateComment<T>(fields: FormData, show: Option<string> -> Option<T>, host: Host, limits: Limits)
    returns (r: Outcome<T>)
    ensures "datarequest_id" !in fields || show(fields["datarequest_id"]).None? ==>
      r == Rejected(Only(DataRequestField, NotFound(DataRequestField)))
    ensures "datarequest_id" in fields && show(fields["datarequest_id"]).Some? ==>
      match Get(fields, "comment", Some(""))
      case None => r.Crashed?
      case Some(c) =>
        if CommentErrors(c, host, limits) == [] then r == Accepted(show(fields["datarequest_id"]).value)
        else r == Rejected(map[CommentField := CommentErrors(c, host, limits)])
  {
    var comment := Get(fields, "comment", Some(""));
    if "datarequest_id" !in fields {
      return Rejected(Only(DataRequestField, NotFound(DataRequestField)));
    }
    var datarequest := show(fields["datarequest_id"]);
    if datarequest.None? {
      return Rejected(Only(DataRequestField, NotFound(DataRequestField)));
    }
    if comment.None? {
      // `len(None)` raises a `TypeError`.
      return Crashed;
    }
    var errors := CheckComment(comment.value, host, limits);
    if |errors| > 0 {
      return Rejected(errors);
    }
    return Accepted(datarequest.value);
  }
}
