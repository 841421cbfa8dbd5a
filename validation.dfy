/**
 * The form schemas of the console (src/utils/validation.ts) as issue lists:
 * each schema checks its fields in declaration order and reports one issue
 * per field that breaks its rule, with the message the schema gives; the
 * form is accepted when the list is empty. Lengths are JavaScript lengths
 * (UTF-16 code units). The e-mail and URL formats are decided by predicates
 * passed in, since those checks belong to the schema library.
 */
module Validation {

  import opened Types
  import opened Strings

  /** A validation issue: the field it is about and its message. */
  datatype Issue = Issue(path: string, message: string)

  /** A string `.min(n, message)` rule on one field. */
  function MinLength(path: string, s: string, n: nat, message: string): seq<Issue> {
    if Utf16Length(s) < n then [Issue(path, message)] else []
  }

  /** The same rule on an optional field: an absent field passes. */
  function OptionalMinLength(path: string, s: Option<string>, n: nat, message: string): seq<Issue> {
    if s.Some? then MinLength(path, s.value, n, message) else []
  }

  /** A string format rule (e-mail, URL) with the given predicate. */
  function Format(path: string, s: string, valid: string -> bool, message: string): seq<Issue> {
    if valid(s) then [] else [Issue(path, message)]
  }

  function OptionalFormat(path: string, s: Option<string>, valid: string -> bool, message: string): seq<Issue> {
    if s.Some? then Format(path, s.value, valid, message) else []
  }

  /** The schema library's message for a number below its `.min(0)` bound. */
  const TooSmall: string := "Number must be greater than or equal to 0"

  /** `z.number().min(0)` on an optional field. */
  function OptionalNonNegative(path: string, x: Option<real>): seq<Issue> {
    if x.Some? && x.value < 0.0 then [Issue(path, TooSmall)] else []
  }

  /** A one-character string is long enough for `.min(1)` and the empty one is not. */
  lemma MinOneIsNonEmpty(path: string, s: string, message: string)
    ensures MinLength(path, s, 1, message) == [] <==> s != []
  {
  }

  // ---- loginSchema

  datatype LoginForm = LoginForm(email: string, password: string)

  function LoginIssues(form: LoginForm, isEmail: string -> bool): (issues: seq<Issue>)
    ensures issues == [] <==> isEmail(form.email) && form.password != []
    ensures Issue("password", "Password is required") in issues <==> form.password == []
    ensures Issue("email", "Invalid email address") in issues <==> !isEmail(form.email)
  {
    Format("email", form.email, isEmail, "Invalid email address")
      + MinLength("password", form.password, 1, "Password is required")
  }

  // ---- createClientSchema and updateClientSchema

  datatype CreateClientForm = CreateClientForm(
    name: string,
    description: Option<string>,
    location: Option<string>,
    loginId: string,
    password: string,
    sequenceId: Option<string>)

  datatype UpdateClientForm = UpdateClientForm(
    name: Option<string>,
    description: Option<string>,
    location: Option<string>,
    password: Option<string>,
    sequenceId: Option<string>)

  const PasswordTooShort: string := "Password must be at least 6 characters"

  /**
   * Accepted exactly when the name and login id are non-empty and the
   * password is at least six code units long; the optional fields never cause
   * an issue, and the issues come in field order.
   */
  function CreateClientIssues(form: CreateClientForm): (issues: seq<Issue>)
    ensures issues == [] <==> form.name != [] && form.loginId != [] && Utf16Length(form.password) >= 6
    ensures forall i :: 0 <= i < |issues| ==> issues[i].path in {"name", "loginId", "password"}
    ensures Issue("password", PasswordTooShort) in issues <==> Utf16Length(form.password) < 6
    ensures |issues| <= 3
  {
    MinLength("name", form.name, 1, "Name is required")
      + MinLength("loginId", form.loginId, 1, "Login ID is required")
      + MinLength("password", form.password, 6, PasswordTooShort)
  }

  /** Every field may be left out; a given name must be non-empty and a given password at least six code units long. */
  function UpdateClientIssues(form: UpdateClientForm): (issues: seq<Issue>)
    ensures issues == [] <==>
              (form.name.Some? ==> form.name.value != []) && (form.password.Some? ==> Utf16Length(form.password.value) >= 6)
    ensures form.name.None? && form.password.None? ==> issues == []
  {
    OptionalMinLength("name", form.name, 1, "Name is required")
      + OptionalMinLength("password", form.password, 6, PasswordTooShort)
  }

  /** The update form holding every field of a create form. */
  function ClientAsUpdate(form: CreateClientForm): UpdateClientForm {
    UpdateClientForm(Some(form.name), form.description, form.location, Some(form.password), form.sequenceId)
  }

  /** The update rules are weaker than the create rules. */
  lemma CreateClientImpliesUpdate(form: CreateClientForm)
    ensures CreateClientIssues(form) == [] ==> UpdateClientIssues(ClientAsUpdate(form)) == []
  {
  }

  /**
   * The password bound counts UTF-16 code units, not characters: six
   * characters always pass, fewer than three never do, and for text without
   * characters beyond U+FFFF the bound is exactly six characters.
   */
  lemma {:induction false} PasswordLengthBound(form: CreateClientForm)
    requires form.name != [] && form.loginId != []
    ensures |form.password| >= 6 ==> CreateClientIssues(form) == []
    ensures |form.password| < 3 ==> CreateClientIssues(form) != []
    ensures (forall k :: 0 <= k < |form.password| ==> form.password[k] as int <= 0xFFFF) ==>
              (CreateClientIssues(form) == [] <==> |form.password| >= 6)
  {
    if forall k :: 0 <= k < |form.password| ==> form.password[k] as int <= 0xFFFF {
      Utf16LengthBmp(form.password);
    }
  }

  /** Three characters beyond U+FFFF make a password the schema accepts. */
  lemma AstralPasswordAccepted()
    ensures CreateClientIssues(CreateClientForm("n", None, None, "id", "\U{1F600}\U{1F600}\U{1F600}", None)) == []
  {
    var p := "\U{1F600}\U{1F600}\U{1F600}";
    assert p[1..][1..][1..] == [];
    assert Utf16Length(p) == 6;
  }

  // ---- createVideoSchema and updateVideoSchema

  datatype CreateVideoForm = CreateVideoForm(
    url: string,
    title: string,
    duration: Option<real>,
    thumbnail: Option<string>,
    source: Option<VideoSource>)

  datatype UpdateVideoForm = UpdateVideoForm(
    url: Option<string>,
    title: Option<string>,
    duration: Option<real>,
    thumbnail: Option<string>,
    source: Option<VideoSource>)

  /** Accepted exactly when the URL and a given thumbnail are URLs, the title is non-empty and a given duration is not negative. */
  function CreateVideoIssues(form: CreateVideoForm, isUrl: string -> bool): (issues: seq<Issue>)
    ensures issues == [] <==>
              isUrl(form.url) && form.title != [] && (form.duration.Some? ==> form.duration.value >= 0.0)
              && (form.thumbnail.Some? ==> isUrl(form.thumbnail.value))
    ensures Issue("title", "Title is required") in issues <==> form.title == []
    ensures Issue("duration", TooSmall) in issues <==> form.duration.Some? && form.duration.value < 0.0
  {
    Format("url", form.url, isUrl, "Invalid URL")
      + MinLength("title", form.title, 1, "Title is required")
      + OptionalNonNegative("duration", form.duration)
      + OptionalFormat("thumbnail", form.thumbnail, isUrl, "Invalid url")
  }

  /** The same bounds as on creation, each applying only to a given field. */
  function UpdateVideoIssues(form: UpdateVideoForm, isUrl: string -> bool): (issues: seq<Issue>)
    ensures issues == [] <==>
              (form.url.Some? ==> isUrl(form.url.value)) && (form.title.Some? ==> form.title.value != [])
              && (form.duration.Some? ==> form.duration.value >= 0.0) && (form.thumbnail.Some? ==> isUrl(form.thumbnail.value))
    ensures form.url.None? && form.title.None? && form.duration.None? && form.thumbnail.None? ==> issues == []
  {
    OptionalFormat("url", form.url, isUrl, "Invalid URL")
      + OptionalMinLength("title", form.title, 1, "Title is required")
      + OptionalNonNegative("duration", form.duration)
      + OptionalFormat("thumbnail", form.thumbnail, isUrl, "Invalid url")
  }

  function VideoAsUpdate(form: CreateVideoForm): UpdateVideoForm {
    UpdateVideoForm(Some(form.url), Some(form.title), form.duration, form.thumbnail, form.source)
  }

  lemma CreateVideoImpliesUpdate(form: CreateVideoForm, isUrl: string -> bool)
    ensures CreateVideoIssues(form, isUrl) == [] <==> UpdateVideoIssues(VideoAsUpdate(form), isUrl) == []
  {
  }

  // ---- createSequenceSchema and updateSequenceSchema

  datatype CreateSequenceForm = CreateSequenceForm(
    name: string,
    description: Option<string>,
    flowData: string,
    isActive: Option<bool>,
    startDate: Option<string>,
    endDate: Option<string>,
    activeHours: Option<string>)

  datatype UpdateSequenceForm = UpdateSequenceForm(
    name: Option<string>,
    description: Option<string>,
    flowData: Option<string>,
    isActive: Option<bool>,
    startDate: Option<string>,
    endDate: Option<string>,
    activeHours: Option<string>)

  /** Accepted exactly when the name and the flow data are non-empty. */
  function CreateSequenceIssues(form: CreateSequenceForm): (issues: seq<Issue>)
    ensures issues == [] <==> form.name != [] && form.flowData != []
    ensures Issue("flowData", "Flow data is required") in issues <==> form.flowData == []
    ensures Issue("name", "Name is required") in issues <==> form.name == []
  {
    MinLength("name", form.name, 1, "Name is required")
      + MinLength("flowData", form.flowData, 1, "Flow data is required")
  }

  /** Only a given empty name is refused; the flow data may be given empty. */
  function UpdateSequenceIssues(form: UpdateSequenceForm): (issues: seq<Issue>)
    ensures issues == [] <==> form.name != Some([])
  {
    OptionalMinLength("name", form.name, 1, "Name is required")
  }

  function SequenceAsUpdate(form: CreateSequenceForm): UpdateSequenceForm {
    UpdateSequenceForm(Some(form.name), form.description, Some(form.flowData), form.isActive,
                       form.startDate, form.endDate, form.activeHours)
  }

  /** Creation is strictly harder to pass: the update rules drop the flow-data bound. */
  lemma CreateSequenceImpliesUpdate(form: CreateSequenceForm)
    ensures CreateSequenceIssues(form) == [] ==> UpdateSequenceIssues(SequenceAsUpdate(form)) == []
    ensures form.name != [] && form.flowData == [] ==>
              CreateSequenceIssues(form) != [] && UpdateSequenceIssues(SequenceAsUpdate(form)) == []
  {
  }
}
