/**
 * The admin client's `registerUser`: the reply to the user-creation POST, or its failure, mapped to the
 * record the admin page shows. The call itself is an input.
 */
module AdminClient {
  import opened Wrappers
  import opened Json

  /** What the page keeps from a registration attempt. Values come straight from the reply, so they are
      JSON values; `None` plays `undefined`. */
  datatype RegistrationResponse = RegistrationResponse(
    success: bool, message: Value, username: Option<Value>, password: Option<Value>)

  /** How the POST ended: a reply with a 2xx status and its body; an HTTP error with its status and body;
      or no reply at all (network failure). */
  datatype PostOutcome =
    | Answered(data: Value)
    | HttpError(status: int, data: Value)
    | NoReply

  const Registered := "User registered successfully!"
  const UsernameTaken := "This username is already taken. Please choose a different username."
  const InvalidInformation := "Invalid information provided. Please check your username."
  const ServerFailure := "Server error occurred. Please try again later or contact support."
  const RegistrationFailed := "Registration failed. Please try again."
  const NetworkError := "Network error. Please check your connection and try again."

  function Failure(message: Value): RegistrationResponse {
    RegistrationResponse(false, message, None, None)
  }

  /** `registerUser(data)` once the POST has ended; it never throws. Reading `username` from a `null` body
      throws inside the `try`, and that error has no HTTP reply, so it reads as a network error. */
  function RegisterUser(outcome: PostOutcome): (r: RegistrationResponse)
    ensures r.success <==> outcome.Answered? && outcome.data != JNull
    ensures r.success ==> r == RegistrationResponse(true, JStr(Registered), Field(outcome.data, "username"), Field(outcome.data, "password"))
    ensures outcome.HttpError? && outcome.status == 409 ==> r == Failure(JStr(UsernameTaken))
    ensures outcome.HttpError? && outcome.status == 400 ==> r == Failure(JStr(InvalidInformation))
    ensures outcome.HttpError? && outcome.status == 500 ==> r == Failure(JStr(ServerFailure))
    ensures outcome.HttpError? && outcome.status !in {400, 409, 500} ==>
      r == Failure(if Truthy(Field(outcome.data, "message")) then Field(outcome.data, "message").value else JStr(RegistrationFailed))
    ensures outcome.NoReply? || outcome == Answered(JNull) ==> r == Failure(JStr(NetworkError))
  {
    match outcome
    case Answered(data) =>
      if data == JNull then Failure(JStr(NetworkError))
      else RegistrationResponse(true, JStr(Registered), Field(data, "username"), Field(data, "password"))
    case HttpError(status, data) =>
      if status == 409 then Failure(JStr(UsernameTaken))
      else if status == 400 then Failure(JStr(InvalidInformation))
      else if status == 500 then Failure(JStr(ServerFailure))
      else
        var message := Field(data, "message");
        Failure(if Truthy(message) then message.value else JStr(RegistrationFailed))
    case NoReply => Failure(JStr(NetworkError))
  }

  /** A failure's message is never empty: either a fixed text or a truthy server message. */
  lemma FailureMessageTruthy(outcome: PostOutcome)
    ensures !RegisterUser(outcome).success ==> Truthy(Some(RegisterUser(outcome).message))
  {
  }
}

/**
 * The admin page that registers users: the form, its validity rule, the role mapping on submit, and the
 * page's loading, submitted and response state.
 */
module AdminControl {
  import opened Wrappers
  import opened Json
  import Text
  import AdminClient

  datatype UserRegistration = UserRegistration(email: string, role: string, customRole: string)

  /** The body posted on submit: the email and the role to record. */
  datatype Submission = Submission(email: string, role: string)

  predicate Blank(s: string) {
    forall i :: 0 <= i < |s| ==> Text.IsSpace(s[i])
  }

  /** The email trimmed is non-empty and contains `@`, a role is chosen, and a custom role is given when the
      role is "other". Since `@` is not white space, the email rule is just "contains `@`". */
  function IsFormValid(f: UserRegistration): (ok: bool)
    ensures ok <==> '@' in f.email && f.role != "" && (f.role == "other" ==> !Blank(f.customRole))
  {
    Text.TrimEmptyIffBlank(f.email);
    Text.TrimEmptyIffBlank(f.customRole);
    Text.ContainsChar(f.email, '@');
    Text.Trim(f.email) != "" && Text.Contains(f.email, "@")
    && f.role != ""
    && (f.role != "other" || Text.Trim(f.customRole) != "")
  }

  /** The role sent: the custom role when "other" is chosen, else the role itself. */
  function SubmittedRole(f: UserRegistration): (role: string)
    ensures f.role == "other" ==> role == f.customRole
    ensures f.role != "other" ==> role == f.role
  {
    if f.role == "other" then f.customRole else f.role
  }

  /** A valid form never sends an empty role. */
  lemma ValidFormSendsRole(f: UserRegistration)
    requires IsFormValid(f)
    ensures SubmittedRole(f) != ""
  {
  }

  const UnexpectedError := "Unexpected error occurred. Please try again."

  class Page {
    var formData: UserRegistration
    var isSubmitted: bool
    var response: Option<AdminClient.RegistrationResponse>
    var isLoading: bool

    constructor()
      ensures formData == UserRegistration("", "", "") && !isSubmitted && response == None && !isLoading
    {
      formData := UserRegistration("", "", "");
      isSubmitted := false;
      response := None;
      isLoading := false;
    }

    method HandleEmailChange(value: string)
      modifies this
      ensures formData == old(formData).(email := value)
      ensures isSubmitted == old(isSubmitted) && response == old(response) && isLoading == old(isLoading)
    {
      formData := formData.(email := value);
    }

    /** Choosing a role clears the custom role, unless the new role is "other". */
    method HandleRoleChange(value: string)
      modifies this
      ensures formData.email == old(formData.email) && formData.role == value
      ensures formData.customRole == if value != "other" then "" else old(formData.customRole)
      ensures isSubmitted == old(isSubmitted) && response == old(response) && isLoading == old(isLoading)
    {
      formData := formData.(role := value, customRole := if value != "other" then "" else formData.customRole);
    }

    method HandleCustomRoleChange(value: string)
      modifies this
      ensures formData == old(formData).(customRole := value)
      ensures isSubmitted == old(isSubmitted) && response == old(response) && isLoading == old(isLoading)
    {
      formData := formData.(customRole := value);
    }

    /** `handleSubmit`. `outcome` is how the POST ended; `None` stands for an exception escaping
        `registerUser`, which then shows the unexpected-error response. Either way the page shows a
        response and is no longer loading; the form is kept. */
    method HandleSubmit(outcome: Option<AdminClient.PostOutcome>) returns (sent: Submission)
      modifies this
      ensures sent == Submission(old(formData.email), SubmittedRole(old(formData)))
      ensures response == Some(if outcome.Some? then AdminClient.RegisterUser(outcome.value)
                               else AdminClient.Failure(JStr(UnexpectedError)))
      ensures isSubmitted && !isLoading && formData == old(formData)
    {
      isLoading := true;
      sent := Submission(formData.email, if formData.role == "other" then formData.customRole else formData.role);
      if outcome.Some? {
        var result := AdminClient.RegisterUser(outcome.value);
        response := Some(result);
        isSubmitted := true;
      } else {
        response := Some(AdminClient.Failure(JStr(UnexpectedError)));
        isSubmitted := true;
      }
      isLoading := false;
    }

    /** `handleBackToForm`: back to the form with its data intact. */
    method HandleBackToForm()
      modifies this
      ensures !isSubmitted && response == None
      ensures formData == old(formData) && isLoading == old(isLoading)
    {
      isSubmitted := false;
      response := None;
    }
  }

  /** The body of the POST as a JSON object. */
  function SubmissionValue(s: Submission): Value {
    JObj([("email", JStr(s.email)), ("role", JStr(s.role))])
  }
}
