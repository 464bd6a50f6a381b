/**
 * The auth Lambda: `POST …/login` checks a participant's credentials with Cognito and tells the client which
 * simulation level to open, read from the user attribute `custom:currentCompletedStep`; `POST …/signout`
 * only acknowledges. The two Cognito calls are foreign: their results are parameters, and the model records
 * the commands sent.
 */
module AuthHandler {
  import opened Wrappers
  import opened Assoc
  import opened Json
  import opened Http
  import opened Lambda
  import Text
  import Reducer
  import opened Cognito

  const InvalidEndpoint := "Invalid endpoint. Use /login or /signout"
  const InternalError := "Internal server error"
  const MissingCredentials := "Missing required fields: username and password"
  const InvalidCredentials := "Invalid credentials"
  const CompletedAll := "You have completed all simulations. Please head to post survey."
  const LoginSucceeded := "Login successful"
  const LoginFailed := "Failed to process login request"
  const SignedOut := "Sign out successful"

  /** The attribute holding the last step the participant completed, and its default. */
  const StepAttribute := "custom:currentCompletedStep"
  const DefaultStep := "simulation-tutorial"

  /** The methods named in this handler's 405 answer. */
  const PostOptions: seq<string> := ["POST", "OPTIONS"]

  /** What `InitiateAuthCommand` did: an error with its `name`, or a result with a possibly missing token. */
  datatype AuthReply = AuthThrew(authError: string) | AuthResult(accessToken: Option<string>)

  /** `attributes?.find(attr => attr.Name === name)`, as an index. */
  function FindAttribute(attributes: seq<Attribute>, name: string): (r: Option<nat>)
    ensures r.Some? ==> r.value < |attributes| && attributes[r.value].name == Some(name)
    ensures forall j :: 0 <= j < |attributes| && (r.None? || j < r.value) ==> attributes[j].name != Some(name)
  {
    if attributes == [] then None
    else if attributes[0].name == Some(name) then Some(0)
    else match FindAttribute(attributes[1..], name)
      case None => None
      case Some(i) => Some(i + 1)
  }

  /** `currentStepAttr?.Value || "simulation-tutorial"`: the first step attribute's value, unless it is
      missing or empty. */
  function CurrentStep(attributes: Option<seq<Attribute>>): (step: string)
    ensures step != ""
    ensures attributes.None? ==> step == DefaultStep
    ensures attributes.Some? && FindAttribute(attributes.value, StepAttribute).None? ==> step == DefaultStep
  {
    if attributes.None? then DefaultStep
    else match FindAttribute(attributes.value, StepAttribute)
      case None => DefaultStep
      case Some(i) =>
        var v := attributes.value[i].value;
        if v.None? || v.value == "" then DefaultStep else v.value
  }

  /** The level a participant whose last completed step is `step` may log in to, or None when every
      simulation is behind them. */
  function LoginLevel(step: string): (r: Option<int>)
    ensures r.Some? ==> 1 <= r.value <= 3
    ensures r.None? <==> step == "level-3-simulation" || step == "post-survey"
  {
    if step == "level-1-simulation" then Some(2)
    else if step == "level-2-simulation" then Some(3)
    else if step == "level-3-simulation" || step == "post-survey" then None
    else Some(1)
  }

  /** The `switch (currentStep)` over the three locals it sets. */
  method DecideLevel(currentStep: string) returns (simulationLevel: int, canLogin: bool, errorMessage: string)
    ensures canLogin <==> LoginLevel(currentStep).Some?
    ensures canLogin ==> simulationLevel == LoginLevel(currentStep).value && errorMessage == ""
    ensures !canLogin ==> errorMessage == CompletedAll
  {
    simulationLevel := 1;
    canLogin := true;
    errorMessage := "";
    if currentStep == "simulation-tutorial" {
      simulationLevel := 1;
    } else if currentStep == "level-1-simulation" {
      simulationLevel := 2;
    } else if currentStep == "level-2-simulation" {
      simulationLevel := 3;
    } else if currentStep == "level-3-simulation" || currentStep == "post-survey" {
      canLogin := false;
      errorMessage := CompletedAll;
    } else {
      simulationLevel := 1;
    }
  }

  /** The inner `catch`: Cognito's error name picks the answer. */
  function AuthError(name: string): (r: Response)
    ensures name == "NotAuthorizedException" ==> r == BadRequestResponse("Invalid username or password")
    ensures name == "UserNotConfirmedException" ==> r == BadRequestResponse("User account not confirmed")
    ensures name == "UserNotFoundException" ==> r == BadRequestResponse("User not found")
    ensures r.statusCode == 400 <==>
      name in {"NotAuthorizedException", "UserNotConfirmedException", "UserNotFoundException"}
    ensures r.statusCode != 400 ==> r == ServerError("Authentication failed")
  {
    if name == "NotAuthorizedException" then BadRequestResponse("Invalid username or password")
    else if name == "UserNotConfirmedException" then BadRequestResponse("User account not confirmed")
    else if name == "UserNotFoundException" then BadRequestResponse("User not found")
    else ServerError("Authentication failed")
  }

  /** The body of a successful login; `JSON.stringify` leaves `userID` out when it is undefined. */
  function LoginBody(userName: Option<string>, level: int): Value {
    JObj([("message", JStr(LoginSucceeded))]
         + (if userName.Some? then [("userID", JStr(userName.value))] else [])
         + [("simulationLevel", JNum(level))])
  }

  /** Everything `handleLogin(body)` may do, branch by branch. */
  ghost predicate LoginSpec(clientId: string, userPoolId: string, body: Option<string>, jsonParse: string -> Option<Value>,
                            authReply: AuthReply, userReply: UserReply, o: CognitoOutcome)
    requires ParsesObjects(jsonParse)
  {
    // a missing body, malformed JSON and a `null` payload all reach the outer `catch`
    match Payload(body, jsonParse)
    case Err(_) => o == CognitoOutcome(ServerError(LoginFailed), [])
    case Ok(fields) =>
      var username := Get(fields, "username");
      var password := Get(fields, "password");
      if !Truthy(username) || !Truthy(password) then o == CognitoOutcome(BadRequestResponse(MissingCredentials), [])
      else
        var auth := InitiateAuth(clientId, username.value, password.value);
        var lookup := AdminGetUser(userPoolId, username.value);
        match authReply
        case AuthThrew(name) => o == CognitoOutcome(AuthError(name), [auth])
        case AuthResult(token) =>
          if token.None? || token.value == "" then o == CognitoOutcome(BadRequestResponse(InvalidCredentials), [auth])
          else match userReply
            case UserThrew(name) => o == CognitoOutcome(AuthError(name), [auth, lookup])
            case UserResult(userName, _, attributes) =>
              o.sent == [auth, lookup]
              && o.response == match LoginLevel(CurrentStep(attributes))
                 case None => CreateResponse(FORBIDDEN, Message("error", CompletedAll), [])
                 case Some(level) => CreateResponse(OK, LoginBody(userName, level), [])
  }

  /** `handleLogin(body)` with the client and pool ids from the environment. */
  method HandleLogin(clientId: string, userPoolId: string, body: Option<string>, jsonParse: string -> Option<Value>,
                     authReply: AuthReply, userReply: UserReply) returns (o: CognitoOutcome)
    requires ParsesObjects(jsonParse)
    ensures LoginSpec(clientId, userPoolId, body, jsonParse, authReply, userReply, o)
    // a login succeeds only with a token and a user record, after both calls
    ensures o.response.statusCode == 200 ==>
      authReply.AuthResult? && authReply.accessToken.Some? && userReply.UserResult? && |o.sent| == 2
  {
    var payload := Payload(body, jsonParse);
    if payload.Err? {
      return CognitoOutcome(ServerError(LoginFailed), []);
    }
    var username := Get(payload.value, "username");
    var password := Get(payload.value, "password");
    if !Truthy(username) || !Truthy(password) {
      return CognitoOutcome(BadRequestResponse(MissingCredentials), []);
    }
    var auth := InitiateAuth(clientId, username.value, password.value);
    if authReply.AuthThrew? {
      return CognitoOutcome(AuthError(authReply.authError), [auth]);
    }
    if authReply.accessToken.None? || authReply.accessToken.value == "" {
      return CognitoOutcome(BadRequestResponse(InvalidCredentials), [auth]);
    }
    var sent := [auth, AdminGetUser(userPoolId, username.value)];
    if userReply.UserThrew? {
      return CognitoOutcome(AuthError(userReply.userError), sent);
    }
    var currentStep := CurrentStep(userReply.attributes);
    var simulationLevel, canLogin, errorMessage := DecideLevel(currentStep);
    if !canLogin {
      return CognitoOutcome(CreateResponse(FORBIDDEN, Message("error", errorMessage), []), sent);
    }
    o := CognitoOutcome(CreateResponse(OK, LoginBody(userReply.userName, simulationLevel), []), sent);
  }

  /** `handleSignout(body)`: always acknowledged, with the time of the answer. */
  function HandleSignout(now: string): (r: Response)
    ensures r.statusCode == 200
    ensures Field(r.body, "message") == Some(JStr(SignedOut)) && Field(r.body, "timestamp") == Some(JStr(now))
  {
    var body := [("message", JStr(SignedOut)), ("timestamp", JStr(now))];
    assert Get(body[1..], "timestamp") == Some(JStr(now));
    CreateResponse(OK, JObj(body), [])
  }

  /** The Lambda entry point. */
  method Handle(userPoolId: Option<string>, clientId: Option<string>, event: Event, jsonParse: string -> Option<Value>,
                authReply: AuthReply, userReply: UserReply, now: string) returns (o: CognitoOutcome)
    requires ParsesObjects(jsonParse)
    ensures event.httpMethod == "OPTIONS" ==> o == CognitoOutcome(OptionsResponse(), [])
    ensures event.httpMethod != "OPTIONS" && (!Configured(userPoolId) || !Configured(clientId)) ==>
      o == CognitoOutcome(ServerError(ConfigurationError), [])
    ensures event.httpMethod == "POST" && Configured(userPoolId) && Configured(clientId) ==>
      if event.path.None? then o == CognitoOutcome(ServerError(InternalError), [])
      else if Text.EndsWith(event.path.value, "/login") then
        LoginSpec(clientId.value, userPoolId.value, event.body, jsonParse, authReply, userReply, o)
      else if Text.EndsWith(event.path.value, "/signout") then o == CognitoOutcome(HandleSignout(now), [])
      else o == CognitoOutcome(BadRequestResponse(InvalidEndpoint), [])
    ensures event.httpMethod != "OPTIONS" && event.httpMethod != "POST" && Configured(userPoolId) && Configured(clientId) ==>
      o == CognitoOutcome(MethodNotAllowedResponse(PostOptions), [])
    // Cognito is asked about a user only on the login path
    ensures o.sent != [] ==>
      event.httpMethod == "POST" && event.path.Some? && Text.EndsWith(event.path.value, "/login")
  {
    if event.httpMethod == "OPTIONS" {
      return CognitoOutcome(OptionsResponse(), []);
    }
    if !Configured(userPoolId) || !Configured(clientId) {
      return CognitoOutcome(ServerError(ConfigurationError), []);
    }
    if event.httpMethod == "POST" {
      if event.path.None? {
        // `path.endsWith` on a missing path throws, and the outer `catch` answers
        return CognitoOutcome(ServerError(InternalError), []);
      }
      if Text.EndsWith(event.path.value, "/login") {
        o := HandleLogin(clientId.value, userPoolId.value, event.body, jsonParse, authReply, userReply);
        return;
      }
      if Text.EndsWith(event.path.value, "/signout") {
        return CognitoOutcome(HandleSignout(now), []);
      }
      return CognitoOutcome(BadRequestResponse(InvalidEndpoint), []);
    }
    return CognitoOutcome(MethodNotAllowedResponse(PostOptions), []);
  }

  /** The level offered at login is the simulation the step list puts after the participant's last completed
      step (the attribute holds step paths without their slash); after the third simulation or the post
      survey none is offered. */
  lemma LoginFollowsStepList(k: nat)
    requires 2 <= k <= 6
    ensures var step := Reducer.StepPaths[k][1..];
      if k <= 4 then
        LoginLevel(step) == Some(k - 1) && Reducer.NextStep(Some(step)) == Reducer.StepPaths[k + 1]
      else
        LoginLevel(step).None?
  {
    var step := Reducer.StepPaths[k][1..];
    Reducer.NextStepOfStep(k, false);
    if k == 2 {
      assert step == "simulation-tutorial";
    } else if k == 3 {
      assert step == "level-1-simulation";
    } else if k == 4 {
      assert step == "level-2-simulation";
    } else if k == 5 {
      assert step == "level-3-simulation";
    } else {
      assert step == "post-survey";
    }
  }

  /** A participant whose attribute is missing, empty, or names a step before the tutorial logs in to level 1. */
  lemma DefaultLevelIsOne(attributes: Option<seq<Attribute>>)
    requires attributes.None? || FindAttribute(attributes.value, StepAttribute).None?
    ensures LoginLevel(CurrentStep(attributes)) == Some(1)
    ensures LoginLevel("pre-survey") == Some(1) && LoginLevel("informed-consent") == Some(1)
  {
  }
}
