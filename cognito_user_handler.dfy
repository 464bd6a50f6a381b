/**
 * The cognito-user Lambda the admin page calls: `POST` registers a participant under
 * `<username>@nursetown.com` with a generated password, `GET ?username=…` describes an existing user.
 * `Math.random` is a parameter: `random(i)` is the i-th draw, a real in [0, 1).
 */
module CognitoUserHandler {
  import opened Wrappers
  import opened Assoc
  import opened Json
  import opened Http
  import opened Lambda
  import opened Cognito
  import AdminControl
  import AdminClient

  const MissingUsername := "Missing required field: username"
  const UsernameTaken := "Username already exists"
  const CreateFailed := "Failed to create user"
  const UserCreated := "User created successfully"
  const MissingUsernameParam := "Missing query parameter: username"
  const UserNotFound := "User not found"
  const RetrieveFailed := "Failed to retrieve user information"
  const EmailDomain := "@nursetown.com"

  // ---- generatePassword ----

  const Letters := "abcdefghijklmnopqrstuvwxyzABCDEFGHIJKLMNOPQRSTUVWXYZ"
  const Digits := "0123456789"
  const Symbols := "!@#$%^&*()_-+="
  const AllChars := Letters + Digits + Symbols

  /** Some character of `s` is one of `chars`. */
  predicate HasOneOf(s: string, chars: string) {
    exists i :: 0 <= i < |s| && s[i] in chars
  }

  /** What the generator promises: the requested length (at least 3), only characters of the three
      classes, and at least one letter, one digit and one symbol. */
  predicate PasswordPolicy(password: string, length: int) {
    |password| == (if length > 3 then length else 3)
    && (forall i :: 0 <= i < |password| ==> password[i] in AllChars)
    && HasOneOf(password, Letters) && HasOneOf(password, Digits) && HasOneOf(password, Symbols)
  }

  /** `Math.floor(r * n)` for a draw `r` in [0, 1): an index into a string of length `n`. */
  function Pick(r: real, n: nat): (i: nat)
    requires 0.0 <= r < 1.0 && n > 0
    ensures i < n
  {
    assert r * n as real < n as real by {
      assert (1.0 - r) * n as real > 0.0;
    }
    (r * n as real).Floor
  }

  /** `generatePassword(length)`: one guaranteed letter, digit and symbol, `length - 3` characters drawn from
      all three classes, then a Fisher–Yates shuffle of the whole in an array. `unshuffled` is the string
      before the shuffle. */
  method GeneratePassword(length: int, random: nat -> real) returns (password: string, ghost unshuffled: string)
    requires forall i :: 0.0 <= random(i) < 1.0
    ensures PasswordPolicy(password, length)
    ensures multiset(password) == multiset(unshuffled)
    ensures |unshuffled| >= 3 && unshuffled[0] in Letters && unshuffled[1] in Digits && unshuffled[2] in Symbols
  {
    var guaranteedLetter, guaranteedDigit, guaranteedSymbol := GuaranteedChars(random);
    InClasses(guaranteedLetter, guaranteedDigit, guaranteedSymbol);

    var remaining := RandomChars(length - 3, random, 3);
    var combined := [guaranteedLetter, guaranteedDigit, guaranteedSymbol] + remaining;
    unshuffled := combined;
    var passwordArray := new char[|combined|](k requires 0 <= k < |combined| => combined[k]);
    assert passwordArray[..] == combined;

    ShuffleInPlace(passwordArray, random, 3 + |remaining|);
    password := passwordArray[..];
    ShuffleKeepsPolicy(combined, password, length);
  }

  /** The first three draws: one letter, one digit and one symbol. */
  method GuaranteedChars(random: nat -> real) returns (letter: char, digit: char, symbol: char)
    requires forall i :: 0.0 <= random(i) < 1.0
    ensures letter in Letters && digit in Digits && symbol in Symbols
  {
    letter := Letters[Pick(random(0), |Letters|)];
    digit := Digits[Pick(random(1), |Digits|)];
    symbol := Symbols[Pick(random(2), |Symbols|)];
  }

  /** Shuffling a string of the right length that starts with a letter, a digit and a symbol and uses only
      the alphabet yields a password that meets the policy. */
  lemma ShuffleKeepsPolicy(combined: string, password: string, length: int)
    requires |combined| == (if length > 3 then length else 3)
    requires combined[0] in Letters && combined[1] in Digits && combined[2] in Symbols
    requires forall k :: 0 <= k < |combined| ==> combined[k] in AllChars
    requires multiset(password) == multiset(combined)
    ensures PasswordPolicy(password, length)
  {
    assert |password| == |multiset(password)| == |combined|;
    ShuffledInAlphabet(combined, password);
    KeptByShuffle(combined, password, 0, Letters);
    KeptByShuffle(combined, password, 1, Digits);
    KeptByShuffle(combined, password, 2, Symbols);
  }

  /** The fill loop: `count` characters drawn from the whole alphabet, none for a count below one. */
  method RandomChars(count: int, random: nat -> real, firstDraw: nat) returns (chars: string)
    requires forall i :: 0.0 <= random(i) < 1.0
    ensures |chars| == if count > 0 then count else 0
    ensures forall k :: 0 <= k < |chars| ==> chars[k] in AllChars
  {
    chars := "";
    var i := 0;
    while i < count
      invariant 0 <= i && |chars| == i
      invariant i <= (if count > 0 then count else 0)
      invariant forall k :: 0 <= k < |chars| ==> chars[k] in AllChars
    {
      chars := chars + [AllChars[Pick(random(firstDraw + i), |AllChars|)]];
      i := i + 1;
    }
  }

  /** A rearrangement of characters from the alphabet uses only the alphabet. */
  lemma ShuffledInAlphabet(combined: string, password: string)
    requires forall k :: 0 <= k < |combined| ==> combined[k] in AllChars
    requires multiset(password) == multiset(combined)
    ensures forall p :: 0 <= p < |password| ==> password[p] in AllChars
  {
    forall p | 0 <= p < |password| ensures password[p] in AllChars {
      assert password[p] in multiset(combined);
      var q :| 0 <= q < |combined| && combined[q] == password[p];
    }
  }

  /** The Fisher–Yates loop: for i from the last index down to 1, swap a[i] with a[j], j drawn from 0..i.
      The draws used start at `firstDraw`. */
  method ShuffleInPlace(a: array<char>, random: nat -> real, firstDraw: nat)
    requires forall i :: 0.0 <= random(i) < 1.0
    modifies a
    ensures multiset(a[..]) == multiset(old(a[..]))
  {
    var draw := firstDraw;
    var i := a.Length - 1;
    while i > 0
      invariant -1 <= i < a.Length
      invariant multiset(a[..]) == multiset(old(a[..]))
    {
      var j := Pick(random(draw), i + 1);
      a[i], a[j] := a[j], a[i];
      i := i - 1;
      draw := draw + 1;
    }
  }

  /** Each guaranteed character belongs to its class and to the full alphabet. */
  lemma InClasses(letter: char, digit: char, symbol: char)
    requires letter in Letters && digit in Digits && symbol in Symbols
    ensures letter in AllChars && digit in AllChars && symbol in AllChars
  {
    var a :| 0 <= a < |Letters| && Letters[a] == letter;
    assert AllChars[a] == letter;
    var b :| 0 <= b < |Digits| && Digits[b] == digit;
    assert AllChars[|Letters| + b] == digit;
    var c :| 0 <= c < |Symbols| && Symbols[c] == symbol;
    assert AllChars[|Letters| + |Digits| + c] == symbol;
  }

  /** A shuffle loses no character: the class of the one at `q` is still represented. */
  lemma KeptByShuffle(before: string, after: string, q: nat, chars: string)
    requires multiset(before) == multiset(after) && q < |before| && before[q] in chars
    ensures HasOneOf(after, chars)
  {
    assert before[q] in multiset(after);
    var p :| 0 <= p < |after| && after[p] == before[q];
  }

  // ---- handleCreateUser ----

  /** `${username}@nursetown.com`. */
  function Email(username: Value): string {
    ToJsString(username) + EmailDomain
  }

  /** The attributes a new account gets: its e-mail address, already verified. */
  function NewUserAttributes(email: string): seq<Attribute> {
    [Attribute(Some("email"), Some(email)), Attribute(Some("email_verified"), Some("true"))]
  }

  /** The body of the 200 answer: the login name and password to hand to the participant. */
  function CreatedBody(email: string, password: string): Value {
    JObj([("message", JStr(UserCreated)), ("username", JStr(email)), ("password", JStr(password))])
  }

  /** Everything `handleCreateUser(body)` may do, branch by branch; `password` is the generated one. */
  ghost predicate CreateSpec(userPoolId: string, body: Option<string>, jsonParse: string -> Option<Value>,
                             lookupReply: UserReply, createReply: CallReply, setReply: CallReply,
                             password: string, o: CognitoOutcome)
    requires ParsesObjects(jsonParse)
  {
    match Payload(body, jsonParse)
    // a missing body, malformed JSON and a `null` payload all reach the outer `catch`
    case Err(_) => o == CognitoOutcome(ServerError(CreateFailed), [])
    case Ok(fields) =>
      var username := Get(fields, "username");
      if !Truthy(username) then o == CognitoOutcome(BadRequestResponse(MissingUsername), [])
      else
        var email := Email(username.value);
        var check := AdminGetUser(userPoolId, JStr(email));
        // any lookup error reads as "no such user"
        if lookupReply.UserResult? then o == CognitoOutcome(ConflictResponse(UsernameTaken), [check])
        else
          var create := AdminCreateUser(userPoolId, email, NewUserAttributes(email), "SUPPRESS");
          var setPassword := AdminSetUserPassword(userPoolId, email, password, true);
          PasswordPolicy(password, 12)
          && o == if createReply.Threw? then CognitoOutcome(ServerError(CreateFailed), [check, create])
                  else if setReply.Threw? then CognitoOutcome(ServerError(CreateFailed), [check, create, setPassword])
                  else CognitoOutcome(CreateResponse(OK, CreatedBody(email, password), []), [check, create, setPassword])
  }

  /** `handleCreateUser(body)`. */
  method HandleCreateUser(userPoolId: string, body: Option<string>, jsonParse: string -> Option<Value>,
                          lookupReply: UserReply, createReply: CallReply, setReply: CallReply, random: nat -> real)
    returns (o: CognitoOutcome, ghost password: string)
    requires ParsesObjects(jsonParse) && forall i :: 0.0 <= random(i) < 1.0
    ensures CreateSpec(userPoolId, body, jsonParse, lookupReply, createReply, setReply, password, o)
  {
    password := "";
    var payload := Payload(body, jsonParse);
    if payload.Err? {
      return CognitoOutcome(ServerError(CreateFailed), []), password;
    }
    var username := Get(payload.value, "username");
    if !Truthy(username) {
      return CognitoOutcome(BadRequestResponse(MissingUsername), []), password;
    }
    var email := Email(username.value);
    var check := AdminGetUser(userPoolId, JStr(email));
    if lookupReply.UserResult? {
      return CognitoOutcome(ConflictResponse(UsernameTaken), [check]), password;
    }
    var generated, _ := GeneratePassword(12, random);
    password := generated;
    var create := AdminCreateUser(userPoolId, email, NewUserAttributes(email), "SUPPRESS");
    if createReply.Threw? {
      return CognitoOutcome(ServerError(CreateFailed), [check, create]), password;
    }
    var setPassword := AdminSetUserPassword(userPoolId, email, generated, true);
    if setReply.Threw? {
      return CognitoOutcome(ServerError(CreateFailed), [check, create, setPassword]), password;
    }
    o := CognitoOutcome(CreateResponse(OK, CreatedBody(email, generated), []), [check, create, setPassword]);
  }

  /** Different user names never share an account: the e-mail address determines the name. */
  lemma EmailInjective(a: string, b: string)
    requires Email(JStr(a)) == Email(JStr(b))
    ensures a == b
  {
    assert |a| == |b|;
    assert a == Email(JStr(a))[..|a|];
  }

  /** The admin page posts `{email, role}`, which has no `username`: the handler refuses every registration
      from that form with 400, and the page shows its "invalid information" message. */
  lemma AdminFormIsRefused(userPoolId: string, form: AdminControl.Submission, body: string,
                           jsonParse: string -> Option<Value>, lookupReply: UserReply, createReply: CallReply,
                           setReply: CallReply, password: string, o: CognitoOutcome)
    requires ParsesObjects(jsonParse) && body != "" && jsonParse(body) == Some(AdminControl.SubmissionValue(form))
    requires CreateSpec(userPoolId, Some(body), jsonParse, lookupReply, createReply, setReply, password, o)
    ensures o == CognitoOutcome(BadRequestResponse(MissingUsername), [])
    ensures AdminClient.RegisterUser(AdminClient.HttpError(o.response.statusCode, o.response.body))
         == AdminClient.Failure(JStr(AdminClient.InvalidInformation))
  {
    var fields := AdminControl.SubmissionValue(form).fields;
    assert Get(fields, "username") == None;
  }

  // ---- handleGetUser ----

  /** An attribute the fold keeps: both its name and its value are truthy. */
  predicate Kept(attr: Attribute) {
    attr.name.Some? && attr.name.value != "" && attr.value.Some? && attr.value.value != ""
  }

  /** One step of the `reduce`: `acc[attr.Name] = attr.Value` for a kept attribute. */
  function AddAttribute(acc: Dict<Value>, attr: Attribute): Dict<Value> {
    if Kept(attr) then Set(acc, attr.name.value, JStr(attr.value.value)) else acc
  }

  /** `attributes.reduce(..., acc)`. */
  function FoldAttributes(acc: Dict<Value>, attributes: seq<Attribute>): Dict<Value>
    decreases |attributes|
  {
    if attributes == [] then acc else FoldAttributes(AddAttribute(acc, attributes[0]), attributes[1..])
  }

  /** The value of the last kept attribute named `k`, if any: an independent statement of "later
      duplicates win". */
  function LastValue(attributes: seq<Attribute>, k: string): Option<string>
    decreases |attributes|
  {
    if attributes == [] then None
    else
      var last := attributes[|attributes| - 1];
      if Kept(last) && last.name.value == k then Some(last.value.value)
      else LastValue(attributes[..|attributes| - 1], k)
  }

  lemma {:induction false} FoldSnoc(acc: Dict<Value>, attributes: seq<Attribute>, attr: Attribute)
    ensures FoldAttributes(acc, attributes + [attr]) == AddAttribute(FoldAttributes(acc, attributes), attr)
    decreases |attributes|
  {
    if attributes != [] {
      assert (attributes + [attr])[1..] == attributes[1..] + [attr];
      FoldSnoc(AddAttribute(acc, attributes[0]), attributes[1..], attr);
    }
  }

  /** The folded map holds, for each name, the last kept value given for it, and nothing else. */
  lemma {:induction false} FoldKeepsLast(acc: Dict<Value>, attributes: seq<Attribute>, k: string)
    ensures Get(FoldAttributes(acc, attributes), k) ==
      if LastValue(attributes, k).Some? then Some(JStr(LastValue(attributes, k).value)) else Get(acc, k)
    decreases |attributes|
  {
    if attributes != [] {
      var init := attributes[..|attributes| - 1];
      var last := attributes[|attributes| - 1];
      assert attributes == init + [last];
      FoldSnoc(acc, init, last);
      FoldKeepsLast(acc, init, k);
    }
  }

  /** Folding from `{}` never repeats a key. */
  lemma {:induction false} FoldKeepsDistinct(acc: Dict<Value>, attributes: seq<Attribute>)
    requires DistinctKeys(acc)
    ensures DistinctKeys(FoldAttributes(acc, attributes))
    decreases |attributes|
  {
    if attributes != [] {
      if Kept(attributes[0]) {
        SetKeepsDistinct(acc, attributes[0].name.value, JStr(attributes[0].value.value));
      }
      FoldKeepsDistinct(AddAttribute(acc, attributes[0]), attributes[1..]);
    }
  }

  /** The `userInfo` object; `JSON.stringify` leaves out the fields that are undefined. */
  function UserInfo(userName: string, userStatus: Option<string>, attributes: Option<seq<Attribute>>): Value {
    JObj([("username", JStr(userName))]
         + (if userStatus.Some? then [("userStatus", JStr(userStatus.value))] else [])
         + (if attributes.Some? then [("attributes", JObj(FoldAttributes([], attributes.value)))] else []))
  }

  /** `handleGetUser(queryParams)`. */
  function GetUser(userPoolId: string, query: Dict<string>, reply: UserReply): (o: CognitoOutcome)
    ensures Get(query, "username") in {None, Some("")} ==> o == CognitoOutcome(BadRequestResponse(MissingUsernameParam), [])
    ensures Get(query, "username") !in {None, Some("")} ==>
      o.sent == [AdminGetUser(userPoolId, JStr(Get(query, "username").value))]
    ensures Get(query, "username") !in {None, Some("")} && reply.UserThrew? ==> o.response == ServerError(RetrieveFailed)
    ensures o.response.statusCode == 200 <==>
      Get(query, "username") !in {None, Some("")} && reply.UserResult? && reply.userName !in {None, Some("")}
    ensures o.response.statusCode == 200 ==> o.response.body == UserInfo(reply.userName.value, reply.userStatus, reply.attributes)
  {
    var username := Get(query, "username");
    if username.None? || username.value == "" then CognitoOutcome(BadRequestResponse(MissingUsernameParam), [])
    else
      var sent := [AdminGetUser(userPoolId, JStr(username.value))];
      match reply
      case UserThrew(_) => CognitoOutcome(ServerError(RetrieveFailed), sent)
      case UserResult(userName, userStatus, attributes) =>
        if userName.None? || userName.value == "" then CognitoOutcome(BadRequestResponse(UserNotFound), sent)
        else CognitoOutcome(CreateResponse(OK, UserInfo(userName.value, userStatus, attributes), []), sent)
  }

  /** The attributes a described user shows: for every name, the last kept value, and no repeated name. */
  lemma DescribedAttributes(userName: string, userStatus: Option<string>, attributes: seq<Attribute>, k: string)
    ensures var shown := Field(UserInfo(userName, userStatus, Some(attributes)), "attributes");
      shown.Some? && shown.value.JObj? && DistinctKeys(shown.value.fields)
      && Get(shown.value.fields, k) == if LastValue(attributes, k).Some? then Some(JStr(LastValue(attributes, k).value)) else None
  {
    var prefix := [("username", JStr(userName))] + (if userStatus.Some? then [("userStatus", JStr(userStatus.value))] else []);
    GetAppend(prefix, ("attributes", JObj(FoldAttributes([], attributes))), "attributes");
    FoldKeepsLast([], attributes, k);
    FoldKeepsDistinct([], attributes);
  }

  /** The Lambda entry point. The outer `catch` ("Internal server error") is unreachable: both handlers
      catch their own errors. */
  method Handle(userPoolId: Option<string>, event: Event, jsonParse: string -> Option<Value>,
                getReply: UserReply, lookupReply: UserReply, createReply: CallReply, setReply: CallReply,
                random: nat -> real) returns (o: CognitoOutcome, ghost password: string)
    requires QueryWellFormed(event) && ParsesObjects(jsonParse) && forall i :: 0.0 <= random(i) < 1.0
    ensures event.httpMethod == "OPTIONS" ==> o == CognitoOutcome(OptionsResponse(), [])
    ensures event.httpMethod != "OPTIONS" && !Configured(userPoolId) ==>
      o == CognitoOutcome(ServerError(ConfigurationError), [])
    ensures event.httpMethod == "GET" && Configured(userPoolId) ==>
      o == GetUser(userPoolId.value, QueryOf(event), getReply)
    ensures event.httpMethod == "POST" && Configured(userPoolId) ==>
      CreateSpec(userPoolId.value, event.body, jsonParse, lookupReply, createReply, setReply, password, o)
    ensures event.httpMethod !in GetPostOptions && Configured(userPoolId) ==>
      o == CognitoOutcome(MethodNotAllowedResponse(GetPostOptions), [])
  {
    password := "";
    var queryParams := GetQueryParams(event.queryStringParameters);
    if event.httpMethod == "OPTIONS" {
      return CognitoOutcome(OptionsResponse(), []), password;
    }
    if !Configured(userPoolId) {
      return CognitoOutcome(ServerError(ConfigurationError), []), password;
    }
    if event.httpMethod == "GET" {
      return GetUser(userPoolId.value, queryParams, getReply), password;
    }
    if event.httpMethod == "POST" {
      o, password := HandleCreateUser(userPoolId.value, event.body, jsonParse, lookupReply, createReply, setReply, random);
      return;
    }
    return CognitoOutcome(MethodNotAllowedResponse(GetPostOptions), []), password;
  }
}
