/**
 * What the API Gateway Lambda handlers have in common beyond the shared helper files: the request event,
 * reading and destructuring the JSON payload, object rest, JavaScript's `parseInt`, the error mapping of
 * the handlers' `catch` blocks, and the `createdAt`/`updatedAt` stamping of stored records.
 */
module Lambda {
  import opened Wrappers
  import opened Assoc
  import opened Json
  import opened Http
  import Text
  import Decimal
  import Database
  import Utils

  /** The parts of an API Gateway proxy event the handlers read. */
  datatype Event = Event(
    httpMethod: string,
    path: Option<string>,
    queryStringParameters: Option<Dict<Option<string>>>,
    body: Option<string>)

  /** What one invocation did: the response returned and the DynamoDB commands sent, in order. */
  datatype Outcome = Outcome(response: Response, sent: seq<Database.Command>)

  const ConfigurationError := "Configuration error"

  /** `!process.env.X` is false: the variable is set and not empty. */
  predicate Configured(v: Option<string>) {
    v.Some? && v.value != ""
  }

  /** The methods the table handlers name in their 405 answer. */
  const GetPostOptions: seq<string> := ["GET", "POST", "OPTIONS"]

  /** A query-string object as API Gateway delivers it: no parameter twice. */
  predicate QueryWellFormed(event: Event) {
    event.queryStringParameters.Some? ==> DistinctKeys(event.queryStringParameters.value)
  }

  /** `getQueryParams(event.queryStringParameters)`, as a value. */
  function QueryOf(event: Event): Dict<string> {
    if event.queryStringParameters.None? then [] else DefinedEntries(event.queryStringParameters.value)
  }

  /** `JSON.parse` never yields an object with a repeated key (a later duplicate replaces the earlier one). */
  ghost predicate ParsesObjects(jsonParse: string -> Option<Value>) {
    forall s :: jsonParse(s).Some? && jsonParse(s).value.JObj? ==> DistinctKeys(jsonParse(s).value.fields)
  }

  /** The message of the `TypeError` thrown by destructuring `null`. */
  const NullPayload := "Cannot destructure 'payload' as it is null."

  /** `parseJsonBody(body)` followed by `const { ... } = payload`: the thrown message, or the entries the
      destructuring reads from. `null` cannot be destructured; any other non-object value has none of
      the named properties. */
  function Payload(body: Option<string>, jsonParse: string -> Option<Value>): (r: Result<Dict<Value>, string>)
    requires ParsesObjects(jsonParse)
    ensures ParseJsonBody(body, jsonParse).Err? ==> r == Err(ParseJsonBody(body, jsonParse).error)
    ensures ParseJsonBody(body, jsonParse) == Ok(JNull) ==> r == Err(NullPayload)
    ensures r.Ok? <==> ParseJsonBody(body, jsonParse).Ok? && ParseJsonBody(body, jsonParse).value != JNull
    ensures r.Ok? ==> DistinctKeys(r.value)
    ensures r.Ok? ==> forall k :: Get(r.value, k) == Field(ParseJsonBody(body, jsonParse).value, k)
  {
    match ParseJsonBody(body, jsonParse)
    case Err(e) => Err(e)
    case Ok(JNull) => Err(NullPayload)
    case Ok(JObj(fields)) => Ok(fields)
    case Ok(_) => Ok([])
  }

  /** The `...rest` of `const { a, b, ...rest } = obj`: every entry whose key is not named, in order. */
  function Rest(fields: Dict<Value>, named: seq<string>): (rest: Dict<Value>)
    ensures forall k :: Get(rest, k) == if k in named then None else Get(fields, k)
    ensures forall i :: 0 <= i < |rest| ==> rest[i].0 !in named
    ensures DistinctKeys(fields) ==> DistinctKeys(rest)
  {
    if fields == [] then []
    else
      var tail := Rest(fields[1..], named);
      if fields[0].0 in named then tail
      else
        assert DistinctKeys(fields) ==> Get(fields[1..], fields[0].0).None?;
        [fields[0]] + tail
  }

  /** `Object.keys(obj)` as a JSON array. */
  function KeyList(d: Dict<Value>): (r: Value)
    ensures r.JArr? && |r.items| == |d|
    ensures forall i :: 0 <= i < |d| ==> r.items[i] == JStr(d[i].0)
  {
    JArr(seq(|d|, i requires 0 <= i < |d| => JStr(d[i].0)))
  }

  /** The handlers' `catch`: an `Error` whose message includes "Invalid" is the client's fault (400 with that
      message), anything else is a server error with the handler's own message. */
  function Caught(message: string, fallback: string): (r: Response)
    ensures Text.Contains(message, "Invalid") ==> r == BadRequestResponse(message)
    ensures !Text.Contains(message, "Invalid") ==> r == ServerError(fallback)
  {
    if Text.Contains(message, "Invalid") then BadRequestResponse(message) else ServerError(fallback)
  }

  /** Of the messages that can reach that `catch`, only malformed JSON is reported as the client's error:
      a missing body, a `null` payload and a failed database call all become server errors. */
  lemma CaughtMessages(fallback: string)
    ensures Caught(InvalidJson, fallback) == BadRequestResponse(InvalidJson)
    ensures Caught(BodyRequired, fallback) == ServerError(fallback)
    ensures Caught(NullPayload, fallback) == ServerError(fallback)
    ensures Caught(Database.GetFailed, fallback) == ServerError(fallback)
    ensures Caught(Database.PutFailed, fallback) == ServerError(fallback)
  {
    assert Text.OccursAt(InvalidJson, "Invalid", 0);
    NotInvalid(BodyRequired);
    NotInvalid(NullPayload);
    GetFailedNotInvalid();
    PutFailedNotInvalid();
  }

  /** A message without a capital I does not mention "Invalid". */
  lemma NotInvalid(message: string)
    requires 'I' !in message
    ensures !Text.Contains(message, "Invalid")
  {
    Text.NotContainsWithoutFirst(message, "Invalid");
  }

  lemma GetFailedNotInvalid()
    ensures !Text.Contains(Database.GetFailed, "Invalid")
  {
    NotInvalid(Database.GetFailed);
  }

  lemma PutFailedNotInvalid()
    ensures !Text.Contains(Database.PutFailed, "Invalid")
  {
    NotInvalid(Database.PutFailed);
  }

  /** The payload-reading outcome the handlers' `catch` turns into a response. */
  lemma CaughtPayload(body: Option<string>, jsonParse: string -> Option<Value>, fallback: string)
    requires ParsesObjects(jsonParse)
    requires Payload(body, jsonParse).Err?
    ensures Caught(Payload(body, jsonParse).error, fallback) ==
      if Payload(body, jsonParse).error == InvalidJson then BadRequestResponse(InvalidJson) else ServerError(fallback)
  {
    CaughtMessages(fallback);
  }

  // ---- parseInt ----

  /** The longest prefix of `s` made of decimal digits. */
  function DigitPrefix(s: string): (r: string)
    ensures r <= s && Decimal.AllDigits(r)
    ensures |r| < |s| ==> !Decimal.IsDigit(s[|r|])
  {
    if s == [] || !Decimal.IsDigit(s[0]) then []
    else [s[0]] + DigitPrefix(s[1..])
  }

  /** A digit of radix 16, in either case. */
  predicate IsHexDigit(c: char) {
    Decimal.IsDigit(c) || 'a' <= c <= 'f' || 'A' <= c <= 'F'
  }

  predicate AllHex(s: string) {
    forall i :: 0 <= i < |s| ==> IsHexDigit(s[i])
  }

  function HexDigitValue(c: char): (d: nat)
    requires IsHexDigit(c)
    ensures d < 16
  {
    if Decimal.IsDigit(c) then c as int - '0' as int
    else if 'a' <= c <= 'f' then c as int - 'a' as int + 10
    else c as int - 'A' as int + 10
  }

  /** The value of a run of hexadecimal digits, read left to right. */
  function HexValue(s: string): nat
    requires AllHex(s)
  {
    if s == [] then 0 else HexValue(s[..|s| - 1]) * 16 + HexDigitValue(s[|s| - 1])
  }

  /** The longest prefix of `s` made of hexadecimal digits. */
  function HexPrefix(s: string): (r: string)
    ensures r <= s && AllHex(r)
    ensures |r| < |s| ==> !IsHexDigit(s[|r|])
  {
    if s == [] || !IsHexDigit(s[0]) then []
    else [s[0]] + HexPrefix(s[1..])
  }

  /** `0x` or `0X`: with no radix given, `parseInt` then reads the rest in radix 16. */
  predicate HexPrefixed(t: string) {
    |t| >= 2 && t[0] == '0' && (t[1] == 'x' || t[1] == 'X')
  }

  /** `parseInt(s)` with no radix: leading white space is skipped and one sign is allowed; after the sign a
      `0x`/`0X` prefix selects radix 16, otherwise radix 10; the digits up to the first character that is not a
      digit of that radix are read, and no digit at all is `NaN` (None). */
  function ParseInt(s: string): Option<int> {
    ParseSigned(Text.TrimStart(s))
  }

  /** `parseInt` once the leading white space is gone. */
  function ParseSigned(t: string): Option<int> {
    var negative := |t| > 0 && t[0] == '-';
    var unsigned := if |t| > 0 && (t[0] == '-' || t[0] == '+') then t[1..] else t;
    match Magnitude(unsigned)
    case None => None
    case Some(m) => if negative then Some(-(m as int)) else Some(m)
  }

  /** The unsigned part: radix 16 after `0x`/`0X`, radix 10 otherwise. */
  function Magnitude(u: string): Option<nat> {
    if HexPrefixed(u) then HexMagnitude(u[2..]) else DecimalMagnitude(u)
  }

  function HexMagnitude(u: string): Option<nat> {
    var digits := HexPrefix(u);
    if digits == [] then None else Some(HexValue(digits))
  }

  function DecimalMagnitude(u: string): Option<nat> {
    var digits := DigitPrefix(u);
    if digits == [] then None else Some(Decimal.DigitsValue(digits))
  }

  lemma {:induction false} DigitPrefixOfDigits(s: string)
    requires Decimal.AllDigits(s)
    ensures DigitPrefix(s) == s
  {
    if s != [] {
      DigitPrefixOfDigits(s[1..]);
    }
  }

  lemma ParseSignedOfInt(n: int)
    ensures ParseSigned(Decimal.IntToString(n)) == Some(n)
  {
    if n < 0 {
      var digits := Decimal.NatToString(-n);
      assert Decimal.IntToString(n)[1..] == digits;
      DigitPrefixOfDigits(digits);
      Decimal.NatToStringValue(-n);
    } else {
      DigitPrefixOfDigits(Decimal.NatToString(n));
      Decimal.NatToStringValue(n);
    }
  }

  /** `parseInt(String(n))` gives `n` back, so a level sent as a number and one sent in a query string
      select the same record. */
  lemma ParseIntOfInt(n: int)
    ensures ParseInt(Decimal.IntToString(n)) == Some(n)
  {
    var s := Decimal.IntToString(n);
    assert s[0] == '-' || Decimal.IsDigit(s[0]);
    NothingToTrim(s);
    ParseSignedOfInt(n);
  }

  lemma {:induction false} DigitPrefixStops(digits: string, rest: string)
    requires Decimal.AllDigits(digits)
    requires rest == [] || !Decimal.IsDigit(rest[0])
    ensures DigitPrefix(digits + rest) == digits
  {
    if digits != [] {
      assert (digits + rest)[1..] == digits[1..] + rest;
      DigitPrefixStops(digits[1..], rest);
    } else {
      assert digits + rest == rest;
    }
  }

  /** Reading stops at the first character that is not a digit: `parseInt("12.5")` and `parseInt("12px")` are 12.
      The one exception is a `0` followed by `x` or `X`, which is read as a radix-16 prefix instead. */
  lemma ParseIntStopsAtNonDigit(n: nat, rest: string)
    requires rest == [] || !Decimal.IsDigit(rest[0])
    requires n == 0 ==> rest == [] || (rest[0] != 'x' && rest[0] != 'X')
    ensures ParseInt(Decimal.NatToString(n) + rest) == Some(n)
  {
    var digits := Decimal.NatToString(n);
    var s := digits + rest;
    assert s[0] == digits[0];
    assert !HexPrefixed(s) by {
      if |digits| == 1 {
        assert s[1..] == rest;
      } else {
        assert s[0] != '0';
      }
    }
    NothingToTrim(s);
    DigitPrefixStops(digits, rest);
    Decimal.NatToStringValue(n);
  }

  lemma {:induction false} HexPrefixStops(digits: string, rest: string)
    requires AllHex(digits)
    requires rest == [] || !IsHexDigit(rest[0])
    ensures HexPrefix(digits + rest) == digits
  {
    if digits != [] {
      assert (digits + rest)[1..] == digits[1..] + rest;
      HexPrefixStops(digits[1..], rest);
    } else {
      assert digits + rest == rest;
    }
  }

  /** The unsigned part `0x…`: radix 16, read up to the first character that is not a hexadecimal digit. */
  lemma {:induction false} ParseSignedHex(x: char, digits: string, rest: string)
    requires x == 'x' || x == 'X'
    requires digits != [] && AllHex(digits)
    requires rest == [] || !IsHexDigit(rest[0])
    ensures ParseSigned(['0', x] + digits + rest) == Some(HexValue(digits))
  {
    var u := ['0', x] + digits + rest;
    assert u[0] == '0' && u[1] == x && u[2..] == digits + rest;
    HexPrefixStops(digits, rest);
  }

  /** A string that does not start with white space is read as it stands. */
  lemma ParseIntNoSpace(s: string)
    requires s != [] && !Text.IsSpace(s[0])
    ensures ParseInt(s) == ParseSigned(s)
  {
  }

  /** A sign in front of an unsigned string: `-` negates the reading, `+` keeps it. */
  lemma ParseSignedSign(c: char, u: string)
    requires c == '-' || c == '+'
    requires u != [] && u[0] != '-' && u[0] != '+'
    ensures ParseSigned([c] + u) ==
      if ParseSigned(u).None? then None else if c == '-' then Some(-ParseSigned(u).value) else ParseSigned(u)
  {
    assert ([c] + u)[1..] == u;
  }

  /** An optional sign in front of an unsigned reading `m`: `-` negates it, `+` and no sign keep it. */
  lemma SignedReading(sign: string, u: string, m: nat)
    requires sign == "" || sign == "+" || sign == "-"
    requires u != [] && u[0] == '0' && ParseSigned(u) == Some(m)
    ensures ParseInt(sign + u) == Some(if sign == "-" then -(m as int) else m)
  {
    if sign == "" {
      assert sign + u == u;
      ParseIntNoSpace(u);
    } else {
      var s := sign + u;
      assert s == [sign[0]] + u;
      ParseIntNoSpace(s);
      ParseSignedSign(sign[0], u);
    }
  }

  /** With no radix, `0x` or `0X` after an optional sign switches to radix 16, and reading stops at the first
      character that is not a hexadecimal digit: `parseInt("0x1F")` is 31 and `parseInt("-0x10")` is -16. */
  lemma ParseIntReadsHex(sign: string, x: char, digits: string, rest: string, m: nat)
    requires sign == "" || sign == "+" || sign == "-"
    requires x == 'x' || x == 'X'
    requires digits != [] && AllHex(digits) && m == HexValue(digits)
    requires rest == [] || !IsHexDigit(rest[0])
    ensures ParseInt(sign + (['0', x] + digits + rest)) == Some(if sign == "-" then -(m as int) else m)
  {
    var u := ['0', x] + digits + rest;
    assert u[0] == '0';
    ParseSignedHex(x, digits, rest);
    SignedReading(sign, u, m);
  }

  /** A `0x` prefix with no hexadecimal digit after it reads as `NaN`. */
  lemma ParseIntEmptyHexIsNaN(x: char, rest: string)
    requires x == 'x' || x == 'X'
    requires rest == [] || !IsHexDigit(rest[0])
    ensures ParseInt(['0', x] + rest) == None
  {
    var s := ['0', x] + rest;
    ParseIntNoSpace(s);
    assert s[2..] == rest;
  }

  /** `?simulationLevel=0x2` selects level 2. */
  lemma HexLevelTwo()
    ensures ParseInt("0x2") == Some(2)
  {
    var s := "0x2";
    ParseIntNoSpace(s);
    assert ['0', 'x'] + "2" + "" == s;
    ParseSignedHex('x', "2", "");
    assert HexValue("2") == 2 by {
      assert "2"[..0] == "";
    }
  }

  /** `?simulationLevel=0x` selects nothing: `parseInt` gives `NaN`. */
  lemma HexWithoutDigits()
    ensures ParseInt("0x") == None
  {
    ParseIntEmptyHexIsNaN('x', "");
    assert ['0', 'x'] + "" == "0x";
  }

  /** A string that starts with a digit or a sign has no leading white space to skip. */
  lemma NothingToTrim(s: string)
    requires s != [] && (Decimal.IsDigit(s[0]) || s[0] == '-')
    ensures Text.TrimStart(s) == s
  {
    assert !Text.IsSpace(s[0]);
  }

  // ---- stamping ----

  /** `item.updatedAt = now; item.createdAt = existingItem.createdAt` for a record that exists, or
      `item.createdAt = now; item.updatedAt = now` for a new one. `storable` is false when the existing record
      has no `createdAt`: the item then carries an `undefined` value, which the document client refuses to
      marshal, so the following `putItem` throws. */
  method Stamp(item: Dict<Value>, existing: Option<Dict<Value>>, now: string)
    returns (stamped: Dict<Value>, storable: bool)
    requires DistinctKeys(item)
    ensures DistinctKeys(stamped)
    ensures storable <==> existing.None? || HasKey(existing.value, "createdAt")
    ensures Get(stamped, "updatedAt") == Some(JStr(now))
    ensures Get(stamped, "createdAt") == if existing.None? then Some(JStr(now)) else Get(existing.value, "createdAt")
    ensures forall k :: k != "createdAt" && k != "updatedAt" ==> Get(stamped, k) == Get(item, k)
  {
    stamped := item;
    SetKeepsDistinct(stamped, "updatedAt", JStr(now));
    stamped := Set(stamped, "updatedAt", JStr(now));
    if existing.Some? {
      var createdAt := Get(existing.value, "createdAt");
      if createdAt.Some? {
        SetKeepsDistinct(stamped, "createdAt", createdAt.value);
        stamped := Set(stamped, "createdAt", createdAt.value);
        storable := true;
      } else {
        stamped := RemoveKey(stamped, "createdAt");
        storable := false;
      }
    } else {
      SetKeepsDistinct(stamped, "createdAt", JStr(now));
      stamped := Set(stamped, "createdAt", JStr(now));
      storable := true;
    }
  }

  /** `Remove`, keeping keys distinct. */
  function RemoveKey(d: Dict<Value>, k: string): (r: Dict<Value>)
    requires DistinctKeys(d)
    ensures DistinctKeys(r)
    ensures Get(r, k) == None
    ensures forall k' :: k' != k ==> Get(r, k') == Get(d, k')
  {
    Rest(d, [k])
  }

  // ---- the per-level tables ----

  /** `[1, 2, 3].includes(simulationLevel)`: strict equality, so only the numbers qualify. */
  predicate IsLevel(v: Value) {
    v == JNum(1) || v == JNum(2) || v == JNum(3)
  }

  /** `{ userID, simulationLevel: parseInt(level) }`; None when `parseInt` gives `NaN`. */
  function LevelKey(userId: Value, level: string): (key: Option<Dict<Value>>)
    ensures key.Some? <==> ParseInt(level).Some?
    ensures key.Some? ==> DistinctKeys(key.value) && Get(key.value, "userID") == Some(userId)
                          && Get(key.value, "simulationLevel") == Some(JNum(ParseInt(level).value))
  {
    match ParseInt(level)
    case Some(n) => Some([("userID", userId), ("simulationLevel", JNum(n))])
    case None => None
  }

  const MissingUserId := "Missing query parameter: userID"
  const SpecifyLevel := "Please specify simulationLevel parameter"
  const LevelOutOfRange := "simulationLevel must be 1, 2, or 3"

  /** The GET branch shared by the two survey handlers: the record is looked up by `userID` alone, and a
      stored record comes back with its numeric strings turned into numbers. */
  function GetSurveyRecord(table: string, query: Dict<string>, reply: Database.Reply,
                           notFound: string, failed: string): (o: Outcome)
    requires table != ""
    ensures Get(query, "userID") in {None, Some("")} ==> o == Outcome(BadRequestResponse(MissingUserId), [])
    ensures Get(query, "userID") !in {None, Some("")} ==>
      o.sent == [Database.GetCommand(table, [("userID", JStr(Get(query, "userID").value))])]
    ensures o.response.statusCode == 200 <==>
      Get(query, "userID") !in {None, Some("")} && reply.Replied? && reply.item.Some?
    ensures o.response.statusCode == 200 ==> o.response.body == Utils.ParseNumbers(JObj(reply.item.value))
    ensures Get(query, "userID") !in {None, Some("")} && reply == Database.Replied(None) ==>
      o.response == NotFoundResponse(notFound)
    ensures Get(query, "userID") !in {None, Some("")} && reply.Threw? ==> o.response == ServerError(failed)
  {
    var userId := Get(query, "userID");
    if userId.None? || userId.value == "" then Outcome(BadRequestResponse(MissingUserId), [])
    else
      var lookup := Database.GetItem(Some(table), [("userID", JStr(userId.value))], reply);
      var response :=
        match lookup.result
        case Err(_) => ServerError(failed)
        case Ok(None) => NotFoundResponse(notFound)
        case Ok(Some(item)) => CreateResponse(OK, Utils.ParseNumbers(JObj(item)), []);
      Outcome(response, [lookup.sent.value])
  }

  /** The hexadecimal form reaches the key: `?simulationLevel=0x2` reads the level-2 record, and
      `?simulationLevel=0x` has no key, so the lookup fails. */
  lemma HexLevelKey(userId: Value)
    ensures LevelKey(userId, "0x2") == Some([("userID", userId), ("simulationLevel", JNum(2))])
    ensures LevelKey(userId, "0x") == None
  {
    HexLevelTwo();
    HexWithoutDigits();
  }

  /** The GET branch shared by the debrief, simulation-data and chat-history handlers: both `userID` and
      `simulationLevel` must be given; the record is read under `{userID, simulationLevel: parseInt(level)}`
      and returned as stored. A level that `parseInt` reads as `NaN` makes the document client refuse the
      key, so the lookup throws. */
  function GetLevelRecord(table: string, query: Dict<string>, reply: Database.Reply,
                          notFound: string, failed: string): (o: Outcome)
    requires table != ""
    ensures Get(query, "userID") in {None, Some("")} ==> o == Outcome(BadRequestResponse(MissingUserId), [])
    ensures Get(query, "userID") !in {None, Some("")} && Get(query, "simulationLevel") in {None, Some("")} ==>
      o == Outcome(BadRequestResponse(SpecifyLevel), [])
    ensures o.response.statusCode == 200 <==>
      Get(query, "userID") !in {None, Some("")} && Get(query, "simulationLevel") !in {None, Some("")}
      && ParseInt(Get(query, "simulationLevel").value).Some? && reply.Replied? && reply.item.Some?
    ensures o.response.statusCode == 200 ==>
      o.response.body == JObj(reply.item.value)
      && o.sent == [Database.GetCommand(table, LevelKey(JStr(Get(query, "userID").value), Get(query, "simulationLevel").value).value)]
  {
    var userId := Get(query, "userID");
    var level := Get(query, "simulationLevel");
    if userId.None? || userId.value == "" then Outcome(BadRequestResponse(MissingUserId), [])
    else if level.None? || level.value == "" then Outcome(BadRequestResponse(SpecifyLevel), [])
    else
      match LevelKey(JStr(userId.value), level.value)
      case None => Outcome(ServerError(failed), [])
      case Some(key) =>
        var lookup := Database.GetItem(Some(table), key, reply);
        var response :=
          match lookup.result
          case Err(_) => ServerError(failed)
          case Ok(None) => NotFoundResponse(notFound)
          case Ok(Some(item)) => CreateResponse(OK, JObj(item), []);
        Outcome(response, [lookup.sent.value])
  }

  /** For a valid level, `parseInt` of the level gives the level back: the record is read and written under
      the key `{userID, simulationLevel}` exactly as sent. */
  lemma LevelKeyOfLevel(userId: Value, level: Value)
    requires IsLevel(level)
    ensures LevelKey(userId, ToJsString(level)) == Some([("userID", userId), ("simulationLevel", level)])
  {
    ParseIntOfInt(level.n);
  }

  /** `{userID: userId, simulationLevel: parseInt(simulationLevel)}` in a POST, after the level check. */
  method PostedLevelKey(userId: Value, level: Value) returns (key: Dict<Value>)
    requires IsLevel(level)
    ensures key == [("userID", userId), ("simulationLevel", level)]
  {
    LevelKeyOfLevel(userId, level);
    key := LevelKey(userId, ToJsString(level)).value;
  }

  /** `item.userID = userId; item.simulationLevel = simulationLevel`: the composite key written last. */
  method SetCompositeKey(item: Dict<Value>, userId: Value, level: Value) returns (keyed: Dict<Value>)
    requires DistinctKeys(item)
    ensures DistinctKeys(keyed)
    ensures Get(keyed, "userID") == Some(userId) && Get(keyed, "simulationLevel") == Some(level)
    ensures forall k :: k != "userID" && k != "simulationLevel" ==> Get(keyed, k) == Get(item, k)
  {
    SetKeepsDistinct(item, "userID", userId);
    keyed := Set(item, "userID", userId);
    SetKeepsDistinct(keyed, "simulationLevel", level);
    keyed := Set(keyed, "simulationLevel", level);
  }

  /** The key a POST for level `n` of user `u` writes under is the key a GET with `userID=u` and
      `simulationLevel=String(n)` reads: what was saved is what is found. */
  lemma SavedLevelIsRead(table: string, userId: string, n: int, stored: Dict<Value>, notFound: string, failed: string)
    requires table != "" && userId != ""
    ensures var query := [("userID", userId), ("simulationLevel", ToJsString(JNum(n)))];
      GetLevelRecord(table, query, Database.Replied(Some(stored)), notFound, failed) ==
      Outcome(CreateResponse(OK, JObj(stored), []),
              [Database.GetCommand(table, [("userID", JStr(userId)), ("simulationLevel", JNum(n))])])
  {
    var level := Decimal.IntToString(n);
    var query := [("userID", userId), ("simulationLevel", level)];
    assert level != "" by {
      assert n < 0 ==> level == "-" + Decimal.NatToString(-n);
    }
    assert Get(query, "userID") == Some(userId);
    assert Get(query, "simulationLevel") == Some(level) by {
      assert query[0].0 != "simulationLevel";
    }
    ParseIntOfInt(n);
    assert LevelKey(JStr(userId), level) == Some([("userID", JStr(userId)), ("simulationLevel", JNum(n))]);
    RecordFound(table, query, stored, notFound, failed, [("userID", JStr(userId)), ("simulationLevel", JNum(n))]);
  }

  /** A GET with both parameters and a parsable level answers with the stored record, read under its key. */
  lemma RecordFound(table: string, query: Dict<string>, stored: Dict<Value>, notFound: string, failed: string,
                    key: Dict<Value>)
    requires table != ""
    requires Get(query, "userID").Some? && Get(query, "userID").value != ""
    requires Get(query, "simulationLevel").Some? && Get(query, "simulationLevel").value != ""
    requires LevelKey(JStr(Get(query, "userID").value), Get(query, "simulationLevel").value) == Some(key)
    ensures GetLevelRecord(table, query, Database.Replied(Some(stored)), notFound, failed) ==
      Outcome(CreateResponse(OK, JObj(stored), []), [Database.GetCommand(table, key)])
  {
    var lookup := Database.GetItem(Some(table), key, Database.Replied(Some(stored)));
    assert lookup.sent == Some(Database.GetCommand(table, key)) && lookup.result == Ok(Some(stored));
  }

  // ---- reading stored survey answers back ----

  /** A field of a record read back through `parseNumbers` is the stored field, converted the way
      `parseNumbers` converts a value under that key. */
  lemma {:induction false} GetParsed(fields: Dict<Value>, k: string)
    ensures Get(Utils.ParseNumbers(JObj(fields)).fields, k) ==
      if HasKey(fields, k) then Some(Utils.ParseField(k, Get(fields, k).value)) else None
  {
    if fields != [] {
      var p := Utils.ParseNumbers(JObj(fields)).fields;
      assert p[0] == (fields[0].0, Utils.ParseField(fields[0].0, fields[0].1));
      assert p[1..] == Utils.ParseNumbers(JObj(fields[1..])).fields;
      GetParsed(fields[1..], k);
    }
  }
}
