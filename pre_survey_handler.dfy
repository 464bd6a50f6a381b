/**
 * The pre-survey Lambda: `GET ?userID=` reads a participant's stored answers back with numbers restored,
 * `POST {userID, answers, ...}` stores them with numbers as strings, keeping the first submission's
 * `createdAt` when the participant submits again.
 */
module PreSurveyHandler {
  import opened Wrappers
  import opened Assoc
  import opened Json
  import opened Http
  import opened Lambda
  import Database
  import Utils

  const NotSubmitted := "User has not submitted the pre survey"
  const RetrieveFailed := "Failed to retrieve survey data"
  const MissingFields := "Missing required fields: userID and answers"
  const SubmitFailed := "Failed to submit survey"
  const SubmittedMessage := "Pre survey submitted successfully"

  /** The keys the handler and `prepareItemForStorage` set themselves; every other key of the payload is
      stored as sent. */
  const Managed: seq<string> := ["userID", "answers", "id", "timestamp", "createdAt", "updatedAt"]

  /** `handleGetSurvey(queryParams)`: the record is looked up by `userID`; a stored record comes back with
      its numeric strings turned into numbers. */
  function GetSurvey(table: string, query: Dict<string>, reply: Database.Reply): Outcome
    requires table != ""
  {
    GetSurveyRecord(table, query, reply, NotSubmitted, RetrieveFailed)
  }

  /** The record a successful submission writes, given the payload's entries, the record already stored
      (if any), the handler's clock reading `now`, the one `prepareItemForStorage` takes and the new id. */
  ghost predicate IsStoredSurvey(item: Dict<Value>, fields: Dict<Value>, existing: Option<Dict<Value>>,
                           now: string, stampTime: string, newId: string)
    requires Get(fields, "answers").Some?
  {
    DistinctKeys(item)
    && Get(item, "userID") == Get(fields, "userID")
    && Get(item, "answers") == Some(Utils.StringifyNumbers(Get(fields, "answers").value))
    && Get(item, "id") == Some(JStr(newId))
    && Get(item, "timestamp") == (if HasKey(fields, "timestamp") then Get(fields, "timestamp") else Some(JStr(stampTime)))
    && Get(item, "createdAt") == (if existing.Some? then Get(existing.value, "createdAt") else Some(JStr(now)))
    && Get(item, "updatedAt") == Some(JStr(now))
    && forall k :: k !in Managed ==> Get(item, k) == Get(fields, k)
  }

  /** The body of the 200 answer to a submission. */
  function SubmittedBody(createdAt: Value, now: string, fields: Dict<Value>): Value {
    JObj([("message", JStr(SubmittedMessage)), ("createdAt", createdAt), ("updatedAt", JStr(now)),
          ("additionalFields", KeyList(Rest(fields, ["userID", "answers"])))])
  }

  /** Everything `handleSubmitSurvey(body)` may do, branch by branch: the response and the commands sent. */
  ghost predicate SubmitSpec(table: string, body: Option<string>, jsonParse: string -> Option<Value>,
                       getReply: Database.Reply, putReply: Database.Reply,
                       now: string, stampTime: string, newId: string, o: Outcome)
    requires ParsesObjects(jsonParse)
  {
    match Payload(body, jsonParse)
    case Err(e) => o == Outcome(Caught(e, SubmitFailed), [])
    case Ok(fields) =>
      var userId := Get(fields, "userID");
      var answers := Get(fields, "answers");
      if !Truthy(userId) || !Truthy(answers) then o == Outcome(BadRequestResponse(MissingFields), [])
      else StoreSpec(table, fields, getReply, putReply, now, stampTime, newId, o)
  }

  /** What a submission with a user and answers does: look the record up, then write it. */
  ghost predicate StoreSpec(table: string, fields: Dict<Value>, getReply: Database.Reply, putReply: Database.Reply,
                            now: string, stampTime: string, newId: string, o: Outcome)
    requires Get(fields, "userID").Some? && Get(fields, "answers").Some?
  {
    var lookup := Database.GetCommand(table, [("userID", Get(fields, "userID").value)]);
    match getReply
    case Threw => o == Outcome(ServerError(SubmitFailed), [lookup])
    case Replied(existing) =>
      if existing.Some? && !HasKey(existing.value, "createdAt") then
        o == Outcome(ServerError(SubmitFailed), [lookup])
      else
        var createdAt := if existing.Some? then Get(existing.value, "createdAt").value else JStr(now);
        |o.sent| == 2 && o.sent[0] == lookup
        && o.sent[1].PutCommand? && o.sent[1].table == table
        && IsStoredSurvey(o.sent[1].item, fields, existing, now, stampTime, newId)
        && o.response == if putReply.Threw? then ServerError(SubmitFailed)
                         else CreateResponse(OK, SubmittedBody(createdAt, now, fields), [])
  }

  /** `prepareItemForStorage({answers: stringifyNumbers(answers), ...additionalFields}, userId, true)`. */
  method PrepareSurveyItem(fields: Dict<Value>, stampTime: string, newId: string) returns (item: Dict<Value>)
    requires DistinctKeys(fields) && Get(fields, "userID").Some? && Get(fields, "answers").Some?
    ensures DistinctKeys(item)
    ensures Get(item, "userID") == Get(fields, "userID")
    ensures Get(item, "answers") == Some(Utils.StringifyNumbers(Get(fields, "answers").value))
    ensures Get(item, "id") == Some(JStr(newId))
    ensures Get(item, "timestamp") == if HasKey(fields, "timestamp") then Get(fields, "timestamp") else Some(JStr(stampTime))
    ensures forall k :: k != "userID" && k != "answers" && k != "id" && k != "timestamp" ==> Get(item, k) == Get(fields, k)
  {
    var additionalFields := Rest(fields, ["userID", "answers"]);
    RestOfTwo(fields, "userID", "answers");
    var answers := Utils.StringifyNumbers(Get(fields, "answers").value);
    var stored := [("answers", answers)];
    var baseItem := Spread(stored, additionalFields);
    SpreadKeepsDistinct(stored, additionalFields);
    assert Get(baseItem, "answers") == Some(answers) && Get(baseItem, "userID") == None;
    assert forall k :: k != "userID" && k != "answers" ==> Get(baseItem, k) == Get(fields, k);
    item := Database.PrepareItemForStorage(baseItem, Get(fields, "userID").value, true, stampTime, newId);
  }

  /** `Rest` with two names leaves out exactly those two keys. */
  lemma RestOfTwo(fields: Dict<Value>, a: string, b: string)
    ensures forall k :: Get(Rest(fields, [a, b]), k) == if k == a || k == b then None else Get(fields, k)
  {
    forall k ensures Get(Rest(fields, [a, b]), k) == if k == a || k == b then None else Get(fields, k) {
      assert k in [a, b] <==> k == a || k == b;
    }
  }

  /** The record `handleSubmitSurvey` writes for a valid payload: the prepared item, then the stamping. */
  method BuildItem(fields: Dict<Value>, existing: Option<Dict<Value>>, now: string, stampTime: string, newId: string)
    returns (item: Dict<Value>, storable: bool)
    requires DistinctKeys(fields) && Get(fields, "userID").Some? && Get(fields, "answers").Some?
    ensures storable <==> existing.None? || HasKey(existing.value, "createdAt")
    ensures storable ==> IsStoredSurvey(item, fields, existing, now, stampTime, newId)
  {
    var prepared := PrepareSurveyItem(fields, stampTime, newId);
    item, storable := Stamp(prepared, existing, now);
  }

  /** `handleSubmitSurvey(body)`. */
  method HandleSubmit(table: string, body: Option<string>, jsonParse: string -> Option<Value>,
                      getReply: Database.Reply, putReply: Database.Reply,
                      now: string, stampTime: string, newId: string) returns (o: Outcome)
    requires table != "" && ParsesObjects(jsonParse)
    ensures SubmitSpec(table, body, jsonParse, getReply, putReply, now, stampTime, newId, o)
  {
    var payload := Payload(body, jsonParse);
    if payload.Err? {
      return Outcome(Caught(payload.error, SubmitFailed), []);
    }
    var fields := payload.value;
    var userId := Get(fields, "userID");
    var answers := Get(fields, "answers");
    if !Truthy(userId) || !Truthy(answers) {
      return Outcome(BadRequestResponse(MissingFields), []);
    }
    o := Store(table, fields, getReply, putReply, now, stampTime, newId);
  }

  /** The part of `handleSubmitSurvey` after validation. */
  method Store(table: string, fields: Dict<Value>, getReply: Database.Reply, putReply: Database.Reply,
               now: string, stampTime: string, newId: string) returns (o: Outcome)
    requires table != "" && DistinctKeys(fields) && Get(fields, "userID").Some? && Get(fields, "answers").Some?
    ensures StoreSpec(table, fields, getReply, putReply, now, stampTime, newId, o)
  {
    CaughtMessages(SubmitFailed);
    var lookup := Database.GetItem(Some(table), [("userID", Get(fields, "userID").value)], getReply);
    if lookup.result.Err? {
      return Outcome(Caught(lookup.result.error, SubmitFailed), [lookup.sent.value]);
    }
    var existing := lookup.result.value;
    var item, storable := BuildItem(fields, existing, now, stampTime, newId);
    if !storable {
      return Outcome(Caught(Database.PutFailed, SubmitFailed), [lookup.sent.value]);
    }
    var put := Database.PutItem(Some(table), item, putReply);
    var sent := [lookup.sent.value, put.sent.value];
    if put.result.Err? {
      return Outcome(Caught(put.result.error, SubmitFailed), sent);
    }
    var createdAt := Get(item, "createdAt").value;
    o := Outcome(CreateResponse(OK, SubmittedBody(createdAt, now, fields), []), sent);
  }

  /** The Lambda entry point: OPTIONS first, then the table check, then GET or POST. */
  method Handle(tableName: Option<string>, event: Event, jsonParse: string -> Option<Value>,
                getReply: Database.Reply, putReply: Database.Reply,
                now: string, stampTime: string, newId: string) returns (o: Outcome)
    requires QueryWellFormed(event) && ParsesObjects(jsonParse)
    ensures event.httpMethod == "OPTIONS" ==> o == Outcome(OptionsResponse(), [])
    ensures event.httpMethod != "OPTIONS" && !Database.Named(tableName) ==>
      o == Outcome(ServerError(ConfigurationError), [])
    ensures event.httpMethod == "GET" && Database.Named(tableName) ==>
      o == GetSurvey(tableName.value, QueryOf(event), getReply)
    ensures event.httpMethod == "POST" && Database.Named(tableName) ==>
      SubmitSpec(tableName.value, event.body, jsonParse, getReply, putReply, now, stampTime, newId, o)
    ensures event.httpMethod !in GetPostOptions && Database.Named(tableName) ==>
      o == Outcome(MethodNotAllowedResponse(GetPostOptions), [])
  {
    var queryParams := GetQueryParams(event.queryStringParameters);
    if event.httpMethod == "OPTIONS" {
      return Outcome(OptionsResponse(), []);
    }
    if !Database.Named(tableName) {
      return Outcome(ServerError(ConfigurationError), []);
    }
    if event.httpMethod == "GET" {
      return GetSurvey(tableName.value, queryParams, getReply);
    }
    if event.httpMethod == "POST" {
      o := HandleSubmit(tableName.value, event.body, jsonParse, getReply, putReply, now, stampTime, newId);
      return;
    }
    return Outcome(MethodNotAllowedResponse(GetPostOptions), []);
  }

  /** A second submission keeps the first one's `createdAt` and moves `updatedAt` on. */
  lemma ResubmitKeepsCreatedAt(first: Dict<Value>, second: Dict<Value>, fields1: Dict<Value>, fields2: Dict<Value>,
                               now1: string, now2: string, stamp1: string, stamp2: string, id1: string, id2: string)
    requires Get(fields1, "answers").Some? && Get(fields2, "answers").Some?
    requires IsStoredSurvey(first, fields1, None, now1, stamp1, id1)
    requires IsStoredSurvey(second, fields2, Some(first), now2, stamp2, id2)
    ensures Get(second, "createdAt") == Some(JStr(now1))
    ensures Get(second, "updatedAt") == Some(JStr(now2))
  {
  }

  /** Answers stored by a submission come back unchanged from a GET when they survive the number round trip
      (numbers only directly under keys other than "openEnded", no numeric-looking strings there). */
  lemma AnswersReadBack(table: string, userId: string, item: Dict<Value>, fields: Dict<Value>,
                        existing: Option<Dict<Value>>, now: string, stampTime: string, newId: string)
    requires table != "" && Get(fields, "answers").Some? && userId != ""
    requires IsStoredSurvey(item, fields, existing, now, stampTime, newId)
    requires Utils.Portable(Get(fields, "answers").value, Utils.Under("answers"))
    ensures GetSurvey(table, [("userID", userId)], Database.Replied(Some(item))).response ==
      CreateResponse(OK, Utils.ParseNumbers(JObj(item)), [])
    ensures Field(Utils.ParseNumbers(JObj(item)), "answers") == Get(fields, "answers")
  {
    GetParsed(item, "answers");
    Utils.RoundTripIn(Get(fields, "answers").value, Utils.Under("answers"));
  }
}
