/**
 * The post-survey Lambda: like the pre-survey one, but a submission stores only the answers (extra payload
 * fields are dropped), does not look for an earlier record and answers with the record's timestamp.
 */
module PostSurveyHandler {
  import opened Wrappers
  import opened Assoc
  import opened Json
  import opened Http
  import opened Lambda
  import Database
  import Utils

  const NotSubmitted := "User has not submitted the post survey"
  const RetrieveFailed := "Failed to retrieve survey data"
  const MissingFields := "Missing required fields: userID and answers"
  const SubmitFailed := "Failed to submit survey"
  const SubmittedMessage := "Post survey submitted successfully"

  /** The keys of a stored post-survey record. */
  const StoredKeys: seq<string> := ["userID", "timestamp", "answers", "id"]

  /** `handleGetSurvey(queryParams)`. */
  function GetSurvey(table: string, query: Dict<string>, reply: Database.Reply): Outcome
    requires table != ""
  {
    GetSurveyRecord(table, query, reply, NotSubmitted, RetrieveFailed)
  }

  /** The record a successful submission writes: exactly the user, the timestamp, the answers with numbers
      as strings, and a new id. */
  ghost predicate IsStoredSurvey(item: Dict<Value>, fields: Dict<Value>, stampTime: string, newId: string)
    requires Get(fields, "answers").Some?
  {
    DistinctKeys(item)
    && Get(item, "userID") == Get(fields, "userID")
    && Get(item, "timestamp") == Some(JStr(stampTime))
    && Get(item, "answers") == Some(Utils.StringifyNumbers(Get(fields, "answers").value))
    && Get(item, "id") == Some(JStr(newId))
    && forall k :: k !in StoredKeys ==> !HasKey(item, k)
  }

  /** Everything `handleSubmitSurvey(body)` may do, branch by branch. */
  ghost predicate SubmitSpec(table: string, body: Option<string>, jsonParse: string -> Option<Value>,
                             putReply: Database.Reply, stampTime: string, newId: string, o: Outcome)
    requires ParsesObjects(jsonParse)
  {
    match Payload(body, jsonParse)
    case Err(e) => o == Outcome(Caught(e, SubmitFailed), [])
    case Ok(fields) =>
      if !Truthy(Get(fields, "userID")) || !Truthy(Get(fields, "answers")) then
        o == Outcome(BadRequestResponse(MissingFields), [])
      else
        |o.sent| == 1 && o.sent[0].PutCommand? && o.sent[0].table == table
        && IsStoredSurvey(o.sent[0].item, fields, stampTime, newId)
        && o.response == if putReply.Threw? then ServerError(SubmitFailed)
                         else CreateResponse(OK, JObj([("message", JStr(SubmittedMessage)), ("timestamp", JStr(stampTime))]), [])
  }

  /** `prepareItemForStorage({answers: stringifyNumbers(answers)}, userId, true)`. */
  method PrepareSurveyItem(fields: Dict<Value>, stampTime: string, newId: string) returns (item: Dict<Value>)
    requires Get(fields, "userID").Some? && Get(fields, "answers").Some?
    ensures IsStoredSurvey(item, fields, stampTime, newId)
  {
    var data := [("answers", Utils.StringifyNumbers(Get(fields, "answers").value))];
    item := Database.PrepareItemForStorage(data, Get(fields, "userID").value, true, stampTime, newId);
  }

  /** `handleSubmitSurvey(body)`. */
  method HandleSubmit(table: string, body: Option<string>, jsonParse: string -> Option<Value>,
                      putReply: Database.Reply, stampTime: string, newId: string) returns (o: Outcome)
    requires table != "" && ParsesObjects(jsonParse)
    ensures SubmitSpec(table, body, jsonParse, putReply, stampTime, newId, o)
  {
    var payload := Payload(body, jsonParse);
    if payload.Err? {
      return Outcome(Caught(payload.error, SubmitFailed), []);
    }
    var fields := payload.value;
    if !Truthy(Get(fields, "userID")) || !Truthy(Get(fields, "answers")) {
      return Outcome(BadRequestResponse(MissingFields), []);
    }
    var item := PrepareSurveyItem(fields, stampTime, newId);
    var put := Database.PutItem(Some(table), item, putReply);
    if put.result.Err? {
      CaughtMessages(SubmitFailed);
      return Outcome(Caught(put.result.error, SubmitFailed), [put.sent.value]);
    }
    var timestamp := Get(item, "timestamp").value;
    o := Outcome(CreateResponse(OK, JObj([("message", JStr(SubmittedMessage)), ("timestamp", timestamp)]), []), [put.sent.value]);
  }

  /** The Lambda entry point. */
  method Handle(tableName: Option<string>, event: Event, jsonParse: string -> Option<Value>,
                getReply: Database.Reply, putReply: Database.Reply, stampTime: string, newId: string)
    returns (o: Outcome)
    requires QueryWellFormed(event) && ParsesObjects(jsonParse)
    ensures event.httpMethod == "OPTIONS" ==> o == Outcome(OptionsResponse(), [])
    ensures event.httpMethod != "OPTIONS" && !Database.Named(tableName) ==>
      o == Outcome(ServerError(ConfigurationError), [])
    ensures event.httpMethod == "GET" && Database.Named(tableName) ==>
      o == GetSurvey(tableName.value, QueryOf(event), getReply)
    ensures event.httpMethod == "POST" && Database.Named(tableName) ==>
      SubmitSpec(tableName.value, event.body, jsonParse, putReply, stampTime, newId, o)
    ensures event.httpMethod !in GetPostOptions && Database.Named(tableName) ==>
      o == Outcome(MethodNotAllowedResponse(GetPostOptions), [])
  {
    var queryParams := GetQueryParams(event.queryStringParameters);
    if event.httpMethod == "OPTIONS" {
      return Outcome(OptionsResponse(), []);
    }
    if !Database.Named(tableName) {
      return Outcome(ServerError(ConfigurationError), []);
    }
    if event.httpMethod == "GET" {
      return GetSurvey(tableName.value, queryParams, getReply);
    }
    if event.httpMethod == "POST" {
      o := HandleSubmit(tableName.value, event.body, jsonParse, putReply, stampTime, newId);
      return;
    }
    return Outcome(MethodNotAllowedResponse(GetPostOptions), []);
  }

  /** Fields sent next to the answers are not stored: two payloads that agree on `userID` and `answers`
      store the same record. */
  lemma ExtraFieldsDropped(item1: Dict<Value>, item2: Dict<Value>, fields1: Dict<Value>, fields2: Dict<Value>,
                           stampTime: string, newId: string, k: string)
    requires Get(fields1, "answers").Some? && Get(fields2, "answers").Some?
    requires Get(fields1, "userID") == Get(fields2, "userID") && Get(fields1, "answers") == Get(fields2, "answers")
    requires IsStoredSurvey(item1, fields1, stampTime, newId) && IsStoredSurvey(item2, fields2, stampTime, newId)
    ensures Get(item1, k) == Get(item2, k)
  {
    if k == "userID" {
      assert Get(item1, k) == Get(fields1, "userID");
    } else if k == "answers" {
      assert Get(item1, k) == Some(Utils.StringifyNumbers(Get(fields1, "answers").value));
    } else if k == "timestamp" || k == "id" {
    } else {
      NotStoredKey(k);
      assert !HasKey(item1, k) && !HasKey(item2, k);
    }
  }

  lemma NotStoredKey(k: string)
    requires k != "userID" && k != "timestamp" && k != "answers" && k != "id"
    ensures k !in StoredKeys
  {
  }
}
