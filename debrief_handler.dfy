/**
 * The debrief Lambda: one record per participant and simulation level (the composite key
 * `userID` + `simulationLevel`), holding the debrief answers as sent, stamped with `createdAt` from the
 * first save and `updatedAt` from the latest.
 */
module DebriefHandler {
  import opened Wrappers
  import opened Assoc
  import opened Json
  import opened Http
  import opened Lambda
  import Database

  const NotFound := "Debrief not found for this user and simulation level"
  const RetrieveFailed := "Failed to retrieve debrief data"
  const MissingFields := "Missing required fields: userID, simulationLevel, and answers"
  const SaveFailed := "Failed to save debrief"
  const SavedMessage := "Debrief saved successfully"

  /** The keys of a stored debrief. */
  const StoredKeys: seq<string> := ["userID", "timestamp", "simulationLevel", "answers", "createdAt", "updatedAt"]

  /** `handleGetDebrief(queryParams)`. */
  function GetDebrief(table: string, query: Dict<string>, reply: Database.Reply): Outcome
    requires table != ""
  {
    GetLevelRecord(table, query, reply, NotFound, RetrieveFailed)
  }

  /** The record a successful save writes: the key, the answers as sent, `prepareItemForStorage`'s
      timestamp and the two stamps, and nothing else. */
  ghost predicate IsStoredDebrief(item: Dict<Value>, userId: Value, level: Value, answers: Value,
                                  existing: Option<Dict<Value>>, now: string, stampTime: string)
  {
    DistinctKeys(item)
    && Get(item, "userID") == Some(userId)
    && Get(item, "simulationLevel") == Some(level)
    && Get(item, "answers") == Some(answers)
    && Get(item, "timestamp") == Some(JStr(stampTime))
    && Get(item, "createdAt") == (if existing.Some? then Get(existing.value, "createdAt") else Some(JStr(now)))
    && Get(item, "updatedAt") == Some(JStr(now))
    && forall k :: k !in StoredKeys ==> !HasKey(item, k)
  }

  /** Everything `handleSaveDebrief(body)` may do, branch by branch. */
  ghost predicate SaveSpec(table: string, body: Option<string>, jsonParse: string -> Option<Value>,
                           getReply: Database.Reply, putReply: Database.Reply, now: string, stampTime: string, o: Outcome)
    requires ParsesObjects(jsonParse)
  {
    match Payload(body, jsonParse)
    case Err(e) => o == Outcome(Caught(e, SaveFailed), [])
    case Ok(fields) =>
      var userId := Get(fields, "userID");
      var level := Get(fields, "simulationLevel");
      var answers := Get(fields, "answers");
      if !Truthy(userId) || !Truthy(level) || !Truthy(answers) then o == Outcome(BadRequestResponse(MissingFields), [])
      else if !IsLevel(level.value) then o == Outcome(BadRequestResponse(LevelOutOfRange), [])
      else StoreSpec(table, userId.value, level.value, answers.value, getReply, putReply, now, stampTime, o)
  }

  /** What a save with a valid payload does: look the record up, then write it. */
  ghost predicate StoreSpec(table: string, userId: Value, level: Value, answers: Value,
                            getReply: Database.Reply, putReply: Database.Reply, now: string, stampTime: string, o: Outcome)
  {
    var lookup := Database.GetCommand(table, [("userID", userId), ("simulationLevel", level)]);
    match getReply
    case Threw => o == Outcome(ServerError(SaveFailed), [lookup])
    case Replied(existing) =>
      if existing.Some? && !HasKey(existing.value, "createdAt") then o == Outcome(ServerError(SaveFailed), [lookup])
      else
        var createdAt := if existing.Some? then Get(existing.value, "createdAt").value else JStr(now);
        |o.sent| == 2 && o.sent[0] == lookup
        && o.sent[1].PutCommand? && o.sent[1].table == table
        && IsStoredDebrief(o.sent[1].item, userId, level, answers, existing, now, stampTime)
        && o.response == if putReply.Threw? then ServerError(SaveFailed)
                         else CreateResponse(OK, JObj([("message", JStr(SavedMessage)), ("createdAt", createdAt),
                                                       ("updatedAt", JStr(now))]), [])
  }

  /** `prepareItemForStorage({simulationLevel, answers}, userId, false)`, then the composite key. */
  method PrepareDebriefItem(userId: Value, level: Value, answers: Value, stampTime: string) returns (item: Dict<Value>)
    ensures DistinctKeys(item)
    ensures Get(item, "userID") == Some(userId) && Get(item, "simulationLevel") == Some(level)
    ensures Get(item, "answers") == Some(answers) && Get(item, "timestamp") == Some(JStr(stampTime))
    ensures forall k :: k !in ["userID", "timestamp", "simulationLevel", "answers"] ==> !HasKey(item, k)
  {
    var data := [("simulationLevel", level), ("answers", answers)];
    GetAt(data, 1);
    assert !HasKey(data, "timestamp") && !HasKey(data, "userID") && !HasKey(data, "id");
    var prepared := Database.PrepareItemForStorage(data, userId, false, stampTime, "");
    item := SetCompositeKey(prepared, userId, level);
  }

  /** The record `handleSaveDebrief` writes for a valid payload: the prepared item, then the stamping. */
  method BuildItem(userId: Value, level: Value, answers: Value, existing: Option<Dict<Value>>, now: string, stampTime: string)
    returns (item: Dict<Value>, storable: bool)
    ensures storable <==> existing.None? || HasKey(existing.value, "createdAt")
    ensures storable ==> IsStoredDebrief(item, userId, level, answers, existing, now, stampTime)
  {
    var prepared := PrepareDebriefItem(userId, level, answers, stampTime);
    item, storable := Stamp(prepared, existing, now);
  }

  /** `handleSaveDebrief(body)`. */
  method HandleSave(table: string, body: Option<string>, jsonParse: string -> Option<Value>,
                    getReply: Database.Reply, putReply: Database.Reply, now: string, stampTime: string)
    returns (o: Outcome)
    requires table != "" && ParsesObjects(jsonParse)
    ensures SaveSpec(table, body, jsonParse, getReply, putReply, now, stampTime, o)
  {
    var payload := Payload(body, jsonParse);
    if payload.Err? {
      return Outcome(Caught(payload.error, SaveFailed), []);
    }
    var fields := payload.value;
    var userId := Get(fields, "userID");
    var level := Get(fields, "simulationLevel");
    var answers := Get(fields, "answers");
    if !Truthy(userId) || !Truthy(level) || !Truthy(answers) {
      return Outcome(BadRequestResponse(MissingFields), []);
    }
    if !IsLevel(level.value) {
      return Outcome(BadRequestResponse(LevelOutOfRange), []);
    }
    o := Store(table, userId.value, level.value, answers.value, getReply, putReply, now, stampTime);
  }

  /** The part of `handleSaveDebrief` after validation. */
  method Store(table: string, userId: Value, level: Value, answers: Value,
               getReply: Database.Reply, putReply: Database.Reply, now: string, stampTime: string)
    returns (o: Outcome)
    requires table != "" && IsLevel(level)
    ensures StoreSpec(table, userId, level, answers, getReply, putReply, now, stampTime, o)
  {
    var key := PostedLevelKey(userId, level);
    CaughtMessages(SaveFailed);
    var lookup := Database.GetItem(Some(table), key, getReply);
    if lookup.result.Err? {
      return Outcome(Caught(lookup.result.error, SaveFailed), [lookup.sent.value]);
    }
    var existing := lookup.result.value;
    var item, storable := BuildItem(userId, level, answers, existing, now, stampTime);
    if !storable {
      return Outcome(Caught(Database.PutFailed, SaveFailed), [lookup.sent.value]);
    }
    var put := Database.PutItem(Some(table), item, putReply);
    var sent := [lookup.sent.value, put.sent.value];
    if put.result.Err? {
      return Outcome(Caught(put.result.error, SaveFailed), sent);
    }
    var body := JObj([("message", JStr(SavedMessage)), ("createdAt", Get(item, "createdAt").value),
                      ("updatedAt", Get(item, "updatedAt").value)]);
    o := Outcome(CreateResponse(OK, body, []), sent);
  }

  /** The Lambda entry point. */
  method Handle(tableName: Option<string>, event: Event, jsonParse: string -> Option<Value>,
                getReply: Database.Reply, putReply: Database.Reply, now: string, stampTime: string)
    returns (o: Outcome)
    requires QueryWellFormed(event) && ParsesObjects(jsonParse)
    ensures event.httpMethod == "OPTIONS" ==> o == Outcome(OptionsResponse(), [])
    ensures event.httpMethod != "OPTIONS" && !Database.Named(tableName) ==>
      o == Outcome(ServerError(ConfigurationError), [])
    ensures event.httpMethod == "GET" && Database.Named(tableName) ==>
      o == GetDebrief(tableName.value, QueryOf(event), getReply)
    ensures event.httpMethod == "POST" && Database.Named(tableName) ==>
      SaveSpec(tableName.value, event.body, jsonParse, getReply, putReply, now, stampTime, o)
    ensures event.httpMethod !in GetPostOptions && Database.Named(tableName) ==>
      o == Outcome(MethodNotAllowedResponse(GetPostOptions), [])
  {
    var queryParams := GetQueryParams(event.queryStringParameters);
    if event.httpMethod == "OPTIONS" {
      return Outcome(OptionsResponse(), []);
    }
    if !Database.Named(tableName) {
      return Outcome(ServerError(ConfigurationError), []);
    }
    if event.httpMethod == "GET" {
      return GetDebrief(tableName.value, queryParams, getReply);
    }
    if event.httpMethod == "POST" {
      o := HandleSave(tableName.value, event.body, jsonParse, getReply, putReply, now, stampTime);
      return;
    }
    return Outcome(MethodNotAllowedResponse(GetPostOptions), []);
  }

  /** A saved debrief is what a later GET for the same user and level returns. */
  lemma SavedDebriefIsRead(table: string, userId: string, n: int, item: Dict<Value>, answers: Value,
                           existing: Option<Dict<Value>>, now: string, stampTime: string)
    requires table != "" && userId != ""
    requires IsStoredDebrief(item, JStr(userId), JNum(n), answers, existing, now, stampTime)
    ensures var query := [("userID", userId), ("simulationLevel", ToJsString(JNum(n)))];
      var o := GetDebrief(table, query, Database.Replied(Some(item)));
      o.response.statusCode == 200 && Field(o.response.body, "answers") == Some(answers)
  {
    SavedLevelIsRead(table, userId, n, item, NotFound, RetrieveFailed);
  }

  /** The level check is strict: the string "1" is refused even though `parseInt` would read it, and so is
      any number outside 1..3. */
  lemma LevelMustBeNumber()
    ensures !IsLevel(JStr("1")) && !IsLevel(JNum(4)) && !IsLevel(JNum(0))
    ensures IsLevel(JNum(2))
  {
  }
}
