/**
 * The chat-history Lambda: one record per participant and simulation level holding the conversation of a
 * simulation run. A save overwrites the record without reading it first, so it carries no
 * `createdAt`/`updatedAt`, only `prepareItemForStorage`'s timestamp.
 */
module ChatHistoryHandler {
  import opened Wrappers
  import opened Assoc
  import opened Json
  import opened Http
  import opened Lambda
  import Database

  const NotFound := "Chat history not found for this user and simulation level"
  const RetrieveFailed := "Failed to retrieve chat history"
  const MissingFields := "Missing required fields: userID, simulationLevel, and chatHistory"
  const SaveFailed := "Failed to save chat history"
  const SavedMessage := "Chat history saved successfully"

  /** The keys of a stored chat history. */
  const StoredKeys: seq<string> := ["userID", "timestamp", "simulationLevel", "chatHistory"]

  /** `handleGetChatHistory(queryParams)`. */
  function GetChatHistory(table: string, query: Dict<string>, reply: Database.Reply): Outcome
    requires table != ""
  {
    GetLevelRecord(table, query, reply, NotFound, RetrieveFailed)
  }

  /** The record a successful save writes: the key, the history as sent and the timestamp, nothing else. */
  ghost predicate IsStoredChat(item: Dict<Value>, userId: Value, level: Value, chatHistory: Value, stampTime: string) {
    DistinctKeys(item)
    && Get(item, "userID") == Some(userId)
    && Get(item, "simulationLevel") == Some(level)
    && Get(item, "chatHistory") == Some(chatHistory)
    && Get(item, "timestamp") == Some(JStr(stampTime))
    && forall k :: k !in StoredKeys ==> !HasKey(item, k)
  }

  /** Everything `handleSaveChatHistory(body)` may do, branch by branch. */
  ghost predicate SaveSpec(table: string, body: Option<string>, jsonParse: string -> Option<Value>,
                           putReply: Database.Reply, stampTime: string, o: Outcome)
    requires ParsesObjects(jsonParse)
  {
    match Payload(body, jsonParse)
    case Err(e) => o == Outcome(Caught(e, SaveFailed), [])
    case Ok(fields) =>
      var userId := Get(fields, "userID");
      var level := Get(fields, "simulationLevel");
      var chatHistory := Get(fields, "chatHistory");
      if !Truthy(userId) || !Truthy(level) || !Truthy(chatHistory) then o == Outcome(BadRequestResponse(MissingFields), [])
      else if !IsLevel(level.value) then o == Outcome(BadRequestResponse(LevelOutOfRange), [])
      else
        |o.sent| == 1 && o.sent[0].PutCommand? && o.sent[0].table == table
        && IsStoredChat(o.sent[0].item, userId.value, level.value, chatHistory.value, stampTime)
        && o.response == if putReply.Threw? then ServerError(SaveFailed)
                         else CreateResponse(OK, JObj([("message", JStr(SavedMessage)), ("timestamp", JStr(stampTime))]), [])
  }

  /** `prepareItemForStorage({simulationLevel, chatHistory}, userId, false)`, then the composite key. */
  method PrepareChatItem(userId: Value, level: Value, chatHistory: Value, stampTime: string) returns (item: Dict<Value>)
    ensures IsStoredChat(item, userId, level, chatHistory, stampTime)
  {
    var data := [("simulationLevel", level), ("chatHistory", chatHistory)];
    GetAt(data, 1);
    assert !HasKey(data, "timestamp") && !HasKey(data, "userID") && !HasKey(data, "id");
    var prepared := Database.PrepareItemForStorage(data, userId, false, stampTime, "");
    item := SetCompositeKey(prepared, userId, level);
  }

  /** `handleSaveChatHistory(body)`. */
  method HandleSave(table: string, body: Option<string>, jsonParse: string -> Option<Value>,
                    putReply: Database.Reply, stampTime: string) returns (o: Outcome)
    requires table != "" && ParsesObjects(jsonParse)
    ensures SaveSpec(table, body, jsonParse, putReply, stampTime, o)
  {
    var payload := Payload(body, jsonParse);
    if payload.Err? {
      return Outcome(Caught(payload.error, SaveFailed), []);
    }
    var fields := payload.value;
    var userId := Get(fields, "userID");
    var level := Get(fields, "simulationLevel");
    var chatHistory := Get(fields, "chatHistory");
    if !Truthy(userId) || !Truthy(level) || !Truthy(chatHistory) {
      return Outcome(BadRequestResponse(MissingFields), []);
    }
    if !IsLevel(level.value) {
      return Outcome(BadRequestResponse(LevelOutOfRange), []);
    }
    var item := PrepareChatItem(userId.value, level.value, chatHistory.value, stampTime);
    var put := Database.PutItem(Some(table), item, putReply);
    if put.result.Err? {
      CaughtMessages(SaveFailed);
      return Outcome(Caught(put.result.error, SaveFailed), [put.sent.value]);
    }
    var body := JObj([("message", JStr(SavedMessage)), ("timestamp", Get(item, "timestamp").value)]);
    o := Outcome(CreateResponse(OK, body, []), [put.sent.value]);
  }

  /** The Lambda entry point. */
  method Handle(tableName: Option<string>, event: Event, jsonParse: string -> Option<Value>,
                getReply: Database.Reply, putReply: Database.Reply, stampTime: string) returns (o: Outcome)
    requires QueryWellFormed(event) && ParsesObjects(jsonParse)
    ensures event.httpMethod == "OPTIONS" ==> o == Outcome(OptionsResponse(), [])
    ensures event.httpMethod != "OPTIONS" && !Database.Named(tableName) ==>
      o == Outcome(ServerError(ConfigurationError), [])
    ensures event.httpMethod == "GET" && Database.Named(tableName) ==>
      o == GetChatHistory(tableName.value, QueryOf(event), getReply)
    ensures event.httpMethod == "POST" && Database.Named(tableName) ==>
      SaveSpec(tableName.value, event.body, jsonParse, putReply, stampTime, o)
    ensures event.httpMethod !in GetPostOptions && Database.Named(tableName) ==>
      o == Outcome(MethodNotAllowedResponse(GetPostOptions), [])
  {
    var queryParams := GetQueryParams(event.queryStringParameters);
    if event.httpMethod == "OPTIONS" {
      return Outcome(OptionsResponse(), []);
    }
    if !Database.Named(tableName) {
      return Outcome(ServerError(ConfigurationError), []);
    }
    if event.httpMethod == "GET" {
      return GetChatHistory(tableName.value, queryParams, getReply);
    }
    if event.httpMethod == "POST" {
      o := HandleSave(tableName.value, event.body, jsonParse, putReply, stampTime);
      return;
    }
    return Outcome(MethodNotAllowedResponse(GetPostOptions), []);
  }

  /** A saved history is what a later GET for the same user and level returns. */
  lemma SavedHistoryIsRead(table: string, userId: string, n: int, item: Dict<Value>, chatHistory: Value, stampTime: string)
    requires table != "" && userId != ""
    requires IsStoredChat(item, JStr(userId), JNum(n), chatHistory, stampTime)
    ensures var query := [("userID", userId), ("simulationLevel", ToJsString(JNum(n)))];
      var o := GetChatHistory(table, query, Database.Replied(Some(item)));
      o.response.statusCode == 200 && Field(o.response.body, "chatHistory") == Some(chatHistory)
  {
    SavedLevelIsRead(table, userId, n, item, NotFound, RetrieveFailed);
  }
}
