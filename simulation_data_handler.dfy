/**
 * The simulation-data Lambda: one record per participant and simulation level holding the chat history of a
 * simulation run together with any other fields the client sends, stamped like the debrief records. Unlike
 * the other table handlers, every error caught while saving, malformed JSON included, is a server error.
 */
module SimulationDataHandler {
  import opened Wrappers
  import opened Assoc
  import opened Json
  import opened Http
  import opened Lambda
  import Database

  const NotFound := "Simulation data not found for this user and simulation level"
  const RetrieveFailed := "Failed to retrieve simulation data"
  const MissingFields := "Missing required fields: userID, simulationLevel, and chatHistory"
  const SaveFailed := "Failed to save simulation data"
  const SavedMessage := "Simulation data saved successfully"

  /** The keys the handler sets itself; every other payload key is stored as sent. */
  const Managed: seq<string> := ["userID", "simulationLevel", "chatHistory", "timestamp", "createdAt", "updatedAt"]

  /** `handleGetSimulationData(queryParams)`. */
  function GetSimulationData(table: string, query: Dict<string>, reply: Database.Reply): Outcome
    requires table != ""
  {
    GetLevelRecord(table, query, reply, NotFound, RetrieveFailed)
  }

  /** The record a successful save writes. */
  ghost predicate IsStoredRun(item: Dict<Value>, fields: Dict<Value>, existing: Option<Dict<Value>>,
                              now: string, stampTime: string)
  {
    DistinctKeys(item)
    && Get(item, "userID") == Get(fields, "userID")
    && Get(item, "simulationLevel") == Get(fields, "simulationLevel")
    && Get(item, "chatHistory") == Get(fields, "chatHistory")
    && Get(item, "timestamp") == (if HasKey(fields, "timestamp") then Get(fields, "timestamp") else Some(JStr(stampTime)))
    && Get(item, "createdAt") == (if existing.Some? then Get(existing.value, "createdAt") else Some(JStr(now)))
    && Get(item, "updatedAt") == Some(JStr(now))
    && forall k :: k !in Managed ==> Get(item, k) == Get(fields, k)
  }

  /** Everything `handleSaveSimulationData(body)` may do, branch by branch. */
  ghost predicate SaveSpec(table: string, body: Option<string>, jsonParse: string -> Option<Value>,
                           getReply: Database.Reply, putReply: Database.Reply, now: string, stampTime: string, o: Outcome)
    requires ParsesObjects(jsonParse)
  {
    match Payload(body, jsonParse)
    case Err(_) => o == Outcome(ServerError(SaveFailed), [])
    case Ok(fields) =>
      var userId := Get(fields, "userID");
      var level := Get(fields, "simulationLevel");
      var chatHistory := Get(fields, "chatHistory");
      if !Truthy(userId) || !Truthy(level) || !Truthy(chatHistory) then o == Outcome(BadRequestResponse(MissingFields), [])
      else if !IsLevel(level.value) then o == Outcome(BadRequestResponse(LevelOutOfRange), [])
      else StoreSpec(table, fields, getReply, putReply, now, stampTime, o)
  }

  /** What a save with a valid payload does: look the record up, then write it. */
  ghost predicate StoreSpec(table: string, fields: Dict<Value>, getReply: Database.Reply, putReply: Database.Reply,
                            now: string, stampTime: string, o: Outcome)
    requires HasKey(fields, "userID") && HasKey(fields, "simulationLevel")
  {
    var lookup := Database.GetCommand(table, [("userID", Get(fields, "userID").value),
                                              ("simulationLevel", Get(fields, "simulationLevel").value)]);
    match getReply
    case Threw => o == Outcome(ServerError(SaveFailed), [lookup])
    case Replied(existing) =>
      if existing.Some? && !HasKey(existing.value, "createdAt") then o == Outcome(ServerError(SaveFailed), [lookup])
      else
        var createdAt := if existing.Some? then Get(existing.value, "createdAt").value else JStr(now);
        |o.sent| == 2 && o.sent[0] == lookup
        && o.sent[1].PutCommand? && o.sent[1].table == table
        && IsStoredRun(o.sent[1].item, fields, existing, now, stampTime)
        && o.response == if putReply.Threw? then ServerError(SaveFailed)
                         else CreateResponse(OK, SavedBody(createdAt, now, fields), [])
  }

  /** The body of the 200 answer: the stamps and the names of the extra fields stored. */
  function SavedBody(createdAt: Value, now: string, fields: Dict<Value>): Value {
    JObj([("message", JStr(SavedMessage)), ("createdAt", createdAt), ("updatedAt", JStr(now)),
          ("additionalFields", KeyList(Rest(fields, NamedFields)))])
  }

  /** The fields of a run the handler names; the rest are carried over as `additionalFields`. */
  const NamedFields: seq<string> := ["userID", "simulationLevel", "chatHistory"]

  /** `{simulationLevel, chatHistory}` read from the payload. */
  function Named(fields: Dict<Value>): Dict<Value>
    requires HasKey(fields, "simulationLevel") && HasKey(fields, "chatHistory")
  {
    [("simulationLevel", Get(fields, "simulationLevel").value), ("chatHistory", Get(fields, "chatHistory").value)]
  }

  /** `{simulationLevel, chatHistory, ...additionalFields}`: the payload without `userID`. */
  method BaseItem(fields: Dict<Value>) returns (base: Dict<Value>)
    requires DistinctKeys(fields) && HasKey(fields, "simulationLevel") && HasKey(fields, "chatHistory")
    ensures DistinctKeys(base)
    ensures forall k :: Get(base, k) == if k == "userID" then None else Get(fields, k)
  {
    var additionalFields := Rest(fields, NamedFields);
    base := Spread(Named(fields), additionalFields);
    SpreadKeepsDistinct(Named(fields), additionalFields);
    forall k ensures Get(base, k) == if k == "userID" then None else Get(fields, k) {
      BaseField(fields, k);
    }
  }

  /** One key of the base item: `userID` is dropped, every other field keeps its value. */
  lemma BaseField(fields: Dict<Value>, k: string)
    requires DistinctKeys(fields) && HasKey(fields, "simulationLevel") && HasKey(fields, "chatHistory")
    ensures Get(Spread(Named(fields), Rest(fields, NamedFields)), k) == if k == "userID" then None else Get(fields, k)
  {
    var rest := Rest(fields, NamedFields);
    assert Get(Spread(Named(fields), rest), k) == if HasKey(rest, k) then Get(rest, k) else Get(Named(fields), k);
    if k in NamedFields {
      assert Get(rest, k) == None;
      if k == "simulationLevel" {
        assert Named(fields)[0].0 == k;
      } else if k == "chatHistory" {
        assert Named(fields)[0].0 != k && Named(fields)[1..][0].0 == k;
      } else {
        assert Named(fields)[0].0 != k && Named(fields)[1..][0].0 != k && Named(fields)[1..][1..] == [];
      }
    } else {
      assert Get(rest, k) == Get(fields, k);
    }
  }

  /** `prepareItemForStorage(baseItem, userId, false)`, then the composite key. */
  method PrepareRunItem(fields: Dict<Value>, stampTime: string) returns (item: Dict<Value>)
    requires DistinctKeys(fields)
    requires HasKey(fields, "userID") && HasKey(fields, "simulationLevel") && HasKey(fields, "chatHistory")
    ensures DistinctKeys(item)
    ensures Get(item, "userID") == Get(fields, "userID")
    ensures Get(item, "timestamp") == if HasKey(fields, "timestamp") then Get(fields, "timestamp") else Some(JStr(stampTime))
    ensures forall k :: k != "userID" && k != "timestamp" ==> Get(item, k) == Get(fields, k)
  {
    var userId := Get(fields, "userID").value;
    var level := Get(fields, "simulationLevel").value;
    var baseItem := BaseItem(fields);
    var prepared := Database.PrepareItemForStorage(baseItem, userId, false, stampTime, "");
    item := SetCompositeKey(prepared, userId, level);
  }

  /** The record `handleSaveSimulationData` writes: the prepared item, then the stamping. */
  method BuildItem(fields: Dict<Value>, existing: Option<Dict<Value>>, now: string, stampTime: string)
    returns (item: Dict<Value>, storable: bool)
    requires DistinctKeys(fields)
    requires HasKey(fields, "userID") && HasKey(fields, "simulationLevel") && HasKey(fields, "chatHistory")
    ensures storable <==> existing.None? || HasKey(existing.value, "createdAt")
    ensures storable ==> IsStoredRun(item, fields, existing, now, stampTime)
  {
    var prepared := PrepareRunItem(fields, stampTime);
    item, storable := Stamp(prepared, existing, now);
  }

  /** `handleSaveSimulationData(body)`. */
  method HandleSave(table: string, body: Option<string>, jsonParse: string -> Option<Value>,
                    getReply: Database.Reply, putReply: Database.Reply, now: string, stampTime: string)
    returns (o: Outcome)
    requires table != "" && ParsesObjects(jsonParse)
    ensures SaveSpec(table, body, jsonParse, getReply, putReply, now, stampTime, o)
  {
    var payload := Payload(body, jsonParse);
    if payload.Err? {
      // both branches of this handler's `catch` answer the same
      return Outcome(ServerError(SaveFailed), []);
    }
    var fields := payload.value;
    var userId := Get(fields, "userID");
    var level := Get(fields, "simulationLevel");
    var chatHistory := Get(fields, "chatHistory");
    if !Truthy(userId) || !Truthy(level) || !Truthy(chatHistory) {
      return Outcome(BadRequestResponse(MissingFields), []);
    }
    if !IsLevel(level.value) {
      return Outcome(BadRequestResponse(LevelOutOfRange), []);
    }
    o := Store(table, fields, getReply, putReply, now, stampTime);
  }

  /** The part of `handleSaveSimulationData` after validation. */
  method Store(table: string, fields: Dict<Value>, getReply: Database.Reply, putReply: Database.Reply,
               now: string, stampTime: string) returns (o: Outcome)
    requires table != "" && DistinctKeys(fields)
    requires HasKey(fields, "userID") && HasKey(fields, "simulationLevel") && HasKey(fields, "chatHistory")
    requires IsLevel(Get(fields, "simulationLevel").value)
    ensures StoreSpec(table, fields, getReply, putReply, now, stampTime, o)
  {
    var key := PostedLevelKey(Get(fields, "userID").value, Get(fields, "simulationLevel").value);
    var lookup := Database.GetItem(Some(table), key, getReply);
    if lookup.result.Err? {
      return Outcome(ServerError(SaveFailed), [lookup.sent.value]);
    }
    var existing := lookup.result.value;
    var item, storable := BuildItem(fields, existing, now, stampTime);
    if !storable {
      return Outcome(ServerError(SaveFailed), [lookup.sent.value]);
    }
    var put := Database.PutItem(Some(table), item, putReply);
    var sent := [lookup.sent.value, put.sent.value];
    if put.result.Err? {
      return Outcome(ServerError(SaveFailed), sent);
    }
    o := Outcome(CreateResponse(OK, SavedBody(Get(item, "createdAt").value, now, fields), []), sent);
  }

  /** The Lambda entry point. */
  method Handle(tableName: Option<string>, event: Event, jsonParse: string -> Option<Value>,
                getReply: Database.Reply, putReply: Database.Reply, now: string, stampTime: string)
    returns (o: Outcome)
    requires QueryWellFormed(event) && ParsesObjects(jsonParse)
    ensures event.httpMethod == "OPTIONS" ==> o == Outcome(OptionsResponse(), [])
    ensures event.httpMethod != "OPTIONS" && !Database.Named(tableName) ==>
      o == Outcome(ServerError(ConfigurationError), [])
    ensures event.httpMethod == "GET" && Database.Named(tableName) ==>
      o == GetSimulationData(tableName.value, QueryOf(event), getReply)
    ensures event.httpMethod == "POST" && Database.Named(tableName) ==>
      SaveSpec(tableName.value, event.body, jsonParse, getReply, putReply, now, stampTime, o)
    ensures event.httpMethod !in GetPostOptions && Database.Named(tableName) ==>
      o == Outcome(MethodNotAllowedResponse(GetPostOptions), [])
  {
    var queryParams := GetQueryParams(event.queryStringParameters);
    if event.httpMethod == "OPTIONS" {
      return Outcome(OptionsResponse(), []);
    }
    if !Database.Named(tableName) {
      return Outcome(ServerError(ConfigurationError), []);
    }
    if event.httpMethod == "GET" {
      return GetSimulationData(tableName.value, queryParams, getReply);
    }
    if event.httpMethod == "POST" {
      o := HandleSave(tableName.value, event.body, jsonParse, getReply, putReply, now, stampTime);
      return;
    }
    return Outcome(MethodNotAllowedResponse(GetPostOptions), []);
  }

  /** Here malformed JSON is a server error, where the debrief and chat-history handlers answer 400. */
  lemma InvalidJsonIsServerError(table: string, body: string, jsonParse: string -> Option<Value>,
                                 getReply: Database.Reply, putReply: Database.Reply, now: string, stampTime: string, o: Outcome)
    requires ParsesObjects(jsonParse) && body != "" && jsonParse(body).None?
    requires SaveSpec(table, Some(body), jsonParse, getReply, putReply, now, stampTime, o)
    ensures o.response.statusCode == 500
    ensures Caught(InvalidJson, SaveFailed).statusCode == 400
  {
    CaughtMessages(SaveFailed);
  }
}
