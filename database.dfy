/** The DynamoDB helpers the handlers share. The SDK itself is a parameter: each wrapper returns the command it
    would send (if any) and the result, given the reply the SDK produced. */
module Database {
  import opened Wrappers
  import opened Assoc
  import opened Json
  import Decimal
  import Text

  const TableNameRequired := "Table name is required"
  const GetFailed := "Failed to retrieve item from database"
  const PutFailed := "Failed to save item to database"
  const UpdateFailed := "Failed to update item in database"
  const DeleteFailed := "Failed to delete item from database"
  const TransactFailed := "Failed to execute transaction write"

  datatype Command =
    | GetCommand(table: string, key: Dict<Value>)
    | PutCommand(table: string, item: Dict<Value>)
    | UpdateCommand(table: string, key: Dict<Value>, expression: string, names: Dict<string>, values: Dict<Value>)
    | DeleteCommand(table: string, key: Dict<Value>)
    | TransactWriteCommand(items: seq<Value>)

  /** What `dynamo.send` did: returned (with the stored item, for a get) or threw. */
  datatype Reply = Replied(item: Option<Dict<Value>>) | Threw

  /** One wrapper call: the command sent, if any, and the value returned or the message thrown. */
  datatype Call<T> = Call(sent: Option<Command>, result: Result<T, string>)

  /** `!tableName` is false: the name is present and non-empty. */
  predicate Named(tableName: Option<string>) {
    tableName.Some? && tableName.value != ""
  }

  /** `getItem`: the guard runs before any call; a missing item reads as null (None). */
  function GetItem(tableName: Option<string>, key: Dict<Value>, reply: Reply): (c: Call<Option<Dict<Value>>>)
    ensures c.sent.None? <==> !Named(tableName)
    ensures !Named(tableName) ==> c.result == Err(TableNameRequired)
    ensures Named(tableName) ==> c.sent == Some(GetCommand(tableName.value, key))
    ensures Named(tableName) ==> c.result == if reply.Threw? then Err(GetFailed) else Ok(reply.item)
  {
    if !Named(tableName) then Call(None, Err(TableNameRequired))
    else
      var sent := Some(GetCommand(tableName.value, key));
      match reply
      case Threw => Call(sent, Err(GetFailed))
      case Replied(item) => Call(sent, Ok(item))
  }

  /** `putItem`: guarded like `getItem`. */
  function PutItem(tableName: Option<string>, item: Dict<Value>, reply: Reply): (c: Call<()>)
    ensures c.sent.None? <==> !Named(tableName)
    ensures !Named(tableName) ==> c.result == Err(TableNameRequired)
    ensures Named(tableName) ==> c.sent == Some(PutCommand(tableName.value, item))
    ensures Named(tableName) ==> c.result == if reply.Threw? then Err(PutFailed) else Ok(())
  {
    if !Named(tableName) then Call(None, Err(TableNameRequired))
    else Call(Some(PutCommand(tableName.value, item)), if reply.Threw? then Err(PutFailed) else Ok(()))
  }

  /** `deleteItem`: no table-name guard, the command is always sent. */
  function DeleteItem(tableName: string, key: Dict<Value>, reply: Reply): (c: Call<()>)
    ensures c.sent == Some(DeleteCommand(tableName, key))
    ensures c.result == if reply.Threw? then Err(DeleteFailed) else Ok(())
  {
    Call(Some(DeleteCommand(tableName, key)), if reply.Threw? then Err(DeleteFailed) else Ok(()))
  }

  /** `transactWriteItems`: guarded; the table name itself is not part of the command. */
  function TransactWriteItems(tableName: Option<string>, items: seq<Value>, reply: Reply): (c: Call<()>)
    ensures c.sent.None? <==> !Named(tableName)
    ensures !Named(tableName) ==> c.result == Err(TableNameRequired)
    ensures Named(tableName) ==> c.sent == Some(TransactWriteCommand(items))
    ensures Named(tableName) ==> c.result == if reply.Threw? then Err(TransactFailed) else Ok(())
  {
    if !Named(tableName) then Call(None, Err(TableNameRequired))
    else Call(Some(TransactWriteCommand(items)), if reply.Threw? then Err(TransactFailed) else Ok(()))
  }

  // ---- the update expression ----

  function NameToken(i: nat): string { "#attr" + Decimal.IntToString(i) }
  function ValueToken(i: nat): string { ":val" + Decimal.IntToString(i) }

  lemma TokensInjective(i: nat, j: nat)
    requires i != j
    ensures NameToken(i) != NameToken(j) && ValueToken(i) != ValueToken(j)
  {
    var a := Decimal.IntToString(i);
    var b := Decimal.IntToString(j);
    if a == b {
      Decimal.IntToStringInjective(i, j);
    }
    assert NameToken(i)[5..] == a && NameToken(j)[5..] == b;
    assert ValueToken(i)[4..] == a && ValueToken(j)[4..] == b;
  }

  /** `#attri = :vali` for each index, in key order. */
  function Clauses(n: nat): (cs: seq<string>)
    ensures |cs| == n
  {
    seq(n, i requires 0 <= i < n => NameToken(i) + " = " + ValueToken(i))
  }

  /** The `SET` expression sent for an update with the given entries. */
  function UpdateExpression(updates: Dict<Value>): string {
    "SET " + Text.Join(Clauses(|updates|), ", ")
  }

  /** `ExpressionAttributeNames`: `#attri` to the i-th key. */
  function AttributeNames(updates: Dict<Value>): (names: Dict<string>)
    ensures |names| == |updates|
  {
    seq(|updates|, i requires 0 <= i < |updates| => (NameToken(i), updates[i].0))
  }

  /** `ExpressionAttributeValues`: `:vali` to the i-th value. */
  function AttributeValues(updates: Dict<Value>): (values: Dict<Value>)
    ensures |values| == |updates|
  {
    seq(|updates|, i requires 0 <= i < |updates| => (ValueToken(i), updates[i].1))
  }

  /** The assignment the i-th clause stands for once its two placeholders are looked up. */
  function Resolve(i: nat, names: Dict<string>, values: Dict<Value>): Option<(string, Value)> {
    match (Get(names, NameToken(i)), Get(values, ValueToken(i)))
    case (Some(k), Some(v)) => Some((k, v))
    case _ => None
  }

  /** The placeholder maps never repeat a token, so each one resolves to a single key or value. */
  lemma PlaceholdersDistinct(updates: Dict<Value>)
    ensures DistinctKeys(AttributeNames(updates)) && DistinctKeys(AttributeValues(updates))
  {
    forall i, j | 0 <= i < j < |updates|
      ensures AttributeNames(updates)[i].0 != AttributeNames(updates)[j].0
      ensures AttributeValues(updates)[i].0 != AttributeValues(updates)[j].0
    {
      TokensInjective(i, j);
    }
  }

  /** Every clause of the expression resolves, through the two maps, to exactly the update entry at the same
      index: the three parts agree on key order, and the update applied is the one requested. */
  lemma UpdateResolves(updates: Dict<Value>, i: nat)
    requires i < |updates|
    ensures Clauses(|updates|)[i] == NameToken(i) + " = " + ValueToken(i)
    ensures Resolve(i, AttributeNames(updates), AttributeValues(updates)) == Some(updates[i])
  {
    PlaceholdersDistinct(updates);
    GetAt(AttributeNames(updates), i);
    GetAt(AttributeValues(updates), i);
  }

  /** No placeholder beyond the last entry is defined. */
  lemma NoStrayPlaceholders(updates: Dict<Value>, i: nat)
    requires i >= |updates|
    ensures !HasKey(AttributeNames(updates), NameToken(i)) && !HasKey(AttributeValues(updates), ValueToken(i))
  {
    forall j | 0 <= j < |updates|
      ensures AttributeNames(updates)[j].0 != NameToken(i) && AttributeValues(updates)[j].0 != ValueToken(i)
    {
      TokensInjective(i, j);
    }
  }

  /** `updateItem`: no table-name guard; the command carries the three parts built from `updates`. */
  function UpdateItem(tableName: string, key: Dict<Value>, updates: Dict<Value>, reply: Reply): (c: Call<()>)
    ensures c.sent.Some? && c.sent.value.UpdateCommand?
    ensures c.sent.value.expression == UpdateExpression(updates)
    ensures c.sent.value.names == AttributeNames(updates) && c.sent.value.values == AttributeValues(updates)
    ensures c.result == if reply.Threw? then Err(UpdateFailed) else Ok(())
  {
    var command := UpdateCommand(tableName, key, UpdateExpression(updates), AttributeNames(updates), AttributeValues(updates));
    Call(Some(command), if reply.Threw? then Err(UpdateFailed) else Ok(()))
  }

  /** For two updates the expression is `SET #attr0 = :val0, #attr1 = :val1`. */
  lemma TwoUpdatesExpression()
    ensures UpdateExpression([("a", JNull), ("b", JNull)]) == "SET " + "#attr0 = :val0" + ", " + "#attr1 = :val1"
  {
    var cs := Clauses(2);
    FirstClause();
    SecondClause();
    assert cs == [cs[0], cs[1]];
    JoinTwo(cs[0], cs[1], ", ");
  }

  lemma FirstClause()
    ensures Clauses(2)[0] == "#attr0 = :val0"
  {
    assert Decimal.IntToString(0) == "0";
  }

  lemma SecondClause()
    ensures Clauses(2)[1] == "#attr1 = :val1"
  {
    assert Decimal.IntToString(1) == "1";
  }

  lemma JoinTwo(a: string, b: string, sep: string)
    ensures Text.Join([a, b], sep) == a + sep + b
  {
    assert [a, b][1..] == [b];
  }

  // ---- item preparation ----

  /** `prepareItemForStorage(data, userId, includeId)`, with the clock reading and the generated id as
      parameters. `userID` and `timestamp` come first and `data` overrides them; `id` is set last. */
  method PrepareItemForStorage(data: Dict<Value>, userId: Value, includeId: bool, now: string, newId: string)
    returns (item: Dict<Value>)
    requires DistinctKeys(data)
    ensures DistinctKeys(item)
    ensures Get(item, "userID") == if HasKey(data, "userID") then Get(data, "userID") else Some(userId)
    ensures Get(item, "timestamp") == if HasKey(data, "timestamp") then Get(data, "timestamp") else Some(JStr(now))
    ensures Get(item, "id") == if includeId then Some(JStr(newId)) else Get(data, "id")
    ensures forall k :: k != "userID" && k != "timestamp" && k != "id" ==> Get(item, k) == Get(data, k)
    ensures |item| >= 2 && item[0].0 == "userID" && item[1].0 == "timestamp"
  {
    item := Stamped(data, userId, now);
    if includeId {
      item := SetId(item, newId);
    }
  }

  /** `{userID: userId, timestamp: now, ...data}`. */
  method Stamped(data: Dict<Value>, userId: Value, now: string) returns (item: Dict<Value>)
    requires DistinctKeys(data)
    ensures DistinctKeys(item)
    ensures Get(item, "userID") == if HasKey(data, "userID") then Get(data, "userID") else Some(userId)
    ensures Get(item, "timestamp") == if HasKey(data, "timestamp") then Get(data, "timestamp") else Some(JStr(now))
    ensures forall k :: k != "userID" && k != "timestamp" ==> Get(item, k) == Get(data, k)
    ensures |item| >= 2 && item[0].0 == "userID" && item[1].0 == "timestamp"
  {
    var base: Dict<Value> := [("userID", userId), ("timestamp", JStr(now))];
    assert Get(base[1..], "timestamp") == Some(JStr(now));
    assert forall k :: k != "userID" && k != "timestamp" ==> Get(base, k) == None;
    item := Spread(base, data);
    SpreadKeepsDistinct(base, data);
    SpreadKeepsPrefix(base, data);
    assert Keys(base) == ["userID", "timestamp"];
  }

  /** `item.id = id` on a prepared item: only `id` changes, and the first keys stay where they are. */
  method SetId(prepared: Dict<Value>, newId: string) returns (item: Dict<Value>)
    requires DistinctKeys(prepared)
    ensures DistinctKeys(item)
    ensures Get(item, "id") == Some(JStr(newId))
    ensures forall k :: k != "id" ==> Get(item, k) == Get(prepared, k)
    ensures Keys(prepared) <= Keys(item)
  {
    SetKeepsDistinct(prepared, "id", JStr(newId));
    item := Set(prepared, "id", JStr(newId));
    assert Keys(prepared) <= Keys(item) by {
      if !HasKey(prepared, "id") {
        assert Keys(item) == Keys(prepared) + ["id"];
      }
    }
  }
}
