/** What the two data hooks share: records are JSON objects, lists of them
    are edited by id, and every request hands back a result record whose
    outcome decides the hook's `error` field. */
module Records {
  import opened Js
  import opened Lists

  /** A service result: `success`, `data` (of the type the call declares)
      and `error`. */
  datatype ApiResult<T> = ApiResult(success: bool, data: T, error: Json)

  /** What an operation hands back to its caller. */
  datatype OpResult = OpResult(success: bool, data: Json, error: Json)

  /** `record.id === id`. */
  predicate HasId(record: Json, id: string) {
    Get(record, "id") == Str(id)
  }

  /** `result.data || []` for a list the call declares as optional. */
  function ListOf(data: Option<seq<Json>>): (items: seq<Json>)
    ensures data.None? ==> items == []
    ensures data.Some? ==> items == data.value
  {
    if data.Some? then data.value else []
  }

  /** `list.filter(r => r.id !== id)`. */
  function RemoveById(records: seq<Json>, id: string): (r: seq<Json>)
    ensures forall i :: 0 <= i < |r| ==> !HasId(r[i], id) && r[i] in records
    ensures forall i :: 0 <= i < |records| && !HasId(records[i], id) ==> records[i] in r
  {
    Filter(records, (x: Json) => !HasId(x, id))
  }

  /** Removal keeps the survivors in order: the removal from two lists run
      together is the two removals run together. */
  lemma RemoveByIdKeepsOrder(a: seq<Json>, b: seq<Json>, id: string)
    ensures RemoveById(a + b, id) == RemoveById(a, id) + RemoveById(b, id)
  {
    FilterAppend(a, b, (x: Json) => !HasId(x, id));
  }

  /** Removing twice removes nothing more. */
  lemma RemoveByIdIdempotent(records: seq<Json>, id: string)
    ensures RemoveById(RemoveById(records, id), id) == RemoveById(records, id)
  {
    FilterIdempotent(records, (x: Json) => !HasId(x, id));
  }

  /** Deleting a record just put in front of a list that did not hold its
      id gives the list back. */
  lemma RemoveUndoesPrepend(records: seq<Json>, added: Json, id: string)
    requires HasId(added, id)
    requires forall i :: 0 <= i < |records| ==> !HasId(records[i], id)
    ensures RemoveById([added] + records, id) == records
  {
    RemoveByIdKeepsOrder([added], records, id);
    FilterKeepsAll(records, (x: Json) => !HasId(x, id));
  }

  /** `list.map(r => r.id === id ? { ...r, ...changes } : r)`. */
  function UpdateById(records: seq<Json>, id: string, changes: Json): (r: seq<Json>)
    ensures |r| == |records|
    ensures forall i :: 0 <= i < |records| && !HasId(records[i], id) ==> r[i] == records[i]
    ensures forall i :: 0 <= i < |records| && HasId(records[i], id) ==> r[i] == Merge(records[i], changes)
  {
    MapWhere(records, (x: Json) => HasId(x, id), (x: Json) => Merge(x, changes))
  }

  /** An updated record takes every field the changes carry and keeps its
      other fields; unless the changes carry an id, it keeps its id too. */
  lemma UpdatedFields(records: seq<Json>, id: string, changes: Json, i: int, key: string)
    requires 0 <= i < |records| && HasId(records[i], id)
    ensures key in Spread(changes) ==> Get(UpdateById(records, id, changes)[i], key) == Spread(changes)[key]
    ensures key !in Spread(changes) ==> Get(UpdateById(records, id, changes)[i], key) == Get(records[i], key)
    ensures "id" !in Spread(changes) ==> HasId(UpdateById(records, id, changes)[i], id)
  {
    assert records[i].Obj?;
  }

  /** The record with `field` set to `value`. */
  function WithField(record: Json, field: string, value: Json): Json {
    Merge(record, Obj(map[field := value]))
  }

  /** `list.map(r => r.id === id ? { ...r, [field]: value } : r)`. */
  function SetFieldById(records: seq<Json>, id: string, field: string, value: Json): seq<Json> {
    UpdateById(records, id, Obj(map[field := value]))
  }

  /** A record's field set twice holds the second value; its other fields,
      its id among them, stay as they were. */
  lemma WithFieldTwice(record: Json, field: string, first: Json, second: Json)
    requires field != "id"
    ensures WithField(WithField(record, field, first), field, second) == WithField(record, field, second)
    ensures Get(WithField(record, field, first), "id") == Get(record, "id")
  {
    var m := Spread(record);
    assert Spread(WithField(record, field, first)) == m + map[field := first];
    OverwriteTwice(m, field, first, second);
  }

  /** A key written twice holds the second value only. */
  lemma OverwriteTwice(m: map<string, Json>, key: string, first: Json, second: Json)
    ensures (m + map[key := first]) + map[key := second] == m + map[key := second]
  {
    var lhs, rhs := (m + map[key := first]) + map[key := second], m + map[key := second];
    assert lhs.Keys == rhs.Keys;
    forall k | k in lhs ensures lhs[k] == rhs[k] {
    }
  }

  /** Setting a field other than `id` by id twice is setting it once, to
      the second value: adding and then removing a favourite leaves only
      the removal. */
  lemma SetFieldTwice(records: seq<Json>, id: string, field: string, first: Json, second: Json)
    requires field != "id"
    ensures SetFieldById(SetFieldById(records, id, field, first), id, field, second)
         == SetFieldById(records, id, field, second)
  {
    var once := SetFieldById(records, id, field, first);
    var twice := SetFieldById(once, id, field, second);
    var direct := SetFieldById(records, id, field, second);
    forall i | 0 <= i < |records| ensures twice[i] == direct[i] {
      WithFieldTwice(records[i], field, first, second);
    }
  }

  /** A hook's `catch (err)` reads `err.message`. When the thrown value is
      `null` or `undefined` that read throws a TypeError inside the catch:
      nothing more of the catch runs, the `finally` still lowers `loading`,
      and the hook's own promise rejects. */
  predicate CatchThrows<T>(outcome: Outcome<T>) {
    outcome.Threw? && Nullish(outcome.error)
  }

  /** How a hook operation that returns nothing settles: it rejects with the
      TypeError exactly when its catch throws. */
  function Settled<T>(outcome: Outcome<T>): (r: Outcome<()>)
    ensures r.Threw? <==> CatchThrows(outcome)
    ensures r.Threw? ==> r.error == TypeErrorValue
  {
    if CatchThrows(outcome) then Threw(TypeErrorValue) else Returned(())
  }

  /** The hook's `error` after a request: cleared at the start and left so
      on success; on failure the result's error or the operation's default
      message; on an exception the exception's message, unless reading it
      throws, in which case the cleared value stays. */
  function ErrorAfter<T>(outcome: Outcome<ApiResult<T>>, default: string): (e: Json)
    ensures outcome.Returned? && outcome.value.success ==> e == Null
    ensures outcome.Returned? && !outcome.value.success ==>
      (Truthy(outcome.value.error) ==> e == outcome.value.error) &&
      (!Truthy(outcome.value.error) ==> e == Str(default))
    ensures outcome.Threw? && !Nullish(outcome.error) ==> e == Get(outcome.error, "message")
    ensures CatchThrows(outcome) ==> e == Null
  {
    match outcome
    case Returned(result) => if result.success then Null else Or(result.error, Str(default))
    case Threw(err) => if Nullish(err) then Null else Get(err, "message")
  }

  /** An unsuccessful result always leaves a truthy error, given a
      non-empty default message. */
  lemma FailureLeavesError<T>(result: ApiResult<T>, default: string)
    requires !result.success && default != ""
    ensures Truthy(ErrorAfter(Returned(result), default))
  {
  }

  /** How an operation that reports data settles: the result's data on
      success, its error on failure, the exception's message on an
      exception, and a rejection with the TypeError when the catch itself
      throws. */
  function Reply(outcome: Outcome<ApiResult<Json>>): (r: Outcome<OpResult>)
    ensures r.Threw? <==> CatchThrows(outcome)
    ensures r.Threw? ==> r.error == TypeErrorValue
    ensures r.Returned? ==> (r.value.success <==> Succeeded(outcome))
    ensures Succeeded(outcome) ==> r.value.data == outcome.value.data && r.value.error == Undefined
    ensures outcome.Returned? && !outcome.value.success ==>
      r.value.error == outcome.value.error && r.value.data == Undefined
    ensures outcome.Threw? && !Nullish(outcome.error) ==>
      r.value.error == Get(outcome.error, "message") && r.value.data == Undefined
  {
    match outcome
    case Returned(result) =>
      if result.success then Returned(OpResult(true, result.data, Undefined))
      else Returned(OpResult(false, Undefined, result.error))
    case Threw(err) =>
      if Nullish(err) then Threw(TypeErrorValue)
      else Returned(OpResult(false, Undefined, Get(err, "message")))
  }

  /** How an operation that reports no data settles. */
  function Ack<T>(outcome: Outcome<ApiResult<T>>): (r: Outcome<OpResult>)
    ensures r.Threw? <==> CatchThrows(outcome)
    ensures r.Threw? ==> r.error == TypeErrorValue
    ensures r.Returned? ==> (r.value.success <==> Succeeded(outcome)) && r.value.data == Undefined
    ensures Succeeded(outcome) ==> r.value.error == Undefined
    ensures outcome.Returned? && !outcome.value.success ==> r.value.error == outcome.value.error
    ensures outcome.Threw? && !Nullish(outcome.error) ==> r.value.error == Get(outcome.error, "message")
  {
    match outcome
    case Returned(result) =>
      if result.success then Returned(OpResult(true, Undefined, Undefined))
      else Returned(OpResult(false, Undefined, result.error))
    case Threw(err) =>
      if Nullish(err) then Threw(TypeErrorValue)
      else Returned(OpResult(false, Undefined, Get(err, "message")))
  }

  /** What the caller is told and what the hook keeps agree: an exception's
      message is both the reported error and the hook's error; a failure
      with a truthy error reports the error the hook keeps; a rejection
      leaves the hook's error cleared. */
  lemma ReplyAgreesWithError(outcome: Outcome<ApiResult<Json>>, default: string)
    ensures outcome.Threw? && !Nullish(outcome.error) ==>
      Reply(outcome).value.error == ErrorAfter(outcome, default) &&
      Ack(outcome).value.error == ErrorAfter(outcome, default)
    ensures outcome.Returned? && !outcome.value.success && Truthy(outcome.value.error) ==>
      Reply(outcome).value.error == ErrorAfter(outcome, default) &&
      Ack(outcome).value.error == ErrorAfter(outcome, default)
    ensures Reply(outcome).Threw? ==> Ack(outcome).Threw? && ErrorAfter(outcome, default) == Null
  {
  }

  function Succeeded<T>(outcome: Outcome<ApiResult<T>>): bool {
    outcome.Returned? && outcome.value.success
  }
}
