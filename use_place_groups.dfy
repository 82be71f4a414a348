/** `usePlaceGroups`: the group list, the loading flag, the last error and
    the stored query parameters. Creating, updating and duplicating a group
    refetch the list; deleting and leaving remove the group locally; sharing
    leaves the list alone. Request outcomes are passed in. */
module UsePlaceGroups {
  import opened Js
  import opened Records

  const FetchFailed: string := "PlaceGroup 목록 조회 중 오류가 발생했습니다."
  const CreateFailed: string := "PlaceGroup 생성 중 오류가 발생했습니다."
  const UpdateFailed: string := "PlaceGroup 수정 중 오류가 발생했습니다."
  const DeleteFailed: string := "PlaceGroup 삭제 중 오류가 발생했습니다."
  const DuplicateFailed: string := "PlaceGroup 복제 중 오류가 발생했습니다."
  const ShareFailed: string := "PlaceGroup 공유 중 오류가 발생했습니다."
  const LeaveFailed: string := "PlaceGroup 탈퇴 중 오류가 발생했습니다."

  /** The list request, given the merged query parameters. */
  type FetchCall = Json -> Outcome<ApiResult<Option<seq<Json>>>>

  /** `{}`: what `fetchPlaceGroups()` merges when called without
      parameters. */
  const NoParams: Json := Obj(map[])

  /** The list a fetch leaves. */
  function AfterFetch(groups: seq<Json>, outcome: Outcome<ApiResult<Option<seq<Json>>>>): seq<Json> {
    if Succeeded(outcome) then ListOf(outcome.value.data) else groups
  }

  class PlaceGroupsState {
    var placeGroups: seq<Json>
    var loading: bool
    var error: Json
    var params: Json

    constructor (initialParams: Json)
      ensures placeGroups == [] && !loading && error == Null && params == initialParams
    {
      placeGroups := [];
      loading := false;
      error := Null;
      params := initialParams;
    }

    /** `fetchPlaceGroups(newParams)`, also run once on mount. It rejects
        when its catch throws. */
    method FetchPlaceGroups(newParams: Json, fetch: FetchCall) returns (r: Outcome<()>)
      modifies this
      ensures var outcome := fetch(Merge(old(params), newParams));
        && r == Settled(outcome)
        && placeGroups == AfterFetch(old(placeGroups), outcome)
        && error == ErrorAfter(outcome, FetchFailed)
      ensures !loading && params == old(params)
    {
      loading := true;
      error := Null;
      var outcome := fetch(Merge(params, newParams));
      r := Returned(());
      match outcome {
        case Returned(result) =>
          if result.success {
            placeGroups := ListOf(result.data);
          } else {
            error := Or(result.error, Str(FetchFailed));
          }
        case Threw(err) =>
          if !Nullish(err) {
            error := Get(err, "message");
          } else {
            r := Threw(TypeErrorValue);
          }
      }
      loading := false;
    }

    /** Create, update and duplicate: on success the list is fetched again
        with the stored parameters and the fetch decides list and error. A
        refetch that rejects is caught by the operation as a TypeError: the
        operation then reports and keeps that error's message. */
    method ChangeAndRefetch(outcome: Outcome<ApiResult<Json>>, fetch: FetchCall, default: string) returns (r: Outcome<OpResult>)
      modifies this
      ensures Succeeded(outcome) ==>
        var refetched := fetch(Merge(old(params), NoParams));
        && (!CatchThrows(refetched) ==>
              r == Reply(outcome) &&
              placeGroups == AfterFetch(old(placeGroups), refetched) && error == ErrorAfter(refetched, FetchFailed))
        && (CatchThrows(refetched) ==>
              r == Returned(OpResult(false, Undefined, Str(TypeErrorMessage))) &&
              placeGroups == old(placeGroups) && error == Str(TypeErrorMessage))
      ensures !Succeeded(outcome) ==>
        r == Reply(outcome) && placeGroups == old(placeGroups) && error == ErrorAfter(outcome, default)
      ensures !loading && params == old(params)
    {
      loading := true;
      error := Null;
      r := Reply(outcome);
      match outcome {
        case Returned(result) =>
          if result.success {
            var settled := FetchPlaceGroups(NoParams, fetch);
            if settled.Threw? {
              error := Get(settled.error, "message");
              r := Returned(OpResult(false, Undefined, error));
            }
          } else {
            error := Or(result.error, Str(default));
          }
        case Threw(err) =>
          if !Nullish(err) {
            error := Get(err, "message");
          }
      }
      loading := false;
    }

    method CreatePlaceGroup(outcome: Outcome<ApiResult<Json>>, fetch: FetchCall) returns (r: Outcome<OpResult>)
      modifies this
      ensures Succeeded(outcome) ==>
        var refetched := fetch(Merge(old(params), NoParams));
        && (!CatchThrows(refetched) ==>
              r == Reply(outcome) &&
              placeGroups == AfterFetch(old(placeGroups), refetched) && error == ErrorAfter(refetched, FetchFailed))
        && (CatchThrows(refetched) ==>
              r == Returned(OpResult(false, Undefined, Str(TypeErrorMessage))) &&
              placeGroups == old(placeGroups) && error == Str(TypeErrorMessage))
      ensures !Succeeded(outcome) ==>
        r == Reply(outcome) && placeGroups == old(placeGroups) && error == ErrorAfter(outcome, CreateFailed)
      ensures !loading && params == old(params)
    {
      r := ChangeAndRefetch(outcome, fetch, CreateFailed);
    }

    method UpdatePlaceGroup(outcome: Outcome<ApiResult<Json>>, fetch: FetchCall) returns (r: Outcome<OpResult>)
      modifies this
      ensures Succeeded(outcome) ==>
        var refetched := fetch(Merge(old(params), NoParams));
        && (!CatchThrows(refetched) ==>
              r == Reply(outcome) &&
              placeGroups == AfterFetch(old(placeGroups), refetched) && error == ErrorAfter(refetched, FetchFailed))
        && (CatchThrows(refetched) ==>
              r == Returned(OpResult(false, Undefined, Str(TypeErrorMessage))) &&
              placeGroups == old(placeGroups) && error == Str(TypeErrorMessage))
      ensures !Succeeded(outcome) ==>
        r == Reply(outcome) && placeGroups == old(placeGroups) && error == ErrorAfter(outcome, UpdateFailed)
      ensures !loading && params == old(params)
    {
      r := ChangeAndRefetch(outcome, fetch, UpdateFailed);
    }

    method DuplicatePlaceGroup(outcome: Outcome<ApiResult<Json>>, fetch: FetchCall) returns (r: Outcome<OpResult>)
      modifies this
      ensures Succeeded(outcome) ==>
        var refetched := fetch(Merge(old(params), NoParams));
        && (!CatchThrows(refetched) ==>
              r == Reply(outcome) &&
              placeGroups == AfterFetch(old(placeGroups), refetched) && error == ErrorAfter(refetched, FetchFailed))
        && (CatchThrows(refetched) ==>
              r == Returned(OpResult(false, Undefined, Str(TypeErrorMessage))) &&
              placeGroups == old(placeGroups) && error == Str(TypeErrorMessage))
      ensures !Succeeded(outcome) ==>
        r == Reply(outcome) && placeGroups == old(placeGroups) && error == ErrorAfter(outcome, DuplicateFailed)
      ensures !loading && params == old(params)
    {
      r := ChangeAndRefetch(outcome, fetch, DuplicateFailed);
    }

    /** Delete and leave: every group with that id leaves the list. */
    method RemoveGroup(id: string, outcome: Outcome<ApiResult<Json>>, default: string) returns (r: Outcome<OpResult>)
      modifies this
      ensures r == Ack(outcome)
      ensures placeGroups == if Succeeded(outcome) then RemoveById(old(placeGroups), id) else old(placeGroups)
      ensures error == ErrorAfter(outcome, default)
      ensures !loading && params == old(params)
    {
      loading := true;
      error := Null;
      match outcome {
        case Returned(result) =>
          if result.success {
            placeGroups := RemoveById(placeGroups, id);
          } else {
            error := Or(result.error, Str(default));
          }
        case Threw(err) =>
          if !Nullish(err) {
            error := Get(err, "message");
          }
      }
      r := Ack(outcome);
      loading := false;
    }

    method DeletePlaceGroup(id: string, outcome: Outcome<ApiResult<Json>>) returns (r: Outcome<OpResult>)
      modifies this
      ensures r == Ack(outcome)
      ensures placeGroups == if Succeeded(outcome) then RemoveById(old(placeGroups), id) else old(placeGroups)
      ensures error == ErrorAfter(outcome, DeleteFailed)
      ensures !loading && params == old(params)
    {
      r := RemoveGroup(id, outcome, DeleteFailed);
    }

    method LeavePlaceGroup(id: string, outcome: Outcome<ApiResult<Json>>) returns (r: Outcome<OpResult>)
      modifies this
      ensures r == Ack(outcome)
      ensures placeGroups == if Succeeded(outcome) then RemoveById(old(placeGroups), id) else old(placeGroups)
      ensures error == ErrorAfter(outcome, LeaveFailed)
      ensures !loading && params == old(params)
    {
      r := RemoveGroup(id, outcome, LeaveFailed);
    }

    /** `sharePlaceGroup`: reports the outcome; the list never changes. */
    method SharePlaceGroup(outcome: Outcome<ApiResult<Json>>) returns (r: Outcome<OpResult>)
      modifies this
      ensures r == Reply(outcome)
      ensures placeGroups == old(placeGroups) && error == ErrorAfter(outcome, ShareFailed)
      ensures !loading && params == old(params)
    {
      loading := true;
      error := Null;
      match outcome {
        case Returned(result) =>
          if !result.success {
            error := Or(result.error, Str(ShareFailed));
          }
        case Threw(err) =>
          if !Nullish(err) {
            error := Get(err, "message");
          }
      }
      r := Reply(outcome);
      loading := false;
    }

    /** `setParams`. */
    method SetParams(newParams: Json)
      modifies this
      ensures params == newParams
      ensures placeGroups == old(placeGroups) && loading == old(loading) && error == old(error)
    {
      params := newParams;
    }
  }
}
