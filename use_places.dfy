/** `usePlaces`: the place list, the loading flag, the last error and the
    stored query parameters, with one method per operation. Each operation
    raises `loading`, clears `error`, awaits its request (an outcome passed
    in), applies the result and ends with `loading` false. */
module UsePlaces {
  import opened Js
  import opened Records

  const SearchFailed: string := "검색 중 오류가 발생했습니다."
  const GetFailed: string := "장소 조회 중 오류가 발생했습니다."
  const CreateFailed: string := "장소 생성 중 오류가 발생했습니다."
  const UpdateFailed: string := "장소 수정 중 오류가 발생했습니다."
  const DeleteFailed: string := "장소 삭제 중 오류가 발생했습니다."
  const AddFavoriteFailed: string := "즐겨찾기 추가 중 오류가 발생했습니다."
  const RemoveFavoriteFailed: string := "즐겨찾기 제거 중 오류가 발생했습니다."
  const CategoryFailed: string := "카테고리별 장소 조회 중 오류가 발생했습니다."
  const PopularFailed: string := "인기 장소 조회 중 오류가 발생했습니다."

  /** A request for a list of places, given the merged query parameters. */
  type ListCall = Json -> Outcome<ApiResult<Option<seq<Json>>>>

  class PlacesState {
    var places: seq<Json>
    var loading: bool
    var error: Json
    var params: Json

    constructor (initialParams: Json)
      ensures places == [] && !loading && error == Null && params == initialParams
    {
      places := [];
      loading := false;
      error := Null;
      params := initialParams;
    }

    /** The three list queries: the list is replaced by the result's data,
        or emptied when it has none; a failure keeps the list. The query
        rejects when its catch throws. */
    method Query(callParams: Json, call: ListCall, default: string) returns (r: Outcome<()>)
      modifies this
      ensures var outcome := call(Merge(old(params), callParams));
        && r == Settled(outcome)
        && places == (if Succeeded(outcome) then ListOf(outcome.value.data) else old(places))
        && error == ErrorAfter(outcome, default)
      ensures !loading && params == old(params)
    {
      loading := true;
      error := Null;
      var outcome := call(Merge(params, callParams));
      r := Returned(());
      match outcome {
        case Returned(result) =>
          if result.success {
            places := ListOf(result.data);
          } else {
            error := Or(result.error, Str(default));
          }
        case Threw(err) =>
          if !Nullish(err) {
            error := Get(err, "message");
          } else {
            r := Threw(TypeErrorValue);
          }
      }
      loading := false;
    }

    /** `searchPlaces(query, searchParams)`; `search` is the request for the
        query. */
    method SearchPlaces(searchParams: Json, search: ListCall) returns (r: Outcome<()>)
      modifies this
      ensures var outcome := search(Merge(old(params), searchParams));
        && r == Settled(outcome)
        && places == (if Succeeded(outcome) then ListOf(outcome.value.data) else old(places))
        && error == ErrorAfter(outcome, SearchFailed)
      ensures !loading && params == old(params)
    {
      r := Query(searchParams, search, SearchFailed);
    }

    /** `getPlacesByCategory(category, categoryParams)`. */
    method GetPlacesByCategory(categoryParams: Json, byCategory: ListCall) returns (r: Outcome<()>)
      modifies this
      ensures var outcome := byCategory(Merge(old(params), categoryParams));
        && r == Settled(outcome)
        && places == (if Succeeded(outcome) then ListOf(outcome.value.data) else old(places))
        && error == ErrorAfter(outcome, CategoryFailed)
      ensures !loading && params == old(params)
    {
      r := Query(categoryParams, byCategory, CategoryFailed);
    }

    /** `getPopularPlaces(popularParams)`. */
    method GetPopularPlaces(popularParams: Json, popular: ListCall) returns (r: Outcome<()>)
      modifies this
      ensures var outcome := popular(Merge(old(params), popularParams));
        && r == Settled(outcome)
        && places == (if Succeeded(outcome) then ListOf(outcome.value.data) else old(places))
        && error == ErrorAfter(outcome, PopularFailed)
      ensures !loading && params == old(params)
    {
      r := Query(popularParams, popular, PopularFailed);
    }

    /** `getPlace(id)`: reports the place and leaves the list alone. */
    method GetPlace(outcome: Outcome<ApiResult<Json>>) returns (r: Outcome<OpResult>)
      modifies this
      ensures r == Reply(outcome)
      ensures places == old(places) && error == ErrorAfter(outcome, GetFailed)
      ensures !loading && params == old(params)
    {
      loading := true;
      error := Null;
      match outcome {
        case Returned(result) =>
          if !result.success {
            error := Or(result.error, Str(GetFailed));
          }
        case Threw(err) =>
          if !Nullish(err) {
            error := Get(err, "message");
          }
      }
      r := Reply(outcome);
      loading := false;
    }

    /** `createPlace`: the new place goes in front of the list. */
    method CreatePlace(outcome: Outcome<ApiResult<Json>>) returns (r: Outcome<OpResult>)
      modifies this
      ensures r == Reply(outcome)
      ensures places == if Succeeded(outcome) then [outcome.value.data] + old(places) else old(places)
      ensures error == ErrorAfter(outcome, CreateFailed)
      ensures !loading && params == old(params)
    {
      loading := true;
      error := Null;
      match outcome {
        case Returned(result) =>
          if result.success {
            places := [result.data] + places;
          } else {
            error := Or(result.error, Str(CreateFailed));
          }
        case Threw(err) =>
          if !Nullish(err) {
            error := Get(err, "message");
          }
      }
      r := Reply(outcome);
      loading := false;
    }

    /** `updatePlace(id, _)`: every place with that id takes the returned
        fields. */
    method UpdatePlace(id: string, outcome: Outcome<ApiResult<Json>>) returns (r: Outcome<OpResult>)
      modifies this
      ensures r == Reply(outcome)
      ensures places == if Succeeded(outcome) then UpdateById(old(places), id, outcome.value.data) else old(places)
      ensures error == ErrorAfter(outcome, UpdateFailed)
      ensures !loading && params == old(params)
    {
      loading := true;
      error := Null;
      match outcome {
        case Returned(result) =>
          if result.success {
            places := UpdateById(places, id, result.data);
          } else {
            error := Or(result.error, Str(UpdateFailed));
          }
        case Threw(err) =>
          if !Nullish(err) {
            error := Get(err, "message");
          }
      }
      r := Reply(outcome);
      loading := false;
    }

    /** `deletePlace(id)`: every place with that id leaves the list. */
    method DeletePlace(id: string, outcome: Outcome<ApiResult<Json>>) returns (r: Outcome<OpResult>)
      modifies this
      ensures r == Ack(outcome)
      ensures places == if Succeeded(outcome) then RemoveById(old(places), id) else old(places)
      ensures error == ErrorAfter(outcome, DeleteFailed)
      ensures !loading && params == old(params)
    {
      loading := true;
      error := Null;
      match outcome {
        case Returned(result) =>
          if result.success {
            places := RemoveById(places, id);
          } else {
            error := Or(result.error, Str(DeleteFailed));
          }
        case Threw(err) =>
          if !Nullish(err) {
            error := Get(err, "message");
          }
      }
      r := Ack(outcome);
      loading := false;
    }

    /** `addToFavorites` and `removeFromFavorites`: `isFavorite` is set on
        the places with that id. */
    method SetFavorite(id: string, favorite: bool, outcome: Outcome<ApiResult<Json>>, default: string) returns (r: Outcome<OpResult>)
      modifies this
      ensures r == Ack(outcome)
      ensures places == if Succeeded(outcome) then SetFieldById(old(places), id, "isFavorite", Bool(favorite)) else old(places)
      ensures error == ErrorAfter(outcome, default)
      ensures !loading && params == old(params)
    {
      loading := true;
      error := Null;
      match outcome {
        case Returned(result) =>
          if result.success {
            places := SetFieldById(places, id, "isFavorite", Bool(favorite));
          } else {
            error := Or(result.error, Str(default));
          }
        case Threw(err) =>
          if !Nullish(err) {
            error := Get(err, "message");
          }
      }
      r := Ack(outcome);
      loading := false;
    }

    method AddToFavorites(id: string, outcome: Outcome<ApiResult<Json>>) returns (r: Outcome<OpResult>)
      modifies this
      ensures r == Ack(outcome)
      ensures places == if Succeeded(outcome) then SetFieldById(old(places), id, "isFavorite", Bool(true)) else old(places)
      ensures error == ErrorAfter(outcome, AddFavoriteFailed)
      ensures !loading && params == old(params)
    {
      r := SetFavorite(id, true, outcome, AddFavoriteFailed);
    }

    method RemoveFromFavorites(id: string, outcome: Outcome<ApiResult<Json>>) returns (r: Outcome<OpResult>)
      modifies this
      ensures r == Ack(outcome)
      ensures places == if Succeeded(outcome) then SetFieldById(old(places), id, "isFavorite", Bool(false)) else old(places)
      ensures error == ErrorAfter(outcome, RemoveFavoriteFailed)
      ensures !loading && params == old(params)
    {
      r := SetFavorite(id, false, outcome, RemoveFavoriteFailed);
    }

    /** `setParams`. */
    method SetParams(newParams: Json)
      modifies this
      ensures params == newParams
      ensures places == old(places) && loading == old(loading) && error == old(error)
    {
      params := newParams;
    }
  }
}
