/** The keyword-search results both search panels show: places found by
    the map service, with the service's page metadata. */
module KakaoPlaces {
  import opened Js
  import opened Lists
  import Records

  /** A found place; its coordinates are the service's decimal strings. */
  datatype KakaoPlace = KakaoPlace(id: string, name: string, x: string, y: string)

  datatype KakaoMeta = KakaoMeta(totalCount: int)

  /** `result.data`: `places` and `meta` may each be missing. */
  datatype KakaoResult = KakaoResult(places: Option<seq<KakaoPlace>>, meta: Option<KakaoMeta>)

  /** `placeAPI.searchPlacesByKeyword({ query, page, size })`. */
  type SearchCall = (string, int, int) -> Outcome<Records.ApiResult<Option<KakaoResult>>>

  /** `result.data?.places || []`. */
  function PlacesOf(data: Option<KakaoResult>): (places: seq<KakaoPlace>)
    ensures data.Some? && data.value.places.Some? ==> places == data.value.places.value
    ensures !(data.Some? && data.value.places.Some?) ==> places == []
  {
    if data.Some? && data.value.places.Some? then data.value.places.value else []
  }

  /** `list.filter(place => place.id !== placeId)`. */
  function WithoutPlace(places: seq<KakaoPlace>, placeId: string): (r: seq<KakaoPlace>)
    ensures |r| <= |places|
    ensures forall i :: 0 <= i < |r| ==> r[i].id != placeId && r[i] in places
    ensures forall i :: 0 <= i < |places| && places[i].id != placeId ==> places[i] in r
  {
    Filter(places, (p: KakaoPlace) => p.id != placeId)
  }

  /** Removal keeps the other places in order. */
  lemma WithoutPlaceKeepsOrder(a: seq<KakaoPlace>, b: seq<KakaoPlace>, placeId: string)
    ensures WithoutPlace(a + b, placeId) == WithoutPlace(a, placeId) + WithoutPlace(b, placeId)
  {
    FilterAppend(a, b, (p: KakaoPlace) => p.id != placeId);
  }
}
