/** The place search inside a group's page: a paged keyword search whose
    results can be added to the group, and the map link shown for each
    result. The search request is a function passed in. */
module GroupSearch {
  import opened Js
  import opened Text
  import opened Records
  import opened KakaoPlaces
  import UriComponent

  /** `pageSize` of the group page's search. */
  const PageSize: int := 20

  const NaverSearchPrefix: string := "https://map.naver.com/v5/search/"

  /** `generateNaverMapUrl(place)`: the encoded name, then `@`, then the
      latitude and longitude separated by a comma. */
  function NaverMapUrl(place: KakaoPlace): (url: string)
    ensures |url| > |NaverSearchPrefix| + |place.x| && url[..|NaverSearchPrefix|] == NaverSearchPrefix
    ensures url[|url| - |place.x|..] == place.x
  {
    NaverSearchPrefix + UriComponent.Encode(place.name) + "@" + place.y + "," + place.x
  }

  /** The link can be read back: after the fixed prefix, the only `@`
      separates the encoded name from the coordinates, whatever the name
      holds. */
  lemma NaverMapUrlParts(place: KakaoPlace)
    requires '@' !in place.x && '@' !in place.y
    ensures var url := NaverMapUrl(place);
      && url[..|NaverSearchPrefix|] == NaverSearchPrefix
      && Split(url[|NaverSearchPrefix|..], "@") == [UriComponent.Encode(place.name), place.y + "," + place.x]
  {
    var name := UriComponent.Encode(place.name);
    var coords := place.y + "," + place.x;
    var tail := name + "@" + coords;
    assert NaverMapUrl(place) == NaverSearchPrefix + tail;
    assert '@' !in coords;
    UriComponent.EncodedHasNo(place.name, '@');
    SplitAroundSoleChar(name, coords, '@');
  }

  class GroupSearchState {
    var searchQuery: string
    var searchResults: seq<KakaoPlace>
    var isSearching: bool
    var currentPage: int
    var totalPages: int

    constructor ()
      ensures searchQuery == "" && searchResults == [] && !isSearching
      ensures currentPage == 1 && totalPages == 1
    {
      searchQuery := "";
      searchResults := [];
      isSearching := false;
      currentPage := 1;
      totalPages := 1;
    }

    /** `handleSearch(query, page)`. A blank query empties the results and
        resets the paging without a request. Otherwise the trimmed query is
        sent for that page; a successful answer gives the results, that page,
        and as many pages as the returned list fills, none for an empty
        list; a failure or an exception empties the results and resets the
        paging. An exception that is `null` or `undefined` makes the catch's
        message read throw before the reset, so results and paging stay as
        they were. The search flag ends lowered. */
    method HandleSearch(query: string, page: int, search: SearchCall)
      modifies this
      ensures searchQuery == old(searchQuery)
      ensures Blank(query) ==>
        searchResults == [] && currentPage == 1 && totalPages == 1 && isSearching == old(isSearching)
      ensures !Blank(query) ==>
        var outcome := search(Trim(query), page, PageSize);
        && !isSearching
        && (Succeeded(outcome) ==>
              var places := PlacesOf(outcome.value.data);
              && searchResults == places && currentPage == page
              && PageSize * (totalPages - 1) < |places| <= PageSize * totalPages)
        && (!Succeeded(outcome) && !CatchThrows(outcome) ==>
              searchResults == [] && currentPage == 1 && totalPages == 1)
        && (CatchThrows(outcome) ==>
              searchResults == old(searchResults) && currentPage == old(currentPage) &&
              totalPages == old(totalPages))
    {
      if Trim(query) == "" {
        searchResults := [];
        currentPage := 1;
        totalPages := 1;
        return;
      }
      isSearching := true;
      var outcome := search(Trim(query), page, PageSize);
      match outcome {
        case Returned(result) =>
          if result.success {
            var places := PlacesOf(result.data);
            searchResults := places;
            currentPage := page;
            totalPages := CeilDiv(|places|, PageSize);
          } else {
            searchResults := [];
            currentPage := 1;
            totalPages := 1;
          }
        case Threw(err) =>
          if !Nullish(err) {
            searchResults := [];
            currentPage := 1;
            totalPages := 1;
          }
      }
      isSearching := false;
    }

    /** `handlePageChange(page)`: only a page between 1 and the page count
        searches the stored query again, leaving the state that search
        leaves; any other page changes nothing. */
    method PageChange(page: int, search: SearchCall)
      modifies this
      ensures searchQuery == old(searchQuery)
      ensures !(1 <= page <= old(totalPages)) ==>
        searchResults == old(searchResults) && currentPage == old(currentPage) &&
        totalPages == old(totalPages) && isSearching == old(isSearching)
      ensures 1 <= page <= old(totalPages) && Blank(old(searchQuery)) ==>
        searchResults == [] && currentPage == 1 && totalPages == 1 && isSearching == old(isSearching)
      ensures 1 <= page <= old(totalPages) && !Blank(old(searchQuery)) ==>
        var outcome := search(Trim(old(searchQuery)), page, PageSize);
        && !isSearching
        && (Succeeded(outcome) ==>
              var places := PlacesOf(outcome.value.data);
              && searchResults == places && currentPage == page
              && PageSize * (totalPages - 1) < |places| <= PageSize * totalPages)
        && (!Succeeded(outcome) && !CatchThrows(outcome) ==>
              searchResults == [] && currentPage == 1 && totalPages == 1)
        && (CatchThrows(outcome) ==>
              searchResults == old(searchResults) && currentPage == old(currentPage) &&
              totalPages == old(totalPages))
    {
      if page >= 1 && page <= totalPages {
        HandleSearch(searchQuery, page, search);
      }
    }

    /** `handleAddPlaceToGroup(placeId)`: the place leaves the results. */
    method AddPlaceToGroup(placeId: string)
      modifies this
      ensures searchResults == WithoutPlace(old(searchResults), placeId)
      ensures currentPage == old(currentPage) && totalPages == old(totalPages)
      ensures isSearching == old(isSearching) && searchQuery == old(searchQuery)
    {
      searchResults := WithoutPlace(searchResults, placeId);
    }

    /** `handleSearchInputChange`. */
    method QueryChange(query: string)
      modifies this
      ensures searchQuery == query
      ensures searchResults == old(searchResults) && currentPage == old(currentPage)
      ensures totalPages == old(totalPages) && isSearching == old(isSearching)
    {
      searchQuery := query;
    }
  }

  /** The page count comes from the list one page returned, so a search
      can never reach a second page: a full page of results still gives a
      single page, and an empty one gives none. */
  lemma PageCountFromOnePage(places: seq<KakaoPlace>)
    requires |places| <= PageSize
    ensures CeilDiv(|places|, PageSize) == if places == [] then 0 else 1
  {
  }
}
