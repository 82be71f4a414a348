/** The sidebar: which panel it shows, the keyword search it runs and the
    paging of its results. The search request is a function passed in; the
    listener for results, when there is one, is told every list the sidebar
    shows after a search. */
module Sidebar {
  import opened Js
  import opened Text
  import opened Records
  import opened KakaoPlaces

  /** `pageSize` of the sidebar's search. */
  const PageSize: int := 15

  datatype Panel = CreateForm | GroupDetail | SearchResults | GroupList

  /** The panel shown: the create form over the group detail over the
      search results over the group list. */
  function PanelOf(showCreateForm: bool, showGroupDetail: bool, showSearchResults: bool): (p: Panel)
    ensures p == CreateForm <==> showCreateForm
    ensures p == GroupDetail <==> !showCreateForm && showGroupDetail
    ensures p == SearchResults <==> !showCreateForm && !showGroupDetail && showSearchResults
    ensures p == GroupList <==> !showCreateForm && !showGroupDetail && !showSearchResults
  {
    if showCreateForm then CreateForm
    else if showGroupDetail then GroupDetail
    else if showSearchResults then SearchResults
    else GroupList
  }

  /** `meta?.totalCount ? Math.ceil(meta.totalCount / pageSize) : 1`. */
  function TotalPages(meta: Option<KakaoMeta>): (n: int)
    ensures meta.None? || meta.value.totalCount == 0 ==> n == 1
    ensures meta.Some? && meta.value.totalCount != 0 ==>
      PageSize * (n - 1) < meta.value.totalCount <= PageSize * n
  {
    if meta.Some? && meta.value.totalCount != 0 then CeilDiv(meta.value.totalCount, PageSize) else 1
  }

  /** With a positive count the pages hold every result and no page is
      empty: there is at least one page, and the last begins within the
      count. */
  lemma TotalPagesCoverCount(meta: KakaoMeta)
    requires meta.totalCount > 0
    ensures var n := TotalPages(Some(meta));
      n >= 1 && PageSize * (n - 1) < meta.totalCount && meta.totalCount <= PageSize * n
  {
  }

  class SidebarState {
    var showCreateForm: bool
    var showSearchResults: bool
    var showGroupDetail: bool
    var selectedGroup: Option<Json>
    var currentPage: int
    var searchResults: seq<KakaoPlace>
    var meta: Option<KakaoMeta>
    var searchQuery: string
    /** The lists handed to the results listener, oldest first. */
    var reported: seq<seq<KakaoPlace>>
    /** Whether a results listener was given. */
    const listening: bool

    constructor (listening: bool)
      ensures !showCreateForm && !showSearchResults && !showGroupDetail && selectedGroup == None
      ensures currentPage == 1 && searchResults == [] && meta == None && searchQuery == ""
      ensures reported == [] && this.listening == listening
    {
      showCreateForm := false;
      showSearchResults := false;
      showGroupDetail := false;
      selectedGroup := None;
      currentPage := 1;
      searchResults := [];
      meta := None;
      searchQuery := "";
      reported := [];
      this.listening := listening;
    }

    function Shown(): Panel
      reads this
    {
      PanelOf(showCreateForm, showGroupDetail, showSearchResults)
    }

    method Report(places: seq<KakaoPlace>)
      modifies this
      ensures reported == if listening then old(reported) + [places] else old(reported)
      ensures showCreateForm == old(showCreateForm) && showSearchResults == old(showSearchResults)
      ensures showGroupDetail == old(showGroupDetail) && selectedGroup == old(selectedGroup)
      ensures currentPage == old(currentPage) && searchResults == old(searchResults)
      ensures meta == old(meta) && searchQuery == old(searchQuery)
    {
      if listening {
        reported := reported + [places];
      }
    }

    /** `handleSearch(query, page)`. A blank query is stored as typed, empties
        the results and goes back to page 1 without a request. Otherwise the
        results panel opens and the trimmed query is sent for that page; data
        in the answer becomes the results, their metadata and the current
        page; no data or an exception empties the results and goes back to
        page 1. Either way the listener hears the list now shown. */
    method HandleSearch(query: string, page: int, search: SearchCall)
      modifies this
      ensures searchQuery == query
      ensures showCreateForm == old(showCreateForm) && showGroupDetail == old(showGroupDetail)
      ensures selectedGroup == old(selectedGroup)
      ensures Blank(query) ==>
        && searchResults == [] && currentPage == 1
        && showSearchResults == old(showSearchResults) && meta == old(meta) && reported == old(reported)
      ensures !Blank(query) ==>
        var outcome := search(Trim(query), page, PageSize);
        var found := outcome.Returned? && outcome.value.data.Some?;
        && showSearchResults
        && searchResults == (if found then PlacesOf(outcome.value.data) else [])
        && currentPage == (if found then page else 1)
        && meta == (if found then outcome.value.data.value.meta else old(meta))
        && reported == (if listening then old(reported) + [searchResults] else old(reported))
    {
      searchQuery := query;
      if Trim(query) == "" {
        searchResults := [];
        currentPage := 1;
        return;
      }
      showSearchResults := true;
      var outcome := search(Trim(query), page, PageSize);
      match outcome {
        case Returned(result) =>
          if result.data.Some? {
            var places := PlacesOf(result.data);
            searchResults := places;
            meta := result.data.value.meta;
            currentPage := page;
            Report(places);
          } else {
            searchResults := [];
            currentPage := 1;
            Report([]);
          }
        case Threw(_) =>
          searchResults := [];
          currentPage := 1;
          Report([]);
      }
    }

    /** `handleClearSearch`. */
    method ClearSearch()
      modifies this
      ensures searchQuery == "" && searchResults == [] && !showSearchResults && currentPage == 1
      ensures reported == if listening then old(reported) + [[]] else old(reported)
      ensures showCreateForm == old(showCreateForm) && showGroupDetail == old(showGroupDetail)
      ensures selectedGroup == old(selectedGroup) && meta == old(meta)
    {
      searchQuery := "";
      searchResults := [];
      showSearchResults := false;
      currentPage := 1;
      Report([]);
    }

    /** `handlePageChange(page)`: the page is set, then the stored query is
        searched again for it, so the state is the one that search leaves:
        the page set first only survives when data comes back. */
    method PageChange(page: int, search: SearchCall)
      modifies this
      ensures searchQuery == old(searchQuery)
      ensures showCreateForm == old(showCreateForm) && showGroupDetail == old(showGroupDetail)
      ensures selectedGroup == old(selectedGroup)
      ensures Blank(old(searchQuery)) ==>
        && searchResults == [] && currentPage == 1
        && showSearchResults == old(showSearchResults) && meta == old(meta) && reported == old(reported)
      ensures !Blank(old(searchQuery)) ==>
        var outcome := search(Trim(old(searchQuery)), page, PageSize);
        var found := outcome.Returned? && outcome.value.data.Some?;
        && showSearchResults
        && searchResults == (if found then PlacesOf(outcome.value.data) else [])
        && currentPage == (if found then page else 1)
        && meta == (if found then outcome.value.data.value.meta else old(meta))
        && reported == (if listening then old(reported) + [searchResults] else old(reported))
    {
      currentPage := page;
      HandleSearch(searchQuery, page, search);
    }

    /** `handleSearchQueryChange`. */
    method QueryChange(query: string)
      modifies this
      ensures searchQuery == query
      ensures searchResults == old(searchResults) && currentPage == old(currentPage)
      ensures showSearchResults == old(showSearchResults) && reported == old(reported)
      ensures meta == old(meta) && showCreateForm == old(showCreateForm)
      ensures showGroupDetail == old(showGroupDetail) && selectedGroup == old(selectedGroup)
    {
      searchQuery := query;
    }

    /** `handlePlaceGroupClick`: the group's detail takes over the panel
        unless the create form is open. */
    method OpenGroup(group: Json)
      modifies this
      ensures selectedGroup == Some(group) && showGroupDetail
      ensures showCreateForm == old(showCreateForm) && showSearchResults == old(showSearchResults)
      ensures currentPage == old(currentPage) && searchResults == old(searchResults)
      ensures meta == old(meta) && searchQuery == old(searchQuery) && reported == old(reported)
      ensures !showCreateForm ==> Shown() == GroupDetail
    {
      selectedGroup := Some(group);
      showGroupDetail := true;
    }

    /** `handleBackFromPlaceGroupDetail`. */
    method BackFromGroup()
      modifies this
      ensures selectedGroup == None && !showGroupDetail
      ensures showCreateForm == old(showCreateForm) && showSearchResults == old(showSearchResults)
      ensures currentPage == old(currentPage) && searchResults == old(searchResults)
      ensures meta == old(meta) && searchQuery == old(searchQuery) && reported == old(reported)
      ensures Shown() != GroupDetail
    {
      showGroupDetail := false;
      selectedGroup := None;
    }

    /** The create section's button. */
    method OpenCreateForm()
      modifies this
      ensures showCreateForm && Shown() == CreateForm
      ensures showGroupDetail == old(showGroupDetail) && showSearchResults == old(showSearchResults)
      ensures selectedGroup == old(selectedGroup)
      ensures currentPage == old(currentPage) && searchResults == old(searchResults)
      ensures meta == old(meta) && searchQuery == old(searchQuery) && reported == old(reported)
    {
      showCreateForm := true;
    }

    /** `handleBackToList`. */
    method BackToList()
      modifies this
      ensures !showCreateForm && Shown() != CreateForm
      ensures showGroupDetail == old(showGroupDetail) && showSearchResults == old(showSearchResults)
      ensures selectedGroup == old(selectedGroup)
      ensures currentPage == old(currentPage) && searchResults == old(searchResults)
      ensures meta == old(meta) && searchQuery == old(searchQuery) && reported == old(reported)
    {
      showCreateForm := false;
    }
  }
}
