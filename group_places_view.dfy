/** The detail view of one place group: the places it holds, the category
    tabs built from them, the places the selected tab shows, and the state
    of the place-detail panel. The load request's outcome is passed in. */
module GroupPlacesView {
  import opened Js
  import opened Lists
  import StringOrder

  /** The tab that shows every place. */
  const AllCategories: string := "전체"

  datatype Place = Place(id: string, placeName: string, categoryName: string)

  function CategoryNames(places: seq<Place>): (names: seq<string>)
    ensures |names| == |places|
    ensures forall i :: 0 <= i < |places| ==> names[i] == places[i].categoryName
  {
    seq(|places|, i requires 0 <= i < |places| => places[i].categoryName)
  }

  /** `filter((c, i, self) => self.indexOf(c) === i && c)`: each non-empty
      name once, at its first occurrence. */
  function Unique(s: seq<string>): (r: seq<string>)
    ensures StringOrder.Distinct(r)
    ensures forall c :: c in r <==> c in s && c != ""
  {
    if s == [] then []
    else
      var init := s[..|s| - 1];
      var last := s[|s| - 1];
      assert s == init + [last];
      var u := Unique(init);
      if last != "" && last !in init then u + [last] else u
  }

  /** `getCategories`: the "all" tab, then the categories in sorted order. */
  function Categories(places: seq<Place>): (r: seq<string>)
    ensures |r| >= 1 && r[0] == AllCategories
  {
    [AllCategories] + StringOrder.Sort(Unique(CategoryNames(places)))
  }

  /** After the "all" tab come the distinct non-empty category names of the
      group's places, each once, in strictly increasing order; none is left
      out and none is made up. */
  lemma CategoriesListed(places: seq<Place>)
    ensures var r := Categories(places);
      && (forall i :: 1 <= i < |r| - 1 ==> StringOrder.LessEq(r[i], r[i + 1]) && r[i] != r[i + 1])
      && (forall c :: c in r[1..] <==> c != "" && exists i :: 0 <= i < |places| && places[i].categoryName == c)
  {
    var names := CategoryNames(places);
    var tabs := StringOrder.Sort(Unique(names));
    StringOrder.SortSorted(Unique(names));
    assert Categories(places)[1..] == tabs;
    forall c ensures c in names <==> exists i :: 0 <= i < |places| && places[i].categoryName == c {
      if c in names {
        var i :| 0 <= i < |names| && names[i] == c;
        assert places[i].categoryName == c;
      }
    }
  }

  /** `getFilteredPlaces`: the places of the selected category. */
  function FilteredPlaces(places: seq<Place>, selected: string): (r: seq<Place>)
    ensures selected == AllCategories ==> r == places
    ensures selected != AllCategories ==>
      (forall i :: 0 <= i < |r| ==> r[i].categoryName == selected) &&
      (forall i :: 0 <= i < |places| && places[i].categoryName == selected ==> places[i] in r)
  {
    if selected == AllCategories then places
    else Filter(places, (p: Place) => p.categoryName == selected)
  }

  /** The places a category shows keep their relative order: the filter of
      two lists run together is the two filters run together. */
  lemma FilterKeepsOrder(a: seq<Place>, b: seq<Place>, selected: string)
    ensures FilteredPlaces(a + b, selected) == FilteredPlaces(a, selected) + FilteredPlaces(b, selected)
  {
    if selected != AllCategories {
      FilterAppend(a, b, (p: Place) => p.categoryName == selected);
    }
  }

  /** No tab is empty: every listed category shows at least one place. */
  lemma EveryTabShowsSomething(places: seq<Place>, c: string)
    requires c in Categories(places)[1..]
    ensures FilteredPlaces(places, c) != []
  {
    CategoriesListed(places);
    var i :| 0 <= i < |places| && places[i].categoryName == c;
    assert places[i] in FilteredPlaces(places, c);
  }

  /** The view's state. */
  class GroupPlacesView {
    var groupPlaces: seq<Place>
    var loading: bool
    var selectedCategory: string
    var focusedIndex: int
    var selectedPlace: Option<Place>
    var showDetail: bool

    constructor ()
      ensures groupPlaces == [] && !loading && selectedCategory == AllCategories
      ensures focusedIndex == -1 && selectedPlace == None && !showDetail
    {
      groupPlaces := [];
      loading := false;
      selectedCategory := AllCategories;
      focusedIndex := -1;
      selectedPlace := None;
      showDetail := false;
    }

    function Tabs(): seq<string>
      reads this
    {
      Categories(groupPlaces)
    }

    function Shown(): seq<Place>
      reads this
    {
      FilteredPlaces(groupPlaces, selectedCategory)
    }

    /** `handleCategoryFilter`. */
    method SelectCategory(category: string)
      modifies this
      ensures selectedCategory == category
      ensures groupPlaces == old(groupPlaces) && loading == old(loading)
      ensures focusedIndex == old(focusedIndex) && selectedPlace == old(selectedPlace) && showDetail == old(showDetail)
    {
      selectedCategory := category;
    }

    /** `handlePlaceItemClick`: focus the item and open its detail. */
    method ClickPlace(place: Place, index: int)
      modifies this
      ensures focusedIndex == index && selectedPlace == Some(place) && showDetail
      ensures groupPlaces == old(groupPlaces) && loading == old(loading) && selectedCategory == old(selectedCategory)
    {
      focusedIndex := index;
      selectedPlace := Some(place);
      showDetail := true;
    }

    /** `handleClosePlaceDetail`: the panel closes but the focus stays. */
    method CloseDetail()
      modifies this
      ensures !showDetail && selectedPlace == None
      ensures focusedIndex == old(focusedIndex)
      ensures groupPlaces == old(groupPlaces) && loading == old(loading) && selectedCategory == old(selectedCategory)
    {
      showDetail := false;
      selectedPlace := None;
    }

    /** `handleBack`: the focus is reset as well. */
    method Back()
      modifies this
      ensures focusedIndex == -1 && !showDetail && selectedPlace == None
      ensures groupPlaces == old(groupPlaces) && loading == old(loading) && selectedCategory == old(selectedCategory)
    {
      focusedIndex := -1;
      showDetail := false;
      selectedPlace := None;
    }

    /** `loadGroupPlaces`: `result` is the awaited request, whose `data`
        holds the places when present. Anything else empties the list. */
    method LoadGroupPlaces(result: Outcome<Option<seq<Place>>>)
      modifies this
      ensures groupPlaces == if result.Returned? && result.value.Some? then result.value.value else []
      ensures !loading
      ensures selectedCategory == old(selectedCategory) && focusedIndex == old(focusedIndex)
      ensures selectedPlace == old(selectedPlace) && showDetail == old(showDetail)
    {
      loading := true;
      match result {
        case Returned(data) =>
          if data.Some? {
            groupPlaces := data.value;
          } else {
            groupPlaces := [];
          }
        case Threw(_) =>
          groupPlaces := [];
      }
      loading := false;
    }
  }
}
