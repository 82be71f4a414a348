/** The page-number strip under a result list: pages are grouped in blocks
    of ten, the block holding the current page is shown (moved back when the
    current page sits in its upper half), and the first and last pages are
    always reachable, with `...` standing for the pages left out. */
module Pagination {
  import opened Js

  const ShowPageSize: int := 10

  /** One block of consecutive page numbers, both ends included. */
  datatype PageGroup = PageGroup(startPage: int, endPage: int)

  /** One entry of the strip: a page button or an ellipsis. */
  datatype PageItem = Page(n: int) | Ellipsis

  /** Which of the four navigation buttons are disabled. */
  datatype NavButtons = NavButtons(first: bool, prev: bool, next: bool, last: bool)

  /** What the component renders when it renders anything. */
  datatype PaginationView = PaginationView(buttons: NavButtons, pages: seq<PageItem>)

  function Min(a: int, b: int): int { if a <= b then a else b }
  function Max(a: int, b: int): int { if a >= b then a else b }

  /** The `i`-th block for `totalPages` pages. */
  function Block(i: int, totalPages: int): PageGroup {
    PageGroup(i * ShowPageSize + 1, Min((i + 1) * ShowPageSize, totalPages))
  }

  predicate Contains(g: PageGroup, page: int) {
    g.startPage <= page <= g.endPage
  }

  /** The number of blocks: `Math.ceil(totalPages / 10)`, and none at all
      when that is not positive. */
  function BlockCount(totalPages: int): (n: nat)
    ensures totalPages <= 0 ==> n == 0
    ensures totalPages > 0 ==> (n - 1) * ShowPageSize < totalPages <= n * ShowPageSize
  {
    Max(0, CeilDiv(totalPages, ShowPageSize))
  }

  /** `getPageGroups`: one block per started ten pages. */
  method GetPageGroups(totalPages: int) returns (groups: seq<PageGroup>)
    ensures |groups| == BlockCount(totalPages)
    ensures forall i :: 0 <= i < |groups| ==> groups[i] == Block(i, totalPages)
  {
    var totalGroups := CeilDiv(totalPages, ShowPageSize);
    groups := [];
    var i := 0;
    while i < totalGroups
      invariant 0 <= i <= BlockCount(totalPages)
      invariant |groups| == i
      invariant forall k :: 0 <= k < i ==> groups[k] == Block(k, totalPages)
    {
      var startPage := i * ShowPageSize + 1;
      var endPage := Min((i + 1) * ShowPageSize, totalPages);
      groups := groups + [PageGroup(startPage, endPage)];
      i := i + 1;
    }
  }

  /** The blocks partition `1..totalPages` in order: the first starts at 1,
      the last ends at `totalPages`, each holds between one and ten pages
      and each starts right after the previous one ends. */
  lemma BlocksPartition(totalPages: int)
    requires totalPages >= 1
    ensures BlockCount(totalPages) >= 1
    ensures Block(0, totalPages).startPage == 1
    ensures Block(BlockCount(totalPages) - 1, totalPages).endPage == totalPages
    ensures forall i :: 0 <= i < BlockCount(totalPages) ==>
      Block(i, totalPages).startPage <= Block(i, totalPages).endPage < Block(i, totalPages).startPage + ShowPageSize
    ensures forall i :: 0 <= i < BlockCount(totalPages) - 1 ==>
      Block(i + 1, totalPages).startPage == Block(i, totalPages).endPage + 1
  {
    var n := BlockCount(totalPages);
    forall i | 0 <= i < n
      ensures Block(i, totalPages).startPage <= Block(i, totalPages).endPage
    {
      assert i * ShowPageSize <= (n - 1) * ShowPageSize;
    }
    forall i | 0 <= i < n - 1
      ensures Block(i, totalPages).endPage == (i + 1) * ShowPageSize
    {
      assert (i + 1) * ShowPageSize <= (n - 1) * ShowPageSize;
    }
  }

  /** Page `p` of `1..totalPages` lies in block `(p - 1) / 10` and in no
      other block. */
  lemma PageInOneBlock(p: int, totalPages: int)
    requires 1 <= p <= totalPages
    ensures (p - 1) / ShowPageSize < BlockCount(totalPages)
    ensures Contains(Block((p - 1) / ShowPageSize, totalPages), p)
    ensures forall i :: 0 <= i < BlockCount(totalPages) && i != (p - 1) / ShowPageSize ==>
      !Contains(Block(i, totalPages), p)
  {
    var n := BlockCount(totalPages);
    var b := (p - 1) / ShowPageSize;
    assert b * ShowPageSize <= p - 1 < (b + 1) * ShowPageSize;
    forall i | 0 <= i < n && i != b
      ensures !Contains(Block(i, totalPages), p)
    {
      if i < b {
        assert (i + 1) * ShowPageSize <= b * ShowPageSize;
      } else {
        assert (b + 1) * ShowPageSize <= i * ShowPageSize;
      }
    }
  }

  /** Every page of every block lies in `1..totalPages`. */
  lemma BlocksWithinRange(totalPages: int, i: int, p: int)
    requires 0 <= i && Contains(Block(i, totalPages), p)
    ensures 1 <= p <= totalPages
  {
  }

  /** `groups.find(g => g contains page)`: the index of the first block
      holding `page`, if any. */
  function FindGroup(groups: seq<PageGroup>, page: int): (r: Option<nat>)
    ensures r.Some? ==> r.value < |groups| && Contains(groups[r.value], page)
    ensures r.Some? ==> forall j :: 0 <= j < r.value ==> !Contains(groups[j], page)
    ensures r.None? ==> forall j :: 0 <= j < |groups| ==> !Contains(groups[j], page)
  {
    if groups == [] then None
    else if Contains(groups[0], page) then Some(0)
    else
      match FindGroup(groups[1..], page)
      case None => None
      case Some(i) => Some(i + 1)
  }

  /** `getCurrentGroup`: the block holding the current page; block 0 when
      no block holds it; nothing when there are no blocks. */
  method GetCurrentGroup(currentPage: int, totalPages: int) returns (group: Option<PageGroup>)
    ensures group.None? <==> totalPages <= 0
    ensures 1 <= currentPage <= totalPages ==>
      group == Some(Block((currentPage - 1) / ShowPageSize, totalPages))
    ensures totalPages >= 1 && !(1 <= currentPage <= totalPages) ==>
      group == Some(Block(0, totalPages))
  {
    var groups := GetPageGroups(totalPages);
    var found := FindGroup(groups, currentPage);
    if found.Some? {
      group := Some(groups[found.value]);
    } else if |groups| > 0 {
      group := Some(groups[0]);
    } else {
      group := None;
    }
    if totalPages >= 1 {
      BlocksPartition(totalPages);
      if 1 <= currentPage <= totalPages {
        PageInOneBlock(currentPage, totalPages);
      } else if found.Some? {
        BlocksWithinRange(totalPages, found.value, currentPage);
      }
    }
  }

  /** Pages `lo` up to (not including) `hi`. */
  function Run(lo: int, hi: int): (r: seq<PageItem>)
    requires lo <= hi
    ensures |r| == hi - lo
    ensures forall k :: 0 <= k < |r| ==> r[k] == Page(lo + k)
  {
    seq(hi - lo, k requires 0 <= k < hi - lo => Page(lo + k))
  }

  /** A run grows by its next page, also behind a prefix. */
  lemma RunExtend(prefix: seq<PageItem>, lo: int, hi: int)
    requires lo <= hi
    ensures prefix + Run(lo, hi + 1) == prefix + Run(lo, hi) + [Page(hi)]
  {
    assert Run(lo, hi + 1) == Run(lo, hi) + [Page(hi)];
  }

  /** The strip around the window `lo..hi` as `getPageNumbers` lays it
      out: page 1 and `...` before, `...` and the last page after. */
  function Layout(lo: int, hi: int, totalPages: int): seq<PageItem>
    requires lo <= hi + 1
  {
    Lead(lo) + Run(lo, hi + 1) + Tail(hi, totalPages)
  }

  /** Page 1, and `...` when page 2 is not in the window either. */
  function Lead(lo: int): seq<PageItem> {
    if lo > 1 then [Page(1)] + (if lo > 2 then [Ellipsis] else []) else []
  }

  /** `...` when the page before the last is not in the window, and the
      last page. */
  function Tail(hi: int, totalPages: int): seq<PageItem> {
    if hi < totalPages then (if hi < totalPages - 1 then [Ellipsis] else []) + [Page(totalPages)] else []
  }

  predicate NumbersWithin(pages: seq<PageItem>, totalPages: int) {
    forall i :: 0 <= i < |pages| && pages[i].Page? ==> 1 <= pages[i].n <= totalPages
  }

  predicate StrictlyIncreasing(pages: seq<PageItem>) {
    forall i, j :: 0 <= i < j < |pages| && pages[i].Page? && pages[j].Page? ==> pages[i].n < pages[j].n
  }

  /** Two neighbouring page buttons are consecutive pages. */
  predicate NoSilentGap(pages: seq<PageItem>) {
    forall i :: 0 <= i < |pages| - 1 && pages[i].Page? && pages[i + 1].Page? ==>
      pages[i + 1].n == pages[i].n + 1
  }

  /** Every `...` stands between two page buttons and for at least one
      page that is not shown. */
  predicate EllipsesSkipPages(pages: seq<PageItem>) {
    forall i :: 0 <= i < |pages| && pages[i].Ellipsis? ==>
      0 < i < |pages| - 1 && pages[i - 1].Page? && pages[i + 1].Page? && pages[i - 1].n + 1 < pages[i + 1].n
  }

  function LeadLength(lo: int): nat {
    if lo > 2 then 2 else if lo > 1 then 1 else 0
  }

  function TailLength(hi: int, totalPages: int): nat {
    if hi < totalPages - 1 then 2 else if hi < totalPages then 1 else 0
  }

  /** Where each entry of a layout sits: the lead, the window, the tail. */
  lemma LayoutShape(lo: int, hi: int, totalPages: int)
    requires 1 <= lo <= hi <= totalPages
    ensures var pages, a := Layout(lo, hi, totalPages), LeadLength(lo);
      && |pages| == a + (hi - lo + 1) + TailLength(hi, totalPages)
      && (a >= 1 ==> pages[0] == Page(1))
      && (a == 2 ==> pages[1] == Ellipsis)
      && (forall k :: a <= k < a + (hi - lo + 1) ==> pages[k] == Page(lo + k - a))
      && (TailLength(hi, totalPages) == 1 ==> pages[|pages| - 1] == Page(totalPages))
      && (TailLength(hi, totalPages) == 2 ==>
            pages[|pages| - 2] == Ellipsis && pages[|pages| - 1] == Page(totalPages))
  {
    var lead, run, tail := Lead(lo), Run(lo, hi + 1), Tail(hi, totalPages);
    var pages := Layout(lo, hi, totalPages);
    assert pages == lead + run + tail;
    assert forall k :: |lead| <= k < |lead| + |run| ==> pages[k] == run[k - |lead|];
  }

  /** The strip starts at page 1, ends at the last page, and shows only
      pages that exist, in increasing order. */
  lemma LayoutOrdered(lo: int, hi: int, totalPages: int)
    requires 1 <= lo <= hi <= totalPages
    ensures var pages := Layout(lo, hi, totalPages);
      && |pages| >= 1 && pages[0] == Page(1) && pages[|pages| - 1] == Page(totalPages)
      && NumbersWithin(pages, totalPages)
      && StrictlyIncreasing(pages)
      && |pages| <= hi - lo + 5
  {
    LayoutShape(lo, hi, totalPages);
    LayoutIncreasing(lo, hi, totalPages);
  }

  /** Later page buttons of a layout carry larger numbers. */
  lemma LayoutIncreasing(lo: int, hi: int, totalPages: int)
    requires 1 <= lo <= hi <= totalPages
    ensures StrictlyIncreasing(Layout(lo, hi, totalPages))
  {
    LayoutShape(lo, hi, totalPages);
    var pages, a := Layout(lo, hi, totalPages), LeadLength(lo);
    var b := a + (hi - lo + 1);
    forall k | 0 <= k < |pages| && pages[k].Page?
      ensures (k < a ==> pages[k].n == 1 && lo > 1)
      ensures (a <= k < b ==> pages[k].n == lo + k - a)
      ensures (b <= k ==> pages[k].n == totalPages && hi < totalPages)
    {
    }
  }

  /** Neighbouring buttons are consecutive pages, and every `...` hides at
      least one page. */
  lemma LayoutGapsMarked(lo: int, hi: int, totalPages: int)
    requires 1 <= lo <= hi <= totalPages
    ensures NoSilentGap(Layout(lo, hi, totalPages))
    ensures EllipsesSkipPages(Layout(lo, hi, totalPages))
  {
    LayoutNoSilentGap(lo, hi, totalPages);
    LayoutEllipses(lo, hi, totalPages);
  }

  lemma LayoutNoSilentGap(lo: int, hi: int, totalPages: int)
    requires 1 <= lo <= hi <= totalPages
    ensures NoSilentGap(Layout(lo, hi, totalPages))
  {
    LayoutShape(lo, hi, totalPages);
  }

  lemma LayoutEllipses(lo: int, hi: int, totalPages: int)
    requires 1 <= lo <= hi <= totalPages
    ensures EllipsesSkipPages(Layout(lo, hi, totalPages))
  {
    LayoutShape(lo, hi, totalPages);
  }

  /** Every page of the window has its button. */
  lemma LayoutShowsWindow(lo: int, hi: int, totalPages: int)
    requires 1 <= lo <= hi <= totalPages
    ensures forall c :: lo <= c <= hi ==> Page(c) in Layout(lo, hi, totalPages)
  {
    LayoutShape(lo, hi, totalPages);
    var pages, a := Layout(lo, hi, totalPages), LeadLength(lo);
    forall c | lo <= c <= hi ensures Page(c) in pages {
      assert pages[a + c - lo] == Page(c);
    }
  }

  /** Everything `getPageNumbers` owes its callers, for a window inside
      `1..totalPages` of at most ten pages. */
  lemma LayoutWellFormed(lo: int, hi: int, totalPages: int, currentPage: int)
    requires 1 <= lo <= hi <= totalPages && hi - lo < ShowPageSize
    ensures var pages := Layout(lo, hi, totalPages);
      && |pages| >= 1 && pages[0] == Page(1) && pages[|pages| - 1] == Page(totalPages)
      && NumbersWithin(pages, totalPages)
      && StrictlyIncreasing(pages)
      && NoSilentGap(pages)
      && EllipsesSkipPages(pages)
      && |pages| <= ShowPageSize + 4
      && (lo <= currentPage <= hi ==> Page(currentPage) in pages)
  {
    LayoutOrdered(lo, hi, totalPages);
    LayoutGapsMarked(lo, hi, totalPages);
    LayoutShowsWindow(lo, hi, totalPages);
  }

  /** The block `getCurrentGroup` picks for `1 <= totalPages`. */
  function CurrentBlock(currentPage: int, totalPages: int): PageGroup {
    Block(if 1 <= currentPage <= totalPages then (currentPage - 1) / ShowPageSize else 0, totalPages)
  }

  /** Near the end of its block the current page pulls the window back so
      that the window ends with the block. */
  predicate NearEnd(currentPage: int, group: PageGroup) {
    currentPage > group.endPage - ShowPageSize / 2
  }

  function WindowStart(currentPage: int, group: PageGroup): int {
    if NearEnd(currentPage, group) then Max(1, group.endPage - ShowPageSize + 1) else group.startPage
  }

  function WindowEnd(currentPage: int, group: PageGroup, totalPages: int): int {
    if NearEnd(currentPage, group) then group.endPage
    else Min(totalPages, WindowStart(currentPage, group) + ShowPageSize - 1)
  }

  /** The window `getPageNumbers` shows lies inside `1..totalPages`, spans
      at most ten pages, ends where the current block ends and holds the
      current page when that exists. */
  lemma WindowInside(currentPage: int, totalPages: int)
    requires totalPages >= 1
    ensures var g := CurrentBlock(currentPage, totalPages);
      var lo, hi := WindowStart(currentPage, g), WindowEnd(currentPage, g, totalPages);
      && 1 <= lo <= hi <= totalPages && hi - lo < ShowPageSize
      && hi == g.endPage
      && (1 <= currentPage <= totalPages ==> lo <= currentPage <= hi)
  {
    BlocksPartition(totalPages);
    if 1 <= currentPage <= totalPages {
      PageInOneBlock(currentPage, totalPages);
    }
  }

  /** The strip `getPageNumbers` returns. */
  function PageNumbers(currentPage: int, totalPages: int): seq<PageItem> {
    if totalPages <= 0 then []
    else
      var g := CurrentBlock(currentPage, totalPages);
      WindowInside(currentPage, totalPages);
      Layout(WindowStart(currentPage, g), WindowEnd(currentPage, g, totalPages), totalPages)
  }

  /** What the strip promises: from page 1 to the last page, increasing,
      consecutive between neighbouring buttons, `...` only where pages are
      hidden, at most fourteen entries, and the current page shown. */
  lemma PageNumbersWellFormed(currentPage: int, totalPages: int)
    ensures var pages := PageNumbers(currentPage, totalPages);
      && (totalPages <= 0 ==> pages == [])
      && (totalPages >= 1 ==> |pages| >= 1 && pages[0] == Page(1) && pages[|pages| - 1] == Page(totalPages))
      && NumbersWithin(pages, totalPages)
      && StrictlyIncreasing(pages)
      && NoSilentGap(pages)
      && EllipsesSkipPages(pages)
      && |pages| <= ShowPageSize + 4
      && (1 <= currentPage <= totalPages ==> Page(currentPage) in pages)
  {
    if totalPages >= 1 {
      var g := CurrentBlock(currentPage, totalPages);
      WindowInside(currentPage, totalPages);
      LayoutWellFormed(WindowStart(currentPage, g), WindowEnd(currentPage, g, totalPages), totalPages, currentPage);
    }
  }

  /** `getPageNumbers`: builds the strip entry by entry. */
  method GetPageNumbers(currentPage: int, totalPages: int) returns (pages: seq<PageItem>)
    ensures pages == PageNumbers(currentPage, totalPages)
  {
    var group := GetCurrentGroup(currentPage, totalPages);
    if group.None? {
      return [];
    }
    var startPage, endPage := group.value.startPage, group.value.endPage;
    var isNearEnd := currentPage > endPage - ShowPageSize / 2;
    var adjustedStartPage := if isNearEnd then Max(1, endPage - ShowPageSize + 1) else startPage;
    var adjustedEndPage := if isNearEnd then endPage else Min(totalPages, adjustedStartPage + ShowPageSize - 1);
    WindowInside(currentPage, totalPages);
    assert group.value == CurrentBlock(currentPage, totalPages);
    pages := BuildStrip(adjustedStartPage, adjustedEndPage, totalPages);
  }

  /** The body of `getPageNumbers` after the window is chosen: page 1 and
      `...`, the window page by page, then `...` and the last page. */
  method BuildStrip(lo: int, hi: int, totalPages: int) returns (pages: seq<PageItem>)
    requires lo <= hi + 1
    ensures pages == Layout(lo, hi, totalPages)
  {
    pages := [];
    if lo > 1 {
      pages := pages + [Page(1)];
      if lo > 2 {
        pages := pages + [Ellipsis];
      }
    }
    assert pages == Lead(lo);
    var i := lo;
    while i <= hi
      invariant lo <= i <= hi + 1
      invariant pages == Lead(lo) + Run(lo, i)
    {
      RunExtend(Lead(lo), lo, i);
      pages := pages + [Page(i)];
      i := i + 1;
    }
    ghost var window := pages;
    if hi < totalPages {
      if hi < totalPages - 1 {
        pages := pages + [Ellipsis];
      }
      pages := pages + [Page(totalPages)];
    }
    assert pages == window + Tail(hi, totalPages);
  }

  /** The disabled state of first, previous, next and last, as written:
      next and last use the test for the first page. */
  function NavButtonsAsWritten(currentPage: int): (b: NavButtons)
    ensures b.first <==> currentPage == 1
    ensures b.prev <==> currentPage <= 1
    ensures b.next == b.first && b.last == b.first
  {
    NavButtons(currentPage == 1, currentPage <= 1, currentPage == 1, currentPage == 1)
  }

  /** On page 1 of five, "next" is disabled although page 2 exists; on page
      5 of five it is enabled although there is no page 6. The intended
      buttons differ on both. */
  lemma NextButtonWrongAtBothEnds()
    ensures NavButtonsAsWritten(1).next && !NavButtonsIntended(1, 5).next
    ensures !NavButtonsAsWritten(5).next && NavButtonsIntended(5, 5).next
  {
  }

  /** Next and last disabled exactly when there is no later page. */
  function NavButtonsIntended(currentPage: int, totalPages: int): (b: NavButtons)
    ensures b.first <==> currentPage == 1
    ensures b.prev <==> currentPage <= 1
    ensures !b.next <==> currentPage + 1 <= totalPages
    ensures b.last == b.next
  {
    NavButtons(currentPage == 1, currentPage <= 1, currentPage >= totalPages, currentPage >= totalPages)
  }

  /** The component: nothing at all for one page or fewer, otherwise the
      buttons and the strip. The strip is computed before the test, as in
      the component; the buttons are the corrected ones. */
  method Render(currentPage: int, totalPages: int) returns (view: Option<PaginationView>)
    ensures view.None? <==> totalPages <= 1
    ensures view.Some? ==> view.value.buttons == NavButtonsIntended(currentPage, totalPages)
    ensures view.Some? ==> view.value.pages == PageNumbers(currentPage, totalPages)
  {
    var pageNumbers := GetPageNumbers(currentPage, totalPages);
    if totalPages <= 1 {
      return None;
    }
    view := Some(PaginationView(NavButtonsIntended(currentPage, totalPages), pageNumbers));
  }
}
