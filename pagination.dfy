/** The page-number strip under the coin table: which page numbers are shown,
    where an ellipsis stands for hidden pages, and the Previous/Next steps. */
module Pagination {

  import opened Wrappers

  /** One item of the strip: a clickable page number or the '...' marker. */
  datatype PageItem = Page(n: int) | Dots

  /** The consecutive page numbers start, start + 1, ..., of the given length;
      a length that is not positive gives no pages, as `Array.from` does. */
  function Run(start: int, count: int): (r: seq<PageItem>)
    ensures |r| == Max(count, 0)
    ensures forall i :: 0 <= i < |r| ==> r[i] == Page(start + i)
  {
    if count <= 0 then [] else seq(count, i => Page(start + i))
  }

  /** The strip for `totalPages` pages with `currentPage` selected, showing
      `siblingCount` neighbours on each side of the current page. */
  function PaginationRange(totalPages: int, currentPage: int, siblingCount: int): seq<PageItem>
  {
    var totalPageNumbers := siblingCount + 5;
    if totalPageNumbers >= totalPages then
      Run(1, totalPages)
    else
      var leftSibling := Max(currentPage - siblingCount, 1);
      var rightSibling := Min(currentPage + siblingCount, totalPages);
      var showLeftDots := leftSibling > 2;
      var showRightDots := rightSibling < totalPages - 2;
      var sideCount := 3 + 2 * siblingCount;
      if !showLeftDots && showRightDots then
        Run(1, sideCount) + [Dots, Page(totalPages)]
      else if showLeftDots && !showRightDots then
        [Page(1), Dots] + Run(totalPages - sideCount + 1, sideCount)
      else if showLeftDots && showRightDots then
        [Page(1), Dots] + Run(leftSibling, rightSibling - leftSibling + 1) + [Dots, Page(totalPages)]
      else
        []
  }

  /** Every page number shown lies in 1..totalPages. */
  predicate NumbersInRange(r: seq<PageItem>, totalPages: int)
  {
    forall i :: 0 <= i < |r| && r[i].Page? ==> 1 <= r[i].n <= totalPages
  }

  /** Page numbers appear in strictly increasing order. */
  predicate StrictlyIncreasing(r: seq<PageItem>)
  {
    forall i, j :: 0 <= i < j < |r| && r[i].Page? && r[j].Page? ==> r[i].n < r[j].n
  }

  /** Two adjacent page numbers are consecutive pages, and every ellipsis
      sits between two page numbers with at least one page hidden between them. */
  predicate GapsMarked(r: seq<PageItem>)
  {
    && (forall i :: 0 <= i < |r| - 1 && r[i].Page? && r[i + 1].Page? ==> r[i + 1].n == r[i].n + 1)
    && (forall i :: 0 <= i < |r| && r[i].Dots? ==>
          0 < i < |r| - 1 && r[i - 1].Page? && r[i + 1].Page? && r[i + 1].n >= r[i - 1].n + 2)
  }

  /** The strip is a faithful compression of the pages 1..totalPages: it starts
      at page 1, ends at the last page, and skips pages only where it shows '...'. */
  predicate Compresses(r: seq<PageItem>, totalPages: int)
  {
    && r != []
    && r[0] == Page(1)
    && r[|r| - 1] == Page(totalPages)
    && NumbersInRange(r, totalPages)
    && StrictlyIncreasing(r)
    && GapsMarked(r)
  }

  /** All pages, without an ellipsis. */
  lemma CompressesAll(totalPages: int)
    requires totalPages >= 1
    ensures Compresses(Run(1, totalPages), totalPages)
  {
  }

  /** The first five pages, an ellipsis and the last page. */
  lemma CompressesLeading(totalPages: int)
    requires totalPages >= 7
    ensures Compresses(Run(1, 5) + [Dots, Page(totalPages)], totalPages)
  {
    var r := Run(1, 5) + [Dots, Page(totalPages)];
    assert forall i :: 0 <= i < 5 ==> r[i] == Page(i + 1);
  }

  /** Page 1, an ellipsis and the last five pages. */
  lemma CompressesTrailing(totalPages: int)
    requires totalPages >= 7
    ensures Compresses([Page(1), Dots] + Run(totalPages - 4, 5), totalPages)
  {
    var r := [Page(1), Dots] + Run(totalPages - 4, 5);
    assert forall i :: 2 <= i < 7 ==> r[i] == Page(totalPages - 6 + i);
  }

  /** Page 1, an ellipsis, three pages around the current one, an ellipsis and the last page. */
  lemma CompressesMiddle(totalPages: int, currentPage: int)
    requires 3 < currentPage < totalPages - 3
    ensures Compresses([Page(1), Dots, Page(currentPage - 1), Page(currentPage), Page(currentPage + 1), Dots, Page(totalPages)], totalPages)
  {
  }

  /** With one sibling on each side (the only width the component uses), the
      strip for any valid current page compresses 1..totalPages, shows the
      current page and never has more than seven items. */
  lemma {:induction false} RangeCompresses(totalPages: int, currentPage: int)
    requires 1 <= currentPage <= totalPages
    ensures var r := PaginationRange(totalPages, currentPage, 1);
      && Compresses(r, totalPages)
      && Page(currentPage) in r
      && |r| <= 7
  {
    if totalPages <= 6 {
      RangeCompressesFew(totalPages, currentPage);
    } else if currentPage <= 3 {
      RangeCompressesNearStart(totalPages, currentPage);
    } else if currentPage >= totalPages - 3 {
      RangeCompressesNearEnd(totalPages, currentPage);
    } else {
      RangeCompressesInside(totalPages, currentPage);
    }
  }

  lemma RangeCompressesFew(totalPages: int, currentPage: int)
    requires 1 <= currentPage <= totalPages <= 6
    ensures var r := PaginationRange(totalPages, currentPage, 1);
      Compresses(r, totalPages) && Page(currentPage) in r && |r| <= 7
  {
    var r := PaginationRange(totalPages, currentPage, 1);
    RangeByPosition(totalPages, currentPage);
    CompressesAll(totalPages);
    assert r[currentPage - 1] == Page(currentPage);
  }

  lemma RangeCompressesNearStart(totalPages: int, currentPage: int)
    requires 1 <= currentPage <= 3 && 6 < totalPages
    ensures var r := PaginationRange(totalPages, currentPage, 1);
      Compresses(r, totalPages) && Page(currentPage) in r && |r| <= 7
  {
    var r := PaginationRange(totalPages, currentPage, 1);
    RangeByPosition(totalPages, currentPage);
    CompressesLeading(totalPages);
    assert r[currentPage - 1] == Page(currentPage);
  }

  lemma RangeCompressesNearEnd(totalPages: int, currentPage: int)
    requires 6 < totalPages && 3 < currentPage && totalPages - 3 <= currentPage <= totalPages
    ensures var r := PaginationRange(totalPages, currentPage, 1);
      Compresses(r, totalPages) && Page(currentPage) in r && |r| <= 7
  {
    var r := PaginationRange(totalPages, currentPage, 1);
    RangeByPosition(totalPages, currentPage);
    CompressesTrailing(totalPages);
    assert r[currentPage - totalPages + 6] == Page(currentPage);
  }

  lemma RangeCompressesInside(totalPages: int, currentPage: int)
    requires 6 < totalPages && 3 < currentPage < totalPages - 3
    ensures var r := PaginationRange(totalPages, currentPage, 1);
      Compresses(r, totalPages) && Page(currentPage) in r && |r| <= 7
  {
    var r := PaginationRange(totalPages, currentPage, 1);
    RangeByPosition(totalPages, currentPage);
    CompressesMiddle(totalPages, currentPage);
    assert r[3] == Page(currentPage);
  }

  /** The same strip described by where the current page sits: all pages when
      there are at most six; the first five pages when the current page is
      among the first three; the last five when it is among the last four;
      otherwise page 1, the current page with its two neighbours, and the last page. */
  lemma {:induction false} RangeByPosition(totalPages: int, currentPage: int)
    requires 1 <= currentPage <= totalPages
    ensures var r := PaginationRange(totalPages, currentPage, 1);
      if totalPages <= 6 then
        r == Run(1, totalPages)
      else if currentPage <= 3 then
        r == Run(1, 5) + [Dots, Page(totalPages)]
      else if currentPage >= totalPages - 3 then
        r == [Page(1), Dots] + Run(totalPages - 4, 5)
      else
        r == [Page(1), Dots, Page(currentPage - 1), Page(currentPage), Page(currentPage + 1), Dots, Page(totalPages)]
  {
    if totalPages > 6 && 3 < currentPage < totalPages - 3 {
      assert Run(currentPage - 1, 3) == [Page(currentPage - 1), Page(currentPage), Page(currentPage + 1)];
    }
  }

  /** The fall-through empty strip cannot be reached with one sibling. */
  lemma {:induction false} RangeNeverEmpty(totalPages: int, currentPage: int)
    requires totalPages >= 1
    ensures PaginationRange(totalPages, currentPage, 1) != []
  {
    if totalPages > 6 {
      var leftSibling := Max(currentPage - 1, 1);
      var rightSibling := Min(currentPage + 1, totalPages);
      assert leftSibling > 2 || rightSibling < totalPages - 2;
    }
  }

  /** With two siblings the guards leave a gap: eight pages with page 4
      selected fall through every branch and give an empty strip. */
  lemma WiderSiblingsCanYieldEmpty()
    ensures PaginationRange(8, 4, 2) == []
  {
  }

  /** Worked examples of the code as written. */
  lemma RangeExamples()
    ensures PaginationRange(20, 1, 1) == [Page(1), Page(2), Page(3), Page(4), Page(5), Dots, Page(20)]
    ensures PaginationRange(20, 20, 1) == [Page(1), Dots, Page(16), Page(17), Page(18), Page(19), Page(20)]
    ensures PaginationRange(7, 4, 1) == [Page(1), Dots, Page(3), Page(4), Page(5), Page(6), Page(7)]
    ensures PaginationRange(20, 10, 1) == [Page(1), Dots, Page(9), Page(10), Page(11), Dots, Page(20)]
    ensures PaginationRange(6, 4, 1) == [Page(1), Page(2), Page(3), Page(4), Page(5), Page(6)]
  {
    assert Run(1, 5) == [Page(1), Page(2), Page(3), Page(4), Page(5)];
    assert Run(16, 5) == [Page(16), Page(17), Page(18), Page(19), Page(20)];
    assert Run(3, 5) == [Page(3), Page(4), Page(5), Page(6), Page(7)];
    assert Run(9, 3) == [Page(9), Page(10), Page(11)];
    assert Run(1, 6) == [Page(1), Page(2), Page(3), Page(4), Page(5), Page(6)];
  }

  /** What the component renders: nothing for at most one page, otherwise the
      strip with one sibling on each side. */
  function RenderedStrip(totalPages: int, currentPage: int): (r: Option<seq<PageItem>>)
    ensures r.None? <==> totalPages <= 1
    ensures 1 <= currentPage <= totalPages && r.Some? ==> Compresses(r.value, totalPages) && Page(currentPage) in r.value
  {
    if totalPages <= 1 then None
    else
      if 1 <= currentPage <= totalPages then
        RangeCompresses(totalPages, currentPage);
        Some(PaginationRange(totalPages, currentPage, 1))
      else
        Some(PaginationRange(totalPages, currentPage, 1))
  }

  /** The page the Previous button hands to the page-change callback, if any. */
  function PreviousPage(currentPage: int): Option<int>
  {
    if currentPage > 1 then Some(currentPage - 1) else None
  }

  /** The page the Next button hands to the page-change callback, if any. */
  function NextPage(currentPage: int, totalPages: int): Option<int>
  {
    if currentPage < totalPages then Some(currentPage + 1) else None
  }

  /** Previous and Next move by one page and never leave 1..totalPages;
      each is disabled exactly at its end of the range. */
  lemma StepsStayInRange(currentPage: int, totalPages: int)
    requires 1 <= currentPage <= totalPages
    ensures PreviousPage(currentPage).None? <==> currentPage == 1
    ensures NextPage(currentPage, totalPages).None? <==> currentPage == totalPages
    ensures PreviousPage(currentPage).Some? ==> 1 <= PreviousPage(currentPage).value <= totalPages
    ensures NextPage(currentPage, totalPages).Some? ==> 1 <= NextPage(currentPage, totalPages).value <= totalPages
  {
  }

  /** Next undoes Previous and Previous undoes Next whenever the step is enabled. */
  lemma StepsAreInverse(currentPage: int, totalPages: int)
    requires 1 <= currentPage <= totalPages
    ensures PreviousPage(currentPage).Some? ==> NextPage(PreviousPage(currentPage).value, totalPages) == Some(currentPage)
    ensures NextPage(currentPage, totalPages).Some? ==> PreviousPage(NextPage(currentPage, totalPages).value) == Some(currentPage)
  {
  }
}
