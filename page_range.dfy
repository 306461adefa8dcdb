/**
  The range indicator under each table, "N tadan A dan B gacha." ("of N,
  from A to B"). Both pages compute it the same way from the table's
  pagination state and the number of rows that pass the filter.
*/
module PageRange {

  /** The first bound shown: the number of filtered rows on earlier pages. */
  function RangeStart(pageIndex: nat, pageSize: nat): nat
  {
    pageIndex * pageSize
  }

  /** The second bound shown: the end of the current page, capped at the
      number of filtered rows. */
  function RangeEnd(pageIndex: nat, pageSize: nat, filteredCount: nat): (b: nat)
    ensures b <= filteredCount && b <= (pageIndex + 1) * pageSize
    ensures b == filteredCount || b == (pageIndex + 1) * pageSize
  {
    if (pageIndex + 1) * pageSize > filteredCount then filteredCount else (pageIndex + 1) * pageSize
  }

  /** On a page that does not start past the last filtered row the indicator
      is a proper interval at most one page wide, and it reaches the last row
      exactly when the page does. */
  lemma RangeIsPage(pageIndex: nat, pageSize: nat, filteredCount: nat)
    requires RangeStart(pageIndex, pageSize) <= filteredCount
    ensures RangeStart(pageIndex, pageSize) <= RangeEnd(pageIndex, pageSize, filteredCount)
    ensures RangeEnd(pageIndex, pageSize, filteredCount) - RangeStart(pageIndex, pageSize) <= pageSize
    ensures RangeEnd(pageIndex, pageSize, filteredCount) == filteredCount
            <==> filteredCount <= (pageIndex + 1) * pageSize
  {
    assert (pageIndex + 1) * pageSize == pageIndex * pageSize + pageSize;
  }
}
