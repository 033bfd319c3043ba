/** Table pagination as the log tables do it: a page number and a page
    size, and the visible rows `logs.slice(page * rows, page * rows + rows)`. */
module Paging {

  import opened Js

  /** The rows shown on page `page` when pages hold `rows` rows. */
  function PageOf<T>(logs: seq<T>, page: nat, rows: nat): (visible: seq<T>)
    ensures |visible| <= rows
    ensures page * rows <= |logs| ==> visible == logs[page * rows..Min(page * rows + rows, |logs|)]
    ensures page * rows >= |logs| ==> visible == []
  {
    Slice(logs, page * rows, page * rows + rows)
  }

  /** Pages `0 .. n-1` read one after the other give the first `n * rows`
      rows in their original order (all of them once `n * rows` reaches the
      length): nothing is skipped, repeated or reordered. */
  lemma {:induction false} PagesCover<T>(logs: seq<T>, rows: nat, n: nat)
    ensures Pages(logs, rows, n) == logs[..Min(n * rows, |logs|)]
  {
    if n > 0 {
      PagesCover(logs, rows, n - 1);
      PageStart(n - 1, rows);
      PrefixThenPage(logs, (n - 1) * rows, rows, PageOf(logs, n - 1, rows));
    }
  }

  /** Page `k + 1` starts one page size after page `k`. */
  lemma PageStart(k: nat, rows: nat)
    ensures k * rows >= 0 && (k + 1) * rows == k * rows + rows
  {
  }

  /** The rows before `start` followed by the page that starts there are the
      rows before `start + rows`. */
  lemma PrefixThenPage<T>(logs: seq<T>, start: nat, rows: nat, page: seq<T>)
    requires start <= |logs| ==> page == logs[start..Min(start + rows, |logs|)]
    requires start >= |logs| ==> page == []
    ensures logs[..Min(start, |logs|)] + page == logs[..Min(start + rows, |logs|)]
  {
    if start <= |logs| {
      assert logs[..Min(start + rows, |logs|)] == logs[..start] + logs[start..Min(start + rows, |logs|)];
    }
  }

  /** The first `n` pages, concatenated. */
  function Pages<T>(logs: seq<T>, rows: nat, n: nat): seq<T> {
    if n == 0 then [] else Pages(logs, rows, n - 1) + PageOf(logs, n - 1, rows)
  }

  /** The page and page size of one table. */
  class Pager {
    var page: nat
    var rowsPerPage: nat

    constructor (rowsPerPage: nat)
      ensures page == 0 && this.rowsPerPage == rowsPerPage
    {
      page := 0;
      this.rowsPerPage := rowsPerPage;
    }

    /** The rows of `logs` on the current page. */
    function Visible<T>(logs: seq<T>): seq<T>
      reads this
    {
      PageOf(logs, page, rowsPerPage)
    }

    /** `handleChangePage`. */
    method ChangePage(newPage: nat)
      modifies this`page
      ensures page == newPage
    {
      page := newPage;
    }

    /** `handleChangeRowsPerPage`: the new size, and back to the first page. */
    method ChangeRowsPerPage(rows: nat)
      modifies this
      ensures rowsPerPage == rows && page == 0
    {
      rowsPerPage := rows;
      page := 0;
    }

    /** After a page-size change the table shows the first rows. */
    lemma FirstPageAfterResize<T>(logs: seq<T>)
      requires page == 0
      ensures Visible(logs) == logs[..Min(rowsPerPage, |logs|)]
    {
    }
  }
}
