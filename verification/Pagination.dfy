/** Listing with a filter applied after the query, then cut into pages. */
module Pagination {
  import opened Levels

  datatype Meta = Meta(total: nat, pages: nat, hasNext: bool, hasPrev: bool)

  function Filtered<T>(rows: seq<T>, keep: T -> bool): seq<T> {
    if rows == [] then []
    else Filtered(rows[..|rows| - 1], keep) + if keep(rows[|rows| - 1]) then [rows[|rows| - 1]] else []
  }

  lemma FilteredNext<T>(rows: seq<T>, keep: T -> bool, i: nat)
    requires i < |rows|
    ensures Filtered(rows[..i + 1], keep) == Filtered(rows[..i], keep) + if keep(rows[i]) then [rows[i]] else []
  {
    assert rows[..i + 1][..i] == rows[..i];
  }

  function PagesOf(total: nat, perPage: nat): nat
    requires 0 < perPage
  {
    if total == 0 then 0 else (total + perPage - 1) / perPage
  }

  /** `payloads[start : start + per_page]`: a slice beyond the end is shorter, or empty. */
  function Page<T>(payloads: seq<T>, page: nat, perPage: nat): seq<T>
    requires 1 <= page && 0 < perPage
  {
    StartsInOrder(page, perPage);
    payloads[Min((page - 1) * perPage, |payloads|)..Min(page * perPage, |payloads|)]
  }

  lemma StartsInOrder(page: nat, perPage: nat)
    requires 1 <= page
    ensures 0 <= (page - 1) * perPage && (page - 1) * perPage + perPage == page * perPage
  {
  }

  method ListPage<T>(rows: seq<T>, keep: T -> bool, page: nat, perPage: nat) returns (data: seq<T>, meta: Meta)
    requires 1 <= page && 1 <= perPage <= 100
    ensures data == Page(Filtered(rows, keep), page, perPage)
    ensures meta.total == |Filtered(rows, keep)| && meta.pages == PagesOf(meta.total, perPage)
    ensures meta.hasNext <==> exists q :: page < q && Page(Filtered(rows, keep), q, perPage) != []
    ensures meta.hasPrev <==> 1 < page
  {
    var payloads := [];
    for i := 0 to |rows|
      invariant payloads == Filtered(rows[..i], keep)
    {
      FilteredNext(rows, keep, i);
      if keep(rows[i]) {
        payloads := payloads + [rows[i]];
      }
    }
    assert rows[..|rows|] == rows;
    var total := |payloads|;
    var pages := if total != 0 then (total + perPage - 1) / perPage else 0;
    StartsInOrder(page, perPage);
    var start := (page - 1) * perPage;
    data := payloads[Min(start, total)..Min(start + perPage, total)];
    meta := Meta(total, pages, page < pages, page > 1);
    HasNextIff(payloads, page, perPage);
  }

  lemma MulOrder(a: nat, b: nat, d: nat)
    requires a <= b
    ensures a * d <= b * d
  {
  }

  lemma Ceiling(total: nat, d: nat)
    requires 0 < d
    ensures var n := PagesOf(total, d);
            total <= n * d && (0 < n ==> (n - 1) * d < total)
  {
    if total != 0 {
      var n := PagesOf(total, d);
      assert total + d - 1 == d * n + (total + d - 1) % d;
      assert (n - 1) * d == d * n - d;
    }
  }

  /** Exactly the pages 1 to `pages` show something. */
  lemma PageShows<T>(payloads: seq<T>, page: nat, perPage: nat)
    requires 1 <= page && 0 < perPage
    ensures Page(payloads, page, perPage) != [] <==> page <= PagesOf(|payloads|, perPage)
  {
    var n := PagesOf(|payloads|, perPage);
    Ceiling(|payloads|, perPage);
    StartsInOrder(page, perPage);
    if page <= n {
      MulOrder(page - 1, n - 1, perPage);
    } else {
      MulOrder(n, page - 1, perPage);
    }
  }

  lemma HasNextIff<T>(payloads: seq<T>, page: nat, perPage: nat)
    requires 1 <= page && 0 < perPage
    ensures page < PagesOf(|payloads|, perPage) <==> exists q :: page < q && Page(payloads, q, perPage) != []
  {
    if page < PagesOf(|payloads|, perPage) {
      PageShows(payloads, page + 1, perPage);
    }
    forall q | page < q && Page(payloads, q, perPage) != []
      ensures page < PagesOf(|payloads|, perPage)
    {
      PageShows(payloads, q, perPage);
    }
  }

  function FirstPages<T>(payloads: seq<T>, n: nat, perPage: nat): seq<T>
    requires 0 < perPage
  {
    if n == 0 then [] else FirstPages(payloads, n - 1, perPage) + Page(payloads, n, perPage)
  }

  lemma {:induction false} FirstPagesAre<T>(payloads: seq<T>, n: nat, perPage: nat)
    requires 0 < perPage
    ensures FirstPages(payloads, n, perPage) == payloads[..Min(n * perPage, |payloads|)]
  {
    if n != 0 {
      FirstPagesAre(payloads, n - 1, perPage);
      StartsInOrder(n, perPage);
    }
  }

  /** Reading the pages one after the other gives the whole filtered list, in order. */
  lemma {:induction false} PagesCoverTheList<T>(payloads: seq<T>, perPage: nat)
    requires 0 < perPage
    ensures FirstPages(payloads, PagesOf(|payloads|, perPage), perPage) == payloads
  {
    Ceiling(|payloads|, perPage);
    FirstPagesAre(payloads, PagesOf(|payloads|, perPage), perPage);
  }

  lemma {:induction false} FilteredKeeps<T>(rows: seq<T>, keep: T -> bool, x: T)
    ensures x in Filtered(rows, keep) <==> x in rows && keep(x)
  {
    if rows != [] {
      var n := |rows| - 1;
      FilteredKeeps(rows[..n], keep, x);
      assert rows == rows[..n] + [rows[n]];
    }
  }
}
