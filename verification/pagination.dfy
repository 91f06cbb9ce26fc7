/** The paginated, retrying fetch shared by the scrobble history, the loved
    tracks and the friends list. The server is a script of replies, one per
    request, in the order the requests are made. This module says what the
    loop knows after consuming the first `n` replies of that script, and
    whether the loop stops there and with what. */
module Pagination {
  import opened Records

  /** The number of failed attempts in a row that aborts the fetch. */
  const MaxFailures: nat := 3

  /** The server's answer to one request: a request or decoding failure, or a
      decoded page with its records and the `totalPages` it reports. */
  datatype Reply<T> = NoPage | Page(records: seq<T>, totalPages: nat)

  /** What the fetch returns. `Unanswered` is the model's own: the script of
      replies ended while the loop was still requesting pages. */
  datatype FetchResult<T> = Ok(records: seq<T>) | Err(error: Error) | Unanswered

  /* ---------------------------------------------------------------------
     The loop's knowledge after the first `n` replies.
     --------------------------------------------------------------------- */

  /** The number of successful pages. */
  function Pages<T>(replies: seq<Reply<T>>, n: nat): nat
    requires n <= |replies|
  {
    if n == 0 then 0
    else Pages(replies, n - 1) + (if replies[n - 1].Page? then 1 else 0)
  }

  /** The records of the successful pages, in the order they came. */
  function Flatten<T>(replies: seq<Reply<T>>, n: nat): seq<T>
    requires n <= |replies|
  {
    if n == 0 then []
    else Flatten(replies, n - 1) + (if replies[n - 1].Page? then replies[n - 1].records else [])
  }

  /** The known total page count: 0 until a page arrives, and replaced only by
      a strictly greater reported value. */
  function KnownTotal<T>(replies: seq<Reply<T>>, n: nat): (total: nat)
    requires n <= |replies|
    ensures n == 0 ==> total == 0
    ensures n > 0 && replies[n - 1].Page? ==> replies[n - 1].totalPages <= total
  {
    if n == 0 then 0
    else
      var known := KnownTotal(replies, n - 1);
      var last := replies[n - 1];
      if last.Page? && last.totalPages > known then last.totalPages else known
  }

  /** The number of failed attempts since the last successful page. */
  function TrailingFailures<T>(replies: seq<Reply<T>>, n: nat): nat
    requires n <= |replies|
  {
    if n == 0 then 0
    else if replies[n - 1].NoPage? then TrailingFailures(replies, n - 1) + 1
    else 0
  }

  /** The page the next request asks for. */
  function RequestedPage<T>(replies: seq<Reply<T>>, n: nat): nat
    requires n <= |replies|
  {
    1 + Pages(replies, n)
  }

  /** The last reply was a page and the next page would lie beyond the known total. */
  predicate Finished<T>(replies: seq<Reply<T>>, n: nat)
    requires n <= |replies|
  {
    0 < n && replies[n - 1].Page? && RequestedPage(replies, n) > KnownTotal(replies, n)
  }

  /** The retry budget is spent. */
  predicate GaveUp<T>(replies: seq<Reply<T>>, n: nat)
    requires n <= |replies|
  {
    TrailingFailures(replies, n) >= MaxFailures
  }

  /** The loop stops right after the `n`-th reply. */
  predicate Ends<T>(replies: seq<Reply<T>>, n: nat)
    requires n <= |replies|
  {
    Finished(replies, n) || GaveUp(replies, n)
  }

  /** What the loop returns when it stops right after the `n`-th reply. */
  function Verdict<T>(replies: seq<Reply<T>>, n: nat): FetchResult<T>
    requires n <= |replies|
  {
    if Finished(replies, n) then Ok(Flatten(replies, n))
    else if GaveUp(replies, n) then Err(RequestError)
    else Unanswered
  }

  /** The loop, run against `replies`, consumes exactly the first `n` of them
      and returns `r`: it stops at the first reply that ends it, or runs out. */
  ghost predicate IsRun<T>(replies: seq<Reply<T>>, n: nat, r: FetchResult<T>)
  {
    n <= |replies| &&
    (forall m :: 0 < m < n ==> !Ends(replies, m)) &&
    if r.Unanswered? then n == |replies| && !Ends(replies, n)
    else 0 < n && Ends(replies, n) && r == Verdict(replies, n)
  }

  /* ---------------------------------------------------------------------
     Lemmas about the loop's knowledge.
     --------------------------------------------------------------------- */

  /** Requests never go back a page, and move on by at most one page per
      reply: a failed attempt is followed by a request for the same page, a
      successful one by a request for the next page. */
  lemma {:induction false} RequestedPagesAdvance<T>(replies: seq<Reply<T>>, i: nat, j: nat)
    requires i <= j <= |replies|
    ensures RequestedPage(replies, i) <= RequestedPage(replies, j) <= RequestedPage(replies, i) + (j - i)
    ensures j == i + 1 ==>
      RequestedPage(replies, j) == RequestedPage(replies, i) + (if replies[i].Page? then 1 else 0)
    decreases j
  {
    if i < j {
      RequestedPagesAdvance(replies, i, j - 1);
    }
  }

  /** The known total page count never decreases. */
  lemma {:induction false} KnownTotalNeverShrinks<T>(replies: seq<Reply<T>>, i: nat, j: nat)
    requires i <= j <= |replies|
    ensures KnownTotal(replies, i) <= KnownTotal(replies, j)
    decreases j
  {
    if i < j {
      KnownTotalNeverShrinks(replies, i, j - 1);
    }
  }

  /** The known total is the largest total any page has reported so far. */
  lemma {:induction false} KnownTotalIsLargestReported<T>(replies: seq<Reply<T>>, n: nat)
    requires n <= |replies|
    ensures forall i :: 0 <= i < n && replies[i].Page? ==> replies[i].totalPages <= KnownTotal(replies, n)
    ensures KnownTotal(replies, n) == 0 ||
            exists i :: 0 <= i < n && replies[i].Page? && replies[i].totalPages == KnownTotal(replies, n)
  {
    if n > 0 {
      KnownTotalIsLargestReported(replies, n - 1);
    }
  }

  /** The last `TrailingFailures` replies are failures, and the one before
      them, if any, is a page: failures before a page never count. */
  lemma {:induction false} TrailingFailuresShape<T>(replies: seq<Reply<T>>, n: nat)
    requires n <= |replies|
    ensures TrailingFailures(replies, n) <= n
    ensures forall j :: n - TrailingFailures(replies, n) <= j < n ==> replies[j].NoPage?
    ensures TrailingFailures(replies, n) < n ==> replies[n - 1 - TrailingFailures(replies, n)].Page?
  {
    if n > 0 && replies[n - 1].NoPage? {
      TrailingFailuresShape(replies, n - 1);
    }
  }

  /** A run of failed attempts keeps the page, the records and the known
      total, and adds one failure per attempt. */
  lemma {:induction false} FailuresKeepProgress<T>(replies: seq<Reply<T>>, i: nat, j: nat)
    requires i <= j <= |replies|
    requires forall k :: i <= k < j ==> replies[k].NoPage?
    ensures RequestedPage(replies, j) == RequestedPage(replies, i)
    ensures Flatten(replies, j) == Flatten(replies, i)
    ensures KnownTotal(replies, j) == KnownTotal(replies, i)
    ensures TrailingFailures(replies, j) == TrailingFailures(replies, i) + (j - i)
    decreases j
  {
    if i < j {
      FailuresKeepProgress(replies, i, j - 1);
    }
  }

  /** The loop's knowledge after `n` replies depends on those `n` replies only. */
  lemma {:induction false} KnowledgeIsPrefixOnly<T>(replies: seq<Reply<T>>, more: seq<Reply<T>>, n: nat)
    requires n <= |replies|
    ensures Pages(replies + more, n) == Pages(replies, n)
    ensures Flatten(replies + more, n) == Flatten(replies, n)
    ensures KnownTotal(replies + more, n) == KnownTotal(replies, n)
    ensures TrailingFailures(replies + more, n) == TrailingFailures(replies, n)
    ensures Ends(replies + more, n) == Ends(replies, n)
    ensures Verdict(replies + more, n) == Verdict(replies, n)
  {
    if n > 0 {
      KnowledgeIsPrefixOnly(replies, more, n - 1);
      assert (replies + more)[n - 1] == replies[n - 1];
    }
  }

  /** Before the loop finishes, it has fetched fewer pages than it knows of. */
  lemma {:induction false} UnfinishedBelowTotal<T>(replies: seq<Reply<T>>, n: nat)
    requires n <= |replies|
    requires forall m :: 0 < m <= n ==> !Finished(replies, m)
    ensures Pages(replies, n) == 0 || Pages(replies, n) < KnownTotal(replies, n)
  {
    if n > 0 {
      assert !Finished(replies, n);
    }
    if n > 0 && replies[n - 1].NoPage? {
      UnfinishedBelowTotal(replies, n - 1);
    }
  }

  /* ---------------------------------------------------------------------
     Lemmas about runs.
     --------------------------------------------------------------------- */

  /** An aborted fetch ended with exactly `MaxFailures` failed attempts in a
      row, all for one page, and returns `RequestError` with no records. */
  lemma AbortIsThreeFailuresInARow<T>(replies: seq<Reply<T>>, n: nat, r: FetchResult<T>)
    requires IsRun(replies, n, r) && r.Err?
    ensures r == Err(RequestError)
    ensures n >= MaxFailures
    ensures forall j :: n - MaxFailures <= j < n ==> replies[j].NoPage?
    ensures forall j :: n - MaxFailures <= j < n ==> RequestedPage(replies, j) == RequestedPage(replies, n)
    ensures n > MaxFailures ==> replies[n - MaxFailures - 1].Page?
  {
    assert !Finished(replies, n) && GaveUp(replies, n);
    assert replies[n - 1].NoPage?;
    if n - 1 > 0 {
      assert !Ends(replies, n - 1);
    }
    assert TrailingFailures(replies, n) == MaxFailures;
    TrailingFailuresShape(replies, n);
    forall j | n - MaxFailures <= j < n
      ensures RequestedPage(replies, j) == RequestedPage(replies, n)
    {
      FailuresKeepProgress(replies, j, n);
    }
  }

  /** A successful fetch ends on a page, returns the records of every page in
      page order, and has fetched every page from 1 to the known total (and
      page 1 even when the total is 0). */
  lemma OkHasEveryPage<T>(replies: seq<Reply<T>>, n: nat, r: FetchResult<T>)
    requires IsRun(replies, n, r) && r.Ok?
    ensures replies[n - 1].Page?
    ensures r.records == Flatten(replies, n)
    ensures Pages(replies, n) == if KnownTotal(replies, n) <= 1 then 1 else KnownTotal(replies, n)
  {
    assert Finished(replies, n);
    forall m | 0 < m <= n - 1
      ensures !Finished(replies, m)
    {
      assert !Ends(replies, m);
    }
    UnfinishedBelowTotal(replies, n - 1);
  }

  /** The loop never reads past the reply it stopped at: more replies after
      it change nothing. */
  lemma RunIgnoresLaterReplies<T>(replies: seq<Reply<T>>, more: seq<Reply<T>>, n: nat, r: FetchResult<T>)
    requires IsRun(replies, n, r) && !r.Unanswered?
    ensures IsRun(replies + more, n, r)
  {
    forall m | 0 < m < n
      ensures !Ends(replies + more, m)
    {
      KnowledgeIsPrefixOnly(replies, more, m);
      assert !Ends(replies, m);
    }
    KnowledgeIsPrefixOnly(replies, more, n);
  }

  /** The script of replies determines how many are consumed and what is returned. */
  lemma RunIsDeterministic<T>(replies: seq<Reply<T>>, n1: nat, r1: FetchResult<T>, n2: nat, r2: FetchResult<T>)
    requires IsRun(replies, n1, r1) && IsRun(replies, n2, r2)
    ensures n1 == n2 && r1 == r2
  {
    if n1 < n2 {
      assert false;
    } else if n2 < n1 {
      assert false;
    }
  }

  /* ---------------------------------------------------------------------
     Whole runs.
     --------------------------------------------------------------------- */

  lemma {:induction false} AllPagesCounted<T>(replies: seq<Reply<T>>, total: nat, m: nat)
    requires 1 <= m <= |replies|
    requires forall i :: 0 <= i < m ==> replies[i].Page? && replies[i].totalPages <= total
    requires replies[0].totalPages == total
    ensures Pages(replies, m) == m
    ensures KnownTotal(replies, m) == total
    ensures TrailingFailures(replies, m) == 0
  {
    if m > 1 {
      AllPagesCounted(replies, total, m - 1);
    }
  }

  /** A server that never fails, reports `total` pages on the first page and
      never more afterwards, is read for exactly `total` pages. A smaller
      total reported by a later page is ignored. */
  lemma ReportedTotalIsFetched<T>(replies: seq<Reply<T>>, total: nat)
    requires 1 <= total <= |replies|
    requires forall i :: 0 <= i < total ==> replies[i].Page? && replies[i].totalPages <= total
    requires replies[0].totalPages == total
    ensures IsRun(replies, total, Ok(Flatten(replies, total)))
  {
    forall m | 0 < m < total
      ensures !Ends(replies, m)
    {
      AllPagesCounted(replies, total, m);
    }
    AllPagesCounted(replies, total, total);
  }

  /** A first page that reports 0 or 1 pages ends the fetch. */
  lemma SinglePageSuffices<T>(replies: seq<Reply<T>>)
    requires replies != [] && replies[0].Page? && replies[0].totalPages <= 1
    ensures IsRun(replies, 1, Ok(replies[0].records))
  {
    assert Pages(replies, 1) == 1;
    assert KnownTotal(replies, 1) <= 1;
    assert Flatten(replies, 1) == [] + replies[0].records;
  }

  /** Wherever the loop is, `MaxFailures` failed attempts in a row abort it:
      it gives up once the failures since the last page reach the limit,
      which takes all `MaxFailures` of them when the attempt before was a
      page or there was none. */
  lemma FailuresInARowAbort<T>(replies: seq<Reply<T>>, k: nat)
    requires k + MaxFailures <= |replies|
    requires forall m :: 0 < m <= k ==> !Ends(replies, m)
    requires forall j :: k <= j < k + MaxFailures ==> replies[j].NoPage?
    ensures TrailingFailures(replies, k) < MaxFailures
    ensures IsRun(replies, k + MaxFailures - TrailingFailures(replies, k), Err(RequestError))
    ensures k == 0 || replies[k - 1].Page? ==> IsRun(replies, k + MaxFailures, Err(RequestError))
  {
    if k > 0 {
      assert !Ends(replies, k);
    }
    var n := k + MaxFailures - TrailingFailures(replies, k);
    forall m | 0 < m < n
      ensures !Ends(replies, m)
    {
      if m > k {
        FailuresKeepProgress(replies, k, m);
      }
    }
    FailuresKeepProgress(replies, k, n);
  }

  /** Three failures on the first page abort the fetch after three attempts. */
  lemma ThreeFailuresAbort<T>(replies: seq<Reply<T>>)
    requires |replies| >= 3 && replies[0].NoPage? && replies[1].NoPage? && replies[2].NoPage?
    ensures IsRun(replies, 3, Err(RequestError))
  {
    FailuresInARowAbort(replies, 0);
  }

  /** Two failures and then a page that reports at most one page: the
      fetch succeeds with that page's records. */
  lemma TwoFailuresThenSuccess<T>(replies: seq<Reply<T>>)
    requires |replies| >= 3 && replies[0].NoPage? && replies[1].NoPage?
    requires replies[2].Page? && replies[2].totalPages <= 1
    ensures IsRun(replies, 3, Ok(replies[2].records))
  {
    assert Pages(replies, 0) == 0 && KnownTotal(replies, 0) == 0 && TrailingFailures(replies, 0) == 0;
    assert Pages(replies, 1) == 0 && KnownTotal(replies, 1) == 0 && TrailingFailures(replies, 1) == 1;
    assert Pages(replies, 2) == 0 && KnownTotal(replies, 2) == 0 && TrailingFailures(replies, 2) == 2;
    assert Pages(replies, 3) == 1 && KnownTotal(replies, 3) <= 1;
    assert Flatten(replies, 1) == [];
    assert Flatten(replies, 2) == [];
    assert Flatten(replies, 3) == [] + replies[2].records;
  }
}
