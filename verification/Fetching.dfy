// fetchAllPRs of pkg/watcher.go: all pages or none.
module Fetching {
  import opened Strings
  import opened Cursors
  import opened Polling

  /** The answers of a complete search from some page on: each page names the next, and
      only the last has none. */
  ghost predicate IsChain(search: Search, since: Time, call: nat, page: int, trace: seq<SearchResult>)
    decreases |trace|
  {
    && trace != []
    && search(call, since, page) == Some(trace[0])
    && (if trace[0].hasNextPage then IsChain(search, since, call + 1, trace[0].nextPage, trace[1..])
        else |trace| == 1)
  }

  function AllPRs(trace: seq<SearchResult>): seq<PullRequest> {
    if trace == [] then [] else trace[0].prs + AllPRs(trace[1..])
  }

  lemma {:induction false} CompleteHasChain(search: Search, since: Time, call: nat, page: int, alive: nat)
    returns (trace: seq<SearchResult>)
    requires FetchFrom(search, since, call, page, alive).Complete?
    ensures IsChain(search, since, call, page, trace) && |trace| <= alive
    ensures FetchFrom(search, since, call, page, alive) == Complete(AllPRs(trace), alive - |trace|)
    decreases alive
  {
    var r := search(call, since, page).value;
    if r.hasNextPage {
      var rest := CompleteHasChain(search, since, call + 1, r.nextPage, alive - 1);
      trace := [r] + rest;
      assert trace[1..] == rest;
    } else {
      trace := [r];
      assert AllPRs(trace[1..]) == [] && r.prs + [] == r.prs;
    }
  }

  lemma {:induction false} ChainIsFetched(search: Search, since: Time, call: nat, page: int, alive: nat,
                                          trace: seq<SearchResult>)
    requires IsChain(search, since, call, page, trace) && |trace| <= alive
    ensures FetchFrom(search, since, call, page, alive) == Complete(AllPRs(trace), alive - |trace|)
    decreases alive
  {
    if trace[0].hasNextPage {
      ChainIsFetched(search, since, call + 1, trace[0].nextPage, alive - 1, trace[1..]);
    } else {
      assert AllPRs(trace[1..]) == [] && trace[0].prs + [] == trace[0].prs;
    }
  }

  /** A fetch succeeds exactly with the page-order concatenation of a complete search that
      took no more context checks than there were. */
  lemma CompleteIff(search: Search, since: Time, alive: nat, prs: seq<PullRequest>, left: nat)
    ensures FetchFrom(search, since, 0, 1, alive) == Complete(prs, left)
       <==> exists trace :: IsChain(search, since, 0, 1, trace) && |trace| + left == alive && prs == AllPRs(trace)
  {
    if FetchFrom(search, since, 0, 1, alive) == Complete(prs, left) {
      var trace := CompleteHasChain(search, since, 0, 1, alive);
    }
    if trace :| IsChain(search, since, 0, 1, trace) && |trace| + left == alive && prs == AllPRs(trace) {
      ChainIsFetched(search, since, 0, 1, alive, trace);
    }
  }

  /** The answers of a search that breaks: each page names the next, and then one is an error. */
  ghost predicate IsBroken(search: Search, since: Time, call: nat, page: int, trace: seq<SearchResult>)
    decreases |trace|
  {
    if trace == [] then search(call, since, page).None?
    else search(call, since, page) == Some(trace[0]) && trace[0].hasNextPage
         && IsBroken(search, since, call + 1, trace[0].nextPage, trace[1..])
  }

  lemma {:induction false} FailedIsBroken(search: Search, since: Time, call: nat, page: int, alive: nat)
    returns (trace: seq<SearchResult>)
    requires FetchFrom(search, since, call, page, alive).SearchFailed?
    ensures IsBroken(search, since, call, page, trace)
    ensures |trace| + 1 + FetchFrom(search, since, call, page, alive).alive == alive
    decreases alive
  {
    var r := search(call, since, page);
    if r.None? {
      trace := [];
    } else {
      var rest := FailedIsBroken(search, since, call + 1, r.value.nextPage, alive - 1);
      trace := [r.value] + rest;
      assert trace[1..] == rest;
    }
  }

  lemma {:induction false} BrokenFails(search: Search, since: Time, call: nat, page: int, alive: nat,
                                       trace: seq<SearchResult>)
    requires IsBroken(search, since, call, page, trace) && |trace| < alive
    ensures FetchFrom(search, since, call, page, alive) == SearchFailed(alive - |trace| - 1)
    decreases alive
  {
    if trace != [] {
      BrokenFails(search, since, call + 1, trace[0].nextPage, alive - 1, trace[1..]);
    }
  }

  /** A fetch fails exactly if a page in front of the end is an error and is reached in time. */
  lemma FailedIff(search: Search, since: Time, alive: nat, left: nat)
    ensures FetchFrom(search, since, 0, 1, alive) == SearchFailed(left)
       <==> exists trace :: IsBroken(search, since, 0, 1, trace) && |trace| + 1 + left == alive
  {
    if FetchFrom(search, since, 0, 1, alive) == SearchFailed(left) {
      var trace := FailedIsBroken(search, since, 0, 1, alive);
    }
    if trace :| IsBroken(search, since, 0, 1, trace) && |trace| + 1 + left == alive {
      BrokenFails(search, since, 0, 1, alive, trace);
    }
  }

  /** While pages only go up to a bound, the loop ends within it: a context alive for so
      many checks is never found cancelled. */
  lemma {:induction false} RisingPagesEnd(search: Search, since: Time, call: nat, page: int, alive: nat, bound: int)
    requires forall n, q :: search(n, since, q).Some? && search(n, since, q).value.hasNextPage ==>
               q < search(n, since, q).value.nextPage <= bound
    requires page <= bound && alive > bound - page
    ensures !FetchFrom(search, since, call, page, alive).Cancelled?
    decreases alive
  {
    var r := search(call, since, page);
    if r.Some? && r.value.hasNextPage {
      RisingPagesEnd(search, since, call + 1, r.value.nextPage, alive - 1, bound);
    }
  }

  /** Without such a bound it need not: a search that keeps naming a next page is only ever
      ended by cancellation. */
  lemma {:induction false} EndlessPagesNeverComplete(search: Search, since: Time, call: nat, page: int, alive: nat)
    requires forall n, q :: search(n, since, q).Some? && search(n, since, q).value.hasNextPage
    ensures FetchFrom(search, since, call, page, alive).Cancelled?
    decreases alive
  {
    if alive > 0 {
      EndlessPagesNeverComplete(search, since, call + 1, search(call, since, page).value.nextPage, alive - 1);
    }
  }

  predicate AllValid(prs: seq<PullRequest>) { forall i :: 0 <= i < |prs| ==> prs[i].Ref().Valid() }

  ghost predicate ValidSearch(search: Search) {
    forall n, t, q :: search(n, t, q).Some? ==> AllValid(search(n, t, q).value.prs)
  }

  lemma {:induction false} FetchedAreValid(search: Search, since: Time, call: nat, page: int, alive: nat)
    requires ValidSearch(search)
    ensures FetchFrom(search, since, call, page, alive).Complete? ==>
              AllValid(FetchFrom(search, since, call, page, alive).prs)
    decreases alive
  {
    if alive > 0 && search(call, since, page).Some? && search(call, since, page).value.hasNextPage {
      FetchedAreValid(search, since, call + 1, search(call, since, page).value.nextPage, alive - 1);
    }
  }
}
