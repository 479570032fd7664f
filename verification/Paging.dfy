// Linked pages from a server whose every answer is arbitrary: page k, once asked for, either
// arrives with its items and perhaps a link to page k + 1, or fails.

module Paging {

  /** An API failure: transient ones are retried, others end the operation. */
  datatype Failure = Failure(transient: bool)

  datatype Result<+T> = Ok(value: T) | Err(failure: Failure)

  datatype Page<+T> = Page(items: seq<T>, hasNext: bool)

  /** The items of the first n pages. Pages that failed contribute nothing. */
  function Collected<T>(fetch: nat -> Result<Page<T>>, n: nat): seq<T> {
    if n == 0 then []
    else Collected(fetch, n - 1) + if fetch(n - 1).Ok? then fetch(n - 1).value.items else []
  }

  /** Pages 0 to n - 1 arrived and each links to the next. */
  ghost predicate Linked<T>(fetch: nat -> Result<Page<T>>, n: nat) {
    forall k: nat :: k < n ==> fetch(k).Ok? && fetch(k).value.hasNext
  }

  /** As far as a cap on pages lets one look, the listing has n pages and all of them arrive. */
  ghost predicate Listing<T>(fetch: nat -> Result<Page<T>>, n: nat, cap: nat) {
    && 1 <= n <= cap
    && Linked(fetch, n - 1)
    && fetch(n - 1).Ok?
    && (n == cap || !fetch(n - 1).value.hasNext)
  }

  lemma {:induction false} CollectedGrows<T>(fetch: nat -> Result<Page<T>>, m: nat, n: nat)
    requires m <= n
    ensures Collected(fetch, m) <= Collected(fetch, n)
    decreases n
  {
    if m < n {
      CollectedGrows(fetch, m, n - 1);
    }
  }
}
