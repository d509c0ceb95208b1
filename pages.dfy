/** The pagination loop both scripts share, `while (true) { updates = await
    getNextPage(); if (!updates.length) break; ... }`, seen from outside: the
    successive results of `getNextPage` form a sequence of pages, and the loop
    consumes them up to the first one that is empty or thrown. */
module Pages {
  import opened Values
  import opened Records

  /** One `getNextPage` result: the page's updates, or the error it threw. */
  type Page = Result<seq<Update>, Failure>

  /** A page that ends the loop: thrown, or empty. */
  predicate Stops(p: Page)
  {
    p.Err? || p.value == []
  }

  /** The sequence holds a page that ends the loop (the history is finite and
      the fetches eventually fail or run dry). */
  predicate HasStop(pages: seq<Page>)
  {
    exists i :: 0 <= i < |pages| && Stops(pages[i])
  }

  /** The index of the page that ends the loop. */
  function StopIndex(pages: seq<Page>): (n: nat)
    requires HasStop(pages)
    ensures n < |pages| && Stops(pages[n])
    ensures forall i :: 0 <= i < n ==> !Stops(pages[i])
  {
    if Stops(pages[0]) then 0
    else
      assert HasStop(pages[1..]) by {
        var i :| 0 <= i < |pages| && Stops(pages[i]);
        assert pages[1..][i - 1] == pages[i];
      }
      1 + StopIndex(pages[1..])
  }

  /** The updates of the given pages, page after page; a thrown page holds none. */
  function Flatten(pages: seq<Page>): seq<Update>
  {
    if pages == [] then []
    else
      var last := pages[|pages| - 1];
      Flatten(pages[..|pages| - 1]) + (if last.Ok? then last.value else [])
  }

  /** Every update the loop receives before it stops, in fetch order. */
  function Fetched(pages: seq<Page>): seq<Update>
    requires HasStop(pages)
  {
    Flatten(pages[..StopIndex(pages)])
  }

  /** Adding one more page before the stop appends its updates. */
  lemma FlattenSnoc(pages: seq<Page>, i: nat)
    requires i < |pages| && pages[i].Ok?
    ensures Flatten(pages[..i + 1]) == Flatten(pages[..i]) + pages[i].value
  {
    assert pages[..i + 1][..i] == pages[..i];
  }

  /** An update belongs to the fetched ones exactly when it sits on a page
      before the stop. */
  lemma {:induction false} FetchedMembership(pages: seq<Page>, n: nat, u: Update)
    requires n <= |pages| && forall i :: 0 <= i < n ==> pages[i].Ok?
    ensures u in Flatten(pages[..n]) <==> exists i :: 0 <= i < n && u in pages[i].value
  {
    if n > 0 {
      FetchedMembership(pages, n - 1, u);
      FlattenSnoc(pages, n - 1);
    }
  }

  /** When the first page is empty, nothing is fetched. */
  lemma EmptyFirstPage(pages: seq<Page>)
    requires pages != [] && pages[0] == Ok([])
    ensures HasStop(pages) && Fetched(pages) == []
  {
    assert Stops(pages[0]);
  }

  /** Taking one more update of a page. */
  lemma NextUpdate(done: seq<Update>, updates: seq<Update>, j: nat)
    requires j < |updates|
    ensures done + updates[..j + 1] == (done + updates[..j]) + [updates[j]]
    ensures done + updates[..j + 1] <= done + updates
  {
    assert updates[..j + 1] == updates[..j] + [updates[j]];
  }
}
