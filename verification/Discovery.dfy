/** Paged discovery, `collectPages` and the per-kind shape of `discoverMcpServer` in `src/ai/mcp/client.ts`. */
module Discovery {
  import opened Prelude

  /** A column value; a schema hash determines the schemas it was computed from. */
  datatype Value = Text(text: string) | Digest(input: Value, output: Option<Value>)

  /** One listed entry: its key and the columns it has a value for. */
  datatype Descriptor = Descriptor(key: string, columns: map<string, Value>)

  datatype Page = Page(items: seq<Descriptor>, next: Option<string>)

  datatype Response = Got(page: Page) | Thrown

  /** A remote listing: what the n-th request answers when it is made with a given cursor. */
  type Server = (nat, Option<string>) -> Response

  const MAX_PAGES := 250

  /** `pages` is everything the server has to list: it answers the requests, each made with the cursor of the page
      before
      it, with these pages; every page but the last has a cursor that is a non-empty text, and the last has none or the
      empty text. */
  ghost predicate WholeListing(server: Server, pages: seq<Page>) {
    && pages != []
    && (forall i :: 0 <= i < |pages| ==> server(i, if i == 0 then None else pages[i - 1].next) == Got(pages[i]))
    && (forall i :: 0 <= i < |pages| - 1 ==> pages[i].next.Some? && |pages[i].next.value| > 0)
    && pages[|pages| - 1].next in {None, Some("")}
  }

  /** A page is followed by another iff its cursor is a string that is not empty. */
  predicate More(page: Page) {
    page.next.Some? && page.next.value != ""
  }

  /** The cursor the i-th request is made with. */
  function Cursor(pages: seq<Page>, i: nat): Option<string>
    requires i <= |pages|
  {
    if i == 0 then None else pages[i - 1].next
  }

  /** The i-th page is what the server answered, and its predecessor announced it. */
  ghost predicate Answered(server: Server, pages: seq<Page>, i: nat)
    requires i < |pages|
  {
    server(i, Cursor(pages, i)) == Got(pages[i]) && (i > 0 ==> More(pages[i - 1]))
  }

  ghost predicate Chain(server: Server, pages: seq<Page>) {
    forall i :: 0 <= i < |pages| ==> Answered(server, pages, i)
  }

  lemma ChainedIff(server: Server, pages: seq<Page>)
    ensures WholeListing(server, pages) <==> pages != [] && Chain(server, pages) && !More(pages[|pages| - 1])
  {
    if WholeListing(server, pages) {
      forall i | 0 <= i < |pages| ensures Answered(server, pages, i) {
      }
    }
    if pages != [] && Chain(server, pages) && !More(pages[|pages| - 1]) {
      forall i | 0 <= i < |pages| ensures server(i, if i == 0 then None else pages[i - 1].next) == Got(pages[i]) {
        assert Answered(server, pages, i);
      }
      forall i | 0 <= i < |pages| - 1 ensures pages[i].next.Some? && |pages[i].next.value| > 0 {
        assert Answered(server, pages, i + 1);
      }
    }
  }

  /** The whole listing takes more than `most` pages, or there is none. */
  ghost predicate NoListingWithin(server: Server, most: nat) {
    forall pages :: WholeListing(server, pages) ==> |pages| > most
  }

  /** These are the items of the whole listing, which has so many pages. */
  ghost predicate IsListing(server: Server, items: seq<Descriptor>, count: nat) {
    exists pages :: WholeListing(server, pages) && |pages| == count && items == Items(pages)
  }

  function Items(pages: seq<Page>): seq<Descriptor> {
    if pages == [] then [] else Items(pages[..|pages| - 1]) + pages[|pages| - 1].items
  }

  /** These pages have been read, and the last of them announces another. */
  ghost predicate Reading(server: Server, seen: seq<Page>) {
    Chain(server, seen) && (seen != [] ==> More(seen[|seen| - 1]))
  }

  /** What has been read of a listing so far is a beginning of it. */
  lemma {:induction false} ReadSoFar(server: Server, seen: seq<Page>, pages: seq<Page>, n: nat)
    requires Reading(server, seen) && WholeListing(server, pages)
    requires n <= |seen|
    ensures n < |pages| && pages[..n] == seen[..n]
  {
    ChainedIff(server, pages);
    if n > 0 {
      ReadSoFar(server, seen, pages, n - 1);
      assert Answered(server, seen, n - 1) && Answered(server, pages, n - 1);
      assert n > 1 ==> pages[..n - 1][n - 2] == seen[..n - 1][n - 2];
      assert pages[n - 1] == seen[n - 1];
      assert pages[..n] == pages[..n - 1] + [pages[n - 1]];
      if n < |seen| {
        assert Answered(server, seen, n);
      }
    }
  }

  lemma NextRequest(server: Server, seen: seq<Page>, pages: seq<Page>)
    requires Reading(server, seen) && WholeListing(server, pages)
    ensures |seen| < |pages| && server(|seen|, Cursor(seen, |seen|)).Got?
  {
    ReadSoFar(server, seen, pages, |seen|);
    ChainedIff(server, pages);
    assert Answered(server, pages, |seen|);
    assert seen != [] ==> pages[..|seen|][|seen| - 1] == seen[|seen| - 1];
  }

  lemma BrokenListing(server: Server, seen: seq<Page>)
    requires Reading(server, seen)
    requires server(|seen|, Cursor(seen, |seen|)).Thrown?
    ensures NoListingWithin(server, MAX_PAGES)
  {
    forall pages ensures !WholeListing(server, pages) {
      if WholeListing(server, pages) {
        NextRequest(server, seen, pages);
      }
    }
  }

  lemma LongListing(server: Server, seen: seq<Page>)
    requires Reading(server, seen)
    ensures NoListingWithin(server, |seen|)
  {
    forall pages | WholeListing(server, pages) ensures |pages| > |seen| {
      NextRequest(server, seen, pages);
    }
  }

  lemma ChainNext(server: Server, seen: seq<Page>, page: Page)
    requires Reading(server, seen) && server(|seen|, Cursor(seen, |seen|)) == Got(page)
    ensures Chain(server, seen + [page])
  {
    var more := seen + [page];
    forall i | 0 <= i < |more| ensures Answered(server, more, i) {
      assert i < |seen| ==> Answered(server, seen, i);
      assert i > 0 ==> more[i - 1] == seen[i - 1];
    }
  }

  lemma ItemsNext(seen: seq<Page>, page: Page)
    ensures Items(seen + [page]) == Items(seen) + page.items
  {
    assert (seen + [page])[..|seen|] == seen;
  }

  lemma OneMorePage(server: Server, seen: seq<Page>, page: Page)
    requires Reading(server, seen) && server(|seen|, Cursor(seen, |seen|)) == Got(page)
    ensures Cursor(seen + [page], |seen| + 1) == page.next
    ensures if More(page) then Reading(server, seen + [page]) else IsListing(server, Items(seen + [page]), |seen| + 1)
  {
    ChainNext(server, seen, page);
    ChainedIff(server, seen + [page]);
  }

  /** One request; the pages read so far are `seen`, a failed request leaves none. */
  method Fetch(server: Server, request: nat, cursor: Option<string>, collected: seq<Descriptor>, ghost seen: seq<Page>)
    returns (page: Option<Page>, ghost more: seq<Page>)
    requires Reading(server, seen) && request == |seen| && cursor == Cursor(seen, |seen|) && collected == Items(seen)
    ensures page.None? ==> NoListingWithin(server, MAX_PAGES)
    ensures page.Some? ==>
              && |more| == request + 1 && page.value.next == Cursor(more, |more|)
              && collected + page.value.items == Items(more)
              && if More(page.value) then Reading(server, more) else IsListing(server, Items(more), |more|)
  {
    var response := server(request, cursor);
    if response.Thrown? {
      BrokenListing(server, seen);
      return None, seen;
    }
    OneMorePage(server, seen, response.page);
    ItemsNext(seen, response.page);
    return Some(response.page), seen + [response.page];
  }

  method CollectPages(server: Server) returns (items: Option<seq<Descriptor>>, fetches: nat)
    ensures fetches <= 250
    // a result is the whole listing in order, and there is one iff the listing is whole within the page limit
    ensures items.Some? ==> IsListing(server, items.value, fetches)
    ensures items.None? ==> NoListingWithin(server, 250)
  {
    var collected: seq<Descriptor> := [];
    var cursor: Option<string> := None;
    fetches := 0;
    ghost var seen: seq<Page> := [];
    while true
      invariant fetches == |seen| < MAX_PAGES && Reading(server, seen) && cursor == Cursor(seen, |seen|)
      invariant collected == Items(seen)
      decreases MAX_PAGES - fetches
    {
      var page, more := Fetch(server, fetches, cursor, collected, seen);
      fetches := fetches + 1;
      if page.None? {
        return None, fetches;
      }
      collected := collected + page.value.items;
      cursor := page.value.next;
      seen := more;
      if cursor.None? || cursor.value == "" {
        return Some(collected), fetches;
      }
      if fetches >= MAX_PAGES {
        LongListing(server, seen);
        return None, fetches;
      }
    }
  }

  // ---- What a listing is, answer by answer

  /** The items are those of all pages, in order. */
  lemma {:induction false} ItemAt(pages: seq<Page>, i: nat, j: nat) returns (n: nat)
    requires i < |pages| && j < |pages[i].items|
    ensures n < |Items(pages)| && Items(pages)[n] == pages[i].items[j]
    ensures n == |Items(pages[..i])| + j
  {
    var last := |pages| - 1;
    if i == last {
      n := |Items(pages[..last])| + j;
    } else {
      assert pages[..last][..i] == pages[..i];
      n := ItemAt(pages[..last], i, j);
    }
  }

  /** Where the answers so far each announce another page, no listing has ended, and a request that fails then leaves
      none at all. */
  lemma NoEarlyEnd(server: Server, answers: seq<Page>, items: seq<Descriptor>, count: nat)
    requires forall i :: 0 <= i < |answers| ==>
               && server(i, if i == 0 then None else answers[i - 1].next) == Got(answers[i])
               && answers[i].next.Some? && |answers[i].next.value| > 0
    requires IsListing(server, items, count)
    ensures count > |answers|
    ensures server(|answers|, if answers == [] then None else answers[|answers| - 1].next).Got?
  {
    forall i | 0 <= i < |answers| ensures Answered(server, answers, i) {
    }
    var pages :| WholeListing(server, pages) && |pages| == count && items == Items(pages);
    NextRequest(server, answers, pages);
  }

  /** What one kind of catalog entry comes back with: its items, or none and the kind's error flag. */
  datatype Found = Found(items: seq<Descriptor>, failed: bool)

  /** A kind that is not offered has nothing; a kind that is offered comes back with its whole listing, or flagged and
      empty, and flagged exactly when there is no whole listing within the page limit. */
  ghost predicate FoundOn(advertised: bool, server: Server, found: Found) {
    && (!advertised ==> found == Found([], false))
    && (found.failed ==> found.items == [])
    && (advertised && !found.failed ==>
        exists count: nat :: count <= 250 && IsListing(server, found.items, count))
    && (found.failed <==> advertised && NoListingWithin(server, 250))
  }

  method Discover(advertised: bool, server: Server) returns (found: Found)
    ensures FoundOn(advertised, server, found)
  {
    if !advertised {
      return Found([], false);
    }
    var items, fetches := CollectPages(server);
    found := if items.Some? then Found(items.value, false) else Found([], true);
  }
}
