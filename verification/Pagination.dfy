/** Cursor pagination of the token price list, and a client that follows the cursors. */
module Pagination {
  import opened Wrappers

  datatype Token = Token(contractAddress: string, price: int)

  /** `total` is the length of the whole list. */
  datatype Page = Page(items: seq<Token>, nextCursor: Option<string>, hasMore: bool, total: nat)

  // ------------------------------------------------------------- one page

  /** The index of the first token with the address, or the list's length. */
  function FindIndex(list: seq<Token>, address: string): (i: nat)
    ensures i <= |list|
    ensures i < |list| ==> list[i].contractAddress == address
    ensures forall j :: 0 <= j < i ==> list[j].contractAddress != address
  {
    if list == [] || list[0].contractAddress == address then 0 else 1 + FindIndex(list[1..], address)
  }

  /** An empty cursor is falsy, and an unknown one starts over. */
  function StartIndex(list: seq<Token>, cursor: Option<string>): (start: nat)
    ensures start <= |list|
  {
    if cursor.Some? && cursor.value != [] && FindIndex(list, cursor.value) < |list|
    then FindIndex(list, cursor.value) + 1
    else 0
  }

  function GetNextCursor(items: seq<Token>, totalItems: nat, startIndex: nat, perPage: nat): Option<string>
    requires perPage > 0
  {
    if |items| == perPage && startIndex + perPage < totalItems
    then Some(items[|items| - 1].contractAddress)
    else None
  }

  /** One answer of the list endpoint; a missing or zero page size means the default. */
  function PageAt(list: seq<Token>, cursor: Option<string>, perPage: nat): Page
    requires perPage > 0
  {
    var start := StartIndex(list, cursor);
    var end := start + perPage;
    var items := list[start..if end < |list| then end else |list|];
    Page(items, GetNextCursor(items, |list|, start, perPage), end < |list|, |list|)
  }

  /** The list endpoint: without any option the whole list is one page. */
  function ListTokens(list: seq<Token>, cursor: Option<string>, perPage: Option<nat>, defaultSize: nat): Page
    requires defaultSize > 0
  {
    if cursor.None? && perPage.None? then Page(list, None, false, |list|)
    else PageAt(list, cursor, if perPage.Some? && perPage.value > 0 then perPage.value else defaultSize)
  }

  /** A page has a next cursor exactly when it says there is more, on any list. */
  lemma NextCursorIffHasMore(list: seq<Token>, cursor: Option<string>, perPage: Option<nat>, defaultSize: nat)
    requires defaultSize > 0
    ensures var page := ListTokens(list, cursor, perPage, defaultSize);
      && (page.nextCursor.Some? <==> page.hasMore)
      && (page.hasMore ==> page.items != [] && page.nextCursor.value == page.items[|page.items| - 1].contractAddress)
  {
  }

  /** What the list endpoint answers: the whole list if no option is given; else the
      items after the first token with the cursor's address, or from the start if the
      cursor is missing, empty or unknown, as many as the page size allows. */
  lemma AnswerIs(list: seq<Token>, cursor: Option<string>, perPage: Option<nat>, defaultSize: nat, start: nat)
    requires defaultSize > 0 && start <= |list|
    requires if cursor.None? || cursor.value == [] || !Known(list, cursor.value) then start == 0
             else start > 0 && FirstAt(list, start - 1, cursor.value)
    ensures var page := ListTokens(list, cursor, perPage, defaultSize);
      var size := if perPage.Some? && perPage.value > 0 then perPage.value else defaultSize;
      && page.total == |list|
      && (cursor.None? && perPage.None? ==> page.items == list && !page.hasMore)
      && (cursor.Some? || perPage.Some? ==>
            && page.items == list[start..if start + size < |list| then start + size else |list|]
            && (page.hasMore <==> start + size < |list|))
  {
  }

  ghost predicate FirstAt(list: seq<Token>, i: nat, address: string) {
    i < |list| && list[i].contractAddress == address && forall j :: 0 <= j < i ==> list[j].contractAddress != address
  }

  /** Some token of the list has the address. */
  ghost predicate Known(list: seq<Token>, address: string) {
    exists i :: 0 <= i < |list| && list[i].contractAddress == address
  }

  // ------------------------------------------------------------- the walk

  /** The token's own address leads back to it. */
  predicate Findable(list: seq<Token>, i: nat)
    requires i < |list|
  {
    list[i].contractAddress != [] && FindIndex(list, list[i].contractAddress) == i
  }

  /** Every page end that still has a successor leads on from where it stands. */
  predicate EndsFindable(list: seq<Token>, start: nat, perPage: nat)
    requires perPage > 0
    decreases |list| - start
  {
    start + perPage < |list| ==> Findable(list, start + perPage - 1) && EndsFindable(list, start + perPage, perPage)
  }

  /** The next cursor leads to the very next item exactly if the page's last token
      is findable, and otherwise back to an item of this page or before it. */
  lemma CursorAdvancesIff(list: seq<Token>, cursor: Option<string>, perPage: nat)
    requires perPage > 0 && PageAt(list, cursor, perPage).nextCursor.Some?
    ensures var start, next := StartIndex(list, cursor), StartIndex(list, PageAt(list, cursor, perPage).nextCursor);
      && start + perPage < |list|
      && (next == start + perPage <==> Findable(list, start + perPage - 1))
      && next <= start + perPage
  {
    var last := StartIndex(list, cursor) + perPage - 1;
    assert PageAt(list, cursor, perPage).nextCursor.value == list[last].contractAddress;
  }

  /** The pages a client gets that follows the cursors from `cursor` until a page has none. */
  predicate IsWalk(list: seq<Token>, cursor: Option<string>, perPage: nat, pages: seq<Page>)
    requires perPage > 0
    decreases |pages|
  {
    && pages != [] && pages[0] == PageAt(list, cursor, perPage)
    && if pages[0].nextCursor.None? then |pages| == 1
       else IsWalk(list, pages[0].nextCursor, perPage, pages[1..])
  }

  function AllItems(pages: seq<Page>): seq<Token> {
    if pages == [] then [] else pages[0].items + AllItems(pages[1..])
  }

  lemma PageSplitsList(list: seq<Token>, cursor: Option<string>, perPage: nat)
    requires perPage > 0
    ensures var page, start := PageAt(list, cursor, perPage), StartIndex(list, cursor);
      if page.nextCursor.Some? then
        start + perPage <= |list| && list[start..] == page.items + list[start + perPage..]
      else list[start..] == page.items
  {
  }

  lemma PageLength(list: seq<Token>, cursor: Option<string>, perPage: nat)
    requires perPage > 0
    ensures var page, start := PageAt(list, cursor, perPage), StartIndex(list, cursor);
      if page.nextCursor.Some? then |page.items| == perPage
      else |page.items| == |list| - start && |list| <= start + perPage
  {
  }

  /** A walk that ends has listed at least as many items as it should have, and the
      right number only if every page end led on. */
  lemma {:induction false} WalkNeverSkips(list: seq<Token>, cursor: Option<string>, perPage: nat, pages: seq<Page>)
    requires perPage > 0 && IsWalk(list, cursor, perPage, pages)
    ensures var listed, left := |AllItems(pages)|, |list| - StartIndex(list, cursor);
      listed >= left && (listed == left ==> EndsFindable(list, StartIndex(list, cursor), perPage))
    decreases |pages|
  {
    PageLength(list, cursor, perPage);
    if pages[0].nextCursor.Some? {
      CursorAdvancesIff(list, cursor, perPage);
      WalkNeverSkips(list, pages[0].nextCursor, perPage, pages[1..]);
    }
  }

  /** A step of a walk whose page ends all lead on. */
  lemma NextPage(list: seq<Token>, cursor: Option<string>, perPage: nat)
    requires perPage > 0 && EndsFindable(list, StartIndex(list, cursor), perPage)
    ensures var next, start := PageAt(list, cursor, perPage).nextCursor, StartIndex(list, cursor);
      if next.None? then |list| <= start + perPage
      else StartIndex(list, next) == start + perPage < |list| && EndsFindable(list, StartIndex(list, next), perPage)
  {
    if PageAt(list, cursor, perPage).nextCursor.Some? {
      CursorAdvancesIff(list, cursor, perPage);
    }
  }

  lemma {:induction false} WalkCovers(list: seq<Token>, cursor: Option<string>, perPage: nat, pages: seq<Page>)
    requires perPage > 0 && EndsFindable(list, StartIndex(list, cursor), perPage)
    requires IsWalk(list, cursor, perPage, pages)
    ensures AllItems(pages) == list[StartIndex(list, cursor)..]
    decreases |pages|
  {
    NextPage(list, cursor, perPage);
    PageSplitsList(list, cursor, perPage);
    if pages[0].nextCursor.Some? {
      WalkCovers(list, pages[0].nextCursor, perPage, pages[1..]);
    } else {
      assert AllItems(pages[1..]) == [];
    }
  }

  /** `n` pages hold `left` items, and one page fewer would not, unless it is none. */
  predicate Fits(left: int, n: nat, perPage: nat) {
    left <= n * perPage && (n > 1 ==> (n - 1) * perPage < left)
  }

  lemma OnePageMore(left: int, n: nat, perPage: nat)
    requires left > perPage > 0 && n > 0
    ensures Fits(left, n + 1, perPage) <==> Fits(left - perPage, n, perPage)
  {
    PagesProduct(n, perPage);
  }

  lemma {:induction false} WalkCounts(list: seq<Token>, cursor: Option<string>, perPage: nat, pages: seq<Page>)
    requires perPage > 0 && EndsFindable(list, StartIndex(list, cursor), perPage)
    requires IsWalk(list, cursor, perPage, pages)
    ensures Fits(|list| - StartIndex(list, cursor), |pages|, perPage)
    decreases |pages|
  {
    NextPage(list, cursor, perPage);
    if pages[0].nextCursor.Some? {
      WalkCounts(list, pages[0].nextCursor, perPage, pages[1..]);
      OnePageMore(|list| - StartIndex(list, cursor), |pages| - 1, perPage);
    } else {
      assert 1 * perPage == perPage;
    }
  }

  lemma {:induction false} WalkEnds(list: seq<Token>, cursor: Option<string>, perPage: nat) returns (pages: seq<Page>)
    requires perPage > 0 && EndsFindable(list, StartIndex(list, cursor), perPage)
    ensures IsWalk(list, cursor, perPage, pages)
    decreases |list| - StartIndex(list, cursor)
  {
    NextPage(list, cursor, perPage);
    var page := PageAt(list, cursor, perPage);
    pages := [page];
    if page.nextCursor.Some? {
      var rest := WalkEnds(list, page.nextCursor, perPage);
      pages := [page] + rest;
      assert pages[1..] == rest;
    }
  }

  lemma PagesProduct(n: nat, perPage: nat)
    ensures (n + 1) * perPage == n * perPage + perPage
    ensures (n - 1) * perPage == n * perPage - perPage
  {
  }

  /** On any list and from any cursor: the walk ends, having listed everything from
      its start once and in order, if and only if every page end with a successor
      has a non-empty address that no earlier token has. */
  lemma WalkListsEverythingIff(list: seq<Token>, cursor: Option<string>, perPage: nat)
    requires perPage > 0
    ensures (exists pages :: IsWalk(list, cursor, perPage, pages)
                             && AllItems(pages) == list[StartIndex(list, cursor)..])
       <==> EndsFindable(list, StartIndex(list, cursor), perPage)
  {
    if EndsFindable(list, StartIndex(list, cursor), perPage) {
      var pages := WalkEnds(list, cursor, perPage);
      WalkCovers(list, cursor, perPage, pages);
    }
    if pages :| IsWalk(list, cursor, perPage, pages) && AllItems(pages) == list[StartIndex(list, cursor)..] {
      WalkNeverSkips(list, cursor, perPage, pages);
    }
  }

  ghost predicate DistinctAddresses(list: seq<Token>) {
    && (forall i :: 0 <= i < |list| ==> list[i].contractAddress != [])
    && (forall i, j :: 0 <= i < j < |list| ==> list[i].contractAddress != list[j].contractAddress)
  }

  lemma {:induction false} DistinctIsFindable(list: seq<Token>, start: nat, perPage: nat)
    requires perPage > 0 && DistinctAddresses(list)
    ensures EndsFindable(list, start, perPage)
    decreases |list| - start
  {
    if start + perPage < |list| {
      assert FindIndex(list, list[start + perPage - 1].contractAddress) == start + perPage - 1;
      DistinctIsFindable(list, start + perPage, perPage);
    }
  }

  lemma {:induction false} WalksAgree(list: seq<Token>, cursor: Option<string>, perPage: nat,
                                      a: seq<Page>, b: seq<Page>)
    requires perPage > 0 && IsWalk(list, cursor, perPage, a) && IsWalk(list, cursor, perPage, b)
    ensures a == b
    decreases |a|
  {
    if a[0].nextCursor.Some? {
      WalksAgree(list, a[0].nextCursor, perPage, a[1..], b[1..]);
      assert a == [a[0]] + a[1..] && b == [b[0]] + b[1..];
    }
  }

  /** A list with distinct non-empty addresses: following the cursors from the start
      ends, and lists it in as few pages as the page size allows, but at least one. */
  lemma WalkListsEverything(list: seq<Token>, perPage: nat) returns (pages: seq<Page>)
    requires perPage > 0 && DistinctAddresses(list)
    ensures IsWalk(list, None, perPage, pages)
    ensures forall other :: IsWalk(list, None, perPage, other) ==> other == pages
    ensures AllItems(pages) == list && Fits(|list|, |pages|, perPage)
  {
    DistinctIsFindable(list, 0, perPage);
    pages := WalkEnds(list, None, perPage);
    WalkCounts(list, None, perPage, pages);
    WalkCovers(list, None, perPage, pages);
    assert list[0..] == list;
    forall other | IsWalk(list, None, perPage, other)
      ensures other == pages
    {
      WalksAgree(list, None, perPage, other, pages);
    }
  }

  /** With a repeated address a client can run in a circle: from no cursor at all it
      gets page after page, and none of them is the last. */
  lemma RepeatedAddressLoops(a: Token, b: Token, c: Token, pages: seq<Page>)
    requires a.contractAddress != [] && b.contractAddress != [] && a.contractAddress != b.contractAddress
    ensures !IsWalk([a, b, a, c], None, 1, pages)
  {
    var list := [a, b, a, c];
    assert PageAt(list, None, 1).nextCursor == Some(a.contractAddress);
    if pages != [] {
      CircleNeverEnds(a, b, c, pages[1..]);
    }
  }

  lemma {:induction false} CircleNeverEnds(a: Token, b: Token, c: Token, pages: seq<Page>)
    requires a.contractAddress != [] && b.contractAddress != [] && a.contractAddress != b.contractAddress
    ensures !IsWalk([a, b, a, c], Some(a.contractAddress), 1, pages)
    ensures !IsWalk([a, b, a, c], Some(b.contractAddress), 1, pages)
    decreases |pages|
  {
    var list := [a, b, a, c];
    assert FindIndex(list, a.contractAddress) == 0;
    assert list[1].contractAddress == b.contractAddress;
    assert FindIndex(list, b.contractAddress) == 1;
    if pages != [] {
      CircleNeverEnds(a, b, c, pages[1..]);
    }
  }

  // ------------------------------------------------------- the requested tokens

  function Filtered(prices: map<string, Token>, addresses: seq<string>): seq<Token> {
    if addresses == [] then []
    else
      var n := |addresses| - 1;
      var before := Filtered(prices, addresses[..n]);
      if addresses[n] in prices then before + [prices[addresses[n]]] else before
  }

  method GetFilteredTokens(prices: map<string, Token>, all: seq<Token>, contractAddresses: seq<string>)
    returns (tokens: seq<Token>)
    ensures tokens == if contractAddresses == [] then all else Filtered(prices, contractAddresses)
  {
    if |contractAddresses| == 0 {
      return all;
    }
    tokens := [];
    for i := 0 to |contractAddresses|
      invariant tokens == Filtered(prices, contractAddresses[..i])
    {
      assert contractAddresses[..i + 1][..i] == contractAddresses[..i];
      if contractAddresses[i] in prices {
        tokens := tokens + [prices[contractAddresses[i]]];
      }
    }
    assert contractAddresses[..|contractAddresses|] == contractAddresses;
  }

  ghost predicate KeyedByAddress(prices: map<string, Token>) {
    forall k :: k in prices ==> prices[k].contractAddress == k && k != []
  }

  /** The known addresses of a request, each asked for once. */
  ghost predicate NoRepeats(prices: map<string, Token>, addresses: seq<string>) {
    forall i, j :: 0 <= i < j < |addresses| && addresses[i] in prices ==> addresses[i] != addresses[j]
  }

  lemma ListsAppend(tokens: seq<Token>, t: Token, a: string)
    ensures Known(tokens + [t], a) <==> Known(tokens, a) || t.contractAddress == a
  {
    var all := tokens + [t];
    assert all[|tokens|] == t;
    assert forall i :: 0 <= i < |tokens| ==> all[i] == tokens[i];
  }

  /** The filter goes through the request in order: each known address yields its
      token, each unknown one nothing. */
  lemma {:induction false} FilteredInOrder(prices: map<string, Token>, a: seq<string>, b: seq<string>)
    ensures Filtered(prices, a + b) == Filtered(prices, a) + Filtered(prices, b)
    ensures |b| == 1 ==> Filtered(prices, b) == if b[0] in prices then [prices[b[0]]] else []
  {
    if b == [] {
      assert a + b == a;
    } else {
      var n := |b| - 1;
      assert (a + b)[..|a + b| - 1] == a + b[..n];
      FilteredInOrder(prices, a, b[..n]);
    }
  }

  lemma {:induction false} FilteredMembers(prices: map<string, Token>, addresses: seq<string>, a: string)
    requires KeyedByAddress(prices)
    ensures Known(Filtered(prices, addresses), a) <==> a in prices && a in addresses
    ensures forall i :: 0 <= i < |Filtered(prices, addresses)| ==> Filtered(prices, addresses)[i].contractAddress != []
  {
    if addresses != [] {
      var n := |addresses| - 1;
      FilteredMembers(prices, addresses[..n], a);
      assert addresses == addresses[..n] + [addresses[n]];
      if addresses[n] in prices {
        ListsAppend(Filtered(prices, addresses[..n]), prices[addresses[n]], a);
      }
    }
  }

  /** A filtered list can be walked exactly when no known address is requested twice. */
  lemma {:induction false} FilteredDistinctIff(prices: map<string, Token>, addresses: seq<string>)
    requires KeyedByAddress(prices)
    ensures DistinctAddresses(Filtered(prices, addresses)) <==> NoRepeats(prices, addresses)
  {
    if addresses != [] {
      var n := |addresses| - 1;
      var before, a := addresses[..n], addresses[n];
      var f, g := Filtered(prices, before), Filtered(prices, addresses);
      FilteredDistinctIff(prices, before);
      FilteredMembers(prices, before, a);
      assert forall i :: 0 <= i < |f| ==> g[i] == f[i];
      assert forall i :: 0 <= i < n ==> before[i] == addresses[i];
      if a in prices {
        assert g[|f|].contractAddress == a;
        if a in before {
          var i :| 0 <= i < n && before[i] == a;
          assert addresses[i] == addresses[n];
          assert Known(f, a);
          var k :| 0 <= k < |f| && f[k].contractAddress == a;
          assert g[k].contractAddress == g[|f|].contractAddress;
        }
      }
    }
  }
}
