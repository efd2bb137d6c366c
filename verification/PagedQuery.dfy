/** The paged collection read behind every store's list: pages of a fixed size, each
    query starting after the last document of the page before. */
module PagedQuery {
  import opened Wrappers

  /** Documents come back ordered by `name`. */
  datatype Document<+T> = Document(name: int, data: T)

  ghost predicate NameOrdered<T(!new)>(docs: seq<Document<T>>) {
    forall i, j :: 0 <= i < j < |docs| ==> docs[i].name < docs[j].name
  }

  /** `orderBy(name).startAfter(last).limit(size)`. */
  function Query<T>(docs: seq<Document<T>>, startAfter: Option<int>, size: nat): seq<Document<T>> {
    if docs == [] || size == 0 then []
    else if startAfter.Some? && docs[0].name <= startAfter.value then Query(docs[1..], startAfter, size)
    else [docs[0]] + Query(docs[1..], startAfter, size - 1)
  }

  predicate Behind<T>(d: Document<T>, startAfter: Option<int>) {
    startAfter.Some? && d.name <= startAfter.value
  }

  ghost predicate StartsAt<T(!new)>(docs: seq<Document<T>>, startAfter: Option<int>, k: nat) {
    k <= |docs| && forall i :: 0 <= i < |docs| ==> (Behind(docs[i], startAfter) <==> i < k)
  }

  lemma StartsAtTail<T(!new)>(docs: seq<Document<T>>, startAfter: Option<int>, k: nat)
    requires docs != [] && StartsAt(docs, startAfter, k)
    ensures StartsAt(docs[1..], startAfter, if k > 0 then k - 1 else 0)
  {
    var rest := docs[1..];
    forall i | 0 <= i < |rest|
      ensures Behind(rest[i], startAfter) <==> i < (if k > 0 then k - 1 else 0)
    {
      assert rest[i] == docs[i + 1];
    }
  }

  lemma {:induction false} QueryIsSlice<T(!new)>(docs: seq<Document<T>>, startAfter: Option<int>, size: nat, k: nat)
    requires StartsAt(docs, startAfter, k)
    ensures Query(docs, startAfter, size) == docs[k..if k + size < |docs| then k + size else |docs|]
    decreases |docs|
  {
    if docs != [] && size > 0 {
      var rest, end := docs[1..], if k + size < |docs| then k + size else |docs|;
      assert Behind(docs[0], startAfter) <==> 0 < k;
      StartsAtTail(docs, startAfter, k);
      if k > 0 {
        QueryIsSlice(rest, startAfter, size, k - 1);
        assert rest[k - 1..end - 1] == docs[k..end];
      } else {
        QueryIsSlice(rest, startAfter, size - 1, 0);
        assert [docs[0]] + rest[0..end - 1] == docs[0..end];
      }
    }
  }

  /** The page after the first `n` documents. */
  lemma PageAfter<T(!new)>(docs: seq<Document<T>>, n: nat, startAfter: Option<int>, size: nat)
    requires NameOrdered(docs) && n <= |docs|
    requires startAfter == if n == 0 then None else Some(docs[n - 1].name)
    ensures Query(docs, startAfter, size) == docs[n..if n + size < |docs| then n + size else |docs|]
  {
    assert StartsAt(docs, startAfter, n);
    QueryIsSlice(docs, startAfter, size, n);
  }

  /** How many queries read `n` documents: full pages, and one that is not full. */
  function PageCount(n: nat, pageSize: nat): nat
    requires pageSize > 0
    decreases n
  {
    if n < pageSize then 1 else 1 + PageCount(n - pageSize, pageSize)
  }

  /** The pages together are the whole collection, in order; a full last page costs
      one more, empty, query. */
  method ListAll<T(!new)>(docs: seq<Document<T>>, pageSize: nat) returns (allItems: seq<Document<T>>, queries: nat)
    requires pageSize > 0 && NameOrdered(docs)
    ensures allItems == docs
    ensures queries == PageCount(|docs|, pageSize)
  {
    allItems := [];
    queries := 0;
    var lastDoc: Option<int> := None;
    var more := true;
    ghost var n: nat := 0;
    while more
      invariant n <= |docs| && allItems == docs[..n]
      invariant more ==> lastDoc == if n == 0 then None else Some(docs[n - 1].name)
      invariant more ==> PageCount(|docs| - n, pageSize) + queries == PageCount(|docs|, pageSize)
      invariant !more ==> n == |docs| && queries == PageCount(|docs|, pageSize)
      decreases more, |docs| - n
    {
      PageAfter(docs, n, lastDoc, pageSize);
      var snapshot := Query(docs, lastDoc, pageSize);
      allItems := allItems + snapshot;
      queries := queries + 1;
      if |snapshot| < pageSize {
        more := false;
      } else {
        lastDoc := Some(snapshot[|snapshot| - 1].name);
      }
      n := n + |snapshot|;
    }
  }

  lemma {:induction false} PageCountIs(n: nat, pageSize: nat)
    requires pageSize > 0
    ensures (PageCount(n, pageSize) - 1) * pageSize <= n < PageCount(n, pageSize) * pageSize
    decreases n
  {
    if n >= pageSize {
      PageCountIs(n - pageSize, pageSize);
      var c := PageCount(n - pageSize, pageSize);
      assert (c + 1) * pageSize == c * pageSize + pageSize;
      assert (c - 1) * pageSize == c * pageSize - pageSize;
    }
  }
}
