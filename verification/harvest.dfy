/**
 The harvesting driver: `main` asks for three pages of results at offsets
 0, 10 and 20, and `searchToS3` gives item `i` of the page at offset `start`
 the storage key of file `start + i`. The image fetches and uploads the
 program starts for each item are represented by the jobs they are given: a
 storage key and the image's link.
 */
module Harvest {
  import opened GoInt
  import opened StorageKey
  import opened Query

  /** One search result; only its link is used. */
  datatype Item = Item(title: string, link: string)

  /** A Go slice of results: its length is a Go `int`. */
  type Items = s: seq<Item> | |s| <= MaxInt64

  /** The decoded body of a search response. */
  datatype Resp = Resp(kind: string, items: Items)

  /**
   What a search request yields: a decoded response, or a transport failure,
   on which the program logs and exits at once.
   */
  datatype Fetch = Response(resp: Resp) | TransportError

  /** The upload started for one result: where it goes and what is fetched. */
  datatype Job = Job(key: string, url: string)

  /** Pages requested per phrase (`main` loops `i` over 0, 1, 2). */
  const PageCount: nat := 3

  /** `jobs` gives item `i` of `items` the key of file `start + i`, as a Go `int` sum. */
  predicate JobsFor(jobs: seq<Job>, text: string, start: Int64, items: Items) {
    && |jobs| == |items|
    && forall i :: 0 <= i < |jobs| ==>
         jobs[i] == Job(OutputPath(text, Wrap(start + i)), items[i].link)
  }

  /** No two jobs of the run share a storage key. */
  predicate KeysDistinct(pages: seq<seq<Job>>) {
    forall p, i, q, j ::
      0 <= p < |pages| && 0 <= i < |pages[p]| && 0 <= q < |pages| && 0 <= j < |pages[q]| && (p != q || i != j)
      ==> pages[p][i].key != pages[q][j].key
  }

  /** The keys `searchToS3` assigns to the items of one page, in item order. */
  method AssignKeys(text: string, start: Int64, items: Items) returns (jobs: seq<Job>)
    ensures JobsFor(jobs, text, start, items)
    ensures forall i, j :: 0 <= i < j < |jobs| ==> jobs[i].key != jobs[j].key
  {
    jobs := [];
    var i := 0;
    while i < |items|
      invariant 0 <= i <= |items|
      invariant |jobs| == i
      invariant forall k :: 0 <= k < i ==> jobs[k] == Job(OutputPath(text, Wrap(start + k)), items[k].link)
    {
      var fileID := Wrap(start + i);
      jobs := jobs + [Job(OutputPath(text, fileID), items[i].link)];
      i := i + 1;
    }
    forall i, j | 0 <= i < j < |jobs|
      ensures jobs[i].key != jobs[j].key
    {
      WrapDistinct(start + i, start + j);
      DistinctIdsDistinctKeys(text, Wrap(start + i), Wrap(start + j));
    }
  }

  /**
   Files of different pages, or different items of one page, get different
   keys as long as no page holds more than `PageSize` items.
   */
  lemma PageKeysDisjoint(text: string, p: nat, i: nat, q: nat, j: nat)
    requires p < PageCount && q < PageCount && i < PageSize && j < PageSize
    requires p != q || i != j
    ensures OutputPath(text, PageSize * p + i) != OutputPath(text, PageSize * q + j)
  {
    assert PageSize * p + i != PageSize * q + j;
    DistinctIdsDistinctKeys(text, PageSize * p + i, PageSize * q + j);
  }

  /**
   `searchToS3` up to the point where the uploads start: the request URL for
   the page at `start`, and the jobs for its items, unless the request failed.
   */
  method SearchToS3(text: string, start: Int64, apiKey: string, search: string -> Fetch)
    returns (url: string, jobs: seq<Job>, fatal: bool)
    ensures url == QueryString(text, start, apiKey)
    ensures fatal <==> search(url).TransportError?
    ensures !fatal ==> JobsFor(jobs, text, start, search(url).resp.items)
  {
    url := QueryString(text, start, apiKey);
    match search(url) {
      case TransportError =>
        jobs, fatal := [], true;
      case Response(resp) =>
        jobs := AssignKeys(text, start, resp.items);
        fatal := false;
    }
  }

  /** Page `p` of the run was answered and its jobs are the keys for offset `PageSize * p`. */
  predicate PageDone(pages: seq<seq<Job>>, queries: seq<string>, text: string, search: string -> Fetch, p: nat)
    requires p < |pages| && p < |queries|
  {
    && p < PageCount
    && search(queries[p]).Response?
    && JobsFor(pages[p], text, PageSize * p, search(queries[p]).resp.items)
  }

  /** The pages of a run, none holding more than `PageSize` jobs, never reuse a key. */
  lemma PagesKeysDistinct(pages: seq<seq<Job>>, queries: seq<string>, text: string, search: string -> Fetch)
    requires |pages| <= |queries|
    requires forall p :: 0 <= p < |pages| ==> PageDone(pages, queries, text, search, p)
    requires forall p :: 0 <= p < |pages| ==> |pages[p]| <= PageSize
    ensures KeysDistinct(pages)
  {
    forall k, i, l, j |
      0 <= k < |pages| && 0 <= i < |pages[k]| && 0 <= l < |pages| && 0 <= j < |pages[l]| && (k != l || i != j)
      ensures pages[k][i].key != pages[l][j].key
    {
      assert PageDone(pages, queries, text, search, k) && PageDone(pages, queries, text, search, l);
      assert pages[k][i].key == OutputPath(text, PageSize * k + i);
      assert pages[l][j].key == OutputPath(text, PageSize * l + j);
      PageKeysDisjoint(text, k, i, l, j);
    }
  }

  /**
   `main` for one phrase: the page at offset `PageSize * p` is requested for
   `p` = 0, 1, 2 and its items are given their keys. `search` stands for the
   search service; a transport failure ends the run after the URL that failed.
   */
  method Run(text: string, apiKey: string, search: string -> Fetch)
    returns (queries: seq<string>, pages: seq<seq<Job>>, fatal: bool)
    ensures 1 <= |queries| <= PageCount
    ensures forall p :: 0 <= p < |queries| ==> queries[p] == QueryString(text, PageSize * p, apiKey)
    ensures fatal <==> search(queries[|queries| - 1]).TransportError?
    ensures !fatal ==> |queries| == PageCount
    ensures |pages| == if fatal then |queries| - 1 else |queries|
    ensures forall p :: 0 <= p < |pages| ==> PageDone(pages, queries, text, search, p)
    ensures (forall p :: 0 <= p < |pages| ==> |pages[p]| <= PageSize) ==> KeysDistinct(pages)
  {
    queries, pages, fatal := [], [], false;
    var p := 0;
    while p < PageCount && !fatal
      invariant 0 <= p <= PageCount
      invariant |queries| == p
      invariant |pages| == if fatal then p - 1 else p
      invariant forall k :: 0 <= k < p ==> queries[k] == QueryString(text, PageSize * k, apiKey)
      invariant p >= 1 ==> (fatal <==> search(queries[p - 1]).TransportError?)
      invariant forall k :: 0 <= k < |pages| ==> PageDone(pages, queries, text, search, k)
    {
      var url, jobs, failed := SearchToS3(text, PageSize * p, apiKey, search);
      ghost var pages0, queries0 := pages, queries;
      queries := queries + [url];
      if !failed {
        pages := pages + [jobs];
      }
      forall k | 0 <= k < |pages|
        ensures PageDone(pages, queries, text, search, k)
      {
        if k < |pages0| {
          assert PageDone(pages0, queries0, text, search, k);
        }
      }
      fatal := failed;
      p := p + 1;
    }
    if forall k :: 0 <= k < |pages| ==> |pages[k]| <= PageSize {
      PagesKeysDistinct(pages, queries, text, search);
    }
  }
}
