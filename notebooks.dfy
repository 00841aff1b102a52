/** The notebook (src/core/notebook.py): a capped table from page id to
    page, with id = max + 1 allocation, lookup and deletion that raise on a
    missing id, listing in id order and a case-insensitive search. */
module Notebooks {
  import opened Results
  import opened Pages
  import Text
  import Ranking

  /** `ValueError` from `create_page` and `KeyError` from `get_page` and
      `delete_page`. */
  datatype NotebookError = PageLimitReached(maxPages: int) | NoSuchPage(pageId: int)

  /** What the analysis and search code reads of one page while it walks
      `pages.values()`: the page itself, its id, and its name and body. */
  datatype PageView = PageView(page: Page, id: int, name: string, content: string)

  /** The dictionary `Notebook.to_dict` produces. `pages` lists the
      (str(id), page dictionary) items in the dictionary's order. */
  datatype NotebookData = NotebookData(
    name: string,
    maxPages: int,
    createdAt: Timestamp,
    updatedAt: Timestamp,
    pages: seq<(string, PageData)>,
    metadata: map<string, Value>)

  const DefaultNotebookName: string := "My Notebook"
  const DefaultMaxPages: int := 3000

  /** `max(ids)` of a non-empty sequence. */
  function MaxOf(s: seq<int>): (m: int)
    requires s != []
    ensures m in s
    ensures forall i :: 0 <= i < |s| ==> s[i] <= m
  {
    if |s| == 1 then s[0]
    else
      var m := MaxOf(s[..|s| - 1]);
      assert forall i :: 0 <= i < |s| - 1 ==> s[..|s| - 1][i] == s[i];
      if s[|s| - 1] > m then s[|s| - 1] else m
  }

  /** The id `create_page` hands out: 1 for an empty notebook, otherwise one
      above the largest id in use; in either case above every id in use. */
  function NextId(ids: seq<int>): (id: int)
    ensures ids == [] ==> id == 1
    ensures ids != [] ==> id - 1 in ids
    ensures forall i :: 0 <= i < |ids| ==> ids[i] < id
  {
    if ids == [] then 1 else MaxOf(ids) + 1
  }

  predicate Ascending(s: seq<int>)
  {
    forall i, j :: 0 <= i < j < |s| ==> s[i] < s[j]
  }

  function NegatedId(k: int): real { -(k as real) }

  /** `sorted(ids)`: the stable descending sort on the negated id. */
  function SortedIds(ids: seq<int>): seq<int>
  {
    Ranking.SortDesc(ids, NegatedId)
  }

  /** Sorting duplicate-free ids keeps every id once, in strictly ascending
      order. */
  lemma SortedIdsAscending(ids: seq<int>)
    requires Text.NoDuplicates(ids)
    ensures |SortedIds(ids)| == |ids|
    ensures forall k :: k in SortedIds(ids) <==> k in ids
    ensures Ascending(SortedIds(ids))
  {
    var r := SortedIds(ids);
    Ranking.SortDescSorted(ids, NegatedId);
    Ranking.SortDescPermutation(ids, NegatedId);
    assert |multiset(r)| == |multiset(ids)|;
    forall k ensures k in r <==> k in ids {
      assert k in r <==> k in multiset(r);
      assert k in ids <==> k in multiset(ids);
    }
    Text.NoDuplicatesPermutation(ids, r);
    forall i, j | 0 <= i < j < |r| ensures r[i] < r[j] {
      assert NegatedId(r[i]) >= NegatedId(r[j]);
    }
  }

  /** `ids` once `del` has taken `x` out; the rest keep their order. */
  function Remove(ids: seq<int>, x: int): (r: seq<int>)
    ensures forall k :: k in r <==> k in ids && k != x
    ensures |r| <= |ids|
  {
    if ids == [] then []
    else
      var rest := Remove(ids[..|ids| - 1], x);
      assert forall k :: k in ids <==> k in ids[..|ids| - 1] || k == ids[|ids| - 1];
      if ids[|ids| - 1] == x then rest else rest + [ids[|ids| - 1]]
  }

  /** Removing an id keeps a duplicate-free sequence duplicate-free. */
  lemma {:induction false} RemoveNoDuplicates(ids: seq<int>, x: int)
    requires Text.NoDuplicates(ids)
    ensures Text.NoDuplicates(Remove(ids, x))
  {
    if ids != [] {
      var n := |ids| - 1;
      assert Text.NoDuplicates(ids[..n]);
      RemoveNoDuplicates(ids[..n], x);
      assert ids == ids[..n] + [ids[n]];
      assert ids[n] !in ids[..n];
    }
  }

  /** Removing an id from a duplicate-free sequence shortens it by one when
      the id is there and changes nothing when it is not. */
  lemma {:induction false} RemoveLength(ids: seq<int>, x: int)
    requires Text.NoDuplicates(ids)
    ensures x in ids ==> |Remove(ids, x)| == |ids| - 1
    ensures x !in ids ==> Remove(ids, x) == ids
  {
    if ids != [] {
      var n := |ids| - 1;
      assert Text.NoDuplicates(ids[..n]);
      RemoveLength(ids[..n], x);
      assert ids == ids[..n] + [ids[n]];
      assert ids[n] !in ids[..n];
    }
  }

  /** Removing an id keeps every element below a bound that was. */
  lemma {:induction false} RemoveBounded(ids: seq<int>, x: int, bound: int)
    requires forall i :: 0 <= i < |ids| ==> ids[i] < bound
    ensures forall i :: 0 <= i < |Remove(ids, x)| ==> Remove(ids, x)[i] < bound
  {
    if ids != [] {
      RemoveBounded(ids[..|ids| - 1], x, bound);
    }
  }

  /** Removing an id keeps an ascending sequence ascending. */
  lemma {:induction false} RemoveAscending(ids: seq<int>, x: int)
    requires Ascending(ids)
    ensures Ascending(Remove(ids, x))
  {
    if ids != [] {
      var n := |ids| - 1;
      assert Ascending(ids[..n]);
      RemoveAscending(ids[..n], x);
      RemoveBounded(ids[..n], x, ids[n]);
      assert ids == ids[..n] + [ids[n]];
    }
  }

  /** The ids of the page dictionaries, in order. */
  function IdsOf(items: seq<(string, PageData)>): (r: seq<int>)
    ensures |r| == |items|
    ensures forall i :: 0 <= i < |items| ==> r[i] == items[i].1.pageId
  {
    if items == [] then [] else IdsOf(items[..|items| - 1]) + [items[|items| - 1].1.pageId]
  }

  /** The state of the loop in `from_dict`: the dictionary order of the
      ids seen so far and the page dictionary each id ends up with. */
  datatype Loading = Loading(order: seq<int>, table: map<int, PageData>)

  /** One iteration: a later dictionary with an id already seen replaces
      the earlier one but keeps its place; a new id goes to the end. */
  function LoadStep(l: Loading, d: PageData): Loading
  {
    Loading(if d.pageId in l.table then l.order else l.order + [d.pageId], l.table[d.pageId := d])
  }

  /** The whole loop, from an empty table. */
  function Load(items: seq<(string, PageData)>): Loading
  {
    if items == [] then Loading([], map[])
    else LoadStep(Load(items[..|items| - 1]), items[|items| - 1].1)
  }

  /** After the loop the order lists each id once, in order of first
      occurrence, the table holds exactly those ids, and each id holds a
      dictionary with that id. */
  lemma {:induction false} LoadFacts(items: seq<(string, PageData)>)
    ensures Load(items).order == Text.Distinct(IdsOf(items))
    ensures forall k :: k in Load(items).table <==> k in IdsOf(items)
    ensures forall k :: k in Load(items).table ==> Load(items).table[k].pageId == k
  {
    if items != [] {
      var n := |items| - 1;
      LoadFacts(items[..n]);
      Text.DistinctElements(IdsOf(items[..n]));
      assert IdsOf(items) == IdsOf(items[..n]) + [items[n].1.pageId];
      assert IdsOf(items)[..n] == IdsOf(items[..n]);
    }
  }

  /** The case-insensitive substring test of `search_pages`. */
  predicate PageMatches(name: string, content: string, query: string)
  {
    Text.Contains(Text.Lower(name), Text.Lower(query))
    || Text.Contains(Text.Lower(content), Text.Lower(query))
  }

  /** The pages of `views` that match `query`, in order. */
  function MatchingPages(views: seq<PageView>, query: string): (r: seq<Page>)
    ensures |r| <= |views|
    ensures forall i :: 0 <= i < |views| && PageMatches(views[i].name, views[i].content, query) ==>
      views[i].page in r
    ensures forall j :: 0 <= j < |r| ==>
      exists i :: 0 <= i < |views| && views[i].page == r[j] && PageMatches(views[i].name, views[i].content, query)
  {
    if views == [] then []
    else
      var n := |views| - 1;
      var v := views[n];
      var rest := MatchingPages(views[..n], query);
      assert forall i :: 0 <= i < n ==> views[..n][i] == views[i];
      if PageMatches(v.name, v.content, query) then rest + [v.page] else rest
  }

  /** Every page is filed under its own id and `order` lists every key
      of the table exactly once. */
  ghost predicate TableValid(pages: map<int, Page>, order: seq<int>)
  {
    && (forall k :: k in pages ==> pages[k].pageId == k)
    && (forall k :: k in pages ==> k in order)
    && (forall i :: 0 <= i < |order| ==> order[i] in pages)
    && Text.NoDuplicates(order)
    && |order| == |pages|
  }

  /** Filing a page under a fresh id, at the end of the order. */
  lemma TableInsert(pages: map<int, Page>, order: seq<int>, id: int, page: Page)
    requires TableValid(pages, order) && id !in pages && page.pageId == id
    ensures TableValid(pages[id := page], order + [id])
    ensures |pages[id := page]| == |pages| + 1
    ensures Ascending(order) && (forall i :: 0 <= i < |order| ==> order[i] < id) ==>
      Ascending(order + [id])
  {
    assert id !in order;
  }

  /** Deleting a filed id from the table and from the order. */
  lemma TableRemove(pages: map<int, Page>, order: seq<int>, id: int)
    requires TableValid(pages, order) && id in pages
    ensures TableValid(pages - {id}, Remove(order, id))
    ensures |pages - {id}| == |pages| - 1
    ensures Ascending(order) ==> Ascending(Remove(order, id))
  {
    RemoveNoDuplicates(order, id);
    RemoveLength(order, id);
    if Ascending(order) {
      RemoveAscending(order, id);
    }
    var r := Remove(order, id);
    forall k | k in pages - {id} ensures k in r {
      assert k in order;
    }
    forall i | 0 <= i < |r| ensures r[i] in pages - {id} {
      assert r[i] in r;
    }
  }

  class Notebook {
    var name: string
    var maxPages: int
    var createdAt: Timestamp
    var updatedAt: Timestamp
    /** `self.pages`, keyed by page id. */
    var pages: map<int, Page>
    /** The keys of `self.pages` in the order the dictionary iterates them,
        which is the order they were first inserted. */
    var order: seq<int>
    var metadata: map<string, Value>

    /** Every page is filed under its own id; `order` lists every key once. */
    ghost predicate Valid()
      reads this
    {
      TableValid(pages, order)
    }

    /** `Notebook(name, max_pages)`; the defaults are DefaultNotebookName and
        DefaultMaxPages. */
    constructor (name: string, maxPages: int, now: Timestamp)
      ensures Valid()
      ensures this.name == name && this.maxPages == maxPages
      ensures pages == map[] && order == [] && metadata == map[]
      ensures createdAt == now && updatedAt == now
    {
      this.name := name;
      this.maxPages := maxPages;
      createdAt := now;
      updatedAt := now;
      pages := map[];
      order := [];
      metadata := map[];
    }

    /** `max(self.pages.keys())`, by a scan in dictionary order. */
    method MaxId() returns (m: int)
      requires order != []
      ensures m == MaxOf(order)
    {
      m := order[0];
      var i := 1;
      while i < |order|
        invariant 1 <= i <= |order|
        invariant m == MaxOf(order[..i])
      {
        assert order[..i + 1][..i] == order[..i];
        if order[i] > m {
          m := order[i];
        }
        i := i + 1;
      }
      assert order[..i] == order;
    }

    /** The success path of `create_page`: a new page under NextId, filed
        at the end of the dictionary order. */
    method AddPage(pageName: Option<string>, content: string, now: Timestamp)
      returns (page: Page)
      requires Valid()
      modifies this
      ensures Valid()
      ensures fresh(page)
      ensures page.pageId == NextId(old(order)) && page.pageId !in old(pages)
      ensures page.name == NameOrDefault(pageName, page.pageId)
      ensures page.content == content && page.metadata == map[]
      ensures pages == old(pages)[page.pageId := page] && order == old(order) + [page.pageId]
      ensures |pages| == old(|pages|) + 1
      ensures name == old(name) && maxPages == old(maxPages) && metadata == old(metadata)
      ensures createdAt == old(createdAt) && updatedAt == now
      ensures old(Ascending(order)) ==> Ascending(order)
    {
      var newId := NewId();
      page := new Page(newId, pageName, content, now);
      ghost var before, beforeOrder := pages, order;
      pages, order, updatedAt := pages[newId := page], order + [newId], now;
      TableInsert(before, beforeOrder, newId, page);
    }

    /** The id `create_page` computes: 1 for an empty table, else one above
        the largest key. */
    method NewId() returns (id: int)
      requires Valid()
      ensures id == NextId(order) && id !in pages
    {
      id := 1;
      if order != [] {
        var largest := MaxId();
        id := largest + 1;
      }
    }

    /** `create_page`: refuses once the table holds `max_pages` pages;
        otherwise files one new page under NextId and changes nothing else. */
    method CreatePage(pageName: Option<string>, content: string, now: Timestamp)
      returns (r: Result<Page, NotebookError>)
      requires Valid()
      modifies this
      ensures Valid()
      ensures name == old(name) && maxPages == old(maxPages)
      ensures metadata == old(metadata) && createdAt == old(createdAt)
      ensures old(|pages|) >= maxPages ==>
        && r == Err(PageLimitReached(maxPages))
        && pages == old(pages) && order == old(order) && updatedAt == old(updatedAt)
      ensures old(|pages|) < maxPages ==>
        && r.Ok? && fresh(r.value)
        && r.value.pageId == NextId(old(order))
        && r.value.name == NameOrDefault(pageName, r.value.pageId)
        && r.value.content == content
        && r.value.metadata == map[]
        && r.value.pageId !in old(pages)
        && pages == old(pages)[r.value.pageId := r.value]
        && order == old(order) + [r.value.pageId]
        && |pages| == old(|pages|) + 1
        && updatedAt == now
      ensures old(Ascending(order)) ==> Ascending(order)
    {
      if |pages| >= maxPages {
        return Err(PageLimitReached(maxPages));
      }
      var page := AddPage(pageName, content, now);
      r := Ok(page);
    }

    /** `get_page`: the page filed under `pageId`, or KeyError. */
    function GetPage(pageId: int): (r: Result<Page, NotebookError>)
      reads this
      ensures r.Ok? <==> pageId in pages
      ensures r.Ok? ==> r.value == pages[pageId]
      ensures r.Err? ==> r.error == NoSuchPage(pageId)
    {
      if pageId in pages then Ok(pages[pageId]) else Err(NoSuchPage(pageId))
    }

    /** `delete_page`: removes exactly `pageId`, or raises KeyError and
        changes nothing. */
    method DeletePage(pageId: int, now: Timestamp) returns (r: Outcome<NotebookError>)
      requires Valid()
      modifies this
      ensures Valid()
      ensures name == old(name) && maxPages == old(maxPages)
      ensures metadata == old(metadata) && createdAt == old(createdAt)
      ensures pageId in old(pages) ==>
        && r == Pass && pages == old(pages) - {pageId} && updatedAt == now
        && order == Remove(old(order), pageId)
        && |pages| == old(|pages|) - 1 && GetPage(pageId) == Err(NoSuchPage(pageId))
      ensures pageId !in old(pages) ==>
        r == Fail(NoSuchPage(pageId)) && pages == old(pages) && order == old(order)
        && updatedAt == old(updatedAt)
      ensures old(Ascending(order)) ==> Ascending(order)
    {
      if pageId !in pages {
        return Fail(NoSuchPage(pageId));
      }
      TableRemove(pages, order, pageId);
      pages := pages - {pageId};
      order := Remove(order, pageId);
      updatedAt := now;
      r := Pass;
    }

    function PagesOf(ids: seq<int>): (r: seq<Page>)
      reads this
      requires forall i :: 0 <= i < |ids| ==> ids[i] in pages
      ensures |r| == |ids|
      ensures forall i :: 0 <= i < |ids| ==> r[i] == pages[ids[i]]
    {
      if ids == [] then [] else PagesOf(ids[..|ids| - 1]) + [pages[ids[|ids| - 1]]]
    }

    /** `list_pages`: every page exactly once, in strictly ascending id
        order. */
    function ListPages(): (r: seq<Page>)
      requires Valid()
      reads this
      ensures |r| == |pages|
      ensures forall i :: 0 <= i < |r| ==> r[i] in pages.Values
      ensures forall k :: k in pages ==> pages[k] in r
      ensures forall i, j :: 0 <= i < j < |r| ==> r[i].pageId < r[j].pageId
    {
      var ids := SortedIds(order);
      SortedIdsAscending(order);
      assert forall i :: 0 <= i < |ids| ==> ids[i] in pages by {
        forall i | 0 <= i < |ids| ensures ids[i] in pages {
          assert ids[i] in ids;
          var j :| 0 <= j < |order| && order[j] == ids[i];
        }
      }
      var r := PagesOf(ids);
      assert forall i :: 0 <= i < |r| ==> r[i].pageId == ids[i];
      assert forall k :: k in pages ==> pages[k] in r by {
        forall k | k in pages ensures pages[k] in r {
          var i :| 0 <= i < |ids| && ids[i] == k;
          assert r[i] == pages[k];
        }
      }
      r
    }

    /** For a notebook whose ids were inserted in ascending order, as
        `create_page` and `delete_page` keep them, `list_pages` is the
        dictionary's own order. */
    lemma ListPagesInsertionOrder()
      requires Valid() && Ascending(order)
      ensures ListPages() == PagesOf(order)
    {
      forall i, j | 0 <= i < j < |order| ensures NegatedId(order[i]) >= NegatedId(order[j]) {
      }
      Ranking.SortDescOfSorted(order, NegatedId);
    }

    function ViewsOf(ids: seq<int>): (r: seq<PageView>)
      reads this, pages.Values
      requires forall i :: 0 <= i < |ids| ==> ids[i] in pages
      ensures |r| == |ids|
      ensures forall i :: 0 <= i < |ids| ==>
        r[i] == PageView(pages[ids[i]], ids[i], pages[ids[i]].name, pages[ids[i]].content)
    {
      if ids == [] then []
      else
        var k := ids[|ids| - 1];
        ViewsOf(ids[..|ids| - 1]) + [PageView(pages[k], k, pages[k].name, pages[k].content)]
    }

    /** The pages as `self.pages.values()` yields them: dictionary order. */
    function Snapshot(): (r: seq<PageView>)
      requires Valid()
      reads this, pages.Values
      ensures |r| == |pages|
      ensures forall i :: 0 <= i < |r| ==>
        && r[i].id == order[i] && r[i].page == pages[order[i]]
        && r[i].name == r[i].page.name && r[i].content == r[i].page.content
    {
      ViewsOf(order)
    }

    /** `search_pages`: the pages whose lower-cased name or body contains the
        lower-cased query, in dictionary order, and no others. */
    method SearchPages(query: string) returns (r: seq<Page>)
      requires Valid()
      ensures r == MatchingPages(Snapshot(), query)
      ensures forall p :: p in r ==> p in pages.Values && PageMatches(p.name, p.content, query)
      ensures forall k :: k in pages ==>
        (pages[k] in r <==> PageMatches(pages[k].name, pages[k].content, query))
    {
      var views := Snapshot();
      r := [];
      var i := 0;
      while i < |views|
        invariant 0 <= i <= |views|
        invariant r == MatchingPages(views[..i], query)
      {
        assert views[..i + 1][..i] == views[..i];
        var v := views[i];
        if PageMatches(v.name, v.content, query) {
          r := r + [v.page];
        }
        i := i + 1;
      }
      assert views[..i] == views;
      SnapshotMatches(query);
    }

    /** The pages `MatchingPages` picks from the snapshot are stored pages
        whose own name or body matches, and every stored page that matches
        is picked. */
    lemma SnapshotMatches(query: string)
      requires Valid()
      ensures forall p :: p in MatchingPages(Snapshot(), query) ==>
        p in pages.Values && PageMatches(p.name, p.content, query)
      ensures forall k :: k in pages ==>
        (pages[k] in MatchingPages(Snapshot(), query) <==> PageMatches(pages[k].name, pages[k].content, query))
    {
      var views := Snapshot();
      var r := MatchingPages(views, query);
      forall p | p in r ensures p in pages.Values && PageMatches(p.name, p.content, query) {
        var j :| 0 <= j < |r| && r[j] == p;
        var i :| 0 <= i < |views| && views[i].page == r[j] && PageMatches(views[i].name, views[i].content, query);
        assert pages[order[i]] == p;
      }
      forall k | k in pages
        ensures pages[k] in r <==> PageMatches(pages[k].name, pages[k].content, query)
      {
        var j :| 0 <= j < |order| && order[j] == k;
        assert views[j].page == pages[k];
      }
    }

    /** Sets one notebook metadata entry; every other key keeps its value. */
    method SetMetadata(key: string, value: Value, now: Timestamp)
      modifies this
      ensures metadata == old(metadata)[key := value] && updatedAt == now
      ensures GetMetadata(key) == value
      ensures forall k :: k != key ==> GetMetadata(k) == old(GetMetadata(k))
      ensures name == old(name) && maxPages == old(maxPages)
      ensures pages == old(pages) && order == old(order) && createdAt == old(createdAt)
    {
      metadata := metadata[key := value];
      updatedAt := now;
    }

    /** `metadata.get(key)`: the stored value, or `None` for an absent key. */
    function GetMetadata(key: string): (v: Value)
      reads this
      ensures key in metadata ==> v == metadata[key]
      ensures key !in metadata ==> v == Null
    {
      if key in metadata then metadata[key] else Null
    }

    function PageItems(ids: seq<int>): (r: seq<(string, PageData)>)
      reads this, pages.Values
      requires forall i :: 0 <= i < |ids| ==> ids[i] in pages
      ensures |r| == |ids|
      ensures forall i :: 0 <= i < |ids| ==>
        r[i] == (IntToString(ids[i]), pages[ids[i]].ToDict())
    {
      if ids == [] then []
      else
        var k := ids[|ids| - 1];
        PageItems(ids[..|ids| - 1]) + [(IntToString(k), pages[k].ToDict())]
    }

    /** `to_dict`: the scalar fields, the metadata, and one
        (str(id), page dictionary) item per page in dictionary order. */
    function ToDict(): (d: NotebookData)
      requires Valid()
      reads this, pages.Values
      ensures d.name == name && d.maxPages == maxPages && d.metadata == metadata
      ensures d.createdAt == createdAt && d.updatedAt == updatedAt
      ensures |d.pages| == |pages|
      ensures forall i :: 0 <= i < |order| ==>
        d.pages[i] == (IntToString(order[i]), pages[order[i]].ToDict())
      ensures Load(d.pages).order == order
      ensures forall k :: k in Load(d.pages).table <==> k in pages
      ensures forall k :: k in pages ==> Load(d.pages).table[k] == pages[k].ToDict()
    {
      var items := PageItems(order);
      ItemsById(order, items);
      NotebookData(name, maxPages, createdAt, updatedAt, items, metadata)
    }

    /** Running the loop of `from_dict` over the items of duplicate-free
        `ids` gives back `ids` as the order and each id its own page
        dictionary. */
    lemma {:induction false} ItemsById(ids: seq<int>, items: seq<(string, PageData)>)
      requires Valid()
      requires Text.NoDuplicates(ids)
      requires forall i :: 0 <= i < |ids| ==> ids[i] in pages
      requires items == PageItems(ids)
      ensures Load(items).order == ids
      ensures forall k :: k in Load(items).table <==> k in ids
      ensures forall k :: k in Load(items).table ==> Load(items).table[k] == pages[k].ToDict()
    {
      if ids != [] {
        var n := |ids| - 1;
        assert items[..n] == PageItems(ids[..n]);
        assert Text.NoDuplicates(ids[..n]);
        ItemsById(ids[..n], items[..n]);
        assert ids[n] !in ids[..n];
        assert ids == ids[..n] + [ids[n]];
      }
    }

    /** One iteration of the loop in `from_dict`: builds the page of `d` and
        files it under its id. */
    method Put(d: PageData, ghost l: Loading) returns (page: Page)
      requires Valid() && order == l.order && RestoredFrom(pages, l.table)
      modifies this
      ensures Valid()
      ensures order == LoadStep(l, d).order && RestoredFrom(pages, LoadStep(l, d).table)
      ensures fresh(page) && pages == old(pages)[d.pageId := page]
      ensures name == old(name) && maxPages == old(maxPages) && metadata == old(metadata)
      ensures createdAt == old(createdAt) && updatedAt == old(updatedAt)
    {
      page := new Page.FromDict(d);
      ghost var before, beforeOrder := pages, order;
      var id := page.pageId;
      var ids := if id in pages then order else order + [id];
      pages, order := pages[id := page], ids;
      LoadStepValid(before, beforeOrder, l, page, d);
    }

    /** `Notebook.from_dict`: the scalar fields and metadata are copied and
        every page dictionary becomes a fresh page filed under its own
        `page_id`; a later duplicate id replaces the earlier page but keeps
        its place in the dictionary order. */
    constructor FromDict(data: NotebookData)
      ensures Valid()
      ensures name == data.name && maxPages == data.maxPages && metadata == data.metadata
      ensures createdAt == data.createdAt && updatedAt == data.updatedAt
      ensures order == Load(data.pages).order
      ensures RestoredFrom(pages, Load(data.pages).table)
      ensures forall k :: k in pages ==> fresh(pages[k])
    {
      name := data.name;
      maxPages := data.maxPages;
      createdAt := data.createdAt;
      updatedAt := data.updatedAt;
      metadata := data.metadata;
      pages := map[];
      order := [];
      new;
      PutAll(data.pages);
    }

    /** The loop of `from_dict` over the page dictionaries, into an empty
        table. */
    method PutAll(items: seq<(string, PageData)>)
      requires Valid() && pages == map[] && order == []
      modifies this
      ensures Valid()
      ensures name == old(name) && maxPages == old(maxPages) && metadata == old(metadata)
      ensures createdAt == old(createdAt) && updatedAt == old(updatedAt)
      ensures order == Load(items).order
      ensures RestoredFrom(pages, Load(items).table)
      ensures forall k :: k in pages ==> fresh(pages[k])
    {
      var i := 0;
      while i < |items|
        invariant 0 <= i <= |items|
        invariant name == old(name) && maxPages == old(maxPages) && metadata == old(metadata)
        invariant createdAt == old(createdAt) && updatedAt == old(updatedAt)
        invariant Valid()
        invariant order == Load(items[..i]).order
        invariant RestoredFrom(pages, Load(items[..i]).table)
        invariant forall k :: k in pages ==> fresh(pages[k])
      {
        assert items[..i + 1][..i] == items[..i];
        var page := Put(items[i].1, Load(items[..i]));
        i := i + 1;
      }
      assert items[..i] == items;
    }
  }

  /** Every stored page is the one `Page.from_dict` builds from the
      dictionary filed under the same id, and no id is missing. */
  ghost predicate RestoredFrom(pages: map<int, Page>, table: map<int, PageData>)
    reads pages.Values
  {
    && (forall k :: k in table ==> k in pages)
    && forall k :: k in pages ==> k in table && pages[k].Restores(table[k])
  }

  /** One iteration of the loop in `from_dict` keeps the table well formed
      and restored from the loop's state. */
  lemma LoadStepValid(pages: map<int, Page>, order: seq<int>, l: Loading, page: Page, d: PageData)
    requires TableValid(pages, order) && order == l.order && RestoredFrom(pages, l.table)
    requires page.Restores(d)
    ensures d.pageId in pages <==> d.pageId in l.table
    ensures TableValid(pages[d.pageId := page], LoadStep(l, d).order)
    ensures RestoredFrom(pages[d.pageId := page], LoadStep(l, d).table)
  {
    if d.pageId !in pages {
      TableInsert(pages, order, d.pageId, page);
    } else {
      TableReplace(pages, order, d.pageId, page);
    }
    RestoredStep(pages, l.table, page, d);
  }

  /** Filing the page built from `d` under its id keeps every page restored
      from the dictionary filed under the same id. */
  lemma RestoredStep(pages: map<int, Page>, table: map<int, PageData>, page: Page, d: PageData)
    requires RestoredFrom(pages, table) && page.Restores(d)
    ensures RestoredFrom(pages[d.pageId := page], table[d.pageId := d])
  {
    var pages', table' := pages[d.pageId := page], table[d.pageId := d];
    forall k | k in pages'
      ensures k in table' && pages'[k].Restores(table'[k])
    {
      if k != d.pageId {
        assert pages'[k] == pages[k] && table'[k] == table[k];
      }
    }
  }

  /** Replacing the page filed under an id that is already present. */
  lemma TableReplace(pages: map<int, Page>, order: seq<int>, id: int, page: Page)
    requires TableValid(pages, order) && id in pages && page.pageId == id
    ensures TableValid(pages[id := page], order)
  {
    assert pages[id := page].Keys == pages.Keys;
  }

  /** `Notebook.from_dict(notebook.to_dict())`: name, page limit, metadata,
      timestamps, the id-to-page table and the dictionary order come back;
      each page keeps its id, body, metadata and timestamps, and its name,
      except that an emptied name comes back as the default "Page <id>". */
  method DictRoundTrip(notebook: Notebook) returns (copy: Notebook)
    requires notebook.Valid()
    ensures copy.Valid()
    ensures copy.name == notebook.name && copy.maxPages == notebook.maxPages
    ensures copy.metadata == notebook.metadata
    ensures copy.createdAt == notebook.createdAt && copy.updatedAt == notebook.updatedAt
    ensures copy.pages.Keys == notebook.pages.Keys
    ensures copy.order == notebook.order
    ensures forall k :: k in copy.pages ==>
      && fresh(copy.pages[k])
      && copy.pages[k].pageId == k
      && copy.pages[k].content == notebook.pages[k].content
      && copy.pages[k].metadata == notebook.pages[k].metadata
      && copy.pages[k].createdAt == notebook.pages[k].createdAt
      && copy.pages[k].updatedAt == notebook.pages[k].updatedAt
      && (notebook.pages[k].name != [] ==> copy.pages[k].name == notebook.pages[k].name)
      && (notebook.pages[k].name == [] ==> copy.pages[k].name == Pages.DefaultName(k))
  {
    var data := notebook.ToDict();
    copy := new Notebook.FromDict(data);
    assert forall k :: k in copy.pages <==> k in notebook.pages;
  }
}
