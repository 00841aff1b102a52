/** A single notebook page (src/core/page.py): an id fixed at creation, a
    display name, a text body, two timestamps and a metadata mapping. */
module Pages {
  import opened Results

  /** A clock reading. `datetime.now()` is not modelled: every operation
      that stamps the page receives the current time as `now`. */
  datatype Timestamp = Timestamp(ticks: int)

  /** A metadata value; `Null` is Python's `None`. */
  datatype Value = Null | Bool(b: bool) | Int(i: int) | Real(r: real) | Str(s: string)

  function DigitChar(d: nat): char
    requires d < 10
  {
    ('0' as int + d) as char
  }

  function NatToString(n: nat): (r: string)
    ensures |r| > 0
    ensures forall i :: 0 <= i < |r| ==> '0' <= r[i] <= '9'
  {
    if n < 10 then [DigitChar(n)] else NatToString(n / 10) + [DigitChar(n % 10)]
  }

  /** `str(i)` / `f"{i}"` for an integer. */
  function IntToString(i: int): (r: string)
    ensures |r| > 0
  {
    if i < 0 then "-" + NatToString(-i) else NatToString(i)
  }

  function DefaultName(pageId: int): string
  {
    "Page " + IntToString(pageId)
  }

  /** `name or f"Page {page_id}"`: both `None` and "" are replaced. */
  function NameOrDefault(name: Option<string>, pageId: int): (r: string)
    ensures r != []
    ensures name.Some? && name.value != [] ==> r == name.value
    ensures !(name.Some? && name.value != []) ==> r == DefaultName(pageId)
  {
    if name.Some? && name.value != [] then name.value else DefaultName(pageId)
  }

  /** The dictionary `to_dict` produces and `from_dict` reads. The
      ISO-format timestamp strings are kept as Timestamps. `name` is
      optional because a stored `null` is accepted by `from_dict`. */
  datatype PageData = PageData(
    pageId: int,
    name: Option<string>,
    content: string,
    createdAt: Timestamp,
    updatedAt: Timestamp,
    metadata: map<string, Value>)

  class Page {
    const pageId: int
    var name: string
    var content: string
    var createdAt: Timestamp
    var updatedAt: Timestamp
    var metadata: map<string, Value>

    /** `Page(page_id, name, content)`; the name defaults to "Page <id>". */
    constructor (pageId: int, name: Option<string>, content: string, now: Timestamp)
      ensures this.pageId == pageId
      ensures this.name == NameOrDefault(name, pageId)
      ensures this.content == content
      ensures createdAt == now && updatedAt == now
      ensures metadata == map[]
    {
      this.pageId := pageId;
      this.name := NameOrDefault(name, pageId);
      this.content := content;
      createdAt := now;
      updatedAt := now;
      metadata := map[];
    }

    /** Replaces the body and stamps the update; nothing else changes. */
    method UpdateContent(content: string, now: Timestamp)
      modifies this
      ensures this.content == content && updatedAt == now
      ensures name == old(name) && metadata == old(metadata) && createdAt == old(createdAt)
    {
      this.content := content;
      updatedAt := now;
    }

    /** Replaces the name (even by ""), and stamps the update. */
    method Rename(newName: string, now: Timestamp)
      modifies this
      ensures name == newName && updatedAt == now
      ensures content == old(content) && metadata == old(metadata) && createdAt == old(createdAt)
    {
      name := newName;
      updatedAt := now;
    }

    /** Sets one metadata entry; every other key keeps its value. */
    method SetMetadata(key: string, value: Value, now: Timestamp)
      modifies this
      ensures metadata == old(metadata)[key := value] && updatedAt == now
      ensures GetMetadata(key) == value
      ensures forall k :: k != key ==> GetMetadata(k) == old(GetMetadata(k))
      ensures name == old(name) && content == old(content) && createdAt == old(createdAt)
    {
      metadata := metadata[key := value];
      updatedAt := now;
    }

    /** `metadata.get(key)`: the stored value, or `None` for an absent key. */
    function GetMetadata(key: string): (v: Value)
      reads this
      ensures key in metadata ==> v == metadata[key]
      ensures key !in metadata ==> v == Null
    {
      if key in metadata then metadata[key] else Null
    }

    function ToDict(): (d: PageData)
      reads this
      ensures d.pageId == pageId && d.name == Some(name) && d.content == content
      ensures d.createdAt == createdAt && d.updatedAt == updatedAt && d.metadata == metadata
    {
      PageData(pageId, Some(name), content, createdAt, updatedAt, metadata)
    }

    /** This page is what `Page.from_dict(data)` builds: the fields of
        `data`, with an empty or missing name replaced by the default. */
    predicate Restores(data: PageData)
      reads this
    {
      && pageId == data.pageId
      && name == NameOrDefault(data.name, data.pageId)
      && content == data.content && metadata == data.metadata
      && createdAt == data.createdAt && updatedAt == data.updatedAt
    }

    /** `Page.from_dict(data)`: goes through the constructor, so an empty or
        missing name becomes the default name. */
    constructor FromDict(data: PageData)
      ensures Restores(data)
    {
      pageId := data.pageId;
      name := NameOrDefault(data.name, data.pageId);
      content := data.content;
      createdAt := data.createdAt;
      updatedAt := data.updatedAt;
      metadata := data.metadata;
    }
  }

  /** `Page.from_dict(page.to_dict())`: id, body, timestamps and metadata
      come back; so does the name unless it was emptied by `rename("")`,
      in which case the default name comes back. */
  method DictRoundTrip(page: Page) returns (copy: Page)
    ensures fresh(copy)
    ensures copy.pageId == page.pageId && copy.content == page.content
    ensures copy.metadata == page.metadata
    ensures copy.createdAt == page.createdAt && copy.updatedAt == page.updatedAt
    ensures page.name != [] ==> copy.name == page.name
    ensures page.name == [] ==> copy.name == DefaultName(page.pageId)
  {
    copy := new Page.FromDict(page.ToDict());
  }
}
