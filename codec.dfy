/** The JSON form of the folder list: what `saveFolders` writes and what
    `loadFolders` reads back. Folders and pages appear here as values
    (`FolderRec`, `PageRec`): a snapshot of the fields of the live objects. */
module Codec {
  import opened Wrappers
  import opened Platform
  import opened Json

  /** The fields of a `ScannedDocument`. */
  datatype PageRec = PageRec(uri: Uri, name: string, timestamp: string)

  /** The fields of a `DocumentFolder`; an id of `None` is a `null` id. */
  datatype FolderRec = FolderRec(id: Option<string>, name: string, timestamp: string, pages: seq<PageRec>)

  // ---------------------------------------------------------------------
  // Encoding (saveFolders)

  /** One page object: its uri as text, its name and its timestamp. */
  function EncodePage(p: PageRec): (r: Json)
    ensures r.JObject? && r.fields.Keys == {"uri", "name", "timestamp"}
    ensures r.fields["uri"] == JString(UriToString(p.uri))
    ensures r.fields["name"] == JString(p.name) && r.fields["timestamp"] == JString(p.timestamp)
  {
    var uri := Put(map[], "uri", Some(JString(UriToString(p.uri))));
    var named := Put(uri, "name", Some(JString(p.name)));
    JObject(Put(named, "timestamp", Some(JString(p.timestamp))))
  }

  function EncodePages(ps: seq<PageRec>): (r: seq<Json>)
  {
    seq(|ps|, j requires 0 <= j < |ps| => EncodePage(ps[j]))
  }

  /** The object `saveFolders` builds for one folder; a `null` id is passed
      to `put`, which leaves the key out. */
  function FolderObject(id: Option<string>, name: string, timestamp: string, docs: seq<Json>): (r: Json)
    ensures r.JObject?
    ensures r.fields.Keys == (if id.Some? then {"id"} else {}) + {"name", "timestamp", "documents"}
    ensures id.Some? ==> r.fields["id"] == JString(id.value)
    ensures r.fields["name"] == JString(name) && r.fields["timestamp"] == JString(timestamp)
    ensures r.fields["documents"] == JArray(docs)
  {
    var withId := Put(map[], "id", if id.Some? then Some(JString(id.value)) else None);
    var named := Put(withId, "name", Some(JString(name)));
    var stamped := Put(named, "timestamp", Some(JString(timestamp)));
    JObject(Put(stamped, "documents", Some(JArray(docs))))
  }

  function EncodeFolder(f: FolderRec): (r: Json) {
    FolderObject(f.id, f.name, f.timestamp, EncodePages(f.pages))
  }

  /** The whole list becomes one JSON array, in list order. */
  function EncodeFolders(fs: seq<FolderRec>): (r: Json)
  {
    JArray(seq(|fs|, k requires 0 <= k < |fs| => EncodeFolder(fs[k])))
  }

  /** One turn of the inner loop of `saveFolders`. */
  lemma EncodePagesStep(ps: seq<PageRec>, j: nat, docs: seq<Json>)
    requires j < |ps| && docs == EncodePages(ps[..j])
    ensures docs + [EncodePage(ps[j])] == EncodePages(ps[..j + 1])
  {
  }

  /** One turn of the outer loop of `saveFolders`. */
  lemma EncodeFoldersStep(fs: seq<FolderRec>, i: nat, items: seq<Json>)
    requires i < |fs| && items == EncodeFolders(fs[..i]).items
    ensures items + [EncodeFolder(fs[i])] == EncodeFolders(fs[..i + 1]).items
  {
  }

  // ---------------------------------------------------------------------
  // Decoding (loadFolders)

  /** A page is rebuilt by `new ScannedDocument(uri)` and `setName`: its
      timestamp is the one the constructor takes from the clock, `stamp`. */
  function DecodePage(j: Json, stamp: string): (r: Option<PageRec>)
    ensures r.Some? ==> j.JObject? && r.value.timestamp == stamp
    ensures r.Some? ==> "uri" in j.fields && j.fields["uri"] == JString(UriToString(r.value.uri))
    ensures r.Some? ==> "name" in j.fields && j.fields["name"] == JString(r.value.name)
    ensures r.None? <==> !j.JObject? || GetString(j.fields, "uri").None? || GetString(j.fields, "name").None?
  {
    var m :- AsObject(j);
    var uri :- GetString(m, "uri");
    var name :- GetString(m, "name");
    Some(PageRec(ParseUri(uri), name, stamp))
  }

  /** All pages decode, or the folder is abandoned. */
  function DecodePages(items: seq<Json>, stamp: string): (r: Option<seq<PageRec>>)
    ensures r.Some? ==> |r.value| == |items|
    decreases |items|
  {
    if items == [] then Some([])
    else
      var init :- DecodePages(items[..|items| - 1], stamp);
      var p :- DecodePage(items[|items| - 1], stamp);
      Some(init + [p])
  }

  /** A folder is rebuilt by `new DocumentFolder()`, `setUniqueId`, `setName`
      and one `addDocument` per page: its timestamp is `stamp` as well. */
  function DecodeFolder(j: Json, stamp: string): (r: Option<FolderRec>)
    ensures r.Some? ==> j.JObject? && r.value.id.Some? && r.value.timestamp == stamp
    ensures r.Some? ==> "id" in j.fields && j.fields["id"] == JString(r.value.id.value)
    ensures r.Some? ==> "name" in j.fields && j.fields["name"] == JString(r.value.name)
    ensures r.Some? ==>
      "documents" in j.fields && j.fields["documents"].JArray? && |j.fields["documents"].items| == |r.value.pages|
  {
    var m :- AsObject(j);
    var id :- GetString(m, "id");
    var name :- GetString(m, "name");
    var docs :- GetArray(m, "documents");
    var pages :- DecodePages(docs, stamp);
    Some(FolderRec(Some(id), name, stamp, pages))
  }

  /** How a load ended: every element decoded, the text was not an array,
      or the element at `index` threw. */
  datatype Outcome = Complete | Unreadable | StoppedAt(index: nat)

  /** The folders a load returns, and how it ended. */
  datatype Loaded = Loaded(folders: seq<FolderRec>, outcome: Outcome)

  /** The loop of `loadFolders`: a folder joins the list only once it is
      fully read, and the first failure ends the loop with the list so far. */
  function DecodeItems(items: seq<Json>, stamp: string): (r: Loaded)
    ensures |r.folders| <= |items| && !r.outcome.Unreadable?
    decreases |items|
  {
    if items == [] then Loaded([], Complete)
    else
      var prev := DecodeItems(items[..|items| - 1], stamp);
      if !prev.outcome.Complete? then prev
      else match DecodeFolder(items[|items| - 1], stamp)
        case None => Loaded(prev.folders, StoppedAt(|items| - 1))
        case Some(f) => Loaded(prev.folders + [f], Complete)
  }

  /** `loadFolders` from the stored text: unparsable text, or text that is
      not an array, is caught and gives the empty list. */
  function Load(t: Text, stamp: string): (r: Loaded)
    ensures r.outcome.Unreadable? <==> ParseArray(t).None?
    ensures r.outcome.Unreadable? ==> r.folders == []
  {
    match ParseArray(t)
    case None => Loaded([], Unreadable)
    case Some(items) => DecodeItems(items, stamp)
  }

  // ---------------------------------------------------------------------
  // What survives a save and a load

  /** Same id, name, and pages with the same uris and names in the same
      order: everything but the timestamps. */
  predicate SameContent(a: FolderRec, b: FolderRec) {
    && a.id == b.id
    && a.name == b.name
    && |a.pages| == |b.pages|
    && forall j :: 0 <= j < |a.pages| ==> a.pages[j].uri == b.pages[j].uri && a.pages[j].name == b.pages[j].name
  }

  /** Every timestamp of the folder, its own and its pages', is `stamp`. */
  predicate Stamped(f: FolderRec, stamp: string) {
    f.timestamp == stamp && forall j :: 0 <= j < |f.pages| ==> f.pages[j].timestamp == stamp
  }

  predicate AllStamped(fs: seq<FolderRec>, stamp: string) {
    forall k :: 0 <= k < |fs| ==> Stamped(fs[k], stamp)
  }

  /** What a load gives back of a saved folder: its content, with every
      timestamp replaced by the load-time clock. */
  function Restamp(f: FolderRec, stamp: string): (r: FolderRec)
    ensures SameContent(r, f) && Stamped(r, stamp)
  {
    f.(timestamp := stamp, pages := RestampPages(f.pages, stamp))
  }

  function RestampPages(ps: seq<PageRec>, stamp: string): (r: seq<PageRec>)
  {
    seq(|ps|, j requires 0 <= j < |ps| => ps[j].(timestamp := stamp))
  }

  function RestampAll(fs: seq<FolderRec>, stamp: string): (r: seq<FolderRec>)
  {
    seq(|fs|, k requires 0 <= k < |fs| => Restamp(fs[k], stamp))
  }

  lemma RestampAllSnoc(fs: seq<FolderRec>, stamp: string)
    requires fs != []
    ensures RestampAll(fs, stamp) == RestampAll(fs[..|fs| - 1], stamp) + [Restamp(fs[|fs| - 1], stamp)]
  {
    var n := |fs| - 1;
    var a, b := RestampAll(fs, stamp), RestampAll(fs[..n], stamp) + [Restamp(fs[n], stamp)];
    forall k | 0 <= k < |fs|
      ensures a[k] == b[k]
    {
      if k < n {
        assert fs[..n][k] == fs[k];
      }
    }
  }

  /** A record that agrees with `f` on content and carries `stamp`
      everywhere is `Restamp(f, stamp)`. */
  lemma RestampUnique(f: FolderRec, g: FolderRec, stamp: string)
    requires SameContent(g, f) && Stamped(g, stamp)
    ensures g == Restamp(f, stamp)
  {
    var r := Restamp(f, stamp);
    assert |g.pages| == |r.pages|;
    forall j | 0 <= j < |g.pages|
      ensures g.pages[j] == r.pages[j]
    {
      assert g.pages[j].uri == f.pages[j].uri;
    }
  }

  // ---------------------------------------------------------------------
  // Properties

  lemma DecodePageOfEncoded(p: PageRec, stamp: string)
    ensures DecodePage(EncodePage(p), stamp) == Some(p.(timestamp := stamp))
  {
    var m := EncodePage(p).fields;
    assert GetString(m, "uri") == Some(UriToString(p.uri));
    assert GetString(m, "name") == Some(p.name);
  }

  lemma {:induction false} DecodePagesOfEncoded(ps: seq<PageRec>, stamp: string)
    ensures DecodePages(EncodePages(ps), stamp) == Some(RestampPages(ps, stamp))
    decreases |ps|
  {
    var items := EncodePages(ps);
    if ps != [] {
      var n := |ps| - 1;
      assert DecodePages(items[..n], stamp) == Some(RestampPages(ps[..n], stamp)) by {
        assert items[..n] == EncodePages(ps[..n]);
        DecodePagesOfEncoded(ps[..n], stamp);
      }
      assert DecodePage(items[n], stamp) == Some(ps[n].(timestamp := stamp)) by {
        DecodePageOfEncoded(ps[n], stamp);
      }
      assert RestampPages(ps, stamp) == RestampPages(ps[..n], stamp) + [ps[n].(timestamp := stamp)];
    } else {
      assert items == [] && RestampPages(ps, stamp) == [];
    }
  }

  lemma DecodeFolderOfEncoded(f: FolderRec, stamp: string)
    requires f.id.Some?
    ensures DecodeFolder(EncodeFolder(f), stamp) == Some(Restamp(f, stamp))
  {
    DecodePagesOfEncoded(f.pages, stamp);
    var m := EncodeFolder(f).fields;
    assert GetString(m, "id") == f.id;
    assert GetString(m, "name") == Some(f.name);
    assert GetArray(m, "documents") == Some(EncodePages(f.pages));
  }

  /** Exactly what a load returns: when the loop stopped, the folders before
      the failing element, each decoded from its own element; otherwise all
      of them. */
  lemma {:induction false} DecodeItemsPrefix(items: seq<Json>, stamp: string)
    ensures var r := DecodeItems(items, stamp);
      && !r.outcome.Unreadable?
      && (r.outcome.Complete? ==> |r.folders| == |items|)
      && (r.outcome.StoppedAt? ==>
            r.outcome.index < |items| && |r.folders| == r.outcome.index
            && DecodeFolder(items[r.outcome.index], stamp).None?)
      && forall k :: 0 <= k < |r.folders| ==> DecodeFolder(items[k], stamp) == Some(r.folders[k])
    decreases |items|
  {
    if items != [] {
      var n := |items| - 1;
      DecodeItemsPrefix(items[..n], stamp);
    }
  }

  /** Once the loop has stopped, later elements are never looked at. */
  lemma {:induction false} DecodeItemsStays(items: seq<Json>, i: nat, stamp: string)
    requires i <= |items|
    requires !DecodeItems(items[..i], stamp).outcome.Complete?
    ensures DecodeItems(items, stamp) == DecodeItems(items[..i], stamp)
    decreases |items|
  {
    if i < |items| {
      var n := |items| - 1;
      assert items[..n][..i] == items[..i];
      DecodeItemsStays(items[..n], i, stamp);
    } else {
      assert items[..i] == items;
    }
  }

  /** The first element that fails ends the load with the folders before it. */
  lemma StopAt(items: seq<Json>, i: nat, stamp: string)
    requires i < |items|
    requires DecodeItems(items[..i], stamp).outcome.Complete?
    requires DecodeFolder(items[i], stamp).None?
    ensures DecodeItems(items, stamp) == Loaded(DecodeItems(items[..i], stamp).folders, StoppedAt(i))
  {
    assert items[..i + 1][..i] == items[..i];
    DecodeItemsStays(items, i + 1, stamp);
  }

  /** One page that fails makes the whole page list fail. */
  lemma {:induction false} PagesFailAt(docs: seq<Json>, j: nat, stamp: string)
    requires j < |docs|
    requires DecodePage(docs[j], stamp).None?
    ensures DecodePages(docs, stamp).None?
    decreases |docs|
  {
    var n := |docs| - 1;
    if j < n {
      assert docs[..n][j] == docs[j];
      PagesFailAt(docs[..n], j, stamp);
    }
  }

  /** The pages decoded so far, followed by one more page. */
  lemma PagesExtend(docs: seq<Json>, j: nat, stamp: string)
    requires j < |docs|
    requires DecodePages(docs[..j], stamp).Some?
    requires DecodePage(docs[j], stamp).Some?
    ensures DecodePages(docs[..j + 1], stamp)
      == Some(DecodePages(docs[..j], stamp).value + [DecodePage(docs[j], stamp).value])
  {
    assert docs[..j + 1][..j] == docs[..j];
  }

  /** The folders a load returns carry the load-time timestamp and an id. */
  lemma DecodedAreStamped(items: seq<Json>, stamp: string)
    ensures var r := DecodeItems(items, stamp).folders;
      AllStamped(r, stamp) && forall k :: 0 <= k < |r| ==> r[k].id.Some?
  {
    var r := DecodeItems(items, stamp).folders;
    DecodeItemsPrefix(items, stamp);
    forall k | 0 <= k < |r|
      ensures Stamped(r[k], stamp) && r[k].id.Some?
    {
      DecodedFolderStamped(items[k], stamp);
    }
  }

  lemma LoadedAreStamped(t: Text, stamp: string)
    ensures var r := Load(t, stamp).folders;
      AllStamped(r, stamp) && forall k :: 0 <= k < |r| ==> r[k].id.Some?
  {
    if ParseArray(t).Some? {
      DecodedAreStamped(ParseArray(t).value, stamp);
    }
  }

  lemma DecodedFolderStamped(j: Json, stamp: string)
    requires DecodeFolder(j, stamp).Some?
    ensures Stamped(DecodeFolder(j, stamp).value, stamp) && DecodeFolder(j, stamp).value.id.Some?
  {
    var m := AsObject(j).value;
    DecodedPagesStamped(GetArray(m, "documents").value, stamp);
  }

  lemma {:induction false} DecodedPagesStamped(items: seq<Json>, stamp: string)
    requires DecodePages(items, stamp).Some?
    ensures forall j :: 0 <= j < |items| ==> DecodePages(items, stamp).value[j].timestamp == stamp
    decreases |items|
  {
    if items != [] {
      DecodedPagesStamped(items[..|items| - 1], stamp);
    }
  }

  /** The loop step of a load: one more decodable item extends a complete
      prefix by its folder. */
  lemma DecodeItemsStep(items: seq<Json>, i: nat, stamp: string, prefix: seq<FolderRec>, f: FolderRec)
    requires i < |items|
    requires DecodeItems(items[..i], stamp) == Loaded(prefix, Complete)
    requires DecodeFolder(items[i], stamp) == Some(f)
    ensures DecodeItems(items[..i + 1], stamp) == Loaded(prefix + [f], Complete)
  {
    assert items[..i + 1][..i] == items[..i];
  }

  lemma {:induction false} DecodeItemsOfEncoded(fs: seq<FolderRec>, stamp: string)
    requires forall k :: 0 <= k < |fs| ==> fs[k].id.Some?
    ensures DecodeItems(EncodeFolders(fs).items, stamp) == Loaded(RestampAll(fs, stamp), Complete)
    decreases |fs|
  {
    var items := EncodeFolders(fs).items;
    if fs != [] {
      var n := |fs| - 1;
      var prev := DecodeItems(items[..n], stamp);
      assert prev == Loaded(RestampAll(fs[..n], stamp), Complete) by {
        assert items[..n] == EncodeFolders(fs[..n]).items;
        DecodeItemsOfEncoded(fs[..n], stamp);
      }
      assert DecodeFolder(items[n], stamp) == Some(Restamp(fs[n], stamp)) by {
        DecodeFolderOfEncoded(fs[n], stamp);
      }
      DecodeItemsStep(items, n, stamp, RestampAll(fs[..n], stamp), Restamp(fs[n], stamp));
      assert items[..n + 1] == items;
      RestampAllSnoc(fs, stamp);
    }
  }

  /** Round trip: loading what was saved gives the same folders in the same
      order, with the same ids, names, and pages (uris and names, in order);
      every folder and page timestamp is the load-time one, not the saved one. */
  lemma SaveLoadRoundTrip(fs: seq<FolderRec>, stamp: string)
    requires forall k :: 0 <= k < |fs| ==> fs[k].id.Some?
    ensures Load(Serialized(EncodeFolders(fs)), stamp) == Loaded(RestampAll(fs, stamp), Complete)
    ensures var r := Load(Serialized(EncodeFolders(fs)), stamp).folders;
      |r| == |fs| && forall k :: 0 <= k < |fs| ==> SameContent(r[k], fs[k]) && Stamped(r[k], stamp)
  {
    DecodeItemsOfEncoded(fs, stamp);
  }

  /** A saved folder whose id is `null` has no "id" key; the next load stops
      there and returns only the folders before it. */
  lemma NullIdTruncatesLoad(fs: seq<FolderRec>, i: nat, stamp: string)
    requires i < |fs| && fs[i].id.None?
    requires forall k :: 0 <= k < i ==> fs[k].id.Some?
    ensures Load(Serialized(EncodeFolders(fs)), stamp) == Loaded(RestampAll(fs[..i], stamp), StoppedAt(i))
  {
    var items := EncodeFolders(fs).items;
    assert DecodeItems(items[..i], stamp) == Loaded(RestampAll(fs[..i], stamp), Complete) by {
      assert items[..i] == EncodeFolders(fs[..i]).items;
      DecodeItemsOfEncoded(fs[..i], stamp);
    }
    assert DecodeFolder(items[i], stamp).None? by {
      assert items[i] == EncodeFolder(fs[i]);
      DecodeFolderWithoutId(fs[i], stamp);
    }
    StopAt(items, i, stamp);
  }

  lemma DecodeFolderWithoutId(f: FolderRec, stamp: string)
    requires f.id.None?
    ensures DecodeFolder(EncodeFolder(f), stamp).None?
  {
    assert "id" !in EncodeFolder(f).fields;
  }

  /** Unparsable text, or text that is not an array, loads as the empty
      list. */
  lemma FailSoft(t: Text, stamp: string)
    requires t.Malformed? || !t.doc.JArray?
    ensures Load(t, stamp) == Loaded([], Unreadable)
  {
  }

  /** The default text of a missing preference, `"[]"`, loads as the
      empty list. */
  lemma EmptyArrayLoadsEmpty(stamp: string)
    ensures Load(Serialized(JArray([])), stamp) == Loaded([], Complete)
  {
  }
}
