/** The folder store: the whole folder list kept as one JSON text under one
    key of the app's preference file, and PDF files kept in the app's files
    directory under a path made from a folder id and a file name. */
module Storage {
  import opened Wrappers
  import opened Platform
  import opened Json
  import opened Codec
  import opened FolderList
  import opened ScannedDocuments
  import opened DocumentFolders

  /** The key the folder list is stored under. */
  const KEY_FOLDERS := "folders"
  /** The size of the copy buffer of `SavePdf`. */
  const BUFFER_SIZE := 1024
  /** The file name suffix of a stored PDF. */
  const PDF_SUFFIX := ".pdf"

  // ---------------------------------------------------------------------
  // The folder list as seen through the preference file

  /** `prefs.getString(KEY_FOLDERS, "[]")`. */
  function ReadFolders(prefs: map<string, Text>): (r: Text) {
    if KEY_FOLDERS in prefs then prefs[KEY_FOLDERS] else Serialized(JArray([]))
  }

  /** What `loadFolders` returns, as values, when the clock reads `stamp`. */
  function StoredFolders(prefs: map<string, Text>, stamp: string): (r: seq<FolderRec>) {
    Load(ReadFolders(prefs), stamp).folders
  }

  /** The list `updateFolder` writes back: the loaded list with `f` upserted. */
  function UpdatedList(prefs: map<string, Text>, f: FolderRec, stamp: string): (r: seq<FolderRec>) {
    Upsert(StoredFolders(prefs, stamp), f)
  }

  /** The preference file after `updateFolder` of a folder whose view is `f`. */
  function UpdatedPrefs(prefs: map<string, Text>, f: FolderRec, stamp: string): (r: map<string, Text>)
    ensures r.Keys == if f.id.None? then prefs.Keys else prefs.Keys + {KEY_FOLDERS}
    ensures forall k :: k in prefs && k != KEY_FOLDERS ==> r[k] == prefs[k]
  {
    if f.id.None? then prefs
    else prefs[KEY_FOLDERS := Serialized(EncodeFolders(UpdatedList(prefs, f, stamp)))]
  }

  // ---------------------------------------------------------------------
  // PDF files

  /** A file of the app's files directory: `<dir>/<file>`. */
  datatype PdfPath = PdfPath(dir: string, file: string)

  /** `new File(new File(filesDir, folderId), fileName + ".pdf")`. */
  function PdfPathOf(folderId: string, fileName: string): (r: PdfPath) {
    PdfPath(folderId, fileName + PDF_SUFFIX)
  }

  /** Distinct (folder id, file name) pairs never share a `PdfPath`; so a
      PDF saved under one folder name is not found under another. This is
      about the pair, not about the joined `File` path (see README). */
  lemma PdfPathInjective(id1: string, name1: string, id2: string, name2: string)
    ensures PdfPathOf(id1, name1) == PdfPathOf(id2, name2) <==> id1 == id2 && name1 == name2
  {
    if PdfPathOf(id1, name1) == PdfPathOf(id2, name2) {
      var a, b := name1 + PDF_SUFFIX, name2 + PDF_SUFFIX;
      assert |name1| == |name2|;
      assert name1 == a[..|name1|] == b[..|name2|] == name2;
    }
  }

  /** A PDF written under one file name is not found under another: after a
      save under `oldName`, a lookup under `newName` finds only a file that
      was already there. */
  lemma RenamedPdfIsMissing(files: map<PdfPath, seq<byte>>, folderId: string, oldName: string, newName: string,
                            bytes: seq<byte>)
    requires oldName != newName && PdfPathOf(folderId, newName) !in files
    ensures PdfPathOf(folderId, newName) !in files[PdfPathOf(folderId, oldName) := bytes]
  {
    PdfPathInjective(folderId, oldName, folderId, newName);
  }

  /** The files after the PDF at `from` moves to `to`, as `File.renameTo`
      does; with no file at `from` nothing changes. */
  function MovePdf(files: map<PdfPath, seq<byte>>, from: PdfPath, to: PdfPath): (r: map<PdfPath, seq<byte>>)
    ensures from in files ==> to in r && r[to] == files[from]
    ensures from in files && from != to ==> from !in r
    ensures forall p :: p in files && p != from && p != to ==> p in r && r[p] == files[p]
    ensures r.Keys <= files.Keys + {to}
  {
    if from in files then (files - {from})[to := files[from]] else files
  }

  /** An `InputStream` over a fixed sequence of bytes. */
  class InputStream {
    const data: seq<byte>
    var pos: nat
    var closed: bool

    ghost predicate Valid()
      reads this
    {
      pos <= |data|
    }

    constructor (data: seq<byte>)
      ensures Valid() && this.data == data && pos == 0 && !closed
    {
      this.data := data;
      pos := 0;
      closed := false;
    }

    /** `read(buffer)`: -1 at the end of the stream; otherwise the next
        `n` bytes, 0 < n <= buffer.Length, are placed at the start of the
        buffer. Callers rely only on this contract, not on how many bytes
        one call delivers. */
    method Read(buffer: array<byte>) returns (n: int)
      requires Valid() && !closed && buffer.Length > 0
      modifies this`pos, buffer
      ensures Valid()
      ensures old(pos) == |data| ==> n == -1 && pos == old(pos)
      ensures old(pos) < |data| ==> 0 < n <= buffer.Length && pos == old(pos) + n
      ensures old(pos) < |data| ==> buffer[..n] == data[old(pos)..pos]
    {
      if pos == |data| {
        return -1;
      }
      n := if buffer.Length < |data| - pos then buffer.Length else |data| - pos;
      forall i | 0 <= i < n {
        buffer[i] := data[pos + i];
      }
      pos := pos + n;
    }

    method Close()
      modifies this`closed
      ensures closed
    {
      closed := true;
    }
  }

  // ---------------------------------------------------------------------
  // The store

  class DocumentStorageManager {
    /** The app's preference file `"document_folders"`: key to stored text. */
    var prefs: map<string, Text>
    /** The PDF files of the app's files directory and their bytes. */
    var files: map<PdfPath, seq<byte>>

    /** The store over the persisted state the application context gives. */
    constructor (prefs: map<string, Text>, files: map<PdfPath, seq<byte>>)
      ensures this.prefs == prefs && this.files == files
    {
      this.prefs := prefs;
      this.files := files;
    }

    /** `saveFolders`: the whole list, encoded in order, replaces the text
        under `KEY_FOLDERS`; nothing else changes. */
    method SaveFolders(folders: seq<DocumentFolder>)
      modifies this`prefs
      ensures prefs == old(prefs)[KEY_FOLDERS := Serialized(EncodeFolders(old(FolderViews(folders))))]
    {
      var foldersArray := EncodeFolderList(folders);
      prefs := prefs[KEY_FOLDERS := Serialized(JArray(foldersArray))];
    }

    /** The outer loop of `saveFolders`: one JSON object per folder, in
        order. */
    method EncodeFolderList(folders: seq<DocumentFolder>) returns (foldersArray: seq<Json>)
      ensures JArray(foldersArray) == EncodeFolders(old(FolderViews(folders)))
    {
      ghost var views := FolderViews(folders);
      foldersArray := [];
      for i := 0 to |folders|
        invariant foldersArray == EncodeFolders(views[..i]).items
      {
        var folder := folders[i];
        var docsArray := EncodeDocuments(folder.documents);
        var folderObj := FolderObject(folder.uniqueId, folder.name, folder.timestamp, docsArray);
        EncodeFoldersStep(views, i, foldersArray);
        foldersArray := foldersArray + [folderObj];
      }
      assert views[..|folders|] == views;
    }

    /** The inner loop of `saveFolders`: one JSON object per page, in
        order. */
    method EncodeDocuments(documents: seq<ScannedDocument>) returns (docsArray: seq<Json>)
      ensures docsArray == EncodePages(old(PageViews(documents)))
    {
      ghost var pages := PageViews(documents);
      docsArray := [];
      for j := 0 to |documents|
        invariant docsArray == EncodePages(pages[..j])
      {
        var doc := documents[j];
        var docObj := EncodePage(PageRec(doc.imageUri, doc.name, doc.timestamp));
        EncodePagesStep(pages, j, docsArray);
        docsArray := docsArray + [docObj];
      }
      assert pages[..|documents|] == pages;
    }

    /** `loadFolders`: new folder objects whose values are the decodable
        prefix of the stored list; every timestamp is `now`'s. */
    method LoadFolders(now: ClockReading) returns (folders: seq<DocumentFolder>)
      ensures forall k :: 0 <= k < |folders| ==> fresh(folders[k])
      ensures FolderViews(folders) == StoredFolders(prefs, now.display)
    {
      folders := [];
      var parsed := ParseArray(ReadFolders(prefs));
      if parsed.None? {
        return;
      }
      folders := ReadItems(parsed.value, now);
      assert forall k :: 0 <= k < |folders| ==> folders[k] in folders;
    }

    /** The outer loop of `loadFolders`: folders are read in order until
        the first one that does not decode. */
    method ReadItems(items: seq<Json>, now: ClockReading) returns (folders: seq<DocumentFolder>)
      ensures forall f <- folders :: fresh(f)
      ensures FolderViews(folders) == DecodeItems(items, now.display).folders
    {
      folders := [];
      ghost var made: set<DocumentFolder> := {};
      var i := 0;
      while i < |items|
        invariant 0 <= i <= |items|
        invariant fresh(made) && forall f <- folders :: f in made
        invariant DecodeItems(items[..i], now.display) == Loaded(FolderViews(folders), Complete)
      {
        var folder := ReadNext(items, i, folders, now);
        if folder == null {
          return;
        }
        var read: DocumentFolder := folder;
        folders := folders + [read];
        made := made + {read};
        i := i + 1;
      }
      assert items[..i] == items;
    }

    /** One turn of the outer loop: the folder decoded from `items[i]`
        extends the folders read so far, or `null` ends the load there. */
    method ReadNext(items: seq<Json>, i: nat, folders: seq<DocumentFolder>, now: ClockReading)
      returns (folder: DocumentFolder?)
      requires i < |items|
      requires DecodeItems(items[..i], now.display) == Loaded(FolderViews(folders), Complete)
      ensures folder == null ==> FolderViews(folders) == DecodeItems(items, now.display).folders
      ensures folder != null ==> fresh(folder)
      ensures folder != null ==>
        DecodeItems(items[..i + 1], now.display) == Loaded(FolderViews(folders + [folder]), Complete)
    {
      ghost var views := FolderViews(folders);
      folder := ReadFolder(items[i], now);
      assert FolderViews(folders) == views;
      if folder == null {
        StopAt(items, i, now.display);
        return;
      }
      DecodeItemsStep(items, i, now.display, views, folder.View());
      FolderViewsSnoc(folders, folder);
    }

    /** One turn of the outer loop of `loadFolders`: a new folder gets the
        stored id, name and pages, or `null` stands for the `JSONException`
        that abandons the load. */
    method ReadFolder(item: Json, now: ClockReading) returns (folder: DocumentFolder?)
      ensures folder == null <==> DecodeFolder(item, now.display).None?
      ensures folder != null ==> fresh(folder) && folder.View() == DecodeFolder(item, now.display).value
    {
      var folderObj := AsObject(item);
      if folderObj.None? {
        return null;
      }
      var m := folderObj.value;
      folder := new DocumentFolder(now);
      var id := GetString(m, "id");
      if id.None? {
        return null;
      }
      folder.SetUniqueId(Some(id.value));
      var name := GetString(m, "name");
      if name.None? {
        return null;
      }
      folder.SetName(name.value);
      var docs := GetArray(m, "documents");
      if docs.None? {
        return null;
      }
      var docsArray := docs.value;
      ghost var pages := [];
      var j := 0;
      while j < |docsArray|
        invariant 0 <= j <= |docsArray|
        invariant fresh(folder)
        invariant folder.View() == FolderRec(Some(id.value), name.value, now.display, pages)
        invariant DecodePages(docsArray[..j], now.display) == Some(pages)
      {
        var document := ReadDocument(docsArray[j], now);
        if document == null {
          PagesFailAt(docsArray, j, now.display);
          return null;
        }
        PagesExtend(docsArray, j, now.display);
        folder.AddDocument(document);
        pages := pages + [document.View()];
        j := j + 1;
      }
      assert docsArray[..j] == docsArray;
    }

    /** One turn of the inner loop of `loadFolders`: a new page with the
        stored uri and name, or `null` for a `JSONException`. */
    method ReadDocument(item: Json, now: ClockReading) returns (document: ScannedDocument?)
      ensures document == null <==> DecodePage(item, now.display).None?
      ensures document != null ==> fresh(document) && document.View() == DecodePage(item, now.display).value
    {
      var docObj := AsObject(item);
      if docObj.None? {
        return null;
      }
      var uri := GetString(docObj.value, "uri");
      if uri.None? {
        return null;
      }
      document := new ScannedDocument(ParseUri(uri.value), now);
      var docName := GetString(docObj.value, "name");
      if docName.None? {
        return null;
      }
      document.SetName(docName.value);
    }

    /** `getFolderById`: the first loaded folder whose id equals `folderId`,
        or `null` when there is none. */
    method GetFolderById(folderId: Option<string>, now: ClockReading) returns (r: DocumentFolder?)
      ensures var stored := StoredFolders(prefs, now.display);
        match FindFirst(stored, folderId)
        case None => r == null
        case Some(k) => r != null && fresh(r) && r.View() == stored[k]
    {
      var folders := LoadFolders(now);
      StoredHaveIds(prefs, now.display);
      r := FindById(folders, folderId);
    }

    /** The loop of `getFolderById`: the first folder of the list whose
        id equals `folderId`, or `null`. `getUniqueId().equals` would throw
        on a folder without an id; loaded folders all have one. */
    method FindById(folders: seq<DocumentFolder>, folderId: Option<string>) returns (r: DocumentFolder?)
      requires forall k :: 0 <= k < |folders| ==> folders[k].uniqueId.Some?
      ensures match FindFirst(old(FolderViews(folders)), folderId)
        case None => r == null
        case Some(k) => k < |folders| && r == folders[k] && r.View() == old(FolderViews(folders))[k]
    {
      ghost var stored := FolderViews(folders);
      var k := 0;
      while k < |folders| && folders[k].uniqueId != folderId
        invariant k <= |folders|
        invariant forall m :: 0 <= m < k ==> folders[m].uniqueId != folderId
      {
        k := k + 1;
      }
      FolderViewsIds(folders, k);
      if k < |folders| {
        FindFirstAt(stored, folderId, k);
        return folders[k];
      }
      return null;
    }

    /** `updateFolder`: a `null` folder changes nothing; for a folder without
        an id `UpdatedPrefs` is the unchanged file; otherwise the
        loaded list with the folder upserted by id is saved. */
    method UpdateFolder(folder: DocumentFolder?, now: ClockReading)
      modifies this`prefs
      ensures folder == null ==> prefs == old(prefs)
      ensures folder != null ==> prefs == UpdatedPrefs(old(prefs), old(folder.View()), now.display)
    {
      if folder == null || folder.uniqueId.None? {
        return;
      }
      ghost var v := folder.View();
      ghost var stored := StoredFolders(prefs, now.display);
      var folders := LoadFolders(now);
      assert FolderViews(folders) == stored;
      StoredHaveIds(prefs, now.display);
      assert folder.View() == v;
      folders := Merge(folders, folder);
      SaveFolders(folders);
      assert prefs == old(prefs)[KEY_FOLDERS := Serialized(EncodeFolders(Upsert(stored, v)))];
    }

    /** The loop of `updateFolder`: `folder` replaces the first folder of
        its id, or is appended when there is none. As in `FindById`, every
        folder compared has an id. */
    method Merge(folders: seq<DocumentFolder>, folder: DocumentFolder) returns (merged: seq<DocumentFolder>)
      requires folder.uniqueId.Some?
      requires forall k :: 0 <= k < |folders| ==> folders[k].uniqueId.Some?
      ensures FolderViews(merged) == Upsert(old(FolderViews(folders)), old(folder.View()))
    {
      ghost var loaded := FolderViews(folders);
      var i := 0;
      while i < |folders| && folders[i].uniqueId != folder.uniqueId
        invariant 0 <= i <= |folders|
        invariant forall k :: 0 <= k < i ==> loaded[k].id != folder.uniqueId
      {
        i := i + 1;
      }
      if i < |folders| {
        FindFirstAt(loaded, folder.uniqueId, i);
        UpsertReplacesFirstMatch(loaded, folder.View(), i);
        FolderViewsUpdate(folders, i, folder);
        merged := folders[i := folder];
      } else {
        UpsertAppendsWhenAbsent(loaded, folder.View());
        FolderViewsSnoc(folders, folder);
        merged := folders + [folder];
      }
    }

    /** `savePdf`: the bytes left in `input` are copied, in order, through a
        `BUFFER_SIZE` buffer into `folderId/fileName.pdf`, which replaces any
        earlier file of that path; the stream ends up consumed and closed. */
    method SavePdf(input: InputStream, folderId: string, fileName: string) returns (pdfFile: PdfPath)
      requires input.Valid() && !input.closed
      modifies this`files, input
      ensures pdfFile == PdfPathOf(folderId, fileName)
      ensures files == old(files)[pdfFile := old(input.data[input.pos..])]
      ensures input.pos == |input.data| && input.closed
    {
      pdfFile := PdfPathOf(folderId, fileName);
      files := files[pdfFile := []];
      var buffer := new byte[BUFFER_SIZE];
      ghost var start := input.pos;
      var read := input.Read(buffer);
      while read != -1
        invariant input.Valid() && !input.closed && start <= input.pos
        invariant pdfFile in files && files == old(files)[pdfFile := files[pdfFile]]
        invariant read == -1 ==> input.pos == |input.data| && files[pdfFile] == input.data[start..]
        invariant read != -1 ==> 0 < read <= buffer.Length && start <= input.pos - read
        invariant read != -1 ==> files[pdfFile] == input.data[start..input.pos - read]
        invariant read != -1 ==> buffer[..read] == input.data[input.pos - read..input.pos]
        decreases |input.data| - input.pos + (if read == -1 then 0 else 1)
      {
        files := files[pdfFile := files[pdfFile] + buffer[..read]];
        assert files[pdfFile] == input.data[start..input.pos];
        read := input.Read(buffer);
      }
      input.Close();
    }

    /** Renames the PDF of folder `folderId` from `oldName` to `newName`, so
        that it follows the folder's name. The code has no such step; it is
        the correction described in README, "## Findings". */
    method RenamePdf(folderId: string, oldName: string, newName: string)
      modifies this`files
      ensures files == MovePdf(old(files), PdfPathOf(folderId, oldName), PdfPathOf(folderId, newName))
    {
      files := MovePdf(files, PdfPathOf(folderId, oldName), PdfPathOf(folderId, newName));
    }

    /** `getPdfFile`: `null` for a `null` argument, otherwise the path of
        `folderId/fileName.pdf` if that file exists. */
    method GetPdfFile(folderId: Option<string>, fileName: Option<string>) returns (r: Option<PdfPath>)
      ensures folderId.None? || fileName.None? ==> r.None?
      ensures folderId.Some? && fileName.Some? ==>
        (r.Some? <==> PdfPathOf(folderId.value, fileName.value) in files)
      ensures r.Some? ==> folderId.Some? && fileName.Some? && r.value == PdfPathOf(folderId.value, fileName.value)
    {
      if folderId.None? || fileName.None? {
        return None;
      }
      var pdfFile := PdfPathOf(folderId.value, fileName.value);
      if pdfFile in files {
        return Some(pdfFile);
      }
      return None;
    }
  }

  /** A PDF saved for a folder is found again under the same id and name,
      with the bytes that were written. */
  method SaveThenGetPdf(store: DocumentStorageManager, input: InputStream, folderId: string, fileName: string)
    returns (r: Option<PdfPath>)
    requires input.Valid() && !input.closed
    modifies store`files, input
    ensures r == Some(PdfPathOf(folderId, fileName))
    ensures r.value in store.files && store.files[r.value] == old(input.data[input.pos..])
  {
    var saved := store.SavePdf(input, folderId, fileName);
    r := store.GetPdfFile(Some(folderId), Some(fileName));
  }

  // ---------------------------------------------------------------------
  // What `updateFolder` promises, as seen by later loads

  /** Every id in the stored list is present: `loadFolders` stops at the
      first folder without one. */
  lemma StoredHaveIds(prefs: map<string, Text>, stamp: string)
    ensures forall k :: 0 <= k < |StoredFolders(prefs, stamp)| ==> StoredFolders(prefs, stamp)[k].id.Some?
    ensures AllStamped(StoredFolders(prefs, stamp), stamp)
  {
    LoadedAreStamped(ReadFolders(prefs), stamp);
  }

  /** `getFolderById(null)` finds nothing: every loaded folder has an id. */
  lemma LookupOfNullIdIsAbsent(prefs: map<string, Text>, stamp: string)
    ensures FindFirst(StoredFolders(prefs, stamp), None).None?
  {
    StoredHaveIds(prefs, stamp);
  }

  /** The list written by an update loads back as itself, re-stamped. */
  lemma StoredAfterUpdate(prefs: map<string, Text>, f: FolderRec, s1: string, s2: string)
    requires f.id.Some?
    ensures StoredFolders(UpdatedPrefs(prefs, f, s1), s2) == RestampAll(UpdatedList(prefs, f, s1), s2)
  {
    var u := UpdatedList(prefs, f, s1);
    StoredHaveIds(prefs, s1);
    assert forall k :: 0 <= k < |u| ==> u[k].id.Some?;
    SaveLoadRoundTrip(u, s2);
  }

  /** Update then lookup: after `updateFolder(f)`, `getFolderById(f.id)`
      finds a folder with `f`'s id, name and pages, stamped with the time of
      the lookup. */
  lemma UpdateThenLookup(prefs: map<string, Text>, f: FolderRec, s1: string, s2: string)
    requires f.id.Some?
    ensures var r := StoredFolders(UpdatedPrefs(prefs, f, s1), s2);
      FindFirst(r, f.id).Some? && r[FindFirst(r, f.id).value] == Restamp(f, s2)
  {
    var u := UpdatedList(prefs, f, s1);
    StoredAfterUpdate(prefs, f, s1, s2);
    UpsertThenFind(StoredFolders(prefs, s1), f);
    FindFirstRestamped(u, f.id, s2);
  }

  /** Idempotence: with the same clock reading, a second update with the same
      folder leaves the preference file as the first one left it. */
  lemma UpdateIdempotent(prefs: map<string, Text>, f: FolderRec, stamp: string)
    ensures UpdatedPrefs(UpdatedPrefs(prefs, f, stamp), f, stamp) == UpdatedPrefs(prefs, f, stamp)
  {
    if f.id.Some? {
      var stored := StoredFolders(prefs, stamp);
      StoredAfterUpdate(prefs, f, stamp, stamp);
      RestampUpsert(stored, f, stamp);
      StoredHaveIds(prefs, stamp);
      RestampStamped(stored, stamp);
      UpsertOverwrites(stored, Restamp(f, stamp), f);
    }
  }

  /** Idempotence for any clock readings, as later loads see it: loading
      after two updates with the same folder gives what loading after one
      gives. */
  lemma UpdateIdempotentAsObserved(prefs: map<string, Text>, f: FolderRec, s1: string, s2: string, s3: string)
    ensures StoredFolders(UpdatedPrefs(UpdatedPrefs(prefs, f, s1), f, s2), s3)
         == StoredFolders(UpdatedPrefs(prefs, f, s1), s3)
  {
    if f.id.Some? {
      var stored := StoredFolders(prefs, s1);
      var u := Upsert(stored, f);
      StoredAfterUpdate(prefs, f, s1, s2);
      StoredAfterUpdate(UpdatedPrefs(prefs, f, s1), f, s2, s3);
      StoredAfterUpdate(prefs, f, s1, s3);
      RestampUpsert(u, f, s2);
      calc {
        RestampAll(Upsert(RestampAll(u, s2), f), s3);
        { RestampUpsert(RestampAll(u, s2), f, s3); }
        Upsert(RestampAll(RestampAll(u, s2), s3), Restamp(f, s3));
        { RestampTwice(u, s2, s3); }
        Upsert(RestampAll(u, s3), Restamp(f, s3));
        { RestampUpsert(u, f, s3); }
        RestampAll(Upsert(u, f), s3);
        { UpsertIdempotent(stored, f); }
        RestampAll(u, s3);
      }
    }
  }

  /** Folders of other ids are kept by an update, exactly as loaded. */
  lemma UpdateKeepsOthers(prefs: map<string, Text>, f: FolderRec, stamp: string, g: FolderRec)
    requires g in StoredFolders(prefs, stamp) && g.id != f.id
    ensures g in StoredFolders(UpdatedPrefs(prefs, f, stamp), stamp)
  {
    if f.id.Some? {
      var stored := StoredFolders(prefs, stamp);
      StoredAfterUpdate(prefs, f, stamp, stamp);
      RestampUpsert(stored, f, stamp);
      StoredHaveIds(prefs, stamp);
      RestampStamped(stored, stamp);
      UpsertKeepsOthers(stored, Restamp(f, stamp), g);
    }
  }

  /** The list an update writes carries the update's own clock reading on
      every folder but the updated one: the ones it merely loaded and saved
      back lose their earlier timestamps. */
  lemma UpdateRestampsOthers(prefs: map<string, Text>, f: FolderRec, stamp: string)
    ensures var u := UpdatedList(prefs, f, stamp);
      forall k :: 0 <= k < |u| ==> u[k] == f || Stamped(u[k], stamp)
  {
    StoredHaveIds(prefs, stamp);
  }

  /** A preference file without the key, or with unreadable text under it,
      loads as the empty list. */
  lemma UnreadableLoadsEmpty(prefs: map<string, Text>, stamp: string)
    requires KEY_FOLDERS !in prefs || prefs[KEY_FOLDERS].Malformed? || !prefs[KEY_FOLDERS].doc.JArray?
    ensures StoredFolders(prefs, stamp) == []
  {
    if KEY_FOLDERS in prefs {
      FailSoft(prefs[KEY_FOLDERS], stamp);
    }
  }
}
