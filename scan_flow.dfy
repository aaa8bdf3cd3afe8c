/** The app's path from a scan to its PDF, around the store. A scan makes a
    folder with its default name, adds the scanned pages and saves the PDF
    under that name at once; the name the user types in the naming dialog
    arrives afterwards; the folder viewer then looks the PDF up under the
    folder's current name, and only for a folder with pages. */
module ScanFlow {
  import opened Wrappers
  import opened Platform
  import opened Codec
  import opened FolderList
  import opened ScannedDocuments
  import opened DocumentFolders
  import opened Storage

  /** The loop that adds one new page per scanned image, in order, after
      the folder's existing pages. */
  method AddScannedPages(folder: DocumentFolder, uris: seq<Uri>, now: ClockReading)
    modifies folder`documents
    ensures |folder.documents| == |old(folder.documents)| + |uris|
    ensures folder.documents[..|old(folder.documents)|] == old(folder.documents)
    ensures forall j :: 0 <= j < |uris| ==>
      folder.documents[|old(folder.documents)| + j].View() == PageRec(uris[j], PAGE_NAME_PREFIX + now.compact, now.display)
  {
    ghost var docs: seq<ScannedDocument> := [];
    for i := 0 to |uris|
      invariant |docs| == i
      invariant folder.documents == old(folder.documents) + docs
      invariant forall j :: 0 <= j < i ==> docs[j].View() == PageRec(uris[j], PAGE_NAME_PREFIX + now.compact, now.display)
    {
      var page := AddScannedPage(folder, uris[i], now);
      docs := docs + [page];
    }
  }

  /** One turn of that loop: `addDocument(new ScannedDocument(uri))`. */
  method AddScannedPage(folder: DocumentFolder, uri: Uri, now: ClockReading) returns (page: ScannedDocument)
    modifies folder`documents
    ensures fresh(page)
    ensures folder.documents == old(folder.documents) + [page]
    ensures page.View() == PageRec(uri, PAGE_NAME_PREFIX + now.compact, now.display)
  {
    page := new ScannedDocument(uri, now);
    assert page.name == PAGE_NAME_PREFIX + now.compact;
    folder.AddDocument(page);
  }

  /** The scan handler: a new folder with the scanned pages, its PDF saved
      under the folder's default name, then the folder saved. */
  method Scan(store: DocumentStorageManager, input: InputStream, uris: seq<Uri>, now: ClockReading)
    returns (folder: DocumentFolder, ghost scanned: FolderRec)
    requires input.Valid() && !input.closed
    modifies store`prefs, store`files, input
    ensures fresh(folder) && folder.View() == scanned
    ensures scanned.id == Some(now.millis) && scanned.name == FOLDER_NAME_PREFIX + now.compact
    ensures |scanned.pages| == |uris|
    ensures store.files == old(store.files)[PdfPathOf(now.millis, scanned.name) := old(input.data[input.pos..])]
    ensures store.prefs == UpdatedPrefs(old(store.prefs), scanned, now.display)
  {
    folder := new DocumentFolder(now);
    AddScannedPages(folder, uris, now);
    scanned := folder.View();
    assert scanned.id == Some(now.millis) && scanned.name == FOLDER_NAME_PREFIX + now.compact;
    ghost var prefs := store.prefs;
    var saved := store.SavePdf(input, now.millis, folder.name);
    assert folder.View() == scanned;
    store.UpdateFolder(folder, now);
    assert store.prefs == UpdatedPrefs(prefs, scanned, now.display);
  }

  /** The naming dialog's Save: the new name, then the folder saved. */
  method NameFolder(store: DocumentStorageManager, folder: DocumentFolder, newName: string, now: ClockReading)
    modifies folder`name, store`prefs
    ensures folder.View() == old(folder.View()).(name := newName)
    ensures store.prefs == UpdatedPrefs(old(store.prefs), folder.View(), now.display)
  {
    folder.SetName(newName);
    store.UpdateFolder(folder, now);
  }

  /** As the app does it: the pages are added and the PDF is saved under the
      default name, the folder is renamed and saved, and the viewer loads the
      folder by id and asks for its PDF under the new name, which finds
      nothing. */
  method ScanRenameFindPdf(store: DocumentStorageManager, input: InputStream, uris: seq<Uri>,
                           now: ClockReading, newName: string, later: ClockReading)
    returns (pdf: Option<PdfPath>)
    requires input.Valid() && !input.closed
    modifies store`prefs, store`files, input
    ensures newName != FOLDER_NAME_PREFIX + now.compact && PdfPathOf(now.millis, newName) !in old(store.files)
      ==> pdf.None?
  {
    var folder;
    ghost var scanned;
    folder, scanned := Scan(store, input, uris, now);
    ghost var saved := store.prefs;
    NameFolder(store, folder, newName, now);
    pdf := ViewPdf(store, now.millis, later);
    UpdateThenLookup(saved, scanned.(name := newName), now.display, later.display);
    if newName != scanned.name && PdfPathOf(now.millis, newName) !in old(store.files) {
      RenamedPdfIsMissing(old(store.files), now.millis, scanned.name, newName, old(input.data[input.pos..]));
    }
  }

  /** Corrected: the naming step moves the PDF along with the name, so the
      viewer finds it under the new name, with the bytes of the scan, once
      the scan has pages; a scan without pages shows no PDF either way. */
  method ScanRenameFindPdfFixed(store: DocumentStorageManager, input: InputStream, uris: seq<Uri>,
                                now: ClockReading, newName: string, later: ClockReading)
    returns (pdf: Option<PdfPath>)
    requires input.Valid() && !input.closed
    modifies store`prefs, store`files, input
    ensures uris == [] ==> pdf.None?
    ensures uris != [] ==> pdf == Some(PdfPathOf(now.millis, newName))
    ensures uris != [] ==> pdf.value in store.files && store.files[pdf.value] == old(input.data[input.pos..])
  {
    var folder;
    ghost var scanned;
    folder, scanned := Scan(store, input, uris, now);
    ghost var saved := store.prefs;
    var oldName := folder.name;
    NameFolder(store, folder, newName, now);
    store.RenamePdf(now.millis, oldName, newName);
    pdf := ViewPdf(store, now.millis, later);
    UpdateThenLookup(saved, scanned.(name := newName), now.display, later.display);
  }

  /** The folder viewer: the folder by id; a folder without pages shows
      "No documents found" and returns before the PDF lookup; otherwise the
      PDF under the name of the folder as loaded. */
  method ViewPdf(store: DocumentStorageManager, folderId: string, later: ClockReading) returns (pdf: Option<PdfPath>)
    ensures var stored := StoredFolders(store.prefs, later.display);
      match FindFirst(stored, Some(folderId))
      case None => pdf.None?
      case Some(k) =>
        && (pdf.Some? <==> stored[k].pages != [] && PdfPathOf(folderId, stored[k].name) in store.files)
        && (pdf.Some? ==> pdf.value == PdfPathOf(folderId, stored[k].name))
  {
    var shown := store.GetFolderById(Some(folderId), later);
    if shown == null {
      return None;
    }
    if shown.documents == [] {
      return None;
    }
    pdf := store.GetPdfFile(shown.uniqueId, Some(shown.name));
  }
}
