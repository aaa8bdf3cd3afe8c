/** One scan session: an id, a display name, a creation timestamp and the
    pages in scan order. Name and id have setters, pages are only appended,
    and the timestamp never changes after construction. */
module DocumentFolders {
  import opened Wrappers
  import opened Platform
  import opened Codec
  import opened ScannedDocuments

  /** The default name of a new folder is this prefix and the compact clock. */
  const FOLDER_NAME_PREFIX := "Scan_"

  class DocumentFolder {
    var name: string
    const timestamp: string
    var documents: seq<ScannedDocument>
    /** `None` is a `null` id, which `setUniqueId(null)` can produce. */
    var uniqueId: Option<string>

    /** `new DocumentFolder()`, reading the clock once: the id is the
        millisecond count, and the page list starts empty. */
    constructor (now: ClockReading)
      ensures documents == []
      ensures uniqueId == Some(now.millis)
      ensures timestamp == now.display
      ensures StartsWith(name, FOLDER_NAME_PREFIX) && name[|FOLDER_NAME_PREFIX|..] == now.compact
    {
      documents := [];
      uniqueId := Some(now.millis);
      timestamp := now.display;
      name := FOLDER_NAME_PREFIX + now.compact;
    }

    /** The folder and its pages as a value. */
    function View(): FolderRec
      reads this, documents
    {
      FolderRec(uniqueId, name, timestamp, PageViews(documents))
    }

    /** Changes the name only: id, timestamp and pages stay. */
    method SetName(name: string)
      modifies this`name
      ensures this.name == name
      ensures View() == old(View()).(name := name)
    {
      this.name := name;
    }

    /** Changes the id only. */
    method SetUniqueId(uniqueId: Option<string>)
      modifies this`uniqueId
      ensures this.uniqueId == uniqueId
      ensures View() == old(View()).(id := uniqueId)
    {
      this.uniqueId := uniqueId;
    }

    /** Appends `document` after the existing pages; name, id and
        timestamp stay. */
    method AddDocument(document: ScannedDocument)
      modifies this`documents
      ensures documents == old(documents) + [document]
      ensures View() == old(View()).(pages := old(View().pages) + [document.View()])
    {
      documents := documents + [document];
    }
  }

  /** Every page object of the folders in `fs`. */
  ghost function Pages(fs: seq<DocumentFolder>): (r: set<ScannedDocument>)
    reads fs
    ensures forall k, j :: 0 <= k < |fs| && 0 <= j < |fs[k].documents| ==> fs[k].documents[j] in r
  {
    set k, j | 0 <= k < |fs| && 0 <= j < |fs[k].documents| :: fs[k].documents[j]
  }

  /** The folders as values, in order. */
  function FolderViews(fs: seq<DocumentFolder>): (r: seq<FolderRec>)
    reads fs, Pages(fs)
    ensures |r| == |fs|
    ensures forall k :: 0 <= k < |fs| ==> r[k] == fs[k].View()
    decreases |fs|
  {
    if fs == [] then [] else FolderViews(fs[..|fs| - 1]) + [fs[|fs| - 1].View()]
  }

  lemma FolderViewsSnoc(fs: seq<DocumentFolder>, f: DocumentFolder)
    ensures FolderViews(fs + [f]) == FolderViews(fs) + [f.View()]
  {
    assert (fs + [f])[..|fs|] == fs;
  }

  lemma FolderViewsUpdate(fs: seq<DocumentFolder>, i: nat, f: DocumentFolder)
    requires i < |fs|
    ensures FolderViews(fs[i := f]) == FolderViews(fs)[i := f.View()]
  {
  }

  /** The ids of the views are the folders' ids. */
  lemma FolderViewsIds(fs: seq<DocumentFolder>, n: nat)
    requires n <= |fs|
    ensures forall m :: 0 <= m < n ==> FolderViews(fs)[m].id == fs[m].uniqueId
  {
  }
}
