/** One scanned page: the URI of its image, a creation timestamp and a
    display name. Only the name can change after construction. */
module ScannedDocuments {
  import opened Platform
  import opened Codec

  /** The default name of a new page is this prefix and the compact clock. */
  const PAGE_NAME_PREFIX := "Page_"

  class ScannedDocument {
    const imageUri: Uri
    const timestamp: string
    var name: string

    /** `new ScannedDocument(uri)`, reading the clock once. */
    constructor (imageUri: Uri, now: ClockReading)
      ensures this.imageUri == imageUri
      ensures timestamp == now.display
      ensures StartsWith(name, PAGE_NAME_PREFIX) && name[|PAGE_NAME_PREFIX|..] == now.compact
    {
      this.imageUri := imageUri;
      timestamp := now.display;
      name := PAGE_NAME_PREFIX + now.compact;
    }

    /** The page as a value. */
    function View(): PageRec
      reads this
    {
      PageRec(imageUri, name, timestamp)
    }

    /** Changes the name and nothing else. */
    method SetName(name: string)
      modifies this`name
      ensures this.name == name
      ensures View() == old(View()).(name := name)
    {
      this.name := name;
    }
  }

  /** The pages of a folder as values, in order. */
  function PageViews(ds: seq<ScannedDocument>): (r: seq<PageRec>)
    reads ds
    ensures |r| == |ds|
    ensures forall j :: 0 <= j < |ds| ==> r[j] == ds[j].View()
    decreases |ds|
  {
    if ds == [] then [] else PageViews(ds[..|ds| - 1]) + [ds[|ds| - 1].View()]
  }
}
