# Document scan folder store

A model of the metadata store of an Android document-scanning app, with
proofs. The app groups scanned pages into folders. `ScannedDocument` is one
page: the image URI, a timestamp and a name. `DocumentFolder` is one scan
session: an id, a name, a timestamp and its pages in order.
`DocumentStorageManager` keeps the whole folder list as one JSON array,
stored under the key `"folders"` of the preference file
`"document_folders"`. It writes PDF files to `<filesDir>/<folderId>/<fileName>.pdf`.

The model is imperative where the Java is:

- `ScannedDocument`, `DocumentFolder` and `DocumentStorageManager` are
  classes. Their setters and operations have field frames.
- The store's persisted state is two fields. `prefs` maps each preference
  key to its stored text. `files` maps each PDF path to its bytes.
- `saveFolders`, `loadFolders`, `getFolderById`, `updateFolder` and
  `savePdf` are methods with the loops of the source.
- Each loop is proved against a pure specification function over values:
  - `FolderRec` and `PageRec` are the values.
  - The encoders are `EncodeFolders`, `EncodePages` and `FolderObject`.
  - The decoders are `DecodeItems`, `DecodeFolder` and `DecodePage`.
  - The list functions are `FindFirst` and `Upsert`.
  - The store functions are `StoredFolders` and `UpdatedPrefs`.
- The properties of the store are lemmas about those functions: the round
  trip, lookup, upsert and idempotence.

Modules:

| file | module | what it holds |
|---|---|---|
| wrappers.dfy | Wrappers | `Option` |
| platform.dfy | Platform | bytes, `Uri`, one clock reading (`ClockReading`) |
| json.dfy | Json | a JSON tree and the `org.json` accessors the store uses; `Text` is a stored string: serialized JSON or unparsable text |
| codec.dfy | Codec | folder and page records; encoding as `saveFolders` does it, decoding as `loadFolders` does it; round-trip and failure lemmas |
| folder_list.dfy | FolderList | first-match lookup and upsert by id, with their lemmas |
| scanned_document.dfy | ScannedDocuments | class `ScannedDocument` |
| document_folder.dfy | DocumentFolders | class `DocumentFolder` |
| storage.dfy | Storage | class `DocumentStorageManager`, a byte `InputStream`, and lemmas about what `updateFolder` leaves behind |
| scan_flow.dfy | ScanFlow | the app's sequence from a scan to the viewer's PDF lookup, as written and corrected |

Facts of the code that the model reproduces and proves:

- **No timestamp is stored back.** Loading builds each folder with
  `new DocumentFolder()` and each page with `new ScannedDocument(uri)`, so
  every folder timestamp and every page timestamp becomes the load-time
  clock. A round trip keeps order, ids, names, page uris and page names,
  and nothing else (`Codec.SaveLoadRoundTrip`).
- **An update rewrites the others too.** `updateFolder` loads, upserts and
  saves the whole list. So the folders it did not touch are written back
  with the update-time timestamps (`Storage.UpdateRestampsOthers`).
- **A failed load is a prefix.** A `JSONException` in the middle of the list
  returns the folders decoded before it, not an empty list
  (`Codec.DecodeItemsPrefix`, `Codec.StopAt`).
- **A null id truncates later loads.** `updateFolder` refuses a folder whose
  id is null, but `saveFolders` does not. `put("id", null)` leaves the
  key out, so the next load stops at that folder
  (`Codec.NullIdTruncatesLoad`).
- **The list is a bare array.** `saveFolders` stores the text of one JSON
  array under the key `"folders"` (DocumentStorageManager.java:59), with no
  enclosing object, and `loadFolders` parses that text as an array
  (DocumentStorageManager.java:75-76).
- **A PDF is found only under the name it was saved with.** `savePdf` and
  `getPdfFile` build the path from the folder id and the file name the
  caller passes (DocumentStorageManager.java:153-158, 183-184). The app
  passes the folder's name at the time of each call; see "## Findings".

## Model

| member | source | states |
|---|---|---|
| ScannedDocuments.ScannedDocument.constructor | app/src/main/java/com/example/sr_document_scan/ScannedDocument.java:14-24 | the image URI is the argument, the timestamp is the clock's display reading, and the name is `"Page_"` followed by the compact reading |
| ScannedDocuments.ScannedDocument.SetName | app/src/main/java/com/example/sr_document_scan/ScannedDocument.java:38-40 | only the name changes; the page value equals the old one with the new name (the URI and timestamp are `const`: no setter exists) |
| DocumentFolders.DocumentFolder.constructor | app/src/main/java/com/example/sr_document_scan/DocumentFolder.java:15-26 | the page list is empty, the id is the millisecond reading, the timestamp is the display reading, and the name is `"Scan_"` followed by the compact reading |
| DocumentFolders.DocumentFolder.SetName | app/src/main/java/com/example/sr_document_scan/DocumentFolder.java:32-34 | only the name changes: id, timestamp and pages stay |
| DocumentFolders.DocumentFolder.SetUniqueId | app/src/main/java/com/example/sr_document_scan/DocumentFolder.java:53-55 | only the id changes, including to `null` |
| DocumentFolders.DocumentFolder.AddDocument | app/src/main/java/com/example/sr_document_scan/DocumentFolder.java:44-46 | the page is appended at the end; the earlier pages, name, id and timestamp stay |
| Storage.DocumentStorageManager.constructor | app/src/main/java/com/example/sr_document_scan/DocumentStorageManager.java:29-31 | the store sees exactly the preference file and the files of the application context it is given |
| Storage.DocumentStorageManager.SaveFolders | app/src/main/java/com/example/sr_document_scan/DocumentStorageManager.java:34-67 | the text under `"folders"` becomes the encoding of the list's current values, in order; every other preference stays |
| Storage.DocumentStorageManager.EncodeFolderList | app/src/main/java/com/example/sr_document_scan/DocumentStorageManager.java:39-56 | the outer loop builds exactly the array `EncodeFolders` gives for the folders' values |
| Storage.DocumentStorageManager.EncodeDocuments | app/src/main/java/com/example/sr_document_scan/DocumentStorageManager.java:45-52 | the inner loop builds one object per page, in page order |
| Storage.DocumentStorageManager.LoadFolders | app/src/main/java/com/example/sr_document_scan/DocumentStorageManager.java:70-108 | the folders returned are new objects whose values are `StoredFolders(prefs, now)`: the decodable prefix of the stored array, stamped with the load time |
| Storage.DocumentStorageManager.ReadItems | app/src/main/java/com/example/sr_document_scan/DocumentStorageManager.java:80-101 | the outer loop returns new folders whose values are what `DecodeItems` keeps, stopping at the first failure |
| Storage.DocumentStorageManager.ReadNext | app/src/main/java/com/example/sr_document_scan/DocumentStorageManager.java:80-101 | one turn of the outer loop either extends the complete prefix by the decoded folder or ends the load with the folders read so far |
| Storage.DocumentStorageManager.ReadFolder | app/src/main/java/com/example/sr_document_scan/DocumentStorageManager.java:81-99 | returns `null` exactly when the element does not decode; otherwise a new folder whose value is the decoded one |
| Storage.DocumentStorageManager.ReadDocument | app/src/main/java/com/example/sr_document_scan/DocumentStorageManager.java:91-96 | returns `null` exactly when the page does not decode; otherwise a new page with the stored uri and name |
| Storage.DocumentStorageManager.GetFolderById | app/src/main/java/com/example/sr_document_scan/DocumentStorageManager.java:111-121 | returns `null` when no loaded folder has the id; otherwise a new folder that is the first loaded folder with that id |
| Storage.DocumentStorageManager.FindById | app/src/main/java/com/example/sr_document_scan/DocumentStorageManager.java:113-120 | the scan returns the folder at `FindFirst`'s index, or `null` when `FindFirst` finds nothing |
| Storage.DocumentStorageManager.UpdateFolder | app/src/main/java/com/example/sr_document_scan/DocumentStorageManager.java:124-149 | a `null` folder, or a folder with a `null` id, leaves the preferences unchanged; otherwise they become `UpdatedPrefs`: the loaded list with the folder upserted, saved |
| Storage.DocumentStorageManager.Merge | app/src/main/java/com/example/sr_document_scan/DocumentStorageManager.java:131-146 | the list after the loop has the values `Upsert` gives: the first match is replaced, or the folder is appended |
| Storage.DocumentStorageManager.SavePdf | app/src/main/java/com/example/sr_document_scan/DocumentStorageManager.java:152-174 | the file at `folderId/fileName.pdf` holds exactly the bytes left in the stream, in order; no other file changes; the stream is consumed and closed |
| Storage.InputStream.Read | app/src/main/java/com/example/sr_document_scan/DocumentStorageManager.java:163 | returns -1 at the end of the stream; otherwise it reads between 1 and `buffer.Length` bytes, which are the next bytes of the stream |
| Storage.DocumentStorageManager.GetPdfFile | app/src/main/java/com/example/sr_document_scan/DocumentStorageManager.java:177-193 | a `null` argument gives `null`; otherwise the path `folderId/fileName.pdf` is returned exactly when that file exists |
| Storage.SaveThenGetPdf | app/src/main/java/com/example/sr_document_scan/DocumentStorageManager.java:152-193 | after `savePdf(in, id, name)`, `getPdfFile(id, name)` finds the path it wrote, which holds the bytes of the stream |
| Storage.PdfPathInjective | app/src/main/java/com/example/sr_document_scan/DocumentStorageManager.java:183-184 | two (folder id, file name) pairs give the same `PdfPath` if and only if the pairs are equal (a pair, not the joined `File` path: see "## Left out") |
| Codec.SaveLoadRoundTrip | app/src/main/java/com/example/sr_document_scan/DocumentStorageManager.java:39-99 | loading a saved list whose ids are all non-null gives it back completely: same length, order, ids, names and pages (uris and names), with every timestamp equal to the load time |
| Codec.DecodeFolderOfEncoded | app/src/main/java/com/example/sr_document_scan/DocumentStorageManager.java:81-97 | a saved folder with an id decodes to itself, re-stamped |
| Codec.DecodePagesOfEncoded | app/src/main/java/com/example/sr_document_scan/DocumentStorageManager.java:89-97 | a saved page list decodes to itself, in order, re-stamped |
| Codec.DecodePageOfEncoded | app/src/main/java/com/example/sr_document_scan/DocumentStorageManager.java:91-95 | a saved page decodes to its uri and name, with the load timestamp |
| Codec.NullIdTruncatesLoad | app/src/main/java/com/example/sr_document_scan/DocumentStorageManager.java:41-85 | if folder `i` is the first folder saved with a `null` id, the next load returns exactly the first `i` folders and stops at index `i` |
| Codec.DecodeItemsPrefix | app/src/main/java/com/example/sr_document_scan/DocumentStorageManager.java:71-107 | a load returns every folder, or stops at the first element that fails and returns exactly the folders before it; each folder returned is decoded from its own element |
| Codec.StopAt | app/src/main/java/com/example/sr_document_scan/DocumentStorageManager.java:80-107 | the first element that fails ends the load with the folders before it; later elements are never decoded |
| Codec.PagesFailAt | app/src/main/java/com/example/sr_document_scan/DocumentStorageManager.java:90-97 | any page that fails makes its whole folder fail |
| Codec.LoadedAreStamped | app/src/main/java/com/example/sr_document_scan/DocumentStorageManager.java:83-96 | every loaded folder has an id, and it and all its pages carry the load-time timestamp |
| Codec.FailSoft | app/src/main/java/com/example/sr_document_scan/DocumentStorageManager.java:73-107 | text that does not parse as an array loads as the empty list |
| Codec.EmptyArrayLoadsEmpty | app/src/main/java/com/example/sr_document_scan/DocumentStorageManager.java:75 | the default text `"[]"` loads as the empty list |
| Storage.UnreadableLoadsEmpty | app/src/main/java/com/example/sr_document_scan/DocumentStorageManager.java:73-107 | a missing key, unparsable text, or text that is not an array gives an empty loaded list |
| FolderList.FindFirst | app/src/main/java/com/example/sr_document_scan/DocumentStorageManager.java:113-118 | the index found holds the id, and no earlier folder does; nothing is found exactly when no folder has the id |
| FolderList.FindFirstAt | app/src/main/java/com/example/sr_document_scan/DocumentStorageManager.java:113-118 | a forward scan that stops at the first match stops at `FindFirst`'s index |
| FolderList.Upsert | app/src/main/java/com/example/sr_document_scan/DocumentStorageManager.java:131-146 | the result is the same length or one longer; it contains the folder; every element is the folder or came from the list |
| FolderList.UpsertReplacesFirstMatch | app/src/main/java/com/example/sr_document_scan/DocumentStorageManager.java:133-141 | with a first match at `i`, the result is the list with position `i` replaced: same length, every other position unchanged |
| FolderList.UpsertAppendsWhenAbsent | app/src/main/java/com/example/sr_document_scan/DocumentStorageManager.java:143-146 | with no match, the folder is appended, so the length grows by one and the earlier folders are unchanged |
| FolderList.UpsertOverwrites | app/src/main/java/com/example/sr_document_scan/DocumentStorageManager.java:130-148 | a second upsert with the same id overrides the first |
| FolderList.UpsertIdempotent | app/src/main/java/com/example/sr_document_scan/DocumentStorageManager.java:130-148 | upserting the same folder twice equals upserting it once |
| FolderList.UpsertKeepsOthers | app/src/main/java/com/example/sr_document_scan/DocumentStorageManager.java:133-146 | every folder of another id survives an upsert |
| FolderList.UpsertThenFind | app/src/main/java/com/example/sr_document_scan/DocumentStorageManager.java:111-149 | after an upsert, the first folder with the folder's id is the folder itself |
| FolderList.FindFirstRestamped | app/src/main/java/com/example/sr_document_scan/DocumentStorageManager.java:111-121 | re-stamping a list keeps every lookup result |
| FolderList.RestampUpsert | app/src/main/java/com/example/sr_document_scan/DocumentStorageManager.java:130-148 | re-stamping after an upsert equals upserting the re-stamped folder into the re-stamped list |
| FolderList.RestampStamped | app/src/main/java/com/example/sr_document_scan/DocumentStorageManager.java:83-96 | a list already stamped with `stamp` is unchanged by re-stamping with it |
| FolderList.RestampTwice | app/src/main/java/com/example/sr_document_scan/DocumentStorageManager.java:83-96 | two loads in a row stamp only with the later clock |
| Storage.StoredHaveIds | app/src/main/java/com/example/sr_document_scan/DocumentStorageManager.java:83-96 | every folder the store loads has an id and the load-time timestamps |
| Storage.LookupOfNullIdIsAbsent | app/src/main/java/com/example/sr_document_scan/DocumentStorageManager.java:111-121 | `getFolderById(null)` finds nothing |
| Storage.StoredAfterUpdate | app/src/main/java/com/example/sr_document_scan/DocumentStorageManager.java:124-149 | after an update with a non-null id, a later load gives the written list back, re-stamped with the later clock |
| Storage.UpdateThenLookup | app/src/main/java/com/example/sr_document_scan/DocumentStorageManager.java:111-149 | after `updateFolder(f)` with a non-null id, `getFolderById(f.id)` finds a folder with `f`'s id, name and pages, stamped with the lookup time |
| Storage.UpdateIdempotent | app/src/main/java/com/example/sr_document_scan/DocumentStorageManager.java:124-149 | with one clock reading, a second `updateFolder(f)` leaves the preference file exactly as the first left it (a `null` id leaves it unchanged both times) |
| Storage.UpdateIdempotentAsObserved | app/src/main/java/com/example/sr_document_scan/DocumentStorageManager.java:124-149 | with any clock readings, loading after two updates with `f` gives what loading after one update gives |
| Storage.UpdateKeepsOthers | app/src/main/java/com/example/sr_document_scan/DocumentStorageManager.java:133-146 | with one clock reading, a folder of another id that a load returned before the update is still returned after it |
| Storage.UpdateRestampsOthers | app/src/main/java/com/example/sr_document_scan/DocumentStorageManager.java:130-148 | every folder the update writes, other than the updated one, carries the update-time timestamps |
| Codec.EncodePage | app/src/main/java/com/example/sr_document_scan/DocumentStorageManager.java:47-50 | a page object has exactly the keys `uri`, `name` and `timestamp`, holding the uri's text, the name and the timestamp |
| Codec.EncodePages | app/src/main/java/com/example/sr_document_scan/DocumentStorageManager.java:45-52 | one page object per page, in page order |
| Codec.FolderObject | app/src/main/java/com/example/sr_document_scan/DocumentStorageManager.java:40-54 | a folder object has the keys `name`, `timestamp` and `documents`, and `id` exactly when the id is not `null`, as `put(key, null)` removes the key |
| Codec.EncodeFolder | app/src/main/java/com/example/sr_document_scan/DocumentStorageManager.java:40-54 | the folder object of a folder's fields and its encoded pages |
| Codec.EncodeFolders | app/src/main/java/com/example/sr_document_scan/DocumentStorageManager.java:37-56 | one array of folder objects, in list order |
| Codec.DecodePage | app/src/main/java/com/example/sr_document_scan/DocumentStorageManager.java:91-95 | a page decodes exactly when the element is an object with string `uri` and `name`; the page holds those and the load-time timestamp |
| Codec.DecodePages | app/src/main/java/com/example/sr_document_scan/DocumentStorageManager.java:90-97 | all pages decode, in order, one per element, or the folder fails |
| Codec.DecodeFolder | app/src/main/java/com/example/sr_document_scan/DocumentStorageManager.java:81-97 | a decoded folder has the element's string `id` and `name`, one page per element of its `documents` array, and the load-time timestamp |
| Codec.DecodeItems | app/src/main/java/com/example/sr_document_scan/DocumentStorageManager.java:80-101 | a load never returns more folders than elements, and never reports the text unreadable |
| Codec.Load | app/src/main/java/com/example/sr_document_scan/DocumentStorageManager.java:75-107 | the text is unreadable exactly when it is not the text of an array, and then the list is empty |
| Storage.StoredFolders | app/src/main/java/com/example/sr_document_scan/DocumentStorageManager.java:70-108 | the folders `loadFolders` returns, as values: the load of the stored text with the load-time clock |
| Storage.ReadFolders | app/src/main/java/com/example/sr_document_scan/DocumentStorageManager.java:75 | the stored text, or `"[]"` when the key is missing |
| Storage.UpdatedList | app/src/main/java/com/example/sr_document_scan/DocumentStorageManager.java:130-146 | the loaded list with the folder upserted by id |
| Storage.UpdatedPrefs | app/src/main/java/com/example/sr_document_scan/DocumentStorageManager.java:124-148 | a folder with a `null` id leaves the file as it is; otherwise the key `"folders"` is set and every other key keeps its text |
| Storage.PdfPathOf | app/src/main/java/com/example/sr_document_scan/DocumentStorageManager.java:153-158 | the file `fileName + ".pdf"` in the directory `folderId` |
| Storage.RenamedPdfIsMissing | app/src/main/java/com/example/sr_document_scan/DocumentStorageManager.java:152-193 | after a PDF is saved under one name, a lookup under a different name finds only a file that was there before |
| Storage.MovePdf | app/src/main/java/com/example/sr_document_scan/MainActivity.java:176-179 | the correction for the naming step, which the code lacks: a moved file is found at its new path with its bytes, is gone from the old path, and every other file stays |
| Storage.DocumentStorageManager.RenamePdf | app/src/main/java/com/example/sr_document_scan/MainActivity.java:176-179 | the correction for the naming step, which the code lacks: the folder's PDF moves from the path of its old name to the path of its new name |
| ScanFlow.AddScannedPage | app/src/main/java/com/example/sr_document_scan/MainActivity.java:65-66 | one new page with the image's URI and the default page name is appended to the folder |
| ScanFlow.AddScannedPages | app/src/main/java/com/example/sr_document_scan/MainActivity.java:62-68 | one new page per scanned image is appended, in order, after the existing pages, which stay |
| ScanFlow.Scan | app/src/main/java/com/example/sr_document_scan/MainActivity.java:57-88 | a new folder with the default name holds one page per image; its PDF is saved under the default name, and the folder is saved with `updateFolder` |
| ScanFlow.NameFolder | app/src/main/java/com/example/sr_document_scan/MainActivity.java:176-179 | only the folder's name changes, and the folder is saved again with `updateFolder` |
| ScanFlow.ViewPdf | app/src/main/java/com/example/sr_document_scan/DocumentViewerActivity.java:65-128 | the viewer loads the folder by id; a folder without pages returns before the PDF lookup; otherwise it asks for the PDF under the loaded name, and finds one exactly when that path exists |
| ScanFlow.ScanRenameFindPdf | app/src/main/java/com/example/sr_document_scan/MainActivity.java:57-88 | as written: the PDF is saved under the default name, so after a rename to any other name the viewer finds no PDF, with or without pages, unless a file already had that path |
| ScanFlow.ScanRenameFindPdfFixed | app/src/main/java/com/example/sr_document_scan/MainActivity.java:173-180 | corrected: the naming step moves the PDF with the name, so for a scan with pages the viewer finds it under the new name, holding the scanned bytes; a scan without pages shows no PDF |

## Left out

- The UI activities, the ML Kit scanner and Glide are not part of this
  model. The exception is the one sequence in `ScanFlow`: a scan, the
  naming dialog and the viewer's PDF lookup. The dialogs' trim-and-non-empty
  check before a rename is a caller's concern, so the setters accept any
  name.
- In `ScanFlow`, one clock reading serves the scan and both of its saves.
  The viewer's load has a clock reading of its own. The toasts and the
  list display are left out.
- `SharedPreferences` is a map from key to stored text. `apply()` is
  modelled as an immediate write; its asynchronous commit is left out.
- `org.json` and its text format are left out. A stored string is either
  the serialized text of a JSON value or unparsable text. Parsing the
  serialized text of a value gives back that value.
- `getString` coercing non-string values to text is left out. So is
  `JSONObject.NULL`. Only strings decode as strings.
- `System.currentTimeMillis` and `SimpleDateFormat` are one `ClockReading`
  argument per operation. Every object built in one call gets the same
  reading; id collisions are not modelled.
- Names are never `null`. An id is `Option<string>`, because
  `setUniqueId(null)` and `updateFolder`'s null check make `null`
  observable.
- `getDocuments` returns the live list, which a caller could mutate. That
  aliasing is left out: pages are added only through `AddDocument`.
- The getters are the fields themselves. The timestamps and the image URI
  are `const`, matching the code, which has no setters for them.
- File I/O is a map from PDF path to bytes. `mkdirs`, `FileOutputStream`,
  `flush` and `close` are left out, and so are `IOException` and its
  propagation out of `savePdf`. A path is a (directory, file name) pair
  under the files directory.
- Storage.PdfPathInjective: holds for the pair, not for the path Java
  builds. `new File(new File(filesDir, folderId), fileName + ".pdf")` joins
  the parts with `/` and normalizes the result. So `("a/b", "c")` and
  `("a", "b/c")` name the same file, and so do `("id", "x//y")` and
  `("id", "x/y")`. The lemma describes the files the app writes only when
  ids and names contain no `/` and the id is not empty. The rename dialog
  only trims its input.
- `Log` calls and concurrency between UI callbacks are left out. The model
  is single-threaded.
- Storage.DocumentStorageManager.LoadFolders: states that the returned
  folder objects are new, not that their page objects are.
- Storage.DocumentStorageManager.UpdateFolder: its result is stated with
  the folder's value at the call. The method changes only `prefs`, so that
  value is the same at the end.

## Findings

| source | as written | input that shows it | evidently intended | confidence | as-written member | corrected member |
|---|---|---|---|---|---|---|
| app/src/main/java/com/example/sr_document_scan/MainActivity.java:57-88 | the PDF is saved as `<id>/<name>.pdf` under the folder's default name `"Scan_" + compact clock` (line 75). The naming dialog (lines 173-180), or the viewer's rename (DocumentViewerActivity.java:232-238), changes the name afterwards. The viewer looks the PDF up under the current name (DocumentViewerActivity.java:122). | scan one page at clock compact `20231114_221320`, so the PDF is `Scan_20231114_221320.pdf`; name the folder `Receipts`; `getPdfFile(id, "Receipts")` returns `null` and "View PDF" is not shown | a folder's PDF stays reachable after its folder is renamed | not executed; read from the code | ScanFlow.ScanRenameFindPdf, Storage.RenamedPdfIsMissing | ScanFlow.ScanRenameFindPdfFixed, Storage.DocumentStorageManager.RenamePdf |
