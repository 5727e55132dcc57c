/** The app's records and its `DataManager`: the folder list, the document
    list (newest first) and the settings, with the operations the screens
    call on them. Persistence is not modelled; identifiers and dates are
    opaque numbers supplied by the caller. */
module Store {
  import opened Common

  /** A `UUID`. */
  type Id = nat

  /** A `Date`, as an opaque instant. */
  type Date = int

  /** A saved scan. `folderId` is `None` for a document in no folder. */
  datatype ScannedDocument = ScannedDocument(
    id: Id,
    imagePath: string,
    category: string,
    confidence: real,
    date: Date,
    folderId: Option<Id>,
    tags: seq<string>,
    extractedText: Option<string>,
    detectedUrls: seq<string>,
    detectedAmount: Option<real>,
    detectedCurrency: Option<string>)

  datatype DocumentFolder = DocumentFolder(id: Id, name: string, icon: string, color: string, createdDate: Date)

  /** A folder built with the initialiser's defaults for icon and colour. */
  function NewFolder(id: Id, name: string, createdDate: Date): (f: DocumentFolder)
    ensures f.id == id && f.name == name && f.createdDate == createdDate
    ensures f.icon == "folder.fill" && f.color == "blue"
  {
    DocumentFolder(id, name, "folder.fill", "blue", createdDate)
  }

  datatype AppSettings = AppSettings(
    isDarkMode: bool,
    pinEnabled: bool,
    pinCode: Option<string>,
    soundEnabled: bool,
    hapticEnabled: bool)

  /** The settings of a fresh installation: dark mode, sound and haptics on,
      no PIN. */
  const DefaultSettings := AppSettings(true, false, None, true, true)

  /** The state a `DataManager` publishes. */
  datatype DataManager = DataManager(folders: seq<DocumentFolder>, documents: seq<ScannedDocument>, settings: AppSettings)

  /** The state before anything is loaded. */
  const Empty := DataManager([], [], DefaultSettings)

  /** The four folders a fresh installation starts with, one per scan
      category, created with the given identifiers at the given instant. */
  function DefaultFolders(ids: (Id, Id, Id, Id), now: Date): (fs: seq<DocumentFolder>)
    ensures |fs| == 4
    ensures fs[0].name == "Faturalar" && fs[1].name == "Kimlikler" && fs[2].name == "Kartvizitler" && fs[3].name == "Diğer"
    ensures fs[0].icon == "doc.text.fill" && fs[1].icon == "person.text.rectangle"
    ensures fs[2].icon == "rectangle.portrait.fill" && fs[3].icon == "folder.fill"
    ensures fs[0].color == "blue" && fs[1].color == "purple" && fs[2].color == "pink" && fs[3].color == "gray"
    ensures fs[0].id == ids.0 && fs[1].id == ids.1 && fs[2].id == ids.2 && fs[3].id == ids.3
  {
    [ DocumentFolder(ids.0, "Faturalar", "doc.text.fill", "blue", now),
      DocumentFolder(ids.1, "Kimlikler", "person.text.rectangle", "purple", now),
      DocumentFolder(ids.2, "Kartvizitler", "rectangle.portrait.fill", "pink", now),
      DocumentFolder(ids.3, "Diğer", "folder.fill", "gray", now) ]
  }

  /** Seeds the default folders, but only into an empty folder list. */
  function CreateDefaultFolders(m: DataManager, ids: (Id, Id, Id, Id), now: Date): (r: DataManager)
    ensures m.folders != [] ==> r == m
    ensures m.folders == [] ==> r.folders == DefaultFolders(ids, now)
    ensures r.folders != []
    ensures r.documents == m.documents && r.settings == m.settings
  {
    if m.folders == [] then m.(folders := DefaultFolders(ids, now)) else m
  }

  /** Seeding twice is seeding once, whatever identifiers the second call
      would have used. */
  lemma CreateDefaultFoldersIdempotent(m: DataManager, ids: (Id, Id, Id, Id), now: Date, ids': (Id, Id, Id, Id), later: Date)
    ensures CreateDefaultFolders(CreateDefaultFolders(m, ids, now), ids', later) == CreateDefaultFolders(m, ids, now)
  {
  }

  function AddFolder(m: DataManager, f: DocumentFolder): (r: DataManager)
    ensures r.folders == m.folders + [f]
    ensures r.documents == m.documents && r.settings == m.settings
  {
    m.(folders := m.folders + [f])
  }

  /** The test `$0.id == folder.id`, negated: the folders a deletion keeps. */
  function OtherFolder(id: Id): DocumentFolder -> bool
  {
    (f: DocumentFolder) => f.id != id
  }

  /** The test `$0.folderID == folder?.id`: membership of a document in a
      folder, or in no folder when `folder` is `None`. */
  function InFolder(folder: Option<Id>): ScannedDocument -> bool
  {
    (d: ScannedDocument) => d.folderId == folder
  }

  /** A document no longer filed under `id`, everything else unchanged. */
  function Detach(d: ScannedDocument, id: Id): (e: ScannedDocument)
    ensures e.folderId == (if d.folderId == Some(id) then None else d.folderId)
    ensures e.(folderId := d.folderId) == d
  {
    if d.folderId == Some(id) then d.(folderId := None) else d
  }

  function DetachAll(ds: seq<ScannedDocument>, id: Id): (es: seq<ScannedDocument>)
    ensures |es| == |ds|
    ensures forall k :: 0 <= k < |ds| ==> es[k] == Detach(ds[k], id)
  {
    if ds == [] then [] else [Detach(ds[0], id)] + DetachAll(ds[1..], id)
  }

  /** Removes every folder with the folder's identifier and moves the
      documents filed under it out of any folder. */
  function DeleteFolder(m: DataManager, folder: DocumentFolder): (r: DataManager)
    ensures forall k :: 0 <= k < |r.folders| ==> r.folders[k].id != folder.id
    ensures (forall k :: 0 <= k < |m.folders| ==> m.folders[k].id != folder.id) ==> r.folders == m.folders
    ensures |r.documents| == |m.documents|
    ensures forall k :: 0 <= k < |m.documents| ==>
              && r.documents[k].folderId != Some(folder.id)
              && r.documents[k].(folderId := m.documents[k].folderId) == m.documents[k]
              && (m.documents[k].folderId != Some(folder.id) ==> r.documents[k] == m.documents[k])
    ensures r.settings == m.settings
  {
    m.(folders := Filter(m.folders, OtherFolder(folder.id)), documents := DetachAll(m.documents, folder.id))
  }

  /** Every other folder survives, as often as it occurred... */
  lemma DeleteFolderKeepsOthers(m: DataManager, folder: DocumentFolder, f: DocumentFolder)
    ensures multiset(DeleteFolder(m, folder).folders)[f] == if f.id == folder.id then 0 else multiset(m.folders)[f]
  {
    FilterCount(m.folders, OtherFolder(folder.id), f);
  }

  /** ... and in their order: deleting from a concatenation of folder lists
      deletes from each part. */
  lemma DeleteFolderKeepsOrder(m: DataManager, folder: DocumentFolder, front: seq<DocumentFolder>, back: seq<DocumentFolder>)
    requires m.folders == front + back
    ensures DeleteFolder(m, folder).folders
         == DeleteFolder(m.(folders := front), folder).folders + DeleteFolder(m.(folders := back), folder).folders
  {
    FilterAppend(front, back, OtherFolder(folder.id));
  }

  function AddDocument(m: DataManager, d: ScannedDocument): (r: DataManager)
    ensures |r.documents| == |m.documents| + 1
    ensures r.documents[0] == d && r.documents[1..] == m.documents
    ensures r.folders == m.folders && r.settings == m.settings
  {
    m.(documents := [d] + m.documents)
  }

  /** The test `$0.id == document.id`, negated: the documents a deletion keeps. */
  function OtherDocument(id: Id): ScannedDocument -> bool
  {
    (d: ScannedDocument) => d.id != id
  }

  /** Removes every document with the document's identifier; the image file
      is not modelled. */
  function DeleteDocument(m: DataManager, d: ScannedDocument): (r: DataManager)
    ensures forall k :: 0 <= k < |r.documents| ==> r.documents[k].id != d.id
    ensures (forall k :: 0 <= k < |m.documents| ==> m.documents[k].id != d.id) ==> r == m
    ensures |r.documents| <= |m.documents|
    ensures r.folders == m.folders && r.settings == m.settings
  {
    m.(documents := Filter(m.documents, OtherDocument(d.id)))
  }

  /** Deletion keeps every other document, as often as it occurred... */
  lemma DeleteDocumentKeepsOthers(m: DataManager, d: ScannedDocument, e: ScannedDocument)
    ensures multiset(DeleteDocument(m, d).documents)[e] == if e.id == d.id then 0 else multiset(m.documents)[e]
  {
    FilterCount(m.documents, OtherDocument(d.id), e);
  }

  /** ... and in their order: deleting from a concatenation deletes from
      each part. */
  lemma DeleteDocumentKeepsOrder(m: DataManager, d: ScannedDocument, front: seq<ScannedDocument>, back: seq<ScannedDocument>)
    requires m.documents == front + back
    ensures DeleteDocument(m, d).documents
         == DeleteDocument(m.(documents := front), d).documents + DeleteDocument(m.(documents := back), d).documents
  {
    FilterAppend(front, back, OtherDocument(d.id));
  }

  /** Deleting a document just added under a fresh identifier undoes the addition. */
  lemma DeleteUndoesAdd(m: DataManager, d: ScannedDocument)
    requires forall k :: 0 <= k < |m.documents| ==> m.documents[k].id != d.id
    ensures DeleteDocument(AddDocument(m, d), d) == m
  {
    FilterAppend([d], m.documents, OtherDocument(d.id));
  }

  /** `firstIndex(where: { $0.id == id })`. */
  function FirstIndex(ds: seq<ScannedDocument>, id: Id): (r: Option<nat>)
    ensures r.None? <==> forall k :: 0 <= k < |ds| ==> ds[k].id != id
    ensures r.Some? ==> r.value < |ds| && ds[r.value].id == id && forall k :: 0 <= k < r.value ==> ds[k].id != id
  {
    if ds == [] then None
    else if ds[0].id == id then Some(0)
    else match FirstIndex(ds[1..], id)
      case None => None
      case Some(i) => Some(i + 1)
  }

  /** The identifier of an optional folder: `folder?.id`. */
  function FolderId(folder: Option<DocumentFolder>): Option<Id>
  {
    match folder
    case None => None
    case Some(f) => Some(f.id)
  }

  /** Files the first document with the document's identifier under
      `folder` (under no folder when `None`); later documents with the same
      identifier are left alone, and nothing changes when there is none. */
  function MoveDocument(m: DataManager, d: ScannedDocument, folder: Option<DocumentFolder>): (r: DataManager)
    ensures FirstIndex(m.documents, d.id).None? ==> r == m
    ensures |r.documents| == |m.documents|
    ensures r.folders == m.folders && r.settings == m.settings
    ensures forall k :: 0 <= k < |m.documents| ==>
              if Some(k) == FirstIndex(m.documents, d.id)
              then r.documents[k] == m.documents[k].(folderId := FolderId(folder))
              else r.documents[k] == m.documents[k]
  {
    match FirstIndex(m.documents, d.id)
    case None => m
    case Some(i) => m.(documents := m.documents[i := m.documents[i].(folderId := FolderId(folder))])
  }

  /** Moving twice to the same place is moving once. */
  lemma MoveDocumentIdempotent(m: DataManager, d: ScannedDocument, folder: Option<DocumentFolder>)
    ensures MoveDocument(MoveDocument(m, d, folder), d, folder) == MoveDocument(m, d, folder)
  {
    var r := MoveDocument(m, d, folder);
    var i := FirstIndex(m.documents, d.id);
    assert FirstIndex(r.documents, d.id) == i by {
      FirstIndexSameIds(m.documents, r.documents, d.id);
    }
  }

  /** `FirstIndex` only looks at identifiers. */
  lemma {:induction false} FirstIndexSameIds(ds: seq<ScannedDocument>, es: seq<ScannedDocument>, id: Id)
    requires |ds| == |es| && forall k :: 0 <= k < |ds| ==> ds[k].id == es[k].id
    ensures FirstIndex(ds, id) == FirstIndex(es, id)
    decreases |ds|
  {
    if ds != [] {
      FirstIndexSameIds(ds[1..], es[1..], id);
    }
  }

  /** The documents filed under `folder`, or under no folder when `None`,
      in list order. */
  function DocumentsInFolder(m: DataManager, folder: Option<DocumentFolder>): (ds: seq<ScannedDocument>)
    ensures forall k :: 0 <= k < |ds| ==> ds[k].folderId == FolderId(folder)
    ensures |ds| <= |m.documents|
  {
    Filter(m.documents, InFolder(FolderId(folder)))
  }

  /** The listing keeps list order: listing a concatenation lists each
      part, one after the other. */
  lemma DocumentsInFolderKeepsOrder(m: DataManager, folder: Option<DocumentFolder>,
                                    front: seq<ScannedDocument>, back: seq<ScannedDocument>)
    requires m.documents == front + back
    ensures DocumentsInFolder(m, folder)
         == DocumentsInFolder(m.(documents := front), folder) + DocumentsInFolder(m.(documents := back), folder)
  {
    FilterAppend(front, back, InFolder(FolderId(folder)));
  }

  /** The listing holds exactly the documents filed there, each as often as
      it occurs in the store. */
  lemma DocumentsInFolderContents(m: DataManager, folder: Option<DocumentFolder>, d: ScannedDocument)
    ensures multiset(DocumentsInFolder(m, folder))[d] == if d.folderId == FolderId(folder) then multiset(m.documents)[d] else 0
  {
    FilterCount(m.documents, InFolder(FolderId(folder)), d);
  }

  /** A new document goes to the top of the listing of its folder and
      leaves the listings of every other folder unchanged. */
  lemma DocumentsInFolderAfterAdd(m: DataManager, d: ScannedDocument, folder: Option<DocumentFolder>)
    ensures DocumentsInFolder(AddDocument(m, d), folder)
         == (if d.folderId == FolderId(folder) then [d] else []) + DocumentsInFolder(m, folder)
  {
    FilterAppend([d], m.documents, InFolder(FolderId(folder)));
  }

  /** After a folder is deleted it lists nothing, and its documents are
      listed under no folder instead: no document is lost. */
  lemma DeleteFolderCascades(m: DataManager, folder: DocumentFolder)
    ensures DocumentsInFolder(DeleteFolder(m, folder), Some(folder)) == []
    ensures |DocumentsInFolder(DeleteFolder(m, folder), None)|
         == |DocumentsInFolder(m, None)| + |DocumentsInFolder(m, Some(folder))|
  {
    DetachCount(m.documents, folder.id);
  }

  lemma {:induction false} DetachCount(ds: seq<ScannedDocument>, id: Id)
    ensures |Filter(DetachAll(ds, id), InFolder(None))| == |Filter(ds, InFolder(None))| + |Filter(ds, InFolder(Some(id)))|
    decreases |ds|
  {
    if ds != [] {
      DetachCount(ds[1..], id);
      assert DetachAll(ds, id)[1..] == DetachAll(ds[1..], id);
    }
  }

  /** Replaces the settings and nothing else. */
  function UpdateSettings(m: DataManager, s: AppSettings): (r: DataManager)
    ensures r.settings == s
    ensures r.folders == m.folders && r.documents == m.documents
  {
    m.(settings := s)
  }

  /** The last update wins. */
  lemma UpdateSettingsLastWins(m: DataManager, s: AppSettings, t: AppSettings)
    ensures UpdateSettings(UpdateSettings(m, s), t) == UpdateSettings(m, t)
  {
  }
}
