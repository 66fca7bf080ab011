/** The Google Drive knowledge source: it opens a user's stored OAuth token,
    searches and lists Drive files, flattens a chosen file or folder into
    data-source items, indexes a file by loading it into chunks and publishing
    one event per chunk, and turns one chunk's result into an index status.

    Drive, the loader that splits a file into chunks, the blob store, `fetch`
    and the token table's lookup by id are collaborators (`Services`). The
    folder a user picks is given as the tree Drive lists for it. */
module DriveAdapter {

  import opened Wrappers
  import Hex
  import Vault
  import Encryption
  import OAuthTokens
  import DriveQuery

  // ---------------------------------------------------------------------------
  // Drive's side

  datatype Owner = Owner(displayName: Option<string>)

  /** A Drive file with the fields the adapter asks for; Drive may leave any out. */
  datatype DriveFile = DriveFile(
    id: Option<string>,
    name: Option<string>,
    mimeType: Option<string>,
    owners: seq<Owner>,
    modifiedTime: Option<string>)

  predicate IsFolder(f: DriveFile) {
    f.mimeType == Some(DriveQuery.FolderMimeType)
  }

  /** A file, and what `files.list` returns for the folder query of its id
      (a response without `files` counts as no children). */
  datatype Node = Node(file: DriveFile, children: seq<Node>)

  /** The OAuth2 client `setOAuthCredentials` configures: the organisation's
      client credentials (passed on even when there are none) and the two
      tokens read from the stored payload. */
  datatype DriveSession = DriveSession(
    clientCredentials: Option<OAuthTokens.ClientCredentials>,
    accessToken: Option<string>,
    refreshToken: Option<string>)

  /** A download or export response: a readable stream, or anything else. */
  datatype Response = Readable(bytes: seq<Hex.Byte>) | NotReadable

  /** One chunk of a loaded file. */
  datatype Doc = Doc(pageContent: string, docMetadata: map<string, string>)

  datatype ChunkMetadata = ChunkMetadata(documentCount: nat, totalTokenCount: nat)

  /** What the file loader returns: the chunks and their totals. */
  datatype LoadedDocs = LoadedDocs(docs: seq<Doc>, metadata: ChunkMetadata)

  /** A `fetch` response: its status and its JSON body, absent when null,
      otherwise an array whose entries may be null. */
  datatype FetchResponse = FetchResponse(status: int, body: Option<seq<Option<Doc>>>)

  datatype Services = Services(
    vault: Vault.Config,
    tokenById: string -> Option<OAuthTokens.TokenRow>,
    orgClientCredentials: (string, OAuthTokens.Provider) -> Option<OAuthTokens.ClientCredentials>,
    list: (DriveSession, string) -> Option<seq<DriveFile>>,
    download: (DriveSession, string) -> Response,
    exportAs: (DriveSession, string, string) -> Response,
    getLangchainDocs: (string, string, string, seq<Hex.Byte>) -> LoadedDocs,
    put: (string, seq<Doc>) -> string,
    fetch: string -> FetchResponse,
    loadDocs: seq<Doc> -> ChunkMetadata)

  // ---------------------------------------------------------------------------
  // The adapter's own records

  datatype DataSourceType = GoogleDrive

  /** The Drive metadata kept with an item and with the knowledge made from it. */
  datatype DriveFileMetadata = DriveFileMetadata(fileId: string, fileName: string, mimeType: string, modifiedTime: string)

  datatype DataSourceItem = DataSourceItem(name: string, uniqueId: string, metadata: DriveFileMetadata)

  datatype DataSourceItemList = DataSourceItemList(kind: DataSourceType, items: seq<DataSourceItem>)

  /** A search hit; `mimeType` is the raw type, before the enum mapping. */
  datatype SearchEntry = SearchEntry(id: string, name: string, mimeType: Option<string>, owner: string, modifiedTime: string)

  datatype KnowledgeIndexStatus = Initialized | Indexing | PartiallyCompleted | Completed | Failed

  datatype ChunkStatus = Successful | Partial | ChunkFailed

  /** The result carried by a chunk event, and handed back for that chunk. */
  datatype IndexingResult = IndexingResult(chunkCount: nat, status: ChunkStatus)

  /** The payload of a KNOWLEDGE_CHUNK_RECEIVED event. */
  datatype ChunkEvent = ChunkEvent(knowledgeId: string, result: IndexingResult, dataSourceType: DataSourceType, index: nat)

  datatype IndexKnowledgeResponse =
    | StatusOnly(indexStatus: KnowledgeIndexStatus)
    | Started(indexStatus: KnowledgeIndexStatus, userId: string, documentCount: nat, tokenCount: nat,
              eventIds: seq<string>, chunkMetadata: ChunkMetadata)
    | ChunkResult(indexStatus: KnowledgeIndexStatus, chunkMetadata: ChunkMetadata, completedChunks: seq<int>)

  /** How a promise ends: resolved, rejected, or never settled. */
  datatype Completion<T> = Resolved(value: T) | Rejected(error: Error) | Pending

  /** A knowledge row, of which indexing updates `blobUrl` in place. */
  class Knowledge {
    const id: string
    const name: string
    var indexStatus: Option<KnowledgeIndexStatus>
    var metadata: DriveFileMetadata
    var blobUrl: Option<string>

    constructor (id: string, name: string, indexStatus: Option<KnowledgeIndexStatus>, metadata: DriveFileMetadata, blobUrl: Option<string>)
      ensures this.id == id && this.name == name && this.indexStatus == indexStatus
      ensures this.metadata == metadata && this.blobUrl == blobUrl
    {
      this.id := id;
      this.name := name;
      this.indexStatus := indexStatus;
      this.metadata := metadata;
      this.blobUrl := blobUrl;
    }
  }

  /** The event publisher: what has been published, and the ids it gives the
      n-th event published. */
  class EventBus {
    const idsFor: nat -> seq<string>
    var published: seq<ChunkEvent>

    constructor (idsFor: nat -> seq<string>)
      ensures this.idsFor == idsFor && published == []
    {
      this.idsFor := idsFor;
      published := [];
    }

    /** `publishEvent(KNOWLEDGE_CHUNK_RECEIVED, e)`. */
    method Publish(e: ChunkEvent) returns (ids: seq<string>)
      modifies this
      ensures published == old(published) + [e]
      ensures ids == idsFor(|old(published)|)
    {
      ids := idsFor(|published|);
      published := published + [e];
    }
  }

  // ---------------------------------------------------------------------------
  // setOAuthCredentials

  const TokenNotFoundMessage: string := "OAuth token not found"
  const UnauthorizedMessage: string := "Unauthorized access to OAuth token"

  /** `setOAuthCredentials`: the token row must exist with data, and belong to
      the caller; its payload is decrypted and parsed (either can throw), and
      the client gets the organisation's Google credentials and the two tokens. */
  function SetOAuthCredentials(svc: Services, orgId: string, userId: string, oauthTokenId: string): (r: Result<DriveSession, Error>)
    ensures var row := svc.tokenById(oauthTokenId);
            && ((row.None? || row.value.data.None?) <==> r == Failure(EntityNotFound(TokenNotFoundMessage)))
            && (row.Some? && row.value.data.Some? && row.value.userId != userId ==> r == Failure(Forbidden(UnauthorizedMessage)))
            && (r.Success? ==>
                  && row.Some? && row.value.data.Some? && row.value.userId == userId
                  && Vault.Open(svc.vault, row.value.data.value).Success?
                  && var payload := Vault.Open(svc.vault, row.value.data.value).value;
                     r.value == DriveSession(svc.orgClientCredentials(orgId, OAuthTokens.Google),
                                             Vault.Field(payload, "access_token"), Vault.Field(payload, "refresh_token")))
  {
    match svc.tokenById(oauthTokenId)
    case None => Failure(EntityNotFound(TokenNotFoundMessage))
    case Some(row) =>
      if row.data.None? then Failure(EntityNotFound(TokenNotFoundMessage))
      else if row.userId != userId then Failure(Forbidden(UnauthorizedMessage))
      else match Vault.Open(svc.vault, row.data.value)
        case Failure(e) => Failure(e)
        case Success(payload) =>
          Success(DriveSession(svc.orgClientCredentials(orgId, OAuthTokens.Google),
                               Vault.Field(payload, "access_token"), Vault.Field(payload, "refresh_token")))
  }

  /** A row holding a payload sealed by the vault opens for its owner, giving
      the payload's two tokens, and is refused to anyone else. */
  lemma SealedTokenOpensForOwner(svc: Services, orgId: string, caller: string, oauthTokenId: string,
                                 row: OAuthTokens.TokenRow, nonce: Encryption.Nonce, p: Vault.TokenPayload)
    requires Vault.Sound(svc.vault) && Encryption.KeySet(svc.vault.key)
    requires svc.tokenById(oauthTokenId) == Some(row)
    requires row.data == Some(Vault.Seal(svc.vault, nonce, p).value)
    ensures caller == row.userId ==>
              SetOAuthCredentials(svc, orgId, caller, oauthTokenId)
                == Success(DriveSession(svc.orgClientCredentials(orgId, OAuthTokens.Google),
                                        Vault.Field(p, "access_token"), Vault.Field(p, "refresh_token")))
    ensures caller != row.userId ==>
              SetOAuthCredentials(svc, orgId, caller, oauthTokenId) == Failure(Forbidden(UnauthorizedMessage))
  {
    Vault.OpenSeal(svc.vault, nonce, p);
  }

  // ---------------------------------------------------------------------------
  // search

  function ToSearchEntry(f: DriveFile): SearchEntry {
    SearchEntry(
      f.id.GetOr(""), f.name.GetOr(""), f.mimeType,
      if |f.owners| > 0 then f.owners[0].displayName.GetOr("") else "",
      f.modifiedTime.GetOr(""))
  }

  /** `search`: one entry per file Drive lists for the search query, in
      Drive's order (none when the response has no `files`). The query is
      the one built as written, with the terms unescaped. */
  function Search(svc: Services, orgId: string, userId: string, oauthTokenId: string, terms: seq<string>)
    : (r: Result<seq<SearchEntry>, Error>)
    ensures SetOAuthCredentials(svc, orgId, userId, oauthTokenId).Failure? ==>
              r == Failure(SetOAuthCredentials(svc, orgId, userId, oauthTokenId).error)
    ensures SetOAuthCredentials(svc, orgId, userId, oauthTokenId).Success? ==>
              var listed := svc.list(SetOAuthCredentials(svc, orgId, userId, oauthTokenId).value,
                                     DriveQuery.SearchQuery(terms)).GetOr([]);
              && r.Success? && |r.value| == |listed|
              && forall i :: 0 <= i < |listed| ==> r.value[i] == ToSearchEntry(listed[i])
  {
    match SetOAuthCredentials(svc, orgId, userId, oauthTokenId)
    case Failure(e) => Failure(e)
    case Success(session) =>
      var listed := svc.list(session, DriveQuery.SearchQuery(terms)).GetOr([]);
      Success(seq(|listed|, i requires 0 <= i < |listed| => ToSearchEntry(listed[i])))
  }

  /** A search entry carries the file's id, name, type and modified time,
      each absent one read as empty, and names the file's first owner, or
      nothing when Drive gives no owner or no name for it. */
  lemma SearchEntryFields(f: DriveFile)
    ensures var e := ToSearchEntry(f);
            && (f.id.Some? ==> e.id == f.id.value) && (f.id.None? ==> e.id == "")
            && (f.name.Some? ==> e.name == f.name.value) && (f.name.None? ==> e.name == "")
            && e.mimeType == f.mimeType
            && (f.modifiedTime.Some? ==> e.modifiedTime == f.modifiedTime.value)
            && (f.modifiedTime.None? ==> e.modifiedTime == "")
            && (|f.owners| > 0 && f.owners[0].displayName.Some? ==> e.owner == f.owners[0].displayName.value)
            && (|f.owners| == 0 || f.owners[0].displayName.None? ==> e.owner == "")
            && (e.owner != "" ==> |f.owners| > 0 && f.owners[0].displayName == Some(e.owner))
  {
  }

  // ---------------------------------------------------------------------------
  // listAllFiles

  /** The non-folder files under `n`'s children from the `i`-th on, in
      depth-first listing order. */
  function Flatten(n: Node, i: nat): seq<DriveFile>
    requires i <= |n.children|
    decreases n, |n.children| - i
  {
    if i == |n.children| then []
    else
      var c := n.children[i];
      (if IsFolder(c.file) then Flatten(c, 0) else [c.file]) + Flatten(n, i + 1)
  }

  lemma FlattenStep(n: Node, i: nat)
    requires i < |n.children|
    ensures Flatten(n, i) == (if IsFolder(n.children[i].file) then Flatten(n.children[i], 0) else [n.children[i].file]) + Flatten(n, i + 1)
  {
  }

  lemma AppendAssoc<T>(a: seq<T>, b: seq<T>, c: seq<T>)
    ensures a + b + c == a + (b + c)
  {
  }

  /** What `files.get` with fields "id, name, mimeType" returns for a file:
      only those three fields, no owners and no modified time. */
  function Picked(f: DriveFile): DriveFile {
    DriveFile(f.id, f.name, f.mimeType, [], None)
  }

  /** What `listAllFiles` returns for a root: nothing when Drive gives it no
      type or no id, its non-folder descendants when it is a folder, and the
      file as `files.get` returned it otherwise. */
  function ListedFiles(root: Node): seq<DriveFile> {
    if Blank(root.file.mimeType) || Blank(root.file.id) then []
    else if IsFolder(root.file) then Flatten(root, 0)
    else [Picked(root.file)]
  }

  /** `f` is a non-folder file reached from `c` through folders only. */
  ghost predicate Reaches(c: Node, f: DriveFile)
    decreases c
  {
    if IsFolder(c.file) then exists k :: 0 <= k < |c.children| && Reaches(c.children[k], f)
    else c.file == f
  }

  /** The shared `files` array the recursive walk pushes into. */
  class FileCollector {
    var files: seq<DriveFile>

    constructor ()
      ensures files == []
    {
      files := [];
    }

    /** `listFilesRecursive`: for each listed child in order, descend into a
        folder, push anything else. */
    method ListFilesRecursive(folder: Node)
      modifies this
      ensures files == old(files) + Flatten(folder, 0)
      decreases folder
    {
      for i := 0 to |folder.children|
        invariant files + Flatten(folder, i) == old(files) + Flatten(folder, 0)
      {
        var child := folder.children[i];
        ghost var before := files;
        ghost var found := if IsFolder(child.file) then Flatten(child, 0) else [child.file];
        if IsFolder(child.file) {
          ListFilesRecursive(child);
        } else {
          files := files + [child.file];
        }
        FlattenStep(folder, i);
        AppendAssoc(before, found, Flatten(folder, i + 1));
      }
    }
  }

  /** `listAllFiles`: the root's name (empty when absent) and its files. */
  method ListAllFiles(root: Node) returns (rootName: string, files: seq<DriveFile>)
    ensures rootName == root.file.name.GetOr("")
    ensures files == ListedFiles(root)
  {
    var collector := new FileCollector();
    rootName := root.file.name.GetOr("");
    if Blank(root.file.mimeType) || Blank(root.file.id) {
      return rootName, collector.files;
    }
    if IsFolder(root.file) {
      collector.ListFilesRecursive(root);
    } else {
      collector.files := collector.files + [Picked(root.file)];
    }
    files := collector.files;
  }

  lemma {:induction false} FlattenHasNoFolders(n: Node, i: nat)
    requires i <= |n.children|
    ensures forall f :: f in Flatten(n, i) ==> !IsFolder(f)
    decreases n, |n.children| - i
  {
    if i < |n.children| {
      var c := n.children[i];
      FlattenHasNoFolders(n, i + 1);
      if IsFolder(c.file) {
        FlattenHasNoFolders(c, 0);
      }
    }
  }

  /** The walk finds exactly the files reached from the children it visits. */
  lemma {:induction false} FlattenFindsReached(n: Node, i: nat, f: DriveFile)
    requires i <= |n.children|
    ensures f in Flatten(n, i) <==> exists j :: i <= j < |n.children| && Reaches(n.children[j], f)
    decreases n, 0, |n.children| - i
  {
    if i < |n.children| {
      FlattenStep(n, i);
      ChildFindsReached(n.children[i], f);
      FlattenFindsReached(n, i + 1, f);
      ReachedFromSplit(n, i, f);
    }
  }

  /** What the walk collects for one listed child holds `f` exactly when `f` is reached from it. */
  lemma {:induction false} ChildFindsReached(c: Node, f: DriveFile)
    ensures f in (if IsFolder(c.file) then Flatten(c, 0) else [c.file]) <==> Reaches(c, f)
    decreases c, 1, 0
  {
    if IsFolder(c.file) {
      FlattenFindsReached(c, 0, f);
    }
  }

  lemma ReachedFromSplit(n: Node, i: nat, f: DriveFile)
    requires i < |n.children|
    ensures (exists j :: i <= j < |n.children| && Reaches(n.children[j], f))
            <==> Reaches(n.children[i], f) || exists j :: i + 1 <= j < |n.children| && Reaches(n.children[j], f)
  {
    if exists j :: i <= j < |n.children| && Reaches(n.children[j], f) {
      var j :| i <= j < |n.children| && Reaches(n.children[j], f);
      if j > i {
        assert i + 1 <= j < |n.children| && Reaches(n.children[j], f);
      }
    }
    if Reaches(n.children[i], f) {
      assert i <= i < |n.children| && Reaches(n.children[i], f);
    }
  }

  /** `listAllFiles` never returns a folder; it returns nothing for a root
      without type or id; for a folder, exactly the non-folder files reached
      from it through folders; and for a file, that file with the three
      fields `files.get` asked for. */
  lemma ListedFilesAreReached(root: Node, f: DriveFile)
    ensures forall g :: g in ListedFiles(root) ==> !IsFolder(g)
    ensures Blank(root.file.mimeType) || Blank(root.file.id) ==> ListedFiles(root) == []
    ensures !Blank(root.file.mimeType) && !Blank(root.file.id) && IsFolder(root.file) ==>
              (f in ListedFiles(root) <==> Reaches(root, f))
    ensures !Blank(root.file.mimeType) && !Blank(root.file.id) && !IsFolder(root.file) ==>
              ListedFiles(root) == [Picked(root.file)]
              && Picked(root.file).id == root.file.id && Picked(root.file).name == root.file.name
              && Picked(root.file).mimeType == root.file.mimeType
  {
    FlattenHasNoFolders(root, 0);
    if IsFolder(root.file) {
      FlattenFindsReached(root, 0, f);
    }
  }

  /** A folder whose children are all files lists them in Drive's order. */
  lemma {:induction false} FlatFolderInListingOrder(n: Node, i: nat)
    requires i <= |n.children|
    requires forall k :: 0 <= k < |n.children| ==> !IsFolder(n.children[k].file)
    ensures |Flatten(n, i)| == |n.children| - i
    ensures forall k :: i <= k < |n.children| ==> Flatten(n, i)[k - i] == n.children[k].file
    decreases |n.children| - i
  {
    if i < |n.children| {
      FlatFolderInListingOrder(n, i + 1);
      assert Flatten(n, i) == [n.children[i].file] + Flatten(n, i + 1);
    }
  }

  // ---------------------------------------------------------------------------
  // getDataSourceItemList

  /** A listed file's metadata, each absent field read as the empty string. */
  function MetadataOf(f: DriveFile): DriveFileMetadata {
    DriveFileMetadata(f.id.GetOr(""), f.name.GetOr(""), f.mimeType.GetOr(""), f.modifiedTime.GetOr(""))
  }

  function ToItem(f: DriveFile): DataSourceItem {
    DataSourceItem(f.name.GetOr(""), MetadataOf(f).fileId, MetadataOf(f))
  }

  /** `getDataSourceItemList`: the credential checks, then one item per file
      `listAllFiles` returns for the chosen root, in the same order. */
  method GetDataSourceItemList(svc: Services, orgId: string, userId: string, oauthTokenId: string, root: Node)
    returns (r: Result<DataSourceItemList, Error>)
    ensures SetOAuthCredentials(svc, orgId, userId, oauthTokenId).Failure? ==>
              r == Failure(SetOAuthCredentials(svc, orgId, userId, oauthTokenId).error)
    ensures SetOAuthCredentials(svc, orgId, userId, oauthTokenId).Success? ==>
              && r.Success? && r.value.kind == GoogleDrive
              && |r.value.items| == |ListedFiles(root)|
              && forall k :: 0 <= k < |ListedFiles(root)| ==> r.value.items[k] == ToItem(ListedFiles(root)[k])
  {
    var session := SetOAuthCredentials(svc, orgId, userId, oauthTokenId);
    if session.Failure? {
      return Failure(session.error);
    }
    var _, files := ListAllFiles(root);
    if |files| == 0 {
      return Success(DataSourceItemList(GoogleDrive, []));
    }
    var items: seq<DataSourceItem> := [];
    for k := 0 to |files|
      invariant |items| == k
      invariant forall j :: 0 <= j < k ==> items[j] == ToItem(files[j])
    {
      items := items + [ToItem(files[k])];
    }
    return Success(DataSourceItemList(GoogleDrive, items));
  }

  /** An item is identified by its file's id, defaults every absent field to
      the empty string, and never carries the folder type for a file that is
      not a folder. */
  lemma ItemOfFile(f: DriveFile)
    ensures var item := ToItem(f);
            && item.uniqueId == item.metadata.fileId
            && item.uniqueId == (if f.id.Some? then f.id.value else "")
            && item.name == item.metadata.fileName
            && item.name == (if f.name.Some? then f.name.value else "")
            && item.metadata.mimeType == (if f.mimeType.Some? then f.mimeType.value else "")
            && item.metadata.modifiedTime == (if f.modifiedTime.Some? then f.modifiedTime.value else "")
            && (!IsFolder(f) ==> item.metadata.mimeType != DriveQuery.FolderMimeType)
  {
  }

  // ---------------------------------------------------------------------------
  // shouldReindexKnowledge

  /** `shouldReindexKnowledge`: the stored and the listed modified times differ. */
  function ShouldReindexKnowledge(knowledge: Knowledge, item: DataSourceItem): bool
    reads knowledge
  {
    knowledge.metadata.modifiedTime != item.metadata.modifiedTime
  }

  /** Knowledge made from a listed file is due for re-indexing against a later
      listing exactly when the file's modified time changed, an absent time
      counting as the empty one. */
  lemma ReindexExactlyWhenModified(knowledge: Knowledge, before: DriveFile, after: DriveFile)
    requires knowledge.metadata == MetadataOf(before)
    ensures ShouldReindexKnowledge(knowledge, ToItem(after)) <==> before.modifiedTime.GetOr("") != after.modifiedTime.GetOr("")
    ensures !ShouldReindexKnowledge(knowledge, ToItem(before))
  {
  }

  /** As written: a file picked directly is listed without its modified
      time, so knowledge made from it is never due for re-indexing against a
      later listing, however the file changed in between. */
  lemma PickedFileNeverReindexed(knowledge: Knowledge, before: Node, after: Node)
    requires !Blank(before.file.mimeType) && !Blank(before.file.id) && !IsFolder(before.file)
    requires !Blank(after.file.mimeType) && !Blank(after.file.id) && !IsFolder(after.file)
    requires knowledge.metadata == ToItem(ListedFiles(before)[0]).metadata
    ensures ToItem(ListedFiles(before)[0]).metadata.modifiedTime == ""
    ensures !ShouldReindexKnowledge(knowledge, ToItem(ListedFiles(after)[0]))
  {
  }

  /** `files.get` with fields "id, name, mimeType, modifiedTime", as the
      folder listing already asks for. */
  function PickedWithTime(f: DriveFile): DriveFile {
    DriveFile(f.id, f.name, f.mimeType, [], f.modifiedTime)
  }

  /** With the modified time fetched, knowledge made from a directly picked
      file is due for re-indexing exactly when the file's modified time
      changed. */
  lemma PickedWithTimeReindexedWhenModified(knowledge: Knowledge, before: DriveFile, after: DriveFile)
    requires knowledge.metadata == ToItem(PickedWithTime(before)).metadata
    ensures (ShouldReindexKnowledge(knowledge, ToItem(PickedWithTime(after)))
             <==> before.modifiedTime.GetOr("") != after.modifiedTime.GetOr(""))
  {
  }

  // ---------------------------------------------------------------------------
  // getFileContent

  /** The format a Google-native file is exported as; other files are downloaded as they are. */
  function ExportMimeType(mimeType: string): (r: Option<string>)
    ensures r.Some? <==> mimeType in [DriveQuery.MimeTypeGoogleDoc, DriveQuery.MimeTypeGoogleSheets, DriveQuery.MimeTypeGoogleSlides]
  {
    if mimeType == DriveQuery.MimeTypeGoogleDoc then Some(DriveQuery.MimeTypeDocx)
    else if mimeType == DriveQuery.MimeTypeGoogleSheets then Some(DriveQuery.MimeTypeCsv)
    else if mimeType == DriveQuery.MimeTypeGoogleSlides then Some(DriveQuery.MimeTypePdf)
    else None
  }

  /** `getFileContent`: the response and the type its bytes are in. */
  function GetFileContent(svc: Services, session: DriveSession, fileId: string, mimeType: string): (r: (Response, string))
    ensures ExportMimeType(mimeType).Some? ==>
              r == (svc.exportAs(session, fileId, ExportMimeType(mimeType).value), ExportMimeType(mimeType).value)
    ensures ExportMimeType(mimeType).None? ==> r == (svc.download(session, fileId), mimeType)
  {
    match ExportMimeType(mimeType)
    case Some(target) => (svc.exportAs(session, fileId, target), target)
    case None => (svc.download(session, fileId), mimeType)
  }

  /** Docs become DOCX, Sheets CSV and Slides PDF; what the loader is given
      is never Google-native, and is on the allow-list whenever the file's
      own type is. */
  lemma DerivedTypeIsLoadable(svc: Services, session: DriveSession, fileId: string, mimeType: string)
    ensures mimeType == DriveQuery.MimeTypeGoogleDoc ==> GetFileContent(svc, session, fileId, mimeType).1 == DriveQuery.MimeTypeDocx
    ensures mimeType == DriveQuery.MimeTypeGoogleSheets ==> GetFileContent(svc, session, fileId, mimeType).1 == DriveQuery.MimeTypeCsv
    ensures mimeType == DriveQuery.MimeTypeGoogleSlides ==> GetFileContent(svc, session, fileId, mimeType).1 == DriveQuery.MimeTypePdf
    ensures ExportMimeType(GetFileContent(svc, session, fileId, mimeType).1).None?
    ensures mimeType in DriveQuery.SupportedMimeTypes ==> GetFileContent(svc, session, fileId, mimeType).1 in DriveQuery.SupportedMimeTypes
  {
  }

  // ---------------------------------------------------------------------------
  // indexKnowledge

  /** How far `indexKnowledge` gets before the file's bytes are in hand:
      either it is done (resolved, rejected, or left pending when the
      response is not a stream), or it has the bytes and their type. */
  datatype IndexStep = Done(outcome: Completion<IndexKnowledgeResponse>) | Fetched(derivedMimeType: string, bytes: seq<Hex.Byte>)

  function IndexStepFor(svc: Services, orgId: string, userId: string, indexStatus: Option<KnowledgeIndexStatus>,
                        metadata: DriveFileMetadata, oauthTokenId: Option<string>): IndexStep
  {
    if indexStatus == Some(Completed) then Done(Resolved(StatusOnly(Completed)))
    else if userId == "" then Done(Resolved(StatusOnly(Failed)))
    else if Blank(oauthTokenId) then Done(Resolved(StatusOnly(Failed)))
    else match SetOAuthCredentials(svc, orgId, userId, oauthTokenId.value)
      case Failure(e) => Done(Rejected(e))
      case Success(session) =>
        var content := GetFileContent(svc, session, metadata.fileId, metadata.mimeType);
        match content.0
        case NotReadable => Done(Pending)
        case Readable(bytes) => Fetched(content.1, bytes)
  }

  /** The early returns: knowledge already COMPLETED stays COMPLETED, and a
      missing user or token id fails, each before any collaborator is asked
      anything, so the outcome is the same whatever they would answer. */
  lemma EarlyReturnsAskNothing(svc: Services, other: Services, orgId: string, userId: string,
                               indexStatus: Option<KnowledgeIndexStatus>, metadata: DriveFileMetadata, oauthTokenId: Option<string>)
    requires indexStatus == Some(Completed) || userId == "" || Blank(oauthTokenId)
    ensures IndexStepFor(svc, orgId, userId, indexStatus, metadata, oauthTokenId)
              == IndexStepFor(other, orgId, userId, indexStatus, metadata, oauthTokenId)
    ensures indexStatus == Some(Completed) ==>
              IndexStepFor(svc, orgId, userId, indexStatus, metadata, oauthTokenId) == Done(Resolved(StatusOnly(Completed)))
    ensures indexStatus != Some(Completed) ==>
              IndexStepFor(svc, orgId, userId, indexStatus, metadata, oauthTokenId) == Done(Resolved(StatusOnly(Failed)))
  {
  }

  /** With a token sealed for the caller, indexing is never rejected: it
      gets to the file's content. */
  lemma OwnTokenReachesContent(svc: Services, orgId: string, userId: string, indexStatus: Option<KnowledgeIndexStatus>,
                               metadata: DriveFileMetadata, oauthTokenId: string,
                               row: OAuthTokens.TokenRow, nonce: Encryption.Nonce, p: Vault.TokenPayload)
    requires Vault.Sound(svc.vault) && Encryption.KeySet(svc.vault.key)
    requires svc.tokenById(oauthTokenId) == Some(row) && row.userId == userId && userId != ""
    requires row.data == Some(Vault.Seal(svc.vault, nonce, p).value)
    requires indexStatus != Some(Completed) && oauthTokenId != ""
    ensures !IndexStepFor(svc, orgId, userId, indexStatus, metadata, Some(oauthTokenId)).Done?
            || IndexStepFor(svc, orgId, userId, indexStatus, metadata, Some(oauthTokenId)) == Done(Pending)
  {
    SealedTokenOpensForOwner(svc, orgId, userId, oauthTokenId, row, nonce, p);
  }

  /** The ids of `n` events published from position `base` on, in publish order. */
  function EventIds(idsFor: nat -> seq<string>, base: nat, n: nat): seq<string>
    decreases n
  {
    if n == 0 then [] else EventIds(idsFor, base, n - 1) + idsFor(base + n - 1)
  }

  /** The ids are concatenated in publish order: those of the `j`-th event
      come after those of every earlier one and before those of every later one. */
  lemma {:induction false} EventIdsInPublishOrder(idsFor: nat -> seq<string>, base: nat, n: nat, j: nat)
    requires j < n
    ensures EventIds(idsFor, base, n) == EventIds(idsFor, base, j) + idsFor(base + j) + EventIds(idsFor, base + j + 1, n - j - 1)
    decreases n
  {
    if j == n - 1 {
      assert EventIds(idsFor, base + j + 1, 0) == [];
    } else {
      EventIdsInPublishOrder(idsFor, base, n - 1, j);
      var m := n - j - 1;
      assert EventIds(idsFor, base + j + 1, m) == EventIds(idsFor, base + j + 1, m - 1) + idsFor(base + j + 1 + m - 1);
    }
  }

  /** The fan-out of `indexKnowledge`: one KNOWLEDGE_CHUNK_RECEIVED event per
      chunk, with indexes 0..n-1, chunk count n and status SUCCESSFUL;
      returns the ids the events got, in publish order. */
  method PublishChunks(bus: EventBus, knowledgeId: string, n: nat) returns (eventIds: seq<string>)
    modifies bus
    ensures |bus.published| == |old(bus.published)| + n
    ensures bus.published[..|old(bus.published)|] == old(bus.published)
    ensures forall j :: 0 <= j < n ==>
              bus.published[|old(bus.published)| + j] == ChunkEvent(knowledgeId, IndexingResult(n, Successful), GoogleDrive, j)
    ensures eventIds == EventIds(bus.idsFor, |old(bus.published)|, n)
  {
    ghost var base := |bus.published|;
    eventIds := [];
    for i := 0 to n
      invariant |bus.published| == base + i
      invariant bus.published[..base] == old(bus.published)
      invariant forall j :: 0 <= j < i ==>
                  bus.published[base + j] == ChunkEvent(knowledgeId, IndexingResult(n, Successful), GoogleDrive, j)
      invariant eventIds == EventIds(bus.idsFor, base, i)
    {
      var ids := bus.Publish(ChunkEvent(knowledgeId, IndexingResult(n, Successful), GoogleDrive, i));
      eventIds := eventIds + ids;
    }
  }

  /** `indexKnowledge`. Until the bytes are in hand it follows `IndexStepFor`
      and changes nothing. Then it loads the chunks, stores them as the blob
      `<knowledge name>.json` and records the blob's URL on the knowledge,
      publishes one event per chunk with index 0..n-1, chunk count n and
      status SUCCESSFUL, and resolves INDEXING with the event ids in publish
      order and the loader's totals. */
  method IndexKnowledge(svc: Services, bus: EventBus, orgId: string, userId: string, knowledge: Knowledge, oauthTokenId: Option<string>)
    returns (r: Completion<IndexKnowledgeResponse>)
    modifies knowledge, bus
    ensures knowledge.indexStatus == old(knowledge.indexStatus) && knowledge.metadata == old(knowledge.metadata)
    ensures var step := IndexStepFor(svc, orgId, userId, old(knowledge.indexStatus), old(knowledge.metadata), oauthTokenId);
            && (step.Done? ==> r == step.outcome && knowledge.blobUrl == old(knowledge.blobUrl) && bus.published == old(bus.published))
            && (step.Fetched? ==>
                  var loaded := svc.getLangchainDocs(knowledge.id, old(knowledge.metadata).fileName, step.derivedMimeType, step.bytes);
                  var n := |loaded.docs|;
                  var base := |old(bus.published)|;
                  && knowledge.blobUrl == Some(svc.put(knowledge.name + ".json", loaded.docs))
                  && |bus.published| == base + n
                  && bus.published[..base] == old(bus.published)
                  && (forall j :: 0 <= j < n ==>
                        bus.published[base + j] == ChunkEvent(knowledge.id, IndexingResult(n, Successful), GoogleDrive, j))
                  && r == Resolved(Started(Indexing, userId, loaded.metadata.documentCount, loaded.metadata.totalTokenCount,
                                           EventIds(bus.idsFor, base, n), loaded.metadata)))
  {
    if knowledge.indexStatus == Some(Completed) {
      return Resolved(StatusOnly(Completed));
    }
    if userId == "" {
      return Resolved(StatusOnly(Failed));
    }
    if Blank(oauthTokenId) {
      return Resolved(StatusOnly(Failed));
    }
    var session := SetOAuthCredentials(svc, orgId, userId, oauthTokenId.value);
    if session.Failure? {
      return Rejected(session.error);
    }
    var metadata := knowledge.metadata;
    var content := GetFileContent(svc, session.value, metadata.fileId, metadata.mimeType);
    if content.0.NotReadable? {
      return Pending;
    }
    var loaded := svc.getLangchainDocs(knowledge.id, metadata.fileName, content.1, content.0.bytes);
    var docs := loaded.docs;
    knowledge.blobUrl := Some(svc.put(knowledge.name + ".json", docs));
    var eventIds := PublishChunks(bus, knowledge.id, |docs|);
    return Resolved(Started(Indexing, userId, loaded.metadata.documentCount, loaded.metadata.totalTokenCount, eventIds, loaded.metadata));
  }

  // ---------------------------------------------------------------------------
  // loadKnowledgeResult and pollKnowledgeIndexingStatus

  /** The index status one chunk's result stands for. */
  function ChunkIndexStatus(status: ChunkStatus): (r: KnowledgeIndexStatus)
    ensures r == Failed <==> status == ChunkFailed
    ensures r == PartiallyCompleted <==> status != ChunkFailed
  {
    match status
    case Successful => PartiallyCompleted
    case Partial => PartiallyCompleted
    case ChunkFailed => Failed
  }

  /** `loadKnowledgeResult`: FAILED without a blob URL, on a status other
      than 200, or when the body has no truthy entry at `index`; otherwise
      the one chunk is loaded and reported as the only completed chunk. */
  function LoadKnowledgeResult(svc: Services, knowledge: Knowledge, result: IndexingResult, index: int): (r: IndexKnowledgeResponse)
    reads knowledge
    ensures Blank(knowledge.blobUrl) ==> r == StatusOnly(Failed)
    ensures !Blank(knowledge.blobUrl) && svc.fetch(knowledge.blobUrl.value).status != 200 ==> r == StatusOnly(Failed)
    ensures !Blank(knowledge.blobUrl) && svc.fetch(knowledge.blobUrl.value).status == 200 ==>
              var body := svc.fetch(knowledge.blobUrl.value).body;
              body.Some? && 0 <= index < |body.value| && body.value[index].Some? ==> r.ChunkResult?
    ensures r.ChunkResult? ==>
              var body := svc.fetch(knowledge.blobUrl.value).body;
              && body.Some? && 0 <= index < |body.value| && body.value[index].Some?
              && r == ChunkResult(ChunkIndexStatus(result.status), svc.loadDocs([body.value[index].value]), [index])
    ensures !r.ChunkResult? ==> r == StatusOnly(Failed)
  {
    if Blank(knowledge.blobUrl) then StatusOnly(Failed)
    else
      var response := svc.fetch(knowledge.blobUrl.value);
      if response.status != 200 then StatusOnly(Failed)
      else match response.body
        case None => StatusOnly(Failed)
        case Some(data) =>
          if !(0 <= index < |data|) || data[index].None? then StatusOnly(Failed)
          else ChunkResult(ChunkIndexStatus(result.status), svc.loadDocs([data[index].value]), [index])
  }

  /** The blob store hands back, at the URL `put` returns, the array it was given. */
  ghost predicate ServesWhatWasPut(svc: Services) {
    forall name, docs :: svc.put(name, docs) != ""
      && svc.fetch(svc.put(name, docs)) == FetchResponse(200, Some(seq(|docs|, j requires 0 <= j < |docs| => Some(docs[j]))))
  }

  /** After indexing stored the chunks, the result for chunk `index` loads
      exactly that chunk and completes only it, PARTIALLY_COMPLETED for a
      successful or partial result and FAILED for a failed one; an index
      outside the chunks fails. */
  lemma ChunkResultAfterIndexing(svc: Services, knowledge: Knowledge, docs: seq<Doc>, result: IndexingResult, index: int)
    requires ServesWhatWasPut(svc)
    requires knowledge.blobUrl == Some(svc.put(knowledge.name + ".json", docs))
    ensures 0 <= index < |docs| ==>
              LoadKnowledgeResult(svc, knowledge, result, index)
                == ChunkResult(ChunkIndexStatus(result.status), svc.loadDocs([docs[index]]), [index])
    ensures !(0 <= index < |docs|) ==> LoadKnowledgeResult(svc, knowledge, result, index) == StatusOnly(Failed)
  {
    var url := svc.put(knowledge.name + ".json", docs);
    assert svc.fetch(url) == FetchResponse(200, Some(seq(|docs|, j requires 0 <= j < |docs| => Some(docs[j]))));
  }

  /** `pollKnowledgeIndexingStatus`: the stored status, INITIALIZED when there is none. */
  function PollKnowledgeIndexingStatus(knowledge: Knowledge): (r: IndexKnowledgeResponse)
    reads knowledge
    ensures r.StatusOnly?
  {
    StatusOnly(knowledge.indexStatus.GetOr(Initialized))
  }

  /** Polling reports a status the knowledge holds, or INITIALIZED for one
      that holds none; it reports COMPLETED exactly for the knowledge that
      `indexKnowledge` returns from at once. */
  lemma PollReportsStoredStatus(knowledge: Knowledge, s: KnowledgeIndexStatus)
    ensures PollKnowledgeIndexingStatus(knowledge).indexStatus == s <==>
              (knowledge.indexStatus == Some(s) || (knowledge.indexStatus.None? && s == Initialized))
    ensures PollKnowledgeIndexingStatus(knowledge).indexStatus == Completed <==> knowledge.indexStatus == Some(Completed)
  {
  }
}
