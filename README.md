# Google Drive knowledge source: a Dafny model

This project models the part of the knowledge-ingestion service that connects a
user's Google Drive to an AI's knowledge. It covers three pieces:

- **The encryption of stored OAuth tokens** (`src/lib/encryptionUtils.ts`).
  AES-256-GCM output is framed as hex(nonce) ++ hex(tag) ++ hex(ciphertext).
  Decryption slices the text at fixed offsets, and both directions check first
  that the key is set. Modules `Hex`, `Encryption` and `Vault`; the vault adds
  the JSON step (`JSON.stringify` before encryption, `JSON.parse` after
  decryption).
- **The OAuth token service** (`src/domain/services/OAuthTokenService.ts`).
  It chooses the OAuth adapter for a provider and looks up the organisation's
  client credentials. It also handles the OAuth callback and upserts a token
  row on (provider, userId, email). Its read path keeps live tokens, re-stores
  refreshed ones and skips rows it cannot read. Module `OAuthTokens`; the token
  table is a `seq` field of the class `OAuthTokenService`.
- **The Google Drive data-source adapter**
  (`src/adapter-out/knowledge/google-drive/GoogleDriveDataSourceAdapter.ts`).
  Module `DriveQuery` covers the `files.list` query strings. Module
  `DriveAdapter` covers the rest:
  - opening the caller's token (`setOAuthCredentials`);
  - `search`;
  - the recursive folder walk (`listAllFiles`) and the item list built from it;
  - re-index detection;
  - content export or download;
  - indexing: load, store the chunks as a blob, publish one event per chunk;
  - turning one chunk's result into an index status;
  - status polling.

Drive, `fetch`, the blob store, the file loader and the token table's
lookup by id are collaborators. They are passed as function-valued fields
(`Services`, `Collaborators`). The AES-GCM cipher is an abstract pair of
functions: `Encryption.IsAuthenticated` states what authenticated encryption
guarantees of them. JSON is an abstract printer and parser:
`Vault.ParsesWhatItPrints` states that the parser reads back what the printer
wrote.

A source of randomness is never called. The nonce a call would draw is a
parameter, and so are the ids the event bus and the database hand out.

Query strings have a partner: a parser for Drive's query language
(`DriveQuery.ParseSearchQuery`, `DriveQuery.ParseFolderQuery`). The round-trip
lemmas show that the MIME-type and folder queries ask Drive for exactly what
the caller meant. The search query does so only for terms without a quote or
backslash, because the name clause is built without escaping (see
"## Findings"). A file picked directly, not through a folder, is listed
without its modified time, so it is never re-indexed (also under "## Findings").

## Model

| member | source | states |
|---|---|---|
| Hex.Encode | src/lib/encryptionUtils.ts:22 | hex encoding gives two characters per byte, every one a lower-case hex digit |
| Hex.Decode | src/lib/encryptionUtils.ts:30-35 | lenient hex decoding never yields more than one byte per two characters |
| Hex.DecodeEncodeAppend | src/lib/encryptionUtils.ts:22-35 | decoding an encoded byte string reads back exactly those bytes, whatever text follows them |
| Hex.DecodeEncode | src/lib/encryptionUtils.ts:22-35 | hex decoding inverts hex encoding |
| Encryption.Encrypt | src/lib/encryptionUtils.ts:8-23 | an unset or empty key throws "ENCRYPTION_KEY is not set"; with a non-empty key, encryption always succeeds |
| Encryption.Decrypt | src/lib/encryptionUtils.ts:25-44 | an unset or empty key throws "ENCRYPTION_KEY is not set" before the text is looked at; then, in Node's order, a nonce part that decodes to no bytes throws the invalid-IV error, a tag part that decodes to a length GCM does not allow throws the tag-length error naming that length, and a ciphertext part of odd hex length throws, all before the cipher is asked |
| Encryption.EncryptLayout | src/lib/encryptionUtils.ts:13-22 | the output is 24 hex characters of nonce, 32 of tag, then the ciphertext, and holds nothing but hex digits |
| Encryption.SlicesOfFrame | src/lib/encryptionUtils.ts:30-35 | the three slices at offsets 24 and 56 recover the three framed parts exactly |
| Encryption.DecryptFrame | src/lib/encryptionUtils.ts:30-41 | decrypting a framed text hands the cipher exactly the framed nonce, tag and ciphertext |
| Encryption.RoundTrip | src/lib/encryptionUtils.ts:8-44 | decrypt(encrypt(text)) == text for every key, nonce and well-formed text |
| Encryption.ShortenedTagOpens | src/lib/encryptionUtils.ts:30-41 | a tag part holding a 4-, 8- or 12-to-15-byte prefix of the real tag, padded with non-hex characters, still decrypts to the text, because Node sets the shortened tag and GCM checks that prefix |
| Encryption.TamperedTagFails | src/lib/encryptionUtils.ts:31-41 | replacing the tag with any other 16-byte tag makes decryption throw rather than return some other text |
| Vault.Seal | src/domain/services/OAuthTokenService.ts:149 | storing a payload fails exactly when the key is unset or empty |
| Vault.Open | src/domain/services/OAuthTokenService.ts:122 | reading a stored payload throws the missing-key error when the key is unset or empty |
| Vault.OpenSeal | src/domain/services/OAuthTokenService.ts:122-149 | a stored payload reads back as itself |
| Vault.SealedIsHex | src/domain/services/OAuthTokenService.ts:149 | what is stored is hex digits only, at least 56 of them; so it is never the JSON text of an object, which holds a `{` |
| Vault.OpenedImpliesSealable | src/domain/services/OAuthTokenService.ts:122-135 | a payload that could be read back can be re-encrypted, since both need the key |
| OAuthTokens.GetOAuthAdapter | src/domain/services/OAuthTokenService.ts:10-17 | an adapter exists exactly for GOOGLE; any other provider throws "No OAuthAdapter found for …" |
| OAuthTokens.GetOrgClientCredentialData | src/domain/services/OAuthTokenService.ts:19-36 | succeeds exactly when the organisation has credentials for the provider, returns them, and otherwise throws the missing-credentials message |
| OAuthTokens.GetOAuthRedirectUrl | src/domain/services/OAuthTokenService.ts:44-55 | the adapter check comes before the credentials check; on success the URL is built from the organisation's credentials |
| OAuthTokens.FindKey | src/domain/services/OAuthTokenService.ts:151-158 | the lookup on (provider, userId, email) finds the first row with the key, and reports none only when no row has it |
| OAuthTokens.UpsertStores | src/domain/services/OAuthTokenService.ts:151-168 | after an upsert, exactly one row has the key and it holds the new data. Other rows are untouched, ids and keys keep their places, and a row is added only for a new key |
| OAuthTokens.UpsertTwice | src/domain/services/OAuthTokenService.ts:151-168 | upserting twice for one key equals upserting only the second payload |
| OAuthTokens.Candidates | src/domain/services/OAuthTokenService.ts:109-114 | `findMany` returns exactly the rows with the provider and user, as a subsequence of the table in stored order |
| OAuthTokens.RefreshNeverFailsToSeal | src/domain/services/OAuthTokenService.ts:121-135 | an expired token that was read and refreshed is always re-stored and kept, since re-encryption cannot miss the key that reading needed |
| OAuthTokens.KeptIsSubsequence | src/domain/services/OAuthTokenService.ts:116-141 | the returned tokens are a subsequence of the candidates, in their order |
| OAuthTokens.KeptAreCandidates | src/domain/services/OAuthTokenService.ts:109-141 | every returned token is one `findMany` returned |
| OAuthTokens.KeptExactly | src/domain/services/OAuthTokenService.ts:117-139 | a candidate is returned exactly when it is not dropped: it has data, it decrypts and parses, and it is valid or was refreshed and re-stored |
| OAuthTokens.RefreshedShape | src/domain/services/OAuthTokenService.ts:129-134 | the read path only rewrites `data` of existing rows. No row is added or removed, keys, ids and order are kept, and rows with no refreshed candidate stay as they were |
| OAuthTokens.UpsertElsewhere | src/domain/services/OAuthTokenService.ts:151-168 | an upsert for one key leaves the row of every other key where it was, unchanged |
| OAuthTokens.RefreshedStores | src/domain/services/OAuthTokenService.ts:129-134 | every refreshed candidate's row holds the refreshed, re-encrypted payload afterwards |
| OAuthTokens.OAuthTokenService.constructor | src/domain/services/OAuthTokenService.ts:9 | the service starts over a table with one row per key |
| OAuthTokens.OAuthTokenService.UpsertToken | src/domain/services/OAuthTokenService.ts:148-169 | a missing key throws before the table is touched; otherwise the table becomes the upsert of the encrypted payload, and stays one row per key |
| OAuthTokens.OAuthTokenService.HandleOAuthCallback | src/domain/services/OAuthTokenService.ts:65-88 | the adapter is checked first, then the credentials, then the redirect exchange, then the key the upsert encrypts with, and each failure leaves the table unchanged. On success exactly one token is upserted for (provider, userId, the account's email) |
| OAuthTokens.OAuthTokenService.CheckToken | src/domain/services/OAuthTokenService.ts:117-138 | one loop iteration keeps the row exactly when its verdict is not Drop, and changes the table only by the re-store of a refreshed token |
| OAuthTokens.OAuthTokenService.GetOAuthTokens | src/domain/services/OAuthTokenService.ts:97-142 | the credentials are checked first, then the adapter. On success the result is the kept candidates and the table is the old one with the refreshes applied in candidate order |
| DriveQuery.Escape | src/adapter-out/knowledge/google-drive/GoogleDriveDataSourceAdapter.ts:73-75 | escaping never shortens a value |
| DriveQuery.EscapePlain | src/adapter-out/knowledge/google-drive/GoogleDriveDataSourceAdapter.ts:73-75 | a value without quote or backslash is its own escaping |
| DriveQuery.ParseRendered | src/adapter-out/knowledge/google-drive/GoogleDriveDataSourceAdapter.ts:73-85 | clauses of escaped values joined by a separator read back as exactly those values and the text after them |
| DriveQuery.MimeTypesArePlain | src/adapter-out/knowledge/google-drive/GoogleDriveDataSourceAdapter.ts:42-65 | no allowed MIME type needs escaping, and there is at least one |
| DriveQuery.MimeTypesShape | src/adapter-out/knowledge/google-drive/GoogleDriveDataSourceAdapter.ts:53-84 | the allowed types are the allow-list in order, with the folder type appended last exactly when folders are included |
| DriveQuery.MimeTypeQueryReadsBack | src/adapter-out/knowledge/google-drive/GoogleDriveDataSourceAdapter.ts:77-85 | `getMimeTypeQuery` is one `mimeType='T'` disjunct per allowed type joined by " or ", and nothing else |
| DriveQuery.NamesQueryReadsBack | src/adapter-out/knowledge/google-drive/GoogleDriveDataSourceAdapter.ts:73-75 | `getNamesQuery` is one `name contains 'n'` clause per name joined by " AND ", for names that need no escaping; no names give the empty text |
| DriveQuery.SearchQueryReadsBack | src/adapter-out/knowledge/google-drive/GoogleDriveDataSourceAdapter.ts:181-188 | the search query asks for exactly the terms, plus the allow-list and folders, with a name clause exactly when there are terms. This holds for terms that need no escaping |
| DriveQuery.UnescapedTermsCollide | src/adapter-out/knowledge/google-drive/GoogleDriveDataSourceAdapter.ts:73-75 | as written, the one term `a' AND name contains 'b` gives the same query as the two terms `a` and `b` |
| DriveQuery.EscapedSearchQueryReadsBack | src/adapter-out/knowledge/google-drive/GoogleDriveDataSourceAdapter.ts:181-188 | with escaping, the search query asks for exactly the terms, whatever characters they hold |
| DriveQuery.EscapedSearchQueryInjective | src/adapter-out/knowledge/google-drive/GoogleDriveDataSourceAdapter.ts:181-188 | with escaping, different term lists give different queries |
| DriveQuery.FolderQueryReadsBack | src/adapter-out/knowledge/google-drive/GoogleDriveDataSourceAdapter.ts:369-371 | the folder query asks for the children of exactly the given folder, with the allow-list plus folders |
| DriveAdapter.EventBus.constructor | src/adapter-out/knowledge/google-drive/GoogleDriveDataSourceAdapter.ts:322-335 | a fresh publisher has published nothing |
| DriveAdapter.EventBus.Publish | src/adapter-out/knowledge/google-drive/GoogleDriveDataSourceAdapter.ts:322-336 | publishing appends the event and returns the ids for its position |
| DriveAdapter.Knowledge.constructor | src/adapter-out/knowledge/google-drive/GoogleDriveDataSourceAdapter.ts:256 | a knowledge row holds the given status, metadata and blob URL |
| DriveAdapter.SetOAuthCredentials | src/adapter-out/knowledge/google-drive/GoogleDriveDataSourceAdapter.ts:87-124 | a missing row or null data is exactly the "OAuth token not found" case, and another user's token is Forbidden. On success the token was the caller's and decrypted and parsed, and the client carries the organisation's Google credentials and the payload's two tokens |
| DriveAdapter.SealedTokenOpensForOwner | src/adapter-out/knowledge/google-drive/GoogleDriveDataSourceAdapter.ts:92-121 | a token sealed by the vault opens for its owner, giving the sealed access and refresh tokens, and is Forbidden to anyone else |
| DriveAdapter.Search | src/adapter-out/knowledge/google-drive/GoogleDriveDataSourceAdapter.ts:167-205 | credential failures propagate. Otherwise there is one entry per file Drive lists for the search query as written (terms unescaped), in Drive's order, and none when Drive returns no `files` |
| DriveAdapter.SearchEntryFields | src/adapter-out/knowledge/google-drive/GoogleDriveDataSourceAdapter.ts:191-198 | id, name and modified time come from the file, each absent one read as empty, the MIME type is passed through, and the owner is the first owner's display name, empty when there is no owner or it has no display name |
| DriveAdapter.FileCollector.constructor | src/adapter-out/knowledge/google-drive/GoogleDriveDataSourceAdapter.ts:366 | the walk starts with no files collected |
| DriveAdapter.FileCollector.ListFilesRecursive | src/adapter-out/knowledge/google-drive/GoogleDriveDataSourceAdapter.ts:368-384 | the walk appends the folder's non-folder descendants in depth-first listing order to what was collected before |
| DriveAdapter.ListAllFiles | src/adapter-out/knowledge/google-drive/GoogleDriveDataSourceAdapter.ts:362-410 | the root's name (empty when absent) and the files `ListedFiles` describes; a picked file is kept with only the id, name and MIME type that `files.get` asked for |
| DriveAdapter.FlattenHasNoFolders | src/adapter-out/knowledge/google-drive/GoogleDriveDataSourceAdapter.ts:377-383 | the walk never collects a folder |
| DriveAdapter.FlattenFindsReached | src/adapter-out/knowledge/google-drive/GoogleDriveDataSourceAdapter.ts:368-384 | the walk collects exactly the files reachable through folders from the children it visits |
| DriveAdapter.ChildFindsReached | src/adapter-out/knowledge/google-drive/GoogleDriveDataSourceAdapter.ts:377-383 | what one listed child contributes holds a file exactly when the file is reachable from that child |
| DriveAdapter.ListedFilesAreReached | src/adapter-out/knowledge/google-drive/GoogleDriveDataSourceAdapter.ts:386-409 | `listAllFiles` never returns a folder, and returns nothing for a root without type or id. For a folder it returns exactly the non-folder files reachable from it; for a file, that file with only its id, name and MIME type |
| DriveAdapter.FlatFolderInListingOrder | src/adapter-out/knowledge/google-drive/GoogleDriveDataSourceAdapter.ts:377-383 | a folder with no sub-folders yields its children in Drive's order |
| DriveAdapter.GetDataSourceItemList | src/adapter-out/knowledge/google-drive/GoogleDriveDataSourceAdapter.ts:207-251 | credential failures propagate. Otherwise the list is of kind GOOGLE_DRIVE, with one item per file `listAllFiles` returns, in the same order |
| DriveAdapter.ItemOfFile | src/adapter-out/knowledge/google-drive/GoogleDriveDataSourceAdapter.ts:234-246 | an item is identified by its file's id and named after its file; its id, name, type and modified time are the file's, each absent one read as empty; and a non-folder file never carries the folder type |
| DriveAdapter.ReindexExactlyWhenModified | src/adapter-out/knowledge/google-drive/GoogleDriveDataSourceAdapter.ts:353-360 | knowledge made from a file listed with its modified time (one found inside a folder) is due for re-indexing exactly when that time changed, and never against the listing it was made from |
| DriveAdapter.PickedFileNeverReindexed | src/adapter-out/knowledge/google-drive/GoogleDriveDataSourceAdapter.ts:386-404 | a directly picked file is listed with an empty modified time, so knowledge made from it is never due for re-indexing against a later listing (see "## Findings") |
| DriveAdapter.PickedWithTimeReindexedWhenModified | src/adapter-out/knowledge/google-drive/GoogleDriveDataSourceAdapter.ts:353-360 | had `files.get` asked for the modified time, a picked file would be due for re-indexing exactly when that time changed |
| DriveAdapter.ExportMimeType | src/adapter-out/knowledge/google-drive/GoogleDriveDataSourceAdapter.ts:419-446 | a file is exported exactly when it is a Google Doc, Sheet or Slides file |
| DriveAdapter.GetFileContent | src/adapter-out/knowledge/google-drive/GoogleDriveDataSourceAdapter.ts:412-452 | Google-native files are exported in the derived type, and other files are downloaded and keep their own type |
| DriveAdapter.DerivedTypeIsLoadable | src/adapter-out/knowledge/google-drive/GoogleDriveDataSourceAdapter.ts:419-446 | Docs become DOCX, Sheets CSV and Slides PDF. The derived type is never Google-native, and stays on the allow-list when the file's own type is on it |
| DriveAdapter.EarlyReturnsAskNothing | src/adapter-out/knowledge/google-drive/GoogleDriveDataSourceAdapter.ts:259-275 | COMPLETED knowledge returns COMPLETED, and a missing user or token id returns FAILED, before any collaborator is asked anything |
| DriveAdapter.OwnTokenReachesContent | src/adapter-out/knowledge/google-drive/GoogleDriveDataSourceAdapter.ts:277-294 | with a token sealed for the caller, indexing is never rejected: it reaches the file's content |
| DriveAdapter.EventIdsInPublishOrder | src/adapter-out/knowledge/google-drive/GoogleDriveDataSourceAdapter.ts:320-337 | the event ids come in publish order: those of event j follow those of every earlier event and precede those of every later one |
| DriveAdapter.PublishChunks | src/adapter-out/knowledge/google-drive/GoogleDriveDataSourceAdapter.ts:320-337 | one KNOWLEDGE_CHUNK_RECEIVED event per chunk, with index i, chunk count n and status SUCCESSFUL, appended after what was published; returns their ids in order |
| DriveAdapter.IndexKnowledge | src/adapter-out/knowledge/google-drive/GoogleDriveDataSourceAdapter.ts:253-351 | the early returns (COMPLETED; FAILED without a user or token id) and a credential rejection change nothing. Once the bytes are in: the chunks are stored as the blob `<name>.json` and its URL recorded on the knowledge. One event per chunk is appended (index 0..n-1, count n, SUCCESSFUL). The call resolves INDEXING with the event ids in publish order and the loader's totals |
| DriveAdapter.ChunkIndexStatus | src/adapter-out/knowledge/google-drive/GoogleDriveDataSourceAdapter.ts:497-505 | a chunk result maps to FAILED exactly when it failed, and to PARTIALLY_COMPLETED otherwise |
| DriveAdapter.LoadKnowledgeResult | src/adapter-out/knowledge/google-drive/GoogleDriveDataSourceAdapter.ts:465-513 | FAILED without a blob URL, on a status other than 200, or when there is no chunk at the index. Otherwise, exactly when a URL is set, the status is 200 and the entry at the index is present, it loads that one chunk and reports it as the only completed chunk |
| DriveAdapter.ChunkResultAfterIndexing | src/adapter-out/knowledge/google-drive/GoogleDriveDataSourceAdapter.ts:465-513 | after indexing stored the chunks, the result for chunk i loads exactly chunk i, and an index outside the chunks fails |
| DriveAdapter.PollKnowledgeIndexingStatus | src/adapter-out/knowledge/google-drive/GoogleDriveDataSourceAdapter.ts:515-521 | polling answers with a status only |
| DriveAdapter.PollReportsStoredStatus | src/adapter-out/knowledge/google-drive/GoogleDriveDataSourceAdapter.ts:515-521 | polling reports the stored status, or INITIALIZED when there is none, and reports COMPLETED exactly for completed knowledge |

## Left out

- The stream of bytes is one sequence. Reading `data` and `end` events, and a stream that errors, are not modelled. A response that is not a `Readable` leaves the promise pending (`Pending`), as in the source.
- A rejection from the file loader, `put` or `publishEvent` after the bytes arrive is not modelled: each collaborator is a total function. The same holds for errors thrown by Drive's `files.list`, `files.get` and `files.export`.
- AES-256-GCM and UTF-8 are abstract: the cipher is any pair of functions with the authenticated-encryption properties. A key of the wrong length, which makes Node throw, is not modelled.
- Encryption.Decrypt: the odd-length error carries a fixed message, while Node's also names the length. A nonce part that decodes to fewer than 12 bytes but not to none is handed to the cipher, as Node hands it to GCM; the cipher promises nothing about opening under a nonce other than the one sealed with.
- Encryption.RoundTrip: stated for well-formed text. A JavaScript string may hold an unpaired surrogate, which UTF-8 encoding turns into U+FFFD, so such a string does not come back unchanged; a Dafny string cannot hold one. The vault only encrypts `JSON.stringify` output, which is well-formed, so it is not affected.
- `encryptAsBuffer` and `decryptFromBuffer` are not part of this model. The vault uses the string framing of `encrypt` and `decrypt` in their place.
- `mapMimeTypeToEnum` is not part of this model: a search entry carries the raw MIME type.
- `listAllFiles`: the folder tree is a parameter, with the children `files.list` returns for each folder's query. The order and timing of the Drive calls, and a folder listed twice, are not modelled. A directly picked file is fetched with `files.get` for its id, name and MIME type only (`Picked`); see "## Findings".
- DriveQuery.FolderQueryReadsBack: stated for folder ids without quote or backslash. Drive's ids are letters, digits, `-` and `_`.
- DriveQuery.SearchQueryReadsBack: stated for terms that need no escaping, since the query as written does not escape. See "## Findings".
- The knowledge's `metadata` is taken to be Drive-shaped (`fileId`, `fileName`, `mimeType`, `modifiedTime`), as the source's casts assume.
- `retrieveKnowledgeIdFromEvent` and `getKnowledgeResultFromEvent` only throw "not implemented". `deleteKnowledge` only forwards to the file loader. None of them is modelled.
- DriveAdapter.LoadKnowledgeResult: a JSON body that is not an array, or an index that is not an integer, is not modelled. The body is an array whose entries may be null.
- The console logging of skipped tokens and failed steps is not modelled.
- Concurrency between requests is not modelled: each operation runs alone.

## Findings

| source | as written | input that shows it | evidently intended | confidence | as-written member | corrected member |
|---|---|---|---|---|---|---|
| src/adapter-out/knowledge/google-drive/GoogleDriveDataSourceAdapter.ts:73-75 | `getNamesQuery` puts each search term between single quotes without escaping `'` or `\`, so a term can close its clause and add others | terms `["a' AND name contains 'b"]` give the same query as `["a", "b"]` | escape `'` and `\` in each term, so that the query asks Drive for exactly the terms typed | not executed; follows from Drive's query syntax | DriveQuery.UnescapedTermsCollide | DriveQuery.EscapedSearchQueryReadsBack |
| src/adapter-out/knowledge/google-drive/GoogleDriveDataSourceAdapter.ts:386-390 | `listAllFiles` fetches a directly picked file with fields id, name and mimeType only, and lists that object, so its item's `modifiedTime` is always empty | any two listings of the same picked file, before and after an edit: `shouldReindexKnowledge` is false | ask `files.get` for `modifiedTime` too, as the folder listing does, so that an edited picked file is re-indexed | not executed; follows from the fields requested | DriveAdapter.PickedFileNeverReindexed | DriveAdapter.PickedWithTimeReindexedWhenModified |
