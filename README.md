# drop-lite: upload, record and gated retrieval

drop-lite lets a sender upload up to ten images and one video and get back
a short access code and one `/f/<id>` link per file. A receiver opens a
link, sees the file's name and expiry, and gets the stored URL back by
presenting the code. This project models the server side of that pipeline
and proves properties of the model:

- `Db` (server/db/db.js) is the SQLite `files` table. The class
  `FilesTable` holds whether the table exists and its rows, keyed by
  primary key. Its methods are `CREATE TABLE IF NOT EXISTS` and one
  `INSERT`, which refuses a NULL code and a duplicate id. `SelectById` is
  the lookup both retrieval routes make.
- `UploadFile` (server/api/uploadFile.js) covers the no-file check and the
  `POST /upload` handler. The handler is an imperative method over three
  pieces of state: the table, the staging directory of temp files
  (`TempStorage`) and the remote blob store (`BlobStore`). Its loop over
  the images and its visit of `video[0]` are proved against specification
  functions. Those functions give the reply, the rows after the request,
  the temp files left on disk and the assets added.
- `DownloadFile` (server/api/downloadFile.js) covers `GET /:id` and
  `POST /:id/verify`. Each is one SELECT followed by a choice of reply, so
  each is a function of the lookup's outcome, the clock and the supplied
  code.
- `UploadProperties` holds the lemmas that relate several calls: what a
  request does to existing and new rows, and what it leaves on disk. It
  also shows that a recorded file can later be retrieved through both
  routes.

The handler's collaborators are parameters, gathered in `UploadFile.Env`:

- the `generateCode()` value;
- the clock;
- the successive `nanoid(6)` draws;
- `BASE_URL`;
- the results of the blob store's uploads, where the upload after the last
  listed result throws.

Whether a staged file exists is stated by the predicate
`UploadFile.StagedOnDisk`.

## Model

| member | source | states |
|---|---|---|
| Db.Violation | server/db/db.js:9-10 | An INSERT is refused exactly when its code is NULL or its id is already a key; the refusal is never "no such table". |
| Db.AfterInsert | server/db/db.js:8-16 | An insertion whose id is already a key leaves the table unchanged. Otherwise the key set grows by the new id exactly when the code is not NULL, and the new row is the stored insertion. |
| Db.InsertKeepsRows | server/db/db.js:9 | An insertion never changes or removes an existing row, and every row stays under its own id. |
| Db.SelectById | server/api/downloadFile.js:15-18 | The lookup finds a row exactly when the table exists and holds the id, and the row found is the stored one. The query fails exactly when the table is missing. |
| Db.FilesTable.Open | server/db/db.js:4 | Opening the database file yields whatever table an earlier run left, or none. |
| Db.FilesTable.CreateIfNotExists | server/db/db.js:6-17 | Afterwards the table exists. An existing table keeps all its rows, and a new table is empty. |
| Db.FilesTable.Insert | server/api/uploadFile.js:75-81 | Without a table the callback gets "no such table" and nothing changes. Otherwise the callback gets the constraint violated, and the rows become `AfterInsert` of the old rows. |
| DownloadFile.GetMetadata | server/api/downloadFile.js:12-33 | The status is one of 200, 400 and 410. It is 400 exactly when the lookup found no row. It is 410 exactly when the row's expiry lies strictly before now. Otherwise the reply is the row's id, name and expiry. |
| DownloadFile.VerifyCode | server/api/downloadFile.js:36-55 | The status is one of 200, 403 and 404. It is 404 exactly when no row was found. The URL is released exactly when the supplied code equals the stored one, and 403 is returned otherwise. The released `url` and `cloudinary_url` are the stored URL. |
| DownloadFile.ExpiryBoundary | server/api/downloadFile.js:20-25 | A record is served at the very millisecond it expires and refused with 410 one millisecond later. |
| DownloadFile.VerifyIgnoresExpiry | server/api/downloadFile.js:40-53 | The right code releases the URL of a record that the metadata route refuses as expired. |
| DownloadFile.CodeComparedVerbatim | server/api/downloadFile.js:45 | A missing code, and the code with a leading or trailing space, are each refused with 403. |
| DownloadFile.RepliesConcernRequestedId | server/api/downloadFile.js:15-31 | In a table that keeps every row under its own id, a metadata reply carries the id asked for, and verify releases the URL stored under that id. |
| DownloadFile.MetadataHidesSecrets | server/api/downloadFile.js:27-31 | Rows that differ only in code or URL get the same metadata reply. |
| UploadFile.IsNoFileUploaded | server/api/uploadFile.js:42-49 | The request is refused exactly when `req.files` is missing or neither field holds a part. |
| UploadFile.Jobs | server/api/uploadFile.js:65-91 | The handler walks every image in order and then `video[0]` when the video field holds a part, and nothing else. |
| UploadFile.TempStorage.Unlink | server/api/uploadFile.js:84-86 | Exactly the given staged path is removed from the staging directory. |
| UploadFile.BlobStore.Upload | server/api/uploadFile.js:69-72 | An upload either throws or returns its result. A returning upload appends one asset in the folder of its kind, and a throwing one leaves the store unchanged. |
| UploadFile.VisitFile | server/api/uploadFile.js:67-86 | Visiting a file uploads it, inserts its row only if the upload returned, and deletes its temp file in every case. |
| UploadFile.VisitNth | server/api/uploadFile.js:67-86 | Visiting file `n` moves the table, the temp files and the assets from their state after `n` files to their state after `n + 1`. |
| UploadFile.VisitImages | server/api/uploadFile.js:65-88 | The image loop stops at the first thrown upload. It records each image before that one, deletes the temp files up to and including it, and returns the URLs and links of the recorded images in order. |
| UploadFile.UploadParts | server/api/uploadFile.js:59-126 | After the no-file check, the reply, rows, temp files and assets are those of `BatchReply`, `BatchRows`, `BatchTemp` and `BatchAssets`. |
| UploadFile.HandleUpload | server/api/uploadFile.js:51-127 | The handler's reply and new state are `Reply`, `RowsAfter`, `TempAfter` and the old assets followed by `AssetsAdded`, and the table stays well formed. |
| UploadFile.AbortedAt | server/api/uploadFile.js:120-126 | When upload `n` throws, the reply is 500, the first `n` files are recorded and `n + 1` temp files are deleted. |
| UploadFile.CompletedAll | server/api/uploadFile.js:114-119 | When every upload returns, the reply carries the code, the image URLs, the video URL and every link. Every file is recorded and every temp file deleted. |
| UploadProperties.InsertAllKeepsRows | server/api/uploadFile.js:75-81 | A sequence of INSERTs never changes or removes an existing row and keeps rows under their own ids. |
| UploadProperties.InsertAllKeys | server/api/uploadFile.js:75-81 | Every key a sequence of INSERTs adds is the id of one of them. |
| UploadProperties.InsertAllNewRows | server/api/uploadFile.js:75-77 | When all INSERTs bind the same code and expiry, every row they add carries that code and expiry. |
| UploadProperties.InsertAllFresh | server/api/uploadFile.js:75-77 | When the ids are distinct and new and every code is non-NULL, each insertion is stored under its id. |
| UploadProperties.NoFilesIffNoJobs | server/api/uploadFile.js:42-49 | The no-file check refuses a request exactly when the handler would walk no file. |
| UploadProperties.NoFilesChangesNothing | server/api/uploadFile.js:52-57 | A request without files gets 400 with the "No files uploaded" message and leaves the table, the temp files and the blob store unchanged. |
| UploadProperties.ReplyOutcome | server/api/uploadFile.js:114-125 | The reply is 500, with the "Upload failed" message, exactly when an upload throws, and 200 otherwise. The 200 reply carries the request's code and the image URLs in order. It has a video URL exactly when a video was sent, and one link per file (#images, plus one for a video), each built from that file's id. |
| UploadProperties.OnlyFirstVideo | server/api/uploadFile.js:90-91 | Parts after `video[0]` do not change what the handler walks. |
| UploadProperties.RequestRows | server/api/uploadFile.js:61-62 | A request never changes an existing row, and every row it adds carries the request's single code and the expiry now + 604 800 000 ms. |
| UploadProperties.RecordRetrievable | server/api/uploadFile.js:75-83 | With fresh ids, every file whose upload returned is recorded, even when a later upload threw. `GET /:id` serves it up to and including its expiry. `POST /:id/verify` releases its URL exactly for the request's code. |
| UploadProperties.CollidingIdKeepsOldRow | server/api/uploadFile.js:78-83 | An id that is already a key keeps its old row, yet the request still returns 200 with that id's link. |
| UploadProperties.TempFilesAfter | server/api/uploadFile.js:84-86 | The request deletes the temp file of each file up to and including the one whose upload threw. It leaves the later ones and deletes nothing else. |

## Left out

- I/O and wiring are not modelled: Express routing, the multer configuration (size limit, `maxCount`, temp file names), the Cloudinary and dotenv configuration, and creating the temp directory. The client, the rate limiters and `server/utils/generateCode.js` are not part of this model either. The code, the clock, the ids and the upload results are parameters.
- The format of the access code is not modelled, because it comes from `generateCode.js`, which is not part of this model.
- Asynchrony is not modelled. `db.run` is not awaited and its errors are only logged. The model applies each INSERT in the order it is issued, before the reply. It does not capture a reply sent before an INSERT completes, or INSERTs completing out of order.
- `expires_at` is held as milliseconds, not as an ISO-8601 string. A string that parses to an invalid date, which makes the expiry comparison false, is not modelled. A NULL expiry reads as the epoch.
- SQLite's acceptance of a NULL `TEXT PRIMARY KEY` is not modelled, because the handler always binds an id.
- UploadFile.HandleUpload: requires one id of length 6 for every file (`EnvCovers`), since `nanoid(6)` always returns one.
- UploadFile.HandleUpload: requires every file to be staged on disk at a path of its own (`StagedOnDisk`). Multer names a staged file `<millisecond>-<original name>`, so two parts with the same name staged in the same millisecond share one path. In that case the first file's `finally` deletes the shared file, the second file's upload and `unlinkSync` then throw, and the reply is 500 with the first file already recorded. The model does not cover this input, and it does not model an `unlinkSync` that throws.
- UploadFile.BlobStore.Upload: an upload that throws is taken to have stored nothing. An upload that stores the asset and then throws, such as one that times out on the way back, would leave an asset that no row refers to; the model does not cover that.
- UploadFile.HandleUpload: requires the table to exist, since `db.serialize` creates it when the module loads, before any request.
- UploadFile.UploadParts: walks a missing `images` field as no images. multer only ever supplies arrays, so the truthiness test on line 65 has no other case.
- UploadProperties.RecordRetrievable: requires the ids drawn by the request to be distinct and new. `nanoid(6)` gives no such guarantee, and `CollidingIdKeepsOldRow` states what happens when it fails.
- The commented-out earlier handler (server/api/uploadFile.js:138-230) and the unused `archiver` import are not modelled. Neither is the unused `app` with `express.json()` in server/api/downloadFile.js.
- Reply bodies are datatypes, not JSON. The `success` flag and the field spelling are not modelled.
- Where the intended design and the code disagree, the model follows the code:
  - A failed request does not compensate: the blobs and rows of files uploaded before the throw stay.
  - `GET /:id` answers 400, not 404, for a missing row or a failed query.
  - Verify does not check expiry.
  - The supplied code is not trimmed.
  - Identifiers are not checked for format.
