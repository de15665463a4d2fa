/** The `POST /upload` route (server/api/uploadFile.js): it checks that the
    request carries a file, draws one access code and one expiry for the
    whole request, then walks the images in order and at most one video,
    uploading each to the blob store, inserting its row into `files`,
    collecting its `/f/<id>` link and deleting its staged temp file. */
module UploadFile {
  import opened Wrappers
  import opened Db

  /** A multipart part that multer has staged on local disk. */
  datatype StagedFile = StagedFile(path: string, originalName: string)

  /** `req.files`: each of the two fields is either absent or an array. */
  datatype UploadedParts = UploadedParts(images: Option<seq<StagedFile>>, video: Option<seq<StagedFile>>)

  datatype Kind = Image | Video

  /** One file the handler processes, with the category it is uploaded as. */
  datatype Job = Job(file: StagedFile, kind: Kind)

  /** What the blob store's upload returns when it does not throw: the
      stored asset's public URL and its asset id. */
  datatype UploadResult = UploadResult(secureUrl: string, publicId: string)

  /** An asset held by the blob store. */
  datatype Asset = Asset(publicId: string, secureUrl: string, folder: string, kind: Kind)

  /** What the handler obtains from its collaborators and configuration:
      the `generateCode()` value, the clock, the successive `nanoid(6)`
      draws, `BASE_URL`, and what the blob store's successive uploads
      return. `uploads` lists the uploads that return; the upload after the
      last of them throws. Since the first throw ends the request, this
      describes every way the blob store can behave. */
  datatype Env = Env(code: string, now: Timestamp, ids: seq<string>, uploads: seq<UploadResult>, baseUrl: string)

  /** The reply: 400 with no files, 200 with the code, the uploaded URLs
      and the links, or 500 after a thrown upload. */
  datatype UploadResponse =
    | NoFilesUploaded
    | UploadSucceeded(code: string, images: seq<string>, video: Option<string>, downloadLinks: seq<string>)
    | UploadFailed

  const NoFilesError := "No files uploaded. Please select at least one image or video."
  const UploadFailedError := "Upload failed. Please try again."

  /** Seven days in milliseconds: 604 800 000. */
  const RetentionMs: int := 7 * 24 * 60 * 60 * 1000

  /** The length of every `nanoid(6)` draw. */
  const IdLength := 6

  /** The `error` field of a refused reply; a success has none. */
  function ErrorMessage(r: UploadResponse): Option<string> {
    match r
    case NoFilesUploaded => Some(NoFilesError)
    case UploadSucceeded(_, _, _, _) => None
    case UploadFailed => Some(UploadFailedError)
  }

  function Status(r: UploadResponse): nat {
    match r
    case NoFilesUploaded => 400
    case UploadSucceeded(_, _, _, _) => 200
    case UploadFailed => 500
  }

  /** The blob-store folder a file of each kind is uploaded into. */
  function Folder(kind: Kind): string {
    if kind == Image then "drop-lite/images" else "drop-lite/videos"
  }

  /** The retrieval link for an id. */
  function Link(baseUrl: string, id: string): string {
    baseUrl + "/f/" + id
  }

  /** A field that is present and holds at least one part. */
  predicate HasEntries(field: Option<seq<StagedFile>>) {
    field.Some? && |field.value| > 0
  }

  /** The request is refused when `req.files` is missing, when both fields
      are missing, or when each field is missing or empty. Together this is
      exactly: neither field holds a part. */
  function IsNoFileUploaded(files: Option<UploadedParts>): (none: bool)
    ensures none <==> files.None? || (!HasEntries(files.value.images) && !HasEntries(files.value.video))
  {
    files.None?
    || (files.value.images.None? && files.value.video.None?)
    || ((files.value.images.None? || |files.value.images.value| == 0)
        && (files.value.video.None? || |files.value.video.value| == 0))
  }

  function ImageParts(parts: UploadedParts): seq<StagedFile> {
    if parts.images.Some? then parts.images.value else []
  }

  /** The files the handler walks, in order: every image, then `video[0]`
      when the video field holds a part. */
  function Jobs(parts: UploadedParts): (jobs: seq<Job>)
    ensures |jobs| == |ImageParts(parts)| + (if HasEntries(parts.video) then 1 else 0)
    ensures forall i :: 0 <= i < |ImageParts(parts)| ==> jobs[i] == Job(ImageParts(parts)[i], Image)
    ensures HasEntries(parts.video) ==> jobs[|jobs| - 1] == Job(parts.video.value[0], Video)
  {
    var images := ImageParts(parts);
    seq(|images|, i requires 0 <= i < |images| => Job(images[i], Image))
      + if HasEntries(parts.video) then [Job(parts.video.value[0], Video)] else []
  }

  /** Every id drawn has the length `nanoid(6)` gives, and there is one
      for every file the handler may visit. */
  predicate EnvCovers(files: Option<UploadedParts>, env: Env) {
    && (forall i :: 0 <= i < |env.ids| ==> |env.ids[i]| == IdLength)
    && (files.Some? ==> |Jobs(files.value)| <= |env.ids|)
  }

  /** What the handler's `n`-th upload does: return, or throw (None). */
  function NextUpload(env: Env, n: nat): Option<UploadResult> {
    if n < |env.uploads| then Some(env.uploads[n]) else None
  }

  /** Of the first `n` files, how many have an upload that returned before
      the request was aborted. */
  function Returned(n: nat, env: Env): (k: nat)
    ensures k <= n && k <= |env.uploads|
    ensures k < n <==> |env.uploads| < n
  {
    if |env.uploads| < n then |env.uploads| else n
  }

  /** How many files reach their `finally` block: those whose upload
      returned, and the one whose upload threw. */
  function Finished(n: nat, env: Env): nat {
    if |env.uploads| < n then |env.uploads| + 1 else n
  }

  /** The values the handler binds to the INSERT for a file whose upload
      returned: the request's code and expiry, the file's own id, name,
      URL and asset id. */
  function InsertionFor(job: Job, id: string, code: string, expiresAt: Timestamp, result: UploadResult): Insertion {
    Insertion(id, Some(code), Some(job.file.originalName), Some(result.secureUrl), Some(result.publicId), Some(expiresAt))
  }

  /** The INSERTs issued for the first `k` files, in order. */
  function Insertions(jobs: seq<Job>, env: Env, k: nat): seq<Insertion>
    requires k <= |jobs| && k <= |env.ids| && k <= |env.uploads|
  {
    seq(k, i requires 0 <= i < k => InsertionFor(jobs[i], env.ids[i], env.code, env.now + RetentionMs, env.uploads[i]))
  }

  /** The table after running a batch of INSERTs in order; each refused
      statement is skipped. */
  function InsertAll(rows: Rows, batch: seq<Insertion>): Rows
  {
    if batch == [] then rows
    else AfterInsert(InsertAll(rows, batch[..|batch| - 1]), batch[|batch| - 1])
  }

  /** The asset the blob store holds after an upload that returned. */
  function AssetFor(kind: Kind, result: UploadResult): Asset {
    Asset(result.publicId, result.secureUrl, Folder(kind), kind)
  }

  /** The assets created by the first `k` uploads. */
  function NewAssets(jobs: seq<Job>, env: Env, k: nat): seq<Asset>
    requires k <= |jobs| && k <= |env.uploads|
  {
    seq(k, i requires 0 <= i < k => AssetFor(jobs[i].kind, env.uploads[i]))
  }

  /** The URLs returned by the first `k` uploads. */
  function Urls(env: Env, k: nat): seq<string>
    requires k <= |env.uploads|
  {
    seq(k, i requires 0 <= i < k => env.uploads[i].secureUrl)
  }

  /** The links for the first `k` ids drawn. */
  function Links(env: Env, k: nat): seq<string>
    requires k <= |env.ids|
  {
    seq(k, i requires 0 <= i < k => Link(env.baseUrl, env.ids[i]))
  }

  /** The staged paths of the first `m` files. */
  function PathsOf(jobs: seq<Job>, m: nat): set<string>
    requires m <= |jobs|
  {
    set i | 0 <= i < m :: jobs[i].file.path
  }

  /** The reply the handler sends. */
  function Reply(files: Option<UploadedParts>, env: Env): UploadResponse
    requires EnvCovers(files, env)
  {
    if IsNoFileUploaded(files) then NoFilesUploaded else BatchReply(files.value, env)
  }

  /** The reply once the request has passed the no-file check: 500 if an
      upload threw, otherwise the code, the image URLs in order, the video
      URL if a video was sent, and one link per file. */
  function BatchReply(parts: UploadedParts, env: Env): UploadResponse
    requires EnvCovers(Some(parts), env)
  {
    var jobs := Jobs(parts);
    if |env.uploads| < |jobs| then UploadFailed
    else
      var nImages := |ImageParts(parts)|;
      UploadSucceeded(
        env.code,
        Urls(env, nImages),
        if HasEntries(parts.video) then Some(env.uploads[nImages].secureUrl) else None,
        Links(env, |jobs|))
  }

  /** The table once the request's INSERTs have completed. */
  function RowsAfter(rows: Rows, files: Option<UploadedParts>, env: Env): Rows
    requires EnvCovers(files, env)
  {
    if files.None? then rows else BatchRows(rows, files.value, env)
  }

  function BatchRows(rows: Rows, parts: UploadedParts, env: Env): Rows
    requires EnvCovers(Some(parts), env)
  {
    var jobs := Jobs(parts);
    InsertAll(rows, Insertions(jobs, env, Returned(|jobs|, env)))
  }

  /** The staged files left on disk after the request. */
  function TempAfter(paths: set<string>, files: Option<UploadedParts>, env: Env): set<string>
    requires EnvCovers(files, env)
  {
    if files.None? then paths else BatchTemp(paths, files.value, env)
  }

  function BatchTemp(paths: set<string>, parts: UploadedParts, env: Env): set<string>
    requires EnvCovers(Some(parts), env)
  {
    var jobs := Jobs(parts);
    paths - PathsOf(jobs, Finished(|jobs|, env))
  }

  /** The assets the request adds to the blob store. */
  function AssetsAdded(files: Option<UploadedParts>, env: Env): seq<Asset>
    requires EnvCovers(files, env)
  {
    if files.None? then [] else BatchAssets(files.value, env)
  }

  function BatchAssets(parts: UploadedParts, env: Env): seq<Asset>
    requires EnvCovers(Some(parts), env)
  {
    var jobs := Jobs(parts);
    NewAssets(jobs, env, Returned(|jobs|, env))
  }

  /** Every file the handler visits is staged on disk, each at a path of
      its own. Multer names a staged file after the current millisecond and
      the original name, so two parts with the same name staged in the same
      millisecond would share a path; this predicate excludes that case. */
  ghost predicate StagedOnDisk(jobs: seq<Job>, paths: set<string>) {
    && (forall i :: 0 <= i < |jobs| ==> jobs[i].file.path in paths && jobs[i].file.path !in PathsOf(jobs, i))
  }

  /** The local staging directory `uploads/tempStorage`. */
  class TempStorage {
    var paths: set<string>

    constructor (staged: set<string>)
      ensures paths == staged
    {
      paths := staged;
    }

    /** `fs.unlinkSync(path)` on a staged file. */
    method Unlink(path: string)
      requires path in paths
      modifies this
      ensures paths == old(paths) - {path}
    {
      paths := paths - {path};
    }
  }

  /** The remote blob store, as the list of assets it holds. */
  class BlobStore {
    var assets: seq<Asset>

    constructor (held: seq<Asset>)
      ensures assets == held
    {
      assets := held;
    }

    /** `cloudinary.uploader.upload` into the folder of `kind`. Whether it
        returns or throws (None) is decided outside the model and given as
        `outcome`; an upload that returns leaves a new asset behind, and
        one that throws is taken to have stored nothing. */
    method Upload(kind: Kind, outcome: Option<UploadResult>) returns (result: Option<UploadResult>)
      modifies this
      ensures result == outcome
      ensures assets == if outcome.Some? then old(assets) + [AssetFor(kind, outcome.value)] else old(assets)
    {
      result := outcome;
      if outcome.Some? {
        assets := assets + [AssetFor(kind, outcome.value)];
      }
    }
  }

  /** Visiting file `k` with an upload that returns appends one INSERT. */
  lemma InsertionsExtend(jobs: seq<Job>, env: Env, rows: Rows, k: nat)
    requires k < |jobs| && k < |env.ids| && k < |env.uploads|
    ensures InsertAll(rows, Insertions(jobs, env, k + 1)) ==
      AfterInsert(InsertAll(rows, Insertions(jobs, env, k)),
                  InsertionFor(jobs[k], env.ids[k], env.code, env.now + RetentionMs, env.uploads[k]))
  {
    assert Insertions(jobs, env, k + 1)[..k] == Insertions(jobs, env, k);
  }

  /** Visiting file `k` with an upload that returns appends one asset. */
  lemma AssetsExtend(jobs: seq<Job>, env: Env, k: nat)
    requires k < |jobs| && k < |env.uploads|
    ensures NewAssets(jobs, env, k + 1) == NewAssets(jobs, env, k) + [AssetFor(jobs[k].kind, env.uploads[k])]
  {
  }

  /** Visiting file `k` with an upload that returns appends one link. */
  lemma LinksExtend(env: Env, k: nat)
    requires k < |env.ids|
    ensures Links(env, k + 1) == Links(env, k) + [Link(env.baseUrl, env.ids[k])]
  {
  }

  /** Visiting image `k` with an upload that returns appends one URL. */
  lemma UrlsExtend(env: Env, k: nat)
    requires k < |env.uploads|
    ensures Urls(env, k + 1) == Urls(env, k) + [env.uploads[k].secureUrl]
  {
  }

  /** File `k`'s temp file is still on disk when it is visited, and deleting
      it extends the set of deleted paths by one. */
  lemma PathStep(jobs: seq<Job>, paths: set<string>, k: nat)
    requires StagedOnDisk(jobs, paths) && k < |jobs|
    ensures jobs[k].file.path in paths - PathsOf(jobs, k)
    ensures PathsOf(jobs, k + 1) == PathsOf(jobs, k) + {jobs[k].file.path}
  {
  }

  /** When upload `n` throws after every earlier one returned, the request
      ends in 500 with the first `n` files recorded and `n + 1` temp files
      deleted. */
  lemma AbortedAt(parts: UploadedParts, env: Env, rows: Rows, paths: set<string>, n: nat)
    requires EnvCovers(Some(parts), env)
    requires n < |Jobs(parts)| && n == |env.uploads|
    ensures BatchReply(parts, env) == UploadFailed
    ensures BatchRows(rows, parts, env) == InsertAll(rows, Insertions(Jobs(parts), env, n))
    ensures BatchTemp(paths, parts, env) == paths - PathsOf(Jobs(parts), n + 1)
    ensures BatchAssets(parts, env) == NewAssets(Jobs(parts), env, n)
  {
  }

  /** When every upload returns, the request ends in 200 with every file
      recorded and every temp file deleted. */
  lemma CompletedAll(parts: UploadedParts, env: Env, rows: Rows, paths: set<string>)
    requires EnvCovers(Some(parts), env)
    requires |Jobs(parts)| <= |env.uploads|
    ensures BatchReply(parts, env) == UploadSucceeded(
      env.code,
      Urls(env, |ImageParts(parts)|),
      if HasEntries(parts.video) then Some(env.uploads[|ImageParts(parts)|].secureUrl) else None,
      Links(env, |Jobs(parts)|))
    ensures BatchRows(rows, parts, env) == InsertAll(rows, Insertions(Jobs(parts), env, |Jobs(parts)|))
    ensures BatchTemp(paths, parts, env) == paths - PathsOf(Jobs(parts), |Jobs(parts)|)
    ensures BatchAssets(parts, env) == NewAssets(Jobs(parts), env, |Jobs(parts)|)
  {
  }

  /** The body the handler runs for each file: upload it, and if that
      returned, insert its row; in every case delete its temp file. The
      INSERT's outcome is only logged, so it is not returned. */
  method VisitFile(job: Job, fileId: string, code: string, expiresAt: Timestamp, outcome: Option<UploadResult>,
                   table: FilesTable, temp: TempStorage, store: BlobStore)
    returns (result: Option<UploadResult>)
    requires table.Valid() && table.created
    requires job.file.path in temp.paths
    modifies table, temp, store
    ensures result == outcome
    ensures table.Valid() && table.created
    ensures table.rows ==
      if outcome.Some? then AfterInsert(old(table.rows), InsertionFor(job, fileId, code, expiresAt, outcome.value))
      else old(table.rows)
    ensures temp.paths == old(temp.paths) - {job.file.path}
    ensures store.assets ==
      if outcome.Some? then old(store.assets) + [AssetFor(job.kind, outcome.value)] else old(store.assets)
  {
    result := store.Upload(job.kind, outcome);
    if result.Some? {
      var insertError := table.Insert(InsertionFor(job, fileId, code, expiresAt, result.value));
    }
    temp.Unlink(job.file.path);
  }

  /** Visiting file `n` of the request, once every earlier upload has
      returned: the table, the staging directory and the blob store move
      from their state after `n` files to their state after `n + 1`. */
  method VisitNth(ghost jobs: seq<Job>, n: nat, file: StagedFile, kind: Kind, env: Env, code: string, expiresAt: Timestamp,
                  table: FilesTable, temp: TempStorage, store: BlobStore,
                  ghost rows0: Rows, ghost paths0: set<string>, ghost assets0: seq<Asset>)
    returns (result: Option<UploadResult>)
    requires n < |jobs| <= |env.ids| && n <= |env.uploads|
    requires jobs[n] == Job(file, kind)
    requires code == env.code && expiresAt == env.now + RetentionMs
    requires StagedOnDisk(jobs, paths0)
    requires table.Valid() && table.created
    requires table.rows == InsertAll(rows0, Insertions(jobs, env, n))
    requires temp.paths == paths0 - PathsOf(jobs, n)
    requires store.assets == assets0 + NewAssets(jobs, env, n)
    modifies table, temp, store
    ensures result == NextUpload(env, n)
    ensures table.Valid() && table.created
    ensures table.rows == InsertAll(rows0, Insertions(jobs, env, Returned(n + 1, env)))
    ensures temp.paths == paths0 - PathsOf(jobs, n + 1)
    ensures store.assets == assets0 + NewAssets(jobs, env, Returned(n + 1, env))
  {
    PathStep(jobs, paths0, n);
    result := VisitFile(Job(file, kind), env.ids[n], code, expiresAt, NextUpload(env, n), table, temp, store);
    if result.Some? {
      InsertionsExtend(jobs, env, rows0, n);
      AssetsExtend(jobs, env, n);
    }
  }

  /** The handler's loop over the images, `jobs[..|images|]`. A thrown
      upload leaves the loop for the request's `catch`: `n` is then the
      index of the image whose upload threw, and otherwise `|images|`. */
  method VisitImages(images: seq<StagedFile>, ghost jobs: seq<Job>, env: Env, code: string, expiresAt: Timestamp,
                     table: FilesTable, temp: TempStorage, store: BlobStore)
    returns (n: nat, uploadedImages: seq<string>, downloadLinks: seq<string>)
    requires |images| <= |jobs| <= |env.ids|
    requires forall i :: 0 <= i < |images| ==> jobs[i] == Job(images[i], Image)
    requires code == env.code && expiresAt == env.now + RetentionMs
    requires table.Valid() && table.created
    requires StagedOnDisk(jobs, temp.paths)
    modifies table, temp, store
    ensures n == Returned(|images|, env)
    ensures table.Valid() && table.created
    ensures table.rows == InsertAll(old(table.rows), Insertions(jobs, env, n))
    ensures temp.paths == old(temp.paths) - PathsOf(jobs, Finished(|images|, env))
    ensures store.assets == old(store.assets) + NewAssets(jobs, env, n)
    ensures uploadedImages == Urls(env, n)
    ensures downloadLinks == Links(env, n)
  {
    uploadedImages, downloadLinks := [], [];
    n := 0;
    while n < |images|
      invariant n <= |images| && n <= |env.uploads|
      invariant table.Valid() && table.created
      invariant table.rows == InsertAll(old(table.rows), Insertions(jobs, env, n))
      invariant temp.paths == old(temp.paths) - PathsOf(jobs, n)
      invariant store.assets == old(store.assets) + NewAssets(jobs, env, n)
      invariant uploadedImages == Urls(env, n)
      invariant downloadLinks == Links(env, n)
    {
      var file := images[n];
      var result := VisitNth(jobs, n, file, Image, env, code, expiresAt, table, temp, store,
                             old(table.rows), old(temp.paths), old(store.assets));
      if result.None? {
        return;
      }
      UrlsExtend(env, n);
      LinksExtend(env, n);
      uploadedImages := uploadedImages + [result.value.secureUrl];
      downloadLinks := downloadLinks + [Link(env.baseUrl, env.ids[n])];
      n := n + 1;
    }
  }

  /** The `POST /upload` handler. The table, the staging directory and the
      blob store are the state it changes; the reply and each new state are
      those the specification functions above give. */
  method HandleUpload(files: Option<UploadedParts>, env: Env, table: FilesTable, temp: TempStorage, store: BlobStore)
    returns (resp: UploadResponse)
    requires EnvCovers(files, env)
    requires table.Valid() && table.created
    requires files.Some? ==> StagedOnDisk(Jobs(files.value), temp.paths)
    modifies table, temp, store
    ensures table.Valid() && table.created
    ensures resp == Reply(files, env)
    ensures table.rows == RowsAfter(old(table.rows), files, env)
    ensures temp.paths == TempAfter(old(temp.paths), files, env)
    ensures store.assets == old(store.assets) + AssetsAdded(files, env)
  {
    if IsNoFileUploaded(files) {
      assert files.Some? ==> Jobs(files.value) == [];
      return NoFilesUploaded;
    }
    resp := UploadParts(files.value, env, table, temp, store);
  }

  /** The handler's `try` block, reached once `req.files` holds a part: one
      code and one expiry for the request, the loop over the images, then
      `video[0]`. A thrown upload ends it in the `catch`. */
  method UploadParts(parts: UploadedParts, env: Env, table: FilesTable, temp: TempStorage, store: BlobStore)
    returns (resp: UploadResponse)
    requires EnvCovers(Some(parts), env)
    requires table.Valid() && table.created
    requires StagedOnDisk(Jobs(parts), temp.paths)
    modifies table, temp, store
    ensures table.Valid() && table.created
    ensures resp == BatchReply(parts, env)
    ensures table.rows == BatchRows(old(table.rows), parts, env)
    ensures temp.paths == BatchTemp(old(temp.paths), parts, env)
    ensures store.assets == old(store.assets) + BatchAssets(parts, env)
  {
    ghost var jobs := Jobs(parts);
    var code := env.code;
    var expiresAt := env.now + RetentionMs;
    var uploadedImages: seq<string> := [];
    var uploadedVideo: Option<string> := None;
    var downloadLinks: seq<string> := [];
    // Files whose upload returned so far: the next file's id and upload
    // result are the `n`-th of `env`.
    var n := 0;

    // `if (req.files.images)`: a missing field is walked as no images.
    var images := ImageParts(parts);
    n, uploadedImages, downloadLinks := VisitImages(images, jobs, env, code, expiresAt, table, temp, store);
    if n < |images| {
      AbortedAt(parts, env, old(table.rows), old(temp.paths), n);
      return UploadFailed;
    }
    assert n == |images| && uploadedImages == Urls(env, |images|);

    if parts.video.Some? && |parts.video.value| > 0 {
      var file := parts.video.value[0];
      var result := VisitNth(jobs, n, file, Video, env, code, expiresAt, table, temp, store,
                             old(table.rows), old(temp.paths), old(store.assets));
      if result.None? {
        AbortedAt(parts, env, old(table.rows), old(temp.paths), n);
        return UploadFailed;
      }
      LinksExtend(env, n);
      uploadedVideo := Some(result.value.secureUrl);
      downloadLinks := downloadLinks + [Link(env.baseUrl, env.ids[n])];
      n := n + 1;
    }

    assert n == |jobs| && downloadLinks == Links(env, |jobs|);
    assert uploadedVideo == if HasEntries(parts.video) then Some(env.uploads[|images|].secureUrl) else None;
    CompletedAll(parts, env, old(table.rows), old(temp.paths));
    resp := UploadSucceeded(code, uploadedImages, uploadedVideo, downloadLinks);
  }
}
