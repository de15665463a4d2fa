/** The retrieval routes (server/api/downloadFile.js): `GET /:id` reads a
    file's metadata and `POST /:id/verify` releases its URL for the right
    code. Each is one SELECT followed by a choice of status and body, so
    each is a function of what the SELECT returned, the clock and the
    request. Neither writes the table. */
module DownloadFile {
  import opened Wrappers
  import opened Db

  const FileNotFound := "File not found"
  const LinkExpired := "Link expired"
  const InvalidCode := "Invalid code"

  /** Reply of `GET /:id`. A success carries the id, the original name and
      the stored expiry, and nothing else. */
  datatype MetadataReply =
    | FileInfo(id: string, fileName: Option<string>, expiresAt: Option<Timestamp>)
    | MetadataRefused(status: nat, error: string)

  /** Reply of `POST /:id/verify`. `url` and `cloudinaryUrl` are two names
      for the same stored URL. */
  datatype VerifyReply =
    | Unlocked(url: Option<string>, fileName: Option<string>, cloudinaryUrl: Option<string>)
    | VerifyRefused(status: nat, error: string)

  function MetadataStatus(r: MetadataReply): nat {
    if r.FileInfo? then 200 else r.status
  }

  function VerifyStatus(r: VerifyReply): nat {
    if r.Unlocked? then 200 else r.status
  }

  /** `new Date(row.expires_at)` in milliseconds: a NULL column reads as
      the epoch. */
  function ExpiryInstant(expiresAt: Option<Timestamp>): Timestamp {
    if expiresAt.Some? then expiresAt.value else 0
  }

  /** `GET /:id`. A failed query and a missing row both give 400, a row
      whose expiry lies strictly before `now` gives 410, and otherwise the
      row's public metadata is served. */
  function GetMetadata(found: Lookup, now: Timestamp): (r: MetadataReply)
    ensures MetadataStatus(r) in {200, 400, 410}
    ensures MetadataStatus(r) == 400 <==> !found.Found?
    ensures MetadataStatus(r) == 410 <==> found.Found? && now > ExpiryInstant(found.row.expiresAt)
    ensures r.FileInfo? <==> found.Found? && now <= ExpiryInstant(found.row.expiresAt)
    ensures r.FileInfo? ==>
      r.id == found.row.id && r.fileName == found.row.originalName && r.expiresAt == found.row.expiresAt
    ensures r.MetadataRefused? ==> r.error == (if found.Found? then LinkExpired else FileNotFound)
  {
    if !found.Found? then MetadataRefused(400, FileNotFound)
    else if now > ExpiryInstant(found.row.expiresAt) then MetadataRefused(410, LinkExpired)
    else FileInfo(found.row.id, found.row.originalName, found.row.expiresAt)
  }

  /** `POST /:id/verify`. A failed query and a missing row both give 404; the
      URL is released exactly when the supplied code is the stored one,
      character for character; anything else gives 403. `supplied` is None
      when the body has no `code` or a `code` that is not a string, which
      `===` never equates with a TEXT column. The clock is not consulted. */
  function VerifyCode(found: Lookup, supplied: Option<string>): (r: VerifyReply)
    ensures VerifyStatus(r) in {200, 403, 404}
    ensures VerifyStatus(r) == 404 <==> !found.Found?
    ensures r.Unlocked? <==> found.Found? && supplied == Some(found.row.code)
    ensures VerifyStatus(r) == 403 <==> found.Found? && supplied != Some(found.row.code)
    ensures r.Unlocked? ==>
      r.url == r.cloudinaryUrl == found.row.cloudinaryUrl && r.fileName == found.row.originalName
  {
    if !found.Found? then VerifyRefused(404, FileNotFound)
    else if supplied.Some? && supplied.value == found.row.code then
      Unlocked(found.row.cloudinaryUrl, found.row.originalName, found.row.cloudinaryUrl)
    else VerifyRefused(403, InvalidCode)
  }

  /** The expiry comparison is strict: a record is still served at the very
      millisecond it expires and refused one millisecond later. */
  lemma ExpiryBoundary(row: Row, expiry: Timestamp)
    requires row.expiresAt == Some(expiry)
    ensures GetMetadata(Found(row), expiry) == FileInfo(row.id, row.originalName, row.expiresAt)
    ensures MetadataStatus(GetMetadata(Found(row), expiry + 1)) == 410
  {
  }

  /** Verify does not look at `expires_at`: the right code on a record that
      the metadata route already refuses as expired still releases its URL. */
  lemma VerifyIgnoresExpiry(row: Row, now: Timestamp)
    requires now > ExpiryInstant(row.expiresAt)
    ensures MetadataStatus(GetMetadata(Found(row), now)) == 410
    ensures VerifyCode(Found(row), Some(row.code)) == Unlocked(row.cloudinaryUrl, row.originalName, row.cloudinaryUrl)
  {
  }

  /** The code is compared verbatim: an absent code and a code with
      surrounding whitespace are both refused with 403. */
  lemma CodeComparedVerbatim(row: Row)
    ensures VerifyStatus(VerifyCode(Found(row), None)) == 403
    ensures VerifyStatus(VerifyCode(Found(row), Some(" " + row.code))) == 403
    ensures VerifyStatus(VerifyCode(Found(row), Some(row.code + " "))) == 403
  {
    assert |" " + row.code| != |row.code|;
    assert |row.code + " "| != |row.code|;
  }

  /** The metadata reply does not depend on the stored code or URL: two rows
      that agree on id, name and expiry get the same reply, so neither
      secret can leak through it. */
  lemma MetadataHidesSecrets(a: Row, b: Row, now: Timestamp)
    requires a.id == b.id && a.originalName == b.originalName && a.expiresAt == b.expiresAt
    ensures GetMetadata(Found(a), now) == GetMetadata(Found(b), now)
  {
  }

  /** In a table that keeps every row under its own id, `GET /:id` answers
      with the id that was asked for, and verify releases the URL of that
      id's row. */
  lemma RepliesConcernRequestedId(rows: Rows, id: string, now: Timestamp, supplied: Option<string>)
    requires KeyedById(rows)
    ensures GetMetadata(SelectById(true, rows, id), now).FileInfo? ==> GetMetadata(SelectById(true, rows, id), now).id == id
    ensures VerifyCode(SelectById(true, rows, id), supplied).Unlocked? ==>
      id in rows && VerifyCode(SelectById(true, rows, id), supplied).url == rows[id].cloudinaryUrl
  {
  }
}
