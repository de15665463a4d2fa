/** What one `POST /upload` request promises about the reply, the `files`
    table, the staging directory and the blob store, and what the
    retrieval routes later make of the rows it wrote. */
module UploadProperties {
  import opened Wrappers
  import opened Db
  import opened UploadFile
  import opened DownloadFile

  /** The ids of a batch of insertions. */
  function IdsOf(batch: seq<Insertion>): set<string> {
    set i | 0 <= i < |batch| :: batch[i].id
  }

  /** The staged file of job `i` of a request. */
  function PathOf(parts: UploadedParts, i: nat): string
    requires i < |Jobs(parts)|
  {
    Jobs(parts)[i].file.path
  }

  // ---------------------------------------------------------------------
  // Batches of INSERTs

  /** A batch of INSERTs never changes or removes a row that was already
      there, and keeps every row under its own id. */
  lemma {:induction false} InsertAllKeepsRows(rows: Rows, batch: seq<Insertion>)
    ensures forall id :: id in rows ==> id in InsertAll(rows, batch) && InsertAll(rows, batch)[id] == rows[id]
    ensures KeyedById(rows) ==> KeyedById(InsertAll(rows, batch))
  {
    if batch != [] {
      var init := batch[..|batch| - 1];
      InsertAllKeepsRows(rows, init);
      InsertKeepsRows(InsertAll(rows, init), batch[|batch| - 1]);
    }
  }

  /** Every row a batch adds sits under the id of one of its insertions. */
  lemma {:induction false} InsertAllKeys(rows: Rows, batch: seq<Insertion>)
    ensures InsertAll(rows, batch).Keys <= rows.Keys + IdsOf(batch)
  {
    if batch != [] {
      var init := batch[..|batch| - 1];
      InsertAllKeys(rows, init);
      assert IdsOf(init) <= IdsOf(batch) by {
        forall id | id in IdsOf(init) ensures id in IdsOf(batch) {
          var j :| 0 <= j < |init| && init[j].id == id;
          assert batch[j].id == id;
        }
      }
      assert batch[|batch| - 1].id in IdsOf(batch);
    }
  }

  /** When every insertion of a batch carries the same code and expiry, so
      does every row the batch adds. */
  lemma {:induction false} InsertAllNewRows(rows: Rows, batch: seq<Insertion>, code: string, expiry: Timestamp)
    requires forall i :: 0 <= i < |batch| ==> batch[i].code == Some(code) && batch[i].expiresAt == Some(expiry)
    ensures forall id :: id in InsertAll(rows, batch) && id !in rows ==>
      InsertAll(rows, batch)[id].code == code && InsertAll(rows, batch)[id].expiresAt == Some(expiry)
  {
    if batch != [] {
      var init := batch[..|batch| - 1];
      InsertAllNewRows(rows, init, code, expiry);
      InsertKeepsRows(InsertAll(rows, init), batch[|batch| - 1]);
    }
  }

  /** When the ids of a batch are distinct, absent from the table and each
      insertion has a code, every insertion of the batch is stored. */
  lemma {:induction false} InsertAllFresh(rows: Rows, batch: seq<Insertion>)
    requires forall i :: 0 <= i < |batch| ==> batch[i].code.Some? && batch[i].id !in rows
    requires forall i, j :: 0 <= i < j < |batch| ==> batch[i].id != batch[j].id
    ensures forall i :: 0 <= i < |batch| ==>
      batch[i].id in InsertAll(rows, batch) && InsertAll(rows, batch)[batch[i].id] == Stored(batch[i])
  {
    if batch != [] {
      var init := batch[..|batch| - 1];
      var last := batch[|batch| - 1];
      InsertAllFresh(rows, init);
      InsertAllKeys(rows, init);
      assert last.id !in IdsOf(init);
      InsertKeepsRows(InsertAll(rows, init), last);
      forall i | 0 <= i < |batch|
        ensures batch[i].id in InsertAll(rows, batch) && InsertAll(rows, batch)[batch[i].id] == Stored(batch[i])
      {
        if i < |init| {
          assert batch[i] == init[i];
        }
      }
    }
  }

  // ---------------------------------------------------------------------
  // One request

  /** The first `n` ids drawn are distinct and none is a key already. */
  ghost predicate FreshIds(rows: Rows, env: Env, n: nat)
    requires n <= |env.ids|
  {
    && (forall i :: 0 <= i < n ==> env.ids[i] !in rows)
    && (forall i, j :: 0 <= i < j < n ==> env.ids[i] != env.ids[j])
  }

  /** The no-file check refuses exactly the requests with nothing to walk. */
  lemma NoFilesIffNoJobs(parts: UploadedParts)
    ensures IsNoFileUploaded(Some(parts)) <==> Jobs(parts) == []
  {
    if !IsNoFileUploaded(Some(parts)) {
      assert |Jobs(parts)| > 0;
    }
  }

  /** A request without files gets 400 and changes nothing. */
  lemma NoFilesChangesNothing(files: Option<UploadedParts>, env: Env, rows: Rows, paths: set<string>)
    requires EnvCovers(files, env) && IsNoFileUploaded(files)
    ensures Reply(files, env) == NoFilesUploaded && Status(Reply(files, env)) == 400
    ensures ErrorMessage(Reply(files, env)) == Some(NoFilesError)
    ensures RowsAfter(rows, files, env) == rows
    ensures TempAfter(paths, files, env) == paths
    ensures AssetsAdded(files, env) == []
  {
    if files.Some? {
      NoFilesIffNoJobs(files.value);
    }
  }

  /** A request with files gets 500, without a code, exactly when one of
      its uploads throws, and 200 otherwise. The 200 reply carries the
      request's code, every image URL in order, the video URL exactly when
      a video was sent, and one link per file, built from that file's id. */
  lemma ReplyOutcome(parts: UploadedParts, env: Env)
    requires EnvCovers(Some(parts), env) && !IsNoFileUploaded(Some(parts))
    ensures var r := Reply(Some(parts), env);
      && (Status(r) == 500 <==> |env.uploads| < |Jobs(parts)|)
      && (Status(r) == 500 ==> ErrorMessage(r) == Some(UploadFailedError))
      && (Status(r) == 200 <==> |Jobs(parts)| <= |env.uploads|)
      && (r.UploadSucceeded? ==>
            && r.code == env.code
            && |r.downloadLinks| == |ImageParts(parts)| + (if HasEntries(parts.video) then 1 else 0)
            && (forall i :: 0 <= i < |r.downloadLinks| ==> r.downloadLinks[i] == Link(env.baseUrl, env.ids[i]))
            && r.images == Urls(env, |ImageParts(parts)|)
            && (r.video.None? <==> !HasEntries(parts.video))
            && (r.video.Some? ==> r.video.value == env.uploads[|ImageParts(parts)|].secureUrl))
  {
  }

  /** Only the first part of the video field is walked: the parts after it
      change nothing about the request. */
  lemma OnlyFirstVideo(images: Option<seq<StagedFile>>, video: seq<StagedFile>)
    requires |video| > 0
    ensures Jobs(UploadedParts(images, Some(video))) == Jobs(UploadedParts(images, Some(video[..1])))
  {
    var long, short := UploadedParts(images, Some(video)), UploadedParts(images, Some(video[..1]));
    assert |Jobs(long)| == |Jobs(short)|;
    forall i | 0 <= i < |Jobs(long)| ensures Jobs(long)[i] == Jobs(short)[i] {
    }
  }

  /** A request never changes a row that was already there; every row it
      adds carries the request's one code and the expiry seven days after
      it started. */
  lemma RequestRows(rows: Rows, files: Option<UploadedParts>, env: Env)
    requires EnvCovers(files, env)
    ensures forall id :: id in rows ==> id in RowsAfter(rows, files, env) && RowsAfter(rows, files, env)[id] == rows[id]
    ensures forall id :: id in RowsAfter(rows, files, env) && id !in rows ==>
      RowsAfter(rows, files, env)[id].code == env.code
      && RowsAfter(rows, files, env)[id].expiresAt == Some(env.now + RetentionMs)
    ensures KeyedById(rows) ==> KeyedById(RowsAfter(rows, files, env))
  {
    if files.Some? {
      var jobs := Jobs(files.value);
      var batch := Insertions(jobs, env, Returned(|jobs|, env));
      InsertAllKeepsRows(rows, batch);
      InsertAllNewRows(rows, batch, env.code, env.now + RetentionMs);
    }
  }

  /** With fresh ids, every file whose upload returned is recorded, even if
      a later upload threw and the reply was 500: its row holds the file's
      id, the request's code, its name, its URL, its asset id and the
      expiry. The metadata route serves it up to and including the expiry
      instant, and the verify route releases its URL exactly for the
      request's code. */
  lemma RecordRetrievable(rows: Rows, parts: UploadedParts, env: Env, i: nat, t: Timestamp, supplied: Option<string>)
    requires EnvCovers(Some(parts), env)
    requires i < Returned(|Jobs(parts)|, env)
    requires FreshIds(rows, env, Returned(|Jobs(parts)|, env))
    ensures var found := SelectById(true, BatchRows(rows, parts, env), env.ids[i]);
      && found == Found(Row(env.ids[i], env.code, Some(Jobs(parts)[i].file.originalName),
                            Some(env.uploads[i].secureUrl), Some(env.uploads[i].publicId),
                            Some(env.now + RetentionMs)))
      && (GetMetadata(found, t).FileInfo? <==> t <= env.now + RetentionMs)
      && (VerifyCode(found, supplied).Unlocked? <==> supplied == Some(env.code))
      && VerifyCode(found, Some(env.code)).url == Some(env.uploads[i].secureUrl)
  {
    var jobs := Jobs(parts);
    var batch := Insertions(jobs, env, Returned(|jobs|, env));
    InsertAllFresh(rows, batch);
    assert batch[i].id == env.ids[i];
  }

  /** An id that is already a key keeps its old row, yet the request still
      succeeds and hands out the link for that id. */
  lemma CollidingIdKeepsOldRow(rows: Rows, parts: UploadedParts, env: Env, i: nat)
    requires EnvCovers(Some(parts), env) && !IsNoFileUploaded(Some(parts))
    requires |Jobs(parts)| <= |env.uploads| && i < |Jobs(parts)|
    requires env.ids[i] in rows
    ensures env.ids[i] in BatchRows(rows, parts, env) && BatchRows(rows, parts, env)[env.ids[i]] == rows[env.ids[i]]
    ensures Reply(Some(parts), env).UploadSucceeded?
    ensures Reply(Some(parts), env).downloadLinks[i] == Link(env.baseUrl, env.ids[i])
  {
    var jobs := Jobs(parts);
    InsertAllKeepsRows(rows, Insertions(jobs, env, |jobs|));
  }

  /** The request deletes the temp files of the files it reached, up to and
      including the one whose upload threw, and leaves the rest on disk;
      it deletes nothing else. */
  lemma TempFilesAfter(parts: UploadedParts, env: Env, paths: set<string>)
    requires EnvCovers(Some(parts), env)
    requires StagedOnDisk(Jobs(parts), paths)
    ensures BatchTemp(paths, parts, env) <= paths
    ensures forall i :: 0 <= i < |Jobs(parts)| ==>
      (PathOf(parts, i) in BatchTemp(paths, parts, env) <==> Finished(|Jobs(parts)|, env) <= i)
    ensures forall p :: p in paths && (forall i :: 0 <= i < |Jobs(parts)| ==> p != PathOf(parts, i)) ==>
      p in BatchTemp(paths, parts, env)
  {
    var jobs := Jobs(parts);
    var m := Finished(|jobs|, env);
    forall p | p in paths && (forall i :: 0 <= i < |jobs| ==> p != PathOf(parts, i))
      ensures p in BatchTemp(paths, parts, env)
    {
      forall j | 0 <= j < m ensures jobs[j].file.path != p {
        assert jobs[j].file.path == PathOf(parts, j);
      }
    }
    forall i | 0 <= i < |jobs|
      ensures PathOf(parts, i) in BatchTemp(paths, parts, env) <==> m <= i
    {
      if m <= i {
        assert PathsOf(jobs, m) <= PathsOf(jobs, i) by {
          forall p | p in PathsOf(jobs, m) ensures p in PathsOf(jobs, i) {
            var j :| 0 <= j < m && jobs[j].file.path == p;
          }
        }
      } else {
        assert jobs[i].file.path in PathsOf(jobs, m);
      }
    }
  }
}
