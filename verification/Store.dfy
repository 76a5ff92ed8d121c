/**
 The content-addressed artifact store: a file appears under its own digest by one
 rename, after its content is complete, and is never written again.
 */
module Store {
  type Bytes = seq<bv8>

  type Digest = Bytes -> string

  /** Finished files by digest, and the `.part` files of interrupted writes. */
  type Files = map<string, Bytes>

  /** Every finished file hashes to its name. */
  ghost predicate Intact(sha: Digest, files: Files) {
    forall d <- files :: sha(files[d]) == d
  }

  function PutFile(sha: Digest, files: Files, data: Bytes): Files {
    if sha(data) in files then files else files[sha(data) := data]
  }

  /** Size of the file a put answers with: the existing one's if the digest is taken. */
  function PutSize(sha: Digest, files: Files, data: Bytes): nat {
    |PutFile(sha, files, data)[sha(data)]|
  }

  /** The file is there and still hashes to its name. */
  predicate Holds(sha: Digest, files: Files, digest: string) {
    digest in files && sha(files[digest]) == digest
  }

  /** No file changes or disappears. */
  ghost predicate Keeps(files: Files, later: Files) {
    forall d <- files :: d in later && later[d] == files[d]
  }

  class ArtifactStore {
    const sha: Digest
    var files: Files
    var parts: Files

    constructor (sha: Digest)
      ensures this.sha == sha && files == map[] && parts == map[] && Intact(sha, files)
    {
      this.sha := sha;
      files, parts := map[], map[];
    }

    /** `complete` false: the process dies with `written` of the data in the `.part` file. */
    method Put(data: Bytes, complete: bool, written: Bytes) returns (digest: string, size: nat)
      requires Intact(sha, files)
      modifies this
      ensures Intact(sha, files) && Keeps(old(files), files)
      ensures digest == sha(data)
      ensures complete ==> files == PutFile(sha, old(files), data) && size == |files[digest]|
      ensures complete ==> files[digest] == data || (files[digest] != data && sha(files[digest]) == sha(data))
      ensures !complete ==> files == old(files)
    {
      digest := sha(data);
      if digest in files {
        size := |files[digest]|;
        return;
      }
      size := |data|;
      if !complete {
        parts := parts[digest := written];
        return;
      }
      parts := parts[digest := data];
      files := files[digest := parts[digest]];
      parts := parts - {digest};
    }

    /** Of any files at all, lost or altered ones too. */
    method Verify(digest: string) returns (ok: bool)
      ensures ok <==> Holds(sha, files, digest)
      ensures Intact(sha, files) ==> (ok <==> digest in files)
    {
      if digest !in files {
        return false;
      }
      var recomputed := sha(files[digest]);
      ok := recomputed == digest;
    }
  }
}
