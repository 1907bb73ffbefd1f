/** Content addressing as internal/storage/storage.go does it. SHA-256 is a parameter: all the
    proofs use is that digests are 64 characters long and that two byte strings with the same
    digest are equal. */
module ContentAddress {
  import opened Common

  type Digest = Bytes -> string

  type Blobs = map<string, Bytes>

  ghost predicate CollisionFree(digest: Digest) {
    && (forall b: Bytes :: |digest(b)| == 64)
    && (forall b: Bytes, c: Bytes :: digest(b) == digest(c) ==> b == c)
  }

  // hex[:2] + "/" + hex[2:]
  function StorageKey(hex: string): string {
    if |hex| < 2 then hex else hex[..2] + "/" + hex[2..]
  }

  /** The key is the digest with a slash after its second character, as Put returns it. */
  lemma KeySpellsDigest(hex: string)
    requires |hex| == 64
    ensures var key := StorageKey(hex);
            |key| == 65 && key[2] == '/' && key[..2] == hex[..2] && key[3..] == hex[2..] && key[..2] + key[3..] == hex
  {
    var key := StorageKey(hex);
    assert hex == hex[..2] + hex[2..];
    assert key[3..] == hex[2..];
  }

  lemma StorageKeyInjective(x: string, y: string)
    requires |x| == |y| == 64 && StorageKey(x) == StorageKey(y)
    ensures x == y
  {
    var kx, ky := StorageKey(x), StorageKey(y);
    assert x == kx[..2] + kx[3..];
    assert y == ky[..2] + ky[3..];
  }

  /** Every visible file is complete: its name is the digest of its bytes. */
  ghost predicate Addressed(digest: Digest, blobs: Blobs) {
    forall k | k in blobs :: k == StorageKey(digest(blobs[k]))
  }

  // What a finished Put leaves behind: an existing file is kept, the duplicate is discarded.
  function PutBlob(digest: Digest, blobs: Blobs, data: Bytes): Blobs {
    var key := StorageKey(digest(data));
    if key in blobs then blobs else blobs[key := data]
  }

  /** Deduplication is invisible: whatever was there under the key, the bytes are the ones put. */
  lemma PutBlobHolds(digest: Digest, blobs: Blobs, data: Bytes)
    requires CollisionFree(digest) && Addressed(digest, blobs)
    ensures Addressed(digest, PutBlob(digest, blobs, data))
    ensures PutBlob(digest, blobs, data) == blobs[StorageKey(digest(data)) := data]
  {
    var key := StorageKey(digest(data));
    if key in blobs {
      StorageKeyInjective(digest(blobs[key]), digest(data));
      assert blobs[key] == data;
      assert blobs[key := data] == blobs;
    }
  }
}
