/**
 What the format adapters share: a blob store and an artifact table that must
 agree. Each adapter request puts blobs and then upserts rows, as separate steps.
 */
module Registry {
  import opened Storage
  import opened Cas
  import opened Artifacts

  const OCTETS: string := "application/octet-stream"

  function MediaOr(mediaType: string, fallback: string): string {
    if mediaType == "" then fallback else mediaType
  }

  datatype World = World(objects: Objects, rows: Rows)

  /** A new row's id and creation time. */
  datatype Stamp = Stamp(id: string, now: int)

  ghost predicate RowsHaveBlobs(w: World) {
    forall k :: k in w.rows ==> HasBlob(w.objects, w.rows[k].digest)
  }

  ghost predicate Sound(w: World) {
    Intact(w.objects) && RowsHaveBlobs(w) && ValidRows(w.rows)
  }

  function PutBlob(w: World, body: Bytes, nonce: string, f: PutFaults): (World, Result<Receipt>) {
    var (objects, r) := PutSteps(w.objects, body, nonce, f);
    (w.(objects := objects), r)
  }

  function PutRow(w: World, ok: bool, stamp: Stamp, repoId: string, path: string,
                  digest: string, size: nat, mediaType: string): World
  {
    if ok then w.(rows := Upsert(w.rows, stamp.id, stamp.now, repoId, path, digest, size, mediaType, "")) else w
  }

  /** What fails of one GET: queries of the lookup, the second lookup after a fetch, the blob's read. */
  datatype ReadFaults = ReadFaults(lookup: Outage, again: bool, blob: bool)

  function DropRow(w: World, ok: bool, repoId: string, path: string): World {
    if ok then w.(rows := w.rows - {(repoId, path)}) else w
  }

  lemma PutBlobSound(w: World, body: Bytes, nonce: string, f: PutFaults)
    requires Sound(w)
    ensures var (w', r) := PutBlob(w, body, nonce, f);
            && Sound(w') && w'.rows == w.rows
            && (r.Ok? ==> r.value == Receipt(DigestOf(body), |body|) && HasBlob(w'.objects, DigestOf(body)))
            && (forall d :: HasBlob(w.objects, d) ==> HasBlob(w'.objects, d))
  {
    PutKeepsBlobs(w.objects, body, nonce, f);
  }

  /** What an upsert leaves: the one row named, with its new digest and size, and all others as they were. */
  lemma UpsertLooksUp(rows: Rows, stamp: Stamp, repoId: string, path: string,
                      digest: string, size: nat, mediaType: string)
    requires ValidRows(rows)
    ensures var rows' := Upsert(rows, stamp.id, stamp.now, repoId, path, digest, size, mediaType, "");
            && ValidRows(rows')
            && rows'.Keys == rows.Keys + {(repoId, path)}
            && rows'[(repoId, path)].digest == digest && rows'[(repoId, path)].size == size
            && (forall k :: k in rows && k != (repoId, path) ==> rows'[k] == rows[k])
  {
  }

  /** A row that is overwritten keeps its id and creation time and takes everything else from the new one. */
  lemma UpsertKeepsIdentity(rows: Rows, id: string, now: int, repoId: string, path: string,
                            digest: string, size: nat, mediaType: string, metadata: string)
    ensures var k := (repoId, path);
            var rows' := Upsert(rows, id, now, repoId, path, digest, size, mediaType, metadata);
            && k in rows' && rows'.Keys == rows.Keys + {k}
            && (rows'[k].id, rows'[k].createdAt) == (if k in rows then (rows[k].id, rows[k].createdAt) else (id, now))
            && (rows'[k].digest, rows'[k].size, rows'[k].mediaType) == (digest, size, mediaType)
            && rows'[k].metadata == (if metadata == "" then "{}" else metadata)
            && forall q :: q in rows && q != k ==> rows'[q] == rows[q]
  {
  }

  /** Writing a row keeps the two stores in agreement exactly when its blob is there. */
  lemma PutRowSoundIff(w: World, ok: bool, stamp: Stamp, repoId: string, path: string,
                       digest: string, size: nat, mediaType: string)
    requires Sound(w)
    ensures var w' := PutRow(w, ok, stamp, repoId, path, digest, size, mediaType);
            && w'.objects == w.objects
            && (Sound(w') <==> !ok || HasBlob(w.objects, digest))
            && (ok ==> LookUp(w'.rows, repoId, path).Some? && LookUp(w'.rows, repoId, path).value.digest == digest
                       && LookUp(w'.rows, repoId, path).value.size == size)
            && (forall r, p :: (r, p) != (repoId, path) ==> LookUp(w'.rows, r, p) == LookUp(w.rows, r, p))
  {
    UpsertLooksUp(w.rows, stamp, repoId, path, digest, size, mediaType);
    if ok { RowAddedSoundIff(w, PutRow(w, ok, stamp, repoId, path, digest, size, mediaType), (repoId, path)); }
  }

  lemma RowAddedSoundIff(w: World, w': World, key: (string, string))
    requires Sound(w) && w'.objects == w.objects && ValidRows(w'.rows)
    requires w'.rows.Keys == w.rows.Keys + {key}
    requires forall k :: k in w.rows && k != key ==> w'.rows[k] == w.rows[k]
    ensures Sound(w') <==> HasBlob(w.objects, w'.rows[key].digest)
  {
    if HasBlob(w.objects, w'.rows[key].digest) {
      forall k | k in w'.rows ensures HasBlob(w'.objects, w'.rows[k].digest) {
        if k != key { assert k in w.rows; }
      }
    } else {
      assert key in w'.rows;
    }
  }
}
