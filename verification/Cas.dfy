/**
 Content-addressed storage over a backend. SHA-256 is an uninterpreted function
 from bytes to 64 lower-case hex digits: nothing below assumes that it has no
 collisions unless a lemma says so.
 */
module Cas {
  import opened Text
  import opened Storage

  predicate IsLowerHex(c: char) {
    '0' <= c <= '9' || 'a' <= c <= 'f'
  }

  predicate IsHex(c: char) {
    IsLowerHex(c) || 'A' <= c <= 'F'
  }

  predicate LowerHex(s: string, n: nat) {
    |s| == n && forall i :: 0 <= i < |s| ==> IsLowerHex(s[i])
  }

  const ZEROS: string := seq(64, _ => '0')

  type Hasher = f: Bytes -> string | forall b: Bytes :: LowerHex(f(b), 64)
    witness (b: Bytes) => ZEROS

  const Sha256Hex: Hasher

  const ALGORITHM: string := "sha256:"

  function DigestOf(body: Bytes): string {
    ALGORITHM + Sha256Hex(body)
  }

  predicate ValidDigest(d: string) {
    && HasPrefix(d, ALGORITHM)
    && |d[7..]| == 64
    && forall i :: 7 <= i < |d| ==> IsHex(d[i])
  }

  function KeyFor(digest: string): string {
    var i := Index(digest, ":");
    if i >= 0 && |digest[i + 1..]| >= 2 then
      "blobs/" + digest[..i] + "/" + digest[i + 1..][..2] + "/" + digest[i + 1..]
    else
      "blobs/unknown/" + digest
  }

  const STAGING: string := "blobs/_uploads/"

  function TempKey(nonce: string): string {
    STAGING + nonce
  }

  /** Every blob that can be asked for by digest has the content its key promises. */
  ghost predicate Intact(objects: Objects) {
    forall d :: ValidDigest(d) && KeyFor(d) in objects ==> DigestOf(objects[KeyFor(d)]) == d
  }

  /** What `CAS.Get` needs in order to succeed. */
  predicate HasBlob(objects: Objects, d: string) {
    ValidDigest(d) && KeyFor(d) in objects
  }

  lemma DigestIsValid(body: Bytes)
    ensures ValidDigest(DigestOf(body))
  {
    var d := DigestOf(body);
    assert d[7..] == Sha256Hex(body);
    forall i | 7 <= i < |d| ensures IsHex(d[i]) { assert d[i] == Sha256Hex(body)[i - 7]; }
  }

  lemma KeyShape(d: string)
    requires ValidDigest(d)
    ensures KeyFor(d) == "blobs/sha256/" + d[7..9] + "/" + d[7..]
  {
    assert d[..7] == ALGORITHM;
    assert forall j :: 0 <= j < 6 ==> d[j] == ALGORITHM[j];
    assert d[6] == ALGORITHM[6];
    assert OccursAt(d, ":", 6);
    assert forall j :: OccursAt(d, ":", j) ==> d[j] == ':';
    assert Index(d, ":") == 6;
    assert d[..6] == ALGORITHM[..6] == "sha256";
    assert d[7..][..2] == d[7..9];
  }

  lemma DropRoot(d: string, key: string)
    requires |d| == 71
    requires key == "blobs/sha256/" + d[7..9] + "/" + d[7..]
    ensures |key| == 80 && key[16..] == d[7..]
  {
  }

  /** The digest's digits can be read back from its key. */
  lemma KeyEndsInDigits(d: string)
    requires ValidDigest(d)
    ensures |KeyFor(d)| == 80 && KeyFor(d)[16..] == d[7..]
  {
    KeyShape(d);
    DropRoot(d, KeyFor(d));
  }

  /** Different digests have different keys. */
  lemma KeyForInjective(d: string, e: string)
    requires ValidDigest(d) && ValidDigest(e)
    requires KeyFor(d) == KeyFor(e)
    ensures d == e
  {
    KeyEndsInDigits(d);
    KeyEndsInDigits(e);
    assert d == d[..7] + d[7..] && e == e[..7] + e[7..];
  }

  /** Deleting one blob leaves exactly the others. */
  lemma BlobDropped(objects: Objects, d: string)
    requires Intact(objects) && ValidDigest(d)
    ensures Intact(objects - {KeyFor(d)})
    ensures forall e :: HasBlob(objects - {KeyFor(d)}, e) <==> HasBlob(objects, e) && e != d
  {
    forall e | ValidDigest(e) && KeyFor(e) == KeyFor(d) ensures e == d { KeyForInjective(e, d); }
  }

  /** Staging keys are never blob keys. */
  lemma StagingIsNotABlob(d: string, nonce: string)
    requires ValidDigest(d)
    ensures KeyFor(d) != TempKey(nonce)
  {
    KeyShape(d);
    assert KeyFor(d)[6] == 's';
    assert TempKey(nonce)[6] == '_';
  }

  lemma DotsNeedADot(key: string)
    requires Contains(key, "..")
    ensures '.' in key
  {
    var i := Index(key, "..");
    assert key[i] == key[i..i + 2][0];
  }

  lemma NoDotsResolvable(key: string)
    requires key != "" && '.' !in key
    ensures Resolvable(key)
  {
    if Contains(key, "..") { DotsNeedADot(key); }
  }

  lemma BlobKeyResolvable(d: string)
    requires ValidDigest(d)
    ensures Resolvable(KeyFor(d))
  {
    KeyShape(d);
    assert '.' !in d[7..] && '.' !in d[7..9];
    NoDotsResolvable(KeyFor(d));
  }

  lemma TempKeyResolvable(nonce: string)
    requires LowerHex(nonce, 32)
    ensures Resolvable(TempKey(nonce))
  {
    NoDotsResolvable(TempKey(nonce));
  }

  /** Which backend calls of one `CAS.Put` fail. */
  datatype PutFaults = PutFaults(temp: bool, stat: bool, open: bool, final: bool, drop: bool)

  const NO_FAULTS: PutFaults := PutFaults(false, false, false, false, false)

  datatype Receipt = Receipt(digest: string, size: nat)

  function DropTemp(objects: Objects, nonce: string, fails: bool): Objects {
    if fails then objects else objects - {TempKey(nonce)}
  }

  /** The backend after `CAS.Put`, and what it returns. */
  function PutSteps(objects: Objects, body: Bytes, nonce: string, f: PutFaults): (Objects, Result<Receipt>) {
    if f.temp then (objects, Err(IoFailure)) else
    var staged := objects[TempKey(nonce) := body];
    var d := DigestOf(body);
    if KeyFor(d) in staged && !f.stat then
      (DropTemp(staged, nonce, f.drop), Ok(Receipt(d, |body|)))
    else if f.open || f.final then (staged, Err(IoFailure))
    else
      (DropTemp(staged[KeyFor(d) := staged[TempKey(nonce)]], nonce, f.drop), Ok(Receipt(d, |body|)))
  }

  class CAS {
    const b: Backend

    constructor (b: Backend)
      ensures this.b == b
    {
      this.b := b;
    }

    method Put(body: Bytes, nonce: string, f: PutFaults) returns (r: Result<Receipt>)
      requires b.Valid() && LowerHex(nonce, 32)
      modifies b
      ensures b.Valid()
      ensures (b.objects, r) == PutSteps(old(b.objects), body, nonce, f)
    {
      TempKeyResolvable(nonce);
      DigestIsValid(body);
      BlobKeyResolvable(DigestOf(body));
      var tempKey := TempKey(nonce);
      var n := b.Put(tempKey, body, f.temp);
      if n.Err? { return Err(IoFailure); }
      var digest := DigestOf(body);
      var finalKey := KeyFor(digest);
      var st := b.Stat(finalKey, f.stat);
      if st.Ok? {
        var _ := b.Delete(tempKey, f.drop);
        return Ok(Receipt(digest, n.value));
      }
      var reader := b.Get(tempKey, f.open);
      if reader.Err? { return Err(IoFailure); }
      var written := b.Put(finalKey, reader.value, f.final);
      if written.Err? { return Err(IoFailure); }
      var _ := b.Delete(tempKey, f.drop);
      r := Ok(Receipt(digest, n.value));
    }

    method Get(digest: string, fails: bool) returns (r: Result<Bytes>)
      requires b.Valid()
      ensures r.Ok? <==> HasBlob(b.objects, digest) && !fails
      ensures r.Ok? ==> r.value == b.objects[KeyFor(digest)]
      ensures !ValidDigest(digest) ==> r == Err(InvalidDigest)
      ensures ValidDigest(digest) && r.Err? ==> r == Err(if fails then IoFailure else NotFound)
    {
      if !ValidDigest(digest) { return Err(InvalidDigest); }
      BlobKeyResolvable(digest);
      r := b.Get(KeyFor(digest), fails);
    }

    method Delete(digest: string, fails: bool) returns (r: Result<()>)
      requires b.Valid()
      modifies b
      ensures b.Valid()
      ensures r.Ok? <==> ValidDigest(digest) && !fails
      ensures b.objects == if r.Ok? then old(b.objects) - {KeyFor(digest)} else old(b.objects)
    {
      if !ValidDigest(digest) { return Err(InvalidDigest); }
      BlobKeyResolvable(digest);
      r := b.Delete(KeyFor(digest), fails);
    }
  }

  /**
   Whatever fails, `Put` leaves every other blob alone and keeps the store intact;
   when it succeeds its receipt is the hash and length of the body and the blob can
   be fetched by it; when it fails no blob changed.
   */
  lemma PutKeepsBlobs(objects: Objects, body: Bytes, nonce: string, f: PutFaults)
    requires Intact(objects)
    ensures var (after, r) := PutSteps(objects, body, nonce, f);
            && Intact(after)
            && (r.Ok? ==> r.value == Receipt(DigestOf(body), |body|) && HasBlob(after, DigestOf(body)))
            && (forall d :: ValidDigest(d) && !(r.Ok? && d == DigestOf(body)) ==>
                  (KeyFor(d) in after <==> KeyFor(d) in objects) &&
                  (KeyFor(d) in objects ==> after[KeyFor(d)] == objects[KeyFor(d)]))
            && (forall d :: HasBlob(objects, d) ==> HasBlob(after, d))
  {
    DigestIsValid(body);
    forall d | ValidDigest(d) ensures KeyFor(d) != TempKey(nonce) { StagingIsNotABlob(d, nonce); }
    forall d | ValidDigest(d) && KeyFor(d) == KeyFor(DigestOf(body)) ensures d == DigestOf(body) {
      KeyForInjective(d, DigestOf(body));
    }
  }

  /** The bytes could be staged, and were there already and seen to be, or could be copied to their key. */
  predicate CanStore(objects: Objects, body: Bytes, f: PutFaults) {
    !f.temp && ((HasBlob(objects, DigestOf(body)) && !f.stat) || (!f.open && !f.final))
  }

  /** When `Put` succeeds: of the five calls, the last does not matter and the second only decides about the copy. */
  lemma PutSucceedsIff(objects: Objects, body: Bytes, nonce: string, f: PutFaults)
    ensures PutSteps(objects, body, nonce, f).1.Ok? <==> CanStore(objects, body, f)
  {
    DigestIsValid(body);
    StagingIsNotABlob(DigestOf(body), nonce);
  }

  /** A successful `Put` that met no fault, from an unused staging key: the backend gains the blob and nothing else. */
  lemma CleanPutAddsOnlyTheBlob(objects: Objects, body: Bytes, nonce: string)
    requires TempKey(nonce) !in objects
    ensures var d := DigestOf(body);
            PutSteps(objects, body, nonce, NO_FAULTS) ==
            (if KeyFor(d) in objects then objects else objects[KeyFor(d) := body], Ok(Receipt(d, |body|)))
  {
    DigestIsValid(body);
    StagingIsNotABlob(DigestOf(body), nonce);
    var d := DigestOf(body);
    if KeyFor(d) in objects {
      assert objects[TempKey(nonce) := body] - {TempKey(nonce)} == objects;
    } else {
      assert objects[TempKey(nonce) := body][KeyFor(d) := body] - {TempKey(nonce)} == objects[KeyFor(d) := body];
    }
  }

  /** No two byte strings of `u` share a hash. */
  ghost predicate CollisionFree(u: iset<Bytes>) {
    forall x, y :: x in u && y in u && DigestOf(x) == DigestOf(y) ==> x == y
  }

  /** The blobs of the store and the bodies of interest are among byte strings without collisions. */
  ghost predicate BlobsWithin(objects: Objects, u: iset<Bytes>) {
    forall d :: HasBlob(objects, d) ==> objects[KeyFor(d)] in u
  }

  /** Barring collisions, a successful `Put` makes exactly the given bytes available under the returned digest. */
  lemma PutStoresTheBytes(objects: Objects, body: Bytes, nonce: string, f: PutFaults, u: iset<Bytes>)
    requires Intact(objects) && CollisionFree(u) && BlobsWithin(objects, u) && body in u
    ensures var (after, r) := PutSteps(objects, body, nonce, f);
            && BlobsWithin(after, u)
            && (r.Ok? ==> HasBlob(after, DigestOf(body)) && after[KeyFor(DigestOf(body))] == body)
            && (forall d :: HasBlob(objects, d) ==> HasBlob(after, d) && after[KeyFor(d)] == objects[KeyFor(d)])
  {
    PutKeepsBlobs(objects, body, nonce, f);
    DigestIsValid(body);
    StagingIsNotABlob(DigestOf(body), nonce);
  }
}
