/** MD5 and S3 ETag.  `h` stands for the hash; nothing is assumed about it except a fixed width, and
    collision freedom only on the byte strings that a computation really hashes. */
module Digests {
  newtype byte = x: int | 0 <= x < 256
  type Bytes = seq<byte>
  type Hash = Bytes -> Bytes

  /** A digest as text: plain hex, or hex with the number of parts. */
  datatype Token = Hex(digest: Bytes) | HexParts(digest: Bytes, parts: nat) | OtherText(text: string)

  datatype DigestPair = DigestPair(md5: Token, s3Etag: Token)

  const S3_MAX_CHUNK_BYTES := 8 * 1024 * 1024

  function Min(a: nat, b: nat): nat { if a < b then a else b }

  /** The parts of a file, all but the last of the given size. */
  function Chunks(data: Bytes, size: nat): seq<Bytes>
    requires size > 0
    decreases |data|
  {
    if data == [] then [] else [data[..Min(size, |data|)]] + Chunks(data[Min(size, |data|)..], size)
  }

  function Digests(h: Hash, cs: seq<Bytes>): (ds: seq<Bytes>)
    ensures |ds| == |cs|
  {
    if cs == [] then [] else [h(cs[0])] + Digests(h, cs[1..])
  }

  function Concat(bs: seq<Bytes>): Bytes {
    if bs == [] then [] else bs[0] + Concat(bs[1..])
  }

  function PartsEtag(h: Hash, data: Bytes, size: nat): Token
    requires size > 0
  {
    HexParts(h(Concat(Digests(h, Chunks(data, size)))), |Chunks(data, size)|)
  }

  /** The two-pass definition of the ETag. */
  function Etag(h: Hash, data: Bytes, size: nat): Token
    requires size > 0
  {
    if |Chunks(data, size)| > 1 then PartsEtag(h, data, size) else Hex(h(data))
  }

  // ---------------------------------------------------------------- one pass

  lemma NextChunk(h: Hash, file: Bytes, pos: nat, size: nat)
    requires pos < |file| && size > 0
    ensures var next := Min(pos + size, |file|);
            Digests(h, Chunks(file[pos..], size)) == [h(file[pos..next])] + Digests(h, Chunks(file[next..], size))
  {
    var next := Min(pos + size, |file|);
    assert file[pos..][..next - pos] == file[pos..next] && file[pos..][next - pos..] == file[next..];
    assert Chunks(file[pos..], size) == [file[pos..next]] + Chunks(file[next..], size);
  }

  lemma Shift(a: seq<Bytes>, x: Bytes, b: seq<Bytes>)
    ensures a + ([x] + b) == (a + [x]) + b
  {
  }

  /** `calculate_md5_and_etag`: one pass over the file, reusing the running hash for the first chunk. */
  method CalculateMd5AndEtag(h: Hash, file: Bytes, chunkSize: nat) returns (r: DigestPair)
    requires chunkSize > 0
    ensures r.md5 == Hex(h(file))
    ensures r.s3Etag == Etag(h, file, chunkSize)
  {
    var pos := 0;
    var globalHash: Bytes := [];      // the bytes fed to the running hash
    var md5s: seq<Bytes> := [];
    var first := true;
    while pos < |file|
      invariant pos <= |file| && globalHash == file[..pos]
      invariant first <==> pos == 0
      invariant md5s + Digests(h, Chunks(file[pos..], chunkSize)) == Digests(h, Chunks(file, chunkSize))
    {
      var next := Min(pos + chunkSize, |file|);
      var data := file[pos..next];
      NextChunk(h, file, pos, chunkSize);
      Shift(md5s, h(data), Digests(h, Chunks(file[next..], chunkSize)));
      assert file[..next] == file[..pos] + data;
      globalHash := globalHash + data;
      if first {
        first := false;
        assert globalHash == data;
        md5s := md5s + [h(globalHash)];
      } else {
        md5s := md5s + [h(data)];
      }
      pos := next;
    }
    assert globalHash == file;
    assert md5s == Digests(h, Chunks(file, chunkSize));
    var joining := Concat(md5s);
    r := DigestPair(Hex(h(globalHash)), if |md5s| > 1 then HexParts(h(joining), |md5s|) else Hex(h(globalHash)));
  }

  /** The number in a multipart ETag is the length divided by the part size, rounded up. */
  lemma {:induction false} ChunkCount(data: Bytes, size: nat)
    requires size > 0 && data != []
    ensures size * (|Chunks(data, size)| - 1) < |data| <= size * |Chunks(data, size)|
    decreases |data|
  {
    if |data| > size {
      ChunkCount(data[size..], size);
      var n := |Chunks(data[size..], size)|;
      assert |Chunks(data, size)| == n + 1;
      Distribute(size, n);
    } else {
      assert data[|data|..] == [];
      assert |Chunks(data, size)| == 1;
    }
  }

  lemma Distribute(size: nat, n: nat)
    ensures size * (n + 1) == size * n + size && size * n == size * (n - 1) + size
  {
  }

  // ---------------------------------------------------------------- what an ETag is, by lengths and slices

  ghost predicate FixedWidth(h: Hash, width: nat) {
    width > 0 && forall x :: |h(x)| == width
  }

  /** Part `i` of a file. */
  function Part(file: Bytes, size: nat, i: nat): Bytes
    requires size > 0 && i * size <= |file|
  {
    if (i + 1) * size <= |file| then file[i * size..(i + 1) * size] else file[i * size..]
  }

  /** `d` consists of `n` digests of the given width, the i-th that of the i-th part. */
  ghost predicate PartDigests(h: Hash, width: nat, file: Bytes, size: nat, n: nat, d: Bytes)
    requires size > 0
  {
    && |d| == n * width
    && forall i {:trigger IsDigest(h, width, file, size, d, i)} :: 0 <= i < n ==> IsDigest(h, width, file, size, d, i)
  }

  ghost predicate IsDigest(h: Hash, width: nat, file: Bytes, size: nat, d: Bytes, i: nat)
    requires size > 0
  {
    && i * size < |file| && i * width <= (i + 1) * width <= |d|
    && d[i * width..(i + 1) * width] == h(Part(file, size, i))
  }

  lemma {:induction false} ConcatSlices(ds: seq<Bytes>, width: nat, i: nat)
    requires i < |ds| && forall k :: 0 <= k < |ds| ==> |ds[k]| == width
    ensures i * width <= (i + 1) * width <= |Concat(ds)| == |ds| * width
    ensures Concat(ds)[i * width..(i + 1) * width] == ds[i]
    decreases i
  {
    ConcatLength(ds, width);
    ConcatLength(ds[1..], width);
    MulMonotone(i + 1, |ds|, width);
    Distribute(width, i);
    if i > 0 {
      ConcatSlices(ds[1..], width, i - 1);
      var rest := Concat(ds[1..]);
      assert Concat(ds) == ds[0] + rest;
      assert Concat(ds)[i * width..(i + 1) * width] == rest[(i - 1) * width..i * width];
    }
  }

  lemma {:induction false} ConcatLength(ds: seq<Bytes>, width: nat)
    requires forall k :: 0 <= k < |ds| ==> |ds[k]| == width
    ensures |Concat(ds)| == |ds| * width
  {
    if ds != [] {
      ConcatLength(ds[1..], width);
      Distribute(width, |ds| - 1);
    }
  }

  lemma MulMonotone(a: nat, b: nat, c: nat)
    requires a <= b
    ensures a * c <= b * c
  {
  }

  lemma PartOfRest(file: Bytes, size: nat, i: nat)
    requires 0 < size <= |file| && i > 0 && (i - 1) * size < |file| - size
    ensures i * size < |file| && Part(file, size, i) == Part(file[size..], size, i - 1)
  {
    var start := (i - 1) * size;
    Distribute(size, i - 1);
    Distribute(size, i);
    assert i * size == start + size && (i + 1) * size == start + 2 * size;
    if start + 2 * size <= |file| {
      assert file[start + size..start + 2 * size] == file[size..][start..start + size];
    } else {
      assert file[start + size..] == file[size..][start..];
    }
  }

  lemma {:induction false} ChunkIsPart(file: Bytes, size: nat, i: nat)
    requires size > 0 && i < |Chunks(file, size)|
    ensures i * size < |file| && Chunks(file, size)[i] == Part(file, size, i)
    decreases i
  {
    if i > 0 {
      assert |file| > size;
      ChunkIsPart(file[size..], size, i - 1);
      PartOfRest(file, size, i);
    } else {
      assert 0 * size == 0 && 1 * size == size;
    }
  }

  /** The ETag of a multipart object: the digest of the digests of its parts, and how many there are. */
  lemma PartsEtagMeaning(h: Hash, width: nat, file: Bytes, size: nat) returns (d: Bytes, n: nat)
    requires size > 0 && FixedWidth(h, width) && file != []
    ensures PartsEtag(h, file, size) == HexParts(h(d), n) && PartDigests(h, width, file, size, n, d)
    ensures size * (n - 1) < |file| <= size * n
  {
    var cs := Chunks(file, size);
    d, n := Concat(Digests(h, cs)), |cs|;
    ChunkCount(file, size);
    DigestsWidth(h, cs, width);
    ConcatLength(Digests(h, cs), width);
    forall i | 0 <= i < n ensures IsDigest(h, width, file, size, d, i) {
      ChunkIsPart(file, size, i);
      ConcatSlices(Digests(h, cs), width, i);
    }
  }

  /** The ETag computed for a file: its hash if it fits into one part, otherwise the digest of the digests of its
      parts with their number. */
  lemma EtagMeaning(h: Hash, width: nat, file: Bytes, size: nat) returns (d: Bytes, n: nat)
    requires size > 0 && FixedWidth(h, width)
    ensures |file| <= size ==> Etag(h, file, size) == Hex(h(file))
    ensures |file| > size ==>
              && Etag(h, file, size) == HexParts(h(d), n) && PartDigests(h, width, file, size, n, d)
              && size * (n - 1) < |file| <= size * n
  {
    if file == [] {
      d, n := [], 0;
    } else {
      d, n := PartsEtagMeaning(h, width, file, size);
      ChunkCount(file, size);
      OnePart(|file|, size, |Chunks(file, size)|);
    }
  }

  lemma OnePart(length: nat, size: nat, n: nat)
    requires length > 0 && size > 0 && size * (n - 1) < length <= size * n
    ensures length <= size <==> n == 1
  {
    if n >= 2 { MulMonotone(1, n - 1, size); }
  }

  // ---------------------------------------------------------------- equal ETags, equal bytes

  ghost predicate CollisionFree(h: Hash, inputs: set<Bytes>) {
    forall x, y :: x in inputs && y in inputs && h(x) == h(y) ==> x == y
  }

  /** The byte strings hashed for an ETag with the given part size. */
  ghost function Hashed(h: Hash, data: Bytes, size: nat): set<Bytes>
    requires size > 0
  {
    var cs := Chunks(data, size);
    (set i | 0 <= i < |cs| :: cs[i]) + {data, Concat(Digests(h, cs))}
  }

  lemma {:induction false} ConcatChunks(data: Bytes, size: nat)
    requires size > 0
    ensures Concat(Chunks(data, size)) == data
    decreases |data|
  {
    if data != [] { ConcatChunks(data[Min(size, |data|)..], size); }
  }

  lemma {:induction false} ConcatInjective(ds: seq<Bytes>, es: seq<Bytes>, width: nat)
    requires width > 0 && (forall i :: 0 <= i < |ds| ==> |ds[i]| == width)
    requires (forall i :: 0 <= i < |es| ==> |es[i]| == width)
    requires |ds| == |es| && Concat(ds) == Concat(es)
    ensures ds == es
  {
    if ds != [] {
      assert Concat(ds)[..width] == ds[0] && Concat(es)[..width] == es[0];
      assert Concat(ds)[width..] == Concat(ds[1..]) && Concat(es)[width..] == Concat(es[1..]);
      ConcatInjective(ds[1..], es[1..], width);
    }
  }

  lemma {:induction false} DigestsWidth(h: Hash, cs: seq<Bytes>, width: nat)
    requires FixedWidth(h, width)
    ensures forall i :: 0 <= i < |cs| ==> Digests(h, cs)[i] == h(cs[i]) && |Digests(h, cs)[i]| == width
  {
    if cs != [] { DigestsWidth(h, cs[1..], width); }
  }

  /** Multipart ETags with any two part sizes determine the content. */
  lemma PartsEtagInjective(h: Hash, width: nat, a: Bytes, m: nat, b: Bytes, n: nat)
    requires m > 0 && n > 0 && FixedWidth(h, width)
    requires CollisionFree(h, Hashed(h, a, m) + Hashed(h, b, n))
    requires PartsEtag(h, a, m) == PartsEtag(h, b, n)
    ensures a == b
  {
    var cs, es := Chunks(a, m), Chunks(b, n);
    DigestsWidth(h, cs, width);
    DigestsWidth(h, es, width);
    assert Concat(Digests(h, cs)) == Concat(Digests(h, es));
    ConcatInjective(Digests(h, cs), Digests(h, es), width);
    forall i | 0 <= i < |cs| ensures cs[i] == es[i] {
      assert Digests(h, cs)[i] == Digests(h, es)[i];
      assert cs[i] in Hashed(h, a, m) && es[i] in Hashed(h, b, n);
    }
    assert cs == es;
    ConcatChunks(a, m);
    ConcatChunks(b, n);
  }
}
