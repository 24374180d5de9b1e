/** The streaming chunk hasher, and why streaming computes the batch manifest. */
module ChunkHasher {
  import opened Base
  import ServerCatalog

  const DEFAULT_CHUNK := 4 * 1024 * 1024

  datatype ChunkInfo = ChunkInfo(index: nat, offset: nat, size: nat, hash: Hash)

  // ---- Arithmetic of chunk boundaries ----

  lemma MulMono(a: int, b: int, c: nat)
    requires a <= b
    ensures a * c <= b * c
  {
    assert (b - a) * c >= 0;
    assert (b - a) * c == b * c - a * c;
  }

  lemma DivModIs(n: int, c: int, q: int, r: int)
    requires c > 0 && 0 <= r < c && n == q * c + r
    ensures n / c == q && n % c == r
  {
    var d := n / c - q;
    assert n == (n / c) * c + n % c;
    assert d * c == r - n % c by {
      assert (n / c - q) * c == (n / c) * c - q * c;
    }
    if d >= 1 { MulMono(1, d, c); }
    if d <= -1 { MulMono(d, -1, c); }
  }

  // ---- The batch manifest ----

  function Count(n: nat, c: nat): nat
    requires c > 0
  {
    (n + c - 1) / c
  }

  lemma CountBounds(n: nat, c: nat, i: nat)
    requires c > 0
    ensures i < Count(n, c) <==> i * c < n
  {
    var k := Count(n, c);
    var r := (n + c - 1) % c;
    assert n + c - 1 == k * c + r;
    if i < k {
      MulMono(i + 1, k, c);
      assert (i + 1) * c == i * c + c;
    } else {
      MulMono(k, i, c);
    }
  }

  /** The bytes of chunk i. */
  function Slice(data: Bytes, c: nat, i: nat): Bytes
    requires c > 0 && i * c <= |data|
  {
    if i * c + c <= |data| then data[i * c..i * c + c] else data[i * c..]
  }

  function Piece(data: Bytes, c: nat, i: nat): ChunkInfo
    requires c > 0 && i * c <= |data|
  {
    ChunkInfo(i, i * c, |Slice(data, c, i)|, Sha(Slice(data, c, i)))
  }

  /** What hashing the whole input at once would produce. */
  ghost predicate IsManifest(chunks: seq<ChunkInfo>, data: Bytes, c: nat)
    requires c > 0
  {
    && |chunks| == Count(|data|, c)
    && forall i :: 0 <= i < |chunks| ==> i * c <= |data| && chunks[i] == Piece(data, c, i)
  }

  /** There is only one manifest. */
  lemma ManifestUnique(a: seq<ChunkInfo>, b: seq<ChunkInfo>, data: Bytes, c: nat)
    requires c > 0 && IsManifest(a, data, c) && IsManifest(b, data, c)
    ensures a == b
  {
  }

  function Sizes(chunks: seq<ChunkInfo>): nat {
    if chunks == [] then 0 else Sizes(chunks[..|chunks| - 1]) + chunks[|chunks| - 1].size
  }

  lemma PieceBounds(data: Bytes, c: nat, i: nat)
    requires c > 0 && i < Count(|data|, c)
    ensures i * c < |data| && (i + 1) * c == i * c + c
    ensures i + 1 < Count(|data|, c) <==> (i + 1) * c < |data|
  {
    CountBounds(|data|, c, i);
    CountBounds(|data|, c, i + 1);
    assert (i + 1) * c == i * c + c;
  }

  /** The chunks tile the input: each starts where the one before ends, and none is empty. */
  lemma ManifestTiles(chunks: seq<ChunkInfo>, data: Bytes, c: nat, i: nat)
    requires c > 0 && IsManifest(chunks, data, c) && i < |chunks|
    ensures chunks[i].index == i && chunks[0].offset == 0 && 0 < chunks[i].size <= c
    ensures chunks[i].offset + chunks[i].size == if i + 1 < |chunks| then chunks[i + 1].offset else |data|
    ensures chunks[i].offset + chunks[i].size <= |data|
    ensures chunks[i].hash == Sha(data[chunks[i].offset..chunks[i].offset + chunks[i].size])
  {
    PieceBounds(data, c, i);
    assert chunks[i] == Piece(data, c, i);
    assert Slice(data, c, i) == data[i * c..i * c + |Slice(data, c, i)|];
  }

  /** Together they are as long as the input. */
  lemma {:induction false} ManifestCovers(chunks: seq<ChunkInfo>, data: Bytes, c: nat, k: nat)
    requires c > 0 && IsManifest(chunks, data, c) && k <= |chunks|
    ensures Sizes(chunks[..k]) == if k < |chunks| then chunks[k].offset else |data|
    decreases k
  {
    if k == 0 {
      FirstOffset(chunks, data, c);
    } else {
      ManifestCovers(chunks, data, c, k - 1);
      ManifestTiles(chunks, data, c, k - 1);
      SizesStep(chunks, k);
    }
  }

  lemma SizesStep(chunks: seq<ChunkInfo>, k: nat)
    requires 0 < k <= |chunks|
    ensures Sizes(chunks[..k]) == Sizes(chunks[..k - 1]) + chunks[k - 1].size
  {
    assert chunks[..k][..k - 1] == chunks[..k - 1];
  }

  lemma FirstOffset(chunks: seq<ChunkInfo>, data: Bytes, c: nat)
    requires c > 0 && IsManifest(chunks, data, c)
    ensures 0 == if 0 < |chunks| then chunks[0].offset else |data|
  {
    CountBounds(|data|, c, 0);
    if chunks != [] {
      ManifestTiles(chunks, data, c, 0);
    }
  }

  /** The manifest has as many chunks as the server records, exactly when the file is not empty. */
  lemma CountMatchesServer(chunks: seq<ChunkInfo>, data: Bytes)
    requires IsManifest(chunks, data, DEFAULT_CHUNK)
    ensures |chunks| == ServerCatalog.ChunkCount(|data|) <==> |data| > 0
  {
  }

  // ---- The streaming hasher ----

  /** Where a hasher stands after absorbing `written`. */
  ghost predicate Absorbed(chunks: seq<ChunkInfo>, current: Bytes, offset: nat, index: nat, written: Bytes, c: nat) {
    && c > 0 && offset == |written| && index == |chunks|
    && |current| < c && offset == index * c + |current|
    && current == written[index * c..]
    && Finished(chunks, written, c)
  }

  class Hasher {
    const chunkSize: nat
    var chunks: seq<ChunkInfo>
    var current: Bytes    // what the running SHA-256 has absorbed
    var offset: nat
    var index: nat
    ghost var written: Bytes

    ghost predicate Valid()
      reads this
    {
      Absorbed(chunks, current, offset, index, written, chunkSize)
    }

    constructor (size: int)
      ensures Valid() && written == [] && chunkSize == if size <= 0 then DEFAULT_CHUNK else size
    {
      chunkSize := if size <= 0 then DEFAULT_CHUNK else size;
      chunks, current, offset, index, written := [], [], 0, 0, [];
    }

    method FinishChunk()
      modifies this
      ensures chunks == old(chunks) + [ChunkInfo(old(index), old(index) * chunkSize, |old(current)|, Sha(old(current)))]
      ensures index == old(index) + 1 && current == [] && offset == old(offset) && written == old(written)
    {
      var hash := Sha(current);
      chunks := chunks + [ChunkInfo(index, index * chunkSize, |current|, hash)];
      index := index + 1;
      current := [];
    }

    /** Absorbs up to the end of the current chunk, and closes the chunk when it is full. */
    method Absorb(p: Bytes) returns (n: nat)
      requires Valid() && p != []
      modifies this
      ensures Valid() && 0 < n <= |p| && written == old(written) + p[..n]
    {
      DivModIs(offset, chunkSize, index, |current|);
      var remaining := chunkSize - (offset % chunkSize);
      n := |p|;
      if n > remaining {
        n := remaining;
      }
      current := current + p[..n];
      offset := offset + n;
      written := written + p[..n];
      AbsorbStep(chunks, old(current), old(offset), index, old(written), chunkSize, p[..n]);
      if offset % chunkSize == 0 {
        FinishChunk();
      }
    }

    method Write(p: Bytes) returns (n: nat)
      requires Valid()
      modifies this
      ensures Valid() && n == |p| && written == old(written) + p
    {
      n := 0;
      var rest := p;
      while |rest| > 0
        invariant Valid() && n <= |p| && rest == p[n..] && written == old(written) + p[..n]
        decreases |rest|
      {
        var k := Absorb(rest);
        TakeMore(old(written), p, n, k);
        n := n + k;
        rest := rest[k..];
      }
      assert p[..n] == p;
    }

    /** Finish returns the batch manifest of everything written. */
    method Finish() returns (result: seq<ChunkInfo>)
      requires Valid()
      modifies this
      ensures IsManifest(result, written, chunkSize) && written == old(written)
    {
      if |current| > 0 {
        assert Slice(written, chunkSize, index) == current;
        FinishChunk();
      }
      FinishedCount(written, chunkSize, old(index), |old(current)|);
      result := chunks;
    }
  }

  lemma TakeMore(before: Bytes, p: Bytes, n: nat, k: nat)
    requires n <= |p| && k <= |p[n..]|
    ensures before + p[..n] + p[n..][..k] == before + p[..n + k] && p[n..][k..] == p[n + k..]
  {
    assert p[..n] + p[n..][..k] == p[..n + k];
  }

  /** Absorbing no more than the room left keeps the hasher's state, closing a full chunk. */
  lemma AbsorbStep(chunks: seq<ChunkInfo>, current: Bytes, offset: nat, index: nat, written: Bytes, c: nat, more: Bytes)
    requires Absorbed(chunks, current, offset, index, written, c) && 0 < |more| <= c - |current|
    ensures (offset + |more|) % c == 0 <==> |current| + |more| == c
    ensures if |current| + |more| == c
      then Absorbed(chunks + [ChunkInfo(index, index * c, c, Sha(current + more))], [], offset + |more|, index + 1, written + more, c)
      else Absorbed(chunks, current + more, offset + |more|, index, written + more, c)
  {
    var after := written + more;
    FinishedGrows(chunks, written, more, c);
    assert after[index * c..] == current + more;
    assert (index + 1) * c == index * c + c;
    if |current| + |more| == c {
      DivModIs(offset + |more|, c, index + 1, 0);
      assert Slice(after, c, index) == current + more;
      assert after[(index + 1) * c..] == [];
    } else {
      DivModIs(offset + |more|, c, index, |current| + |more|);
    }
  }

  /** The chunks closed so far are the full ones, in order. */
  ghost predicate Finished(chunks: seq<ChunkInfo>, data: Bytes, c: nat)
    requires c > 0
  {
    forall i :: 0 <= i < |chunks| ==> i * c + c <= |data| && chunks[i] == Piece(data, c, i)
  }

  lemma FinishedGrows(chunks: seq<ChunkInfo>, data: Bytes, more: Bytes, c: nat)
    requires c > 0 && Finished(chunks, data, c)
    ensures Finished(chunks, data + more, c)
  {
    forall i | 0 <= i < |chunks| ensures i * c + c <= |data + more| && chunks[i] == Piece(data + more, c, i) {
      assert Slice(data + more, c, i) == Slice(data, c, i);
    }
  }

  lemma FinishedCount(data: Bytes, c: nat, index: nat, tail: nat)
    requires c > 0 && tail < c && |data| == index * c + tail
    ensures Count(|data|, c) == if tail > 0 then index + 1 else index
  {
    var k := if tail > 0 then index + 1 else index;
    var r := if tail > 0 then tail - 1 else c - 1;
    assert (index + 1) * c == index * c + c;
    DivModIs(|data| + c - 1, c, k, r);
  }

  function Join(parts: seq<Bytes>): Bytes {
    if parts == [] then [] else Join(parts[..|parts| - 1]) + parts[|parts| - 1]
  }

  /** However the input is split into writes, the manifest is that of the whole. */
  method HashParts(parts: seq<Bytes>, size: int) returns (result: seq<ChunkInfo>)
    ensures var c := if size <= 0 then DEFAULT_CHUNK else size;
      IsManifest(result, Join(parts), c)
  {
    var h := new Hasher(size);
    var i := 0;
    while i < |parts|
      invariant i <= |parts| && h.Valid() && h.written == Join(parts[..i])
    {
      var _ := h.Write(parts[i]);
      assert parts[..i + 1][..i] == parts[..i];
      i := i + 1;
    }
    assert parts[..i] == parts;
    result := h.Finish();
  }
}
