/** The image split of `renderRayTracing` (src/raytracingscene.cpp): along
    each axis the image is cut into chunks of `ChunkSize` pixels, `Chunks`
    of them, the last one cut short at the image edge; one render thread
    draws each pair of a column chunk and a row chunk. The same arithmetic
    serves both axes, so it is written once for an axis of length w. All
    quantities are `size_t`, which the image sizes here never overflow. */
module Tiles {
  import opened RealMath

  /** `kChunkDim`: the intended number of chunks per axis. */
  const kChunkDim: nat := 4

  /** `xChunkSize`: w / 4 pixels, or 1 for an axis shorter than 4. */
  function ChunkSize(w: nat): (s: nat)
    ensures 1 <= s
    ensures w < kChunkDim ==> s == 1
  {
    if w >= kChunkDim then w / kChunkDim else 1
  }

  /** `xChunks`: w / xChunkSize for an axis longer than 4, else 1, plus one
      when those chunks fall short of w. */
  function Chunks(w: nat): (n: nat)
    ensures 1 <= n
  {
    var s := ChunkSize(w);
    var n := if w > kChunkDim then w / s else 1;
    if n * s < w then n + 1 else n
  }

  /** `xStart` of chunk c. */
  function TileStart(w: nat, c: nat): nat
  {
    c * ChunkSize(w)
  }

  /** `xEnd` of chunk c: `std::min((c + 1) * xChunkSize, width)`. */
  function TileEnd(w: nat, c: nat): (e: nat)
    ensures e <= w
  {
    var e := (c + 1) * ChunkSize(w);
    if w < e then w else e
  }

  /** Pixel x lies in chunk c. */
  predicate InTile(w: nat, c: nat, x: nat)
  {
    TileStart(w, c) <= x < TileEnd(w, c)
  }

  /** The only chunk that can hold pixel x: x / xChunkSize. */
  function TileOf(w: nat, x: nat): nat
  {
    x / ChunkSize(w)
  }

  /** A pixel of the axis lies in chunk c exactly when c is its `TileOf`. */
  lemma InTileIff(w: nat, c: nat, x: nat)
    requires x < w
    ensures InTile(w, c, x) <==> c == TileOf(w, x)
  {
    var s := ChunkSize(w);
    DivBounds(x, s);
    if InTile(w, c, x) {
      DivUnique(x, s, c);
    }
  }

  /** How the chunks sit against the axis: with the two exceptions below
      they reach at least to the edge, and the last chunk starts inside
      the axis. */
  lemma ChunkExtent(w: nat)
    ensures w != 3 && w != 4 ==> w <= Chunks(w) * ChunkSize(w)
    ensures 1 <= w ==> (Chunks(w) - 1) * ChunkSize(w) < w
  {
    var s := ChunkSize(w);
    if w > kChunkDim {
      DivBounds(w, s);
      var n := w / s;
      if n * s == w {
        assert (n - 1) * s == w - s;
      }
    }
  }

  /** Every pixel of an axis of length other than 3 or 4 lies in chunk
      x / xChunkSize, which is one of the chunks. */
  lemma TilesCover(w: nat, x: nat)
    requires w != 3 && w != 4 && x < w
    ensures x / ChunkSize(w) < Chunks(w) && InTile(w, x / ChunkSize(w), x)
  {
    var s := ChunkSize(w);
    var c := x / s;
    DivBounds(x, s);
    ChunkExtent(w);
    if Chunks(w) <= c {
      MulLe(Chunks(w), c, s);
      assert false;
    }
  }

  /** No pixel lies in two chunks. */
  lemma TilesDisjoint(w: nat, c1: nat, c2: nat, x: nat)
    requires InTile(w, c1, x) && InTile(w, c2, x)
    ensures c1 == c2
  {
    DivUnique(x, ChunkSize(w), c1);
    DivUnique(x, ChunkSize(w), c2);
  }

  /** On a non-empty axis every chunk holds at least one pixel, so no
      thread is started for nothing. */
  lemma TilesNonEmpty(w: nat, c: nat)
    requires 1 <= w && c < Chunks(w)
    ensures TileStart(w, c) < TileEnd(w, c)
  {
    var s := ChunkSize(w);
    ChunkExtent(w);
    MulLe(c, Chunks(w) - 1, s);
    assert c * s < (c + 1) * s;
  }

  /** Lengths 3 and 4 are cut into two one-pixel chunks, so pixels 2 and up
      are drawn by no thread and keep the colour `new Color[]` gave them. */
  lemma TilesMissEdge(w: nat)
    requires w == 3 || w == 4
    ensures Chunks(w) == 2
    ensures forall c :: 0 <= c < Chunks(w) ==> TileEnd(w, c) <= 2
    ensures forall c, x :: 0 <= c < Chunks(w) && 2 <= x < w ==> !InTile(w, c, x)
  {
  }

  /** At most seven chunks per axis, and seven for an axis of length 7: up
      to 49 threads, not the 16 the four-by-four split aims at. */
  lemma ChunksBound(w: nat)
    ensures Chunks(w) <= 7
    ensures Chunks(7) == 7
  {
    var s := ChunkSize(w);
    if w >= 8 {
      DivBounds(w, kChunkDim);
      assert 2 <= s && w < 4 * s + 4;
      assert w < 6 * s;
      DivBounds(w, s);
      if 6 <= w / s {
        MulLe(6, w / s, s);
        assert false;
      }
    }
  }

  /** `yc * xChunks + xc`: the slot of a thread in `renderThreads`. */
  function ThreadIndex(xChunks: nat, xc: nat, yc: nat): nat
  {
    yc * xChunks + xc
  }

  /** Every chunk pair has its own slot, and the slots fill
      `numRenderThreads = xChunks * yChunks` exactly. */
  lemma ThreadIndexBijective(xChunks: nat, yChunks: nat, xc: nat, yc: nat, xc2: nat, yc2: nat)
    requires xc < xChunks && yc < yChunks && xc2 < xChunks && yc2 < yChunks
    ensures ThreadIndex(xChunks, xc, yc) < xChunks * yChunks
    ensures ThreadIndex(xChunks, xc, yc) == ThreadIndex(xChunks, xc2, yc2) ==> xc == xc2 && yc == yc2
  {
    var i := ThreadIndex(xChunks, xc, yc);
    assert yc * xChunks + xc < (yc + 1) * xChunks;
    MulLe(yc + 1, yChunks, xChunks);
    DivUnique(i, xChunks, yc);
    DivUnique(ThreadIndex(xChunks, xc2, yc2), xChunks, yc2);
  }

  /** Every slot below `numRenderThreads` belongs to a chunk pair. */
  lemma ThreadIndexOnto(xChunks: nat, yChunks: nat, i: nat)
    requires i < xChunks * yChunks
    ensures 0 < xChunks
    ensures i % xChunks < xChunks && i / xChunks < yChunks
    ensures ThreadIndex(xChunks, i % xChunks, i / xChunks) == i
  {
    DivBounds(i, xChunks);
    if yChunks <= i / xChunks {
      MulLe(yChunks, i / xChunks, xChunks);
      assert false;
    }
  }
  // ------------------------------------------------- the intended split

  /* The split the four-by-four layout aims at, with the size rounded up
     rather than down: chunks of ceil(w / 4) pixels, and as many of them as
     it takes to reach the edge. It covers every pixel of every length and
     never needs more than four chunks per axis. */

  /** ceil(w / 4) pixels per chunk, and at least one. */
  function IntendedChunkSize(w: nat): (s: nat)
    ensures 1 <= s && w <= kChunkDim * s
  {
    if w == 0 then 1
    else
      DivBounds(w + kChunkDim - 1, kChunkDim);
      (w + kChunkDim - 1) / kChunkDim
  }

  /** ceil(w / size) chunks. */
  function IntendedChunks(w: nat): nat
  {
    var s := IntendedChunkSize(w);
    (w + s - 1) / s
  }

  /** Pixel x lies in chunk c of the intended split, cut short at the edge. */
  predicate InIntendedTile(w: nat, c: nat, x: nat)
  {
    var s := IntendedChunkSize(w);
    c * s <= x < (c + 1) * s && x < w
  }

  /** A pixel lies in an intended chunk exactly when it is on the axis and
      the chunk is its quotient by the size, and that chunk is one of the
      `IntendedChunks`: every pixel is drawn, by exactly one chunk. */
  lemma IntendedTileIff(w: nat, c: nat, x: nat)
    ensures InIntendedTile(w, c, x) <==> x < w && c == x / IntendedChunkSize(w)
    ensures x < w ==> x / IntendedChunkSize(w) < IntendedChunks(w)
  {
    var s := IntendedChunkSize(w);
    DivBounds(x, s);
    if InIntendedTile(w, c, x) {
      DivUnique(x, s, c);
    }
    if x < w {
      var n := IntendedChunks(w);
      DivBounds(w + s - 1, s);
      assert w <= n * s;
      if n <= x / s {
        MulLe(n, x / s, s);
        assert false;
      }
    }
  }

  /** At most four chunks per axis. */
  lemma IntendedChunksBound(w: nat)
    ensures IntendedChunks(w) <= kChunkDim
  {
    var s := IntendedChunkSize(w);
    var n := IntendedChunks(w);
    DivBounds(w + s - 1, s);
    if kChunkDim < n {
      MulLe(kChunkDim + 1, n, s);
      assert false;
    }
  }

  /** So the intended split starts at most the sixteen threads it aims at. */
  lemma IntendedThreadsBound(width: nat, height: nat)
    ensures IntendedChunks(width) * IntendedChunks(height) <= kChunkDim * kChunkDim
  {
    IntendedChunksBound(width);
    IntendedChunksBound(height);
    MulLe(IntendedChunks(width), kChunkDim, IntendedChunks(height));
    MulLe(IntendedChunks(height), kChunkDim, kChunkDim);
  }
}
