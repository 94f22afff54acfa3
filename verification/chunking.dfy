/** Cutting a stream of records into bounded batches: the shape shared by the
    SRA parquet writer (parts of 2,500,000 records) and the biosample writer
    (files of `batch_size` records). */
module Chunking {

  function Min(a: int, b: int): int
  {
    if a <= b then a else b
  }

  /** Consecutive pieces of `c` elements each; the last one may be shorter
      and no piece is empty. */
  function Chunks<T>(s: seq<T>, c: nat): seq<seq<T>>
    requires c > 0
    decreases |s|
  {
    if |s| == 0 then []
    else if |s| <= c then [s]
    else [s[..c]] + Chunks(s[c..], c)
  }

  function Flatten<T>(pieces: seq<seq<T>>): seq<T>
  {
    if |pieces| == 0 then [] else pieces[0] + Flatten(pieces[1..])
  }

  /** Gluing the pieces back together gives the original stream: every element
      lands in exactly one piece, in order. */
  lemma {:induction false} FlattenChunks<T>(s: seq<T>, c: nat)
    requires c > 0
    ensures Flatten(Chunks(s, c)) == s
    decreases |s|
  {
    if |s| > c {
      var rest := Chunks(s[c..], c);
      assert ([s[..c]] + rest)[1..] == rest;
      FlattenChunks(s[c..], c);
      assert s[..c] + s[c..] == s;
    } else if |s| > 0 {
      assert [s][1..] == [];
    }
  }

  /** Piece `k` is the slice starting at `k * c`. */
  lemma {:induction false} ChunkAt<T>(s: seq<T>, c: nat, k: nat)
    requires c > 0 && k < |Chunks(s, c)|
    ensures k * c < |s|
    ensures Chunks(s, c)[k] == s[k * c .. Min(k * c + c, |s|)]
    decreases |s|
  {
    if k > 0 {
      assert |s| > c;
      var i := (k - 1) * c;
      ChunkAt(s[c..], c, k - 1);
      MulSucc(k, c);
      var hi := Min(i + c, |s| - c);
      SliceOfSlice(s, c, i, hi);
      assert c + hi == Min(k * c + c, |s|);
    }
  }

  lemma MulSucc(k: nat, c: nat)
    requires k > 0
    ensures k * c == c + (k - 1) * c
  {
  }

  lemma SliceOfSlice<T>(s: seq<T>, c: nat, i: nat, j: nat)
    requires c <= |s| && i <= j <= |s| - c
    ensures s[c..][i..j] == s[c + i .. c + j]
  {
  }

  /** There are as many pieces as `c`-sized slots needed to hold the stream:
      all but the last hold `c` elements and the last holds 1 to `c`. */
  lemma {:induction false} ChunkCount<T>(s: seq<T>, c: nat)
    requires c > 0
    ensures |Chunks(s, c)| * c >= |s|
    ensures |s| > 0 ==> (|Chunks(s, c)| - 1) * c < |s|
    ensures |s| == 0 <==> |Chunks(s, c)| == 0
    decreases |s|
  {
    if |s| > c {
      ChunkCount(s[c..], c);
      var m := |Chunks(s[c..], c)|;
      assert |Chunks(s, c)| == m + 1;
      assert (m + 1) * c == m * c + c;
    }
  }

  lemma ChunkSizes<T>(s: seq<T>, c: nat)
    requires c > 0
    ensures forall k | 0 <= k < |Chunks(s, c)| :: 1 <= |Chunks(s, c)[k]| <= c
    ensures forall k | 0 <= k < |Chunks(s, c)| - 1 :: |Chunks(s, c)[k]| == c
  {
    ChunkCount(s, c);
    forall k | 0 <= k < |Chunks(s, c)|
      ensures 1 <= |Chunks(s, c)[k]| <= c
      ensures k < |Chunks(s, c)| - 1 ==> |Chunks(s, c)[k]| == c
    {
      ChunkAt(s, c, k);
      if k < |Chunks(s, c)| - 1 {
        var n := |Chunks(s, c)|;
        assert k * c + c <= (n - 1) * c by {
          assert (k + 1) * c <= (n - 1) * c by { MulMono(k + 1, n - 1, c); }
        }
        assert (n - 1) * c <= n * c - c;
      }
    }
  }

  lemma DivLower(a: nat, c: nat, q: nat)
    requires c > 0 && q * c <= a
    ensures q <= a / c
  {
    if a / c < q {
      MulMono(a / c + 1, q, c);
    }
  }

  lemma MulLess(a: int, b: int, c: nat)
    requires a * c < b * c
    ensures a < b
  {
  }

  lemma MulMono(a: nat, b: nat, c: nat)
    requires a <= b
    ensures a * c <= b * c
  {
  }

  /** When the length is a multiple of `c` (`q` pieces), every piece is full. */
  lemma {:induction false} ChunksOfMultiple<T>(s: seq<T>, c: nat, q: nat)
    requires c > 0 && |s| == q * c
    ensures |Chunks(s, c)| == q
    decreases q
  {
    if q > 1 {
      assert |s[c..]| == (q - 1) * c;
      ChunksOfMultiple(s[c..], c, q - 1);
    } else if q == 1 {
      assert |s| == c;
    }
  }

  /** A full buffer that started at piece `part`'s offset is that piece. */
  lemma FullChunk<T>(s: seq<T>, c: nat, part: nat, start: nat)
    requires c > 0 && start == part * c && start + c <= |s|
    ensures part < |Chunks(s, c)|
    ensures part + 1 <= |s| / c
    ensures Chunks(s, c)[part] == s[start .. start + c]
    ensures start + c == (part + 1) * c
  {
    ChunkCount(s, c);
    var n := |Chunks(s, c)|;
    assert (part + 1) * c == start + c;
    MulLess(part, n, c);
    ChunkAt(s, c, part);
    DivLower(|s|, c, part + 1);
  }

  /** What is left in the buffer at the end is the last piece, if anything. */
  lemma LastChunk<T>(s: seq<T>, c: nat, part: nat, start: nat)
    requires c > 0 && start == part * c && start <= |s| < start + c
    ensures start + c == (part + 1) * c
    ensures |s| > start ==> |Chunks(s, c)| == part + 1
    ensures |s| > start ==> Chunks(s, c)[part] == s[start ..]
    ensures |s| == start ==> |Chunks(s, c)| == part
  {
    ChunkCount(s, c);
    if |s| > start {
      var n := |Chunks(s, c)|;
      MulLess(part, n, c);
      MulLess(n - 1, part + 1, c);
      ChunkAt(s, c, part);
    } else {
      ChunksOfMultiple(s, c, part);
    }
  }

  /** `a` divided by `c`, rounded up. */
  function CeilDiv(a: nat, c: nat): nat
    requires c > 0
  {
    (a + c - 1) / c
  }

  /** The number of pieces is the length divided by `c`, rounded up. */
  lemma CeilCount<T>(s: seq<T>, c: nat)
    requires c > 0
    ensures |Chunks(s, c)| == CeilDiv(|s|, c)
  {
    ChunkCount(s, c);
    var n := |Chunks(s, c)|;
    if n == 0 {
      DivBetween(c - 1, c, 0);
    } else {
      assert (n - 1) * c + c == n * c;
      DivBetween(|s| + c - 1, c, n);
    }
  }

  lemma DivBetween(a: nat, c: nat, n: nat)
    requires c > 0 && n * c <= a < n * c + c
    ensures a / c == n
  {
    var q, r := a / c, a % c;
    assert a == q * c + r;
    if q < n {
      MulMono(q + 1, n, c);
    } else if q > n {
      MulMono(n + 1, q, c);
    }
  }
}
