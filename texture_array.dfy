/** Layered textures (src/graphics/objects/textureArray.cpp): image paths
    are split between loader threads, each path is recorded under its layer
    index and copied into that layer, and raw data entries follow the paths.
    The threads are modelled as running one after another in thread order;
    file decoding and the staging copies are represented by the layer each
    copy targets. */
module TextureArray {
  import opened Vk
  import Bits

  /** What a layer of the array was filled from. */
  datatype LayerSource = FromPath(path: string) | FromData(index: nat)

  /** First path handled by thread `tid` of `n`. */
  function Start(tid: nat, n: nat, size: nat): nat
    requires n > 0
  {
    tid * size / n
  }

  /** One past the last path handled by thread `tid` of `n`. */
  function End(tid: nat, n: nat, size: nat): (e: nat)
    requires tid < n
    ensures Start(tid, n, size) <= e <= size
  {
    StartMonotone(tid, tid + 1, n, size);
    StartBounds(tid, n, size);
    var e := (tid + 1) * size / n;
    if e < size then e else size
  }

  lemma DivMonotone(x: nat, y: nat, n: nat)
    requires n > 0 && x <= y
    ensures x / n <= y / n
  {
    var qx, qy := x / n, y / n;
    assert x == qx * n + x % n;
    assert y == qy * n + y % n;
    assert (qx - qy) * n == (x - y) + (y % n - x % n);
    MulBelow(qx - qy, n);
  }

  lemma MulBelow(a: int, d: int)
    requires d > 0 && a * d < d
    ensures a < 1
  {
  }

  /** Threads start in order, and no thread starts past the end. */
  lemma StartMonotone(a: nat, b: nat, n: nat, size: nat)
    requires n > 0 && a <= b
    ensures Start(a, n, size) <= Start(b, n, size)
  {
    assert a * size <= b * size;
    DivMonotone(a * size, b * size, n);
  }

  lemma StartBounds(tid: nat, n: nat, size: nat)
    requires 0 < n && tid <= n
    ensures Start(tid, n, size) <= size
    ensures Start(0, n, size) == 0 && Start(n, n, size) == size
  {
    StartMonotone(tid, n, n, size);
    Bits.DivUnique(n * size, n, size, 0);
  }

  /** Each thread ends where the next one starts, so the ranges of threads
      `0..n-1` are disjoint and together cover every path. */
  lemma Partition(tid: nat, n: nat, size: nat)
    requires tid < n
    ensures Start(tid, n, size) <= End(tid, n, size) == Start(tid + 1, n, size)
    ensures Start(0, n, size) == 0 && End(n - 1, n, size) == size
  {
    StartBounds(tid + 1, n, size);
    StartMonotone(tid, tid + 1, n, size);
    StartBounds(n, n, size);
  }

  /** Every path index falls in the range of exactly one thread. */
  lemma {:induction false} OwnedByOneThread(i: nat, n: nat, size: nat)
    requires 0 < n && i < size
    ensures exists tid :: 0 <= tid < n && Start(tid, n, size) <= i < End(tid, n, size)
    ensures forall a, b :: (0 <= a < n && 0 <= b < n && Start(a, n, size) <= i < End(a, n, size)
                            && Start(b, n, size) <= i < End(b, n, size)) ==> a == b
  {
    var tid := Owner(i, n, size, 0);
    Partition(tid, n, size);
    forall a, b | 0 <= a < n && 0 <= b < n && Start(a, n, size) <= i < End(a, n, size)
                  && Start(b, n, size) <= i < End(b, n, size)
      ensures a == b
    {
      Partition(a, n, size);
      Partition(b, n, size);
      if a < b {
        StartMonotone(a + 1, b, n, size);
      } else if b < a {
        StartMonotone(b + 1, a, n, size);
      }
    }
  }

  /** The thread, from `from` on, whose range holds `i`. */
  function {:induction false} Owner(i: nat, n: nat, size: nat, from: nat): (tid: nat)
    requires 0 < n && i < size && from < n && Start(from, n, size) <= i
    ensures from <= tid < n && Start(tid, n, size) <= i < End(tid, n, size)
    decreases n - from
  {
    Partition(from, n, size);
    if i < End(from, n, size) || from == n - 1 then from
    else Owner(i, n, size, from + 1)
  }

  /** The path-to-index map after recording paths `from` to `to` in order:
      a path listed twice keeps its later index. */
  function Indexed(m: map<string, nat>, paths: seq<string>, from: nat, to: nat): map<string, nat>
    requires from <= to <= |paths|
    decreases |paths| - from
  {
    if from == to then m else Indexed(m[paths[from] := from], paths, from + 1, to)
  }

  /** Recording one range after the one before it records both. */
  lemma {:induction false} IndexedCompose(m: map<string, nat>, paths: seq<string>, a: nat, b: nat, c: nat)
    requires a <= b <= c <= |paths|
    ensures Indexed(Indexed(m, paths, a, b), paths, b, c) == Indexed(m, paths, a, c)
    decreases b - a
  {
    if a < b {
      IndexedCompose(m[paths[a] := a], paths, a + 1, b, c);
    }
  }

  /** Paths outside the range keep their entries. */
  lemma {:induction false} IndexedFrame(m: map<string, nat>, paths: seq<string>, from: nat, to: nat, p: string)
    requires from <= to <= |paths| && p !in paths[from..to]
    ensures p in Indexed(m, paths, from, to) <==> p in m
    ensures p in m ==> Indexed(m, paths, from, to)[p] == m[p]
    decreases |paths| - from
  {
    if from < to {
      assert paths[from..to][1..] == paths[from + 1..to];
      IndexedFrame(m[paths[from] := from], paths, from + 1, to, p);
    }
  }

  /** With distinct paths, every path is recorded under its own index. */
  lemma {:induction false} IndexedDistinct(m: map<string, nat>, paths: seq<string>, from: nat, to: nat, i: nat)
    requires from <= i < to <= |paths|
    requires forall x, y :: from <= x < y < to ==> paths[x] != paths[y]
    ensures paths[i] in Indexed(m, paths, from, to) && Indexed(m, paths, from, to)[paths[i]] == i
    decreases |paths| - from
  {
    if i == from {
      assert forall k :: from + 1 <= k < to ==> paths[k] != paths[from];
      assert paths[from] !in paths[from + 1..to];
      IndexedFrame(m[paths[from] := from], paths, from + 1, to, paths[from]);
    } else {
      IndexedDistinct(m[paths[from] := from], paths, from + 1, to, i);
    }
  }

  /** Every recorded path's index names a position holding that path. */
  predicate PointsBack(m: map<string, nat>, paths: seq<string>)
  {
    forall p :: p in m ==> m[p] < |paths| && paths[m[p]] == p
  }

  /** Recording paths keeps every index pointing back at its path. */
  lemma {:induction false} IndexedSound(m: map<string, nat>, paths: seq<string>, from: nat, to: nat)
    requires from <= to <= |paths| && PointsBack(m, paths)
    ensures PointsBack(Indexed(m, paths, from, to), paths)
    decreases |paths| - from
  {
    if from < to {
      IndexedSound(m[paths[from] := from], paths, from + 1, to);
    }
  }

  /** The smallest `k` with `2^k >= x`: the number of halvings from `x` to
      one, rounded up. */
  function CeilLog2(x: nat): (k: nat)
    ensures x <= Bits.Pow2(k)
    ensures k > 0 ==> Bits.Pow2(k - 1) < x
  {
    if x <= 1 then 0 else 1 + CeilLog2((x + 1) / 2)
  }

  /** Mip levels of the array: `ceil(log2(max(w, h))) + 1` with mipmaps,
      else one. */
  function MipLevels(width: nat, height: nat, createMipmaps: bool): (levels: nat)
    ensures levels >= 1
    ensures !createMipmaps ==> levels == 1
  {
    if createMipmaps then CeilLog2(if width < height then height else width) + 1 else 1
  }

  /** One level per halving: a 256-square array has nine levels, and a
      257-wide one ten. */
  lemma MipLevelExamples()
    ensures MipLevels(256, 256, true) == 9
    ensures MipLevels(257, 1, true) == 10
    ensures MipLevels(1, 1, true) == 1
  {
    assert CeilLog2(2) == 1;
    assert CeilLog2(3) == 2;
    assert CeilLog2(5) == 3;
    assert CeilLog2(9) == 4;
    assert CeilLog2(17) == 5;
    assert CeilLog2(33) == 6;
    assert CeilLog2(65) == 7;
    assert CeilLog2(129) == 8;
    assert CeilLog2(4) == 2;
    assert CeilLog2(8) == 3;
    assert CeilLog2(16) == 4;
    assert CeilLog2(32) == 5;
    assert CeilLog2(64) == 6;
    assert CeilLog2(128) == 7;
  }

  /** The layer a source is copied into: paths first, then data. */
  function SourceOf(paths: seq<string>, i: nat): LayerSource
  {
    if i < |paths| then FromPath(paths[i]) else FromData(i - |paths|)
  }

  class TextureArray {
    const name: string
    const format: Format
    const width: nat
    const height: nat
    const mipLevels: nat
    const layerCount: nat
    var imageIndices: map<string, nat>
    /** The source each layer was copied from. */
    var layers: map<nat, LayerSource>

    /** The constructor: one layer per path and per data entry; `threads`
        loader threads fill the path layers, then the data entries are
        copied after them. */
    constructor (name: string, format: Format, width: nat, height: nat, createMipmaps: bool,
                 paths: seq<string>, dataCount: nat, threads: nat)
      ensures this.name == name && this.format == format && this.width == width && this.height == height
      ensures mipLevels == MipLevels(width, height, createMipmaps)
      ensures layerCount == |paths| + dataCount
      ensures threads > 0 ==> layers == map i | 0 <= i < layerCount :: SourceOf(paths, i)
      ensures threads > 0 ==> imageIndices == Indexed(map[], paths, 0, |paths|)
      ensures threads == 0 ==> layers == map i | |paths| <= i < layerCount :: SourceOf(paths, i)
      ensures threads == 0 ==> imageIndices == map[]
    {
      this.name, this.format, this.width, this.height := name, format, width, height;
      mipLevels := MipLevels(width, height, createMipmaps);
      layerCount := |paths| + dataCount;
      var indices, filled := LoadAll(paths, threads);
      imageIndices := indices;
      var dataLayers := CopyData(filled, |paths|, dataCount);
      layers := dataLayers;
      new;
    }

    /** `Id(name)`: the recorded layer of a path, or `u32` max for an
        unknown one. */
    function Id(path: string): (r: nat)
      reads this
      ensures path !in imageIndices ==> r == Bits.U32_MAX
      ensures path in imageIndices ==> r == imageIndices[path]
    {
      if path !in imageIndices then Bits.U32_MAX else imageIndices[path]
    }
  }

  /** `LoadTexture` for one thread: each path of its range is recorded under
      its index and copied into the layer of that index. */
  method LoadTexture(tid: nat, n: nat, paths: seq<string>, indices: map<string, nat>, layers: map<nat, LayerSource>)
    returns (indices': map<string, nat>, layers': map<nat, LayerSource>)
    requires tid < n
    ensures indices' == Indexed(indices, paths, Start(tid, n, |paths|), End(tid, n, |paths|))
    ensures layers' == layers + map i | Start(tid, n, |paths|) <= i < End(tid, n, |paths|) :: FromPath(paths[i])
  {
    Partition(tid, n, |paths|);
    var start, end := Start(tid, n, |paths|), End(tid, n, |paths|);
    indices', layers' := indices, layers;
    var i := start;
    while i < end
      invariant start <= i <= end
      invariant Indexed(indices', paths, i, end) == Indexed(indices, paths, start, end)
      invariant layers' == layers + map j | start <= j < i :: FromPath(paths[j])
    {
      indices' := indices'[paths[i] := i];
      layers' := layers'[i := FromPath(paths[i])];
      i := i + 1;
    }
  }

  /** The loader threads, in thread order. With no thread, nothing is
      loaded. */
  method LoadAll(paths: seq<string>, threads: nat) returns (indices: map<string, nat>, layers: map<nat, LayerSource>)
    ensures threads > 0 ==> indices == Indexed(map[], paths, 0, |paths|)
    ensures threads > 0 ==> layers == map i | 0 <= i < |paths| :: FromPath(paths[i])
    ensures threads == 0 ==> indices == map[] && layers == map[]
  {
    indices, layers := map[], map[];
    if threads == 0 {
      return;
    }
    StartBounds(0, threads, |paths|);
    var tid := 0;
    while tid < threads
      invariant tid <= threads
      invariant Start(tid, threads, |paths|) <= |paths|
      invariant indices == Indexed(map[], paths, 0, Start(tid, threads, |paths|))
      invariant layers == map i | 0 <= i < Start(tid, threads, |paths|) :: FromPath(paths[i])
    {
      Partition(tid, threads, |paths|);
      var before := Start(tid, threads, |paths|);
      var after := Start(tid + 1, threads, |paths|);
      IndexedCompose(map[], paths, 0, before, after);
      indices, layers := LoadTexture(tid, threads, paths, indices, layers);
      tid := tid + 1;
    }
    StartBounds(threads, threads, |paths|);
  }

  /** The layer data entry `i - first` is copied into. */
  function DataSource(first: nat, i: nat): LayerSource
    requires first <= i
  {
    FromData(i - first)
  }

  /** The data loop: entry `i` goes to layer `first + i`. */
  method CopyData(layers: map<nat, LayerSource>, first: nat, count: nat) returns (layers': map<nat, LayerSource>)
    requires forall i :: i in layers ==> i < first
    ensures layers' == layers + map i | first <= i < first + count :: DataSource(first, i)
  {
    layers' := layers;
    var i := 0;
    while i < count
      invariant i <= count
      invariant layers' == layers + map j | first <= j < first + i :: DataSource(first, j)
    {
      layers' := layers'[first + i := FromData(i)];
      i := i + 1;
    }
  }

  /** With distinct paths, `Id` of the i-th path is `i`, and every id that
      is found names a layer filled from that very path. */
  lemma IdOfDistinctPaths(paths: seq<string>, i: nat)
    requires i < |paths|
    requires forall x, y :: 0 <= x < y < |paths| ==> paths[x] != paths[y]
    ensures paths[i] in Indexed(map[], paths, 0, |paths|)
    ensures Indexed(map[], paths, 0, |paths|)[paths[i]] == i
  {
    IndexedDistinct(map[], paths, 0, |paths|, i);
  }

  /** Whatever the paths, a recorded path's index is a layer holding it. */
  lemma IdNamesItsLayer(paths: seq<string>, p: string)
    requires p in Indexed(map[], paths, 0, |paths|)
    ensures Indexed(map[], paths, 0, |paths|)[p] < |paths|
    ensures SourceOf(paths, Indexed(map[], paths, 0, |paths|)[p]) == FromPath(p)
  {
    IndexedSound(map[], paths, 0, |paths|);
  }
}
