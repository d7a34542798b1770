/** The vision tower's patch grid (vendor-fastembed/src/models/qwen3.rs, vendor-fastembed/src/models/qwen3_vl.rs).
    Three loops written apart walk it: the one cutting patches out of the image, the one listing rotary
    coordinates, and the reshape-permute of the position embeddings. Row k of all three must be the same cell. */
module PatchGrid {
  import opened Division
  import opened RowMajor
  import opened Wrappers

  datatype Cell = Cell(row: nat, col: nat)

  datatype Grid = Grid(t: nat, h: nat, w: nat)

  predicate Divisible(h: nat, w: nat, m: nat) {
    m > 0 && h % m == 0 && w % m == 0
  }

  // ---------- the order of the cells ----------

  /** Block row, block column, row inside the block, column inside the block. */
  function Blocks(h: nat, w: nat, m: nat): seq<nat>
    requires m > 0
  {
    [h / m, w / m, m, m]
  }

  function CellNamed(m: nat, d: seq<nat>): Cell
    requires |d| == 4
  {
    Cell(d[0] * m + d[2], d[1] * m + d[3])
  }

  /** The cell of a frame's j-th token: blocks in reading order, and each block in reading order. */
  function CellOf(h: nat, w: nat, m: nat, j: nat): Cell
    requires m > 0
  {
    CellNamed(m, Decode(Blocks(h, w, m), j))
  }

  function FrameCells(h: nat, w: nat, m: nat): seq<Cell>
    requires m > 0
  {
    seq(Product(Blocks(h, w, m)), j requires 0 <= j => CellOf(h, w, m, j))
  }

  /** One row of the tower's input: which image, which frame of all frames, which cell of that frame. */
  datatype Token = Token(image: nat, frame: nat, cell: Cell)

  function FrameTokens(image: nat, frame: nat, h: nat, w: nat, m: nat): seq<Token>
    requires m > 0
  {
    seq(Product(Blocks(h, w, m)), j requires 0 <= j => Token(image, frame, CellOf(h, w, m, j)))
  }

  /** The first `t` frames of an image. */
  function ImageTokens(image: nat, first: nat, g: Grid, t: nat, m: nat): seq<Token>
    requires m > 0
  {
    if t == 0 then [] else ImageTokens(image, first, g, t - 1, m) + FrameTokens(image, first + t - 1, g.h, g.w, m)
  }

  function FrameCount(grids: seq<Grid>): nat {
    if grids == [] then 0 else FrameCount(grids[..|grids| - 1]) + grids[|grids| - 1].t
  }

  /** Every row of the tower, image after image, frame after frame: what all three walks must follow. */
  function TowerTokens(grids: seq<Grid>, m: nat): seq<Token>
    requires m > 0
  {
    if grids == [] then []
    else
      var n := |grids| - 1;
      TowerTokens(grids[..n], m) + ImageTokens(n, FrameCount(grids[..n]), grids[n], grids[n].t, m)
  }

  function CellsOf(tokens: seq<Token>): seq<Cell> {
    seq(|tokens|, k requires 0 <= k < |tokens| => tokens[k].cell)
  }

  // ---------- four nested counters ----------

  /** The place of `(i0, i1, i2, i3)` among counters of the three inner bounds. */
  function Place(b1: nat, b2: nat, b3: nat, i0: nat, i1: nat, i2: nat, i3: nat): nat {
    ((i0 * b1 + i1) * b2 + i2) * b3 + i3
  }

  lemma Carries(b1: nat, b2: nat, b3: nat, i0: nat, i1: nat, i2: nat)
    ensures Place(b1, b2, b3, i0, i1, i2, b3) == Place(b1, b2, b3, i0, i1, i2 + 1, 0)
    ensures Place(b1, b2, b3, i0, i1, b2, 0) == Place(b1, b2, b3, i0, i1 + 1, 0, 0)
    ensures Place(b1, b2, b3, i0, b1, 0, 0) == Place(b1, b2, b3, i0 + 1, 0, 0, 0)
  {
    Distribute((i0 * b1 + i1) * b2 + i2, 1, b3);
    Distribute(i0 * b1 + i1, 1, b2);
    Distribute(i0, 1, b1);
  }

  lemma PlaceIsEncoded(b0: nat, b1: nat, b2: nat, b3: nat, i0: nat, i1: nat, i2: nat, i3: nat)
    ensures Product([b0, b1, b2, b3]) == Place(b1, b2, b3, b0, 0, 0, 0)
    ensures Encode([b0, b1, b2, b3], [i0, i1, i2, i3]) == Place(b1, b2, b3, i0, i1, i2, i3)
  {
    hide Product, Encode;
    ThreeAxes(b0, b1, b2, i0, i1, i2);
    InnerAxis([b0, b1, b2], [i0, i1, i2], b3, i3);
    assert [b0, b1, b2] + [b3] == [b0, b1, b2, b3] && [i0, i1, i2] + [i3] == [i0, i1, i2, i3];
  }

  lemma PlaceIsDecoded(b0: nat, b1: nat, b2: nat, b3: nat, i0: nat, i1: nat, i2: nat, i3: nat)
    requires i0 < b0 && i1 < b1 && i2 < b2 && i3 < b3
    ensures Decode([b0, b1, b2, b3], Place(b1, b2, b3, i0, i1, i2, i3)) == [i0, i1, i2, i3]
  {
    PlaceIsEncoded(b0, b1, b2, b3, i0, i1, i2, i3);
    DecodeOfEncode([b0, b1, b2, b3], [i0, i1, i2, i3]);
  }

  /** The cell the four block counters name. */
  lemma CellAtPlace(h: nat, w: nat, m: nat, br: nat, bc: nat, ir: nat, ic: nat)
    requires m > 0 && br < h / m && bc < w / m && ir < m && ic < m
    ensures CellOf(h, w, m, Place(w / m, m, m, br, bc, ir, ic)) == Cell(br * m + ir, bc * m + ic)
    ensures Place(w / m, m, m, br, bc, ir, ic + 1) == Place(w / m, m, m, br, bc, ir, ic) + 1
  {
    PlaceIsDecoded(h / m, w / m, m, m, br, bc, ir, ic);
  }

  // ---------- rotary coordinates ----------

  method BaseCoords(h: nat, w: nat, m: nat) returns (cells: seq<Cell>)
    requires m > 0
    ensures cells == FrameCells(h, w, m)
  {
    hide CellOf, Product, Place;
    var bh, bw := h / m, w / m;
    cells := [];
    PlaceIsEncoded(bh, bw, m, m, 0, 0, 0, 0);
    PlaceOfZero(bw, m, m);
    for br := 0 to bh
      invariant |cells| == Place(bw, m, m, br, 0, 0, 0)
      invariant forall k | 0 <= k < |cells| :: cells[k] == CellOf(h, w, m, k)
    {
      for bc := 0 to bw
        invariant |cells| == Place(bw, m, m, br, bc, 0, 0)
        invariant forall k | 0 <= k < |cells| :: cells[k] == CellOf(h, w, m, k)
      {
        for ir := 0 to m
          invariant |cells| == Place(bw, m, m, br, bc, ir, 0)
          invariant forall k | 0 <= k < |cells| :: cells[k] == CellOf(h, w, m, k)
        {
          for ic := 0 to m
            invariant |cells| == Place(bw, m, m, br, bc, ir, ic)
            invariant forall k | 0 <= k < |cells| :: cells[k] == CellOf(h, w, m, k)
          {
            CellAtPlace(h, w, m, br, bc, ir, ic);
            cells := cells + [Cell(br * m + ir, bc * m + ic)];
          }
          Carries(bw, m, m, br, bc, ir);
        }
        Carries(bw, m, m, br, bc, 0);
      }
      Carries(bw, m, m, br, 0, 0);
    }
  }

  lemma PlaceOfZero(b1: nat, b2: nat, b3: nat)
    ensures Place(b1, b2, b3, 0, 0, 0, 0) == 0
  {
  }

  lemma PlaceAdvances(b1: nat, b2: nat, b3: nat, i0: nat, i1: nat, i2: nat, i3: nat)
    ensures Place(b1, b2, b3, i0, i1, i2, i3 + 1) == Place(b1, b2, b3, i0, i1, i2, i3) + 1
  {
  }

  /** `rot_pos_emb`'s coordinates: each image's base list once per frame. */
  method RotaryCoords(grids: seq<Grid>, m: nat) returns (coords: seq<Cell>)
    requires m > 0
    ensures coords == CellsOf(TowerTokens(grids, m))
  {
    hide FrameTokens, FrameCells;
    coords := [];
    for n := 0 to |grids|
      invariant coords == CellsOf(TowerTokens(grids[..n], m))
    {
      var g := grids[n];
      var base := BaseCoords(g.h, g.w, m);
      ghost var before, first := TowerTokens(grids[..n], m), FrameCount(grids[..n]);
      for f := 0 to g.t
        invariant coords == CellsOf(before + ImageTokens(n, first, g, f, m))
      {
        FrameCellsOfTokens(n, first + f, g.h, g.w, m);
        assert before + ImageTokens(n, first, g, f + 1, m)
            == before + ImageTokens(n, first, g, f, m) + FrameTokens(n, first + f, g.h, g.w, m);
        coords := coords + base;
      }
      assert grids[..n + 1][..n] == grids[..n];
    }
    assert grids[..|grids|] == grids;
  }

  lemma FrameCellsOfTokens(image: nat, frame: nat, h: nat, w: nat, m: nat)
    requires m > 0
    ensures CellsOf(FrameTokens(image, frame, h, w, m)) == FrameCells(h, w, m)
  {
  }

  // ---------- every cell exactly once ----------

  lemma AreaOfBlocks(h: nat, w: nat, m: nat)
    requires Divisible(h, w, m)
    ensures Product(Blocks(h, w, m)) == h * w
  {
    var bh, bw := h / m, w / m;
    PlaceIsEncoded(bh, bw, m, m, 0, 0, 0, 0);
    assert bh * bw * m * m == (bh * m) * (bw * m) by {
      Associate(bh * bw, m, m);
      Associate(bh, bw, m * m);
      Associate(bw, m, m);
      Associate(bh, m, bw * m);
      Associate(m, bw, m);
    }
  }

  lemma CellLies(h: nat, w: nat, m: nat, j: nat)
    requires Divisible(h, w, m) && j < h * w
    ensures CellOf(h, w, m, j).row < h && CellOf(h, w, m, j).col < w
    ensures PositionInFrame(h, w, m, CellOf(h, w, m, j)) == j
  {
    hide Decode, Encode, Product;
    AreaOfBlocks(h, w, m);
    EncodeOfDecode(Blocks(h, w, m), j);
    var d := Decode(Blocks(h, w, m), j);
    InBlock(d[0], h / m, d[2], m);
    InBlock(d[1], w / m, d[3], m);
    assert d == [d[0], d[1], d[2], d[3]];
  }

  lemma InBlock(block: nat, blocks: nat, i: nat, m: nat)
    requires block < blocks && i < m
    ensures block * m + i < blocks * m
    ensures (block * m + i) / m == block && (block * m + i) % m == i
  {
    Monotone(block + 1, blocks, m);
    Distribute(block, 1, m);
    QuotientIsUnique(block * m + i, m, block, i);
  }

  /** Where a frame lists a cell. */
  function PositionInFrame(h: nat, w: nat, m: nat, cell: Cell): nat
    requires m > 0
  {
    Encode(Blocks(h, w, m), [cell.row / m, cell.col / m, cell.row % m, cell.col % m])
  }

  lemma CellIsListed(h: nat, w: nat, m: nat, cell: Cell)
    requires Divisible(h, w, m) && cell.row < h && cell.col < w
    ensures PositionInFrame(h, w, m, cell) < h * w
    ensures CellOf(h, w, m, PositionInFrame(h, w, m, cell)) == cell
  {
    hide Decode, Encode, Product;
    AreaOfBlocks(h, w, m);
    Parts(cell.row, h, m);
    Parts(cell.col, w, m);
    var d := [cell.row / m, cell.col / m, cell.row % m, cell.col % m];
    EncodedWithin(Blocks(h, w, m), d);
    DecodeOfEncode(Blocks(h, w, m), d);
  }

  lemma Parts(x: nat, whole: nat, m: nat)
    requires m > 0 && whole % m == 0 && x < whole
    ensures 0 <= x / m < whole / m && x % m < m && x / m * m + x % m == x
  {
    QuotientWithin(x, whole / m, m);
  }

  ghost predicate Distinct<T>(s: seq<T>) {
    forall i, j | 0 <= i < j < |s| :: s[i] != s[j]
  }

  lemma FrameListsEachCellOnce(image: nat, frame: nat, h: nat, w: nat, m: nat)
    requires Divisible(h, w, m)
    ensures |FrameTokens(image, frame, h, w, m)| == h * w && Distinct(FrameTokens(image, frame, h, w, m))
    ensures forall x :: x in FrameTokens(image, frame, h, w, m)
                        <==> x.image == image && x.frame == frame && x.cell.row < h && x.cell.col < w
  {
    AreaOfBlocks(h, w, m);
    var s := FrameTokens(image, frame, h, w, m);
    hide CellOf, PositionInFrame;
    forall k | 0 <= k < h * w
      ensures s[k].cell.row < h && s[k].cell.col < w && PositionInFrame(h, w, m, s[k].cell) == k
    {
      CellLies(h, w, m, k);
    }
    forall x: Token | x.image == image && x.frame == frame && x.cell.row < h && x.cell.col < w ensures x in s {
      CellIsListed(h, w, m, x.cell);
      assert s[PositionInFrame(h, w, m, x.cell)] == x;
    }
  }

  lemma {:induction false} ImageListsEachCellOnce(image: nat, first: nat, g: Grid, t: nat, m: nat)
    requires Divisible(g.h, g.w, m)
    ensures Distinct(ImageTokens(image, first, g, t, m))
    ensures forall x :: x in ImageTokens(image, first, g, t, m)
                        <==> x.image == image && first <= x.frame < first + t && x.cell.row < g.h && x.cell.col < g.w
  {
    if t > 0 {
      hide FrameTokens;
      ImageListsEachCellOnce(image, first, g, t - 1, m);
      FrameListsEachCellOnce(image, first + t - 1, g.h, g.w, m);
      var a, b := ImageTokens(image, first, g, t - 1, m), FrameTokens(image, first + t - 1, g.h, g.w, m);
      assert forall x | x in b :: x !in a;
      DistinctTogether(a, b);
    }
  }

  lemma DistinctTogether<T>(a: seq<T>, b: seq<T>)
    requires Distinct(a) && Distinct(b) && forall x | x in b :: x !in a
    ensures Distinct(a + b)
  {
    var s := a + b;
    forall i, j | 0 <= i < j < |s| ensures s[i] != s[j] {
      if i < |a| <= j {
        assert s[i] in a && s[j] in b;
      }
    }
  }

  /** The frames image `n` occupies among all frames. */
  predicate FrameOfImage(grids: seq<Grid>, n: nat, frame: nat)
    requires n < |grids|
  {
    FrameCount(grids[..n]) <= frame < FrameCount(grids[..n]) + grids[n].t
  }

  /** Over all images and frames, each cell of each frame is exactly one row of the tower, and nothing else is. */
  lemma {:induction false} EachCellExactlyOnce(grids: seq<Grid>, m: nat)
    requires forall g | g in grids :: Divisible(g.h, g.w, m)
    requires m > 0
    ensures Distinct(TowerTokens(grids, m))
    ensures forall x :: x in TowerTokens(grids, m)
                        <==> x.image < |grids| && FrameOfImage(grids, x.image, x.frame)
                             && x.cell.row < grids[x.image].h && x.cell.col < grids[x.image].w
  {
    if grids != [] {
      var n := |grids| - 1;
      var g := grids[n];
      EachCellExactlyOnce(grids[..n], m);
      ImageListsEachCellOnce(n, FrameCount(grids[..n]), g, g.t, m);
      var a, b := TowerTokens(grids[..n], m), ImageTokens(n, FrameCount(grids[..n]), g, g.t, m);
      DistinctTogether(a, b);
      forall x: Token | x.image < n
        ensures FrameOfImage(grids, x.image, x.frame) <==> FrameOfImage(grids[..n], x.image, x.frame)
      {
        assert grids[..n][..x.image] == grids[..x.image];
      }
    }
  }

  // ---------- position embeddings ----------

  /** An image's interpolated embeddings before the permutation: one per cell, in reading order. `embed` stands
      for the four-corner interpolation at a cell of an `h` by `w` grid. */
  function ReadingOrder<T>(h: nat, w: nat, embed: (nat, nat, Cell) -> T): seq<T> {
    seq(h * w, p requires 0 <= p => var d := Decode([h, w], p); embed(h, w, Cell(d[0], d[1])))
  }

  lemma ReadingOrderAt<T>(h: nat, w: nat, embed: (nat, nat, Cell) -> T, row: nat, col: nat)
    requires row < h && col < w
    ensures row * w + col < h * w && ReadingOrder(h, w, embed)[row * w + col] == embed(h, w, Cell(row, col))
  {
    hide Decode;
    PlaneIndex(h, w, row, col);
  }

  lemma PlaneIndex(h: nat, w: nat, row: nat, col: nat)
    requires row < h && col < w
    ensures 0 <= row * w + col < h * w && Decode([h, w], row * w + col) == [row, col]
  {
    Monotone(row + 1, h, w);
    Distribute(row, 1, w);
    hide Decode, Encode;
    TwoAxes(h, w, row, col);
    DecodeOfEncode([h, w], [row, col]);
  }

  function AllReadingOrder<T>(grids: seq<Grid>, embed: (nat, nat, Cell) -> T): seq<T> {
    if grids == [] then []
    else
      var g := grids[|grids| - 1];
      AllReadingOrder(grids[..|grids| - 1], embed) + ReadingOrder(g.h, g.w, embed)
  }

  /** The interpolation loops: every image's cells, row by row. */
  method Interpolate<T>(grids: seq<Grid>, embed: (nat, nat, Cell) -> T) returns (rows: seq<T>)
    ensures rows == AllReadingOrder(grids, embed)
  {
    hide ReadingOrder;
    rows := [];
    for n := 0 to |grids|
      invariant rows == AllReadingOrder(grids[..n], embed)
    {
      var h, w := grids[n].h, grids[n].w;
      ghost var before, here := rows, ReadingOrder(h, w, embed);
      ReadingOrderCounted(h, w, embed);
      for r := 0 to h
        invariant 0 <= r * w <= |here| && rows == before + here[..r * w]
      {
        Monotone(r + 1, h, w);
        Distribute(r, 1, w);
        for c := 0 to w
          invariant 0 <= r * w + c <= |here| && rows == before + here[..r * w + c]
        {
          ReadingOrderAt(h, w, embed, r, c);
          rows := rows + [embed(h, w, Cell(r, c))];
        }
      }
      assert here[..h * w] == here;
      assert grids[..n + 1][..n] == grids[..n];
    }
    assert grids[..|grids|] == grids;
  }

  lemma ReadingOrderCounted<T>(h: nat, w: nat, embed: (nat, nat, Cell) -> T)
    ensures |ReadingOrder(h, w, embed)| == h * w
  {
  }

  function Repeated<T>(s: seq<T>, t: nat): (r: seq<T>)
  {
    if t == 0 then [] else Repeated(s, t - 1) + s
  }

  lemma {:induction false} RepeatedAt<T>(s: seq<T>, t: nat, f: nat, p: nat)
    requires f < t && p < |s|
    ensures |Repeated(s, t)| == t * |s|
    ensures f * |s| + p < t * |s| && Repeated(s, t)[f * |s| + p] == s[p]
  {
    Distribute(t - 1, 1, |s|);
    Monotone(f, t - 1, |s|);
    if f < t - 1 {
      RepeatedAt(s, t - 1, f, p);
    } else {
      RepeatedCounted(s, t - 1);
    }
  }

  lemma {:induction false} RepeatedCounted<T>(s: seq<T>, t: nat)
    ensures |Repeated(s, t)| == t * |s|
  {
    if t > 0 {
      RepeatedCounted(s, t - 1);
      Distribute(t - 1, 1, |s|);
    }
  }

  /** The shape the repeated rows are read in before the axes are exchanged. */
  function SplitShape(g: Grid, m: nat): seq<nat>
    requires m > 0
  {
    [g.t, g.h / m, m, g.w / m, m]
  }

  const BLOCK_FIRST: seq<nat> := [0, 1, 3, 2, 4]

  lemma BlockFirstPermutes()
    ensures IsPermutation(BLOCK_FIRST)
    ensures PlaceOf(BLOCK_FIRST, 0) == 0 && PlaceOf(BLOCK_FIRST, 1) == 1 && PlaceOf(BLOCK_FIRST, 2) == 3
    ensures PlaceOf(BLOCK_FIRST, 3) == 2 && PlaceOf(BLOCK_FIRST, 4) == 4
  {
    forall e: nat | e < 5 ensures e in BLOCK_FIRST {
      assert BLOCK_FIRST[if e == 2 then 3 else if e == 3 then 2 else e] == e;
    }
  }

  lemma SplitIsWhole(g: Grid, m: nat)
    requires Divisible(g.h, g.w, m)
    ensures Product(SplitShape(g, m)) == g.t * (g.h * g.w)
    ensures |BLOCK_FIRST| == |SplitShape(g, m)| && Along(BLOCK_FIRST, SplitShape(g, m)) == [g.t] + Blocks(g.h, g.w, m)
  {
    var bh, bw := g.h / m, g.w / m;
    var s := SplitShape(g, m);
    PlaceIsEncoded(g.t, bh, m, bw, 0, 0, 0, 0);
    InnerAxis([g.t, bh, m, bw], [0, 0, 0, 0], m, 0);
    assert s == [g.t, bh, m, bw] + [m];
    assert Product(s) == g.t * bh * m * bw * m;
    assert g.t * bh * m * bw * m == g.t * ((bh * m) * (bw * m)) by {
      Associate(g.t, bh, m);
      Associate(g.t, bh * m, bw);
      Associate(bh * m, bw, m);
      Associate(g.t, bh * m * bw, m);
    }
    assert Along(BLOCK_FIRST, s) == [g.t, bh, bw, m, m];
  }

  /** `repeat`, `reshape`, `permute`, `reshape`: one image's embeddings put into the tower's order. */
  function Rearranged<T>(rows: seq<T>, g: Grid, m: nat): seq<T>
    requires Divisible(g.h, g.w, m) && |rows| == g.h * g.w
  {
    SplitIsWhole(g, m);
    RepeatedCounted(rows, g.t);
    BlockFirstPermutes();
    Permuted(Tensor(SplitShape(g, m), Repeated(rows, g.t)), BLOCK_FIRST).data
  }

  lemma MovedIndex(f: nat, d: seq<nat>)
    requires |d| == 4
    ensures IsPermutation(BLOCK_FIRST)
    ensures Back(BLOCK_FIRST, [f] + d) == [f, d[0], d[2], d[1], d[3]]
  {
    BlockFirstPermutes();
  }

  lemma SplitEncoded(g: Grid, m: nat, f: nat, d: seq<nat>)
    requires Divisible(g.h, g.w, m) && |d| == 4
    ensures Encode(SplitShape(g, m), [f, d[0], d[2], d[1], d[3]])
            == f * (g.h * g.w) + ((d[0] * m + d[2]) * g.w + (d[1] * m + d[3]))
  {
    var bh, bw := g.h / m, g.w / m;
    var s, i := SplitShape(g, m), [f, d[0], d[2], d[1], d[3]];
    hide Encode;
    PlaceIsEncoded(g.t, bh, m, bw, f, d[0], d[2], d[1]);
    InnerAxis([g.t, bh, m, bw], [f, d[0], d[2], d[1]], m, d[3]);
    assert s == [g.t, bh, m, bw] + [m] && i == [f, d[0], d[2], d[1]] + [d[3]];
    FlatIndex(bh, bw, m, f, d[0], d[1], d[2], d[3]);
  }

  lemma FlatIndex(bh: nat, bw: nat, m: nat, f: nat, br: nat, bc: nat, ir: nat, ic: nat)
    ensures (((f * bh + br) * m + ir) * bw + bc) * m + ic
            == f * ((bh * m) * (bw * m)) + ((br * m + ir) * (bw * m) + (bc * m + ic))
  {
    var h, w, row := bh * m, bw * m, br * m + ir;
    assert (f * bh + br) * m + ir == f * h + row by {
      Distribute(f * bh, br, m);
      Associate(f, bh, m);
    }
    assert ((f * h + row) * bw + bc) * m == (f * h + row) * w + bc * m by {
      Distribute((f * h + row) * bw, bc, m);
      Associate(f * h + row, bw, m);
    }
    assert (f * h + row) * w == f * (h * w) + row * w by {
      Distribute(f * h, row, w);
      Associate(f, h, w);
    }
  }

  /** After the exchange of axes, row `f * area + j` is the embedding of the frame's j-th cell. */
  lemma RearrangedFollowsTheCells<T>(rows: seq<T>, g: Grid, m: nat, f: nat, j: nat)
    requires Divisible(g.h, g.w, m) && |rows| == g.h * g.w && f < g.t && j < g.h * g.w
    ensures |Rearranged(rows, g, m)| == g.t * (g.h * g.w)
    ensures 0 <= f * (g.h * g.w) + j < g.t * (g.h * g.w)
    ensures CellOf(g.h, g.w, m, j).row < g.h && CellOf(g.h, g.w, m, j).col < g.w
    ensures 0 <= CellOf(g.h, g.w, m, j).row * g.w + CellOf(g.h, g.w, m, j).col < g.h * g.w
    ensures Rearranged(rows, g, m)[f * (g.h * g.w) + j]
            == rows[CellOf(g.h, g.w, m, j).row * g.w + CellOf(g.h, g.w, m, j).col]
  {
    hide Decode, Encode, Product, Back, Along, IsPermutation;
    var area, cell, k := g.h * g.w, CellOf(g.h, g.w, m, j), f * (g.h * g.w) + j;
    CellLies(g.h, g.w, m, j);
    PlaneIndex(g.h, g.w, cell.row, cell.col);
    AreaOfBlocks(g.h, g.w, m);
    SplitIsWhole(g, m);
    LeadingProduct(g.t, Blocks(g.h, g.w, m));
    var d := Decode(Blocks(g.h, g.w, m), j);
    DecodeLeading(g.t, Blocks(g.h, g.w, m), f, j);
    MovedIndex(f, d);
    SplitEncoded(g, m, f, d);
    RepeatedAt(rows, g.t, f, cell.row * g.w + cell.col);
    RepeatedAt(rows, g.t, f, j);
    assert Source(SplitShape(g, m), BLOCK_FIRST, k) == f * area + (cell.row * g.w + cell.col);
  }

  lemma {:induction false} LeadingProduct(t: nat, rest: seq<nat>)
    ensures Product([t] + rest) == t * Product(rest)
  {
    if rest == [] {
      assert ([t] + rest)[..0] == [];
    } else {
      var n := |rest| - 1;
      LeadingProduct(t, rest[..n]);
      assert ([t] + rest)[..n + 1] == [t] + rest[..n];
      Associate(t, Product(rest[..n]), rest[n]);
    }
  }

  /** One image's rearranged embeddings are those of its tokens, in the tower's order. */
  lemma {:induction false} RearrangedIsTokenOrder<T>(image: nat, first: nat, g: Grid, m: nat, t: nat,
                                                     embed: (nat, nat, Cell) -> T, k: nat)
    requires Divisible(g.h, g.w, m) && t <= g.t && k < |ImageTokens(image, first, g, t, m)|
    ensures |ReadingOrder(g.h, g.w, embed)| == g.h * g.w
    ensures |ImageTokens(image, first, g, t, m)| == t * (g.h * g.w)
    ensures k < |Rearranged(ReadingOrder(g.h, g.w, embed), g, m)|
    ensures Rearranged(ReadingOrder(g.h, g.w, embed), g, m)[k]
            == embed(g.h, g.w, ImageTokens(image, first, g, t, m)[k].cell)
    decreases t
  {
    hide Rearranged, ReadingOrder, CellOf;
    var area, rows := g.h * g.w, ReadingOrder(g.h, g.w, embed);
    ReadingOrderCounted(g.h, g.w, embed);
    ImageTokensCounted(image, first, g, t, m);
    ImageTokensCounted(image, first, g, t - 1, m);
    Distribute(t - 1, 1, area);
    if k < |ImageTokens(image, first, g, t - 1, m)| {
      RearrangedIsTokenOrder(image, first, g, m, t - 1, embed, k);
    } else {
      var j := k - (t - 1) * area;
      AreaOfBlocks(g.h, g.w, m);
      RearrangedFollowsTheCells(rows, g, m, t - 1, j);
      var cell := CellOf(g.h, g.w, m, j);
      ReadingOrderAt(g.h, g.w, embed, cell.row, cell.col);
    }
  }

  lemma {:induction false} ImageTokensCounted(image: nat, first: nat, g: Grid, t: nat, m: nat)
    requires Divisible(g.h, g.w, m)
    ensures |ImageTokens(image, first, g, t, m)| == t * (g.h * g.w)
  {
    if t > 0 {
      ImageTokensCounted(image, first, g, t - 1, m);
      AreaOfBlocks(g.h, g.w, m);
      Distribute(t - 1, 1, g.h * g.w);
    }
  }

  predicate AllDivisible(grids: seq<Grid>, m: nat) {
    m > 0 && forall n | 0 <= n < |grids| :: Divisible(grids[n].h, grids[n].w, m)
  }

  lemma {:induction false} TokensOfPrefix(grids: seq<Grid>, m: nat, k: nat)
    requires m > 0 && k < |TowerTokens(grids, m)|
    ensures TowerTokens(grids, m)[k].image < |grids|
  {
    var n := |grids| - 1;
    var front := TowerTokens(grids[..n], m);
    if k < |front| {
      TokensOfPrefix(grids[..n], m, k);
    } else {
      TokensOfImage(n, FrameCount(grids[..n]), grids[n], grids[n].t, m, k - |front|);
    }
  }

  lemma {:induction false} TokensOfImage(image: nat, first: nat, g: Grid, t: nat, m: nat, k: nat)
    requires m > 0 && k < |ImageTokens(image, first, g, t, m)|
    ensures ImageTokens(image, first, g, t, m)[k].image == image
    ensures first <= ImageTokens(image, first, g, t, m)[k].frame < first + t
  {
    if k < |ImageTokens(image, first, g, t - 1, m)| {
      TokensOfImage(image, first, g, t - 1, m, k);
    }
  }

  lemma {:induction false} SliceOfImage<T>(grids: seq<Grid>, embed: (nat, nat, Cell) -> T, n: nat)
    requires n < |grids|
    ensures var g, start := grids[n], |AllReadingOrder(grids[..n], embed)|;
            start + g.h * g.w <= |AllReadingOrder(grids, embed)|
            && 0 <= g.h * g.w
            && AllReadingOrder(grids, embed)[start..start + g.h * g.w] == ReadingOrder(g.h, g.w, embed)
  {
    hide ReadingOrder;
    var last := |grids| - 1;
    ReadingOrderCounted(grids[n].h, grids[n].w, embed);
    if n < last {
      SliceOfImage(grids[..last], embed, n);
      assert grids[..last][..n] == grids[..n];
    }
  }

  /** The position path: interpolate in reading order, cut out each image's rows, rearrange them. Row k is the
      embedding of the k-th token's cell in its own image's grid. */
  method PositionEmbeddings<T>(grids: seq<Grid>, m: nat, embed: (nat, nat, Cell) -> T) returns (rows: seq<T>)
    requires AllDivisible(grids, m)
    ensures |rows| == |TowerTokens(grids, m)|
    ensures forall k | 0 <= k < |rows| ::
              var x := TowerTokens(grids, m)[k];
              x.image < |grids| && rows[k] == embed(grids[x.image].h, grids[x.image].w, x.cell)
  {
    hide ReadingOrder, Rearranged;
    var all := Interpolate(grids, embed);
    rows := [];
    var start := 0;
    for n := 0 to |grids|
      invariant start == |AllReadingOrder(grids[..n], embed)|
      invariant |rows| == |TowerTokens(grids[..n], m)|
      invariant forall k | 0 <= k < |rows| ::
                  var x := TowerTokens(grids[..n], m)[k];
                  x.image < n && rows[k] == embed(grids[x.image].h, grids[x.image].w, x.cell)
    {
      var g := grids[n];
      SliceOfImage(grids, embed, n);
      ReadingOrderCounted(g.h, g.w, embed);
      var split := all[start..start + g.h * g.w];
      var here := Rearranged(split, g, m);
      ghost var first := FrameCount(grids[..n]);
      ImageTokensCounted(n, first, g, g.t, m);
      RearrangedCounted(split, g, m);
      forall k | 0 <= k < |here|
        ensures ImageTokens(n, first, g, g.t, m)[k].image == n
        ensures here[k] == embed(g.h, g.w, ImageTokens(n, first, g, g.t, m)[k].cell)
      {
        RearrangedIsTokenOrder(n, first, g, m, g.t, embed, k);
        TokensOfImage(n, first, g, g.t, m, k);
      }
      assert grids[..n + 1][..n] == grids[..n];
      rows := rows + here;
      start := start + g.h * g.w;
    }
    assert grids[..|grids|] == grids;
  }

  lemma RearrangedCounted<T>(rows: seq<T>, g: Grid, m: nat)
    requires Divisible(g.h, g.w, m) && |rows| == g.h * g.w
    ensures |Rearranged(rows, g, m)| == g.t * (g.h * g.w)
  {
    hide Product;
    SplitIsWhole(g, m);
    LeadingProduct(g.t, Blocks(g.h, g.w, m));
    AreaOfBlocks(g.h, g.w, m);
  }

  // ---------- frame boundaries ----------

  /** `build_cu_seqlens`: attention segment `s` is exactly frame `s`. */
  method BuildCuSeqlens(grids: seq<Grid>, m: nat) returns (cu: seq<nat>)
    requires AllDivisible(grids, m)
    ensures |cu| == FrameCount(grids) + 1
    ensures cu[0] == 0 && cu[|cu| - 1] == |TowerTokens(grids, m)|
    ensures forall s, k | 0 <= s < FrameCount(grids) && 0 <= k < |TowerTokens(grids, m)| ::
              cu[s] <= k < cu[s + 1] <==> TowerTokens(grids, m)[k].frame == s
  {
    hide Bounded, FrameTokens, CellOf, Product;
    cu := [0];
    var acc: nat := 0;
    ghost var seen: seq<Token> := [];
    NothingBounded();
    for n := 0 to |grids|
      invariant seen == TowerTokens(grids[..n], m) && |cu| == FrameCount(grids[..n]) + 1
      invariant Bounded(cu, seen, acc)
    {
      var g := grids[n];
      var area := g.h * g.w;
      ghost var first, before := FrameCount(grids[..n]), seen;
      AreaOfBlocks(g.h, g.w, m);
      for f := 0 to g.t
        invariant seen == before + ImageTokens(n, first, g, f, m) && |cu| == first + f + 1
        invariant Bounded(cu, seen, acc)
      {
        ghost var frame := FrameTokens(n, first + f, g.h, g.w, m);
        FrameTokensCounted(n, first + f, g.h, g.w, m);
        BoundaryAdded(cu, seen, acc, frame);
        acc := acc + area;
        cu := cu + [acc];
        seen := seen + frame;
        assert seen == before + ImageTokens(n, first, g, f + 1, m);
      }
      assert grids[..n + 1][..n] == grids[..n];
    }
    assert grids[..|grids|] == grids;
    BoundedMeans(cu, seen, acc);
  }

  lemma NothingBounded()
    ensures Bounded([0], [], 0)
  {
  }

  lemma FrameTokensCounted(image: nat, frame: nat, h: nat, w: nat, m: nat)
    requires Divisible(h, w, m)
    ensures |FrameTokens(image, frame, h, w, m)| == h * w
    ensures forall j | 0 <= j < h * w :: FrameTokens(image, frame, h, w, m)[j].frame == frame
  {
    AreaOfBlocks(h, w, m);
  }

  lemma BoundedMeans(cu: seq<nat>, seen: seq<Token>, acc: nat)
    requires Bounded(cu, seen, acc)
    ensures cu != [] && cu[0] == 0 && cu[|cu| - 1] == |seen|
    ensures forall s, k | 0 <= s < |cu| - 1 && 0 <= k < |seen| :: cu[s] <= k < cu[s + 1] <==> seen[k].frame == s
  {
  }

  /** The boundaries so far cut the rows so far into their frames. */
  ghost predicate Bounded(cu: seq<nat>, seen: seq<Token>, acc: nat) {
    && cu != [] && cu[0] == 0 && cu[|cu| - 1] == acc == |seen|
    && (forall s | 0 <= s < |cu| :: cu[s] <= acc)
    && (forall k | 0 <= k < |seen| :: seen[k].frame < |cu| - 1)
    && forall s, t, k | 0 <= s && t == s + 1 && t < |cu| && 0 <= k < |seen| ::
         cu[s] <= k < cu[t] <==> seen[k].frame == s
  }

  lemma BoundaryAdded(cu: seq<nat>, seen: seq<Token>, acc: nat, frame: seq<Token>)
    requires Bounded(cu, seen, acc)
    requires forall j | 0 <= j < |frame| :: frame[j].frame == |cu| - 1
    ensures Bounded(cu + [acc + |frame|], seen + frame, acc + |frame|)
  {
  }

  // ---------- cutting the patches ----------

  /** A resized picture; `at` gives the value at column `x`, row `y`, channel `c`. */
  datatype Picture<!P> = Picture(width: nat, height: nat, at: (nat, nat, nat) -> P)

  /** A read that the picture must cover. */
  function PixelAt<P>(picture: Picture<P>, x: nat, y: nat, c: nat): P
    requires x < picture.width && y < picture.height && c < 3
  {
    picture.at(x, y, c)
  }

  const CHANNELS: nat := 3

  /** The values of one patch: channel, temporal copy, row, column; `scale` is the per-channel normalization. */
  function PatchOf<P, V>(picture: Picture<P>, scale: (nat, P) -> V, ps: nat, tps: nat, cell: Cell): seq<V> {
    seq(Product([CHANNELS, tps, ps, ps]), k requires 0 <= k =>
      var d := Decode([CHANNELS, tps, ps, ps], k);
      scale(d[0], picture.at(cell.col * ps + d[3], cell.row * ps + d[2], d[0])))
  }

  function PatchesOf<P, V>(picture: Picture<P>, scale: (nat, P) -> V, ps: nat, tps: nat, cells: seq<Cell>): seq<V> {
    if cells == [] then []
    else
      PatchesOf(picture, scale, ps, tps, cells[..|cells| - 1])
      + PatchOf(picture, scale, ps, tps, cells[|cells| - 1])
  }

  lemma NoPatches<P, V>(picture: Picture<P>, scale: (nat, P) -> V, ps: nat, tps: nat)
    ensures PatchesOf(picture, scale, ps, tps, []) == []
  {
  }

  lemma PatchAppended<P, V>(picture: Picture<P>, scale: (nat, P) -> V, ps: nat, tps: nat, cells: seq<Cell>, cell: Cell)
    ensures PatchesOf(picture, scale, ps, tps, cells + [cell])
            == PatchesOf(picture, scale, ps, tps, cells) + PatchOf(picture, scale, ps, tps, cell)
  {
    assert (cells + [cell])[..|cells|] == cells;
  }

  function PatchDim(ps: nat, tps: nat): nat {
    Product([CHANNELS, tps, ps, ps])
  }

  /** Row k of a picture's patches is the patch of the k-th cell. */
  lemma {:induction false} PatchRow<P, V>(picture: Picture<P>, scale: (nat, P) -> V, ps: nat, tps: nat,
                                          cells: seq<Cell>, k: nat, i: nat)
    requires k < |cells| && i < PatchDim(ps, tps)
    ensures |PatchOf(picture, scale, ps, tps, cells[k])| == PatchDim(ps, tps)
    ensures 0 <= k * PatchDim(ps, tps) + i < |PatchesOf(picture, scale, ps, tps, cells)|
    ensures |PatchesOf(picture, scale, ps, tps, cells)| == |cells| * PatchDim(ps, tps)
    ensures PatchesOf(picture, scale, ps, tps, cells)[k * PatchDim(ps, tps) + i]
            == PatchOf(picture, scale, ps, tps, cells[k])[i]
  {
    hide PatchDim, PatchOf;
    var n, dim := |cells| - 1, PatchDim(ps, tps);
    PatchCounted(picture, scale, ps, tps, cells[n]);
    PatchCounted(picture, scale, ps, tps, cells[k]);
    PatchesCounted(picture, scale, ps, tps, cells[..n]);
    Distribute(n, 1, dim);
    Monotone(k, n, dim);
    if k < n {
      PatchRow(picture, scale, ps, tps, cells[..n], k, i);
    }
  }

  lemma PatchCounted<P, V>(picture: Picture<P>, scale: (nat, P) -> V, ps: nat, tps: nat, cell: Cell)
    ensures |PatchOf(picture, scale, ps, tps, cell)| == PatchDim(ps, tps)
  {
  }

  lemma {:induction false} PatchesCounted<P, V>(picture: Picture<P>, scale: (nat, P) -> V, ps: nat, tps: nat,
                                                cells: seq<Cell>)
    ensures |PatchesOf(picture, scale, ps, tps, cells)| == |cells| * PatchDim(ps, tps)
  {
    if cells != [] {
      var n := |cells| - 1;
      PatchesCounted(picture, scale, ps, tps, cells[..n]);
      PatchCounted(picture, scale, ps, tps, cells[n]);
      Distribute(n, 1, PatchDim(ps, tps));
    }
  }

  // ---------- which pixel a value is ----------

  lemma PatchSize(ps: nat, tps: nat)
    ensures PatchDim(ps, tps) == 3 * tps * ps * ps
  {
    PlaceIsEncoded(CHANNELS, tps, ps, ps, 0, 0, 0, 0);
  }

  lemma PlaceInPatch(ps: nat, tps: nat, c: nat, tp: nat, ph: nat, pw: nat)
    requires c < 3 && tp < tps && ph < ps && pw < ps
    ensures Place(tps, ps, ps, c, tp, ph, pw) < PatchDim(ps, tps)
  {
    hide Encode, Product, Place;
    PlaceIsEncoded(CHANNELS, tps, ps, ps, c, tp, ph, pw);
    EncodedWithin([CHANNELS, tps, ps, ps], [c, tp, ph, pw]);
  }

  lemma PatchValue<P, V>(picture: Picture<P>, scale: (nat, P) -> V, ps: nat, tps: nat, cell: Cell, c: nat, tp: nat,
                         ph: nat, pw: nat)
    requires c < 3 && tp < tps && ph < ps && pw < ps
    ensures var i := Place(tps, ps, ps, c, tp, ph, pw);
            && i < PatchDim(ps, tps) == |PatchOf(picture, scale, ps, tps, cell)|
            && PatchOf(picture, scale, ps, tps, cell)[i]
               == scale(c, picture.at(cell.col * ps + pw, cell.row * ps + ph, c))
  {
    hide Decode, Encode, Product, Place;
    PlaceInPatch(ps, tps, c, tp, ph, pw);
    PlaceIsDecoded(CHANNELS, tps, ps, ps, c, tp, ph, pw);
    PatchCounted(picture, scale, ps, tps, cell);
  }

  /** Row `k` of the tower shows, at channel `c`, temporal copy `tp`, row `ph` and column `pw` of its patch, the scaled
      pixel of its own token's picture inside its own token's cell. */
  ghost predicate ShowsPixel<P, V>(values: seq<V>, pictures: seq<Picture<P>>, tokens: seq<Token>,
                                   scale: (nat, P) -> V, ps: nat, tps: nat, k: nat, c: nat, tp: nat, ph: nat, pw: nat)
    requires k < |tokens|
  {
    var x := tokens[k];
    var i := k * (3 * tps * ps * ps) + ((c * tps + tp) * ps + ph) * ps + pw;
    && 0 <= i < |values| && x.image < |pictures|
    && values[i] == scale(c, pictures[x.image].at(x.cell.col * ps + pw, x.cell.row * ps + ph, c))
  }

  /** The values are exactly one patch per token, and each shows its pixel. */
  ghost predicate ShowsTokens<P, V>(values: seq<V>, pictures: seq<Picture<P>>, tokens: seq<Token>,
                                    scale: (nat, P) -> V, ps: nat, tps: nat)
  {
    && |values| == |tokens| * (3 * tps * ps * ps)
    && forall k: nat, c: nat, tp: nat, ph: nat, pw: nat |
         k < |tokens| && c < 3 && tp < tps && ph < ps && pw < ps ::
         ShowsPixel(values, pictures, tokens, scale, ps, tps, k, c, tp, ph, pw)
  }

  lemma PixelShown<P, V>(values: seq<V>, pictures: seq<Picture<P>>, tokens: seq<Token>, scale: (nat, P) -> V, ps: nat,
                         tps: nat, k: nat, c: nat, tp: nat, ph: nat, pw: nat)
    requires k < |tokens| && c < 3 && tp < tps && ph < ps && pw < ps && tokens[k].image < |pictures|
    requires var x, i := tokens[k], Place(tps, ps, ps, c, tp, ph, pw);
             var patch := PatchOf(pictures[x.image], scale, ps, tps, x.cell);
             i < |patch| && 0 <= k * PatchDim(ps, tps) + i < |values|
             && values[k * PatchDim(ps, tps) + i] == patch[i]
    ensures ShowsPixel(values, pictures, tokens, scale, ps, tps, k, c, tp, ph, pw)
  {
    hide PatchOf, PatchDim;
    PatchSize(ps, tps);
    PatchValue(pictures[tokens[k].image], scale, ps, tps, tokens[k].cell, c, tp, ph, pw);
  }

  /** One picture's patches. */
  lemma PatchesShowTokens<P, V>(picture: Picture<P>, scale: (nat, P) -> V, ps: nat, tps: nat, tokens: seq<Token>)
    requires forall k | 0 <= k < |tokens| :: tokens[k].image == 0
    ensures ShowsTokens(PatchesOf(picture, scale, ps, tps, CellsOf(tokens)), [picture], tokens, scale, ps, tps)
  {
    hide PatchOf, PatchDim, PatchesOf, ShowsPixel, Place;
    var values := PatchesOf(picture, scale, ps, tps, CellsOf(tokens));
    PatchSize(ps, tps);
    PatchesCounted(picture, scale, ps, tps, CellsOf(tokens));
    forall k: nat, c: nat, tp: nat, ph: nat, pw: nat | k < |tokens| && c < 3 && tp < tps && ph < ps && pw < ps
      ensures ShowsPixel(values, [picture], tokens, scale, ps, tps, k, c, tp, ph, pw)
    {
      PatchValue(picture, scale, ps, tps, tokens[k].cell, c, tp, ph, pw);
      PatchRow(picture, scale, ps, tps, CellsOf(tokens), k, Place(tps, ps, ps, c, tp, ph, pw));
      PixelShown(values, [picture], tokens, scale, ps, tps, k, c, tp, ph, pw);
    }
  }

  lemma OnePatchShows<P, V>(picture: Picture<P>, scale: (nat, P) -> V, ps: nat, tps: nat, cell: Cell)
    ensures ShowsTokens(PatchOf(picture, scale, ps, tps, cell), [picture], [Token(0, 0, cell)], scale, ps, tps)
  {
    hide PatchOf, PatchesOf, ShowsTokens;
    PatchesShowTokens(picture, scale, ps, tps, [Token(0, 0, cell)]);
    NoPatches(picture, scale, ps, tps);
    PatchAppended(picture, scale, ps, tps, [], cell);
    assert CellsOf([Token(0, 0, cell)]) == [] + [cell];
    assert [] + PatchOf(picture, scale, ps, tps, cell) == PatchOf(picture, scale, ps, tps, cell);
  }

  // ---------- the loops that cut them ----------

  /** The four inner loops of `preprocess_image`; every pixel read lies inside the picture. */
  method EmitPatch<P, V>(picture: Picture<P>, scale: (nat, P) -> V, ps: nat, tps: nat, gh: nat, gw: nat)
    returns (values: seq<V>)
    requires (gh + 1) * ps <= picture.height && (gw + 1) * ps <= picture.width
    ensures values == PatchOf(picture, scale, ps, tps, Cell(gh, gw))
    ensures ShowsTokens(values, [picture], [Token(0, 0, Cell(gh, gw))], scale, ps, tps)
  {
    hide Decode, Product, Place, ShowsTokens;
    OnePatchShows(picture, scale, ps, tps, Cell(gh, gw));
    ghost var full := PatchOf(picture, scale, ps, tps, Cell(gh, gw));
    values := [];
    PlaceIsEncoded(CHANNELS, tps, ps, ps, 0, 0, 0, 0);
    PlaceOfZero(tps, ps, ps);
    Distribute(gh, 1, ps);
    Distribute(gw, 1, ps);
    for c := 0 to CHANNELS
      invariant |values| == Place(tps, ps, ps, c, 0, 0, 0)
      invariant forall k | 0 <= k < |values| && k < |full| :: values[k] == full[k]
    {
      for tp := 0 to tps
        invariant |values| == Place(tps, ps, ps, c, tp, 0, 0)
        invariant forall k | 0 <= k < |values| && k < |full| :: values[k] == full[k]
      {
        for ph := 0 to ps
          invariant |values| == Place(tps, ps, ps, c, tp, ph, 0)
          invariant forall k | 0 <= k < |values| && k < |full| :: values[k] == full[k]
        {
          for pw := 0 to ps
            invariant |values| == Place(tps, ps, ps, c, tp, ph, pw)
            invariant forall k | 0 <= k < |values| && k < |full| :: values[k] == full[k]
          {
            var y, x := gh * ps + ph, gw * ps + pw;
            PlaceIsDecoded(CHANNELS, tps, ps, ps, c, tp, ph, pw);
            PlaceAdvances(tps, ps, ps, c, tp, ph, pw);
            values := values + [scale(c, PixelAt(picture, x, y, c))];
          }
          Carries(tps, ps, ps, c, tp, ph);
        }
        Carries(tps, ps, ps, c, tp, 0);
      }
      Carries(tps, ps, ps, c, 0, 0);
    }
  }

  lemma FramePatchesShow<P, V>(picture: Picture<P>, scale: (nat, P) -> V, ps: nat, tps: nat, m: nat)
    requires ps > 0 && m > 0
    ensures var h, w := picture.height / ps, picture.width / ps;
            ShowsTokens(PatchesOf(picture, scale, ps, tps, FrameCells(h, w, m)), [picture], FrameTokens(0, 0, h, w, m),
                        scale, ps, tps)
  {
    hide PatchesOf, CellOf, Product, ShowsTokens;
    var h, w := picture.height / ps, picture.width / ps;
    assert CellsOf(FrameTokens(0, 0, h, w, m)) == FrameCells(h, w, m);
    PatchesShowTokens(picture, scale, ps, tps, FrameTokens(0, 0, h, w, m));
  }

  datatype Prepared<V> = Prepared(pixelValues: seq<V>, grid: Grid, llmTokens: nat)

  /** The block loops of `preprocess_image`. */
  method EmitPatches<P, V>(picture: Picture<P>, scale: (nat, P) -> V, ps: nat, tps: nat, m: nat)
    returns (values: seq<V>)
    requires ps > 0 && Divisible(picture.height / ps, picture.width / ps, m)
    ensures values == PatchesOf(picture, scale, ps, tps, FrameCells(picture.height / ps, picture.width / ps, m))
    ensures var frame := FrameTokens(0, 0, picture.height / ps, picture.width / ps, m);
            ShowsTokens(values, [picture], frame, scale, ps, tps)
  {
    hide CellOf, Product, Place, PatchesOf, ShowsTokens;
    FramePatchesShow(picture, scale, ps, tps, m);
    var h, w := picture.height / ps, picture.width / ps;
    var bh, bw := h / m, w / m;
    values := [];
    ghost var cells: seq<Cell> := [];
    NoPatches(picture, scale, ps, tps);
    PlaceIsEncoded(bh, bw, m, m, 0, 0, 0, 0);
    PlaceOfZero(bw, m, m);
    for ghBlock := 0 to bh
      invariant |cells| == Place(bw, m, m, ghBlock, 0, 0, 0)
      invariant values == PatchesOf(picture, scale, ps, tps, cells)
      invariant forall k | 0 <= k < |cells| :: cells[k] == CellOf(h, w, m, k)
    {
      for gwBlock := 0 to bw
        invariant |cells| == Place(bw, m, m, ghBlock, gwBlock, 0, 0)
        invariant values == PatchesOf(picture, scale, ps, tps, cells)
        invariant forall k | 0 <= k < |cells| :: cells[k] == CellOf(h, w, m, k)
      {
        for mh := 0 to m
          invariant |cells| == Place(bw, m, m, ghBlock, gwBlock, mh, 0)
          invariant values == PatchesOf(picture, scale, ps, tps, cells)
          invariant forall k | 0 <= k < |cells| :: cells[k] == CellOf(h, w, m, k)
        {
          for mw := 0 to m
            invariant |cells| == Place(bw, m, m, ghBlock, gwBlock, mh, mw)
            invariant values == PatchesOf(picture, scale, ps, tps, cells)
            invariant forall k | 0 <= k < |cells| :: cells[k] == CellOf(h, w, m, k)
          {
            var gh, gw := ghBlock * m + mh, gwBlock * m + mw;
            CellAtPlace(h, w, m, ghBlock, gwBlock, mh, mw);
            PatchInPicture(ghBlock, mh, m, ps, picture.height);
            PatchInPicture(gwBlock, mw, m, ps, picture.width);
            var patch := EmitPatch(picture, scale, ps, tps, gh, gw);
            values := values + patch;
            PatchAppended(picture, scale, ps, tps, cells, Cell(gh, gw));
            cells := cells + [Cell(gh, gw)];
          }
          Carries(bw, m, m, ghBlock, gwBlock, mh);
        }
        Carries(bw, m, m, ghBlock, gwBlock, 0);
      }
      Carries(bw, m, m, ghBlock, 0, 0);
    }
    assert cells == FrameCells(h, w, m);
  }

  /** `preprocess_image` from the resized picture on: one frame whose patches follow the tower's order, and an
      error exactly when a size is zero or the grid does not split into merge blocks. */
  method PreprocessImage<P, V>(picture: Picture<P>, scale: (nat, P) -> V, ps: nat, tps: nat, m: nat)
    returns (r: Option<Prepared<V>>)
    ensures r.Some? <==> ps > 0 && tps > 0 && Divisible(picture.height / ps, picture.width / ps, m)
    ensures r.Some? ==>
              var h, w := picture.height / ps, picture.width / ps;
              r.value.grid == Grid(1, h, w)
              && r.value.pixelValues == PatchesOf(picture, scale, ps, tps, CellsOf(TowerTokens([r.value.grid], m)))
              && ShowsTokens(r.value.pixelValues, [picture], TowerTokens([r.value.grid], m), scale, ps, tps)
              && r.value.llmTokens * (m * m) == h * w
              && r.value.llmTokens == (h / m) * (w / m)
  {
    if ps == 0 || tps == 0 || m == 0 {
      return None;
    }
    var h, w := picture.height / ps, picture.width / ps;
    if h % m != 0 || w % m != 0 {
      return None;
    }
    hide ShowsTokens, PatchesOf, TowerTokens, FrameTokens, FrameCells, CellsOf;
    var values := EmitPatches(picture, scale, ps, tps, m);
    OneFrame(Grid(1, h, w), m);
    MergedTokens(h, w, m);
    r := Some(Prepared(values, Grid(1, h, w), h * w / (m * m)));
  }

  lemma PatchInPicture(block: nat, i: nat, m: nat, ps: nat, side: nat)
    requires ps > 0 && m > 0 && side / ps % m == 0 && block < side / ps / m && i < m
    ensures (block * m + i + 1) * ps <= side
  {
    InBlock(block, side / ps / m, i, m);
    Monotone(block * m + i + 1, side / ps, ps);
  }

  lemma OneFrame(g: Grid, m: nat)
    requires m > 0 && g.t == 1
    ensures TowerTokens([g], m) == FrameTokens(0, 0, g.h, g.w, m)
    ensures CellsOf(TowerTokens([g], m)) == FrameCells(g.h, g.w, m)
  {
    hide CellOf, Product;
    assert [g][..0] == [];
    assert ImageTokens(0, 0, g, 1, m) == ImageTokens(0, 0, g, 0, m) + FrameTokens(0, 0, g.h, g.w, m);
    assert TowerTokens([g], m) == FrameTokens(0, 0, g.h, g.w, m);
  }

  lemma MergedTokens(h: nat, w: nat, m: nat)
    requires Divisible(h, w, m)
    ensures 0 <= h * w / (m * m) == (h / m) * (w / m)
    ensures h * w / (m * m) * (m * m) == h * w
  {
    var bh, bw := h / m, w / m;
    assert h * w == bh * bw * (m * m) by {
      Associate(bh, m, bw * m);
      Associate(m, bw, m);
      Associate(bw, m, m);
      Associate(bh, bw, m * m);
    }
    QuotientIsUnique(h * w, m * m, bh * bw, 0);
  }

  /** The pixel rows the tower is fed: the pictures' patches one picture after the other. */
  function Stacked<P, V>(pictures: seq<Picture<P>>, scale: (nat, P) -> V, ps: nat, tps: nat, m: nat): seq<V>
    requires ps > 0 && m > 0
  {
    if pictures == [] then []
    else
      var last := pictures[|pictures| - 1];
      Stacked(pictures[..|pictures| - 1], scale, ps, tps, m)
      + PatchesOf(last, scale, ps, tps, FrameCells(last.height / ps, last.width / ps, m))
  }

  function GridsOf<P>(pictures: seq<Picture<P>>, ps: nat): seq<Grid>
    requires ps > 0
  {
    seq(|pictures|, n requires 0 <= n < |pictures| => Grid(1, pictures[n].height / ps, pictures[n].width / ps))
  }

  lemma {:induction false} StackedRow<P, V>(pictures: seq<Picture<P>>, scale: (nat, P) -> V, ps: nat, tps: nat, m: nat,
                                            k: nat, i: nat)
    requires ps > 0 && m > 0
    requires k < |TowerTokens(GridsOf(pictures, ps), m)| && i < PatchDim(ps, tps)
    ensures |Stacked(pictures, scale, ps, tps, m)| == |TowerTokens(GridsOf(pictures, ps), m)| * PatchDim(ps, tps)
    ensures 0 <= k * PatchDim(ps, tps) + i < |Stacked(pictures, scale, ps, tps, m)|
    ensures var x := TowerTokens(GridsOf(pictures, ps), m)[k];
            x.image < |pictures|
            && |PatchOf(pictures[x.image], scale, ps, tps, x.cell)| == PatchDim(ps, tps)
            && Stacked(pictures, scale, ps, tps, m)[k * PatchDim(ps, tps) + i]
               == PatchOf(pictures[x.image], scale, ps, tps, x.cell)[i]
  {
    hide PatchDim, PatchOf, PatchesOf, FrameCells, FrameTokens;
    var n, dim := |pictures| - 1, PatchDim(ps, tps);
    var front, here := pictures[..n], GridsOf(pictures, ps)[n];
    assert GridsOf(pictures, ps)[..n] == GridsOf(front, ps);
    var before, cells := TowerTokens(GridsOf(front, ps), m), FrameCells(here.h, here.w, m);
    var tokens := FrameTokens(n, FrameCount(GridsOf(front, ps)), here.h, here.w, m);
    SingleFrame(n, FrameCount(GridsOf(front, ps)), here, m);
    FrameCellsOfTokens(n, FrameCount(GridsOf(front, ps)), here.h, here.w, m);
    StackedCounted(front, scale, ps, tps, m);
    PatchesCounted(pictures[n], scale, ps, tps, cells);
    Distribute(|before|, |cells|, dim);
    if k < |before| {
      StackedRow(front, scale, ps, tps, m, k, i);
    } else {
      var j := k - |before|;
      Distribute(|before|, j, dim);
      PatchRow(pictures[n], scale, ps, tps, cells, j, i);
      TokensOfImage(n, FrameCount(GridsOf(front, ps)), here, 1, m, j);
    }
  }

  /** Row k of the stacked pixels is cut from the k-th token's own picture at the k-th token's own cell, which is
      the cell `RotaryCoords` lists and `PositionEmbeddings` embeds at row k; value by value. */
  lemma PixelRowsFollowTheTokens<P, V>(pictures: seq<Picture<P>>, scale: (nat, P) -> V, ps: nat, tps: nat, m: nat)
    requires ps > 0 && m > 0
    ensures var tokens := TowerTokens(GridsOf(pictures, ps), m);
            ShowsTokens(Stacked(pictures, scale, ps, tps, m), pictures, tokens, scale, ps, tps)
  {
    hide PatchOf, PatchDim, Stacked, TowerTokens, ShowsPixel, Place;
    var values, tokens := Stacked(pictures, scale, ps, tps, m), TowerTokens(GridsOf(pictures, ps), m);
    PatchSize(ps, tps);
    StackedCounted(pictures, scale, ps, tps, m);
    forall k: nat, c: nat, tp: nat, ph: nat, pw: nat | k < |tokens| && c < 3 && tp < tps && ph < ps && pw < ps
      ensures ShowsPixel(values, pictures, tokens, scale, ps, tps, k, c, tp, ph, pw)
    {
      var i := Place(tps, ps, ps, c, tp, ph, pw);
      PlaceInPatch(ps, tps, c, tp, ph, pw);
      StackedRow(pictures, scale, ps, tps, m, k, i);
      PixelShown(values, pictures, tokens, scale, ps, tps, k, c, tp, ph, pw);
    }
  }

  lemma SingleFrame(image: nat, first: nat, g: Grid, m: nat)
    requires m > 0
    ensures ImageTokens(image, first, g, 1, m) == FrameTokens(image, first, g.h, g.w, m)
  {
    assert ImageTokens(image, first, g, 1, m)
        == ImageTokens(image, first, g, 0, m) + FrameTokens(image, first, g.h, g.w, m);
  }

  lemma StackedUnrolls<P, V>(pictures: seq<Picture<P>>, scale: (nat, P) -> V, ps: nat, tps: nat, m: nat)
    requires ps > 0 && m > 0 && pictures != []
    ensures var n := |pictures| - 1;
            var front, h, w := pictures[..n], pictures[n].height / ps, pictures[n].width / ps;
            Stacked(pictures, scale, ps, tps, m)
            == Stacked(front, scale, ps, tps, m) + PatchesOf(pictures[n], scale, ps, tps, FrameCells(h, w, m))
            && |TowerTokens(GridsOf(pictures, ps), m)| == |TowerTokens(GridsOf(front, ps), m)| + |FrameCells(h, w, m)|
  {
    hide PatchesOf, FrameCells, FrameTokens;
    var n := |pictures| - 1;
    var front, here := pictures[..n], GridsOf(pictures, ps)[n];
    assert GridsOf(pictures, ps)[..n] == GridsOf(front, ps);
    SingleFrame(n, FrameCount(GridsOf(front, ps)), here, m);
    FrameCellsOfTokens(n, FrameCount(GridsOf(front, ps)), here.h, here.w, m);
  }

  lemma {:induction false} StackedCounted<P, V>(pictures: seq<Picture<P>>, scale: (nat, P) -> V, ps: nat, tps: nat,
                                                m: nat)
    requires ps > 0 && m > 0
    ensures |Stacked(pictures, scale, ps, tps, m)| == |TowerTokens(GridsOf(pictures, ps), m)| * PatchDim(ps, tps)
  {
    if pictures != [] {
      hide PatchDim, PatchesOf, FrameCells, GridsOf, TowerTokens, Stacked;
      var n := |pictures| - 1;
      var front, cells := pictures[..n], FrameCells(pictures[n].height / ps, pictures[n].width / ps, m);
      StackedUnrolls(pictures, scale, ps, tps, m);
      StackedCounted(front, scale, ps, tps, m);
      PatchesCounted(pictures[n], scale, ps, tps, cells);
      Distribute(|TowerTokens(GridsOf(front, ps), m)|, |cells|, PatchDim(ps, tps));
    }
  }
}
