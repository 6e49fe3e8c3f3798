/** Channel-interleaved addressing of the dense operands.

    A dense matrix with `rows` rows is stored column-major on the host
    (element `(r, n)` at `r + rows * n`). For the accelerator it is split over
    several per-channel buffers: columns go to channels round-robin, and every
    block of 8 consecutive columns occupies one `ColumnSize(rows)`-long stretch
    of each channel's buffer. Matrix B uses the four- or the eight-channel
    scheme; matrix C always uses the eight-channel one. */
module Channels {
  import opened Alignment

  datatype Option<T> = None | Some(value: T)

  /** A logical element: its row and its column. */
  datatype Cell = Cell(row: nat, col: nat)

  /** A physical location: a channel and an offset in that channel's buffer. */
  datatype Slot = Slot(channel: nat, pos: nat)

  /** The two interleaving schemes, named by their number of channels. */
  datatype Interleave = FourChannel | EightChannel

  function ChannelCount(layout: Interleave): nat
  {
    match layout
    case FourChannel => 4
    case EightChannel => 8
  }

  /** The per-channel stride of one 8-column block: `((rows + 7) / 8) * 8 * 2`
      with four channels (each channel holds two interleaved columns of the
      block), `((rows + 15) / 16) * 16` with eight. */
  function ColumnSize(layout: Interleave, rows: nat): (d: nat)
    ensures d % 16 == 0
    ensures rows == 0 <==> d == 0
    ensures layout == EightChannel ==> rows <= d < rows + 16
    ensures layout == FourChannel ==> 2 * rows <= d < 2 * rows + 16
  {
    match layout
    case FourChannel => RoundUp(rows, 8) * 2
    case EightChannel => RoundUp(rows, 16)
  }

  /** Offset of element `(r, n)` inside its channel's block. */
  function InBlock(layout: Interleave, r: nat, n: nat): nat
  {
    match layout
    case FourChannel => (r / 8) * 16 + (n % 2) * 8 + r % 8
    case EightChannel => r
  }

  /** The channel that serves column `n`: `(n / 2) % 4` with four channels
      (two adjacent columns per channel), `n % 8` with eight. */
  function ChannelOf(layout: Interleave, n: nat): nat
  {
    match layout
    case FourChannel => (n / 2) % 4
    case EightChannel => n % 8
  }

  /** Where the host writes element `(r, n)`. */
  function Address(layout: Interleave, rows: nat, r: nat, n: nat): (s: Slot)
    ensures s.channel < ChannelCount(layout)
  {
    MulMonotone(n / 8, 0, ColumnSize(layout, rows));
    Slot(ChannelOf(layout, n), InBlock(layout, r, n) + ColumnSize(layout, rows) * (n / 8))
  }

  /** The element a slot at in-block offset `w` of block `block` of channel
      `channel` would hold: the inverse of `InBlock` and of the channel
      assignment. */
  function Unpack(layout: Interleave, channel: nat, block: nat, w: nat): Cell
  {
    match layout
    case FourChannel => Cell((w / 16) * 8 + w % 8, block * 8 + channel * 2 + (w / 8) % 2)
    case EightChannel => Cell(w, block * 8 + channel)
  }

  /** The logical element stored at slot `s` of a `rows` x `cols` matrix, or
      `None` when `s` is padding. */
  function Locate(layout: Interleave, rows: nat, cols: nat, s: Slot): (c: Option<Cell>)
    ensures c.Some? ==> c.value.row < rows && c.value.col < cols
  {
    var d := ColumnSize(layout, rows);
    if s.channel >= ChannelCount(layout) || d == 0 then None
    else
      var cell := Unpack(layout, s.channel, Block(s.pos, d), Offset(s.pos, d));
      if cell.row < rows && cell.col < cols then Some(cell) else None
  }

  function Block(pos: nat, d: nat): nat
    requires d > 0
  {
    pos / d
  }

  function Offset(pos: nat, d: nat): (w: nat)
    requires d > 0
    ensures w < d
  {
    pos % d
  }

  /** Column-major host index of element `(r, n)`: `r + rows * n`. */
  function Flat(rows: nat, r: nat, n: nat): nat
  {
    r + rows * n
  }

  lemma {:induction false} FlatInRange(rows: nat, cols: nat, r: nat, n: nat)
    requires r < rows && n < cols
    ensures Flat(rows, r, n) < rows * cols
  {
    MulMonotone(rows, n + 1, cols);
  }

  lemma {:induction false} FlatInjective(rows: nat, r: nat, n: nat, r': nat, n': nat)
    requires r < rows && r' < rows
    requires Flat(rows, r, n) == Flat(rows, r', n')
    ensures r == r' && n == n'
  {
    DivModOf(r, rows, n);
    DivModOf(r', rows, n');
    assert Flat(rows, r, n) == r + rows * n;
  }

  /** Splitting `w + d * q` with `w < d` by `d` gives back `q` and `w`. */
  lemma {:induction false} DivModOf(w: nat, d: nat, q: nat)
    requires w < d
    ensures Block(w + d * q, d) == q && Offset(w + d * q, d) == w
  {
    var p := w + d * q;
    var q', w' := p / d, p % d;
    assert p == q' * d + w';
    if q' < q {
      MulMonotone(d, q' + 1, q);
    } else if q' > q {
      MulMonotone(d, q + 1, q');
    }
  }

  lemma SplitOf(p: nat, d: nat)
    requires d > 0
    ensures p == Offset(p, d) + d * Block(p, d)
  {
  }

  lemma BlockBound(w: nat, d: nat, q: nat, bound: nat)
    requires w < d && q < bound
    ensures w + d * q < d * bound
  {
    MulMonotone(d, q + 1, bound);
  }

  lemma InBlockBound(layout: Interleave, rows: nat, r: nat, n: nat)
    requires r < rows
    ensures InBlock(layout, r, n) < ColumnSize(layout, rows)
  {
    if layout == FourChannel {
      var t := RoundUp(rows, 8) / 8;
      assert RoundUp(rows, 8) == t * 8;
      assert r / 8 < t;
    }
  }

  /** Every element of a `rows` x `cols` matrix, `cols` a multiple of 8, is
      written to an existing channel and below `ColumnSize(rows) * (cols / 8)`,
      the per-channel transfer size. */
  lemma {:induction false} AddressInBounds(layout: Interleave, rows: nat, cols: nat, r: nat, n: nat)
    requires r < rows && n < cols && cols % 8 == 0
    ensures Address(layout, rows, r, n).channel < ChannelCount(layout)
    ensures Address(layout, rows, r, n).pos < ColumnSize(layout, rows) * (cols / 8)
  {
    InBlockBound(layout, rows, r, n);
    BlockBound(InBlock(layout, r, n), ColumnSize(layout, rows), n / 8, cols / 8);
  }

  /** `16 * a + 8 * par + e` with `par < 2` and `e < 8` splits back into its
      three digits. */
  lemma SplitSlot(a: nat, par: nat, e: nat)
    requires par < 2 && e < 8
    ensures (16 * a + 8 * par + e) / 16 == a
    ensures (16 * a + 8 * par + e) % 8 == e
    ensures ((16 * a + 8 * par + e) / 8) % 2 == par
  {
    var w := 16 * a + 8 * par + e;
    assert w / 8 == 2 * a + par;
  }

  /** Every in-block offset is `16 * a + 8 * par + e` for its own digits. */
  lemma JoinSlot(w: nat)
    ensures w == 16 * (w / 16) + 8 * ((w / 8) % 2) + w % 8
  {
    var h := w / 8;
    assert w == 8 * h + w % 8;
    assert h == 2 * (h / 2) + h % 2;
    assert h / 2 == w / 16;
  }

  /** `8 * block + 2 * channel + par` with `channel < 4` and `par < 2` splits
      back into its three digits. */
  lemma SplitColumn(block: nat, channel: nat, par: nat)
    requires channel < 4 && par < 2
    ensures (8 * block + 2 * channel + par) / 8 == block
    ensures (8 * block + 2 * channel + par) % 2 == par
    ensures ((8 * block + 2 * channel + par) / 2) % 4 == channel
  {
    var n := 8 * block + 2 * channel + par;
    assert n / 2 == 4 * block + channel;
  }

  /** Every column is `8 * block + 2 * channel + par` for its own digits. */
  lemma JoinColumn(n: nat)
    ensures n == 8 * (n / 8) + 2 * ((n / 2) % 4) + n % 2
  {
    var h := n / 2;
    assert n == 2 * h + n % 2;
    assert h == 4 * (h / 4) + h % 4;
    assert h / 4 == n / 8;
  }

  /** `8 * a + e` with `e < 8` splits back into `a` and `e`. */
  lemma SplitRow(a: nat, e: nat)
    requires e < 8
    ensures (8 * a + e) / 8 == a && (8 * a + e) % 8 == e
  {
  }

  lemma UnpackInBlock(layout: Interleave, r: nat, n: nat)
    ensures Unpack(layout, ChannelOf(layout, n), n / 8, InBlock(layout, r, n)) == Cell(r, n)
  {
    if layout == FourChannel {
      SplitSlot(r / 8, n % 2, r % 8);
      JoinColumn(n);
    }
  }

  lemma InBlockUnpack(layout: Interleave, channel: nat, block: nat, w: nat)
    requires channel < ChannelCount(layout)
    ensures var c := Unpack(layout, channel, block, w);
      c.col / 8 == block && InBlock(layout, c.row, c.col) == w && ChannelOf(layout, c.col) == channel
  {
    if layout == FourChannel {
      JoinSlot(w);
      SplitRow(w / 16, w % 8);
      SplitColumn(block, channel, (w / 8) % 2);
    }
  }

  /** Decoding the address of a valid element gives back that element. */
  lemma {:induction false} LocateAddress(layout: Interleave, rows: nat, cols: nat, r: nat, n: nat)
    requires r < rows && n < cols
    ensures Locate(layout, rows, cols, Address(layout, rows, r, n)) == Some(Cell(r, n))
  {
    var d := ColumnSize(layout, rows);
    var w := InBlock(layout, r, n);
    var s := Address(layout, rows, r, n);
    assert s.channel == ChannelOf(layout, n) < ChannelCount(layout);
    assert s.pos == w + d * (n / 8);
    InBlockBound(layout, rows, r, n);
    DivModOf(w, d, n / 8);
    UnpackInBlock(layout, r, n);
    assert Unpack(layout, s.channel, Block(s.pos, d), Offset(s.pos, d)) == Cell(r, n);
  }

  /** Every slot that decodes to an element is that element's address. */
  lemma {:induction false} AddressLocate(layout: Interleave, rows: nat, cols: nat, s: Slot)
    requires Locate(layout, rows, cols, s).Some?
    ensures Address(layout, rows, Locate(layout, rows, cols, s).value.row, Locate(layout, rows, cols, s).value.col) == s
  {
    var d := ColumnSize(layout, rows);
    SplitOf(s.pos, d);
    InBlockUnpack(layout, s.channel, Block(s.pos, d), Offset(s.pos, d));
  }

  /** Distinct elements never share a slot. */
  lemma {:induction false} AddressInjective(layout: Interleave, rows: nat, cols: nat, r: nat, n: nat, r': nat, n': nat)
    requires r < rows && n < cols && r' < rows && n' < cols
    requires Address(layout, rows, r, n) == Address(layout, rows, r', n')
    ensures r == r' && n == n'
  {
    LocateAddress(layout, rows, cols, r, n);
    LocateAddress(layout, rows, cols, r', n');
  }

  /** The content of slot `s` once the host has encoded `mat` (column-major,
      `rows` x `cols`) into zero-initialised channel buffers. */
  function Encoded(layout: Interleave, rows: nat, cols: nat, mat: seq<real>, s: Slot): real
    requires |mat| == rows * cols
  {
    match Locate(layout, rows, cols, s)
    case Some(c) => FlatInRange(rows, cols, c.row, c.col); mat[Flat(rows, c.row, c.col)]
    case None => 0.0
  }

  /** Round trip: reading an encoded buffer at an element's address yields
      that element. */
  lemma {:induction false} EncodedAtAddress(layout: Interleave, rows: nat, cols: nat, mat: seq<real>, r: nat, n: nat)
    requires |mat| == rows * cols && r < rows && n < cols
    ensures Flat(rows, r, n) < |mat|
    ensures Encoded(layout, rows, cols, mat, Address(layout, rows, r, n)) == mat[Flat(rows, r, n)]
  {
    FlatInRange(rows, cols, r, n);
    LocateAddress(layout, rows, cols, r, n);
  }

  /** Padding isolation: a slot that is no element's address keeps its zero. */
  lemma {:induction false} EncodedPadding(layout: Interleave, rows: nat, cols: nat, mat: seq<real>, s: Slot)
    requires |mat| == rows * cols
    requires forall r: nat, n: nat :: r < rows && n < cols ==> Address(layout, rows, r, n) != s
    ensures Encoded(layout, rows, cols, mat, s) == 0.0
  {
    if Locate(layout, rows, cols, s).Some? {
      AddressLocate(layout, rows, cols, s);
      assert false;
    }
  }
}
