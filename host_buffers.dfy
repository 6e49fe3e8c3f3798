/** The host's preparation of the accelerator's input buffers: padded sizes,
    the zero-filled edge-list pointer buffer, the channel-interleaved copies
    of B and C, and the read-back of the result C. */
module HostBuffers {
  import opened Alignment
  import opened Channels

  /** `edge_list_ptr_fpga_size`: the pointer count padded to 16. */
  function EdgeListPtrFpgaSize(size: nat): (r: nat)
    ensures r % 16 == 0 && size <= r < size + 16
  {
    RoundUp(size, 16)
  }

  /** `edge_list_ptr_fpga_chunk_size`: the padded pointer count padded again
      to the 1024-word transfer chunk. */
  function EdgeListPtrChunkSize(size: nat): (r: nat)
    ensures r % 1024 == 0
    ensures size <= EdgeListPtrFpgaSize(size) <= r < EdgeListPtrFpgaSize(size) + 1024
  {
    RoundUp(EdgeListPtrFpgaSize(size), 1024)
  }

  /** Copies the edge-list pointers read from the tiled-matrix file into a
      zero-filled buffer of `EdgeListPtrChunkSize` words; every word past the
      pointers stays 0. */
  method FillEdgeListPtr(words: seq<U32>) returns (fpga: array<U32>)
    ensures fresh(fpga)
    ensures fpga.Length == EdgeListPtrChunkSize(|words|)
    ensures forall i :: 0 <= i < |words| ==> fpga[i] == words[i]
    ensures forall i :: |words| <= i < fpga.Length ==> fpga[i] == 0
  {
    fpga := new U32[EdgeListPtrChunkSize(|words|)](_ => 0);
    var i := 0;
    while i < |words|
      invariant 0 <= i <= |words|
      invariant forall j :: 0 <= j < i ==> fpga[j] == words[j]
      invariant forall j :: i <= j < fpga.Length ==> fpga[j] == 0
    {
      fpga[i] := words[i];
      i := i + 1;
    }
  }

  /** The number of words of one channel that a dense buffer transfers:
      one column stride per block of 8 columns. */
  function TransferSize(layout: Interleave, rows: nat, cols: nat): nat
  {
    ColumnSize(layout, rows) * (cols / 8)
  }

  /** The allocated length of each channel buffer: the transfer size padded to
      the 1024-word chunk. */
  function ChunkSize(layout: Interleave, rows: nat, cols: nat): (r: nat)
    ensures r % 1024 == 0
    ensures TransferSize(layout, rows, cols) <= r < TransferSize(layout, rows, cols) + 1024
  {
    RoundUp(TransferSize(layout, rows, cols), 1024)
  }

  /** Every element's address lies inside the transfer size, and so inside
      the allocated chunk, of an existing channel. */
  lemma {:induction false} AddressInChunk(layout: Interleave, rows: nat, cols: nat, r: nat, n: nat)
    requires r < rows && n < cols && cols % 8 == 0
    ensures Address(layout, rows, r, n).channel < ChannelCount(layout)
    ensures Address(layout, rows, r, n).pos < TransferSize(layout, rows, cols) <= ChunkSize(layout, rows, cols)
  {
    AddressInBounds(layout, rows, cols, r, n);
  }

  /** The buffer content after the elements whose host index is below `done`
      have been copied: the loop invariant of `EncodeDense`. */
  function EncodedUpTo(layout: Interleave, rows: nat, cols: nat, mat: seq<real>, done: nat, s: Slot): real
    requires |mat| == rows * cols
  {
    match Locate(layout, rows, cols, s)
    case Some(c) =>
      FlatInRange(rows, cols, c.row, c.col);
      if Flat(rows, c.row, c.col) < done then mat[Flat(rows, c.row, c.col)] else 0.0
    case None => 0.0
  }

  /** Copying element `(r, n)` changes exactly its own slot. */
  lemma {:induction false} EncodedStep(layout: Interleave, rows: nat, cols: nat, mat: seq<real>, r: nat, n: nat, s: Slot)
    requires |mat| == rows * cols && r < rows && n < cols
    ensures Flat(rows, r, n) < |mat|
    ensures EncodedUpTo(layout, rows, cols, mat, Flat(rows, r, n) + 1, s)
         == if s == Address(layout, rows, r, n) then mat[Flat(rows, r, n)]
            else EncodedUpTo(layout, rows, cols, mat, Flat(rows, r, n), s)
  {
    FlatInRange(rows, cols, r, n);
    if s == Address(layout, rows, r, n) {
      LocateAddress(layout, rows, cols, r, n);
    } else if Locate(layout, rows, cols, s).Some? {
      var c := Locate(layout, rows, cols, s).value;
      if Flat(rows, c.row, c.col) == Flat(rows, r, n) {
        FlatInjective(rows, c.row, c.col, r, n);
        AddressLocate(layout, rows, cols, s);
        assert false;
      }
    }
  }

  lemma {:induction false} EncodedUpToAll(layout: Interleave, rows: nat, cols: nat, mat: seq<real>, s: Slot)
    requires |mat| == rows * cols
    ensures EncodedUpTo(layout, rows, cols, mat, rows * cols, s) == Encoded(layout, rows, cols, mat, s)
  {
    if Locate(layout, rows, cols, s).Some? {
      var c := Locate(layout, rows, cols, s).value;
      FlatInRange(rows, cols, c.row, c.col);
    }
  }

  /** Allocates one zero-filled chunk per channel and copies the column-major
      `rows` x `cols` matrix `mat` into it, column by column. */
  method EncodeDense(layout: Interleave, rows: nat, cols: nat, mat: seq<real>) returns (bufs: array2<real>)
    requires |mat| == rows * cols && cols % 8 == 0
    ensures fresh(bufs)
    ensures bufs.Length0 == ChannelCount(layout) && bufs.Length1 == ChunkSize(layout, rows, cols)
    ensures forall c, p :: 0 <= c < bufs.Length0 && 0 <= p < bufs.Length1 ==>
      bufs[c, p] == Encoded(layout, rows, cols, mat, Slot(c, p))
  {
    bufs := new real[ChannelCount(layout), ChunkSize(layout, rows, cols)]((c, p) => 0.0);
    var nn := 0;
    while nn < cols
      invariant 0 <= nn <= cols
      invariant forall c, p :: 0 <= c < bufs.Length0 && 0 <= p < bufs.Length1 ==>
        bufs[c, p] == EncodedUpTo(layout, rows, cols, mat, Flat(rows, 0, nn), Slot(c, p))
    {
      var kk := 0;
      while kk < rows
        invariant 0 <= kk <= rows
        invariant forall c, p :: 0 <= c < bufs.Length0 && 0 <= p < bufs.Length1 ==>
          bufs[c, p] == EncodedUpTo(layout, rows, cols, mat, Flat(rows, kk, nn), Slot(c, p))
      {
        var a := Address(layout, rows, kk, nn);
        AddressInChunk(layout, rows, cols, kk, nn);
        FlatInRange(rows, cols, kk, nn);
        bufs[a.channel, a.pos] := mat[Flat(rows, kk, nn)];
        forall c, p | 0 <= c < bufs.Length0 && 0 <= p < bufs.Length1
          ensures bufs[c, p] == EncodedUpTo(layout, rows, cols, mat, Flat(rows, kk, nn) + 1, Slot(c, p))
        {
          EncodedStep(layout, rows, cols, mat, kk, nn, Slot(c, p));
        }
        kk := kk + 1;
      }
      assert Flat(rows, rows, nn) == Flat(rows, 0, nn + 1);
      nn := nn + 1;
    }
    forall c, p | 0 <= c < bufs.Length0 && 0 <= p < bufs.Length1
      ensures bufs[c, p] == Encoded(layout, rows, cols, mat, Slot(c, p))
    {
      EncodedUpToAll(layout, rows, cols, mat, Slot(c, p));
    }
  }

  /** Dense B (`K` x `N`, column-major) in the configured channel layout. */
  method EncodeB(layout: Interleave, K: nat, N: nat, matB: seq<real>) returns (bufs: array2<real>)
    requires |matB| == K * N && N % 8 == 0
    ensures fresh(bufs)
    ensures bufs.Length0 == ChannelCount(layout) && bufs.Length1 == ChunkSize(layout, K, N)
    ensures forall c, p :: 0 <= c < bufs.Length0 && 0 <= p < bufs.Length1 ==>
      bufs[c, p] == Encoded(layout, K, N, matB, Slot(c, p))
  {
    bufs := EncodeDense(layout, K, N, matB);
  }

  /** Dense C (`M` x `N`, column-major) in the eight-channel layout. */
  method EncodeC(M: nat, N: nat, matC: seq<real>) returns (bufs: array2<real>)
    requires |matC| == M * N && N % 8 == 0
    ensures fresh(bufs)
    ensures bufs.Length0 == 8 && bufs.Length1 == ChunkSize(EightChannel, M, N)
    ensures forall c, p :: 0 <= c < bufs.Length0 && 0 <= p < bufs.Length1 ==>
      bufs[c, p] == Encoded(EightChannel, M, N, matC, Slot(c, p))
  {
    bufs := EncodeDense(EightChannel, M, N, matC);
  }

  /** Every index below `rows * cols` is the host index of one element:
      row `Offset(j, rows)`, column `Block(j, rows)`. */
  lemma {:induction false} FlatOnto(rows: nat, cols: nat, j: nat)
    requires j < rows * cols
    ensures rows > 0 && Offset(j, rows) < rows && Block(j, rows) < cols
    ensures Flat(rows, Offset(j, rows), Block(j, rows)) == j
  {
    SplitOf(j, rows);
    if Block(j, rows) >= cols {
      MulMonotone(rows, cols, Block(j, rows));
      assert false;
    }
  }

  /** The value the host's comparison loop reads for host index `j` of C:
      the slot at the decode address of row `j % M`, column `j / M`. */
  function ReadBack(bufs: array2<real>, M: nat, N: nat, j: nat): real
    reads bufs
    requires bufs.Length0 == 8 && bufs.Length1 == ChunkSize(EightChannel, M, N) && N % 8 == 0
    requires j < M * N
  {
    FlatOnto(M, N, j);
    AddressInChunk(EightChannel, M, N, Offset(j, M), Block(j, M));
    var a := Address(EightChannel, M, Offset(j, M), Block(j, M));
    bufs[a.channel, a.pos]
  }

  /** The read-back of element `(mm, nn)` is the slot at its address. */
  lemma {:induction false} ReadBackAt(bufs: array2<real>, M: nat, N: nat, mm: nat, nn: nat)
    requires bufs.Length0 == 8 && bufs.Length1 == ChunkSize(EightChannel, M, N) && N % 8 == 0
    requires mm < M && nn < N
    ensures Flat(M, mm, nn) < M * N
    ensures Address(EightChannel, M, mm, nn).channel < 8
    ensures Address(EightChannel, M, mm, nn).pos < bufs.Length1
    ensures ReadBack(bufs, M, N, Flat(M, mm, nn)) == bufs[Address(EightChannel, M, mm, nn).channel, Address(EightChannel, M, mm, nn).pos]
  {
    FlatInRange(M, N, mm, nn);
    AddressInChunk(EightChannel, M, N, mm, nn);
    DivModOf(mm, M, nn);
  }

  /** Reads the result C back out of eight channel buffers of the C layout,
      into column-major order. */
  method DecodeC(bufs: array2<real>, M: nat, N: nat) returns (matC: seq<real>)
    requires bufs.Length0 == 8 && bufs.Length1 == ChunkSize(EightChannel, M, N) && N % 8 == 0
    ensures |matC| == M * N
    ensures forall j :: 0 <= j < |matC| ==> matC[j] == ReadBack(bufs, M, N, j)
  {
    matC := [];
    MulMonotone(N, 0, M);
    var nn := 0;
    while nn < N
      invariant 0 <= nn <= N
      invariant |matC| == Flat(M, 0, nn) <= M * N
      invariant forall j :: 0 <= j < |matC| ==> matC[j] == ReadBack(bufs, M, N, j)
    {
      var mm := 0;
      MulMonotone(M, nn + 1, N);
      assert Flat(M, M, nn) == Flat(M, 0, nn + 1) <= M * N;
      while mm < M
        invariant 0 <= mm <= M
        invariant |matC| == Flat(M, mm, nn) <= Flat(M, M, nn)
        invariant forall j :: 0 <= j < |matC| ==> matC[j] == ReadBack(bufs, M, N, j)
      {
        ReadBackAt(bufs, M, N, mm, nn);
        var a := Address(EightChannel, M, mm, nn);
        matC := matC + [bufs[a.channel, a.pos]];
        mm := mm + 1;
      }
      assert |matC| == Flat(M, 0, nn + 1);
      nn := nn + 1;
    }
  }

  /** Encoding C and decoding it again, as the host does on either side of the
      kernel run, gives back the matrix. */
  method RoundTripC(M: nat, N: nat, matC: seq<real>) returns (back: seq<real>)
    requires |matC| == M * N && N % 8 == 0
    ensures back == matC
  {
    var bufs := EncodeC(M, N, matC);
    back := DecodeC(bufs, M, N);
    forall j | 0 <= j < |matC|
      ensures back[j] == matC[j]
    {
      FlatOnto(M, N, j);
      ReadBackAt(bufs, M, N, Offset(j, M), Block(j, M));
      EncodedAtAddress(EightChannel, M, N, matC, Offset(j, M), Block(j, M));
    }
  }
}
