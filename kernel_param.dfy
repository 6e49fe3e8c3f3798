/** The kernel's packed scalar argument `para_N = (rp_time << 16) | N`: the
    repeat count in the upper half-word and the batch width in the lower.
    The 32-bit `int`s of the host are modelled as 32-bit words. */
module KernelParam {

  /** Bound on the repeat count that keeps `rp_time << 16` inside the
      non-negative range of a 32-bit `int`. */
  const RepeatBound: bv32 := 0x8000

  /** Bound on a non-negative 32-bit `int`. */
  const IntBound: bv32 := 0x8000_0000

  /** `(rp_time << 16) | N` for a repeat count whose shift does not overflow
      and a non-negative batch width. */
  function PackParaN(rpTime: bv32, n: bv32): (p: bv32)
    requires rpTime < RepeatBound && n < IntBound
    ensures p < IntBound
  {
    (rpTime << 16) | n
  }

  /** The upper half-word: the repeat count the kernel sees. */
  function RepeatField(p: bv32): (rpTime: bv32)
    ensures rpTime < 0x1_0000
  {
    p >> 16
  }

  /** The lower half-word: the batch width the kernel sees. */
  function BatchField(p: bv32): (n: bv32)
    ensures n < 0x1_0000
  {
    p & 0xFFFF
  }

  /** For a batch width below 2^16 the packing is the concatenation
      `rp_time * 2^16 + N`, and the kernel recovers both fields. */
  lemma PackUnpack(rpTime: bv32, n: bv32)
    requires rpTime < RepeatBound && n < 0x1_0000
    ensures PackParaN(rpTime, n) == rpTime * 0x1_0000 + n
    ensures RepeatField(PackParaN(rpTime, n)) == rpTime
    ensures BatchField(PackParaN(rpTime, n)) == n
  {
  }

  /** Conversely, every non-negative packed word is the packing of its
      fields. */
  lemma UnpackPack(p: bv32)
    requires p < IntBound
    ensures RepeatField(p) < RepeatBound
    ensures PackParaN(RepeatField(p), BatchField(p)) == p
  {
  }

  /** Two packings with batch widths below 2^16 agree only on equal inputs. */
  lemma PackInjective(rpTime: bv32, n: bv32, rpTime': bv32, n': bv32)
    requires rpTime < RepeatBound && n < 0x1_0000
    requires rpTime' < RepeatBound && n' < 0x1_0000
    requires PackParaN(rpTime, n) == PackParaN(rpTime', n')
    ensures rpTime == rpTime' && n == n'
  {
    PackUnpack(rpTime, n);
    PackUnpack(rpTime', n');
  }

  /** A batch width of 2^16 or more overlaps the repeat field: the packing no
      longer identifies its inputs. */
  lemma PackCollision()
    ensures PackParaN(1, 0) == PackParaN(0, 0x1_0000)
    ensures BatchField(PackParaN(0, 0x1_0000)) != 0x1_0000
  {
  }

  /** The packings `main` performs: repeat count 20 with batch widths 8 up to
      512 hand the kernel both values intact. */
  lemma MainParaN(n: bv32)
    requires 8 <= n <= 512
    ensures RepeatField(PackParaN(20, n)) == 20 && BatchField(PackParaN(20, n)) == n
  {
    PackUnpack(20, n);
  }
}
