/** The random-fill routine: an abstract 32-bit generator and the byte packing
    that fills a buffer of any length from its words. */
module RandomFill {

  /** Byte `j` of `w`, counting from the least significant. On the little-endian
      Cortex-M3 this is `aschar[j]` of the union that overlays `w`. */
  function ByteOf(w: bv32, j: nat): bv8
    requires j < 4
  {
    if j == 0 then (w & 0xFF) as bv8
    else if j == 1 then ((w >> 8) & 0xFF) as bv8
    else if j == 2 then ((w >> 16) & 0xFF) as bv8
    else ((w >> 24) & 0xFF) as bv8
  }

  /** Byte `j` is the word shifted right by `8j` bits and masked to 8 bits. */
  lemma ByteOfShift(w: bv32, j: nat)
    requires j < 4
    ensures ByteOf(w, j) as bv32 == (w >> ((8 * j) as bv32)) & 0xFF
  {
    if j == 0 {
      assert (8 * j) as bv32 == 0;
    } else if j == 1 {
      assert (8 * j) as bv32 == 8;
    } else if j == 2 {
      assert (8 * j) as bv32 == 16;
    } else {
      assert (8 * j) as bv32 == 24;
    }
  }

  /** The union's four bytes overlay the word: together they are `w`, byte `j`
      at bits `8j` to `8j+7`. */
  lemma UnionOverlay(w: bv32)
    ensures w == (ByteOf(w, 0) as bv32) | (ByteOf(w, 1) as bv32 << 8) |
                 (ByteOf(w, 2) as bv32 << 16) | (ByteOf(w, 3) as bv32 << 24)
  {
  }

  /** The four bytes of a word drawn while more than 4 bytes remain:
      `aschar[0]` to `aschar[3]`. */
  function LittleEndian(w: bv32): seq<bv8>
  {
    [ByteOf(w, 0), ByteOf(w, 1), ByteOf(w, 2), ByteOf(w, 3)]
  }

  /** The bytes a final word contributes when `r` bytes remain: `aschar[r-1]` down to `aschar[0]`. */
  function TailBytes(w: bv32, r: nat): (t: seq<bv8>)
    requires r <= 4
    ensures |t| == r
    ensures forall m :: 0 <= m < r ==> t[m] == ByteOf(w, r - 1 - m)
  {
    if r == 0 then [] else [ByteOf(w, r - 1)] + TailBytes(w, r - 1)
  }

  /** Words drawn by the bulk loop, which runs while more than 4 bytes remain. */
  function BulkWords(len: nat): nat
  {
    if len == 0 then 0 else (len - 1) / 4
  }

  /** Generator draws made for a request of `len` bytes: ceil(len / 4). */
  function DrawCount(len: nat): (k: nat)
    ensures k == (len + 3) / 4
    ensures k == 0 <==> len == 0
  {
    BulkWords(len) + if len == 0 then 0 else 1
  }

  /** The bytes written for a request of `len` bytes, given the words drawn for it,
      following the two loops: whole words while more than 4 bytes remain, then the
      rest from the last word. */
  function Fill(words: seq<bv32>, len: nat): (bytes: seq<bv8>)
    requires |words| == DrawCount(len)
    ensures |bytes| == len
    decreases len
  {
    if len > 4 then LittleEndian(words[0]) + Fill(words[1..], len - 4)
    else if len > 0 then TailBytes(words[0], len)
    else []
  }

  /** Byte `i` of the bulk part is byte `i % 4` of word `i / 4`, least significant first. */
  lemma {:induction false} FillBulkAt(words: seq<bv32>, len: nat, i: nat)
    requires |words| == DrawCount(len) && i < 4 * BulkWords(len)
    ensures Fill(words, len)[i] == ByteOf(words[i / 4], i % 4)
    decreases len
  {
    if i >= 4 {
      FillBulkAt(words[1..], len - 4, i - 4);
      assert (i - 4) / 4 == i / 4 - 1 && (i - 4) % 4 == i % 4;
    }
  }

  /** The remaining 1 to 4 bytes are the low-order bytes of the last word, higher-order
      first: byte `i` is byte `len - 1 - i` of it. */
  lemma {:induction false} FillTailAt(words: seq<bv32>, len: nat, i: nat)
    requires |words| == DrawCount(len) && 4 * BulkWords(len) <= i < len
    ensures Fill(words, len)[i] == ByteOf(words[|words| - 1], len - 1 - i)
    decreases len
  {
    if len > 4 {
      FillTailAt(words[1..], len - 4, i - 4);
    }
  }

  /** Small requests: no bytes for 0; a 3-byte and a 4-byte request each take one
      word and write it high-order byte first; a 7-byte request writes its first
      word little-endian, then the low three bytes of the second, high-order first. */
  lemma FillExamples(w: bv32, v: bv32)
    ensures Fill([], 0) == []
    ensures Fill([w], 3) == [ByteOf(w, 2), ByteOf(w, 1), ByteOf(w, 0)]
    ensures Fill([w], 4) == [ByteOf(w, 3), ByteOf(w, 2), ByteOf(w, 1), ByteOf(w, 0)]
    ensures Fill([w, v], 7) == LittleEndian(w) + [ByteOf(v, 2), ByteOf(v, 1), ByteOf(v, 0)]
  {
    assert Fill([w, v], 7) == LittleEndian(w) + Fill([v], 3) by {
      assert [w, v][1..] == [v];
    }
  }

  /** The generator state after `k` transitions from `s`. */
  function Advance(step: bv32 -> bv32, s: bv32, k: nat): bv32
  {
    if k == 0 then s else step(Advance(step, s, k - 1))
  }

  /** The `k` words drawn from state `s`: each draw emits the state it moves to. */
  function Stream(step: bv32 -> bv32, s: bv32, k: nat): (ws: seq<bv32>)
    ensures |ws| == k
  {
    if k == 0 then [] else Stream(step, s, k - 1) + [Advance(step, s, k)]
  }

  /** The `i`-th word drawn is the state after `i + 1` transitions. */
  lemma {:induction false} StreamAt(step: bv32 -> bv32, s: bv32, k: nat, i: nat)
    requires i < k
    ensures Stream(step, s, k)[i] == Advance(step, s, i + 1)
  {
    if i < k - 1 {
      StreamAt(step, s, k - 1, i);
    }
  }

  /** Drawing `a` words and then `b` more is drawing `a + b` words: the state left by
      one call is where the next call continues. */
  lemma {:induction false} StreamSplit(step: bv32 -> bv32, s: bv32, a: nat, b: nat)
    ensures Advance(step, s, a + b) == Advance(step, Advance(step, s, a), b)
    ensures Stream(step, s, a + b) == Stream(step, s, a) + Stream(step, Advance(step, s, a), b)
  {
    if b > 0 {
      StreamSplit(step, s, a, b - 1);
    }
  }

  /** The generator (`xorshift32_u32`, whose body is not part of this model) with its
      transition `step` and a count of the words it has emitted. */
  class RandomSource {
    const step: bv32 -> bv32
    var state: bv32
    ghost var draws: nat

    constructor (step: bv32 -> bv32, seed: bv32)
      ensures this.step == step && state == seed && draws == 0
    {
      this.step, state, draws := step, seed, 0;
    }

    /** One call of the generator: advance the state and emit it. */
    method Draw() returns (w: bv32)
      modifies this
      ensures state == step(old(state)) && w == state
      ensures draws == old(draws) + 1
    {
      state := step(state);
      w := state;
      draws := draws + 1;
    }

    /** One pass of the bulk loop: draws the `k+1`-th word since state `s0` and
        writes it little-endian at `pos == 4 * k`. */
    method PutNextWord(out: array<bv8>, pos: nat, ghost s0: bv32, ghost k: nat)
      requires state == Advance(step, s0, k)
      requires pos == 4 * k && pos + 4 <= out.Length
      modifies this, out
      ensures draws == old(draws) + 1
      ensures state == Advance(step, s0, k + 1)
      ensures forall i :: pos <= i < pos + 4 ==> out[i] == ByteOf(Advance(step, s0, i / 4 + 1), i % 4)
      ensures forall i :: 0 <= i < out.Length && !(pos <= i < pos + 4) ==> out[i] == old(out[i])
    {
      var w := Draw();
      PutWord(out, pos, w);
      forall i | pos <= i < pos + 4
        ensures i / 4 == k && i % 4 == i - pos
      {
        WordIndex(k, i);
      }
    }

    /** Fills `out[0..len)` with random bytes (`platform_get_random`); always returns 0. */
    method GetRandom(out: array<bv8>, len: nat) returns (status: int)
      requires len <= out.Length
      modifies this, out
      ensures status == 0
      ensures draws == old(draws) + DrawCount(len)
      ensures state == Advance(step, old(state), DrawCount(len))
      ensures out[..len] == Fill(Stream(step, old(state), DrawCount(len)), len)
      ensures forall i :: len <= i < out.Length ==> out[i] == old(out[i])
    {
      ghost var s0 := state;
      ghost var k: nat := 0;
      var pos := 0;
      var rem := len;
      while rem > 4
        invariant 0 <= rem && pos + rem == len && pos == 4 * k
        invariant len > 0 ==> rem > 0
        invariant draws == old(draws) + k
        invariant state == Advance(step, s0, k)
        invariant forall i :: 0 <= i < pos ==> out[i] == ByteOf(Advance(step, s0, i / 4 + 1), i % 4)
        invariant forall i :: pos <= i < out.Length ==> out[i] == old(out[i])
      {
        PutNextWord(out, pos, s0, k);
        pos, rem, k := pos + 4, rem - 4, k + 1;
      }
      BulkWordsAt(len, k, rem);
      if rem > 0 {
        var w := Draw();
        k := k + 1;
        PutTail(out, pos, w, rem);
      }
      assert out[..len] == Fill(Stream(step, s0, DrawCount(len)), len) by {
        FillFromBytes(step, s0, len, out[..len]);
      }
      status := 0;
    }
  }

  /** Writes the four bytes of `w` at `pos`, `aschar[0]` first. */
  method PutWord(out: array<bv8>, pos: nat, w: bv32)
    requires pos + 4 <= out.Length
    modifies out
    ensures forall i :: pos <= i < pos + 4 ==> out[i] == ByteOf(w, i - pos)
    ensures forall i :: 0 <= i < out.Length && !(pos <= i < pos + 4) ==> out[i] == old(out[i])
  {
    out[pos] := ByteOf(w, 0);
    out[pos + 1] := ByteOf(w, 1);
    out[pos + 2] := ByteOf(w, 2);
    out[pos + 3] := ByteOf(w, 3);
  }

  /** Writes the last `r` bytes at `pos`: `aschar[r-1]` down to `aschar[0]`. */
  method PutTail(out: array<bv8>, pos: nat, w: bv32, r: nat)
    requires r <= 4 && pos + r <= out.Length
    modifies out
    ensures forall i :: pos <= i < pos + r ==> out[i] == ByteOf(w, pos + r - 1 - i)
    ensures forall i :: 0 <= i < out.Length && !(pos <= i < pos + r) ==> out[i] == old(out[i])
  {
    var p, rem := pos, r;
    while rem > 0
      invariant 0 <= rem && p + rem == pos + r
      invariant forall i :: pos <= i < p ==> out[i] == ByteOf(w, pos + r - 1 - i)
      invariant forall i :: 0 <= i < out.Length && !(pos <= i < p) ==> out[i] == old(out[i])
    {
      out[p] := ByteOf(w, rem - 1);
      p, rem := p + 1, rem - 1;
    }
  }

  /** Position `i` of the word written at `4 * k`. */
  lemma WordIndex(k: nat, i: nat)
    requires 4 * k <= i < 4 * k + 4
    ensures i / 4 == k && i % 4 == i - 4 * k
  {
  }

  /** When the bulk loop stops after `k` words with `rem` bytes left, `k` is `BulkWords(len)`. */
  lemma BulkWordsAt(len: nat, k: nat, rem: nat)
    requires len == 4 * k + rem && rem <= 4 && (len > 0 ==> rem > 0)
    ensures k == BulkWords(len)
    ensures DrawCount(len) == k + if rem > 0 then 1 else 0
  {
  }

  /** Bytes laid out word by word as the fill loops write them are `Fill` of the drawn stream. */
  lemma FillFromBytes(step: bv32 -> bv32, s: bv32, len: nat, bytes: seq<bv8>)
    requires |bytes| == len
    requires forall i :: 0 <= i < 4 * BulkWords(len) ==> bytes[i] == ByteOf(Advance(step, s, i / 4 + 1), i % 4)
    requires forall i :: 4 * BulkWords(len) <= i < len ==> bytes[i] == ByteOf(Advance(step, s, DrawCount(len)), len - 1 - i)
    ensures bytes == Fill(Stream(step, s, DrawCount(len)), len)
  {
    var words := Stream(step, s, DrawCount(len));
    var f := Fill(words, len);
    forall i | 0 <= i < len
      ensures bytes[i] == f[i]
    {
      if i < 4 * BulkWords(len) {
        FillBulkAt(words, len, i);
        StreamAt(step, s, DrawCount(len), i / 4);
      } else {
        FillTailAt(words, len, i);
        StreamAt(step, s, DrawCount(len), DrawCount(len) - 1);
      }
    }
  }

  /** Two fills in a row draw one continuous stream of words: the second call's
      bytes come from the words that follow the first call's. */
  method GetRandomTwice(src: RandomSource, out1: array<bv8>, len1: nat, out2: array<bv8>, len2: nat)
    requires len1 <= out1.Length && len2 <= out2.Length && out1 != out2
    modifies src, out1, out2
    ensures src.draws == old(src.draws) + DrawCount(len1) + DrawCount(len2)
    ensures src.state == Advance(src.step, old(src.state), DrawCount(len1) + DrawCount(len2))
    ensures out1[..len1] == Fill(Stream(src.step, old(src.state), DrawCount(len1)), len1)
    ensures out2[..len2] ==
            Fill(Stream(src.step, old(src.state), DrawCount(len1) + DrawCount(len2))[DrawCount(len1)..], len2)
  {
    var _ := src.GetRandom(out1, len1);
    var _ := src.GetRandom(out2, len2);
    StreamSplit(src.step, old(src.state), DrawCount(len1), DrawCount(len2));
  }
}
