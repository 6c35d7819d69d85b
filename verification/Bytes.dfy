/** Byte buffers, big-endian words and positional writes to a file. */
module Bytes {
  type byte = i: int | 0 <= i < 256
  type Buffer = seq<byte>

  const U32_LIMIT: int := 0x1_0000_0000

  // ----- big-endian words -----------------------------------------------------

  function U32(n: int): (b: Buffer)
    requires 0 <= n < U32_LIMIT
    ensures |b| == 4
  {
    [n / 0x100 / 0x100 / 0x100, n / 0x100 / 0x100 % 0x100, n / 0x100 % 0x100, n % 0x100]
  }

  function FromU32(b: Buffer): (n: int)
    requires |b| == 4
    ensures 0 <= n < U32_LIMIT
  {
    ((b[0] as int * 0x100 + b[1]) * 0x100 + b[2]) * 0x100 + b[3]
  }

  lemma U32RoundTrip(n: int)
    requires 0 <= n < U32_LIMIT
    ensures FromU32(U32(n)) == n
  {
  }

  /** The bytes are digits in base 256, the most significant one first. */
  lemma U32Digits(n: int)
    requires 0 <= n < U32_LIMIT
    ensures var b := U32(n);
      n == b[0] as int * 0x100_0000 + b[1] as int * 0x1_0000 + b[2] as int * 0x100 + b[3] as int
  {
  }

  /** A 64-bit number is stored as two 32-bit words, high word first. */
  function U64(n: int): (b: Buffer)
    requires 0 <= n < U32_LIMIT * U32_LIMIT
    ensures |b| == 8
  {
    U32(n / U32_LIMIT) + U32(n % U32_LIMIT)
  }

  function FromU64(b: Buffer): (n: int)
    requires |b| == 8
    ensures 0 <= n < U32_LIMIT * U32_LIMIT
  {
    FromU32(b[..4]) * U32_LIMIT + FromU32(b[4..])
  }

  lemma U64RoundTrip(n: int)
    requires 0 <= n < U32_LIMIT * U32_LIMIT
    ensures FromU64(U64(n)) == n
  {
    var hi, lo := U32(n / U32_LIMIT), U32(n % U32_LIMIT);
    assert (hi + lo)[..4] == hi && (hi + lo)[4..] == lo;
    U32RoundTrip(n / U32_LIMIT);
    U32RoundTrip(n % U32_LIMIT);
  }

  // ----- files ------------------------------------------------------------------

  function Max(a: int, b: int): (m: int)
    ensures m >= a && m >= b && (m == a || m == b)
  {
    if a < b then b else a
  }

  function Min(a: int, b: int): (m: int)
    ensures m <= a && m <= b && (m == a || m == b)
  {
    if a < b then a else b
  }

  function CeilDiv(a: int, b: int): (q: int)
    requires b > 0
    ensures b * (q - 1) < a <= b * q
  {
    (a + b - 1) / b
  }

  function Zeros(n: nat): (b: Buffer)
    ensures |b| == n
  {
    seq(n, i => 0)
  }

  /**
   * `after` is `before` with `data` written at `offset`; a gap past the end is filled with zeros, and
   * writing nothing does nothing.
   */
  ghost predicate Patched(before: Buffer, after: Buffer, offset: nat, data: Buffer) {
    && |after| == (if data == [] then |before| else Max(|before|, offset + |data|))
    && (forall k :: offset <= k < offset + |data| ==> after[k] == data[k - offset])
    && (forall k :: 0 <= k < |before| && !(offset <= k < offset + |data|) ==> after[k] == before[k])
    && (forall k :: |before| <= k < |after| && k < offset ==> after[k] == 0)
  }

  function Patch(file: Buffer, offset: nat, data: Buffer): (after: Buffer)
    ensures Patched(file, after, offset, data)
  {
    if data == [] then file else
      var head := if offset <= |file| then file[..offset] else file + Zeros(offset - |file|);
      var tail := if offset + |data| <= |file| then file[offset + |data|..] else [];
      head + data + tail
  }

  /** `data` stands at `offset`. */
  ghost predicate At(file: Buffer, offset: nat, data: Buffer) {
    offset + |data| <= |file| && file[offset..offset + |data|] == data
  }

  lemma PatchedAt(before: Buffer, after: Buffer, offset: nat, data: Buffer)
    requires Patched(before, after, offset, data) && data != []
    ensures At(after, offset, data)
  {
  }

  /** A write does not disturb what stands in a disjoint range. */
  lemma PatchedKeeps(before: Buffer, after: Buffer, offset: nat, data: Buffer, p: nat, kept: Buffer)
    requires Patched(before, after, offset, data)
    requires At(before, p, kept)
    requires p + |kept| <= offset || offset + |data| <= p
    ensures At(after, p, kept)
  {
    assert forall k :: 0 <= k < |kept| ==> kept[k] == before[p..p + |kept|][k];
  }

  lemma SubSlice(b: Buffer, from: nat, to: nat, at: nat, n: nat)
    requires from <= to <= |b| && from + at + n <= to
    ensures b[from..to][at..at + n] == b[from + at..from + at + n]
  {
    var whole, part := b[from + at..from + at + n], b[from..to][at..at + n];
    assert forall k | 0 <= k < n :: part[k] == whole[k];
  }

  function Sum(b: Buffer): (s: nat)
    ensures s <= 255 * |b|
  {
    if b == [] then 0 else b[0] + Sum(b[1..])
  }

  /** However the bytes are put together. */
  lemma {:induction false} SumOf(a: Buffer, b: Buffer)
    ensures Sum(a + b) == Sum(a) + Sum(b) && Sum([]) == 0 && forall x: byte :: Sum([x]) == x
  {
    if a == [] {
      assert a + b == b;
    } else {
      assert (a + b)[0] == a[0] && (a + b)[1..] == a[1..] + b;
      SumOf(a[1..], b);
    }
    assert forall x: byte :: [x][1..] == [];
  }
}
