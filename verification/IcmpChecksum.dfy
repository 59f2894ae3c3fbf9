/** `_icmp_checksum` (charm/payload/vlan_neighbor_validator.py) against the
    Internet checksum of section 1 of RFC 1071. */
module IcmpChecksum {

  type Byte = n: int | 0 <= n < 256
  type Word = n: int | 0 <= n < 65536

  /** 16-bit big-endian words; an odd last byte is padded with a zero. */
  function Words(data: seq<Byte>): seq<Word> {
    if data == [] then []
    else if |data| == 1 then [256 * (data[0] as int)]
    else [256 * (data[0] as int) + data[1] as int] + Words(data[2..])
  }

  function Sum(words: seq<Word>): nat {
    if words == [] then 0 else words[0] as int + Sum(words[1..])
  }

  /** The code: the sum folded twice, complemented, cut to 16 bits. */
  function Fold(sum: nat): nat {
    var once := sum / 65536 + sum % 65536;
    once + once / 65536
  }

  function Checksum(data: seq<Byte>): (c: Word) {
    65535 - Fold(Sum(Words(data))) % 65536
  }

  // ----- one's-complement addition ------------------------------------------

  /** 16-bit addition with end-around carry. */
  function Add(x: Word, y: Word): Word {
    if x as int + y as int >= 65536 then x as int + y as int - 65535 else x as int + y as int
  }

  function OnesSum(words: seq<Word>): Word {
    if words == [] then 0 else Add(words[0], OnesSum(words[1..]))
  }

  /** The one's-complement sum is the plain sum modulo 65535, and is zero only
      for zeros. */
  lemma {:induction false} OnesSumMeaning(words: seq<Word>)
    ensures OnesSum(words) as int % 65535 == Sum(words) % 65535
    ensures OnesSum(words) == 0 <==> Sum(words) == 0
  {
    if words != [] {
      var x, y, rest := words[0] as int, OnesSum(words[1..]) as int, Sum(words[1..]);
      OnesSumMeaning(words[1..]);
      CarryKeepsResidue(x, y);
      SameResidue(x, y, rest);
    }
  }

  lemma CarryKeepsResidue(x: Word, y: Word)
    ensures Add(x, y) as int % 65535 == (x as int + y as int) % 65535
  {
  }

  lemma SameResidue(x: nat, y: nat, z: nat)
    requires y % 65535 == z % 65535
    ensures (x + y) % 65535 == (x + z) % 65535
  {
    assert y - z == 65535 * (y / 65535 - z / 65535);
    assert x + y == (x + z) + 65535 * (y / 65535 - z / 65535);
  }

  predicate AllOnes(words: seq<Word>) { OnesSum(words) == 65535 }

  lemma AllOnesIff(words: seq<Word>)
    ensures AllOnes(words) <==> Sum(words) > 0 && Sum(words) % 65535 == 0
  {
    OnesSumMeaning(words);
  }

  // ----- inserting the checksum ---------------------------------------------

  /** A message whose checksum field, the p-th word, is zero. */
  predicate Unsigned(data: seq<Byte>, p: nat) {
    2 * p + 2 <= |data| && data[2 * p] == 0 && data[2 * p + 1] == 0
  }

  function Signed(data: seq<Byte>, p: nat): seq<Byte>
    requires Unsigned(data, p)
  {
    data[2 * p := Checksum(data) as int / 256][2 * p + 1 := Checksum(data) as int % 256]
  }

  lemma {:induction false} WordsAfterInsert(data: seq<Byte>, p: nat, c: Word)
    requires 2 * p + 2 <= |data|
    ensures p < |Words(data)|
    ensures Words(data[2 * p := c as int / 256][2 * p + 1 := c as int % 256]) == Words(data)[p := c]
  {
    var data' := data[2 * p := c as int / 256][2 * p + 1 := c as int % 256];
    if p > 0 {
      WordsAfterInsert(data[2..], p - 1, c);
      assert data'[2..] == data[2..][2 * (p - 1) := c as int / 256][2 * (p - 1) + 1 := c as int % 256];
    } else {
      assert data'[2..] == data[2..];
    }
  }

  lemma {:induction false} WordAt(data: seq<Byte>, p: nat)
    requires 2 * p + 2 <= |data|
    ensures p < |Words(data)| && Words(data)[p] == 256 * (data[2 * p] as int) + data[2 * p + 1] as int
  {
    if p > 0 { WordAt(data[2..], p - 1); }
  }

  lemma {:induction false} SumAfterInsert(words: seq<Word>, p: nat, c: Word)
    requires p < |words| && words[p] == 0
    ensures Sum(words[p := c]) == Sum(words) + c as int
  {
    if p > 0 {
      SumAfterInsert(words[1..], p - 1, c);
      assert words[p := c][1..] == words[1..][p - 1 := c];
    }
  }

  lemma SignedSum(data: seq<Byte>, p: nat)
    requires Unsigned(data, p)
    ensures Sum(Words(Signed(data, p))) == Sum(Words(data)) + Checksum(data) as int
  {
    WordsAfterInsert(data, p, Checksum(data));
    WordAt(data, p);
    SumAfterInsert(Words(data), p, Checksum(data));
  }

  // ----- when two folds suffice ---------------------------------------------

  /** What is left to carry after the two folds. */
  function Carry(sum: nat): nat {
    var once := sum / 65536 + sum % 65536;
    (once / 65536 + once % 65536) / 65536
  }

  /** Whatever the size, the signed message's sum is off by exactly the carry the
      two folds leave behind. */
  lemma SignedResidue(sum: nat)
    ensures (sum + (65535 - Fold(sum) % 65536)) % 65535 == Carry(sum) % 65535
    ensures sum + (65535 - Fold(sum) % 65536) > 0
  {
    var once := sum / 65536 + sum % 65536;
    var a, b := once / 65536, once % 65536;
    assert Fold(sum) % 65536 == (a + b) % 65536 by {
      assert Fold(sum) == 65536 * a + (a + b);
      AddMultiple(a + b, a);
    }
    var left := (a + b) / 65536;
    assert sum + (65535 - (a + b) % 65536) == left + 65535 * (sum / 65536 + a + 1 + left);
    Multiple(left, sum / 65536 + a + 1 + left);
  }

  lemma AddMultiple(x: nat, k: nat)
    ensures (65536 * k + x) % 65536 == x % 65536
  {
    assert 65536 * k + x == 65536 * (k + x / 65536) + x % 65536;
  }

  lemma Multiple(x: nat, k: nat)
    ensures (x + 65535 * k) % 65535 == x % 65535
  {
    assert x + 65535 * k == 65535 * (k + x / 65535) + x % 65535;
  }

  /** The signed message is right exactly when no carry is left. */
  lemma SignedIff(data: seq<Byte>, p: nat)
    requires Unsigned(data, p)
    ensures AllOnes(Words(Signed(data, p))) <==> Carry(Sum(Words(data))) % 65535 == 0
  {
    SignedSum(data, p);
    SignedResidue(Sum(Words(data)));
    AllOnesIff(Words(Signed(data, p)));
  }

  lemma {:induction false} SumBound(words: seq<Word>)
    ensures Sum(words) <= 65535 * |words|
  {
    if words != [] { SumBound(words[1..]); }
  }

  lemma {:induction false} SumBoundWithZero(words: seq<Word>, p: nat)
    requires p < |words| && words[p] == 0
    ensures Sum(words) <= 65535 * (|words| - 1)
  {
    if p > 0 { SumBoundWithZero(words[1..], p - 1); } else { SumBound(words[1..]); }
  }

  lemma NoCarry(sum: nat)
    requires sum <= 65535 * 65538
    ensures Carry(sum) == 0
  {
    var q, r := sum / 65536, sum % 65536;
    assert q <= 65536 && (q == 65536 ==> r <= 65534);
  }

  /** Every message of at most 65539 words is signed correctly. */
  lemma SmallMessagesRight(data: seq<Byte>, p: nat)
    requires Unsigned(data, p) && |Words(data)| <= 65539
    ensures AllOnes(Words(Signed(data, p)))
  {
    WordAt(data, p);
    SumBoundWithZero(Words(data), p);
    NoCarry(Sum(Words(data)));
    SignedIff(data, p);
  }

  // ----- the limit is exact -------------------------------------------------

  function Bytes(words: seq<Word>): seq<Byte> {
    if words == [] then [] else [words[0] as int / 256, words[0] as int % 256] + Bytes(words[1..])
  }

  lemma {:induction false} WordsOfBytes(words: seq<Word>)
    ensures Words(Bytes(words)) == words && |Bytes(words)| == 2 * |words|
  {
    if words != [] {
      WordsOfBytes(words[1..]);
      assert Bytes(words)[2..] == Bytes(words[1..]);
      assert words == [words[0]] + words[1..];
    }
  }

  function Repeat(w: Word, n: nat): (r: seq<Word>)
    ensures |r| == n
  {
    if n == 0 then [] else [w] + Repeat(w, n - 1)
  }

  lemma {:induction false} SumOfMaxima(n: nat, rest: seq<Word>)
    ensures Sum(Repeat(65535, n) + rest) == 65535 * n + Sum(rest)
  {
    if n == 0 {
      assert Repeat(65535, n) + rest == rest;
    } else {
      SumOfMaxima(n - 1, rest);
      assert (Repeat(65535, n) + rest)[1..] == Repeat(65535, n - 1) + rest;
    }
  }

  lemma {:induction false} SumOfZeros(n: nat)
    ensures Sum(Repeat(0, n)) == 0
  {
    if n > 0 { SumOfZeros(n - 1); }
  }

  /** A message of n words that two folds do not suffice for. */
  function Overflowing(n: nat): seq<Word>
    requires n >= 65540
  {
    [0] + (Repeat(65535, 65538) + ([1] + Repeat(0, n - 65540)))
  }

  lemma OverflowingSum(n: nat)
    requires n >= 65540
    ensures |Overflowing(n)| == n && Overflowing(n)[0] == 0 && Sum(Overflowing(n)) == 0x1_0000_FFFF
  {
    var zeros := Repeat(0, n - 65540);
    SumOfZeros(n - 65540);
    assert ([1] + zeros)[1..] == zeros;
    SumOfMaxima(65538, [1] + zeros);
    assert Overflowing(n)[1..] == Repeat(65535, 65538) + ([1] + zeros);
  }

  ghost predicate AllRight(n: nat) {
    forall data: seq<Byte>, p: nat :: Unsigned(data, p) && |Words(data)| <= n ==> AllOnes(Words(Signed(data, p)))
  }

  /** Two folds are right for all messages up to some size exactly when that size
      is at most 65539 words. */
  lemma LimitIsExact(n: nat)
    ensures AllRight(n) <==> n <= 65539
  {
    if n <= 65539 {
      forall data: seq<Byte>, p: nat | Unsigned(data, p) && |Words(data)| <= n ensures AllOnes(Words(Signed(data, p))) {
        SmallMessagesRight(data, p);
      }
    } else {
      var words := Overflowing(n);
      OverflowingSum(n);
      WordsOfBytes(words);
      var data := Bytes(words);
      assert Unsigned(data, 0);
      SignedIff(data, 0);
      assert Carry(0x1_0000_FFFF) == 1;
    }
  }
}
