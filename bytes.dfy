/**
 * Byte-level helpers shared by the instruction-data builders: fixed-width
 * little- and big-endian integer encodings (`u64::to_le_bytes`,
 * `U256::to_big_endian`), lowercase hex (`hex::encode`) and fixed-size
 * chunking of a sequence (`rome_utils::iter::into_chunks`).
 */
module Bytes {
  import opened Wrappers

  type Byte = b: int | 0 <= b < 256

  const U64_LIMIT: nat := 0x1_0000_0000_0000_0000
  const U256_LIMIT: nat := 0x1_0000_0000_0000_0000_0000_0000_0000_0000_0000_0000_0000_0000_0000_0000_0000_0000

  /** Rust `u64`. */
  type U64 = x: int | 0 <= x < U64_LIMIT

  /** A byte vector; its length fits a `u64`. */
  type ByteVec = s: seq<Byte> | |s| < U64_LIMIT

  /** 256^n: the number of values that fit in n bytes. */
  function Pow256(n: nat): (r: nat)
    ensures r >= 1
  {
    if n == 0 then 1 else 256 * Pow256(n - 1)
  }

  lemma {:induction false} Pow256Add(a: nat, b: nat)
    ensures Pow256(a + b) == Pow256(a) * Pow256(b)
  {
    if a > 0 {
      Pow256Add(a - 1, b);
    }
  }

  lemma Pow256Widths()
    ensures Pow256(8) == U64_LIMIT
    ensures Pow256(32) == U256_LIMIT
  {
    assert Pow256(8) == U64_LIMIT;
    Pow256Add(8, 8);
    Pow256Add(16, 16);
  }

  // ---------------------------------------------------------------------
  // Little endian

  /** The n least significant bytes of x, least significant first. */
  function LeBytes(x: nat, n: nat): (r: seq<Byte>)
    ensures |r| == n
  {
    if n == 0 then [] else [x % 256] + LeBytes(x / 256, n - 1)
  }

  /** The value of a little-endian byte string. */
  function FromLe(s: seq<Byte>): (v: nat)
    ensures v < Pow256(|s|)
  {
    if s == [] then 0
    else
      var rest := FromLe(s[1..]);
      assert rest <= Pow256(|s| - 1) - 1;
      assert 256 * rest <= 256 * Pow256(|s| - 1) - 256;
      s[0] + 256 * rest
  }

  lemma {:induction false} LeRoundTrip(x: nat, n: nat)
    requires x < Pow256(n)
    ensures FromLe(LeBytes(x, n)) == x
  {
    if n > 0 {
      assert x / 256 < Pow256(n - 1);
      LeRoundTrip(x / 256, n - 1);
      assert LeBytes(x, n)[1..] == LeBytes(x / 256, n - 1);
    }
  }

  /** `u64::to_le_bytes`: eight bytes that decode back to the value. */
  function Le8(x: U64): (r: seq<Byte>)
    ensures |r| == 8 && FromLe(r) == x
  {
    Pow256Widths();
    LeRoundTrip(x, 8);
    LeBytes(x, 8)
  }

  // ---------------------------------------------------------------------
  // Big endian

  /** The n least significant bytes of x, most significant first. */
  function BeBytes(x: nat, n: nat): (r: seq<Byte>)
    ensures |r| == n
  {
    if n == 0 then [] else BeBytes(x / 256, n - 1) + [x % 256]
  }

  /** The value of a big-endian byte string. */
  function FromBe(s: seq<Byte>): (v: nat)
    ensures v < Pow256(|s|)
  {
    if s == [] then 0
    else
      var rest := FromBe(s[..|s| - 1]);
      assert rest <= Pow256(|s| - 1) - 1;
      assert 256 * rest <= 256 * Pow256(|s| - 1) - 256;
      256 * rest + s[|s| - 1]
  }

  lemma {:induction false} BeRoundTrip(x: nat, n: nat)
    requires x < Pow256(n)
    ensures FromBe(BeBytes(x, n)) == x
  {
    if n > 0 {
      assert x / 256 < Pow256(n - 1);
      BeRoundTrip(x / 256, n - 1);
      var s := BeBytes(x, n);
      assert s[..|s| - 1] == BeBytes(x / 256, n - 1);
    }
  }

  // ---------------------------------------------------------------------
  // Lowercase hex

  const HEX_DIGITS: string := "0123456789abcdef"

  /** `hex::encode`: two lowercase digits per byte, high nibble first. */
  function HexEncode(b: seq<Byte>): (r: string)
    ensures |r| == 2 * |b|
  {
    if b == [] then "" else [HEX_DIGITS[b[0] / 16], HEX_DIGITS[b[0] % 16]] + HexEncode(b[1..])
  }

  /** The value of one lowercase hex digit, None for any other character. */
  function HexDigitValue(c: char): (r: Option<nat>)
    ensures r.Some? ==> r.value < 16 && HEX_DIGITS[r.value] == c
  {
    if '0' <= c <= '9' then Some(c as int - '0' as int)
    else if 'a' <= c <= 'f' then Some(c as int - 'a' as int + 10)
    else None
  }

  /** Inverse of HexEncode on well-formed input. */
  function HexDecode(s: string): (r: Option<seq<Byte>>)
    ensures r.Some? ==> 2 * |r.value| == |s|
    decreases |s|
  {
    if s == [] then Some([])
    else if |s| == 1 then None
    else match (HexDigitValue(s[0]), HexDigitValue(s[1]), HexDecode(s[2..]))
      case (Some(hi), Some(lo), Some(rest)) => Some([16 * hi + lo] + rest)
      case _ => None
  }

  lemma {:induction false} HexRoundTrip(b: seq<Byte>)
    ensures HexDecode(HexEncode(b)) == Some(b)
  {
    if b != [] {
      var s := HexEncode(b);
      assert HexDigitValue(HEX_DIGITS[b[0] / 16]) == Some(b[0] / 16);
      assert HexDigitValue(HEX_DIGITS[b[0] % 16]) == Some(b[0] % 16);
      assert s[2..] == HexEncode(b[1..]);
      HexRoundTrip(b[1..]);
      assert [b[0]] + b[1..] == b;
    }
  }

  /** Every character of HexEncode's output is a lowercase hex digit. */
  lemma {:induction false} HexEncodeDigits(b: seq<Byte>)
    ensures forall i :: 0 <= i < |HexEncode(b)| ==> HexEncode(b)[i] in HEX_DIGITS
  {
    if b != [] {
      HexEncodeDigits(b[1..]);
      var s := HexEncode(b);
      assert s[2..] == HexEncode(b[1..]);
      forall i | 0 <= i < |s| ensures s[i] in HEX_DIGITS {
        if i >= 2 { assert s[i] == s[2..][i - 2]; }
      }
    }
  }

  // ---------------------------------------------------------------------
  // Sequences

  /** `Vec::reverse` / `Iterator::rev`. */
  function Reverse<T>(s: seq<T>): (r: seq<T>)
    ensures |r| == |s|
    ensures forall i :: 0 <= i < |s| ==> r[i] == s[|s| - 1 - i]
  {
    if s == [] then [] else Reverse(s[1..]) + [s[0]]
  }

  /** Concatenation of a sequence of sequences. */
  function Flatten<T>(ss: seq<seq<T>>): seq<T>
  {
    if ss == [] then [] else ss[0] + Flatten(ss[1..])
  }

  lemma {:induction false} FlattenAppend<T>(a: seq<seq<T>>, b: seq<seq<T>>)
    ensures Flatten(a + b) == Flatten(a) + Flatten(b)
  {
    if a == [] {
      assert a + b == b;
    } else {
      assert (a + b)[0] == a[0];
      assert (a + b)[1..] == a[1..] + b;
      FlattenAppend(a[1..], b);
      calc {
        Flatten(a + b);
        a[0] + Flatten(a[1..] + b);
        a[0] + (Flatten(a[1..]) + Flatten(b));
        (a[0] + Flatten(a[1..])) + Flatten(b);
      }
    }
  }

  /**
   * `into_chunks(s, size)`: consecutive pieces of `size` elements, the last
   * one possibly shorter; no piece for an empty input.
   */
  function Chunks<T>(s: seq<T>, size: nat): (r: seq<seq<T>>)
    requires size > 0
    decreases |s|
  {
    if |s| == 0 then []
    else if |s| <= size then [s]
    else [s[..size]] + Chunks(s[size..], size)
  }

  /** The chunks concatenate back to the input. */
  lemma {:induction false} ChunksFlatten<T>(s: seq<T>, size: nat)
    requires size > 0
    ensures Flatten(Chunks(s, size)) == s
    decreases |s|
  {
    if |s| == 0 {
    } else if |s| <= size {
      assert Flatten([s]) == s + [];
    } else {
      ChunksFlatten(s[size..], size);
      var c := Chunks(s, size);
      assert c[0] == s[..size] && c[1..] == Chunks(s[size..], size);
      assert s[..size] + s[size..] == s;
    }
  }

  /** Every chunk is non-empty and at most `size` long; all but the last are exactly `size` long. */
  lemma {:induction false} ChunksSizes<T>(s: seq<T>, size: nat)
    requires size > 0
    ensures forall i :: 0 <= i < |Chunks(s, size)| ==> 0 < |Chunks(s, size)[i]| <= size
    ensures forall i :: 0 <= i < |Chunks(s, size)| - 1 ==> |Chunks(s, size)[i]| == size
    decreases |s|
  {
    if |s| > size {
      var c := Chunks(s, size);
      var rest := Chunks(s[size..], size);
      ChunksSizes(s[size..], size);
      assert c[1..] == rest;
      forall i | 0 <= i < |c| ensures 0 < |c[i]| <= size && (i < |c| - 1 ==> |c[i]| == size) {
        if i > 0 { assert c[i] == rest[i - 1]; }
      }
    }
  }

  /** The position of chunk i in the concatenation: the total length of the chunks before it. */
  function Offset<T>(cs: seq<seq<T>>, i: nat): nat
    requires i <= |cs|
  {
    |Flatten(cs[..i])|
  }

  lemma OffsetStep<T>(cs: seq<seq<T>>, i: nat)
    requires i < |cs|
    ensures Offset(cs, i + 1) == Offset(cs, i) + |cs[i]|
    ensures Offset(cs, 0) == 0
  {
    assert cs[..i + 1] == cs[..i] + [cs[i]];
    FlattenAppend(cs[..i], [cs[i]]);
    assert Flatten([cs[i]]) == cs[i] + [];
  }

  lemma OffsetBound<T>(cs: seq<seq<T>>, i: nat)
    requires i <= |cs|
    ensures Offset(cs, i) <= |Flatten(cs)|
  {
    assert cs == cs[..i] + cs[i..];
    FlattenAppend(cs[..i], cs[i..]);
  }

  /** Chunk i is exactly the slice of the input that starts at its offset. */
  lemma {:induction false} OffsetSlice<T>(cs: seq<seq<T>>, i: nat)
    requires i < |cs|
    ensures Offset(cs, i) + |cs[i]| <= |Flatten(cs)|
    ensures Flatten(cs)[Offset(cs, i)..Offset(cs, i) + |cs[i]|] == cs[i]
  {
    assert cs == cs[..i] + ([cs[i]] + cs[i + 1..]);
    FlattenAppend(cs[..i], [cs[i]] + cs[i + 1..]);
    assert ([cs[i]] + cs[i + 1..])[1..] == cs[i + 1..];
  }
}
