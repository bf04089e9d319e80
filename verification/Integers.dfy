/** Fixed-width integers as byte strings, `int.to_bytes` and `int.from_bytes`. */
module Integers {
  import opened Prelude

  function Power256(n: nat): (r: nat)
    ensures r >= 1
  {
    if n == 0 then 1 else 256 * Power256(n - 1)
  }

  /** The low `n` bytes of `value`, least significant first. */
  function LittleEndian(value: nat, n: nat): (r: Bytes)
    ensures |r| == n
  {
    if n == 0 then [] else [(value % 256) as byte] + LittleEndian(value / 256, n - 1)
  }

  function FromLittleEndian(bytes: Bytes): (r: nat)
    ensures r < Power256(|bytes|)
  {
    if bytes == [] then 0 else bytes[0] as nat + 256 * FromLittleEndian(bytes[1..])
  }

  /** The low `n` bytes of `value`, most significant first. */
  function BigEndian(value: nat, n: nat): (r: Bytes)
    ensures |r| == n
  {
    if n == 0 then [] else BigEndian(value / 256, n - 1) + [(value % 256) as byte]
  }

  function FromBigEndian(bytes: Bytes): (r: nat)
    ensures r < Power256(|bytes|)
  {
    if bytes == [] then 0 else 256 * FromBigEndian(bytes[..|bytes| - 1]) + bytes[|bytes| - 1] as nat
  }

  lemma {:induction false} LittleEndianRoundTrip(value: nat, n: nat)
    requires value < Power256(n)
    ensures FromLittleEndian(LittleEndian(value, n)) == value
  {
    if n == 0 {
    } else {
      LittleEndianRoundTrip(value / 256, n - 1);
      assert LittleEndian(value, n)[1..] == LittleEndian(value / 256, n - 1);
    }
  }

  lemma {:induction false} FromLittleEndianRoundTrip(bytes: Bytes)
    ensures LittleEndian(FromLittleEndian(bytes), |bytes|) == bytes
  {
    if bytes == [] {
    } else {
      FromLittleEndianRoundTrip(bytes[1..]);
      assert bytes == [bytes[0]] + bytes[1..];
    }
  }

  lemma {:induction false} BigEndianRoundTrip(value: nat, n: nat)
    requires value < Power256(n)
    ensures FromBigEndian(BigEndian(value, n)) == value
  {
    if n == 0 {
    } else {
      BigEndianRoundTrip(value / 256, n - 1);
      assert BigEndian(value, n)[..n - 1] == BigEndian(value / 256, n - 1);
    }
  }

  lemma {:induction false} FromBigEndianRoundTrip(bytes: Bytes)
    ensures BigEndian(FromBigEndian(bytes), |bytes|) == bytes
  {
    if bytes == [] {
    } else {
      var front := bytes[..|bytes| - 1];
      FromBigEndianRoundTrip(front);
      assert bytes == front + [bytes[|bytes| - 1]];
    }
  }

  /** Numbers that fit have different byte strings. */
  lemma BigEndianInjective(a: nat, b: nat, n: nat)
    requires a < Power256(n) && b < Power256(n)
    requires BigEndian(a, n) == BigEndian(b, n)
    ensures a == b
  {
    BigEndianRoundTrip(a, n);
    BigEndianRoundTrip(b, n);
  }

  // ----- what the bytes are

  lemma TwoBytes(bytes: Bytes)
    requires |bytes| == 2
    ensures FromLittleEndian(bytes) == bytes[0] as nat + 256 * bytes[1] as nat
  {
    OneByte(bytes[1..]);
  }

  lemma OneByte(bytes: Bytes)
    requires |bytes| == 1
    ensures FromLittleEndian(bytes) == bytes[0] as nat
  {
    assert bytes[1..] == [];
  }

  /** The least significant byte comes first. */
  lemma FourBytes(bytes: Bytes)
    requires |bytes| == 4
    ensures FromLittleEndian(bytes)
            == bytes[0] as nat + 256 * bytes[1] as nat + 65536 * bytes[2] as nat + 16777216 * bytes[3] as nat
  {
    TwoBytes(bytes[2..]);
    assert bytes[1..][1..] == bytes[2..];
    assert FromLittleEndian(bytes[1..]) == bytes[1] as nat + 256 * FromLittleEndian(bytes[2..]);
  }

  lemma TwoBytesBig(bytes: Bytes)
    requires |bytes| == 2
    ensures FromBigEndian(bytes) == 256 * bytes[0] as nat + bytes[1] as nat
  {
    assert bytes[..1][..0] == [];
    assert FromBigEndian(bytes[..1]) == bytes[0] as nat;
  }

  lemma FourBytesBig(bytes: Bytes)
    requires |bytes| == 4
    ensures FromBigEndian(bytes)
            == 16777216 * bytes[0] as nat + 65536 * bytes[1] as nat + 256 * bytes[2] as nat + bytes[3] as nat
  {
    TwoBytesBig(bytes[..2]);
    assert bytes[..3][..2] == bytes[..2];
    assert FromBigEndian(bytes[..3]) == 256 * FromBigEndian(bytes[..2]) + bytes[2] as nat;
  }

  /** The most significant byte comes first, as in an address. */
  lemma SixBytesBig(bytes: Bytes)
    requires |bytes| == 6
    ensures FromBigEndian(bytes)
            == 0x100_0000_0000 * bytes[0] as nat + 0x1_0000_0000 * bytes[1] as nat + 0x100_0000 * bytes[2] as nat
               + 0x1_0000 * bytes[3] as nat + 0x100 * bytes[4] as nat + bytes[5] as nat
  {
    FourBytesBig(bytes[..4]);
    assert bytes[..5][..4] == bytes[..4];
    assert FromBigEndian(bytes[..5]) == 256 * FromBigEndian(bytes[..4]) + bytes[4] as nat;
  }
}
