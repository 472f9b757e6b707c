/** Proof of work: counting the leading zero bits of a digest compares it with a power of two. */
module Difficulty {
  newtype Byte = n: int | 0 <= n < 256

  const DIGEST_LENGTH: nat := 32

  function Pow2(n: nat): (r: nat)
    ensures r > 0
  {
    if n == 0 then 1 else 2 * Pow2(n - 1)
  }

  /** The bytes read as one big-endian number. */
  function BigEndian(bytes: seq<Byte>): (r: nat) {
    if bytes == [] then 0 else bytes[0] as nat * Pow2(8 * (|bytes| - 1)) + BigEndian(bytes[1..])
  }

  /** Leading zero bits of one byte. */
  function ByteZeros(b: Byte): (z: nat)
    ensures z <= 8 && b as nat < Pow2(8 - z) && (z < 8 ==> Pow2(7 - z) <= b as nat)
  {
    assert Pow2(1) == 2 && Pow2(2) == 4 && Pow2(3) == 8;
    assert Pow2(4) == 16 && Pow2(5) == 32 && Pow2(6) == 64;
    assert Pow2(7) == 128 && Pow2(8) == 256;
    if b >= 128 then 0 else if b >= 64 then 1 else if b >= 32 then 2 else if b >= 16 then 3
    else if b >= 8 then 4 else if b >= 4 then 5 else if b >= 2 then 6 else if b >= 1 then 7 else 8
  }

  function Zeros(bytes: seq<Byte>): (z: nat)
    ensures z <= 8 * |bytes|
  {
    if bytes == [] then 0
    else if ByteZeros(bytes[0]) < 8 then ByteZeros(bytes[0])
    else 8 + Zeros(bytes[1..])
  }

  /** Add up the zeros of each byte, up to and including the first byte that is not zero. */
  method LeadingZeros(digest: seq<Byte>) returns (zeros: nat)
    ensures zeros <= 8 * |digest|
    ensures BigEndian(digest) < Pow2(8 * |digest| - zeros)
    ensures zeros < 8 * |digest| ==> Pow2(8 * |digest| - zeros - 1) <= BigEndian(digest)
  {
    ZerosBound(digest);
    zeros := 0;
    assert digest[0..] == digest;
    for i := 0 to |digest|
      invariant zeros == 8 * i
      invariant Zeros(digest) == zeros + Zeros(digest[i..])
    {
      assert digest[i..][0] == digest[i] && digest[i..][1..] == digest[i + 1..];
      var lz := ByteZeros(digest[i]);
      zeros := zeros + lz;
      if lz < 8 { return; }
    }
  }

  lemma {:induction false} Pow2Adds(a: nat, b: nat)
    ensures Pow2(a + b) == Pow2(a) * Pow2(b)
  {
    if a > 0 { Pow2Adds(a - 1, b); }
  }

  lemma {:induction false} Pow2Grows(a: nat, b: nat)
    requires a <= b
    ensures Pow2(a) <= Pow2(b)
  {
    if a < b { Pow2Grows(a, b - 1); }
  }

  lemma {:induction false} BigEndianBound(bytes: seq<Byte>)
    ensures BigEndian(bytes) < Pow2(8 * |bytes|)
  {
    if bytes != [] {
      BigEndianBound(bytes[1..]);
      Scaled(bytes[0] as nat, 8, BigEndian(bytes[1..]), 8 * (|bytes| - 1));
    }
  }

  /** A leading digit below a power of two, followed by a number below its own. */
  lemma Scaled(digit: nat, e: nat, rest: nat, m: nat)
    requires digit < Pow2(e) && rest < Pow2(m)
    ensures digit * Pow2(m) + rest < Pow2(e + m)
  {
    hide Pow2;
    Pow2Adds(e, m);
    ProductBound(digit, Pow2(e), rest, Pow2(m));
  }

  lemma ProductBound(a: nat, b: nat, r: nat, c: nat)
    requires a < b && r < c
    ensures a * c + r < b * c
  {
    ProductGrows(a + 1, b, c);
  }

  lemma {:induction false} ProductGrows(a: nat, b: nat, c: nat)
    requires a <= b
    ensures a * c <= b * c
  {
    if a < b { ProductGrows(a, b - 1, c); }
  }

  /** The number of leading zeros places the number between two powers of two. */
  lemma {:induction false} ZerosBound(bytes: seq<Byte>)
    ensures BigEndian(bytes) < Pow2(8 * |bytes| - Zeros(bytes))
    ensures Zeros(bytes) < 8 * |bytes| ==> Pow2(8 * |bytes| - Zeros(bytes) - 1) <= BigEndian(bytes)
  {
    hide Pow2;
    if bytes != [] {
      var rest, m := bytes[1..], 8 * (|bytes| - 1);
      var z := ByteZeros(bytes[0]);
      if z < 8 {
        BigEndianBound(rest);
        Scaled(bytes[0] as nat, 8 - z, BigEndian(rest), m);
        Pow2Adds(7 - z, m);
        ProductGrows(Pow2(7 - z), bytes[0] as nat, Pow2(m));
      } else {
        ZeroByte(bytes[0], Pow2(m));
        ZerosBound(rest);
      }
    }
  }

  lemma ZeroByte(b: Byte, c: nat)
    requires ByteZeros(b) == 8
    ensures b as nat * c == 0
  {
    assert b == 0;
  }

  /** A 32-byte hash has `d` leading zero bits exactly when it is below 2^(256 - d). */
  method MeetsDifficulty(hash: seq<Byte>, d: nat) returns (ok: bool)
    requires |hash| == DIGEST_LENGTH
    ensures d <= 256 ==> (ok <==> BigEndian(hash) < Pow2(256 - d))
    ensures d > 256 ==> !ok
  {
    hide Pow2, BigEndian;
    var zeros := LeadingZeros(hash);
    ok := zeros >= d;
    if d <= zeros {
      Pow2Grows(256 - zeros, 256 - d);
    } else if d <= 256 {
      Pow2Grows(256 - d, 256 - zeros - 1);
    }
  }
}
