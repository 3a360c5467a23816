/** Byte streams (src/fileloader.h, `PropStream` and `PropWriteStream`).

  Integers are written little-endian in a fixed number of bytes; a value outside the width is
  truncated, as the C++ casts do.  Strings carry a 16-bit length; longer ones are written empty. */
module PropStreams {
  import opened Wrappers

  type byte = x: int | 0 <= x < 256
  type bytes = seq<byte>

  /** 256 to the power of `n`. */
  function Pow256(n: nat): (p: nat)
    ensures p > 0
  {
    if n == 0 then 1 else 256 * Pow256(n - 1)
  }

  /** The low `n` bytes of `v`, least significant first. */
  function LittleEndian(n: nat, v: nat): (b: bytes)
    ensures |b| == n
  {
    if n == 0 then [] else [v % 256] + LittleEndian(n - 1, v / 256)
  }

  function FromLittleEndian(b: bytes): nat {
    if b == [] then 0 else b[0] + 256 * FromLittleEndian(b[1..])
  }

  /** The unsigned integer of `n` bytes that a cast of `v` yields. */
  function Truncate(n: nat, v: int): (u: nat)
    ensures u < Pow256(n)
  {
    v % Pow256(n)
  }

  /** The two's complement reading of an unsigned integer of `n` bytes. */
  function Signed(n: nat, u: nat): int {
    if 2 * u >= Pow256(n) then u - Pow256(n) else u
  }

  lemma {:induction false} LittleEndianInverse(n: nat, v: nat)
    ensures FromLittleEndian(LittleEndian(n, v)) == v % Pow256(n)
  {
    if n > 0 {
      LittleEndianInverse(n - 1, v / 256);
      var p := Pow256(n - 1);
      var q := v / 256;
      assert LittleEndian(n, v)[1..] == LittleEndian(n - 1, q);
      SplitModulo(v, p);
    }
  }

  lemma {:induction false} SplitModulo(v: nat, p: nat)
    requires p > 0
    ensures v % (256 * p) == v % 256 + 256 * ((v / 256) % p)
  {
    var q := v / 256;
    var k := q / p;
    assert v == 256 * q + v % 256 && q == p * k + q % p;
    assert v == (256 * p) * k + (v % 256 + 256 * (q % p));
    ModuloUnique(v, 256 * p, k, v % 256 + 256 * (q % p));
  }

  lemma {:induction false} ModuloUnique(v: int, m: nat, k: int, r: int)
    requires m > 0 && v == m * k + r && 0 <= r < m
    ensures v % m == r
  {
    var j := v / m;
    assert v == m * j + v % m;
    assert m * (k - j) == v % m - r;
    MultipleIsFar(m, k - j);
  }

  lemma {:induction false} MultipleIsFar(m: nat, d: int)
    ensures d >= 1 ==> m * d >= m
    ensures d <= -1 ==> m * d <= -(m as int)
  {
    if d >= 1 {
      assert m * d == m + m * (d - 1);
    } else if d <= -1 {
      assert m * d == -(m as int) + m * (d + 1);
    }
  }

  /** Writing and reading a signed value of `n` bytes keeps it exactly when it fits. */
  lemma {:induction false} SignedRoundTrip(n: nat, v: int)
    requires n > 0
    ensures Signed(n, Truncate(n, v)) == v <==> -(Pow256(n) / 2) <= v < Pow256(n) / 2
  {
    var h := 128 * Pow256(n - 1);
    assert Pow256(n) == 2 * h;
    assert v == (2 * h) * (v / (2 * h)) + v % (2 * h);
    SignedFits(h, v / (2 * h), v % (2 * h), v);
  }

  lemma {:induction false} SignedFits(h: nat, q: int, u: nat, v: int)
    requires 0 < h && u < 2 * h && v == (2 * h) * q + u
    ensures (if u >= h then u - 2 * h else u) == v <==> -(h as int) <= v < h
  {
    if q >= 1 {
      MultipleIsFar(2 * h, q);
    } else if q <= -2 {
      MultipleIsFar(2 * h, q + 1);
      assert (2 * h) * (q + 1) == (2 * h) * q + 2 * h;
    } else if q == -1 {
      assert v == u - 2 * h;
    } else {
      assert v == u;
    }
  }

  /** Writing and reading an unsigned value of `n` bytes keeps it exactly when it fits. */
  lemma {:induction false} UnsignedRoundTrip(n: nat, v: int)
    ensures Truncate(n, v) == v <==> 0 <= v < Pow256(n)
  {
    if 0 <= v < Pow256(n) {
      ModuloUnique(v, Pow256(n), 0, v);
    }
  }

  /** What a read of `n` bytes returns: the value and the bytes after it. */
  function ReadNumber(n: nat, b: bytes): Option<(nat, bytes)> {
    if |b| < n then None else Some((FromLittleEndian(b[..n]), b[n..]))
  }

  function NumberBytes(n: nat, v: int): (b: bytes)
    ensures |b| == n
  {
    LittleEndian(n, Truncate(n, v))
  }

  lemma {:induction false} NumberRoundTrip(n: nat, v: int, rest: bytes)
    ensures ReadNumber(n, NumberBytes(n, v) + rest) == Some((Truncate(n, v), rest))
  {
    var b := NumberBytes(n, v);
    assert (b + rest)[..n] == b && (b + rest)[n..] == rest;
    LittleEndianInverse(n, Truncate(n, v));
    UnsignedRoundTrip(n, Truncate(n, v));
  }

  const MAX_STRING := 0xFFFF

  /** The string that survives `writeString`: an overlong one is written empty. */
  function Storable(s: bytes): bytes {
    if |s| > MAX_STRING then [] else s
  }

  function StringBytes(s: bytes): bytes {
    NumberBytes(2, |Storable(s)|) + Storable(s)
  }

  function ReadString(b: bytes): Option<(bytes, bytes)> {
    match ReadNumber(2, b)
    case None => None
    case Some((n, rest)) => if |rest| < n then None else Some((rest[..n], rest[n..]))
  }

  lemma {:induction false} StringRoundTrip(s: bytes, rest: bytes)
    ensures ReadString(StringBytes(s) + rest) == Some((Storable(s), rest))
  {
    var t := Storable(s);
    assert StringBytes(s) + rest == NumberBytes(2, |t|) + (t + rest);
    NumberRoundTrip(2, |t|, t + rest);
    assert Pow256(2) == 65536 by { assert Pow256(1) == 256; }
    UnsignedRoundTrip(2, |t|);
    assert (t + rest)[..|t|] == t && (t + rest)[|t|..] == rest;
  }

  class PropWriteStream {
    var buffer: bytes

    constructor ()
      ensures buffer == []
    {
      buffer := [];
    }

    method Clear()
      modifies this
      ensures buffer == []
    {
      buffer := [];
    }

    /** `write<T>` for an integer type of `n` bytes. */
    method Write(n: nat, v: int)
      modifies this
      ensures buffer == old(buffer) + NumberBytes(n, v)
    {
      buffer := buffer + LittleEndian(n, Truncate(n, v));
    }

    method WriteString(s: bytes)
      modifies this
      ensures buffer == old(buffer) + StringBytes(s)
    {
      if |s| > MAX_STRING {
        Write(2, 0);
        assert StringBytes(s) == NumberBytes(2, 0);
      } else {
        Write(2, |s|);
        buffer := buffer + s;
      }
    }
  }

  class PropStream {
    const data: bytes
    var p: nat

    /** `init`: the read position is the start of the data. */
    constructor (data: bytes)
      ensures this.data == data && Valid() && Rest() == data
    {
      this.data := data;
      p := 0;
    }

    predicate Valid()
      reads this
    {
      p <= |data|
    }

    /** The bytes from the read position on. */
    function Rest(): bytes
      reads this
      requires Valid()
    {
      data[p..]
    }

    /** `read<T>` for an integer type of `n` bytes: on failure nothing moves. */
    method Read(n: nat) returns (ok: bool, v: nat)
      requires Valid()
      modifies this`p
      ensures Valid()
      ensures ok <==> n <= |old(Rest())|
      ensures ok ==> p == old(p) + n
      ensures ok ==> ReadNumber(n, old(Rest())) == Some((v, Rest()))
      ensures !ok ==> p == old(p) && ReadNumber(n, old(Rest())) == None
    {
      if |data| - p < n {
        return false, 0;
      }
      v := FromLittleEndian(data[p..p + n]);
      assert data[p..][..n] == data[p..p + n] && data[p..][n..] == data[p + n..];
      p := p + n;
      ok := true;
    }

    /** `readString`: on failure the length may already have been consumed. */
    method ReadStringValue() returns (ok: bool, s: bytes)
      requires Valid()
      modifies this`p
      ensures Valid() && p >= old(p)
      ensures ok ==> ReadString(old(Rest())) == Some((s, Rest()))
      ensures !ok ==> ReadString(old(Rest())) == None
    {
      s := [];
      var n: nat;
      ok, n := Read(2);
      if !ok { return; }
      if |data| - p < n {
        return false, [];
      }
      s := data[p..p + n];
      assert data[p..][..n] == data[p..p + n] && data[p..][n..] == data[p + n..];
      p := p + n;
    }

    /** `skip` */
    method Skip(n: nat) returns (ok: bool)
      requires Valid()
      modifies this`p
      ensures Valid()
      ensures ok <==> n <= |old(Rest())|
      ensures Rest() == if ok then old(Rest())[n..] else old(Rest())
    {
      if |data| - p < n {
        return false;
      }
      assert data[p..][n..] == data[p + n..];
      p := p + n;
      ok := true;
    }
  }
}
