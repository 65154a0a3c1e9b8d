/** The integer, boolean and character encodings of foreign_basetype.c, little-endian. */
module Scalars {
  import opened Common
  import opened Memory

  /** A Python value; a text or bytes object is a sequence of character codes. */
  datatype Value = Int(i: int) | Bytes(codes: seq<Byte>) | ByteArray(codes: seq<Byte>) | Text(chars: seq<nat>) | Truth(b: bool) | Other

  function Pow256(n: nat): (r: nat)
    ensures 0 < r
  {
    if n == 0 then 1 else 256 * Pow256(n - 1)
  }

  // ----- Bytes as numbers -----

  function Decode(bytes: seq<Byte>): nat {
    if bytes == [] then 0 else bytes[0] + 256 * Decode(bytes[1..])
  }

  function Encode(u: nat, n: nat): (r: seq<Byte>)
    ensures |r| == n
  {
    if n == 0 then [] else [u % 256] + Encode(u / 256, n - 1)
  }

  lemma {:induction false} DecodeEncode(u: nat, n: nat)
    requires u < Pow256(n)
    ensures Decode(Encode(u, n)) == u
  {
    if n > 0 {
      DecodeEncode(u / 256, n - 1);
      assert Encode(u, n)[1..] == Encode(u / 256, n - 1);
    }
  }

  lemma {:induction false} EncodeDecode(bytes: seq<Byte>)
    ensures Decode(bytes) < Pow256(|bytes|)
    ensures Encode(Decode(bytes), |bytes|) == bytes
  {
    if bytes != [] {
      EncodeDecode(bytes[1..]);
      assert bytes == [bytes[0]] + bytes[1..];
      assert Decode(bytes) / 256 == Decode(bytes[1..]) && Decode(bytes) % 256 == bytes[0];
    }
  }

  /** The value of `n` bytes as a number in two's complement. */
  function Signed(u: nat, n: nat): int {
    if 2 * u < Pow256(n) then u else u - Pow256(n)
  }

  predicate InRange(i: int, n: nat, signed: bool) {
    if signed then 0 - Pow256(n) <= 2 * i < Pow256(n) else 0 <= i < Pow256(n)
  }

  /** The conversion of C to an unsigned type of `n` bytes. */
  function Wrap(i: int, n: nat): (u: nat)
    ensures u < Pow256(n)
  {
    i % Pow256(n)
  }

  lemma WrapInRange(i: int, n: nat, signed: bool)
    requires InRange(i, n, signed)
    ensures Wrap(i, n) == if 0 <= i then i else i + Pow256(n)
    ensures (if signed then Signed(Wrap(i, n), n) else Wrap(i, n)) == i
  {
    hide Pow256;
    var m := Pow256(n);
    if i < 0 { ModOf(i, m, -1); } else { ModOf(i, m, 0); }
  }

  lemma ModOf(i: int, m: nat, q: int)
    requires 0 < m && q * m <= i < q * m + m
    ensures i % m == i - q * m
  {
    var d, r := i / m, i % m;
    assert i == d * m + r;
    if d < q { MulLe(d + 1, q, m); }
    if q < d { MulLe(q + 1, d, m); }
  }

  lemma MulLe(a: int, b: int, m: nat)
    requires a <= b
    ensures a * m <= b * m
  {
  }

  // ----- Integers -----

  /** What loading from `bytes` gives. */
  function Load(bytes: seq<Byte>, signed: bool): int {
    if signed then Signed(Decode(bytes), |bytes|) else Decode(bytes)
  }

  lemma LoadStored(i: int, n: nat, signed: bool)
    requires InRange(i, n, signed)
    ensures Load(Encode(Wrap(i, n), n), signed) == i
  {
    WrapInRange(i, n, signed);
    DecodeEncode(Wrap(i, n), n);
  }

  lemma SignedInverse(u: nat, n: nat)
    requires u < Pow256(n)
    ensures InRange(Signed(u, n), n, true) && Wrap(Signed(u, n), n) == u
    ensures InRange(u, n, false) && Wrap(u, n) == u
  {
    hide Pow256;
    WrapInRange(Signed(u, n), n, true);
    WrapInRange(u, n, false);
  }

  /** Storing what was loaded gives the same bytes. */
  lemma StoreLoaded(bytes: seq<Byte>, signed: bool)
    ensures InRange(Load(bytes, signed), |bytes|, signed)
    ensures Encode(Wrap(Load(bytes, signed), |bytes|), |bytes|) == bytes
  {
    hide Pow256, Decode, Encode, Wrap, InRange, Signed;
    EncodeDecode(bytes);
    SignedInverse(Decode(bytes), |bytes|);
  }

  /** The conversions to `long long` and `unsigned long long`; None is an exception. */
  function AsLong(obj: Value, signed: bool): Option<int> {
    match obj
    case Int(i) => if InRange(i, 8, signed) then Some(i) else None
    case Truth(b) => Some(if b then 1 else 0)
    case _ => None
  }

  lemma {:induction false} PowMono(a: nat, b: nat)
    requires a <= b
    ensures Pow256(a) <= Pow256(b)
  {
    if a < b { PowMono(a, b - 1); }
  }

  lemma RangeMono(i: int, n: nat, signed: bool)
    requires n <= 8 && InRange(i, n, signed)
    ensures InRange(i, 8, signed)
  {
    PowMono(n, 8);
  }

  /** A value that an integer field of `n` bytes accepts, and the number it stands for. */
  function Accepted(obj: Value, n: nat, signed: bool): Option<int> {
    match obj
    case Int(i) => if InRange(i, n, signed) then Some(i) else None
    case Truth(b) => Some(if b then 1 else 0)
    case _ => None
  }

  /** int8_storeinto to int64_storeinto and their unsigned versions: a number is stored exactly
      if it is in range, a truth value as 0 or 1, and nothing else is. */
  method IntStoreInto(obj: Value, mem: array<Byte>, dest: nat, n: nat, signed: bool) returns (ok: bool)
    requires n in {1, 2, 4, 8} && dest + n <= mem.Length
    modifies mem
    ensures ok <==> Accepted(obj, n, signed).Some?
    ensures match obj
            case Int(i) => (ok <==> InRange(i, n, signed)) && (ok ==> Load(mem[dest..dest + n], signed) == i)
            case Truth(b) => ok && Load(mem[dest..dest + n], signed) == if b then 1 else 0
            case _ => !ok
    ensures !ok ==> mem[..] == old(mem[..])
    ensures ok ==> mem[..] == Put(old(mem[..]), dest, mem[dest..dest + n])
    ensures ok ==> Load(mem[dest..dest + n], signed) == Accepted(obj, n, signed).value
  {
    var long := AsLong(obj, signed);
    if obj.Int? && InRange(obj.i, n, signed) { RangeMono(obj.i, n, signed); }
    if long.None? { return false; }
    if !InRange(long.value, n, signed) {
      SmallInRange(n, signed);
      return false;
    }
    Store(mem, dest, Encode(Wrap(long.value, n), n));
    LoadStored(long.value, n, signed);
    return true;
  }

  lemma SmallInRange(n: nat, signed: bool)
    requires 0 < n
    ensures InRange(0, n, signed) && InRange(1, n, signed)
  {
    PowMono(1, n);
  }

  /** int8_getfrom to int64_getfrom and their unsigned versions. */
  method IntGetFrom(mem: array<Byte>, data: nat, n: nat, signed: bool) returns (obj: Value)
    requires data + n <= mem.Length
    ensures obj == Int(Load(mem[data..data + n], signed)) && Accepted(obj, n, signed) == Some(obj.i)
  {
    StoreLoaded(mem[data..data + n], signed);
    return Int(Load(mem[data..data + n], signed));
  }

  // ----- What the bytes mean -----

  /** Little-endian place values: each further byte counts 256 times as much. */
  lemma {:induction false} PlaceValue(bytes: seq<Byte>, b: Byte)
    ensures Decode(bytes + [b]) == Decode(bytes) + b * Pow256(|bytes|)
  {
    if bytes == [] {
      assert [b][1..] == [] && [] + [b] == [b];
      assert Decode([b]) == b + 256 * Decode([]);
    } else {
      assert (bytes + [b])[1..] == bytes[1..] + [b];
      PlaceValue(bytes[1..], b);
      assert 256 * (b * Pow256(|bytes| - 1)) == b * (256 * Pow256(|bytes| - 1));
    }
  }

  /** The limits of the fixed-width types. */
  lemma Limits(i: int)
    ensures InRange(i, 1, false) <==> 0 <= i <= 255
    ensures InRange(i, 1, true) <==> -128 <= i <= 127
    ensures InRange(i, 2, false) <==> 0 <= i <= 65535
    ensures InRange(i, 2, true) <==> -32768 <= i <= 32767
    ensures InRange(i, 4, false) <==> 0 <= i <= 0xFFFF_FFFF
    ensures InRange(i, 4, true) <==> -0x8000_0000 <= i <= 0x7FFF_FFFF
    ensures InRange(i, 8, false) <==> 0 <= i <= 0xFFFF_FFFF_FFFF_FFFF
    ensures InRange(i, 8, true) <==> -0x8000_0000_0000_0000 <= i <= 0x7FFF_FFFF_FFFF_FFFF
  {
    assert Pow256(0) == 1 && Pow256(1) == 256 && Pow256(2) == 65536;
    assert Pow256(3) == 0x100_0000 && Pow256(4) == 0x1_0000_0000;
    assert Pow256(5) == 0x100_0000_0000 && Pow256(6) == 0x1_0000_0000_0000 && Pow256(7) == 0x100_0000_0000_0000;
  }

  /** Two's complement: the top bit of the last byte makes a number negative, by the full range. */
  lemma TwosComplement(bytes: seq<Byte>)
    requires bytes != []
    ensures Load(bytes, true) == Load(bytes, false) - if bytes[|bytes| - 1] >= 128 then Pow256(|bytes|) else 0
  {
    var n := |bytes| - 1;
    PlaceValue(bytes[..n], bytes[n]);
    EncodeDecode(bytes[..n]);
    assert bytes == bytes[..n] + [bytes[n]];
    var low, p, b := Decode(bytes[..n]), Pow256(n), bytes[n];
    assert Pow256(|bytes|) == 256 * p;
    if b >= 128 { MulLe(128, b, p); } else { MulLe(b, 127, p); }
  }

  // ----- Characters -----

  /** char_to_long */
  function CharToLong(c: Value): Option<Value> {
    match c
    case Bytes(s) => if |s| == 1 then Some(Int(s[0])) else None
    case Text(s) => if |s| == 1 then Some(Int(s[0])) else None
    case ByteArray(s) => if |s| == 1 then Some(Int(s[0])) else None
    case Int(_) => Some(c)
    case Truth(_) => Some(c)
    case Other => None
  }

  /** uchar8_storeinto to uchar64_storeinto and their signed versions. */
  method CharStoreInto(obj: Value, mem: array<Byte>, dest: nat, n: nat, signed: bool) returns (ok: bool)
    requires n in {1, 2, 4, 8} && dest + n <= mem.Length
    modifies mem
    ensures match obj
            case Int(i) => (ok <==> InRange(i, n, signed)) && (ok ==> Load(mem[dest..dest + n], signed) == i)
            case Bytes(s) => (ok <==> |s| == 1 && InRange(s[0], n, signed)) && (ok ==> Load(mem[dest..dest + n], signed) == s[0])
            case ByteArray(s) => (ok <==> |s| == 1 && InRange(s[0], n, signed)) && (ok ==> Load(mem[dest..dest + n], signed) == s[0])
            case Text(s) => (ok <==> |s| == 1 && InRange(s[0], n, signed)) && (ok ==> Load(mem[dest..dest + n], signed) == s[0])
            case Truth(b) => ok && Load(mem[dest..dest + n], signed) == if b then 1 else 0
            case Other => !ok
    ensures ok <==> CharToLong(obj).Some? && Accepted(CharToLong(obj).value, n, signed).Some?
    ensures !ok ==> mem[..] == old(mem[..])
    ensures ok ==> mem[..] == Put(old(mem[..]), dest, mem[dest..dest + n])
    ensures ok ==> Load(mem[dest..dest + n], signed) == Accepted(CharToLong(obj).value, n, signed).value
  {
    var long := CharToLong(obj);
    if long.None? { return false; }
    ok := IntStoreInto(long.value, mem, dest, n, signed);
  }

  /** char8_getfrom to char64_getfrom */
  function CharGetFrom(bytes: seq<Byte>): Value {
    Bytes(bytes)
  }

  /** A loaded character can be stored again exactly if it is one byte wide and, when
      signed, below 128. */
  lemma CharRestoreIff(bytes: seq<Byte>, signed: bool)
    requires |bytes| in {1, 2, 4, 8}
    ensures var long := CharToLong(CharGetFrom(bytes));
      long.Some? && Accepted(long.value, |bytes|, signed).Some? <==> |bytes| == 1 && (signed ==> bytes[0] < 128)
  {
    assert Pow256(1) == 256 by { assert Pow256(0) == 1; }
  }

  /** When it can, its bytes do not change. */
  lemma CharRestoreSame(bytes: seq<Byte>, signed: bool)
    requires |bytes| == 1 && (signed ==> bytes[0] < 128)
    ensures var long := CharToLong(CharGetFrom(bytes));
      long.Some? && long.value.Int? && Encode(Wrap(long.value.i, 1), 1) == bytes
  {
    assert Pow256(1) == 256 by { assert Pow256(0) == 1; }
    assert Encode(bytes[0], 1) == [bytes[0] % 256] + Encode(0, 0);
  }

  // ----- Booleans -----

  /** bool_getfrom */
  function BoolGetFrom(b: Byte): Value {
    Truth(b != 0)
  }

  /** bool_storeinto, for an object whose truth value is known; None is an exception. */
  method BoolStoreInto(truth: Option<bool>, mem: array<Byte>, dest: nat) returns (ok: bool)
    requires dest < mem.Length
    modifies mem
    ensures ok <==> truth.Some?
    ensures mem[..] == if truth.Some? then Put(old(mem[..]), dest, [if truth.value then 1 else 0]) else old(mem[..])
    ensures ok ==> BoolGetFrom(mem[dest]) == Truth(truth.value)
  {
    if truth.None? { return false; }
    Store(mem, dest, [if truth.value then 1 else 0]);
    return true;
  }
}
