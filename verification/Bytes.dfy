/** Bytes, fixed-width integers and their little-endian digits. */
module Bytes {

  type Byte = x: int | 0 <= x < 256

  const U64_LIMIT: nat := 0x1_0000_0000_0000_0000

  type U64 = x: int | 0 <= x < 0x1_0000_0000_0000_0000

  datatype Option<+T> = None | Some(value: T)

  lemma ConcatAssociates<T>(a: seq<T>, b: seq<T>, c: seq<T>)
    ensures a + (b + c) == (a + b) + c
  {
  }

  lemma PrefixUnderCons<T>(x: T, a: seq<T>, b: seq<T>)
    requires a <= b
    ensures [x] + a <= [x] + b
  {
  }

  /** The `width` low base-256 digits of `value`, least significant first. */
  function Digits(width: nat, value: nat): (bytes: seq<Byte>)
    ensures |bytes| == width
  {
    if width == 0 then [] else [value % 256] + Digits(width - 1, value / 256)
  }

  /** The number whose base-256 digits, least significant first, are `bytes`. */
  function Value(bytes: seq<Byte>): nat {
    if bytes == [] then 0 else bytes[0] + 256 * Value(bytes[1..])
  }

  function Pow256(n: nat): (p: nat)
    ensures p >= 1
  {
    if n == 0 then 1 else 256 * Pow256(n - 1)
  }

  lemma {:induction false} ValueOfDigits(width: nat, value: nat)
    requires value < Pow256(width)
    ensures Value(Digits(width, value)) == value
  {
    if width > 0 {
      ValueOfDigits(width - 1, value / 256);
      assert Digits(width, value)[1..] == Digits(width - 1, value / 256);
    }
  }

  lemma {:induction false} DigitsOfValue(bytes: seq<Byte>)
    ensures Value(bytes) < Pow256(|bytes|)
    ensures Digits(|bytes|, Value(bytes)) == bytes
  {
    if bytes != [] {
      DigitsOfValue(bytes[1..]);
      assert Value(bytes) % 256 == bytes[0] && Value(bytes) / 256 == Value(bytes[1..]);
      assert bytes == [bytes[0]] + bytes[1..];
    }
  }

  /** Eight digits cover exactly the 64-bit range. */
  lemma EightDigits()
    ensures Pow256(8) == U64_LIMIT
  {
    assert Pow256(2) == 0x1_0000;
    assert Pow256(4) == 0x1_0000_0000;
    assert Pow256(6) == 0x1_0000_0000_0000;
  }

  /** The value of any 8-byte string is a 64-bit number. */
  function Value64(bytes: seq<Byte>): (v: U64)
    requires |bytes| == 8
  {
    EightDigits();
    DigitsOfValue(bytes);
    Value(bytes)
  }

  /** Byte strings one after the other. */
  function Joined(parts: seq<seq<Byte>>): (s: seq<Byte>) {
    if parts == [] then [] else parts[0] + Joined(parts[1..])
  }

  lemma {:induction false} JoinedConcat(a: seq<seq<Byte>>, b: seq<seq<Byte>>)
    ensures Joined(a + b) == Joined(a) + Joined(b)
  {
    if a == [] {
      assert a + b == b;
    } else {
      JoinedConcat(a[1..], b);
      assert (a + b)[1..] == a[1..] + b;
      ConcatAssociates(a[0], Joined(a[1..]), Joined(b));
    }
  }

  lemma JoinedSnoc(a: seq<seq<Byte>>, last: seq<Byte>)
    ensures Joined(a + [last]) == Joined(a) + last
  {
    JoinedConcat(a, [last]);
    assert [last][1..] == [];
    assert Joined([last]) == last + [];
  }

  lemma JoinedPrefix(parts: seq<seq<Byte>>, k: nat)
    requires k <= |parts|
    ensures Joined(parts[..k]) <= Joined(parts)
  {
    assert parts == parts[..k] + parts[k..];
    JoinedConcat(parts[..k], parts[k..]);
  }
}
