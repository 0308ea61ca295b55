/** Host byte orders and the conversions of src/endian/endian.hpp. */
module Endian {
  import opened Bytes

  datatype ByteOrder = LittleHost | BigHost

  function Reversed(s: seq<Byte>): (r: seq<Byte>)
    ensures |r| == |s|
    ensures forall i :: 0 <= i < |s| ==> r[i] == s[|s| - 1 - i]
  {
    seq(|s|, i requires 0 <= i < |s| => s[|s| - 1 - i])
  }

  /** The eight bytes a host keeps in memory for a 64-bit integer. */
  function Store(host: ByteOrder, x: U64): (bytes: seq<Byte>)
    ensures |bytes| == 8
  {
    if host.LittleHost? then Digits(8, x) else Reversed(Digits(8, x))
  }

  /** The 64-bit integer a host reads from eight bytes of memory. */
  function Load(host: ByteOrder, bytes: seq<Byte>): (x: U64)
    requires |bytes| == 8
  {
    Value64(if host.LittleHost? then bytes else Reversed(bytes))
  }

  /** Reverses the byte order of a 64-bit integer. */
  function EndianReverse(x: U64): (y: U64) {
    Value64(Reversed(Digits(8, x)))
  }

  function ToLittle(host: ByteOrder, x: U64): (y: U64) {
    if host.LittleHost? then x else EndianReverse(x)
  }

  function FromLittle(host: ByteOrder, x: U64): (y: U64) {
    if host.LittleHost? then x else EndianReverse(x)
  }

  lemma ReversedTwice(s: seq<Byte>)
    ensures Reversed(Reversed(s)) == s
  {
  }

  /** Whatever the host, storing a converted integer lays out its little-endian digits. */
  lemma StoreToLittle(host: ByteOrder, x: U64)
    ensures Store(host, ToLittle(host, x)) == Digits(8, x)
  {
    if host.BigHost? {
      DigitsOfValue(Reversed(Digits(8, x)));
      ReversedTwice(Digits(8, x));
    }
  }

  /** Whatever the host, loading eight bytes and converting reads them as little-endian digits. */
  lemma FromLittleLoad(host: ByteOrder, bytes: seq<Byte>)
    requires |bytes| == 8
    ensures FromLittle(host, Load(host, bytes)) == Value64(bytes)
  {
    if host.BigHost? {
      DigitsOfValue(Reversed(bytes));
      ReversedTwice(bytes);
    }
  }

  /** An integer stored on one host and loaded on another survives every pair of byte orders. */
  lemma CrossHost(writer: ByteOrder, reader: ByteOrder, x: U64)
    ensures FromLittle(reader, Load(reader, Store(writer, ToLittle(writer, x)))) == x
  {
    StoreToLittle(writer, x);
    FromLittleLoad(reader, Digits(8, x));
    EightDigits();
    ValueOfDigits(8, x);
  }
}
