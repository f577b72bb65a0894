/** The little-endian record codec: a writer that appends, and a reader
    that checks every length before it takes anything. */
module Codec {
  /** A byte string; each character carries one byte. */
  type Bytes = string

  // ---- Numbers ----------------------------------------------------------------------------

  function Pow256(n: nat): (p: nat)
    ensures p > 0
  {
    if n == 0 then 1 else 256 * Pow256(n - 1)
  }

  function ByteValue(c: char): (b: nat)
    ensures b < 256
  {
    c as int % 256
  }

  /** The n low bytes of a number, least significant first. */
  function LittleEndian(v: nat, n: nat): (s: Bytes)
    ensures |s| == n
    decreases n
  {
    if n == 0 then [] else [(v % 256) as char] + LittleEndian(v / 256, n - 1)
  }

  /** The number a little-endian byte string stands for. */
  function NumberOf(s: Bytes): (v: nat)
    ensures v < Pow256(|s|)
    decreases |s|
  {
    if s == [] then 0 else ByteValue(s[0]) + 256 * NumberOf(s[1..])
  }

  /** Reading back a number that fits gives the number. */
  lemma {:induction false} NumberRoundTrip(v: nat, n: nat)
    requires v < Pow256(n)
    ensures NumberOf(LittleEndian(v, n)) == v
    decreases n
  {
    if n > 0 {
      NumberRoundTrip(v / 256, n - 1);
      assert LittleEndian(v, n)[1..] == LittleEndian(v / 256, n - 1);
    }
  }

  /** Every byte string is the encoding of its number. */
  lemma {:induction false} BytesRoundTrip(s: Bytes)
    requires forall i :: 0 <= i < |s| ==> s[i] as int < 256
    ensures LittleEndian(NumberOf(s), |s|) == s
    decreases |s|
  {
    if s != [] {
      BytesRoundTrip(s[1..]);
      var low, high := ByteValue(s[0]), NumberOf(s[1..]);
      LowAndHigh(low, high);
      assert NumberOf(s) == low + 256 * high;
      assert s == [low as char] + s[1..];
    }
  }

  lemma LowAndHigh(low: nat, high: nat)
    requires low < 256
    ensures (low + 256 * high) % 256 == low && (low + 256 * high) / 256 == high
  {
  }

  lemma {:induction false} LittleEndianGrows(v: nat, n: nat)
    ensures LittleEndian(v, n + 1) == LittleEndian(v, n) + [((v / Pow256(n)) % 256) as char]
    decreases n
  {
    if n > 0 {
      LittleEndianGrows(v / 256, n - 1);
      NestedDivision(v, Pow256(n - 1));
    }
  }

  lemma NestedDivision(v: nat, p: nat)
    requires p > 0
    ensures (v / 256) / p == v / (256 * p)
  {
    var q := v / (256 * p);
    var r := v % (256 * p);
    assert v == 256 * p * q + r;
    assert v / 256 == p * q + r / 256 by {
      assert v == 256 * (p * q) + r;
    }
    assert 0 <= r / 256 < p;
    DivisionOf(p, q, r / 256);
  }

  lemma DivisionOf(p: int, q: int, r: int)
    requires 0 <= r < p
    ensures (p * q + r) / p == q
  {
    var d := (p * q + r) / p - q;
    var m := (p * q + r) % p;
    assert p * d == r - m;
    assert d >= 1 ==> p * d >= p;
    assert d <= -1 ==> p * d <= -p;
  }

  lemma TimesAssociates(a: nat, b: nat, c: nat)
    ensures a * (b * c) == (a * b) * c
  {
  }

  lemma {:induction false} NumberGrows(s: Bytes, c: char)
    ensures NumberOf(s + [c]) == NumberOf(s) + Pow256(|s|) * ByteValue(c)
    decreases |s|
  {
    if s == [] {
      assert s + [c] == [c];
    } else {
      hide ByteValue;
      NumberGrows(s[1..], c);
      assert (s + [c])[1..] == s[1..] + [c];
      TimesAssociates(256, Pow256(|s| - 1), ByteValue(c));
    }
  }

  const U16: nat := 0x1_0000
  const U32: nat := 0x1_0000_0000
  const U64: nat := 0x1_0000_0000_0000_0000

  lemma Widths()
    ensures Pow256(1) == 256 && Pow256(2) == U16 && Pow256(4) == U32 && Pow256(8) == U64
  {
    assert Pow256(3) == 0x100_0000;
    assert Pow256(5) == 0x100_0000_0000 && Pow256(6) == 0x1_0000_0000_0000;
  }

  /** A length-prefixed byte string. */
  function Blob(s: Bytes): Bytes {
    LittleEndian(|s|, 4) + s
  }

  class RecordWriter {
    var data: Bytes

    constructor ()
      ensures data == []
    {
      data := [];
    }

    /** The bytes of a number, shifted out one after the other. */
    method PutNumber(v: nat, width: nat)
      requires v < Pow256(width)
      modifies this
      ensures data == old(data) + LittleEndian(v, width)
    {
      for k := 0 to width
        invariant data == old(data) + LittleEndian(v, k)
      {
        LittleEndianGrows(v, k);
        data := data + [((v / Pow256(k)) % 256) as char];
      }
    }

    method PutBlob(s: Bytes)
      requires |s| < U32
      modifies this
      ensures data == old(data) + Blob(s)
    {
      Widths();
      PutNumber(|s|, 4);
      data := data + s;
    }
  }

  class RecordReader {
    const data: Bytes
    var offset: nat
    var ok: bool

    ghost predicate Valid()
      reads this
    {
      offset <= |data|
    }

    constructor (data: Bytes)
      ensures Valid() && this.data == data && offset == 0 && ok
    {
      this.data := data;
      offset, ok := 0, true;
    }

    /** A failure is never forgotten, and never followed by another read. */
    method Need(n: nat) returns (enough: bool)
      requires Valid()
      modifies `ok
      ensures Valid() && enough == ok == (old(ok) && n <= |data| - offset)
    {
      if ok && n > |data| - offset {
        ok := false;
      }
      enough := ok;
    }

    method TakeByte() returns (v: nat)
      requires Valid()
      modifies this
      ensures Valid() && v < 256 && ok == (old(ok) && old(offset) < |data|)
      ensures ok ==> v == ByteValue(data[old(offset)]) && offset == old(offset) + 1
      ensures !ok ==> offset == old(offset) && v == 0
    {
      var enough := Need(1);
      if !enough {
        return 0;
      }
      v := ByteValue(data[offset]);
      offset := offset + 1;
    }

    /** A number of the given width is read exactly when that many bytes are left. */
    method TakeNumber(width: nat) returns (v: nat)
      requires Valid()
      modifies this
      ensures Valid() && old(offset) <= offset && ok == (old(ok) && old(offset) + width <= |data|)
      ensures ok ==> offset == old(offset) + width && v == NumberOf(data[old(offset)..offset])
    {
      v := 0;
      ghost var start := offset;
      for k := 0 to width
        invariant Valid() && start <= offset
        invariant (ok ==> old(ok) && offset == start + k && v == NumberOf(data[start..offset]))
        invariant !ok ==> !old(ok) || start + width > |data|
      {
        var b := TakeByte();
        if ok {
          NumberGrows(data[start..start + k], data[start + k]);
          assert data[start..start + k] + [data[start + k]] == data[start..start + k + 1];
        }
        v := v + Pow256(k) * b;
      }
    }

    /** A blob is read exactly when its length is within the limit and all of it is there. */
    method TakeBlob(max: nat) returns (s: Bytes)
      requires Valid()
      modifies this
      ensures Valid() && old(offset) <= offset
      ensures ok <==> old(ok) && old(offset) + 4 <= |data|
                      && NumberOf(data[old(offset)..old(offset) + 4]) <= max
                      && old(offset) + 4 + NumberOf(data[old(offset)..old(offset) + 4]) <= |data|
      ensures ok ==> offset == old(offset) + 4 + NumberOf(data[old(offset)..old(offset) + 4])
      ensures ok ==> s == data[old(offset) + 4..offset]
    {
      s := [];
      var length := TakeNumber(4);
      if !ok {
        return;
      }
      if length > max {
        ok := false;
        return;
      }
      var enough := Need(length);
      if !enough {
        return;
      }
      s := data[offset..offset + length];
      offset := offset + length;
    }
  }
}
