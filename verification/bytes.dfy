/** Bytes, fixed-width unsigned integers and their big-endian wire form. */
module Bytes {
  type byte = b: int | 0 <= b < 0x100
  type u16 = n: int | 0 <= n < 0x1_0000
  type u32 = n: int | 0 <= n < 0x1_0000_0000

  const U32_COUNT: int := 0x1_0000_0000

  /** Two bytes as a big-endian number. The shifted operands have no bit in common, so the "or" is a sum. */
  function Load16(s: seq<byte>, at: nat): u16
    requires at + 2 <= |s|
  {
    s[at] as int * 0x100 + s[at + 1]
  }

  function Load32(s: seq<byte>, at: nat): u32
    requires at + 4 <= |s|
  {
    s[at] as int * 0x100_0000 + s[at + 1] as int * 0x1_0000 + s[at + 2] as int * 0x100 + s[at + 3]
  }

  function Store16(n: u16): (s: seq<byte>)
    ensures |s| == 2 && Load16(s, 0) == n
  {
    [n / 0x100, n % 0x100]
  }

  function Store32(n: u32): (s: seq<byte>)
    ensures |s| == 4 && Load32(s, 0) == n
  {
    assert n / 0x1_0000 == n / 0x100 / 0x100 && n / 0x100_0000 == n / 0x1_0000 / 0x100;
    [n / 0x100_0000, n / 0x1_0000 % 0x100, n / 0x100 % 0x100, n % 0x100]
  }

  lemma LoadStore16(s: seq<byte>, at: nat)
    requires at + 2 <= |s|
    ensures Store16(Load16(s, at)) == s[at..at + 2]
  {
    assert s[at..at + 2] == [s[at], s[at + 1]];
  }

  lemma LowDigit(n: int, d: byte)
    ensures (n * 0x100 + d) / 0x100 == n && (n * 0x100 + d) % 0x100 == d
  {
  }

  lemma LoadStoreDigits(a: byte, b: byte, c: byte, d: byte)
    ensures Store32(a as int * 0x100_0000 + b as int * 0x1_0000 + c as int * 0x100 + d) == [a, b, c, d]
  {
    var ab := a as int * 0x100 + b;
    var abc := ab * 0x100 + c;
    var n := abc * 0x100 + d;
    LowDigit(a, b);
    LowDigit(ab, c);
    LowDigit(abc, d);
    assert n / 0x1_0000 == n / 0x100 / 0x100;
    assert n / 0x100_0000 == n / 0x1_0000 / 0x100;
  }

  /** The high byte comes first, in both directions and both widths. */
  lemma BigEndian(a: byte, b: byte, c: byte, d: byte)
    ensures Store16(a as int * 0x100 + b) == [a, b] && Load16([a, b], 0) == a as int * 0x100 + b
    ensures var n := a as int * 0x100_0000 + b as int * 0x1_0000 + c as int * 0x100 + d;
            Store32(n) == [a, b, c, d] && Load32([a, b, c, d], 0) == n
  {
    hide Store32;
    LowDigit(a, b);
    LoadStoreDigits(a, b, c, d);
  }

  /** Storing what was loaded gives the four bytes back: the two directions make the codec a bijection. */
  lemma LoadStore32(s: seq<byte>, at: nat)
    requires at + 4 <= |s|
    ensures Store32(Load32(s, at)) == s[at..at + 4]
  {
    LoadStoreDigits(s[at], s[at + 1], s[at + 2], s[at + 3]);
    assert s[at..at + 4] == [s[at], s[at + 1], s[at + 2], s[at + 3]];
  }

  /** A load only looks at its own bytes. */
  lemma LoadSlice32(s: seq<byte>, t: seq<byte>, at: nat, shift: nat)
    requires at + 4 <= |s| && at + shift + 4 <= |t|
    requires s[at..at + 4] == t[at + shift..at + shift + 4]
    ensures Load32(s, at) == Load32(t, at + shift)
  {
    var u, v := s[at..at + 4], t[at + shift..at + shift + 4];
    assert u[0] == s[at] && u[1] == s[at + 1] && u[2] == s[at + 2] && u[3] == s[at + 3];
    assert v[0] == t[at + shift] && v[1] == t[at + shift + 1] && v[2] == t[at + shift + 2] && v[3] == t[at + shift + 3];
  }

  lemma LoadSlice16(s: seq<byte>, t: seq<byte>, at: nat, shift: nat)
    requires at + 2 <= |s| && at + shift + 2 <= |t|
    requires s[at..at + 2] == t[at + shift..at + shift + 2]
    ensures Load16(s, at) == Load16(t, at + shift)
  {
    var u, v := s[at..at + 2], t[at + shift..at + shift + 2];
    assert u[0] == s[at] && u[1] == s[at + 1];
    assert v[0] == t[at + shift] && v[1] == t[at + shift + 1];
  }

  /** `_loqui_store16` and Go's `PutUint16`. Headers are filled from the front: what was written stays, what follows
      is untouched. */
  method Put16(to: array<byte>, at: nat, num: u16)
    requires at + 2 <= to.Length
    modifies to
    ensures to[..at + 2] == old(to[..at]) + Store16(num) && to[at + 2..] == old(to[at + 2..])
  {
    var v := Store16(num);
    forall i | 0 <= i < 2 { to[at + i] := v[i]; }
  }

  /** `_loqui_store32` and Go's `PutUint32`. */
  method Put32(to: array<byte>, at: nat, num: u32)
    requires at + 4 <= to.Length
    modifies to
    ensures to[..at + 4] == old(to[..at]) + Store32(num) && to[at + 4..] == old(to[at + 4..])
  {
    var v := Store32(num);
    forall i | 0 <= i < 4 { to[at + i] := v[i]; }
  }

  // ---------- cutting and joining ----------

  lemma Assoc<T>(a: seq<T>, b: seq<T>, c: seq<T>)
    ensures a + b + c == a + (b + c)
  {
  }

  lemma DropDrop<T>(s: seq<T>, a: nat, b: nat)
    requires a + b <= |s|
    ensures s[a..][b..] == s[a + b..]
  {
  }

  lemma SliceLeft<T>(s: seq<T>, t: seq<T>, i: nat, j: nat)
    requires i <= j <= |s|
    ensures (s + t)[i..j] == s[i..j]
  {
  }

  lemma SliceRight<T>(s: seq<T>, t: seq<T>, i: nat, j: nat)
    requires i <= j <= |t|
    ensures (s + t)[|s| + i..|s| + j] == t[i..j]
  {
  }

  lemma LoadStored32(before: seq<byte>, n: u32, after: seq<byte>)
    ensures Load32(before + Store32(n) + after, |before|) == n
  {
    hide Load32, Store32;
    var s := before + Store32(n) + after;
    SliceLeft(before + Store32(n), after, |before|, |before| + 4);
    SliceRight(before, Store32(n), 0, 4);
    LoadSlice32(Store32(n), s, 0, |before|);
  }

  /** Loads from a part of a byte string are loads from the whole. */
  lemma PartLoads(s: seq<byte>, at: nat, n: nat)
    requires at + n <= |s|
    ensures n >= 4 ==> Load32(s[at..at + n], 0) == Load32(s, at)
    ensures n >= 2 ==> Load16(s[at..at + n], 0) == Load16(s, at)
    ensures n >= 6 ==> Load16(s[at..at + n], 4) == Load16(s, at + 4)
  {
  }
}
