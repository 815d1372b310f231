/**
  Machine words as bounded integers and their wire encodings. Go's shifts and
  masks on unsigned words are written as `/` and `%` by powers of two.
 */
module Bytes {

  type Byte = b: int | 0 <= b < 0x100
  type U16 = x: int | 0 <= x < 0x1_0000
  type U32 = x: int | 0 <= x < 0x1_0000_0000

  datatype Option<+T> = None | Some(value: T)

  datatype Result<+T, +E> = Ok(value: T) | Err(error: E)

  /** Conversion of an int to uint16, which drops the high bits. */
  function ToU16(x: nat): U16 {
    x % 0x1_0000
  }

  function Min(a: nat, b: nat): nat {
    if a < b then a else b
  }

  lemma {:induction false} MulMonotone(a: nat, b: nat, m: nat)
    requires a <= b
    ensures a * m <= b * m
  {
  }

  function Le16(x: U16): (s: seq<Byte>)
    ensures |s| == 2
  {
    [x % 0x100, x / 0x100]
  }

  function Le32(x: U32): (s: seq<Byte>)
    ensures |s| == 4
  {
    [x % 0x100, x / 0x100 % 0x100, x / 0x1_0000 % 0x100, x / 0x100_0000]
  }

  function Be16(x: U16): (s: seq<Byte>)
    ensures |s| == 2
  {
    [x / 0x100, x % 0x100]
  }

  /** Little-endian 16-bit read at position `i`. */
  function GetLe16(s: seq<Byte>, i: nat): U16
    requires i + 2 <= |s|
  {
    s[i] as int + 0x100 * s[i + 1] as int
  }

  /** Little-endian 32-bit read at position `i`. */
  function GetLe32(s: seq<Byte>, i: nat): U32
    requires i + 4 <= |s|
  {
    s[i] as int + 0x100 * s[i + 1] as int + 0x1_0000 * s[i + 2] as int + 0x100_0000 * s[i + 3] as int
  }

  /** Big-endian 16-bit read at position `i`. */
  function GetBe16(s: seq<Byte>, i: nat): U16
    requires i + 2 <= |s|
  {
    0x100 * s[i] as int + s[i + 1] as int
  }

  lemma {:induction false} Le16RoundTrip(s: seq<Byte>, i: nat, x: U16)
    requires i + 2 <= |s| && s[i..i + 2] == Le16(x)
    ensures GetLe16(s, i) == x
  {
    assert s[i] == s[i..i + 2][0] && s[i + 1] == s[i..i + 2][1];
  }

  lemma {:induction false} Le32RoundTrip(s: seq<Byte>, i: nat, x: U32)
    requires i + 4 <= |s| && s[i..i + 4] == Le32(x)
    ensures GetLe32(s, i) == x
  {
    var t := s[i..i + 4];
    assert s[i] == t[0] && s[i + 1] == t[1] && s[i + 2] == t[2] && s[i + 3] == t[3];
    assert x == x % 0x100 + 0x100 * (x / 0x100);
    assert x / 0x100 / 0x100 == x / 0x1_0000;
    assert x / 0x1_0000 / 0x100 == x / 0x100_0000;
  }

  lemma {:induction false} Be16RoundTrip(s: seq<Byte>, i: nat, x: U16)
    requires i + 2 <= |s| && s[i..i + 2] == Be16(x)
    ensures GetBe16(s, i) == x
  {
    assert s[i] == s[i..i + 2][0] && s[i + 1] == s[i..i + 2][1];
  }

  /** A list of little-endian words. */
  function LeWords(ws: seq<U16>): (s: seq<Byte>)
    ensures |s| == 2 * |ws|
  {
    if ws == [] then [] else Le16(ws[0]) + LeWords(ws[1..])
  }

  lemma {:induction false} LeWordsAt(ws: seq<U16>, k: nat)
    requires k < |ws|
    ensures GetLe16(LeWords(ws), 2 * k) == ws[k]
  {
    var s := LeWords(ws);
    if k == 0 {
      assert s[0..2] == Le16(ws[0]);
      Le16RoundTrip(s, 0, ws[0]);
    } else {
      LeWordsAt(ws[1..], k - 1);
      assert s[2 * k] == LeWords(ws[1..])[2 * (k - 1)] && s[2 * k + 1] == LeWords(ws[1..])[2 * (k - 1) + 1];
    }
  }

  lemma {:induction false} LeWordsAppend(ws: seq<U16>, w: U16)
    ensures LeWords(ws + [w]) == LeWords(ws) + Le16(w)
  {
    if ws == [] {
      assert [w][1..] == [];
    } else {
      assert (ws + [w])[1..] == ws[1..] + [w];
      LeWordsAppend(ws[1..], w);
    }
  }

  lemma {:induction false} TakeOneMore<T>(s: seq<T>, i: nat)
    requires i < |s|
    ensures s[..i + 1] == s[..i] + [s[i]]
  {
  }

  /** Concatenation of a list of lists. */
  function Flatten<T>(ss: seq<seq<T>>): seq<T> {
    if ss == [] then [] else ss[0] + Flatten(ss[1..])
  }

  lemma {:induction false} FlattenAppend<T>(ss: seq<seq<T>>, s: seq<T>)
    ensures Flatten(ss + [s]) == Flatten(ss) + s
  {
    if ss == [] {
      assert ss + [s] == [s] && [s][1..] == [];
      assert Flatten([s]) == s + [];
    } else {
      assert (ss + [s])[1..] == ss[1..] + [s];
      FlattenAppend(ss[1..], s);
    }
  }

  lemma {:induction false} FlattenConcat<T>(xs: seq<seq<T>>, ys: seq<seq<T>>)
    ensures Flatten(xs + ys) == Flatten(xs) + Flatten(ys)
  {
    if xs == [] {
      assert xs + ys == ys;
    } else {
      assert (xs + ys)[1..] == xs[1..] + ys;
      FlattenConcat(xs[1..], ys);
    }
  }

  lemma {:induction false} FlattenMembers<T>(ss: seq<seq<T>>, x: T)
    ensures x in Flatten(ss) <==> exists k :: 0 <= k < |ss| && x in ss[k]
  {
    if ss != [] {
      FlattenMembers(ss[1..], x);
      if x in Flatten(ss[1..]) {
        var k :| 0 <= k < |ss[1..]| && x in ss[1..][k];
        assert x in ss[k + 1];
      }
      if exists k :: 0 <= k < |ss| && x in ss[k] {
        var k :| 0 <= k < |ss| && x in ss[k];
        if k > 0 {
          assert x in ss[1..][k - 1];
        }
      }
    }
  }
}
