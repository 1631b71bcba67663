/**
 * Byte strings as the key-value store sees them: the lexicographic order it
 * iterates keys in, prefixes, fixed-width big-endian integers and decimal
 * rendering.
 */
module Bytes {

  type byte = x: int | 0 <= x < 256

  type Bytes = seq<byte>

  // ---------------------------------------------------------------------
  // Key order (`bytes.Compare(a, b) < 0`)
  // ---------------------------------------------------------------------

  /**
   * Reference reading of `bytes.Compare(a, b) < 0`: `a` is a proper prefix of
   * `b`, or at the first position where they differ `a` has the smaller byte.
   */
  ghost predicate Lexicographic(a: Bytes, b: Bytes)
  {
    || (|a| < |b| && a == b[..|a|])
    || exists i :: 0 <= i < |a| && i < |b| && a[..i] == b[..i] && a[i] < b[i]
  }

  lemma LexicographicStep(a: Bytes, b: Bytes)
    requires a != [] && b != []
    ensures Lexicographic(a, b) <==> a[0] < b[0] || (a[0] == b[0] && Lexicographic(a[1..], b[1..]))
  {
    var a', b' := a[1..], b[1..];
    if a[0] < b[0] {
      assert a[..0] == b[..0];
    }
    if a[0] == b[0] && Lexicographic(a', b') {
      if |a'| < |b'| && a' == b'[..|a'|] {
        assert a == [a[0]] + a' && b[..|a|] == [b[0]] + b'[..|a'|];
      } else {
        var i :| 0 <= i < |a'| && i < |b'| && a'[..i] == b'[..i] && a'[i] < b'[i];
        assert a[..i + 1] == [a[0]] + a'[..i] && b[..i + 1] == [b[0]] + b'[..i];
      }
    }
    if Lexicographic(a, b) && a[0] >= b[0] {
      if |a| < |b| && a == b[..|a|] {
        assert a' == b'[..|a'|];
      } else {
        var i :| 0 <= i < |a| && i < |b| && a[..i] == b[..i] && a[i] < b[i];
        assert a[..i][0] == b[..i][0];
        assert a'[..i - 1] == a[1..i] && b[1..i] == b'[..i - 1];
        assert a[1..i] == a[..i][1..] && b[1..i] == b[..i][1..];
      }
    }
  }

  /** `a` sorts strictly before `b`; a proper prefix sorts first. */
  predicate Less(a: Bytes, b: Bytes)
    ensures |a| < |b| && a == b[..|a|] ==> Less(a, b)
    decreases |a|
  {
    if a == [] then b != []
    else if b == [] then false
    else
      assert |a| < |b| && a == b[..|a|] ==> a[1..] == b[1..][..|a| - 1];
      a[0] < b[0] || (a[0] == b[0] && Less(a[1..], b[1..]))
  }

  /** The recursive order is exactly the lexicographic one. */
  lemma {:induction false} LessIsLexicographic(a: Bytes, b: Bytes)
    ensures Less(a, b) <==> Lexicographic(a, b)
    decreases |a|
  {
    if a == [] {
      if b != [] { assert a == b[..|a|]; }
    } else if b != [] {
      LexicographicStep(a, b);
      LessIsLexicographic(a[1..], b[1..]);
    }
  }

  lemma {:induction false} LessIrreflexive(a: Bytes)
    ensures !Less(a, a)
  {
    if a != [] {
      LessIrreflexive(a[1..]);
    }
  }

  lemma {:induction false} LessTransitive(a: Bytes, b: Bytes, c: Bytes)
    requires Less(a, b) && Less(b, c)
    ensures Less(a, c)
  {
    if a != [] && a[0] == b[0] && b[0] == c[0] {
      LessTransitive(a[1..], b[1..], c[1..]);
    }
  }

  lemma {:induction false} LessTotal(a: Bytes, b: Bytes)
    requires a != b
    ensures Less(a, b) || Less(b, a)
  {
    if a != [] && b != [] && a[0] == b[0] {
      assert a == [a[0]] + a[1..] && b == [b[0]] + b[1..];
      LessTotal(a[1..], b[1..]);
    }
  }

  lemma LessAsymmetric(a: Bytes, b: Bytes)
    requires Less(a, b)
    ensures !Less(b, a)
  {
    if Less(b, a) {
      LessTransitive(a, b, a);
      LessIrreflexive(a);
    }
  }

  predicate StrictlyAscending(ks: seq<Bytes>)
  {
    forall i, j :: 0 <= i < j < |ks| ==> Less(ks[i], ks[j])
  }

  /** `k` is the first of `s` in key order. */
  predicate IsLeast(k: Bytes, s: set<Bytes>)
  {
    k in s && forall j {:trigger Less(k, j)} :: j in s && j != k ==> Less(k, j)
  }

  lemma {:induction false} LeastExists(s: set<Bytes>)
    requires s != {}
    ensures exists k :: IsLeast(k, s)
    decreases |s|
  {
    var x :| x in s;
    if s == {x} {
      assert IsLeast(x, s);
    } else {
      var rest := s - {x};
      LeastExists(rest);
      var k :| IsLeast(k, rest);
      if Less(k, x) {
        assert IsLeast(k, s);
      } else {
        LessTotal(k, x);
        forall j | j in s && j != x
          ensures Less(x, j)
        {
          if j != k {
            LessTransitive(x, k, j);
          }
        }
        assert IsLeast(x, s);
      }
    }
  }

  lemma LeastUnique(s: set<Bytes>)
    ensures forall a, b :: IsLeast(a, s) && IsLeast(b, s) ==> a == b
  {
    forall a, b | IsLeast(a, s) && IsLeast(b, s)
      ensures a == b
    {
      if a != b {
        LessAsymmetric(a, b);
      }
    }
  }

  /** The first of a non-empty set of keys in key order. */
  function Least(s: set<Bytes>): (k: Bytes)
    requires s != {}
    ensures IsLeast(k, s)
  {
    LeastExists(s);
    LeastUnique(s);
    var k :| IsLeast(k, s);
    k
  }

  /** The members of `s` in ascending key order. */
  function Sorted(s: set<Bytes>): (ks: seq<Bytes>)
    ensures |ks| == |s|
    decreases |s|
  {
    if s == {} then []
    else
      var k := Least(s);
      [k] + Sorted(s - {k})
  }

  /** Exactly the members of `s` are listed. */
  lemma {:induction false} SortedMembers(s: set<Bytes>)
    ensures forall k :: k in Sorted(s) <==> k in s
    decreases |s|
  {
    if s != {} {
      SortedMembers(s - {Least(s)});
    }
  }

  /** The keys of `m` in the order the store's iterator visits them. */
  function SortedKeys(m: map<Bytes, Bytes>): (ks: seq<Bytes>)
    ensures |ks| == |m|
    ensures forall j :: 0 <= j < |ks| ==> ks[j] in m
  {
    SortedMembers(m.Keys);
    Sorted(m.Keys)
  }

  /** The iterator visits each key of the store, and only those. */
  lemma SortedKeysMembers(m: map<Bytes, Bytes>)
    ensures forall k :: k in SortedKeys(m) <==> k in m
  {
    SortedMembers(m.Keys);
  }

  /** The iterator visits keys in strictly ascending order. */
  lemma {:induction false} SortedAscending(s: set<Bytes>)
    ensures StrictlyAscending(Sorted(s))
    decreases |s|
  {
    if s != {} {
      var k := Least(s);
      SortedAscending(s - {k});
      SortedMembers(s - {k});
      PrependLeast(k, Sorted(s - {k}));
    }
  }

  lemma PrependLeast(k: Bytes, rest: seq<Bytes>)
    requires StrictlyAscending(rest)
    requires forall j :: j in rest ==> Less(k, j)
    ensures StrictlyAscending([k] + rest)
  {
    var ks := [k] + rest;
    forall i, j | 0 <= i < j < |ks|
      ensures Less(ks[i], ks[j])
    {
      if i == 0 {
        assert ks[j] == rest[j - 1];
      } else {
        assert ks[i] == rest[i - 1] && ks[j] == rest[j - 1];
      }
    }
  }

  predicate HasPrefix(k: Bytes, p: Bytes)
  {
    |p| <= |k| && k[..|p|] == p
  }

  // ---------------------------------------------------------------------
  // Big-endian integers (`encoding/binary.BigEndian`)
  // ---------------------------------------------------------------------

  function Pow256(n: nat): (r: nat)
    ensures r > 0
  {
    if n == 0 then 1 else 256 * Pow256(n - 1)
  }

  /** The low `len` bytes of `n`, most significant first (`PutUint64` when `len` is 8). */
  function BigEndian(n: nat, len: nat): (b: Bytes)
    ensures |b| == len
  {
    if len == 0 then [] else BigEndian(n / 256, len - 1) + [n % 256]
  }

  /** The number `b` spells, most significant byte first (`Uint64` on 8 bytes). */
  function FromBigEndian(b: Bytes): (n: nat)
    ensures n < Pow256(|b|)
  {
    if b == [] then 0
    else
      var high := FromBigEndian(b[..|b| - 1]);
      assert high * 256 + b[|b| - 1] <= (Pow256(|b| - 1) - 1) * 256 + 255;
      high * 256 + b[|b| - 1]
  }

  lemma {:induction false} BigEndianRoundTrip(n: nat, len: nat)
    requires n < Pow256(len)
    ensures FromBigEndian(BigEndian(n, len)) == n
  {
    if len > 0 {
      assert n / 256 < Pow256(len - 1);
      BigEndianRoundTrip(n / 256, len - 1);
      var b := BigEndian(n, len);
      assert b[..len - 1] == BigEndian(n / 256, len - 1);
    }
  }

  /** Encoding a byte string's value in as many bytes gives back the byte string. */
  lemma {:induction false} FromBigEndianRoundTrip(b: Bytes)
    ensures BigEndian(FromBigEndian(b), |b|) == b
  {
    if b != [] {
      var init := b[..|b| - 1];
      var n := FromBigEndian(b);
      FromBigEndianRoundTrip(init);
      assert n / 256 == FromBigEndian(init) && n % 256 == b[|b| - 1];
      assert b == init + [b[|b| - 1]];
    }
  }

  /** A number below `256^(len - 1)` has a zero high byte in `len` bytes. */
  lemma {:induction false} BigEndianLeadingZero(n: nat, len: nat)
    requires len > 0 && n < Pow256(len - 1)
    ensures BigEndian(n, len)[0] == 0
  {
    if len > 1 {
      assert n / 256 < Pow256(len - 2);
      BigEndianLeadingZero(n / 256, len - 1);
    }
  }

  /** A common prefix does not change the order. */
  lemma {:induction false} LessCommonPrefix(p: Bytes, a: Bytes, b: Bytes)
    ensures Less(p + a, p + b) <==> Less(a, b)
  {
    if p != [] {
      assert (p + a)[1..] == p[1..] + a && (p + b)[1..] == p[1..] + b;
      LessCommonPrefix(p[1..], a, b);
    } else {
      assert p + a == a && p + b == b;
    }
  }

  /** Between equal-length strings, the last byte decides only when the rest is equal. */
  lemma {:induction false} LessLastByte(a: Bytes, x: byte, b: Bytes, y: byte)
    requires |a| == |b|
    ensures Less(a + [x], b + [y]) <==> Less(a, b) || (a == b && x < y)
  {
    if a != [] {
      assert (a + [x])[1..] == a[1..] + [x] && (b + [y])[1..] == b[1..] + [y];
      LessLastByte(a[1..], x, b[1..], y);
      if a[0] == b[0] && a[1..] == b[1..] {
        assert a == [a[0]] + a[1..] && b == [b[0]] + b[1..];
      }
    }
  }

  /** Big-endian encoding of a fixed width preserves the numeric order. */
  lemma {:induction false} BigEndianOrder(m: nat, n: nat, len: nat)
    requires m < n < Pow256(len)
    ensures Less(BigEndian(m, len), BigEndian(n, len))
  {
    assert len > 0;
    assert m / 256 <= n / 256 < Pow256(len - 1);
    LessLastByte(BigEndian(m / 256, len - 1), m % 256, BigEndian(n / 256, len - 1), n % 256);
    if m / 256 < n / 256 {
      BigEndianOrder(m / 256, n / 256, len - 1);
    }
  }

  // ---------------------------------------------------------------------
  // Decimal rendering (`fmt`'s `%d` on an unsigned integer)
  // ---------------------------------------------------------------------

  predicate IsDigitByte(b: byte)
  {
    48 <= b <= 57
  }

  /** The decimal digits of `n`, without leading zeros. */
  function Decimal(n: nat): (d: Bytes)
    ensures |d| > 0 && forall i :: 0 <= i < |d| ==> IsDigitByte(d[i])
    ensures |d| == 1 <==> n < 10
    ensures |d| > 1 ==> d[0] != 48
  {
    if n < 10 then [48 + n] else Decimal(n / 10) + [48 + n % 10]
  }

  /** The number a string of decimal digits denotes. */
  function ParseDecimal(d: Bytes): nat
    requires forall i :: 0 <= i < |d| ==> IsDigitByte(d[i])
  {
    if d == [] then 0
    else
      assert IsDigitByte(d[|d| - 1]);
      ParseDecimal(d[..|d| - 1]) * 10 + (d[|d| - 1] as int - 48)
  }

  lemma {:induction false} DecimalRoundTrip(n: nat)
    ensures ParseDecimal(Decimal(n)) == n
  {
    if n >= 10 {
      DecimalRoundTrip(n / 10);
      var d := Decimal(n);
      assert d[..|d| - 1] == Decimal(n / 10);
    }
  }
}
