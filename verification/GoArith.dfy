/** Go's fixed-width integers, byte layouts and string helpers, as far as the consumer uses them. */
module GoArith {

  type byte = x: int | 0 <= x < 0x100
  type uint64 = x: int | 0 <= x < 0x1_0000_0000_0000_0000

  datatype Option<+T> = None | Some(value: T)

  /** uint64 addition and conversion to uint64: reduction modulo 2^64. */
  function Wrap64(x: int): uint64 {
    x % 0x1_0000_0000_0000_0000
  }

  /** Wrapping at every addition or once at the end is the same. */
  lemma WrapAdd(a: nat, b: nat)
    ensures Wrap64(Wrap64(a) + b) == Wrap64(a + b)
  {
  }

  /** The conversion int64(x): the same 64 bits, read in two's complement. */
  function AsInt64(x: uint64): int {
    if x < 0x8000_0000_0000_0000 then x else x - 0x1_0000_0000_0000_0000
  }

  /** The conversion uint8(x) of a Go int: the low eight bits. */
  function AsUint8(x: int): byte {
    x % 0x100
  }

  /** math.Pow10 on a non-negative exponent. */
  function Pow10(n: nat): (r: real)
    ensures r >= 1.0
  {
    if n == 0 then 1.0 else 10.0 * Pow10(n - 1)
  }

  /** binary.LittleEndian.Uint64: the first eight bytes, least significant first; longer slices are allowed. */
  function LittleEndian64(b: seq<byte>): uint64
    requires 8 <= |b|
  {
    Join(b[0], Join(b[1], Join(b[2], Join(b[3], Join(b[4], Join(b[5], Join(b[6], b[7])))))))
  }

  /** A low byte below the higher ones. */
  function Join(low: byte, high: nat): nat {
    low + 0x100 * high
  }

  /** The results of f on the elements of xs, one after the other: a loop that appends. */
  function FlatMap<T, U>(f: T -> seq<U>, xs: seq<T>): seq<U> {
    if xs == [] then [] else FlatMap(f, xs[..|xs| - 1]) + f(xs[|xs| - 1])
  }

  lemma {:induction false} FlatMapConcat<T, U>(f: T -> seq<U>, xs: seq<T>, ys: seq<T>)
    ensures FlatMap(f, xs + ys) == FlatMap(f, xs) + FlatMap(f, ys)
  {
    if ys == [] {
      assert xs + ys == xs;
    } else {
      assert (xs + ys)[..|xs + ys| - 1] == xs + ys[..|ys| - 1];
      FlatMapConcat(f, xs, ys[..|ys| - 1]);
    }
  }

  lemma FlatMapOne<T, U>(f: T -> seq<U>, x: T)
    ensures FlatMap(f, [x]) == f(x)
  {
    assert [x][..0] == [];
  }

  /** Where the results have the same lengths one by one, all of them together are equal exactly if each is. */
  lemma {:induction false} FlatMapEqualIff<T, U>(f: T -> seq<U>, xs: seq<T>, g: T -> seq<U>, ys: seq<T>)
    requires |xs| == |ys| && forall i | 0 <= i < |xs| :: |f(xs[i])| == |g(ys[i])|
    ensures |FlatMap(f, xs)| == |FlatMap(g, ys)|
    ensures FlatMap(f, xs) == FlatMap(g, ys) <==> forall i | 0 <= i < |xs| :: f(xs[i]) == g(ys[i])
  {
    if xs != [] {
      var n := |xs| - 1;
      FlatMapEqualIff(f, xs[..n], g, ys[..n]);
      ConcatEqualIff(FlatMap(f, xs[..n]), f(xs[n]), FlatMap(g, ys[..n]), g(ys[n]));
      assert (forall i | 0 <= i < |xs| :: f(xs[i]) == g(ys[i])) <==>
        (forall i | 0 <= i < n :: f(xs[..n][i]) == g(ys[..n][i])) && f(xs[n]) == g(ys[n]);
    }
  }

  lemma ConcatEqualIff<U>(a: seq<U>, b: seq<U>, c: seq<U>, d: seq<U>)
    requires |a| == |c| && |b| == |d|
    ensures a + b == c + d <==> a == c && b == d
  {
    assert (a + b)[..|a|] == a && (c + d)[..|a|] == c;
    assert (a + b)[|a|..] == b && (c + d)[|a|..] == d;
  }

  /** One more element of a slice. */
  lemma FlatMapNext<T, U>(f: T -> seq<U>, xs: seq<T>, from: nat, n: nat)
    requires from <= n < |xs|
    ensures FlatMap(f, xs[from..n + 1]) == FlatMap(f, xs[from..n]) + f(xs[n])
  {
    assert xs[from..n + 1][..n - from] == xs[from..n];
  }

  /** strings.HasPrefix. */
  predicate HasPrefix(s: string, prefix: string) {
    prefix <= s
  }

  /** strings.Contains. */
  predicate Contains(s: string, sub: string) {
    exists i | 0 <= i <= |s| - |sub| :: OccursAt(s, sub, i)
  }

  /** One of the patterns occurs in s. */
  predicate ContainsAny(s: string, patterns: seq<string>) {
    patterns != [] && (Contains(s, patterns[|patterns| - 1]) || ContainsAny(s, patterns[..|patterns| - 1]))
  }

  lemma ContainsAnyIff(s: string, patterns: seq<string>)
    ensures ContainsAny(s, patterns) <==> exists p :: p in patterns && Contains(s, p)
  {
    if patterns != [] {
      ContainsAnyIff(s, patterns[..|patterns| - 1]);
      assert forall p :: p in patterns <==> p in patterns[..|patterns| - 1] || p == patterns[|patterns| - 1];
    }
  }

  predicate OccursAt(s: string, sub: string, i: nat)
    requires i + |sub| <= |s|
  {
    s[i..i + |sub|] == sub
  }

  /** strings.ToLower on ASCII letters; every other character is kept. */
  function ToLower(s: string): (r: string)
    ensures |r| == |s|
  {
    seq(|s|, i requires 0 <= i < |s| => LowerChar(s[i]))
  }

  function LowerChar(c: char): char {
    if 'A' <= c <= 'Z' then (c as int + 32) as char else c
  }

  /** Upper case letters become the lower case letters at the same place of the alphabet, and nothing else changes. */
  lemma LowerCharIff(c: char, d: char)
    ensures LowerChar(c) == d <==>
      if c in "ABCDEFGHIJKLMNOPQRSTUVWXYZ" then d as int - 'a' as int == c as int - 'A' as int else d == c
  {
    var letters := "ABCDEFGHIJKLMNOPQRSTUVWXYZ";
    if 'A' <= c <= 'Z' {
      assert letters[c as int - 'A' as int] == c;
    }
  }

  /** The eight bytes of x, least significant first. */
  function Bytes64(x: uint64): (b: seq<byte>)
    ensures |b| == 8
  {
    var x1 := x / 0x100;
    var x2 := x1 / 0x100;
    var x3 := x2 / 0x100;
    var x4 := x3 / 0x100;
    var x5 := x4 / 0x100;
    var x6 := x5 / 0x100;
    var x7 := x6 / 0x100;
    [x % 0x100, x1 % 0x100, x2 % 0x100, x3 % 0x100, x4 % 0x100, x5 % 0x100, x6 % 0x100, x7]
  }

  lemma SplitByte(x: nat)
    ensures Join(x % 0x100, x / 0x100) == x
  {
  }

  /** Decoding undoes encoding, whatever follows the eight bytes. */
  lemma BytesRoundTrip(x: uint64, rest: seq<byte>)
    ensures LittleEndian64(Bytes64(x) + rest) == x
  {
    var x1 := x / 0x100;
    var x2 := x1 / 0x100;
    var x3 := x2 / 0x100;
    var x4 := x3 / 0x100;
    var x5 := x4 / 0x100;
    var x6 := x5 / 0x100;
    SplitByte(x);
    SplitByte(x1);
    SplitByte(x2);
    SplitByte(x3);
    SplitByte(x4);
    SplitByte(x5);
    SplitByte(x6);
  }

  lemma JoinInjective(a: byte, x: nat, b: byte, y: nat)
    ensures Join(a, x) == Join(b, y) <==> a == b && x == y
  {
  }

  /** Two byte strings have the same little-endian value exactly when they agree on their first eight bytes. */
  lemma LittleEndian64Injective(a: seq<byte>, b: seq<byte>)
    requires 8 <= |a| && 8 <= |b|
    ensures LittleEndian64(a) == LittleEndian64(b) <==> a[..8] == b[..8]
  {
    var (a6, b6) := (Join(a[6], a[7]), Join(b[6], b[7]));
    var (a5, b5) := (Join(a[5], a6), Join(b[5], b6));
    var (a4, b4) := (Join(a[4], a5), Join(b[4], b5));
    var (a3, b3) := (Join(a[3], a4), Join(b[3], b4));
    var (a2, b2) := (Join(a[2], a3), Join(b[2], b3));
    var (a1, b1) := (Join(a[1], a2), Join(b[1], b2));
    JoinInjective(a[0], a1, b[0], b1);
    JoinInjective(a[1], a2, b[1], b2);
    JoinInjective(a[2], a3, b[2], b3);
    JoinInjective(a[3], a4, b[3], b4);
    JoinInjective(a[4], a5, b[4], b5);
    JoinInjective(a[5], a6, b[5], b6);
    JoinInjective(a[6], a[7], b[6], b[7]);
    FirstEight(a, b);
  }

  lemma FirstEight(a: seq<byte>, b: seq<byte>)
    requires 8 <= |a| && 8 <= |b|
    ensures a[..8] == b[..8] <==>
      && a[0] == b[0] && a[1] == b[1] && a[2] == b[2] && a[3] == b[3]
      && a[4] == b[4] && a[5] == b[5] && a[6] == b[6] && a[7] == b[7]
  {
    if a[..8] == b[..8] {
      assert forall i | 0 <= i < 8 :: a[i] == a[..8][i] && b[i] == b[..8][i];
    }
  }
}
