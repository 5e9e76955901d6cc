/** Bytes, optional values and the few sequence operations that several components share. */
module Bytes {
  type byte = bv8

  function Int(b: byte): (n: nat)
    ensures n < 256
  {
    b as int
  }

  function Byte(n: nat): byte
    requires n < 256
  {
    n as byte
  }

  function Succ(n: nat): byte
    requires n < 256
  {
    if n == 0 then 0 else Succ(n - 1) + 1
  }

  lemma {:induction false} IntOfSucc(n: nat)
    requires n < 256
    ensures Int(Succ(n)) == n
  {
    if n > 0 {
      IntOfSucc(n - 1);
      var b := Succ(n - 1);
      assert Int(b) < 255 ==> Int(b + 1) == Int(b) + 1;
    }
  }

  /** Bytes and the numbers below 256 are in one-to-one correspondence. */
  lemma {:induction false} IntOfByte(n: nat)
    requires n < 256
    ensures Int(Byte(n)) == n
  {
    IntOfSucc(n);
    ByteOfInt(Succ(n));
  }

  lemma ByteOfInt(b: byte)
    ensures Byte(Int(b)) == b
  {
  }

  datatype Option<+T> = None | Some(value: T)

  /** The bytes of a list of chunks, in order: what a stream carries however it is split into writes. */
  function Join<T>(chunks: seq<seq<T>>): seq<T> {
    if chunks == [] then [] else chunks[0] + Join(chunks[1..])
  }

  lemma {:induction false} JoinConcat<T>(a: seq<seq<T>>, b: seq<seq<T>>)
    ensures Join(a + b) == Join(a) + Join(b)
  {
    if a == [] {
      assert a + b == b;
    } else {
      assert (a + b)[1..] == a[1..] + b;
      JoinConcat(a[1..], b);
    }
  }

  lemma {:induction false} JoinSnoc<T>(a: seq<seq<T>>, c: seq<T>)
    ensures Join(a + [c]) == Join(a) + c
  {
    JoinConcat(a, [c]);
    assert Join([c]) == c + Join([]) == c;
  }

  /** Go's bytes.IndexByte: the first position of b, or -1. */
  function IndexByte(s: seq<byte>, b: byte): (n: int)
    ensures -1 <= n < |s|
    ensures n == -1 <==> b !in s
    ensures n >= 0 ==> s[n] == b && b !in s[..n]
  {
    if s == [] then -1
    else if s[0] == b then 0
    else
      var n := IndexByte(s[1..], b);
      if n < 0 then -1
      else
        assert s[..n + 1] == [s[0]] + s[1..][..n];
        n + 1
  }

  function Min(a: int, b: int): int {
    if a < b then a else b
  }

  function Max(a: int, b: int): int {
    if a < b then b else a
  }
}
