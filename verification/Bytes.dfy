/** Bytes and big-endian numbers. */
module Bytes {
  newtype Byte = x: int | 0 <= x < 256

  /** The low `w` bytes of a number, most significant first. */
  function Be(w: nat, v: nat): (s: seq<Byte>)
    ensures |s| == w
  {
    if w == 0 then [] else Be(w - 1, v / 256) + [(v % 256) as Byte]
  }

  function FromBe(s: seq<Byte>): (v: nat) {
    if s == [] then 0 else FromBe(s[..|s| - 1]) * 256 + s[|s| - 1] as nat
  }

  /** 256 to the power `w`. */
  function Span(w: nat): (n: nat)
    ensures n >= 1
  {
    if w == 0 then 1 else 256 * Span(w - 1)
  }

  /** A number that fits its width is read back. */
  lemma {:induction false} BeRoundTrip(w: nat, v: nat)
    requires v < Span(w)
    ensures FromBe(Be(w, v)) == v
  {
    if w > 0 {
      BeRoundTrip(w - 1, v / 256);
      var s := Be(w, v);
      assert s[..|s| - 1] == Be(w - 1, v / 256);
    }
  }

  /** Every byte string is the encoding of the number it is read as. */
  lemma {:induction false} FromBeRoundTrip(s: seq<Byte>)
    ensures FromBe(s) < Span(|s|) && Be(|s|, FromBe(s)) == s
  {
    if s != [] {
      var init := s[..|s| - 1];
      FromBeRoundTrip(init);
      assert FromBe(s) / 256 == FromBe(init) && FromBe(s) % 256 == s[|s| - 1] as nat;
      assert s == init + [s[|s| - 1]];
    }
  }

  /** Earlier bytes are worth more: reading is positional. */
  lemma {:induction false} FromBeConcat(a: seq<Byte>, b: seq<Byte>)
    ensures FromBe(a + b) == FromBe(a) * Span(|b|) + FromBe(b)
  {
    if b == [] {
      assert a + b == a;
    } else {
      var init, last := b[..|b| - 1], b[|b| - 1];
      assert (a + b)[..|a + b| - 1] == a + init;
      FromBeConcat(a, init);
      assert FromBe(a) * Span(|b|) == (FromBe(a) * Span(|b| - 1)) * 256;
    }
  }

  ghost predicate Zeros(s: seq<Byte>) {
    forall i :: 0 <= i < |s| ==> s[i] == 0
  }

  lemma {:induction false} ZerosReadZero(s: seq<Byte>)
    requires Zeros(s)
    ensures FromBe(s) == 0
  {
    if s != [] { ZerosReadZero(s[..|s| - 1]); }
  }
}
