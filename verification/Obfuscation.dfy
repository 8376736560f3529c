/**
 The obfuscation layer: a random nonce, then a padding length, the packet and the
 padding, all masked with a keystream.
 */
module Obfuscation {
  import opened Basics
  import opened Crypto
  import opened Words

  const NONCE_LEN: nat := 12
  const MAX_PADDING: nat := 96
  const OVERHEAD: nat := NONCE_LEN + 1 + MAX_PADDING

  datatype ObfuscationError = TooShort

  function Differ(x: nat, y: nat): nat {
    if x == y then 0 else 1
  }

  function Xor(a: nat, b: nat, bits: nat): nat {
    if bits == 0 then 0 else 2 * Xor(a / 2, b / 2, bits - 1) + Differ(a % 2, b % 2)
  }

  lemma Halves(q: nat, d: nat)
    requires d < 2
    ensures (2 * q + d) / 2 == q && (2 * q + d) % 2 == d
  {}

  lemma {:induction false} XorTwice(a: nat, b: nat, bits: nat)
    requires a < Pow2(bits)
    ensures Xor(a, b, bits) < Pow2(bits) && Xor(Xor(a, b, bits), b, bits) == a
  {
    if bits > 0 {
      XorTwice(a / 2, b / 2, bits - 1);
      var q, d := Xor(a / 2, b / 2, bits - 1), Differ(a % 2, b % 2);
      Halves(q, d);
      var r := 2 * q + d;
      assert Xor(r, b, bits) == 2 * Xor(r / 2, b / 2, bits - 1) + Differ(r % 2, b % 2);
    }
  }

  function XorByte(a: u8, b: u8): (r: u8)
    ensures Xor(r, b, 8) == a
  {
    assert Pow2(8) == 256 by { assert Pow2(4) == 16; assert Pow2(6) == 64; }
    XorTwice(a, b, 8);
    Xor(a, b, 8)
  }

  function Masked(c: Suite, key: seq<u8>, nonce: seq<u8>, body: seq<u8>): (r: seq<u8>)
    ensures |r| == |body|
  {
    seq<u8>(|body|, i requires 0 <= i < |body| => XorByte(body[i], c.keystream(key, nonce, i)))
  }

  lemma MaskedTwice(c: Suite, key: seq<u8>, nonce: seq<u8>, body: seq<u8>)
    ensures Masked(c, key, nonce, Masked(c, key, nonce, body)) == body
  {
    forall i | 0 <= i < |body| ensures Masked(c, key, nonce, Masked(c, key, nonce, body))[i] == body[i] {
      assert Xor(XorByte(body[i], c.keystream(key, nonce, i)), c.keystream(key, nonce, i), 8) == body[i];
    }
  }

  /** The keystream is applied to the buffer in place. */
  method ApplyKeystream(c: Suite, key: seq<u8>, nonce: seq<u8>, body: array<u8>)
    modifies body
    ensures body[..] == Masked(c, key, nonce, old(body[..]))
  {
    for i := 0 to body.Length
      invariant forall k | i <= k < body.Length :: body[k] == old(body[k])
      invariant forall k | 0 <= k < i :: body[k] == XorByte(old(body[k]), c.keystream(key, nonce, k))
    {
      body[i] := XorByte(body[i], c.keystream(key, nonce, i));
    }
  }

  // The nonce, the padding selector and the padding are drawn at random.

  function Wrap(c: Suite, key: seq<u8>, inner: seq<u8>, nonce: seq<u8>, selector: u8, padding: seq<u8>): seq<u8>
    requires |nonce| == NONCE_LEN && |padding| == selector % (MAX_PADDING + 1)
  {
    nonce + Masked(c, key, nonce, [|padding|] + inner + padding)
  }

  function Unwrap(c: Suite, key: seq<u8>, datagram: seq<u8>): Result<seq<u8>, ObfuscationError> {
    if |datagram| < NONCE_LEN + 1 then Err(TooShort)
    else
      var body := Masked(c, key, datagram[..NONCE_LEN], datagram[NONCE_LEN..]);
      if |body| < 1 + body[0] as int then Err(TooShort) else Ok(body[1..|body| - body[0]])
  }

  lemma UnwrapsWhatItWraps(c: Suite, key: seq<u8>, inner: seq<u8>, nonce: seq<u8>, selector: u8, padding: seq<u8>)
    requires |nonce| == NONCE_LEN && |padding| == selector % (MAX_PADDING + 1)
    ensures var d := Wrap(c, key, inner, nonce, selector, padding);
            Unwrap(c, key, d) == Ok(inner) && |d| <= |inner| + OVERHEAD
  {
    var body := [|padding| as u8] + inner + padding;
    var d := Wrap(c, key, inner, nonce, selector, padding);
    assert d[..NONCE_LEN] == nonce && d[NONCE_LEN..] == Masked(c, key, nonce, body);
    MaskedTwice(c, key, nonce, body);
    assert body[1..|body| - |padding|] == inner;
  }

  /** A datagram that unwraps is one that wrapping can produce, if and only if its padding is within the maximum. */
  lemma WrapCovers(c: Suite, key: seq<u8>, d: seq<u8>)
    requires Unwrap(c, key, d).Ok?
    ensures var nonce, body := d[..NONCE_LEN], Masked(c, key, d[..NONCE_LEN], d[NONCE_LEN..]);
            body[0] <= MAX_PADDING <==>
            exists selector: u8, padding: seq<u8> ::
              |padding| == selector % (MAX_PADDING + 1)
                && Wrap(c, key, Unwrap(c, key, d).value, nonce, selector, padding) == d
  {
    var nonce, body := d[..NONCE_LEN], Masked(c, key, d[..NONCE_LEN], d[NONCE_LEN..]);
    var inner := Unwrap(c, key, d).value;
    MaskedTwice(c, key, nonce, d[NONCE_LEN..]);
    if body[0] <= MAX_PADDING {
      var padding := body[|body| - body[0]..];
      assert body == [body[0]] + inner + padding;
      assert Wrap(c, key, inner, nonce, body[0], padding) == d;
    }
    forall selector: u8, padding: seq<u8>
      | |padding| == selector % (MAX_PADDING + 1) && Wrap(c, key, inner, nonce, selector, padding) == d
      ensures body[0] <= MAX_PADDING
    {
      var plain := [|padding| as u8] + inner + padding;
      assert d[NONCE_LEN..] == Masked(c, key, nonce, plain);
      MaskedTwice(c, key, nonce, plain);
    }
  }

  method WrapDatagram(c: Suite, key: seq<u8>, inner: seq<u8>, nonce: seq<u8>, selector: u8, padding: seq<u8>)
    returns (d: seq<u8>)
    requires |nonce| == NONCE_LEN && |padding| == selector % (MAX_PADDING + 1)
    ensures d == Wrap(c, key, inner, nonce, selector, padding)
  {
    var plain: seq<u8> := [|padding|] + inner + padding;
    var body := new u8[|plain|](i requires 0 <= i < |plain| => plain[i]);
    assert body[..] == plain;
    ApplyKeystream(c, key, nonce, body);
    d := nonce + body[..];
  }

  method UnwrapDatagram(c: Suite, key: seq<u8>, datagram: seq<u8>) returns (r: Result<seq<u8>, ObfuscationError>)
    ensures r == Unwrap(c, key, datagram)
  {
    if |datagram| < NONCE_LEN + 1 {
      return Err(TooShort);
    }
    var tail := datagram[NONCE_LEN..];
    var body := new u8[|tail|](i requires 0 <= i < |tail| => tail[i]);
    assert body[..] == tail;
    ApplyKeystream(c, key, datagram[..NONCE_LEN], body);
    var paddingLen := body[0];
    if body.Length < 1 + paddingLen as int {
      return Err(TooShort);
    }
    r := Ok(body[1..body.Length - paddingLen]);
  }
}
