/**
 * The wire format of a chat message: the text's UTF-8 bytes, with no
 * framing. `Encode` stands for `text.data(using: .utf8)` (which never fails
 * for a string of Unicode scalar values) and `Decode` for
 * `String(data:encoding: .utf8)`, which refuses ill-formed input.
 */
module Utf8 {
  import opened Types

  predicate IsContinuation(b: byte) { 0x80 <= b < 0xC0 }

  /** The scalar value of a character (Dafny characters are Unicode scalar values). */
  function ScalarOf(c: char): (n: nat)
    ensures n < 0xD800 || 0xE000 <= n < 0x11_0000
  {
    c as int
  }

  predicate IsScalar(n: int) { 0 <= n < 0xD800 || 0xE000 <= n < 0x11_0000 }

  /** The one- to four-byte UTF-8 form of one character. */
  function EncodeChar(c: char): (bs: seq<byte>)
  {
    var n := ScalarOf(c);
    if n < 0x80 then [n]
    else if n < 0x800 then [0xC0 + n / 64, 0x80 + n % 64]
    else if n < 0x1_0000 then [0xE0 + n / 4096, 0x80 + (n / 64) % 64, 0x80 + n % 64]
    else [0xF0 + n / 262144, 0x80 + (n / 4096) % 64, 0x80 + (n / 64) % 64, 0x80 + n % 64]
  }

  function Encode(s: string): (bs: seq<byte>)
    ensures |s| <= |bs| <= 4 * |s|
  {
    if s == [] then [] else EncodeChar(s[0]) + Encode(s[1..])
  }

  /**
   * Reads the first character of `bs`: the character and the number of bytes
   * it occupies, or None when the bytes do not start with a well-formed
   * sequence (a stray continuation byte, a truncated sequence, an overlong
   * form, a surrogate, or a value beyond U+10FFFF).
   */
  function DecodeChar(bs: seq<byte>): (r: Option<(char, nat)>)
    ensures r.Some? ==> 1 <= r.value.1 <= 4 && r.value.1 <= |bs|
  {
    if |bs| == 0 then None
    else
      var b0: int := bs[0];
      if b0 < 0x80 then Some((b0 as char, 1))
      else if 0xC2 <= b0 < 0xE0 then
        if |bs| < 2 || !IsContinuation(bs[1]) then None
        else Some((((b0 - 0xC0) * 64 + (bs[1] as int - 0x80)) as char, 2))
      else if 0xE0 <= b0 < 0xF0 then
        if |bs| < 3 || !IsContinuation(bs[1]) || !IsContinuation(bs[2]) then None
        else
          var n := (b0 - 0xE0) * 4096 + (bs[1] as int - 0x80) * 64 + (bs[2] as int - 0x80);
          if n < 0x800 || (0xD800 <= n < 0xE000) then None else Some((n as char, 3))
      else if 0xF0 <= b0 < 0xF5 then
        if |bs| < 4 || !IsContinuation(bs[1]) || !IsContinuation(bs[2]) || !IsContinuation(bs[3]) then None
        else
          var n := (b0 - 0xF0) * 262144 + (bs[1] as int - 0x80) * 4096 + (bs[2] as int - 0x80) * 64 + (bs[3] as int - 0x80);
          if n < 0x1_0000 || 0x11_0000 <= n then None else Some((n as char, 4))
      else None
  }

  /** The text that `bs` encodes, or None when `bs` is not well-formed UTF-8. */
  function Decode(bs: seq<byte>): (r: Option<string>)
    ensures r.Some? ==> |r.value| <= |bs| <= 4 * |r.value|
    decreases |bs|
  {
    if bs == [] then Some([])
    else match DecodeChar(bs)
      case None => None
      case Some((c, k)) =>
        match Decode(bs[k..])
        case None => None
        case Some(rest) => Some([c] + rest)
  }

  /** Reading the encoding of one character gives that character back and consumes exactly its bytes. */
  lemma DecodeEncodeChar(c: char, rest: seq<byte>)
    ensures DecodeChar(EncodeChar(c) + rest) == Some((c, |EncodeChar(c)|))
  {
    var n := ScalarOf(c);
    var bs := EncodeChar(c) + rest;
    if n < 0x80 {
    } else if n < 0x800 {
      var b0, b1 := n / 64, n % 64;
      assert bs[0] == 0xC0 + b0 && bs[1] == 0x80 + b1;
      assert b0 * 64 + b1 == n;
    } else if n < 0x1_0000 {
      var b0, b1, b2 := n / 4096, (n / 64) % 64, n % 64;
      assert bs[0] == 0xE0 + b0 && bs[1] == 0x80 + b1 && bs[2] == 0x80 + b2;
      SplitThree(n);
      assert b0 * 4096 + b1 * 64 + b2 == n;
    } else {
      var b0, b1, b2, b3 := n / 262144, (n / 4096) % 64, (n / 64) % 64, n % 64;
      assert bs[0] == 0xF0 + b0 && bs[1] == 0x80 + b1 && bs[2] == 0x80 + b2 && bs[3] == 0x80 + b3;
      SplitFour(n);
      assert b0 * 262144 + b1 * 4096 + b2 * 64 + b3 == n;
    }
  }

  lemma SplitThree(n: nat)
    ensures (n / 4096) * 4096 + ((n / 64) % 64) * 64 + n % 64 == n
  {
    var q := n / 64;
    assert q * 64 + n % 64 == n;
    assert (q / 64) * 64 + q % 64 == q;
    assert q / 64 == n / 4096;
  }

  lemma SplitFour(n: nat)
    ensures (n / 262144) * 262144 + ((n / 4096) % 64) * 4096 + ((n / 64) % 64) * 64 + n % 64 == n
  {
    var q := n / 4096;
    SplitThree(n);
    assert (q / 64) * 64 + q % 64 == q;
    assert q / 64 == n / 262144;
  }

  /** Every text survives the wire: decoding its encoding gives it back. */
  lemma {:induction false} DecodeEncode(s: string)
    ensures Decode(Encode(s)) == Some(s)
  {
    if s != [] {
      var e := EncodeChar(s[0]);
      DecodeEncodeChar(s[0], Encode(s[1..]));
      assert (e + Encode(s[1..]))[|e|..] == Encode(s[1..]);
      DecodeEncode(s[1..]);
      assert [s[0]] + s[1..] == s;
    }
  }

  /** A well-formed first character is exactly the encoding of the character read. */
  lemma EncodeDecodeChar(bs: seq<byte>)
    requires DecodeChar(bs).Some?
    ensures EncodeChar(DecodeChar(bs).value.0) == bs[..DecodeChar(bs).value.1]
  {
    var b0: int := bs[0];
    if b0 < 0x80 {
    } else if 0xC2 <= b0 < 0xE0 {
      JoinTwo(b0 - 0xC0, bs[1] as int - 0x80);
    } else if 0xE0 <= b0 < 0xF0 {
      JoinThree(b0 - 0xE0, bs[1] as int - 0x80, bs[2] as int - 0x80);
    } else {
      JoinFour(b0 - 0xF0, bs[1] as int - 0x80, bs[2] as int - 0x80, bs[3] as int - 0x80);
    }
  }

  /** Six-bit groups joined by a decoder come apart again under `/` and `%`. */
  lemma JoinTwo(a: int, b: int)
    requires 0 <= a && 0 <= b < 64
    ensures (a * 64 + b) / 64 == a && (a * 64 + b) % 64 == b
  {
  }

  lemma JoinThree(a: int, b: int, c: int)
    requires 0 <= a && 0 <= b < 64 && 0 <= c < 64
    ensures var n := a * 4096 + b * 64 + c;
      n / 4096 == a && (n / 64) % 64 == b && n % 64 == c
  {
    var n := a * 4096 + b * 64 + c;
    JoinTwo(a * 64 + b, c);
    JoinTwo(a, b);
    assert n == (a * 64 + b) * 64 + c;
    assert n == a * 4096 + (b * 64 + c) && 0 <= b * 64 + c < 4096;
  }

  lemma JoinFour(a: int, b: int, c: int, d: int)
    requires 0 <= a && 0 <= b < 64 && 0 <= c < 64 && 0 <= d < 64
    ensures var n := a * 262144 + b * 4096 + c * 64 + d;
      n / 262144 == a && (n / 4096) % 64 == b && (n / 64) % 64 == c && n % 64 == d
  {
    var m := a * 4096 + b * 64 + c;
    var n := a * 262144 + b * 4096 + c * 64 + d;
    JoinThree(a, b, c);
    JoinTwo(m, d);
    assert n == m * 64 + d;
    assert n == (a * 64 + b) * 4096 + (c * 64 + d) && 0 <= c * 64 + d < 4096;
    assert n == a * 262144 + (b * 4096 + c * 64 + d) && 0 <= b * 4096 + c * 64 + d < 262144;
    JoinTwo(a, b);
  }


  /** Decoding loses nothing: a payload that decodes is exactly the encoding of its text. */
  lemma {:induction false} EncodeDecode(bs: seq<byte>)
    requires Decode(bs).Some?
    ensures Encode(Decode(bs).value) == bs
    decreases |bs|
  {
    if bs != [] {
      DecodeUnfold(bs);
      EncodeDecodeChar(bs);
      var c, k := DecodeChar(bs).value.0, DecodeChar(bs).value.1;
      var rest := Decode(bs[k..]).value;
      EncodeDecode(bs[k..]);
      EncodeCons(c, rest);
      Rejoin(bs, k);
    }
  }

  /** A well-formed non-empty input decodes to its first character followed by the rest. */
  lemma DecodeUnfold(bs: seq<byte>)
    requires bs != [] && Decode(bs).Some?
    ensures DecodeChar(bs).Some? && Decode(bs[DecodeChar(bs).value.1..]).Some?
    ensures Decode(bs).value == [DecodeChar(bs).value.0] + Decode(bs[DecodeChar(bs).value.1..]).value
  {
  }

  lemma Rejoin(bs: seq<byte>, k: nat)
    requires k <= |bs|
    ensures bs[..k] + bs[k..] == bs
  {
  }

  lemma EncodeCons(c: char, rest: string)
    ensures Encode([c] + rest) == EncodeChar(c) + Encode(rest)
  {
    assert ([c] + rest)[0] == c && ([c] + rest)[1..] == rest;
  }

  /** A lone continuation byte is not a message. */
  lemma StrayContinuationRejected(rest: seq<byte>)
    ensures Decode([0x80] + rest) == None
  {
  }
}
