/**
 * `btoa` and the browser window name derived from an email: the base 64
 * encoding of RFC 4648 section 4 applied to the string's characters as Latin-1
 * bytes, with the '=' padding removed. `btoa` throws on a character above U+00FF.
 */
module Base64 {
  import opened Common
  import opened Strings

  type Byte = b: int | 0 <= b < 256

  /** The character for a 6-bit value, in the order of the RFC 4648 alphabet. */
  function Symbol(v: int): (c: char)
    requires 0 <= v < 64
    ensures c != '='
  {
    if v < 26 then ('A' as int + v) as char
    else if v < 52 then ('a' as int + v - 26) as char
    else if v < 62 then ('0' as int + v - 52) as char
    else if v == 62 then '+'
    else '/'
  }

  /** The 6-bit value of an alphabet character. */
  function SymbolValue(c: char): (r: Option<int>)
    ensures r.Some? ==> 0 <= r.value < 64
  {
    if 'A' <= c <= 'Z' then Some(c as int - 'A' as int)
    else if 'a' <= c <= 'z' then Some(c as int - 'a' as int + 26)
    else if '0' <= c <= '9' then Some(c as int - '0' as int + 52)
    else if c == '+' then Some(62)
    else if c == '/' then Some(63)
    else None
  }

  lemma SymbolRoundTrip(v: int)
    requires 0 <= v < 64
    ensures SymbolValue(Symbol(v)) == Some(v)
  {
  }

  /** The encoding without padding: each 3 bytes become 4 symbols, a tail of 1 or 2 bytes 2 or 3. */
  function EncodeUnpadded(b: seq<Byte>): (s: string)
    ensures '=' !in s
    ensures |s| == (4 * |b| + 2) / 3
    decreases |b|
  {
    if |b| == 0 then ""
    else if |b| == 1 then [Symbol(b[0] / 4), Symbol((b[0] % 4) * 16)]
    else if |b| == 2 then [Symbol(b[0] / 4), Symbol((b[0] % 4) * 16 + b[1] / 16), Symbol((b[1] % 16) * 4)]
    else Group(b[0], b[1], b[2]) + EncodeUnpadded(b[3..])
  }

  /** The four symbols of three bytes: their 24 bits taken six at a time. */
  function Group(b0: Byte, b1: Byte, b2: Byte): (s: string)
    ensures |s| == 4 && '=' !in s
  {
    [Symbol(b0 / 4), Symbol((b0 % 4) * 16 + b1 / 16), Symbol((b1 % 16) * 4 + b2 / 64), Symbol(b2 % 64)]
  }

  /** `btoa` on bytes: the unpadded symbols, then '=' up to a multiple of four. */
  function Encode(b: seq<Byte>): (s: string)
    ensures |s| % 4 == 0
  {
    PaddedLength(|b|);
    EncodeUnpadded(b) + (if |b| % 3 == 1 then "==" else if |b| % 3 == 2 then "=" else "")
  }

  /** The unpadded length of n bytes plus the padding is a multiple of four. */
  lemma PaddedLength(n: nat)
    ensures ((4 * n + 2) / 3 + (if n % 3 == 1 then 2 else if n % 3 == 2 then 1 else 0)) % 4 == 0
  {
    var q := n / 3;
    if n % 3 == 0 {
      assert 4 * n + 2 == 3 * (4 * q) + 2;
      assert (4 * n + 2) / 3 == 4 * q;
    } else if n % 3 == 1 {
      assert 4 * n + 2 == 3 * (4 * q + 2);
      assert (4 * n + 2) / 3 + 2 == 4 * (q + 1);
    } else {
      assert 4 * n + 2 == 3 * (4 * q + 3) + 1;
      assert (4 * n + 2) / 3 + 1 == 4 * (q + 1);
    }
  }

  /** Reading unpadded base 64 back; a lone trailing symbol or a foreign character is rejected. */
  function DecodeUnpadded(s: string): (r: Option<seq<Byte>>)
    decreases |s|
  {
    if |s| == 0 then Some([])
    else if |s| == 1 then None
    else
      var v0 := SymbolValue(s[0]);
      var v1 := SymbolValue(s[1]);
      if v0.None? || v1.None? then None
      else if |s| == 2 then Some([v0.value * 4 + v1.value / 16])
      else
        var v2 := SymbolValue(s[2]);
        if v2.None? then None
        else if |s| == 3 then Some([v0.value * 4 + v1.value / 16, (v1.value % 16) * 16 + v2.value / 4])
        else
          var v3 := SymbolValue(s[3]);
          var rest := DecodeUnpadded(s[4..]);
          if v3.None? || rest.None? then None
          else
            Some([v0.value * 4 + v1.value / 16, (v1.value % 16) * 16 + v2.value / 4, (v2.value % 4) * 64 + v3.value]
                 + rest.value)
  }

  /** The arithmetic of one group: the bits split across symbols join back into the bytes. */
  lemma GroupBits(b0: Byte, b1: Byte, b2: Byte)
    ensures (b0 / 4) * 4 + ((b0 % 4) * 16 + b1 / 16) / 16 == b0
    ensures (((b0 % 4) * 16 + b1 / 16) % 16) * 16 + ((b1 % 16) * 4 + b2 / 64) / 4 == b1
    ensures (((b1 % 16) * 4 + b2 / 64) % 4) * 64 + b2 % 64 == b2
    ensures ((b0 % 4) * 16 + b1 / 16) < 64 && ((b1 % 16) * 4 + b2 / 64) < 64
  {
    var hi := b0 % 4;
    var mid := b1 / 16;
    assert (hi * 16 + mid) / 16 == hi && (hi * 16 + mid) % 16 == mid;
    var lo := b1 % 16;
    var top := b2 / 64;
    assert (lo * 4 + top) / 4 == lo && (lo * 4 + top) % 4 == top;
  }

  /** Decoding the unpadded encoding gives the bytes back. */
  lemma {:induction false} DecodeEncode(b: seq<Byte>)
    ensures DecodeUnpadded(EncodeUnpadded(b)) == Some(b)
    decreases |b|
  {
    if |b| == 1 {
      DecodeOne(b[0]);
      assert b == [b[0]];
    } else if |b| == 2 {
      DecodeTwo(b[0], b[1]);
      assert b == [b[0], b[1]];
    } else if |b| >= 3 {
      var s := EncodeUnpadded(b);
      DecodeEncode(b[3..]);
      DecodeGroup(b[0], b[1], b[2], EncodeUnpadded(b[3..]));
      assert b == [b[0], b[1], b[2]] + b[3..];
    }
  }

  /** A tail of one byte: two symbols. */
  lemma DecodeOne(b0: Byte)
    ensures DecodeUnpadded([Symbol(b0 / 4), Symbol((b0 % 4) * 16)]) == Some([b0])
  {
    GroupBits(b0, 0, 0);
    SymbolRoundTrip(b0 / 4);
    SymbolRoundTrip((b0 % 4) * 16);
    assert ((b0 % 4) * 16) / 16 == b0 % 4;
  }

  /** A tail of two bytes: three symbols. */
  lemma DecodeTwo(b0: Byte, b1: Byte)
    ensures DecodeUnpadded([Symbol(b0 / 4), Symbol((b0 % 4) * 16 + b1 / 16), Symbol((b1 % 16) * 4)]) == Some([b0, b1])
  {
    GroupBits(b0, b1, 0);
    SymbolRoundTrip(b0 / 4);
    SymbolRoundTrip((b0 % 4) * 16 + b1 / 16);
    SymbolRoundTrip((b1 % 16) * 4);
  }

  /** The four symbols of a full group decode to its three bytes, whatever follows. */
  lemma DecodeGroup(b0: Byte, b1: Byte, b2: Byte, t: string)
    requires DecodeUnpadded(t).Some?
    ensures DecodeUnpadded(Group(b0, b1, b2) + t) == Some([b0, b1, b2] + DecodeUnpadded(t).value)
  {
    var w0, w1, w2, w3 := b0 / 4, (b0 % 4) * 16 + b1 / 16, (b1 % 16) * 4 + b2 / 64, b2 % 64;
    GroupBits(b0, b1, b2);
    SymbolRoundTrip(w0);
    SymbolRoundTrip(w1);
    SymbolRoundTrip(w2);
    SymbolRoundTrip(w3);
    var s := [Symbol(w0), Symbol(w1), Symbol(w2), Symbol(w3)] + t;
    assert s[4..] == t;
    assert s[0] == Symbol(w0) && s[1] == Symbol(w1) && s[2] == Symbol(w2) && s[3] == Symbol(w3);
  }

  /** Different byte strings never share an encoding. */
  lemma EncodeInjective(a: seq<Byte>, b: seq<Byte>)
    requires EncodeUnpadded(a) == EncodeUnpadded(b)
    ensures a == b
  {
    DecodeEncode(a);
    DecodeEncode(b);
  }

  /** Every character fits in a Latin-1 byte. */
  predicate IsLatin1(s: string) {
    forall i :: 0 <= i < |s| ==> s[i] as int < 256
  }

  function Latin1Bytes(s: string): (b: seq<Byte>)
    requires IsLatin1(s)
    ensures |b| == |s| && forall i :: 0 <= i < |s| ==> b[i] == s[i] as int
  {
    seq(|s|, i requires 0 <= i < |s| => s[i] as int as Byte)
  }

  /** `btoa(s)`: None where it throws. */
  function Btoa(s: string): (r: Option<string>)
    ensures r.Some? <==> IsLatin1(s)
  {
    if IsLatin1(s) then Some(Encode(Latin1Bytes(s))) else None
  }

  /** `btoa(email).replace(/=/g, '')`: the window name of an account's browser; None where `btoa` throws. */
  function WindowName(email: string): (r: Option<string>)
    ensures r.Some? <==> IsLatin1(email)
    ensures r.Some? ==> '=' !in r.value && r.value == EncodeUnpadded(Latin1Bytes(email))
  {
    var encoded := Btoa(email);
    if encoded.None? then None
    else
      RemoveTrailing(EncodeUnpadded(Latin1Bytes(email)), '=',
                     if |email| % 3 == 1 then "==" else if |email| % 3 == 2 then "=" else "");
      Some(RemoveChar(encoded.value, '='))
  }

  /** Dropping every `c` from `a` followed by a run of `c` leaves `a` when `a` has none. */
  lemma {:induction false} RemoveTrailing(a: string, c: char, pad: string)
    requires c !in a && forall i :: 0 <= i < |pad| ==> pad[i] == c
    ensures RemoveChar(a + pad, c) == a
    decreases |a|
  {
    if |a| > 0 {
      assert (a + pad)[1..] == a[1..] + pad;
      RemoveTrailing(a[1..], c, pad);
    } else {
      assert a + pad == pad;
      RemoveRun(pad, c);
    }
  }

  /** A run of `c` vanishes entirely. */
  lemma {:induction false} RemoveRun(pad: string, c: char)
    requires forall i :: 0 <= i < |pad| ==> pad[i] == c
    ensures RemoveChar(pad, c) == ""
    decreases |pad|
  {
    if |pad| > 0 {
      RemoveRun(pad[1..], c);
    }
  }

  /** Two accounts get the same window name only when their emails are equal. */
  lemma WindowNameInjective(e1: string, e2: string)
    requires WindowName(e1).Some? && WindowName(e1) == WindowName(e2)
    ensures e1 == e2
  {
    EncodeInjective(Latin1Bytes(e1), Latin1Bytes(e2));
    assert forall i :: 0 <= i < |e1| ==> e1[i] as int == e2[i] as int;
  }
}
