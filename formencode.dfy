/** The application/x-www-form-urlencoded serializer of the WHATWG URL Standard (section 5.2),
    which URLSearchParams.prototype.toString runs: every name and value is encoded as UTF-8,
    each byte 0x20 becomes '+', the bytes of ASCII letters, digits and * - . _ stay as they
    are, every other byte becomes '%' and two upper-case hexadecimal digits; the pairs are
    written name=value and joined with '&'. A decoder is given beside it, and the lemmas
    show that serialising loses nothing. */
module FormUrlEncoded {
  import opened Text

  type Byte = b: int | 0 <= b < 256

  /** The UTF-8 encoding of one Unicode scalar value. */
  function Utf8(c: char): (bs: seq<Byte>)
    ensures 1 <= |bs| <= 4
    ensures (c as int < 0x80) <==> |bs| == 1
    ensures |bs| == 1 ==> bs[0] == c as int
  {
    var cp := c as int;
    if cp < 0x80 then [cp]
    else if cp < 0x800 then [0xC0 + cp / 64, 0x80 + cp % 64]
    else if cp < 0x10000 then [0xE0 + cp / 4096, 0x80 + (cp / 64) % 64, 0x80 + cp % 64]
    else [0xF0 + cp / 262144, 0x80 + (cp / 4096) % 64, 0x80 + (cp / 64) % 64, 0x80 + cp % 64]
  }

  function Utf8String(s: string): seq<Byte> {
    if s == [] then [] else Utf8(s[0]) + Utf8String(s[1..])
  }

  /** The number of bytes of the UTF-8 sequence that starts with lead byte b. */
  function SeqLength(b: Byte): nat {
    if b < 0xC0 then 1 else if b < 0xE0 then 2 else if b < 0xF0 then 3 else 4
  }

  function ScalarOrReplacement(cp: int): char {
    if 0 <= cp < 0xD800 || 0xE000 <= cp < 0x110000 then cp as char else '\U{FFFD}'
  }

  /** Decodes one UTF-8 sequence of the length its lead byte announces. */
  function DecodeSeq(bs: seq<Byte>): char
    requires |bs| >= 1
  {
    var n := SeqLength(bs[0]);
    var b0: int := bs[0];
    if n == 1 || |bs| < n then ScalarOrReplacement(b0)
    else
      var b1: int := bs[1];
      if n == 2 then ScalarOrReplacement((b0 - 0xC0) * 64 + (b1 - 0x80))
      else
        var b2: int := bs[2];
        if n == 3 then ScalarOrReplacement((b0 - 0xE0) * 4096 + (b1 - 0x80) * 64 + (b2 - 0x80))
        else
          var b3: int := bs[3];
          ScalarOrReplacement((b0 - 0xF0) * 262144 + (b1 - 0x80) * 4096 + (b2 - 0x80) * 64 + (b3 - 0x80))
  }

  function Utf8Decode(bs: seq<Byte>): string
    decreases |bs|
  {
    if bs == [] then []
    else
      var n := if SeqLength(bs[0]) <= |bs| then SeqLength(bs[0]) else 1;
      [DecodeSeq(bs[..n])] + Utf8Decode(bs[n..])
  }

  /** The lead byte of a character's encoding announces the encoding's length. */
  lemma Utf8Char(c: char)
    ensures SeqLength(Utf8(c)[0]) == |Utf8(c)|
    ensures DecodeSeq(Utf8(c)) == c
  {
    var cp := c as int;
    if cp < 0x80 {
    } else if cp < 0x800 {
      Utf8Two(c);
    } else if cp < 0x10000 {
      Utf8Three(c);
    } else {
      Utf8Four(c);
    }
  }

  lemma Utf8Two(c: char)
    requires 0x80 <= c as int < 0x800
    ensures SeqLength(Utf8(c)[0]) == 2 && DecodeSeq(Utf8(c)) == c
  {
    var cp := c as int;
    assert (cp / 64) * 64 + cp % 64 == cp;
  }

  lemma Utf8Three(c: char)
    requires 0x800 <= c as int < 0x10000
    ensures SeqLength(Utf8(c)[0]) == 3 && DecodeSeq(Utf8(c)) == c
  {
    var cp := c as int;
    assert ((cp / 4096) * 64 + (cp / 64) % 64) * 64 + cp % 64 == cp;
  }

  lemma Utf8Four(c: char)
    requires 0x10000 <= c as int
    ensures SeqLength(Utf8(c)[0]) == 4 && DecodeSeq(Utf8(c)) == c
  {
    var cp := c as int;
    assert (((cp / 262144) * 64 + (cp / 4096) % 64) * 64 + (cp / 64) % 64) * 64 + cp % 64 == cp;
  }

  /** Decoding the UTF-8 encoding of a string gives the string back. */
  lemma {:induction false} Utf8RoundTrip(s: string)
    ensures Utf8Decode(Utf8String(s)) == s
  {
    if s != [] {
      var head := Utf8(s[0]);
      var bs := Utf8String(s);
      Utf8Char(s[0]);
      assert bs[..|head|] == head && bs[|head|..] == Utf8String(s[1..]);
      Utf8RoundTrip(s[1..]);
    }
  }

  function HexDigit(d: int): (c: char)
    requires 0 <= d < 16
  {
    "0123456789ABCDEF"[d]
  }

  function HexValue(c: char): (d: int)
    ensures -1 <= d < 16
  {
    if '0' <= c <= '9' then c as int - '0' as int
    else if 'A' <= c <= 'F' then c as int - 'A' as int + 10
    else if 'a' <= c <= 'f' then c as int - 'a' as int + 10
    else -1
  }

  lemma HexDigitValue(d: int)
    requires 0 <= d < 16
    ensures HexValue(HexDigit(d)) == d
  {
  }

  /** The bytes that the serializer leaves as they are. */
  predicate KeptByte(b: Byte) {
    (0x30 <= b <= 0x39) || (0x41 <= b <= 0x5A) || (0x61 <= b <= 0x7A)
    || b == 0x2A || b == 0x2D || b == 0x2E || b == 0x5F
  }

  function EncodeByte(b: Byte): (r: string)
    ensures '&' !in r && '=' !in r
  {
    if b == 0x20 then "+"
    else if KeptByte(b) then [b as char]
    else ['%', HexDigit(b / 16), HexDigit(b % 16)]
  }

  function EncodeBytes(bs: seq<Byte>): (r: string)
    ensures '&' !in r && '=' !in r
  {
    if bs == [] then "" else EncodeByte(bs[0]) + EncodeBytes(bs[1..])
  }

  /** The form-urlencoded encoding of one name or value. */
  function Encode(s: string): (r: string)
    ensures '&' !in r && '=' !in r
  {
    EncodeBytes(Utf8String(s))
  }

  /** Reverses the byte encoding: '+' is 0x20, '%' with two hexadecimal digits is that byte,
      any other character stands for its own UTF-8 bytes. */
  function DecodeBytes(t: string): seq<Byte>
    decreases |t|
  {
    if t == [] then []
    else if t[0] == '+' then [0x20] + DecodeBytes(t[1..])
    else if t[0] == '%' && |t| >= 3 && HexValue(t[1]) >= 0 && HexValue(t[2]) >= 0 then
      [HexValue(t[1]) * 16 + HexValue(t[2])] + DecodeBytes(t[3..])
    else Utf8(t[0]) + DecodeBytes(t[1..])
  }

  function Decode(t: string): string {
    Utf8Decode(DecodeBytes(t))
  }

  lemma EncodeByteDecodes(b: Byte, rest: string)
    ensures DecodeBytes(EncodeByte(b) + rest) == [b] + DecodeBytes(rest)
  {
    var e := EncodeByte(b);
    if b == 0x20 {
      assert (e + rest)[1..] == rest;
    } else if KeptByte(b) {
      assert (e + rest)[1..] == rest;
    } else {
      HexDigitValue(b / 16);
      HexDigitValue(b % 16);
      assert (e + rest)[3..] == rest;
    }
  }

  lemma {:induction false} BytesRoundTrip(bs: seq<Byte>)
    ensures DecodeBytes(EncodeBytes(bs)) == bs
  {
    if bs != [] {
      EncodeByteDecodes(bs[0], EncodeBytes(bs[1..]));
      BytesRoundTrip(bs[1..]);
    }
  }

  /** Decoding an encoded name or value gives it back, so the encoding is injective. */
  lemma EncodeRoundTrip(s: string)
    ensures Decode(Encode(s)) == s
  {
    BytesRoundTrip(Utf8String(s));
    Utf8RoundTrip(s);
  }

  lemma EncodeInjective(s: string, t: string)
    requires Encode(s) == Encode(t)
    ensures s == t
  {
    EncodeRoundTrip(s);
    EncodeRoundTrip(t);
  }

  /** URLSearchParams.prototype.toString over the list of name/value pairs, in list order. */
  function Serialize(ps: seq<(string, string)>): string {
    if ps == [] then ""
    else
      var head := Encode(ps[0].0) + "=" + Encode(ps[0].1);
      if |ps| == 1 then head else head + "&" + Serialize(ps[1..])
  }

  function ParsePair(t: string): (string, string) {
    var name := BeforeFirst(t, '=');
    (Decode(name), if |name| < |t| then Decode(t[|name| + 1..]) else "")
  }

  /** Splits a query at '&' and each piece at its first '=', then decodes names and values. */
  function ParseQuery(q: string): seq<(string, string)>
    decreases |q|
  {
    var piece := BeforeFirst(q, '&');
    [ParsePair(piece)] + (if |piece| < |q| then ParseQuery(q[|piece| + 1..]) else [])
  }

  lemma PairRoundTrip(n: string, v: string)
    ensures ParsePair(Encode(n) + "=" + Encode(v)) == (n, v)
  {
    var t := Encode(n) + "=" + Encode(v);
    BeforeFirstPrefix(Encode(n), '=', Encode(v));
    assert t[|Encode(n)| + 1..] == Encode(v);
    EncodeRoundTrip(n);
    EncodeRoundTrip(v);
  }

  /** Parsing a serialised non-empty parameter list gives back the list: names, values and order. */
  lemma {:induction false} SerializeRoundTrip(ps: seq<(string, string)>)
    requires |ps| >= 1
    ensures ParseQuery(Serialize(ps)) == ps
  {
    var head := Encode(ps[0].0) + "=" + Encode(ps[0].1);
    assert '&' !in head;
    PairRoundTrip(ps[0].0, ps[0].1);
    if |ps| == 1 {
      BeforeFirstAll(head, '&');
    } else {
      var rest := Serialize(ps[1..]);
      BeforeFirstPrefix(head, '&', rest);
      assert (head + "&" + rest)[|head| + 1..] == rest;
      SerializeRoundTrip(ps[1..]);
    }
  }

  /** The pairs of ps whose name is not n, in their order. */
  function WithoutName(ps: seq<(string, string)>, n: string): (r: seq<(string, string)>)
    ensures |r| <= |ps|
    ensures forall i :: 0 <= i < |r| ==> r[i].0 != n
    ensures (forall i :: 0 <= i < |ps| ==> ps[i].0 != n) ==> r == ps
  {
    if ps == [] then [] else (if ps[0].0 == n then [] else [ps[0]]) + WithoutName(ps[1..], n)
  }

  /** URLSearchParams.prototype.set: the first pair named n takes the value v and every later
      pair named n is dropped; with no pair named n, (n, v) is appended. */
  function SetParam(ps: seq<(string, string)>, n: string, v: string): (r: seq<(string, string)>)
    ensures (forall i :: 0 <= i < |ps| ==> ps[i].0 != n) ==> r == ps + [(n, v)]
  {
    if ps == [] then [(n, v)]
    else if ps[0].0 == n then [(n, v)] + WithoutName(ps[1..], n)
    else [ps[0]] + SetParam(ps[1..], n, v)
  }

  /** After set, n is named exactly once, with value v, and the other pairs keep their order. */
  lemma {:induction false} SetParamSpec(ps: seq<(string, string)>, n: string, v: string)
    ensures var r := SetParam(ps, n, v);
      (n, v) in r && |r| == |WithoutName(r, n)| + 1 && WithoutName(r, n) == WithoutName(ps, n)
  {
    if ps == [] {
    } else if ps[0].0 == n {
      var rest := WithoutName(ps[1..], n);
      assert WithoutName(rest, n) == rest;
      assert ([(n, v)] + rest)[1..] == rest;
    } else {
      SetParamSpec(ps[1..], n, v);
      var rest := SetParam(ps[1..], n, v);
      assert ([ps[0]] + rest)[1..] == rest;
    }
  }
}
