/** The base64 transport of the clipboard: the main process turns file bytes
    into text with `Buffer.toString('base64')` and the paste handler turns the
    text back with `Buffer.from(text, 'base64')`. The encoder follows the
    base64 alphabet and padding of section 4 of RFC 4648; the decoder is the
    lenient one of Node's `Buffer`: it skips characters outside the alphabet,
    accepts the URL-safe '-' and '_' as 62 and 63, and stops at the first '='. */
module Base64 {
  import opened Common

  type byte = x: int | 0 <= x < 256
  type sextet = x: int | 0 <= x < 64

  /** Table 1 of RFC 4648: A-Z, a-z, 0-9, '+', '/'. */
  function EncodeChar(v: sextet): (c: char)
  {
    if v < 26 then ('A' as int + v) as char
    else if v < 52 then ('a' as int + (v - 26)) as char
    else if v < 62 then ('0' as int + (v - 52)) as char
    else if v == 62 then '+'
    else '/'
  }

  /** The value of one character for the decoder, or None for a character it
      skips. '=' has no value. */
  function CharValue(c: char): (r: Option<sextet>)
    ensures c == '=' ==> r.None?
  {
    if 'A' <= c <= 'Z' then Some(c as int - 'A' as int)
    else if 'a' <= c <= 'z' then Some(c as int - 'a' as int + 26)
    else if '0' <= c <= '9' then Some(c as int - '0' as int + 52)
    else if c == '+' || c == '-' then Some(62)
    else if c == '/' || c == '_' then Some(63)
    else None
  }

  /** Every 3 bytes become 4 sextets; a final 1 or 2 bytes become 2 or 3
      sextets, the unused low bits being zero. */
  function EncodeSextets(b: seq<byte>): seq<sextet>
  {
    if |b| == 0 then []
    else if |b| == 1 then [b[0] / 4, (b[0] % 4) * 16]
    else if |b| == 2 then [b[0] / 4, (b[0] % 4) * 16 + b[1] / 16, (b[1] % 16) * 4]
    else
      var group := [b[0] / 4, (b[0] % 4) * 16 + b[1] / 16, (b[1] % 16) * 4 + b[2] / 64, b[2] % 64];
      group + EncodeSextets(b[3..])
  }

  function Chars(v: seq<sextet>): (s: string)
    ensures |s| == |v|
  {
    if |v| == 0 then "" else [EncodeChar(v[0])] + Chars(v[1..])
  }

  /** '=' padding up to a whole quantum of 4 characters. */
  function Padding(n: nat): string
  {
    if n % 3 == 1 then "==" else if n % 3 == 2 then "=" else ""
  }

  /** `buffer.toString('base64')` */
  function Encode(b: seq<byte>): string
  {
    Chars(EncodeSextets(b)) + Padding(|b|)
  }

  /** The values of the alphabet characters of `s` up to its first '='. */
  function Sextets(s: string): seq<sextet>
  {
    if |s| == 0 || s[0] == '=' then []
    else match CharValue(s[0])
      case Some(v) => [v] + Sextets(s[1..])
      case None => Sextets(s[1..])
  }

  /** Every 4 sextets become 3 bytes; a final 3 or 2 sextets become 2 or 1
      bytes, and a final single sextet is dropped. */
  function DecodeSextets(v: seq<sextet>): seq<byte>
  {
    if |v| >= 4 then
      var group: seq<byte> := [High(v[0], v[1]), Middle(v[1], v[2]), Low(v[2], v[3])];
      group + DecodeSextets(v[4..])
    else if |v| == 3 then [High(v[0], v[1]), Middle(v[1], v[2])]
    else if |v| == 2 then [High(v[0], v[1])]
    else []
  }

  /** The byte made of the 6 bits of `a` and the top 2 bits of `b`. */
  function High(a: sextet, b: sextet): byte
  {
    a as int * 4 + b as int / 16
  }

  /** The byte made of the low 4 bits of `a` and the top 4 bits of `b`. */
  function Middle(a: sextet, b: sextet): byte
  {
    (a as int % 16) * 16 + b as int / 4
  }

  /** The byte made of the low 2 bits of `a` and the 6 bits of `b`. */
  function Low(a: sextet, b: sextet): byte
  {
    (a as int % 4) * 64 + b as int
  }

  /** `Buffer.from(s, 'base64')` */
  function Decode(s: string): seq<byte>
  {
    DecodeSextets(Sextets(s))
  }

  /** The decoder reads back the value of every character the encoder
      writes. */
  lemma CharRoundTrip(v: sextet)
    ensures CharValue(EncodeChar(v)) == Some(v)
  {
  }

  /** A leading alphabet character contributes its value. */
  lemma SextetsCons(c: char, rest: string)
    requires CharValue(c).Some?
    ensures Sextets([c] + rest) == [CharValue(c).value] + Sextets(rest)
  {
    assert ([c] + rest)[1..] == rest;
  }

  /** The decoder recovers the sextets from the encoded characters, whatever
      padding follows them. */
  lemma {:induction false} SextetsOfChars(v: seq<sextet>, pad: string)
    requires pad == "" || pad[0] == '='
    ensures Sextets(Chars(v) + pad) == v
  {
    if |v| == 0 {
      assert Chars(v) + pad == pad;
    } else {
      var c := EncodeChar(v[0]);
      var rest := Chars(v[1..]) + pad;
      assert Chars(v) + pad == [c] + rest;
      CharRoundTrip(v[0]);
      SextetsCons(c, rest);
      SextetsOfChars(v[1..], pad);
    }
  }

  /** Regrouping the sextets of a 3-byte group gives the same 3 bytes. */
  lemma GroupRoundTrip(b0: byte, b1: byte, b2: byte)
    ensures var v0, v1, v2, v3 := b0 / 4, (b0 % 4) * 16 + b1 / 16, (b1 % 16) * 4 + b2 / 64, b2 % 64;
      High(v0, v1) == b0 && Middle(v1, v2) == b1 && Low(v2, v3) == b2
  {
    var v1 := (b0 % 4) * 16 + b1 / 16;
    var v2 := (b1 % 16) * 4 + b2 / 64;
    assert v1 / 16 == b0 % 4 && v1 % 16 == b1 / 16;
    assert v2 / 4 == b1 % 16 && v2 % 4 == b2 / 64;
  }

  lemma {:induction false} SextetsRoundTrip(b: seq<byte>)
    ensures DecodeSextets(EncodeSextets(b)) == b
  {
    if |b| == 1 {
      assert ((b[0] % 4) * 16) / 16 == b[0] % 4;
    } else if |b| == 2 {
      GroupRoundTrip(b[0], b[1], 0);
    } else if |b| >= 3 {
      GroupRoundTrip(b[0], b[1], b[2]);
      SextetsRoundTrip(b[3..]);
      var v := EncodeSextets(b);
      assert v[4..] == EncodeSextets(b[3..]);
      assert b == b[..3] + b[3..];
    }
  }

  /** Decoding what was encoded gives back the bytes: the copy of a file
      that a paste writes has the bytes of the source. */
  lemma DecodeEncode(b: seq<byte>)
    ensures Decode(Encode(b)) == b
  {
    SextetsOfChars(EncodeSextets(b), Padding(|b|));
    SextetsRoundTrip(b);
  }

  /** Every whole group of 3 bytes gives 4 sextets, and a final 1 or 2
      bytes give 2 or 3. */
  lemma {:induction false} SextetCount(b: seq<byte>)
    ensures |EncodeSextets(b)| == 4 * (|b| / 3) + (if |b| % 3 == 0 then 0 else |b| % 3 + 1)
  {
    if |b| >= 3 {
      SextetCount(b[3..]);
      assert |EncodeSextets(b)| == 4 + |EncodeSextets(b[3..])|;
      assert |b| / 3 == |b[3..]| / 3 + 1 && |b| % 3 == |b[3..]| % 3;
    }
  }

  /** The encoded text is a whole number of 4-character quanta, 4 for every
      started group of 3 bytes. */
  lemma EncodeLength(b: seq<byte>)
    ensures |Encode(b)| == 4 * ((|b| + 2) / 3)
  {
    SextetCount(b);
    assert |Encode(b)| == |EncodeSextets(b)| + |Padding(|b|)|;
  }

  /** The test vectors of section 10 of RFC 4648 for "", "f" and "fo". */
  lemma EncodeShortVectors()
    ensures Encode([]) == ""
    ensures Encode([0x66]) == "Zg=="
    ensures Encode([0x66, 0x6f]) == "Zm8="
  {
    assert EncodeSextets([0x66]) == [25, 32];
    assert EncodeSextets([0x66, 0x6f]) == [25, 38, 60];
  }

  /** The test vectors of section 10 of RFC 4648 for "foo" and "foob". */
  lemma EncodeLongVectors()
    ensures Encode([0x66, 0x6f, 0x6f]) == "Zm9v"
    ensures Encode([0x66, 0x6f, 0x6f, 0x62]) == "Zm9vYg=="
  {
    var foo: seq<byte> := [0x66, 0x6f, 0x6f];
    var foob: seq<byte> := [0x66, 0x6f, 0x6f, 0x62];
    assert EncodeSextets(foo) == [25, 38, 61, 47];
    assert foob[3..] == [0x62];
    assert EncodeSextets(foob) == [25, 38, 61, 47] + EncodeSextets([0x62]);
    assert EncodeSextets([0x62]) == [24, 32];
  }
}
