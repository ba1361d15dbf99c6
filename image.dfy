/** Data URLs for images: the standard base64 encoding with padding of
    section 4 of RFC 4648, the "data:" prefix chosen by media type, and the
    escaping of spaces in URLs. */
module Image {
  import opened Common
  import opened GoStrings

  /** The 64 characters of the standard alphabet, by value. */
  function Alphabet(v: int): (c: char)
    requires 0 <= v < 64
  {
    if v < 26 then ('A' as int + v) as char
    else if v < 52 then ('a' as int + v - 26) as char
    else if v < 62 then ('0' as int + v - 52) as char
    else if v == 62 then '+'
    else '/'
  }

  predicate InAlphabet(c: char) {
    'A' <= c <= 'Z' || 'a' <= c <= 'z' || '0' <= c <= '9' || c == '+' || c == '/'
  }

  /** The value of an alphabet character. */
  function CharValue(c: char): (v: int)
    requires InAlphabet(c)
    ensures 0 <= v < 64 && Alphabet(v) == c
  {
    if 'A' <= c <= 'Z' then c as int - 'A' as int
    else if 'a' <= c <= 'z' then c as int - 'a' as int + 26
    else if '0' <= c <= '9' then c as int - '0' as int + 52
    else if c == '+' then 62
    else 63
  }

  lemma AlphabetValue(v: int)
    requires 0 <= v < 64
    ensures InAlphabet(Alphabet(v)) && CharValue(Alphabet(v)) == v
  {
  }

  /** Three bytes as four characters, six bits each, most significant
      first: the top six bits of the first byte; its low two with the top
      four of the second; its low four with the top two of the third; the
      low six of the third. */
  function Quantum(b0: byte, b1: byte, b2: byte): (q: string)
    ensures |q| == 4
  {
    var x0, x1, x2 := b0 as int, b1 as int, b2 as int;
    [Alphabet(x0 / 4), Alphabet(x0 % 4 * 16 + x1 / 16), Alphabet(x1 % 16 * 4 + x2 / 64), Alphabet(x2 % 64)]
  }

  /** `base64.StdEncoding.Encode` into a buffer of `EncodedLen` bytes: whole
      groups of three bytes first; a last group of one or two bytes is
      filled with zero bits and its missing characters written as '='. */
  function Encode(bin: seq<byte>): (r: string)
    ensures |r| == 4 * ((|bin| + 2) / 3)
    decreases |bin|
  {
    if |bin| == 0 then []
    else if |bin| == 1 then Quantum(bin[0], 0, 0)[..2] + "=="
    else if |bin| == 2 then Quantum(bin[0], bin[1], 0)[..3] + "="
    else
      LengthStep(|bin|);
      Quantum(bin[0], bin[1], bin[2]) + Encode(bin[3..])
  }

  /** `EncodedLen` grows by one group of four for every three bytes. */
  lemma LengthStep(n: int)
    requires n >= 3
    ensures 4 * ((n + 2) / 3) == 4 + 4 * ((n - 3 + 2) / 3)
  {
  }

  /** A character of an encoding: in the alphabet, or padding at the end of
      the last group only. */
  lemma {:induction false} EncodedCharacters(bin: seq<byte>)
    ensures forall i | 0 <= i < |Encode(bin)| ::
      InAlphabet(Encode(bin)[i]) || (Encode(bin)[i] == '=' && i >= |Encode(bin)| - 2)
    decreases |bin|
  {
    if |bin| >= 3 {
      EncodedCharacters(bin[3..]);
      var q := Quantum(bin[0], bin[1], bin[2]);
      assert Encode(bin) == q + Encode(bin[3..]);
      forall i | 0 <= i < 4
        ensures InAlphabet(q[i])
      {
        QuantumInAlphabet(bin[0], bin[1], bin[2]);
      }
    } else if |bin| > 0 {
      QuantumInAlphabet(bin[0], if |bin| == 2 then bin[1] else 0, 0);
    }
  }

  lemma QuantumInAlphabet(b0: byte, b1: byte, b2: byte)
    ensures forall i | 0 <= i < 4 :: InAlphabet(Quantum(b0, b1, b2)[i])
  {
    var x0, x1, x2 := b0 as int, b1 as int, b2 as int;
    AlphabetValue(x0 / 4);
    AlphabetValue(x0 % 4 * 16 + x1 / 16);
    AlphabetValue(x1 % 16 * 4 + x2 / 64);
    AlphabetValue(x2 % 64);
  }

  /** The bytes back from the values of four characters, the inverse split. */
  function Unquantum(v0: int, v1: int, v2: int, v3: int): (bs: seq<byte>)
    requires 0 <= v0 < 64 && 0 <= v1 < 64 && 0 <= v2 < 64 && 0 <= v3 < 64
    ensures |bs| == 3
  {
    [(v0 * 4 + v1 / 16) as byte, (v1 % 16 * 16 + v2 / 4) as byte, (v2 % 4 * 64 + v3) as byte]
  }

  /** One group of four characters back to its bytes: three, or fewer when
      the group ends in padding. */
  function DecodeGroup(g: string): (r: Option<seq<byte>>)
    requires |g| == 4
    ensures r.Some? ==> 1 <= |r.value| <= 3
  {
    if !(InAlphabet(g[0]) && InAlphabet(g[1])) then None
    else if g[2] == '=' && g[3] == '=' then
      Some(Unquantum(CharValue(g[0]), CharValue(g[1]), 0, 0)[..1])
    else if InAlphabet(g[2]) && g[3] == '=' then
      Some(Unquantum(CharValue(g[0]), CharValue(g[1]), CharValue(g[2]), 0)[..2])
    else if InAlphabet(g[2]) && InAlphabet(g[3]) then
      Some(Unquantum(CharValue(g[0]), CharValue(g[1]), CharValue(g[2]), CharValue(g[3])))
    else None
  }

  /** Decoding, as a reference for what an encoding holds: group by group,
      a padded group only at the end. */
  function Decode(s: string): (r: Option<seq<byte>>)
    decreases |s|
  {
    if |s| == 0 then Some([])
    else if |s| < 4 then None
    else
      match DecodeGroup(s[..4])
      case None => None
      case Some(g) =>
        if |g| < 3 then (if |s| == 4 then Some(g) else None)
        else
          match Decode(s[4..])
          case None => None
          case Some(rest) => Some(g + rest)
  }

  /** Each byte comes back from the six-bit values it was spread over. */
  lemma FirstByteBack(x0: int, x1: int)
    requires 0 <= x0 < 256 && 0 <= x1 < 256
    ensures x0 / 4 * 4 + (x0 % 4 * 16 + x1 / 16) / 16 == x0
  {
    assert (x0 % 4 * 16 + x1 / 16) / 16 == x0 % 4;
  }

  lemma SecondByteBack(x0: int, x1: int, x2: int)
    requires 0 <= x0 < 256 && 0 <= x1 < 256 && 0 <= x2 < 256
    ensures (x0 % 4 * 16 + x1 / 16) % 16 * 16 + (x1 % 16 * 4 + x2 / 64) / 4 == x1
  {
    assert (x0 % 4 * 16 + x1 / 16) % 16 == x1 / 16;
    assert (x1 % 16 * 4 + x2 / 64) / 4 == x1 % 16;
  }

  lemma ThirdByteBack(x1: int, x2: int)
    requires 0 <= x1 < 256 && 0 <= x2 < 256
    ensures (x1 % 16 * 4 + x2 / 64) % 4 * 64 + x2 % 64 == x2
  {
    assert (x1 % 16 * 4 + x2 / 64) % 4 == x2 / 64;
  }

  /** The values of a group's characters give its bytes back. */
  lemma QuantumRoundTrip(b0: byte, b1: byte, b2: byte)
    ensures var q := Quantum(b0, b1, b2);
      InAlphabet(q[0]) && InAlphabet(q[1]) && InAlphabet(q[2]) && InAlphabet(q[3]) &&
      Unquantum(CharValue(q[0]), CharValue(q[1]), CharValue(q[2]), CharValue(q[3])) == [b0, b1, b2]
  {
    var x0, x1, x2 := b0 as int, b1 as int, b2 as int;
    var v0, v1, v2, v3 := x0 / 4, x0 % 4 * 16 + x1 / 16, x1 % 16 * 4 + x2 / 64, x2 % 64;
    AlphabetValue(v0);
    AlphabetValue(v1);
    AlphabetValue(v2);
    AlphabetValue(v3);
    FirstByteBack(x0, x1);
    SecondByteBack(x0, x1, x2);
    ThirdByteBack(x1, x2);
  }

  lemma FullGroup(b0: byte, b1: byte, b2: byte)
    ensures DecodeGroup(Quantum(b0, b1, b2)) == Some([b0, b1, b2])
  {
    QuantumRoundTrip(b0, b1, b2);
  }

  lemma OneByteGroup(b0: byte)
    ensures DecodeGroup(Quantum(b0, 0, 0)[..2] + "==") == Some([b0])
  {
    var q := Quantum(b0, 0, 0);
    var g := q[..2] + "==";
    assert g[0] == q[0] && g[1] == q[1] && g[2] == '=' && g[3] == '=';
    var v0, v1 := CharValue(q[0]), CharValue(q[1]);
    assert Unquantum(v0, v1, 0, 0) == [b0, 0, 0] by {
      QuantumRoundTrip(b0, 0, 0);
      assert CharValue(q[2]) == 0 && CharValue(q[3]) == 0;
    }
    assert InAlphabet(g[0]) && InAlphabet(g[1]) by {
      QuantumInAlphabet(b0, 0, 0);
    }
    assert DecodeGroup(g) == Some(Unquantum(v0, v1, 0, 0)[..1]);
    assert Unquantum(v0, v1, 0, 0)[..1] == [b0];
  }

  lemma TwoBytesGroup(b0: byte, b1: byte)
    ensures DecodeGroup(Quantum(b0, b1, 0)[..3] + "=") == Some([b0, b1])
  {
    var q := Quantum(b0, b1, 0);
    var g := q[..3] + "=";
    assert g[0] == q[0] && g[1] == q[1] && g[2] == q[2] && g[3] == '=';
    var v0, v1, v2 := CharValue(q[0]), CharValue(q[1]), CharValue(q[2]);
    assert InAlphabet(q[2]) && q[2] != '=' && Unquantum(v0, v1, v2, 0) == [b0, b1, 0] by {
      QuantumRoundTrip(b0, b1, 0);
      assert CharValue(q[3]) == 0;
    }
    assert InAlphabet(g[0]) && InAlphabet(g[1]) by {
      QuantumInAlphabet(b0, b1, 0);
    }
    assert DecodeGroup(g) == Some(Unquantum(v0, v1, v2, 0)[..2]);
    assert Unquantum(v0, v1, v2, 0)[..2] == [b0, b1];
  }

  /** Decoding an encoding gives the bytes back, padded groups included. */
  lemma {:induction false} EncodeRoundTrip(bin: seq<byte>)
    ensures Decode(Encode(bin)) == Some(bin)
    decreases |bin|
  {
    if |bin| == 1 {
      LastOneRoundTrip(bin);
    } else if |bin| == 2 {
      LastTwoRoundTrip(bin);
    } else if |bin| >= 3 {
      var rest := bin[3..];
      var q := Quantum(bin[0], bin[1], bin[2]);
      var e := Encode(rest);
      EncodeRoundTrip(rest);
      FullGroup(bin[0], bin[1], bin[2]);
      GroupThenRest(q, e, [bin[0], bin[1], bin[2]], rest);
      assert Encode(bin) == q + e;
      FirstThree(bin);
    }
  }

  lemma LastOneRoundTrip(bin: seq<byte>)
    requires |bin| == 1
    ensures Decode(Encode(bin)) == Some(bin)
  {
    var s := Encode(bin);
    OneByteGroup(bin[0]);
    assert s[..4] == s;
    assert [bin[0]] == bin;
  }

  lemma LastTwoRoundTrip(bin: seq<byte>)
    requires |bin| == 2
    ensures Decode(Encode(bin)) == Some(bin)
  {
    var s := Encode(bin);
    TwoBytesGroup(bin[0], bin[1]);
    assert s[..4] == s;
    assert [bin[0], bin[1]] == bin;
  }

  lemma FirstThree(bin: seq<byte>)
    requires |bin| >= 3
    ensures [bin[0], bin[1], bin[2]] + bin[3..] == bin
  {
  }

  /** A full group in front of a decodable text adds its bytes in front. */
  lemma GroupThenRest(q: string, rest: string, g: seq<byte>, r: seq<byte>)
    requires |q| == 4 && DecodeGroup(q) == Some(g) && |g| == 3 && Decode(rest) == Some(r)
    ensures Decode(q + rest) == Some(g + r)
  {
    var s := q + rest;
    assert s[..4] == q && s[4..] == rest;
  }

  /** The media types the prefix keeps. */
  predicate KnownImage(mime: string) {
    mime == "image/gif" || mime == "image/jpeg" || mime == "image/pjpeg" || mime == "image/png" || mime == "image/tiff"
  }

  /** `format`: a data URL for a known image type, and one claiming PNG for
      every other type. */
  function FormatDataUrl(enc: string, mime: string): (r: string)
    ensures KnownImage(mime) ==> r == "data:" + mime + ";base64," + enc
    ensures !KnownImage(mime) ==> r == "data:image/png;base64," + enc
  {
    var m := if KnownImage(mime) then mime else "image/png";
    "data:" + m + ";base64," + enc
  }

  /** `FromBuffer`, with the media type detected from the bytes given. */
  function FromBuffer(buf: seq<byte>, detected: string): (r: string)
    ensures var m := if KnownImage(detected) then detected else "image/png";
      r == "data:" + m + ";base64," + Encode(buf)
  {
    FormatDataUrl(Encode(buf), detected)
  }

  /** The data URL's payload decodes to the buffer. */
  lemma FromBufferPayload(buf: seq<byte>, detected: string)
    ensures exists m :: (KnownImage(m) &&
      FromBuffer(buf, detected) == "data:" + m + ";base64," + Encode(buf) &&
      Decode(FromBuffer(buf, detected)[|"data:" + m + ";base64,"|..]) == Some(buf))
  {
    var m := if KnownImage(detected) then detected else "image/png";
    var r := FromBuffer(buf, detected);
    assert r[|"data:" + m + ";base64,"|..] == Encode(buf);
    EncodeRoundTrip(buf);
  }

  /** How many spaces a string holds. */
  function Spaces(s: string): nat
    decreases |s|
  {
    if s == [] then 0 else (if s[0] == ' ' then 1 else 0) + Spaces(s[1..])
  }

  /** `cleanUrl`: every space becomes "%20". No space is left, each one
      grew by two characters, and a string without spaces is unchanged. */
  function CleanUrl(s: string): (r: string)
    ensures forall i | 0 <= i < |r| :: r[i] != ' '
    ensures |r| == |s| + 2 * Spaces(s)
    ensures Spaces(s) == 0 ==> r == s
  {
    EscapeSpaces(s);
    ReplaceAll(s, " ", "%20")
  }

  /** The facts `CleanUrl` states, about the replacement itself. */
  lemma {:induction false} EscapeSpaces(s: string)
    ensures forall i | 0 <= i < |ReplaceAll(s, " ", "%20")| :: ReplaceAll(s, " ", "%20")[i] != ' '
    ensures |ReplaceAll(s, " ", "%20")| == |s| + 2 * Spaces(s)
    ensures Spaces(s) == 0 ==> ReplaceAll(s, " ", "%20") == s
    decreases |s|
  {
    ReplaceAllCharGone(s, ' ', "%20");
    if |s| >= 1 {
      EscapeSpaces(s[1..]);
      if s[0] == ' ' {
        assert s[..1] == " ";
        assert ReplaceAll(s, " ", "%20") == "%20" + ReplaceAll(s[1..], " ", "%20");
      } else {
        assert s[..1] != " ";
        assert ReplaceAll(s, " ", "%20") == [s[0]] + ReplaceAll(s[1..], " ", "%20");
        assert Spaces(s) == 0 ==> [s[0]] + s[1..] == s;
      }
    }
  }

  /** Reading the escape back: in a string that held no "%" before, turning
      each "%20" into a space gives the original string. */
  lemma {:induction false} CleanUrlReversible(s: string)
    requires forall i | 0 <= i < |s| :: s[i] != '%'
    ensures ReplaceAll(CleanUrl(s), "%20", " ") == s
    decreases |s|
  {
    if |s| >= 1 {
      CleanUrlReversible(s[1..]);
      var t := CleanUrl(s[1..]);
      if s[0] == ' ' {
        assert s[..1] == " ";
        assert CleanUrl(s) == "%20" + t;
        assert ("%20" + t)[..3] == "%20" && ("%20" + t)[3..] == t;
        assert " " + s[1..] == s;
      } else {
        assert s[..1] != " ";
        assert CleanUrl(s) == [s[0]] + t;
        var u := [s[0]] + t;
        assert |u| < 3 || u[..3] != "%20" by {
          if |u| >= 3 {
            assert u[..3][0] == s[0];
          }
        }
        assert u[1..] == t;
        assert [s[0]] + s[1..] == s;
      }
    }
  }
}
