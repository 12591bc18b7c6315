/** The base64 encoding of section 4 of RFC 4648 (alphabet `A-Z a-z 0-9 + /`,
    `=` padding), with a strict decoder: the input length is a multiple of
    four, every character is in the alphabet, and only the last group may
    end in one or two `=`. Python's `base64.b64decode` is laxer by default:
    it drops characters outside the alphabet, stops at the first complete
    padding, accepts surplus `=`, and skips an `=` before a group's second
    data character. This decoder agrees with it on the canonical encodings
    the round-trip lemma is about. */
module Base64 {
  import opened Wrappers

  type Byte = b: int | 0 <= b < 256
  type Sextet = x: int | 0 <= x < 64

  const Pad: char := '='

  /** Table 1 of RFC 4648: the character for a 6-bit value. */
  function SextetChar(x: Sextet): (c: char)
    ensures IsAlphabet(c)
  {
    if x < 26 then (('A' as int) + x) as char
    else if x < 52 then (('a' as int) + (x - 26)) as char
    else if x < 62 then (('0' as int) + (x - 52)) as char
    else if x == 62 then '+'
    else '/'
  }

  predicate IsAlphabet(c: char)
  {
    ('A' <= c <= 'Z') || ('a' <= c <= 'z') || ('0' <= c <= '9') || c == '+' || c == '/'
  }

  /** The 6-bit value of an alphabet character. */
  function CharSextet(c: char): Sextet
    requires IsAlphabet(c)
  {
    if 'A' <= c <= 'Z' then (c as int) - ('A' as int)
    else if 'a' <= c <= 'z' then (c as int) - ('a' as int) + 26
    else if '0' <= c <= '9' then (c as int) - ('0' as int) + 52
    else if c == '+' then 62
    else 63
  }

  lemma SextetCharRoundTrip(x: Sextet)
    ensures CharSextet(SextetChar(x)) == x
  {
  }

  /** Three bytes become four characters. */
  function EncodeGroup(b0: Byte, b1: Byte, b2: Byte): string
  {
    [SextetChar(b0 / 4), SextetChar((b0 % 4) * 16 + b1 / 16),
     SextetChar((b1 % 16) * 4 + b2 / 64), SextetChar(b2 % 64)]
  }

  /** Encoding: whole groups of three bytes, then a padded final group of
      one or two bytes. */
  function Encode(bytes: seq<Byte>): (s: string)
    ensures |s| % 4 == 0
  {
    if |bytes| == 0 then ""
    else if |bytes| == 1 then
      [SextetChar(bytes[0] / 4), SextetChar((bytes[0] % 4) * 16), Pad, Pad]
    else if |bytes| == 2 then
      [SextetChar(bytes[0] / 4), SextetChar((bytes[0] % 4) * 16 + bytes[1] / 16),
       SextetChar((bytes[1] % 16) * 4), Pad]
    else EncodeGroup(bytes[0], bytes[1], bytes[2]) + Encode(bytes[3..])
  }

  /** Four alphabet characters become three bytes. */
  function DecodeGroup(c0: Sextet, c1: Sextet, c2: Sextet, c3: Sextet): seq<Byte>
  {
    [c0 * 4 + c1 / 16, (c1 % 16) * 16 + c2 / 4, (c2 % 4) * 64 + c3]
  }

  /** Strict decoding; `None` is the `binascii.Error` the library raises. */
  function Decode(s: string): (r: Option<seq<Byte>>)
    ensures r.Some? ==> |s| % 4 == 0
    decreases |s|
  {
    if |s| == 0 then Some([])
    else if |s| < 4 then None
    else if |s| == 4 && s[2] == Pad && s[3] == Pad then
      if IsAlphabet(s[0]) && IsAlphabet(s[1])
      then Some([CharSextet(s[0]) * 4 + CharSextet(s[1]) / 16])
      else None
    else if |s| == 4 && s[3] == Pad then
      if IsAlphabet(s[0]) && IsAlphabet(s[1]) && IsAlphabet(s[2])
      then Some([CharSextet(s[0]) * 4 + CharSextet(s[1]) / 16,
                 (CharSextet(s[1]) % 16) * 16 + CharSextet(s[2]) / 4])
      else None
    else if IsAlphabet(s[0]) && IsAlphabet(s[1]) && IsAlphabet(s[2]) && IsAlphabet(s[3]) then
      match Decode(s[4..])
      case None => None
      case Some(rest) =>
        Some(DecodeGroup(CharSextet(s[0]), CharSextet(s[1]), CharSextet(s[2]), CharSextet(s[3])) + rest)
    else None
  }

  /** The bit arithmetic of one group is undone by decoding it. */
  lemma GroupRoundTrip(b0: Byte, b1: Byte, b2: Byte)
    ensures DecodeGroup(b0 / 4, (b0 % 4) * 16 + b1 / 16, (b1 % 16) * 4 + b2 / 64, b2 % 64) == [b0, b1, b2]
  {
  }

  /** The bit arithmetic of a two-byte final group is undone by decoding it. */
  lemma PairRoundTrip(b0: Byte, b1: Byte)
    ensures (b0 / 4) * 4 + ((b0 % 4) * 16 + b1 / 16) / 16 == b0
    ensures (((b0 % 4) * 16 + b1 / 16) % 16) * 16 + ((b1 % 16) * 4) / 4 == b1
  {
  }

  /** Decoding an encoding returns the original bytes. */
  lemma {:induction false} DecodeEncode(bytes: seq<Byte>)
    ensures Decode(Encode(bytes)) == Some(bytes)
    decreases |bytes|
  {
    if |bytes| == 1 {
      DecodeEncodeOne(bytes[0]);
      assert bytes == [bytes[0]];
    } else if |bytes| == 2 {
      DecodeEncodeTwo(bytes[0], bytes[1]);
      assert bytes == [bytes[0], bytes[1]];
    } else if |bytes| >= 3 {
      DecodeEncode(bytes[3..]);
      DecodeEncodeStep(bytes);
    }
  }

  /** One whole group in front of a round-tripping rest round-trips. */
  lemma DecodeEncodeStep(bytes: seq<Byte>)
    requires |bytes| >= 3
    requires Decode(Encode(bytes[3..])) == Some(bytes[3..])
    ensures Decode(Encode(bytes)) == Some(bytes)
  {
    var rest := bytes[3..];
    var tail := Encode(rest);
    var e := EncodeGroup(bytes[0], bytes[1], bytes[2]) + tail;
    assert Encode(bytes) == e;
    assert Decode(tail) == Some(rest);
    DecodeEncodeGroup(bytes[0], bytes[1], bytes[2], tail);
    SplitThree(bytes);
  }

  lemma SplitThree<T>(s: seq<T>)
    requires |s| >= 3
    ensures s == [s[0], s[1], s[2]] + s[3..]
  {
  }

  /** Every encoding of bytes decodes back to those bytes. */
  lemma DecodeEncodings(s: string)
    ensures forall bytes :: s == Encode(bytes) ==> Decode(s) == Some(bytes)
  {
    forall bytes | s == Encode(bytes)
      ensures Decode(s) == Some(bytes)
    {
      DecodeEncode(bytes);
    }
  }

  lemma DecodeEncodeOne(b0: Byte)
    ensures Decode(Encode([b0])) == Some([b0])
  {
  }

  lemma DecodeEncodeTwo(b0: Byte, b1: Byte)
    ensures Decode(Encode([b0, b1])) == Some([b0, b1])
  {
    var c0, c1, c2 := b0 / 4, (b0 % 4) * 16 + b1 / 16, (b1 % 16) * 4;
    SextetCharRoundTrip(c0);
    SextetCharRoundTrip(c1);
    SextetCharRoundTrip(c2);
    PairRoundTrip(b0, b1);
    var s := Encode([b0, b1]);
    assert s == [SextetChar(c0), SextetChar(c1), SextetChar(c2), Pad];
    assert s[2] != Pad;
    assert Decode(s) == Some([c0 * 4 + c1 / 16, (c1 % 16) * 16 + c2 / 4]);
  }

  /** A full group in front of a decodable rest decodes to its three bytes
      followed by the rest. */
  lemma DecodeEncodeGroup(b0: Byte, b1: Byte, b2: Byte, rest: string)
    requires Decode(rest).Some?
    ensures Decode(EncodeGroup(b0, b1, b2) + rest) == Some([b0, b1, b2] + Decode(rest).value)
  {
    var c0, c1, c2, c3 := b0 / 4, (b0 % 4) * 16 + b1 / 16, (b1 % 16) * 4 + b2 / 64, b2 % 64;
    SextetCharRoundTrip(c0);
    SextetCharRoundTrip(c1);
    SextetCharRoundTrip(c2);
    SextetCharRoundTrip(c3);
    GroupRoundTrip(b0, b1, b2);
    var s := EncodeGroup(b0, b1, b2) + rest;
    assert s[4..] == rest;
    assert s[3] == SextetChar(c3) && s[3] != Pad;
    assert s[..4] == [SextetChar(c0), SextetChar(c1), SextetChar(c2), SextetChar(c3)];
  }

  /** Encoded length: four characters per started group of three bytes. */
  lemma {:induction false} EncodeLength(bytes: seq<Byte>)
    ensures |Encode(bytes)| == 4 * ((|bytes| + 2) / 3)
    decreases |bytes|
  {
    if |bytes| >= 3 {
      var n := |bytes| - 3;
      EncodeLength(bytes[3..]);
      assert |Encode(bytes)| == 4 + |Encode(bytes[3..])|;
      assert (n + 3 + 2) / 3 == (n + 2) / 3 + 1;
    }
  }

  /** Strict base64 text, stated without reference to the decoder: whole
      groups of four, every character in the alphabet or `=`, and `=` only
      in the last two places and only as a run that ends the text. */
  predicate IsStrictBase64(s: string)
  {
    && |s| % 4 == 0
    && (forall i :: 0 <= i < |s| ==> IsAlphabet(s[i]) || (s[i] == Pad && i >= |s| - 2))
    && (forall i :: 0 <= i < |s| - 1 ==> s[i] == Pad ==> s[i + 1] == Pad)
  }

  /** The decoder accepts exactly the strict base64 texts. */
  lemma {:induction false} DecodeStrict(s: string)
    ensures Decode(s).Some? <==> IsStrictBase64(s)
    decreases |s|
  {
    if |s| % 4 != 0 {
      DecodeNeedsQuads(s);
    } else if |s| == 4 {
      StrictQuad(s);
    } else if |s| > 4 {
      DecodeStrict(s[4..]);
      StrictFront(s);
    }
  }

  /** A single group: two, one or no trailing `=`. */
  lemma StrictQuad(s: string)
    requires |s| == 4
    ensures Decode(s).Some? <==> IsStrictBase64(s)
  {
    assert !IsAlphabet(Pad);
    if IsStrictBase64(s) {
      assert IsAlphabet(s[0]) && IsAlphabet(s[1]);
      if s[2] == Pad {
        assert s[3] == Pad;
      }
    }
  }

  /** Past the first group, the decoder needs four alphabet characters
      and a decodable rest. */
  lemma DecodeFront(s: string)
    requires |s| > 4
    ensures Decode(s).Some? <==> (IsAlphabet(s[0]) && IsAlphabet(s[1]) && IsAlphabet(s[2]) && IsAlphabet(s[3])
                                  && Decode(s[4..]).Some?)
  {
  }

  /** A text of several groups is strict exactly when its first group is
      four alphabet characters and the rest is strict. */
  lemma StrictFront(s: string)
    requires |s| > 4 && |s| % 4 == 0
    ensures Decode(s).Some? <==> (IsAlphabet(s[0]) && IsAlphabet(s[1]) && IsAlphabet(s[2]) && IsAlphabet(s[3])
                                  && Decode(s[4..]).Some?)
    ensures IsStrictBase64(s) <==> (IsAlphabet(s[0]) && IsAlphabet(s[1]) && IsAlphabet(s[2]) && IsAlphabet(s[3])
                                    && IsStrictBase64(s[4..]))
  {
    DecodeFront(s);
    if IsStrictBase64(s) {
      StrictTail(s);
    }
    if IsAlphabet(s[0]) && IsAlphabet(s[1]) && IsAlphabet(s[2]) && IsAlphabet(s[3]) && IsStrictBase64(s[4..]) {
      StrictCons(s);
    }
  }

  lemma StrictTail(s: string)
    requires |s| > 4 && IsStrictBase64(s)
    ensures IsAlphabet(s[0]) && IsAlphabet(s[1]) && IsAlphabet(s[2]) && IsAlphabet(s[3])
    ensures IsStrictBase64(s[4..])
  {
    assert !IsAlphabet(Pad);
    var t := s[4..];
    forall j | 0 <= j < |t| ensures IsAlphabet(t[j]) || (t[j] == Pad && j >= |t| - 2) {
      assert t[j] == s[j + 4];
    }
    forall j | 0 <= j < |t| - 1 && t[j] == Pad ensures t[j + 1] == Pad {
      assert t[j] == s[j + 4] && t[j + 1] == s[j + 5];
    }
  }

  lemma StrictCons(s: string)
    requires |s| > 4 && |s| % 4 == 0
    requires IsAlphabet(s[0]) && IsAlphabet(s[1]) && IsAlphabet(s[2]) && IsAlphabet(s[3])
    requires IsStrictBase64(s[4..])
    ensures IsStrictBase64(s)
  {
    assert !IsAlphabet(Pad);
    var t := s[4..];
    forall i | 0 <= i < |s| ensures IsAlphabet(s[i]) || (s[i] == Pad && i >= |s| - 2) {
      if i >= 4 {
        assert s[i] == t[i - 4];
      }
    }
    forall i | 0 <= i < |s| - 1 && s[i] == Pad ensures s[i + 1] == Pad {
      assert s[i] == t[i - 4] && s[i + 1] == t[i - 3];
    }
  }

  /** A length that is not a multiple of four never decodes. */
  lemma {:induction false} DecodeNeedsQuads(s: string)
    requires |s| % 4 != 0
    ensures Decode(s) == None
    decreases |s|
  {
    if |s| > 4 {
      DecodeNeedsQuads(s[4..]);
    }
  }
}
