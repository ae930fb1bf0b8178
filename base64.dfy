/** Unpadded base64 of RFC 4648 (section 4 with the standard alphabet, section 5 with the
    URL and filename safe alphabet, padding omitted as section 3.2 allows), decoded the
    way Go's `RawStdEncoding` and `RawURLEncoding` decode: carriage returns and line feeds
    are skipped, a final group of one character is an error, `=` is an illegal character,
    and the unused low bits of a final group of two or three characters are ignored. */
module Base64 {
  import opened Wrappers

  /** An octet. */
  type byte = b: int | 0 <= b < 256

  datatype Alphabet = Standard | UrlSafe

  /** The character that encodes the 6-bit value `v`. */
  function CharOf(a: Alphabet, v: nat): char
    requires v < 64
  {
    if v < 26 then ('A' as int + v) as char
    else if v < 52 then ('a' as int + (v - 26)) as char
    else if v < 62 then ('0' as int + (v - 52)) as char
    else if v == 62 then (if a == Standard then '+' else '-')
    else (if a == Standard then '/' else '_')
  }

  /** The 6-bit value a character stands for, or None for a character outside the alphabet. */
  function ValueOf(a: Alphabet, c: char): (r: Option<nat>)
    ensures r.Some? ==> r.value < 64
    ensures c == '\n' || c == '\r' || c == '=' ==> r.None?
  {
    if 'A' <= c <= 'Z' then Some(c as int - 'A' as int)
    else if 'a' <= c <= 'z' then Some(c as int - 'a' as int + 26)
    else if '0' <= c <= '9' then Some(c as int - '0' as int + 52)
    else if c == (if a == Standard then '+' else '-') then Some(62)
    else if c == (if a == Standard then '/' else '_') then Some(63)
    else None
  }

  /** CharOf and ValueOf are inverse: the alphabet is a bijection onto 0..63. */
  lemma CharValueInverse(a: Alphabet, c: char, v: nat)
    requires v < 64
    ensures ValueOf(a, c) == Some(v) <==> CharOf(a, v) == c
  {
  }

  /** The input with every carriage return and line feed removed. */
  function WithoutNewlines(s: string): (r: string)
    ensures |r| <= |s|
    ensures forall i :: 0 <= i < |r| ==> r[i] != '\n' && r[i] != '\r'
  {
    if s == [] then []
    else if s[0] == '\n' || s[0] == '\r' then WithoutNewlines(s[1..])
    else [s[0]] + WithoutNewlines(s[1..])
  }

  /** The three octets held by four 6-bit values, one function per octet. */
  function Octet0(v0: nat, v1: nat): byte
    requires v0 < 64 && v1 < 64
  {
    v0 * 4 + v1 / 16
  }

  function Octet1(v1: nat, v2: nat): byte
    requires v1 < 64 && v2 < 64
  {
    (v1 % 16) * 16 + v2 / 4
  }

  function Octet2(v2: nat, v3: nat): byte
    requires v2 < 64 && v3 < 64
  {
    (v2 % 4) * 64 + v3
  }

  /** Decodes characters that contain no line breaks, four at a time. */
  function DecodeGroups(a: Alphabet, s: string): (r: Option<seq<byte>>)
    ensures r.Some? ==> |r.value| == (|s| / 4) * 3 + (if |s| % 4 == 0 then 0 else |s| % 4 - 1)
    ensures |s| % 4 == 1 ==> r.None?
    decreases |s|
  {
    if |s| == 0 then Some([])
    else if |s| == 1 then None
    else
      var v0, v1 := ValueOf(a, s[0]), ValueOf(a, s[1]);
      if v0.None? || v1.None? then None
      else if |s| == 2 then Some([Octet0(v0.value, v1.value)])
      else
        var v2 := ValueOf(a, s[2]);
        if v2.None? then None
        else if |s| == 3 then Some([Octet0(v0.value, v1.value), Octet1(v1.value, v2.value)])
        else
          var v3 := ValueOf(a, s[3]);
          if v3.None? then None
          else match DecodeGroups(a, s[4..])
            case None => None
            case Some(rest) =>
              Some([Octet0(v0.value, v1.value), Octet1(v1.value, v2.value), Octet2(v2.value, v3.value)] + rest)
  }

  /** `DecodeString` of Go's unpadded encodings: None stands for a CorruptInputError.
      Line breaks are skipped, so only the `n` other characters count: they give
      3 octets per full group of four and one octet less than the characters of a final
      group of two or three, and a final group of one character is an error. */
  function Decode(a: Alphabet, s: string): (r: Option<seq<byte>>)
    ensures var n := |WithoutNewlines(s)|;
            r.Some? ==> |r.value| == (n / 4) * 3 + (if n % 4 == 0 then 0 else n % 4 - 1)
    ensures |WithoutNewlines(s)| % 4 == 1 ==> r.None?
  {
    DecodeGroups(a, WithoutNewlines(s))
  }

  /** Unpadded encoding: three octets to four characters, a final one or two octets to two
      or three characters. The decoder's partner, used to state the round trip. */
  function Encode(a: Alphabet, bs: seq<byte>): (s: string)
    ensures |s| == (|bs| / 3) * 4 + (if |bs| % 3 == 0 then 0 else |bs| % 3 + 1)
    ensures forall i :: 0 <= i < |s| ==> ValueOf(a, s[i]).Some?
    decreases |bs|
  {
    if |bs| == 0 then ""
    else if |bs| == 1 then
      [CharOf(a, bs[0] / 4), CharOf(a, (bs[0] % 4) * 16)]
    else if |bs| == 2 then
      [CharOf(a, bs[0] / 4), CharOf(a, (bs[0] % 4) * 16 + bs[1] / 16), CharOf(a, (bs[1] % 16) * 4)]
    else
      [CharOf(a, bs[0] / 4), CharOf(a, (bs[0] % 4) * 16 + bs[1] / 16),
       CharOf(a, (bs[1] % 16) * 4 + bs[2] / 64), CharOf(a, bs[2] % 64)] + Encode(a, bs[3..])
  }

  /** The decoder fails exactly on a final group of one character or on a character
      outside the alphabet; text of any other length over the alphabet decodes. */
  lemma {:induction false} DecodeGroupsFailsIff(a: Alphabet, s: string)
    ensures DecodeGroups(a, s).None? <==>
              (|s| % 4 == 1 || exists i :: 0 <= i < |s| && ValueOf(a, s[i]).None?)
    decreases |s|
  {
    if |s| >= 4 && forall i :: 0 <= i < 4 ==> ValueOf(a, s[i]).Some? {
      var t := s[4..];
      DecodeGroupsFailsIff(a, t);
      if exists i :: 0 <= i < |s| && ValueOf(a, s[i]).None? {
        var i :| 0 <= i < |s| && ValueOf(a, s[i]).None?;
        assert t[i - 4] == s[i];
      }
      if exists j :: 0 <= j < |t| && ValueOf(a, t[j]).None? {
        var j :| 0 <= j < |t| && ValueOf(a, t[j]).None?;
        assert s[j + 4] == t[j];
      }
    } else if exists i :: 0 <= i < 4 && i < |s| && ValueOf(a, s[i]).None? {
      var i :| 0 <= i < 4 && i < |s| && ValueOf(a, s[i]).None?;
      assert ValueOf(a, s[i]).None?;
    }
  }

  /** A character other than a line break that is outside the alphabet. */
  predicate Illegal(a: Alphabet, c: char)
  {
    c != '\n' && c != '\r' && ValueOf(a, c).None?
  }

  /** An illegal character of the input is still there once line breaks are removed. */
  lemma {:induction false} IllegalKeptAt(a: Alphabet, s: string, i: nat)
    requires i < |s| && Illegal(a, s[i])
    ensures exists k :: 0 <= k < |WithoutNewlines(s)| && ValueOf(a, WithoutNewlines(s)[k]).None?
  {
    var r, t := WithoutNewlines(s), WithoutNewlines(s[1..]);
    if i == 0 {
      assert r[0] == s[0];
    } else {
      assert s[1..][i - 1] == s[i];
      IllegalKeptAt(a, s[1..], i - 1);
      var k :| 0 <= k < |t| && ValueOf(a, t[k]).None?;
      if s[0] == '\n' || s[0] == '\r' {
        assert r == t;
      } else {
        assert r == [s[0]] + t && r[k + 1] == t[k];
      }
    }
  }

  /** A character outside the alphabet left after removing line breaks was in the input. */
  lemma {:induction false} IllegalCameFrom(a: Alphabet, s: string, k: nat)
    requires k < |WithoutNewlines(s)| && ValueOf(a, WithoutNewlines(s)[k]).None?
    ensures exists i :: 0 <= i < |s| && Illegal(a, s[i])
  {
    var r, t := WithoutNewlines(s), WithoutNewlines(s[1..]);
    if s[0] == '\n' || s[0] == '\r' {
      assert r == t;
      IllegalCameFrom(a, s[1..], k);
      var i :| 0 <= i < |s[1..]| && Illegal(a, s[1..][i]);
      assert s[i + 1] == s[1..][i];
    } else if k == 0 {
      assert r[0] == s[0] && Illegal(a, s[0]);
    } else {
      assert r == [s[0]] + t && r[k] == t[k - 1];
      IllegalCameFrom(a, s[1..], k - 1);
      var i :| 0 <= i < |s[1..]| && Illegal(a, s[1..][i]);
      assert s[i + 1] == s[1..][i];
    }
  }

  /** The illegal characters are exactly those that survive the removal of line breaks. */
  lemma IllegalKept(a: Alphabet, s: string)
    ensures (exists k :: 0 <= k < |WithoutNewlines(s)| && ValueOf(a, WithoutNewlines(s)[k]).None?) <==>
            (exists i :: 0 <= i < |s| && Illegal(a, s[i]))
  {
    if exists k :: 0 <= k < |WithoutNewlines(s)| && ValueOf(a, WithoutNewlines(s)[k]).None? {
      var k :| 0 <= k < |WithoutNewlines(s)| && ValueOf(a, WithoutNewlines(s)[k]).None?;
      IllegalCameFrom(a, s, k);
    }
    if exists i :: 0 <= i < |s| && Illegal(a, s[i]) {
      var i :| 0 <= i < |s| && Illegal(a, s[i]);
      IllegalKeptAt(a, s, i);
    }
  }

  /** `DecodeString` fails exactly when, line breaks aside, the input holds a character
      outside the alphabet or ends in a group of one character; otherwise it decodes. */
  lemma DecodeFailsIff(a: Alphabet, s: string)
    ensures Decode(a, s).None? <==>
              (|WithoutNewlines(s)| % 4 == 1 || exists i :: 0 <= i < |s| && Illegal(a, s[i]))
  {
    DecodeGroupsFailsIff(a, WithoutNewlines(s));
    IllegalKept(a, s);
  }

  /** Removing line breaks distributes over concatenation. */
  lemma {:induction false} WithoutNewlinesConcat(s: string, t: string)
    ensures WithoutNewlines(s + t) == WithoutNewlines(s) + WithoutNewlines(t)
  {
    if s == [] {
      assert s + t == t;
    } else {
      assert (s + t)[0] == s[0] && (s + t)[1..] == s[1..] + t;
      WithoutNewlinesConcat(s[1..], t);
    }
  }

  /** A carriage return or line feed anywhere in the input leaves the decoded result, or
      the error, as it is. */
  lemma DecodeSkipsLineBreaks(a: Alphabet, s: string, t: string, c: char)
    requires c == '\n' || c == '\r'
    ensures Decode(a, s + [c] + t) == Decode(a, s + t)
  {
    WithoutNewlinesConcat(s + [c], t);
    WithoutNewlinesConcat(s, [c]);
    WithoutNewlinesConcat(s, t);
    assert [c][1..] == [];
    assert WithoutNewlines([c]) == [];
    assert WithoutNewlines(s + [c]) == WithoutNewlines(s);
    assert WithoutNewlines(s + [c] + t) == WithoutNewlines(s + t);
  }

  lemma OctetsRecovered(b0: byte, b1: byte, b2: byte)
    ensures Octet0(b0 / 4, (b0 % 4) * 16 + b1 / 16) == b0
    ensures Octet1((b0 % 4) * 16 + b1 / 16, (b1 % 16) * 4 + b2 / 64) == b1
    ensures Octet2((b1 % 16) * 4 + b2 / 64, b2 % 64) == b2
    ensures Octet1((b0 % 4) * 16 + b1 / 16, (b1 % 16) * 4) == b1
  {
  }

  /** Encoded text never holds a line break, so the decoder's filter passes it unchanged. */
  lemma {:induction false} NoNewlinesUnchanged(s: string)
    requires forall i :: 0 <= i < |s| ==> s[i] != '\n' && s[i] != '\r'
    ensures WithoutNewlines(s) == s
  {
    if s != [] {
      NoNewlinesUnchanged(s[1..]);
    }
  }

  /** One final octet: two characters whose second carries four unused zero bits. */
  lemma DecodeOneOctet(a: Alphabet, b0: byte)
    ensures DecodeGroups(a, Encode(a, [b0])) == Some([b0])
  {
    var s := Encode(a, [b0]);
    CharValueInverse(a, s[0], b0 / 4);
    CharValueInverse(a, s[1], (b0 % 4) * 16);
    OctetsRecovered(b0, 0, 0);
  }

  /** Two final octets: three characters whose third carries two unused zero bits. */
  lemma DecodeTwoOctets(a: Alphabet, b0: byte, b1: byte)
    ensures DecodeGroups(a, Encode(a, [b0, b1])) == Some([b0, b1])
  {
    var s := Encode(a, [b0, b1]);
    CharValueInverse(a, s[0], b0 / 4);
    CharValueInverse(a, s[1], (b0 % 4) * 16 + b1 / 16);
    CharValueInverse(a, s[2], (b1 % 16) * 4);
    OctetsRecovered(b0, b1, 0);
  }

  /** One step of the decoder over four valid characters. */
  lemma DecodeGroupStep(a: Alphabet, s: string, v0: nat, v1: nat, v2: nat, v3: nat, rest: seq<byte>)
    requires |s| >= 4 && v0 < 64 && v1 < 64 && v2 < 64 && v3 < 64
    requires ValueOf(a, s[0]) == Some(v0) && ValueOf(a, s[1]) == Some(v1)
    requires ValueOf(a, s[2]) == Some(v2) && ValueOf(a, s[3]) == Some(v3)
    requires DecodeGroups(a, s[4..]) == Some(rest)
    ensures DecodeGroups(a, s) == Some([Octet0(v0, v1), Octet1(v1, v2), Octet2(v2, v3)] + rest)
  {
  }

  /** The first four characters of a full group's encoding. */
  lemma EncodeFullGroup(a: Alphabet, bs: seq<byte>)
    requires |bs| >= 3
    ensures var s := Encode(a, bs);
            && s[0] == CharOf(a, bs[0] / 4)
            && s[1] == CharOf(a, (bs[0] % 4) * 16 + bs[1] / 16)
            && s[2] == CharOf(a, (bs[1] % 16) * 4 + bs[2] / 64)
            && s[3] == CharOf(a, bs[2] % 64)
            && s[4..] == Encode(a, bs[3..])
  {
  }

  /** A full group: the first four characters decode to the first three octets. */
  lemma DecodeFullGroup(a: Alphabet, bs: seq<byte>, rest: seq<byte>)
    requires |bs| >= 3
    requires DecodeGroups(a, Encode(a, bs[3..])) == Some(rest)
    ensures DecodeGroups(a, Encode(a, bs)) == Some(bs[..3] + rest)
  {
    var s := Encode(a, bs);
    var b0, b1, b2 := bs[0], bs[1], bs[2];
    var v0, v1 := b0 / 4, (b0 % 4) * 16 + b1 / 16;
    var v2, v3 := (b1 % 16) * 4 + b2 / 64, b2 % 64;
    EncodeFullGroup(a, bs);
    CharValueInverse(a, s[0], v0);
    CharValueInverse(a, s[1], v1);
    CharValueInverse(a, s[2], v2);
    CharValueInverse(a, s[3], v3);
    DecodeGroupStep(a, s, v0, v1, v2, v3, rest);
    OctetsRecovered(b0, b1, b2);
    assert [Octet0(v0, v1), Octet1(v1, v2), Octet2(v2, v3)] == [b0, b1, b2] == bs[..3];
  }

  lemma {:induction false} DecodeGroupsEncode(a: Alphabet, bs: seq<byte>)
    ensures DecodeGroups(a, Encode(a, bs)) == Some(bs)
    decreases |bs|
  {
    if |bs| == 0 {
    } else if |bs| == 1 {
      DecodeOneOctet(a, bs[0]);
      assert bs == [bs[0]];
    } else if |bs| == 2 {
      DecodeTwoOctets(a, bs[0], bs[1]);
      assert bs == [bs[0], bs[1]];
    } else {
      DecodeGroupsEncode(a, bs[3..]);
      DecodeFullGroup(a, bs, bs[3..]);
      assert bs == bs[..3] + bs[3..];
    }
  }

  /** Round trip: decoding what was encoded gives back the octets, for both alphabets. */
  lemma DecodeEncode(a: Alphabet, bs: seq<byte>)
    ensures Decode(a, Encode(a, bs)) == Some(bs)
  {
    var s := Encode(a, bs);
    forall i | 0 <= i < |s| ensures s[i] != '\n' && s[i] != '\r' {
      assert ValueOf(a, s[i]).Some?;
    }
    NoNewlinesUnchanged(s);
    DecodeGroupsEncode(a, bs);
  }
}
