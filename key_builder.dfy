/** `GenerateKey`: an RSA public key from the "n" and "e" members of a JWK. Both are
    Base64urlUInt values (section 6.3.1 of RFC 7518): the unpadded base64url of the
    big-endian octets of an unsigned integer. */
module KeyBuilder {
  import opened Wrappers
  import opened Base64
  import opened Remote

  function Pow256(k: nat): (p: nat)
    ensures p >= 1
  {
    if k == 0 then 1 else 256 * Pow256(k - 1)
  }

  /** The unsigned integer whose big-endian octets are `bs` (Go's `big.Int.SetBytes`):
      `k` octets hold a value below 256^k. */
  function BigEndian(bs: seq<byte>): (v: nat)
    ensures v < Pow256(|bs|)
  {
    if bs == [] then 0 else BigEndian(bs[..|bs| - 1]) * 256 + bs[|bs| - 1]
  }

  /** A leading zero octet does not change the value: why `AAEAAQ` and `AQAB` agree. */
  lemma {:induction false} LeadingZeroIgnored(bs: seq<byte>)
    ensures BigEndian([0] + bs) == BigEndian(bs)
  {
    if bs != [] {
      assert ([0] + bs)[..|bs|] == [0] + bs[..|bs| - 1];
      LeadingZeroIgnored(bs[..|bs| - 1]);
    }
  }

  /** The public exponent the source assumes for every key. */
  const F4: nat := 65537

  /** The exponent test: only the two literal encodings of 65537 are accepted; any other
      text (even another encoding of 65537) is the unhandled case the source ends the
      process on, returned here as an error. */
  function ParseExponent(e: string): (r: Result<nat, Error>)
    ensures r.Ok? <==> (e == "AQAB" || e == "AAEAAQ")
    ensures r.Ok? ==> r.value == F4
    ensures r.Err? ==> r.error == UnsupportedExponent(e)
  {
    if e == "AQAB" || e == "AAEAAQ" then Ok(F4) else Err(UnsupportedExponent(e))
  }

  /** Proof step of AcceptedExponentsAre65537: the two encodings. */
  lemma EncodedExponents()
    ensures Encode(UrlSafe, [1, 0, 1]) == "AQAB"
    ensures Encode(UrlSafe, [0, 1, 0, 1]) == "AAEAAQ"
  {
    var short: seq<byte> := [1, 0, 1];
    assert short[3..] == [];
    assert CharOf(UrlSafe, 0) == 'A' && CharOf(UrlSafe, 16) == 'Q' && CharOf(UrlSafe, 1) == 'B';
    assert CharOf(UrlSafe, 4) == 'E';
    var long: seq<byte> := [0, 1, 0, 1];
    assert long[3..] == [1];
    assert Encode(UrlSafe, [1]) == "AQ";
  }

  /** The remark in the source, proved: the two accepted strings are the unpadded base64url
      of the octets [1,0,1] and [0,1,0,1], they decode back to those octets, and both are
      65537 read big-endian. */
  lemma AcceptedExponentsAre65537()
    ensures Encode(UrlSafe, [1, 0, 1]) == "AQAB"
    ensures Encode(UrlSafe, [0, 1, 0, 1]) == "AAEAAQ"
    ensures Decode(UrlSafe, "AQAB") == Some([1, 0, 1])
    ensures Decode(UrlSafe, "AAEAAQ") == Some([0, 1, 0, 1])
    ensures BigEndian([1, 0, 1]) == F4 && BigEndian([0, 1, 0, 1]) == F4
  {
    EncodedExponents();
    DecodeEncode(UrlSafe, [1, 0, 1]);
    DecodeEncode(UrlSafe, [0, 1, 0, 1]);
    ExponentOctets();
  }

  /** Proof step of AcceptedExponentsAre65537: the two big-endian values. */
  lemma ExponentOctets()
    ensures BigEndian([1, 0, 1]) == F4 && BigEndian([0, 1, 0, 1]) == F4
  {
    var short: seq<byte> := [1, 0, 1];
    assert short[..2] == [1, 0] && short[..2][..1] == [1] && short[..2][..1][..0] == [];
    assert BigEndian(short) == F4;
    LeadingZeroIgnored(short);
    assert [0, 1, 0, 1] == [0] + short;
  }

  /** The whitelist agrees with a real decoder on what it accepts: an accepted "e"
      decodes to the exponent it is taken for. */
  lemma AcceptedExponentDecodes(e: string)
    requires ParseExponent(e).Ok?
    ensures Decode(UrlSafe, e).Some? && BigEndian(Decode(UrlSafe, e).value) == ParseExponent(e).value
  {
    AcceptedExponentsAre65537();
  }

  lemma DecodeGroupsNonCanonical()
    ensures DecodeGroups(UrlSafe, "AAEAAR") == Some([0, 1, 0, 1])
  {
    var s := "AAEAAR";
    assert s[4..] == "AR";
    assert DecodeGroups(UrlSafe, "AR") == Some([1]) by {
      assert ValueOf(UrlSafe, 'A') == Some(0) && ValueOf(UrlSafe, 'R') == Some(17);
    }
    assert ValueOf(UrlSafe, 'A') == Some(0) && ValueOf(UrlSafe, 'E') == Some(4);
    assert [0, 1, 0] + [1] == [0, 1, 0, 1];
  }

  /** The whitelist is narrower than decoding: `AAEAAR` decodes (its low bits are unused
      and ignored) to 65537 as well, yet it is refused. */
  lemma NonCanonicalExponentRefused()
    ensures Decode(UrlSafe, "AAEAAR") == Some([0, 1, 0, 1])
    ensures ParseExponent("AAEAAR") == Err(UnsupportedExponent("AAEAAR"))
  {
    var s := "AAEAAR";
    forall i | 0 <= i < |s| ensures s[i] != '\n' && s[i] != '\r' {
    }
    NoNewlinesUnchanged(s);
    DecodeGroupsNonCanonical();
  }

  /** The key for a JWK: "n" is decoded first (its failure wins), then "e" is tested; the
      key (modulus from the octets of "n", exponent 65537) goes through the x509/PEM round
      trip, whose result is returned. A member that is absent reads as "". */
  function GenerateKey(jwk: JWK, env: Env): (r: Result<RsaPublicKey, Error>)
    ensures Decode(UrlSafe, Field(jwk, "n")).None? ==> r == Err(Base64Error)
    ensures Decode(UrlSafe, Field(jwk, "n")).Some? && ParseExponent(Field(jwk, "e")).Err? ==>
              r == Err(UnsupportedExponent(Field(jwk, "e")))
    ensures Decode(UrlSafe, Field(jwk, "n")).Some? && ParseExponent(Field(jwk, "e")).Ok? ==>
              r == env.pemRoundTrip(RsaPublicKey(BigEndian(Decode(UrlSafe, Field(jwk, "n")).value), F4))
    ensures r.Ok? ==>
              Decode(UrlSafe, Field(jwk, "n")).Some? && (Field(jwk, "e") == "AQAB" || Field(jwk, "e") == "AAEAAQ")
  {
    match Decode(UrlSafe, Field(jwk, "n"))
    case None => Err(Base64Error)
    case Some(nb) =>
      match ParseExponent(Field(jwk, "e"))
      case Err(err) => Err(err)
      case Ok(e) => env.pemRoundTrip(RsaPublicKey(BigEndian(nb), e))
  }

  /** For a modulus published as the base64url of its big-endian octets and an accepted
      exponent, the key handed to the PEM round trip is exactly (that integer, 65537). */
  lemma GenerateKeyFromOctets(modulus: seq<byte>, jwk: JWK, env: Env)
    requires Field(jwk, "n") == Encode(UrlSafe, modulus)
    requires Field(jwk, "e") == "AQAB" || Field(jwk, "e") == "AAEAAQ"
    ensures GenerateKey(jwk, env) == env.pemRoundTrip(RsaPublicKey(BigEndian(modulus), F4))
  {
    DecodeEncode(UrlSafe, modulus);
  }

  /** A JWK without "n" decodes the empty string: the modulus handed on is 0. */
  lemma MissingModulusIsZero(jwk: JWK, env: Env)
    requires "n" !in jwk && Field(jwk, "e") == "AQAB"
    ensures GenerateKey(jwk, env) == env.pemRoundTrip(RsaPublicKey(0, F4))
  {
  }
}
