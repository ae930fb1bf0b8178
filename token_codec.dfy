/** `DecodeTokenData`: an opaque token is the unpadded standard base64 of a JSON
    encoded OAuth2 token. */
module TokenCodec {
  import opened Wrappers
  import opened Base64
  import opened Remote

  /** Base64 first; the JSON decoder runs only on octets that decoded, and its error
      is returned unchanged. */
  function DecodeTokenData(token: string, env: Env): (r: Result<Token, Error>)
    ensures Decode(Standard, token).None? ==> r == Err(Base64Error)
    ensures Decode(Standard, token).Some? ==> r == env.unmarshalToken(Decode(Standard, token).value)
  {
    match Decode(Standard, token)
    case None => Err(Base64Error)
    case Some(json) => env.unmarshalToken(json)
  }

  /** An opaque token built by encoding a JSON text decodes to what the JSON decoder
      makes of that text: the codec adds nothing and loses nothing. */
  lemma DecodeEncodedToken(json: seq<byte>, env: Env)
    ensures DecodeTokenData(Encode(Standard, json), env) == env.unmarshalToken(json)
  {
    DecodeEncode(Standard, json);
  }

  /** A token with a character outside the standard alphabet (here the URL-safe `-`)
      never reaches the JSON decoder. */
  lemma UrlAlphabetRejected(env: Env)
    ensures DecodeTokenData("ab-c", env) == Err(Base64Error)
  {
    assert WithoutNewlines("ab-c") == "ab-c";
  }
}
