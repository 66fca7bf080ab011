/** How an OAuth token payload is kept at rest: `JSON.stringify` then `encrypt`
    on the way in, `decrypt` then `JSON.parse` on the way out. JSON itself is
    abstract: a printer and a parser, with `ParsesWhatItPrints` as its promise. */
module Vault {

  import opened Wrappers
  import Encryption
  import Hex

  /** A decoded token payload: the JSON object's fields, e.g. `access_token`. */
  datatype TokenPayload = TokenPayload(fields: map<string, string>)

  function Field(p: TokenPayload, name: string): Option<string> {
    if name in p.fields then Some(p.fields[name]) else None
  }

  datatype Json = Json(stringify: TokenPayload -> string, parse: string -> Option<TokenPayload>)

  ghost predicate ParsesWhatItPrints(json: Json) {
    forall p :: json.parse(json.stringify(p)) == Some(p)
  }

  const ParseErrorMessage: string := "Unexpected token in JSON"

  /** The cipher, the value of the key variable (absent when unset), and JSON. */
  datatype Config = Config(cipher: Encryption.Cipher, key: Option<string>, json: Json)

  ghost predicate Sound(v: Config) {
    Encryption.IsAuthenticated(v.cipher) && ParsesWhatItPrints(v.json)
  }

  /** What is stored for a payload: `encrypt(JSON.stringify(payload))`. */
  function Seal(v: Config, nonce: Encryption.Nonce, p: TokenPayload): (r: Result<string, Error>)
    ensures !Encryption.KeySet(v.key) <==> r.Failure?
  {
    Encryption.Encrypt(v.cipher, v.key, nonce, v.json.stringify(p))
  }

  /** What a stored text reads back as: `JSON.parse(decrypt(text))`; either step can throw. */
  function Open(v: Config, stored: string): (r: Result<TokenPayload, Error>)
    ensures !Encryption.KeySet(v.key) ==> r == Failure(Thrown(Encryption.KeyNotSetMessage))
  {
    match Encryption.Decrypt(v.cipher, v.key, stored)
    case Failure(e) => Failure(e)
    case Success(text) =>
      match v.json.parse(text)
      case None => Failure(Thrown(ParseErrorMessage))
      case Some(p) => Success(p)
  }

  /** A sealed payload reads back as itself. */
  lemma OpenSeal(v: Config, nonce: Encryption.Nonce, p: TokenPayload)
    requires Sound(v) && Encryption.KeySet(v.key)
    ensures Open(v, Seal(v, nonce, p).value) == Success(p)
  {
    Encryption.RoundTrip(v.cipher, v.key.value, nonce, v.json.stringify(p));
  }

  /** What is stored is hex digits only, 56 of them before the ciphertext; so
      it is never the JSON text of an object, which holds a `{`. */
  lemma SealedIsHex(v: Config, nonce: Encryption.Nonce, p: TokenPayload)
    requires Encryption.FullTags(v.cipher) && Encryption.KeySet(v.key)
    ensures var stored := Seal(v, nonce, p).value;
            && |stored| >= Encryption.CiphertextOffset
            && (forall i :: 0 <= i < |stored| ==> Hex.IsDigit(stored[i]))
            && ('{' in v.json.stringify(p) ==> stored != v.json.stringify(p))
  {
    var text := v.json.stringify(p);
    var stored := Seal(v, nonce, p).value;
    Encryption.EncryptLayout(v.cipher, v.key.value, nonce, text);
    assert !Hex.IsDigit('{');
    assert '{' !in stored;
  }

  /** A payload that could be read back can be written again: both need the key. */
  lemma OpenedImpliesSealable(v: Config, stored: string, nonce: Encryption.Nonce, p: TokenPayload)
    requires Open(v, stored).Success?
    ensures Seal(v, nonce, p).Success?
  {
  }
}
