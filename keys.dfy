/** The key model shared by both converters: the key material a JSON Web Key
    carries, the JWK record with its three metadata members (section 4 of
    RFC 7517: kid, alg, use), and a PEM block (type label, header map, DER
    bytes). Key material is opaque to the converters: they never look inside
    it, they only dispatch on its shape. */
module Keys {

  datatype Option<+T> = None | Some(value: T)

  /** A value or the text of the error that a Go function would have returned. */
  datatype Result<+T> = Ok(value: T) | Err(error: string)

  newtype byte = x: int | 0 <= x < 256

  /** DER bytes, never interpreted here. */
  type Der = seq<byte>

  datatype RsaPublicKey = RsaPublicKey(modulus: nat, exponent: nat)
  datatype RsaPrivateKey = RsaPrivateKey(public: RsaPublicKey, exponent: nat, primes: seq<nat>)
  datatype EcPublicKey = EcPublicKey(curve: string, x: nat, y: nat)
  datatype EcPrivateKey = EcPrivateKey(public: EcPublicKey, d: nat)

  /** The runtime shape of the key held by a JWK: the four shapes the
      converters handle, and everything else (symmetric keys, Ed25519, ...)
      under the name of its type. */
  datatype KeyMaterial =
    | RsaPublic(rsaPublic: RsaPublicKey)
    | RsaPrivate(rsaPrivate: RsaPrivateKey)
    | EcPublic(ecPublic: EcPublicKey)
    | EcPrivate(ecPrivate: EcPrivateKey)
    | Unsupported(typeName: string)

  /** One entry of a JSON Web Key Set; an absent member is the empty string. */
  datatype Jwk = Jwk(key: KeyMaterial, keyId: string, algorithm: string, use: string)

  /** A PEM block. A block built by the marshalling dispatch has no headers. */
  datatype PemBlock = PemBlock(blockType: string, headers: map<string, string>, der: Der)

  /** The four PEM type labels: PKCS#1 RSAPublicKey and RSAPrivateKey
      (RFC 8017 appendix A.1.1 and A.1.2), SubjectPublicKeyInfo (RFC 5280
      section 4.1.2.7) and ECPrivateKey (RFC 5915 section 3). */
  const RsaPublicLabel: string := "RSA PUBLIC KEY"
  const RsaPrivateLabel: string := "RSA PRIVATE KEY"
  const EcPublicLabel: string := "EC PUBLIC KEY"
  const EcPrivateLabel: string := "EC PRIVATE KEY"

  const PemLabels: set<string> := {RsaPublicLabel, RsaPrivateLabel, EcPublicLabel, EcPrivateLabel}

  /** The header names the converters read and write. */
  const KidHeader: string := "kid"
  const AlgHeader: string := "alg"
  const UseHeader: string := "use"

  /** Where an output goes: the standard output stream or a named file. */
  datatype Dest = Stdout | File(path: string)

  /** Go's map index: a missing key reads as the zero value, the empty string. */
  function Header(headers: map<string, string>, name: string): (v: string)
    ensures name in headers ==> v == headers[name]
    ensures name !in headers ==> v == ""
  {
    if name in headers then headers[name] else ""
  }

  /** Both sides have the same one of the five shapes. */
  predicate SameShape(a: KeyMaterial, b: KeyMaterial)
  {
    && a.RsaPublic? == b.RsaPublic?
    && a.RsaPrivate? == b.RsaPrivate?
    && a.EcPublic? == b.EcPublic?
    && a.EcPrivate? == b.EcPrivate?
  }
}
