/** How the two directions fit together: the label ConvertToPEMBlock gives a
    shape selects, in convertToKey, the parser of the encoding that shape was
    marshalled with; at the level of block values, the kid/alg/use metadata
    survives a JWK to PEM to JWK trip for any key; and the key itself
    survives it whenever the x509 library's parser undoes its marshaller, a
    property of the library that this model takes as a hypothesis and never
    as a fact. The PEM text layer between the two directions is not part of
    these lemmas: they hand the block value itself from one to the other. */
module RoundTrip {
  import opened Keys
  import opened Pemc
  import opened Jwkc

  /** For this one key, parsing what the library marshalled gives the key
      back. */
  predicate LibraryRoundTrips(m: Marshallers, p: Parsers, key: KeyMaterial)
  {
    match key
    case RsaPublic(k) => p.pkcs1Public(m.pkcs1Public(k)) == Ok(k)
    case RsaPrivate(k) => p.pkcs1Private(m.pkcs1Private(k)) == Ok(k)
    case EcPublic(k) => m.pkixPublic(k).Ok? ==> p.pkixPublic(m.pkixPublic(k).value) == Ok(EcPublic(k))
    case EcPrivate(k) => m.sec1Private(k).Ok? ==> p.sec1Private(m.sec1Private(k).value) == Ok(k)
    case Unsupported(_) => true
  }

  /** Decoding a produced block calls the parser that matches the marshaller
      that produced it, on the very bytes it produced: PKCS#1 for the RSA
      shapes, PKIX for EC public keys, SEC1 for EC private keys. */
  lemma ParserMatchesMarshaller(m: Marshallers, p: Parsers, key: KeyMaterial)
    requires ConvertToPemBlock(m, key).Ok?
    ensures key.RsaPublic? ==>
              ConvertToKey(p, ConvertToPemBlock(m, key).value)
              == match p.pkcs1Public(m.pkcs1Public(key.rsaPublic)) case Ok(k) => Ok(RsaPublic(k)) case Err(e) => Err(e)
    ensures key.RsaPrivate? ==>
              ConvertToKey(p, ConvertToPemBlock(m, key).value)
              == match p.pkcs1Private(m.pkcs1Private(key.rsaPrivate)) case Ok(k) => Ok(RsaPrivate(k)) case Err(e) => Err(e)
    ensures key.EcPublic? ==>
              ConvertToKey(p, ConvertToPemBlock(m, key).value) == p.pkixPublic(m.pkixPublic(key.ecPublic).value)
    ensures key.EcPrivate? ==>
              ConvertToKey(p, ConvertToPemBlock(m, key).value)
              == match p.sec1Private(m.sec1Private(key.ecPrivate).value) case Ok(k) => Ok(EcPrivate(k)) case Err(e) => Err(e)
  {
  }

  /** Every produced block decodes back to the key it came from, provided
      the library's parser undoes its marshaller for that key. */
  lemma KeyRoundTrip(m: Marshallers, p: Parsers, key: KeyMaterial)
    requires LibraryRoundTrips(m, p, key)
    requires ConvertToPemBlock(m, key).Ok?
    ensures ConvertToKey(p, ConvertToPemBlock(m, key).value) == Ok(key)
  {
    ParserMatchesMarshaller(m, p, key);
  }

  /** The metadata a block value carries out of the JWK to PEM direction
      comes back unchanged in the PEM to JWK direction, empty strings
      included, for any block the parsers accept. */
  lemma MetadataRoundTrip(p: Parsers, j: Jwk, b: PemBlock)
    requires EntryOf(p, b.(headers := Headers(j))).Ok?
    ensures var e := EntryOf(p, b.(headers := Headers(j))).value;
            e.keyId == j.keyId && e.algorithm == j.algorithm && e.use == j.use
  {
  }

  /** A JWK converted to a PEM block and back is the same JWK, key and
      metadata, provided the library round-trips the key. */
  lemma JwkRoundTrip(m: Marshallers, p: Parsers, j: Jwk)
    requires LibraryRoundTrips(m, p, j.key)
    requires ConvertToPemBlock(m, j.key).Ok?
    ensures EntryOf(p, ConvertToPemBlock(m, j.key).value.(headers := Headers(j))) == Ok(j)
  {
    KeyRoundTrip(m, p, j.key);
  }

  /** The same for the blocks of an actual run of the `pem` command: every
      block it produces, written or withheld, decodes to the key it came from. */
  lemma PlanBlocksDecodeToTheirKeys(args: seq<string>, noVerify: bool, outputFile: string, loader: Loader,
                                    m: Marshallers, thumbprintError: Jwk -> Option<string>, p: Parsers, i: nat)
    requires |args| >= 1 && LoadKeySet(args[0], noVerify, loader).Ok?
    requires i < |LoadKeySet(args[0], noVerify, loader).value|
    requires LibraryRoundTrips(m, p, LoadKeySet(args[0], noVerify, loader).value[i].key)
    ensures var run := PemPlan(args, noVerify, outputFile, loader, m, thumbprintError);
            run.PemConverted? && i < |run.outcomes|
            && (!run.outcomes[i].Skipped? ==>
                  EntryOf(p, run.outcomes[i].block) == Ok(LoadKeySet(args[0], noVerify, loader).value[i]))
  {
    var keys := LoadKeySet(args[0], noVerify, loader).value;
    PlanVisitsEveryKey(args, noVerify, outputFile, loader, m, thumbprintError, i);
    if ConvertToPemBlock(m, keys[i].key).Ok? {
      JwkRoundTrip(m, p, keys[i]);
    }
  }

  /** A block decoded and encoded again keeps its type label, except that an
      EC PUBLIC KEY block keeps it only when its SubjectPublicKeyInfo holds
      an EC key: one holding an RSA key comes back as RSA PUBLIC KEY. */
  lemma PemRoundTripLabel(m: Marshallers, p: Parsers, b: PemBlock)
    requires ConvertToKey(p, b).Ok?
    requires ConvertToPemBlock(m, ConvertToKey(p, b).value).Ok?
    ensures var key := ConvertToKey(p, b).value;
            var again := ConvertToPemBlock(m, key).value.blockType;
            && (b.blockType != EcPublicLabel ==> again == b.blockType)
            && (b.blockType == EcPublicLabel ==> (again == EcPublicLabel <==> key.EcPublic?))
            && (b.blockType == EcPublicLabel && key.RsaPublic? ==> again == RsaPublicLabel)
  {
  }
}
