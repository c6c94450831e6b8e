/** The JWK to PEM direction (pemc/convert_to_pem.go): the dispatch from a
    key's runtime shape to a PEM type label and marshaller, and the per-key
    output plan of the `pem` command: which keys are visited, which block
    each produces with which headers, and where each block is written. */
module Pemc {
  import opened Keys
  import opened Text

  /** The x509 marshallers the dispatch calls. They are foreign: only their
      signatures matter, and that the two RSA ones cannot fail. */
  datatype Marshallers = Marshallers(
    pkcs1Public: RsaPublicKey -> Der,
    pkcs1Private: RsaPrivateKey -> Der,
    pkixPublic: EcPublicKey -> Result<Der>,
    sec1Private: EcPrivateKey -> Result<Der>)

  const UnrecognizedKeyType: string := "unrecognized key type"

  /** ConvertToPEMBlock: a closed dispatch on the key's shape. The block it
      returns carries no headers yet. */
  function ConvertToPemBlock(m: Marshallers, key: KeyMaterial): (r: Result<PemBlock>)
    ensures r.Ok? ==> r.value.blockType in PemLabels && r.value.headers == map[]
    ensures key.Unsupported? ==> r == Err(UnrecognizedKeyType)
    ensures key.RsaPublic? ==> r == Ok(PemBlock(RsaPublicLabel, map[], m.pkcs1Public(key.rsaPublic)))
    ensures key.RsaPrivate? ==> r == Ok(PemBlock(RsaPrivateLabel, map[], m.pkcs1Private(key.rsaPrivate)))
    ensures key.EcPublic? ==>
      && (r.Err? <==> m.pkixPublic(key.ecPublic).Err?)
      && (r.Err? ==> r.error == m.pkixPublic(key.ecPublic).error)
      && (r.Ok? ==> r.value == PemBlock(EcPublicLabel, map[], m.pkixPublic(key.ecPublic).value))
    ensures key.EcPrivate? ==>
      && (r.Err? <==> m.sec1Private(key.ecPrivate).Err?)
      && (r.Err? ==> r.error == m.sec1Private(key.ecPrivate).error)
      && (r.Ok? ==> r.value == PemBlock(EcPrivateLabel, map[], m.sec1Private(key.ecPrivate).value))
  {
    match key
    case RsaPublic(k) => Ok(PemBlock(RsaPublicLabel, map[], m.pkcs1Public(k)))
    case EcPublic(k) =>
      (match m.pkixPublic(k)
       case Err(e) => Err(e)
       case Ok(bytes) => Ok(PemBlock(EcPublicLabel, map[], bytes)))
    case RsaPrivate(k) => Ok(PemBlock(RsaPrivateLabel, map[], m.pkcs1Private(k)))
    case EcPrivate(k) =>
      (match m.sec1Private(k)
       case Err(e) => Err(e)
       case Ok(b) => Ok(PemBlock(EcPrivateLabel, map[], b)))
    case Unsupported(_) => Err(UnrecognizedKeyType)
  }

  /** The four labels are pairwise distinct, so a produced block's label
      tells which of the four shapes it came from. */
  lemma LabelDeterminesShape(m: Marshallers, m': Marshallers, a: KeyMaterial, b: KeyMaterial)
    requires ConvertToPemBlock(m, a).Ok? && ConvertToPemBlock(m', b).Ok?
    requires ConvertToPemBlock(m, a).value.blockType == ConvertToPemBlock(m', b).value.blockType
    ensures SameShape(a, b)
  {
  }

  /** Only the EC marshallers can make the dispatch fail on a supported
      shape; the RSA branches always produce a block. */
  lemma OnlyMarshalErrorsOrUnsupported(m: Marshallers, key: KeyMaterial)
    requires ConvertToPemBlock(m, key).Err?
    ensures || key.Unsupported?
            || (key.EcPublic? && m.pkixPublic(key.ecPublic).Err?)
            || (key.EcPrivate? && m.sec1Private(key.ecPrivate).Err?)
  {
  }

  const UrlPrefixes: set<string> := {"http://", "https://", "HTTP://", "HTTPS://"}

  /** The source is fetched over HTTP exactly when it starts with one of the
      four literal prefixes; any other spelling of the scheme is a file path. */
  function IsUrl(input: string): (r: bool)
    ensures r <==> exists p :: p in UrlPrefixes && p <= input
  {
    HasPrefixIsPrefix(input, "http://");
    HasPrefixIsPrefix(input, "https://");
    HasPrefixIsPrefix(input, "HTTP://");
    HasPrefixIsPrefix(input, "HTTPS://");
    HasPrefix(input, "http://") || HasPrefix(input, "https://")
    || HasPrefix(input, "HTTP://") || HasPrefix(input, "HTTPS://")
  }

  /** A URL's scheme is spelled all in lower case or all in upper case. */
  lemma UrlSchemeHasUniformCase(s: string)
    ensures IsUrl(s) ==> |s| >= 7
    ensures IsUrl(s) ==> (s[..4] == "http" && s[4] in {':', 's'}) || (s[..4] == "HTTP" && s[4] in {':', 'S'})
  {
    if IsUrl(s) {
      var p :| p in UrlPrefixes && p <= s;
      assert s[..|p|] == p;
      assert s[..4] == p[..4] && s[4] == p[4];
    }
  }

  /** Mixed-case schemes are not recognised as URLs: such an input is read
      as a file path. */
  lemma MixedCaseSchemeIsFilePath(rest: string)
    ensures !IsUrl("Http://" + rest) && !IsUrl("Https://" + rest)
    ensures !IsUrl("hTTP://" + rest) && !IsUrl("HTTPs://" + rest)
  {
    var s1, s2, s3, s4 := "Http://" + rest, "Https://" + rest, "hTTP://" + rest, "HTTPs://" + rest;
    UrlSchemeHasUniformCase(s1);
    assert s1[..4] == "Http";
    UrlSchemeHasUniformCase(s2);
    assert s2[..4] == "Http";
    UrlSchemeHasUniformCase(s3);
    assert s3[..4] == "hTTP";
    UrlSchemeHasUniformCase(s4);
    assert s4[..4] == "HTTP" && s4[4] == 's';
  }

  /** The header map attached to every produced block: exactly kid, alg and
      use, holding the key's own metadata, empty strings included. */
  function Headers(key: Jwk): (h: map<string, string>)
    ensures h.Keys == {KidHeader, AlgHeader, UseHeader}
    ensures Header(h, KidHeader) == key.keyId
    ensures Header(h, AlgHeader) == key.algorithm
    ensures Header(h, UseHeader) == key.use
  {
    map[KidHeader := key.keyId, AlgHeader := key.algorithm, UseHeader := key.use]
  }

  /** Where the block of the key at `index` of a set of `keyCount` keys goes. */
  function Destination(outputFile: string, keyCount: nat, index: nat): (d: Dest)
    ensures d.Stdout? <==> outputFile == ""
    ensures d.File? && keyCount == 1 ==> d.path == outputFile
    ensures d.File? && keyCount != 1 ==> d.path == outputFile + "_" + Decimal(index)
  {
    if outputFile != "" then
      if keyCount == 1 then File(outputFile) else File(outputFile + "_" + Decimal(index))
    else Stdout
  }

  /** Within one set, distinct positions go to distinct files: a multi-key
      result never overwrites one of its own outputs. */
  lemma DestinationsDistinct(outputFile: string, keyCount: nat, i: nat, j: nat)
    requires outputFile != "" && i < keyCount && j < keyCount && i != j
    ensures Destination(outputFile, keyCount, i) != Destination(outputFile, keyCount, j)
  {
    var pi := outputFile + "_" + Decimal(i);
    var pj := outputFile + "_" + Decimal(j);
    DecimalInjective(i, j);
    assert pi[|outputFile| + 1..] == Decimal(i);
    assert pj[|outputFile| + 1..] == Decimal(j);
  }

  /** The fan-out of a three-key set to an explicit path. */
  lemma ThreeKeysFanOut(outputFile: string)
    requires outputFile != ""
    ensures Destination(outputFile, 3, 0) == File(outputFile + "_0")
    ensures Destination(outputFile, 3, 1) == File(outputFile + "_1")
    ensures Destination(outputFile, 3, 2) == File(outputFile + "_2")
  {
  }

  /** The loaders of a key set, foreign: the HTTP fetch takes the
      skip-verification flag, the file reader does not. */
  datatype Loader = Loader(
    fromUrl: (string, bool) -> Result<seq<Jwk>>,
    fromFile: string -> Result<seq<Jwk>>)

  /** What happens to one key of the set. */
  datatype KeyOutcome =
      /** the dispatch failed; the error is reported and the key skipped */
    | Skipped(error: string)
      /** the block is written to `dest`; a thumbprint error, if any, is reported */
    | Emitted(dest: Dest, block: PemBlock, thumbprintError: Option<string>)
      /** bound for the standard output, but the thumbprint error is still the
          pending error when the writer is checked, so it is reported again and
          the block is not written */
    | Withheld(block: PemBlock, pendingError: string)

  /** The outcome of one run of the `pem` command. */
  datatype PemRun =
    | PemUsage
    | PemLoadFailed(error: string)
    | PemConverted(outcomes: seq<KeyOutcome>)

  function LoadKeySet(input: string, noVerify: bool, loader: Loader): Result<seq<Jwk>>
  {
    if IsUrl(input) then loader.fromUrl(input, noVerify) else loader.fromFile(input)
  }

  /** The outcome for the key at `index` of a set of `keyCount` keys. */
  function KeyOutcomeOf(m: Marshallers, thumbprintError: Jwk -> Option<string>, outputFile: string,
                        keyCount: nat, index: nat, key: Jwk): KeyOutcome
  {
    match ConvertToPemBlock(m, key.key)
    case Err(e) => Skipped(e)
    case Ok(b) =>
      var block := b.(headers := Headers(key));
      var dest := Destination(outputFile, keyCount, index);
      if dest.Stdout? && thumbprintError(key).Some? then Withheld(block, thumbprintError(key).value)
      else Emitted(dest, block, thumbprintError(key))
  }

  /** The specification of ConvertToPEMFormat: load the set, then one outcome
      per key, in document order, each depending only on that key, its
      position and the size of the whole set. */
  function PemPlan(args: seq<string>, noVerify: bool, outputFile: string, loader: Loader,
                   m: Marshallers, thumbprintError: Jwk -> Option<string>): PemRun
  {
    if |args| < 1 then PemUsage
    else match LoadKeySet(args[0], noVerify, loader)
      case Err(e) => PemLoadFailed(e)
      case Ok(keys) =>
        PemConverted(seq(|keys|, i requires 0 <= i < |keys| =>
          KeyOutcomeOf(m, thumbprintError, outputFile, |keys|, i, keys[i])))
  }

  /** ConvertToPEMFormat: resolve the source, load the key set, and walk the
      keys in order, skipping the ones that fail to convert. */
  method ConvertToPemFormat(args: seq<string>, noVerify: bool, outputFile: string, loader: Loader,
                            m: Marshallers, thumbprintError: Jwk -> Option<string>)
    returns (run: PemRun)
    ensures run == PemPlan(args, noVerify, outputFile, loader, m, thumbprintError)
  {
    if |args| < 1 {
      return PemUsage;
    }
    var input := args[0];
    var loaded: Result<seq<Jwk>>;
    if IsUrl(input) {
      loaded := loader.fromUrl(input, noVerify);
    } else {
      loaded := loader.fromFile(input);
    }
    if loaded.Err? {
      return PemLoadFailed(loaded.error);
    }
    var keys := loaded.value;
    var outcomes: seq<KeyOutcome> := [];
    for i := 0 to |keys|
      invariant |outcomes| == i
      invariant forall k :: 0 <= k < i ==>
        outcomes[k] == KeyOutcomeOf(m, thumbprintError, outputFile, |keys|, k, keys[k])
    {
      var key := keys[i];
      var converted := ConvertToPemBlock(m, key.key);
      if converted.Err? {
        outcomes := outcomes + [Skipped(converted.error)];
      } else {
        var block := converted.value;
        block := block.(headers := map[KidHeader := key.keyId, AlgHeader := key.algorithm, UseHeader := key.use]);
        var err := thumbprintError(key);
        var dest: Dest;
        if outputFile != "" {
          if |keys| == 1 {
            dest := File(outputFile);
          } else {
            dest := File(outputFile + "_" + Decimal(i));
          }
          outcomes := outcomes + [Emitted(dest, block, err)];
        } else if err.Some? {
          outcomes := outcomes + [Withheld(block, err.value)];
        } else {
          outcomes := outcomes + [Emitted(Stdout, block, err)];
        }
      }
    }
    return PemConverted(outcomes);
  }

  /** A load failure is reported and no key is visited. */
  lemma LoadFailureVisitsNoKey(args: seq<string>, noVerify: bool, outputFile: string, loader: Loader,
                               m: Marshallers, thumbprintError: Jwk -> Option<string>)
    requires |args| >= 1 && LoadKeySet(args[0], noVerify, loader).Err?
    ensures PemPlan(args, noVerify, outputFile, loader, m, thumbprintError)
            == PemLoadFailed(LoadKeySet(args[0], noVerify, loader).error)
  {
  }

  /** Every key of a loaded set is visited, in order: its outcome is a skip
      exactly when its own conversion fails, and otherwise carries the
      converted block with the key's headers, bound for the destination its
      position in the whole set gives, failed keys counted. */
  lemma PlanVisitsEveryKey(args: seq<string>, noVerify: bool, outputFile: string, loader: Loader,
                           m: Marshallers, thumbprintError: Jwk -> Option<string>, i: nat)
    requires |args| >= 1 && LoadKeySet(args[0], noVerify, loader).Ok?
    requires i < |LoadKeySet(args[0], noVerify, loader).value|
    ensures var keys := LoadKeySet(args[0], noVerify, loader).value;
            var run := PemPlan(args, noVerify, outputFile, loader, m, thumbprintError);
            var converted := ConvertToPemBlock(m, keys[i].key);
            && run.PemConverted? && |run.outcomes| == |keys|
            && (run.outcomes[i].Skipped? <==> converted.Err?)
            && (run.outcomes[i].Skipped? ==> run.outcomes[i].error == converted.error)
            && (!run.outcomes[i].Skipped? ==>
                  run.outcomes[i].block == converted.value.(headers := Headers(keys[i])))
            && (run.outcomes[i].Emitted? ==>
                  run.outcomes[i].dest == Destination(outputFile, |keys|, i))
            && (run.outcomes[i].Withheld? <==>
                  converted.Ok? && outputFile == "" && thumbprintError(keys[i]).Some?)
  {
  }

  /** With an explicit output path, no two written blocks of one run share a
      file. */
  lemma EmittedFilesDistinct(args: seq<string>, noVerify: bool, outputFile: string, loader: Loader,
                             m: Marshallers, thumbprintError: Jwk -> Option<string>, i: nat, j: nat)
    requires outputFile != "" && i != j
    requires PemPlan(args, noVerify, outputFile, loader, m, thumbprintError).PemConverted?
    requires var outs := PemPlan(args, noVerify, outputFile, loader, m, thumbprintError).outcomes;
             i < |outs| && j < |outs| && outs[i].Emitted? && outs[j].Emitted?
    ensures var outs := PemPlan(args, noVerify, outputFile, loader, m, thumbprintError).outcomes;
            outs[i].dest != outs[j].dest
  {
    var keys := LoadKeySet(args[0], noVerify, loader).value;
    DestinationsDistinct(outputFile, |keys|, i, j);
  }

  /** The suffix is the position in the whole set: when the first of two keys
      fails, the second still goes to `path_1`, not to `path`. */
  lemma FailedKeysKeepTheirIndex(m: Marshallers, thumbprintError: Jwk -> Option<string>,
                                 outputFile: string, first: Jwk, second: Jwk)
    requires outputFile != ""
    requires first.key.Unsupported? && second.key.RsaPublic?
    ensures KeyOutcomeOf(m, thumbprintError, outputFile, 2, 0, first) == Skipped(UnrecognizedKeyType)
    ensures KeyOutcomeOf(m, thumbprintError, outputFile, 2, 1, second).Emitted?
    ensures KeyOutcomeOf(m, thumbprintError, outputFile, 2, 1, second).dest == File(outputFile + "_1")
  {
    assert Decimal(1) == "1";
  }
}
