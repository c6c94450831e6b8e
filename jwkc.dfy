/** The PEM to JWK direction (jwkc/convert_to_jwk.go): the dispatch from a
    PEM type label to an x509 parser, and the `jwk` command, which collects
    the blocks of every input file in order, turns each decodable block into
    one JWK entry carrying the block's kid/alg/use headers, and assembles the
    entries into one key set. */
module Jwkc {
  import opened Keys
  import opened PemDecode

  /** The x509 parsers the dispatch calls, foreign. ParsePKIXPublicKey
      returns a key of whatever shape the DER holds. */
  datatype Parsers = Parsers(
    pkcs1Public: Der -> Result<RsaPublicKey>,
    pkcs1Private: Der -> Result<RsaPrivateKey>,
    pkixPublic: Der -> Result<KeyMaterial>,
    sec1Private: Der -> Result<EcPrivateKey>)

  /** convertToKey: a switch on the block's type label. */
  function ConvertToKey(p: Parsers, block: PemBlock): (r: Result<KeyMaterial>)
    ensures block.blockType !in PemLabels ==>
      r == Err("key type " + block.blockType + " is not recognized")
    ensures block.blockType == RsaPublicLabel ==>
      r == match p.pkcs1Public(block.der) case Ok(k) => Ok(RsaPublic(k)) case Err(e) => Err(e)
    ensures block.blockType == RsaPrivateLabel ==>
      r == match p.pkcs1Private(block.der) case Ok(k) => Ok(RsaPrivate(k)) case Err(e) => Err(e)
    ensures block.blockType == EcPublicLabel ==> r == p.pkixPublic(block.der)
    ensures block.blockType == EcPrivateLabel ==>
      r == match p.sec1Private(block.der) case Ok(k) => Ok(EcPrivate(k)) case Err(e) => Err(e)
    ensures r.Ok? && block.blockType == RsaPublicLabel ==> r.value.RsaPublic?
    ensures r.Ok? && block.blockType == RsaPrivateLabel ==> r.value.RsaPrivate?
    ensures r.Ok? && block.blockType == EcPrivateLabel ==> r.value.EcPrivate?
  {
    match block.blockType
    case "RSA PUBLIC KEY" =>
      (match p.pkcs1Public(block.der) case Ok(k) => Ok(RsaPublic(k)) case Err(e) => Err(e))
    case "RSA PRIVATE KEY" =>
      (match p.pkcs1Private(block.der) case Ok(k) => Ok(RsaPrivate(k)) case Err(e) => Err(e))
    case "EC PUBLIC KEY" => p.pkixPublic(block.der)
    case "EC PRIVATE KEY" =>
      (match p.sec1Private(block.der) case Ok(k) => Ok(EcPrivate(k)) case Err(e) => Err(e))
    case _ => Err("key type " + block.blockType + " is not recognized")
  }

  /** A block of an unknown type, such as a DSA key, is refused by name. */
  lemma DsaBlockIsRefused(p: Parsers, headers: map<string, string>, der: Der)
    ensures ConvertToKey(p, PemBlock("DSA PRIVATE KEY", headers, der))
            == Err("key type DSA PRIVATE KEY is not recognized")
  {
  }

  /** The JWK entry built from one block, or the error that skips it. */
  function EntryOf(p: Parsers, block: PemBlock): Result<Jwk>
  {
    match ConvertToKey(p, block)
    case Err(e) => Err(e)
    case Ok(k) => Ok(Jwk(k, Header(block.headers, KidHeader), Header(block.headers, AlgHeader),
                         Header(block.headers, UseHeader)))
  }

  /** The entries of the blocks that decode, in block order. */
  function Entries(p: Parsers, blocks: seq<PemBlock>): seq<Jwk>
  {
    if blocks == [] then []
    else
      var init := Entries(p, blocks[..|blocks| - 1]);
      match EntryOf(p, blocks[|blocks| - 1])
      case Ok(j) => init + [j]
      case Err(_) => init
  }

  /** The errors of the blocks that do not decode, in block order. */
  function Failures(p: Parsers, blocks: seq<PemBlock>): (errors: seq<string>)
    ensures |errors| <= |blocks|
  {
    if blocks == [] then []
    else
      var init := Failures(p, blocks[..|blocks| - 1]);
      match EntryOf(p, blocks[|blocks| - 1])
      case Ok(_) => init
      case Err(e) => init + [e]
  }

  /** Every block yields one entry or one error, so the set has at most as
      many entries as there are blocks. */
  lemma {:induction false} EntriesAndFailuresPartition(p: Parsers, blocks: seq<PemBlock>)
    ensures |Entries(p, blocks)| + |Failures(p, blocks)| == |blocks|
    ensures |Entries(p, blocks)| <= |blocks|
  {
    if blocks != [] {
      EntriesAndFailuresPartition(p, blocks[..|blocks| - 1]);
    }
  }

  /** The entries are the decodable blocks' entries in block order: `idx`
      lists, in increasing order, the positions of exactly the blocks that
      decode, and the k-th entry is the entry of the block at idx[k]. */
  lemma {:induction false} EntriesInBlockOrder(p: Parsers, blocks: seq<PemBlock>) returns (idx: seq<nat>)
    ensures |idx| == |Entries(p, blocks)|
    ensures forall k :: 0 <= k < |idx| ==> idx[k] < |blocks| && EntryOf(p, blocks[idx[k]]) == Ok(Entries(p, blocks)[k])
    ensures forall k, l :: 0 <= k < l < |idx| ==> idx[k] < idx[l]
    ensures forall j :: 0 <= j < |blocks| && EntryOf(p, blocks[j]).Ok? ==> j in idx
  {
    if blocks == [] {
      return [];
    }
    var n := |blocks| - 1;
    var init := blocks[..n];
    var prev := EntriesInBlockOrder(p, init);
    assert forall j :: 0 <= j < n ==> init[j] == blocks[j];
    if EntryOf(p, blocks[n]).Ok? {
      idx := prev + [n];
    } else {
      idx := prev;
    }
  }

  /** A run of blocks none of which decodes yields no entry. */
  lemma {:induction false} NoEntryWhenEveryBlockFails(p: Parsers, blocks: seq<PemBlock>)
    requires forall j :: 0 <= j < |blocks| ==> EntryOf(p, blocks[j]).Err?
    ensures Entries(p, blocks) == []
  {
    if blocks != [] {
      var init := blocks[..|blocks| - 1];
      assert forall j :: 0 <= j < |init| ==> init[j] == blocks[j];
      NoEntryWhenEveryBlockFails(p, init);
    }
  }

  /** Entries of consecutive runs of blocks concatenate: a failing block
      removes only its own entry. */
  lemma {:induction false} EntriesConcat(p: Parsers, a: seq<PemBlock>, b: seq<PemBlock>)
    ensures Entries(p, a + b) == Entries(p, a) + Entries(p, b)
    decreases |b|
  {
    if b == [] {
      assert a + b == a;
    } else {
      var n := |b| - 1;
      assert (a + b)[..|a + b| - 1] == a + b[..n];
      EntriesConcat(p, a, b[..n]);
    }
  }

  /** What the filesystem says about one input argument, in the order the
      source asks: stat, is-a-directory, open, read. */
  datatype FileProbe =
    | StatFailed(error: string)
    | Directory
    | OpenFailed(error: string)
    | ReadFailed(error: string)
    | Contents(bytes: seq<byte>)

  const InputIsDirectory: string := "input is a directory"

  function ReadInput(probed: FileProbe): Result<seq<byte>>
  {
    match probed
    case StatFailed(e) => Err(e)
    case Directory => Err(InputIsDirectory)
    case OpenFailed(e) => Err(e)
    case ReadFailed(e) => Err(e)
    case Contents(bytes) => Ok(bytes)
  }

  function Prepend(blocks: seq<PemBlock>, r: Result<seq<PemBlock>>): Result<seq<PemBlock>>
  {
    match r
    case Ok(more) => Ok(blocks + more)
    case Err(e) => Err(e)
  }

  lemma PrependNothing(r: Result<seq<PemBlock>>)
    ensures Prepend([], r) == r
  {
    if r.Ok? {
      assert [] + r.value == r.value;
    }
  }

  /** The blocks of all inputs, files in argument order and each file's
      blocks in decoder order, or the error of the first input that cannot
      be read. */
  function CollectBlocks(probe: string -> FileProbe, decode: Decoder, args: seq<string>): Result<seq<PemBlock>>
    requires ConsumesOnBlock(decode)
  {
    if args == [] then Ok([])
    else match ReadInput(probe(args[0]))
      case Err(e) => Err(e)
      case Ok(bytes) => Prepend(FileBlocks(decode, bytes), CollectBlocks(probe, decode, args[1..]))
  }

  /** Inputs are taken in argument order. */
  lemma {:induction false} CollectBlocksConcat(probe: string -> FileProbe, decode: Decoder,
                                               a: seq<string>, b: seq<string>)
    requires ConsumesOnBlock(decode)
    requires CollectBlocks(probe, decode, a).Ok?
    ensures CollectBlocks(probe, decode, a + b)
            == Prepend(CollectBlocks(probe, decode, a).value, CollectBlocks(probe, decode, b))
  {
    if a == [] {
      assert a + b == b;
      PrependNothing(CollectBlocks(probe, decode, b));
    } else {
      assert (a + b)[0] == a[0] && (a + b)[1..] == a[1..] + b;
      CollectBlocksConcat(probe, decode, a[1..], b);
      var first := FileBlocks(decode, ReadInput(probe(a[0])).value);
      var middle := CollectBlocks(probe, decode, a[1..]).value;
      match CollectBlocks(probe, decode, b) {
        case Ok(last) => assert first + (middle + last) == (first + middle) + last;
        case Err(_) =>
      }
    }
  }

  /** The outcome of one run of the `jwk` command. */
  datatype JwkRun =
    | JwkUsage
    | JwkAborted(error: string)
    | NoKeyFound
    | KeySetWritten(dest: Dest, keys: seq<Jwk>, errors: seq<string>)

  /** The specification of ConvertToJWKFormat. */
  function JwkPlan(args: seq<string>, outputFile: string, probe: string -> FileProbe,
                   decode: Decoder, p: Parsers): JwkRun
    requires ConsumesOnBlock(decode)
  {
    if |args| < 1 then JwkUsage
    else match CollectBlocks(probe, decode, args)
      case Err(e) => JwkAborted(e)
      case Ok(blocks) =>
        if |blocks| > 0 then
          KeySetWritten(if outputFile != "" then File(outputFile) else Stdout,
                        Entries(p, blocks), Failures(p, blocks))
        else NoKeyFound
  }

  /** The first loop of ConvertToJWKFormat: read the inputs in order and cut
      each into blocks; the first input that cannot be read ends the run. */
  method ReadAllBlocks(args: seq<string>, probe: string -> FileProbe, decode: Decoder)
    returns (r: Result<seq<PemBlock>>)
    requires ConsumesOnBlock(decode)
    ensures r == CollectBlocks(probe, decode, args)
  {
    var blocks: seq<PemBlock> := [];
    assert args[0..] == args;
    PrependNothing(CollectBlocks(probe, decode, args));
    for i := 0 to |args|
      invariant CollectBlocks(probe, decode, args) == Prepend(blocks, CollectBlocks(probe, decode, args[i..]))
    {
      assert args[i..][0] == args[i] && args[i..][1..] == args[i + 1..];
      var probed := probe(args[i]);
      if probed.StatFailed? {
        return Err(probed.error);
      }
      if probed.Directory? {
        return Err(InputIsDirectory);
      }
      if probed.OpenFailed? {
        return Err(probed.error);
      }
      if probed.ReadFailed? {
        return Err(probed.error);
      }
      var fileBlocks := DecodeFileBlocks(decode, probed.bytes);
      match CollectBlocks(probe, decode, args[i + 1..]) {
        case Ok(more) => assert blocks + fileBlocks + more == blocks + (fileBlocks + more);
        case Err(_) =>
      }
      blocks := blocks + fileBlocks;
    }
    assert args[|args|..] == [];
    assert blocks + [] == blocks;
    return Ok(blocks);
  }

  /** The second loop of ConvertToJWKFormat: one entry per block that
      converts, the headers copied, and one reported error per block that
      does not. */
  method AssembleKeySet(p: Parsers, blocks: seq<PemBlock>) returns (keys: seq<Jwk>, errors: seq<string>)
    ensures keys == Entries(p, blocks)
    ensures errors == Failures(p, blocks)
  {
    keys, errors := [], [];
    for i := 0 to |blocks|
      invariant keys == Entries(p, blocks[..i])
      invariant errors == Failures(p, blocks[..i])
    {
      var block := blocks[i];
      assert blocks[..i + 1][..i] == blocks[..i];
      var key := ConvertToKey(p, block);
      if key.Err? {
        errors := errors + [key.error];
      } else {
        var entry := Jwk(key.value, Header(block.headers, KidHeader), Header(block.headers, AlgHeader),
                         Header(block.headers, UseHeader));
        keys := keys + [entry];
      }
    }
    assert blocks[..|blocks|] == blocks;
  }

  /** ConvertToJWKFormat: collect the blocks of every input, then convert
      them, or report that the inputs held no block. */
  method ConvertToJwkFormat(args: seq<string>, outputFile: string, probe: string -> FileProbe,
                            decode: Decoder, p: Parsers) returns (run: JwkRun)
    requires ConsumesOnBlock(decode)
    ensures run == JwkPlan(args, outputFile, probe, decode, p)
  {
    if |args| < 1 {
      return JwkUsage;
    }
    var collected := ReadAllBlocks(args, probe, decode);
    if collected.Err? {
      return JwkAborted(collected.error);
    }
    var blocks := collected.value;
    if |blocks| > 0 {
      var keys, errors := AssembleKeySet(p, blocks);
      var dest := if outputFile != "" then File(outputFile) else Stdout;
      return KeySetWritten(dest, keys, errors);
    } else {
      return NoKeyFound;
    }
  }

  /** An input that cannot be stat'ed, is a directory, or cannot be opened or
      read stops the run with its error before any block is converted,
      whatever the decoder and the parsers. */
  lemma {:induction false} AbortsOnFirstBadInput(args: seq<string>, outputFile: string,
                                                 probe: string -> FileProbe, decode: Decoder,
                                                 p: Parsers, i: nat)
    requires ConsumesOnBlock(decode)
    requires i < |args| && ReadInput(probe(args[i])).Err?
    requires forall j :: 0 <= j < i ==> ReadInput(probe(args[j])).Ok?
    ensures JwkPlan(args, outputFile, probe, decode, p) == JwkAborted(ReadInput(probe(args[i])).error)
  {
    CollectAbortsAt(probe, decode, args, i);
  }

  lemma {:induction false} CollectAbortsAt(probe: string -> FileProbe, decode: Decoder, args: seq<string>, i: nat)
    requires ConsumesOnBlock(decode)
    requires i < |args| && ReadInput(probe(args[i])).Err?
    requires forall j :: 0 <= j < i ==> ReadInput(probe(args[j])).Ok?
    ensures CollectBlocks(probe, decode, args) == Err(ReadInput(probe(args[i])).error)
    decreases i
  {
    if i > 0 {
      assert ReadInput(probe(args[0])).Ok?;
      CollectAbortsAt(probe, decode, args[1..], i - 1);
    }
  }

  /** "no key found in inputs" is the outcome exactly when the inputs were
      all read and held no block at all. */
  lemma NoKeyFoundIffNoBlocks(args: seq<string>, outputFile: string, probe: string -> FileProbe,
                              decode: Decoder, p: Parsers)
    requires ConsumesOnBlock(decode)
    ensures JwkPlan(args, outputFile, probe, decode, p) == NoKeyFound
            <==> |args| >= 1 && CollectBlocks(probe, decode, args) == Ok([])
  {
  }

  /** When blocks were found but none decodes, an empty key set is still
      written, and one error is reported per block. */
  lemma AllBlocksRejectedGivesEmptySet(args: seq<string>, outputFile: string, probe: string -> FileProbe,
                                       decode: Decoder, p: Parsers)
    requires ConsumesOnBlock(decode) && |args| >= 1
    requires CollectBlocks(probe, decode, args).Ok?
    requires var blocks := CollectBlocks(probe, decode, args).value;
             |blocks| > 0 && forall j :: 0 <= j < |blocks| ==> EntryOf(p, blocks[j]).Err?
    ensures var run := JwkPlan(args, outputFile, probe, decode, p);
            run.KeySetWritten? && run.keys == []
            && |run.errors| == |CollectBlocks(probe, decode, args).value|
  {
    var blocks := CollectBlocks(probe, decode, args).value;
    NoEntryWhenEveryBlockFails(p, blocks);
    EntriesAndFailuresPartition(p, blocks);
  }
}
