# jwc key converter, modelled in Dafny

`jwc` converts cryptographic keys between JSON Web Key sets (RFC 7517) and
PEM blocks. Its `pem` command loads a key set from a file or an HTTP(S) URL.
It turns each RSA or EC key into a PEM block with the key's `kid`, `alg` and
`use` as headers, and writes each block to the standard output, to the
output path, or to `path_<index>`. Its `jwk` command reads PEM files, cuts
them into blocks, turns every block it can decode into a JWK entry and writes
one key set.

This project models the decision logic of both commands. The cryptography,
the PEM text format and the JSON format belong to Go libraries. They enter
the model as function-typed parameters, with no promises beyond the ones
stated below:

- x509 marshallers (`Pemc.Marshallers`). The two RSA marshallers cannot fail.
- x509 parsers (`Jwkc.Parsers`). The PKIX parser may return a key of any shape.
- `pem.Decode` (`PemDecode.Decoder`). Its documented behaviour is stated as
  two explicit predicates:
  - `ConsumesOnBlock`: when a block is found, the rest is strictly shorter than the input.
  - `KeepsInputOnNoBlock`: when no PEM data is found, the whole input comes back.
- The key-set loaders (`Pemc.Loader`).
- The filesystem, as one `FileProbe` per argument.
- The thumbprint computation, reduced to whether it fails.

Modules:

- `Keys` (keys.dfy): the shared data model. It has the key shapes including
  `Unsupported`, `Jwk`, `PemBlock`, the four labels, `Result` and `Option`.
- `Text` (text.dfy): `strings.HasPrefix` and `strconv.Itoa` on indices.
- `Pemc` (pemc.dfy): pemc/convert_to_pem.go.
- `PemDecode` (pem_decode.dfy): the block-cutting loop of jwkc/convert_to_jwk.go.
- `Jwkc` (jwkc.dfy): the rest of jwkc/convert_to_jwk.go.
- `RoundTrip` (round_trip.dfy): lemmas that connect the two directions.

Each command is a method that loops as the source does. Its postcondition
equates the result with a specification function: `Pemc.PemPlan` for `pem`
and `Jwkc.JwkPlan` for `jwk`. The lemmas are stated about those functions.
A `pem` run yields one `KeyOutcome` per key of the set:

- `Skipped` with the conversion error;
- `Emitted` to a destination, with the thumbprint error if there was one;
- `Withheld`, described below.

A `jwk` run yields one of four outcomes:

- `JwkUsage`;
- `JwkAborted` with the error of the first unreadable input;
- `NoKeyFound`;
- `KeySetWritten` with the destination, the entries and the per-block errors.

Where the behaviour the tool is described to have and its code disagree, the model follows the code:

- The URL test is four literal prefixes, not a case-insensitive one (`MixedCaseSchemeIsFilePath`).
- "no key found in inputs" is reported only when no block was collected. When
  blocks were found but none decodes, an empty key set is written
  (`AllBlocksRejectedGivesEmptySet`).
- A thumbprint failure does block PEM output when the output goes to the
  standard output. The `err` declared at pemc/convert_to_pem.go:56 is still
  set when line 71 tests it, because only the file branch reassigns it
  (`Pemc.KeyOutcome.Withheld`). go-jose only loads EC keys on curves it can
  thumbprint, so this branch is not normally reachable.
- A decode error names the label as "key type X is not recognized", not as
  "unrecognized key type: X".

## Model

| member | source | states |
|---|---|---|
| `Pemc.ConvertToPemBlock` | pemc/convert_to_pem.go:118-139 | RSA public gives `RSA PUBLIC KEY` with the PKCS#1 bytes. RSA private gives `RSA PRIVATE KEY` with the PKCS#1 bytes. Neither can fail. EC public gives `EC PUBLIC KEY` and EC private gives `EC PRIVATE KEY`; each fails exactly when its marshaller fails, returning that error. Any other shape gives the error "unrecognized key type". A produced block has one of the four labels and no headers |
| `Pemc.LabelDeterminesShape` | pemc/convert_to_pem.go:121-135 | two produced blocks with the same label come from keys of the same shape, so the labels are pairwise distinct and the mapping is injective |
| `Pemc.OnlyMarshalErrorsOrUnsupported` | pemc/convert_to_pem.go:119-138 | the dispatch fails only for an unsupported shape or when an EC marshaller fails |
| `Pemc.IsUrl` | pemc/convert_to_pem.go:36-37 | an input is a URL exactly when one of `http://`, `https://`, `HTTP://`, `HTTPS://` is a prefix of it |
| `Text.HasPrefix` | pemc/convert_to_pem.go:36-37 | `strings.HasPrefix`: true exactly when the prefix is a prefix of the string, as `Text.HasPrefixIsPrefix` proves |
| `Text.HasPrefixIsPrefix` | pemc/convert_to_pem.go:36-37 | the character-by-character prefix test agrees with the sequence prefix relation |
| `Pemc.UrlSchemeHasUniformCase` | pemc/convert_to_pem.go:36-37 | the scheme of a recognised URL is spelled all lower case or all upper case |
| `Pemc.MixedCaseSchemeIsFilePath` | pemc/convert_to_pem.go:36-42 | `Http://`, `Https://`, `hTTP://` and `HTTPs://` inputs are not URLs, so they take the file branch |
| `Pemc.LoadKeySet` | pemc/convert_to_pem.go:36-42 | a URL input is fetched with the skip-verification flag; any other input is read as a file, and the flag is not used |
| `Pemc.Headers` | pemc/convert_to_pem.go:52-55 | the header map has exactly the keys `kid`, `alg` and `use`, holding KeyID, Algorithm and Use, empty strings included |
| `Pemc.Destination` | pemc/convert_to_pem.go:61-70 | an empty output path gives stdout. A set of exactly one key gives the path itself. Otherwise the destination is `path_` followed by the decimal position |
| `Text.Decimal` | pemc/convert_to_pem.go:66 | `strconv.Itoa` of a non-negative index: a non-empty string of decimal digits without a leading zero |
| `Text.DecimalRoundTrip` | pemc/convert_to_pem.go:66 | reading back the decimal rendering of an index gives the index |
| `Text.DecimalInjective` | pemc/convert_to_pem.go:66 | distinct indices render to distinct strings |
| `Pemc.DestinationsDistinct` | pemc/convert_to_pem.go:62-67 | with an output path, distinct positions of one set get distinct destinations |
| `Pemc.ThreeKeysFanOut` | pemc/convert_to_pem.go:62-67 | a three-key set goes to `path_0`, `path_1` and `path_2` |
| `Pemc.KeyOutcomeOf` | pemc/convert_to_pem.go:48-77 | one key's outcome: skipped on a conversion error; otherwise the block with the key's headers, written to its destination, or withheld when bound for stdout with a pending thumbprint error |
| `Pemc.PemPlan` | pemc/convert_to_pem.go:28-81 | the whole `pem` run: usage, load failure, or one outcome per key in document order |
| `Pemc.ConvertToPemFormat` | pemc/convert_to_pem.go:28-81 | the loop that visits the keys builds exactly the plan of `PemPlan` |
| `Pemc.LoadFailureVisitsNoKey` | pemc/convert_to_pem.go:44-46 | a load failure is reported and no key is visited |
| `Pemc.PlanVisitsEveryKey` | pemc/convert_to_pem.go:47-79 | a loaded set of n keys gives n outcomes. The key at i is skipped exactly when its own conversion fails, which leaves the other keys alone. Otherwise its outcome carries the converted block with the key's headers, bound for the destination of position i among all n keys. It is withheld exactly when bound for stdout with a thumbprint error |
| `Pemc.EmittedFilesDistinct` | pemc/convert_to_pem.go:47-70 | with an output path, no two written blocks of one run share a file |
| `Pemc.FailedKeysKeepTheirIndex` | pemc/convert_to_pem.go:47-66 | when the first of two keys fails, the second is still written to `path_1`, so suffixes can have gaps |
| `Jwkc.ConvertToKey` | jwkc/convert_to_jwk.go:104-117 | `RSA PUBLIC KEY` uses the PKCS#1 public parser, `RSA PRIVATE KEY` the PKCS#1 private parser, `EC PUBLIC KEY` the PKIX parser and `EC PRIVATE KEY` the SEC1 parser, each on the block's bytes. Any other label gives "key type " + label + " is not recognized". The three shape-specific parsers give keys of their own shape |
| `Jwkc.DsaBlockIsRefused` | jwkc/convert_to_jwk.go:114-115 | a `DSA PRIVATE KEY` block is refused with "key type DSA PRIVATE KEY is not recognized" |
| `Keys.Header` | jwkc/convert_to_jwk.go:58-60 | a missing header reads as the empty string |
| `Jwkc.EntryOf` | jwkc/convert_to_jwk.go:52-61 | a block that converts yields the key with its `kid`, `alg` and `use` headers copied to KeyID, Algorithm and Use. A block that does not convert yields the error |
| `Jwkc.Entries` | jwkc/convert_to_jwk.go:51-64 | the entries of the blocks that convert, in block order |
| `Jwkc.Failures` | jwkc/convert_to_jwk.go:53-54 | the errors of the blocks that do not convert, in block order, never more than there are blocks |
| `Jwkc.EntriesAndFailuresPartition` | jwkc/convert_to_jwk.go:51-64 | every block yields exactly one entry or one reported error, so the set never has more entries than there are blocks |
| `Jwkc.EntriesInBlockOrder` | jwkc/convert_to_jwk.go:51-63 | the k-th entry is the entry of the k-th block that converts. The positions of the converting blocks are strictly increasing, and each of them is included |
| `Jwkc.NoEntryWhenEveryBlockFails` | jwkc/convert_to_jwk.go:51-64 | blocks none of which converts give no entry |
| `Jwkc.EntriesConcat` | jwkc/convert_to_jwk.go:51-64 | the entries of two consecutive runs of blocks concatenate, so a failing block removes only its own entry |
| `Jwkc.AssembleKeySet` | jwkc/convert_to_jwk.go:50-64 | the second loop builds exactly the entries and the errors of the blocks |
| `Jwkc.ReadInput` | jwkc/convert_to_jwk.go:24-42 | a stat error, a directory ("input is a directory"), an open error or a read error ends with that error; otherwise the file's bytes |
| `Jwkc.CollectBlocks` | jwkc/convert_to_jwk.go:21-48 | the blocks of all inputs, in argument order and within a file in decoder order, or the error of the first unreadable input |
| `Jwkc.CollectBlocksConcat` | jwkc/convert_to_jwk.go:23-48 | inputs are taken in argument order: the blocks of `a + b` are the blocks of `a` followed by those of `b` |
| `Jwkc.ReadAllBlocks` | jwkc/convert_to_jwk.go:21-48 | the first loop returns exactly the blocks or the error of `CollectBlocks` |
| `Jwkc.CollectAbortsAt` | jwkc/convert_to_jwk.go:23-42 | the first unreadable input decides the error, whatever the later inputs |
| `Jwkc.AbortsOnFirstBadInput` | jwkc/convert_to_jwk.go:23-42 | the whole run aborts with the error of the first unreadable input, whatever the decoder and the parsers. No block is converted and nothing is written |
| `Jwkc.JwkPlan` | jwkc/convert_to_jwk.go:15-91 | the whole `jwk` run: usage, abort, "no key found", or the key set with its destination |
| `Jwkc.ConvertToJwkFormat` | jwkc/convert_to_jwk.go:15-91 | the command's two loops produce exactly the outcome of `JwkPlan` |
| `Jwkc.NoKeyFoundIffNoBlocks` | jwkc/convert_to_jwk.go:49-89 | "no key found in inputs" is the outcome exactly when every input was read and no block was collected |
| `Jwkc.AllBlocksRejectedGivesEmptySet` | jwkc/convert_to_jwk.go:49-89 | when blocks were collected but none converts, an empty key set is still written, with one error per block |
| `PemDecode.LoopAsWritten` | jwkc/convert_to_jwk.go:43-47 | the source's decode loop: it appends whatever the decoder returns until the buffer is empty. It has no bound of its own and is run here on fuel |
| `PemDecode.FileBlocks` | jwkc/convert_to_jwk.go:43-47 | the blocks found from the front of a file's bytes, stopping where no more PEM data is found. There are never more of them than bytes |
| `PemDecode.DecodeFileBlocks` | jwkc/convert_to_jwk.go:43-47 | the decode loop with a stop at the first point without PEM data. It terminates on every input and returns exactly `FileBlocks` |
| `PemDecode.AsWrittenNeverEndsOnLeftover` | jwkc/convert_to_jwk.go:43-47 | when anything is left after the last block, the source's loop does not finish on any amount of fuel |
| `PemDecode.TrailingNewlineNeverEnds` | jwkc/convert_to_jwk.go:43-47 | for one block followed by a blank line, where the decoder leaves a single newline as the rest, the source's loop does not finish |
| `PemDecode.AsWrittenEndsWhenAllConsumed` | jwkc/convert_to_jwk.go:43-47 | when the decoder uses up the input, the source's loop finishes within one iteration per byte, and its result is the found blocks |
| `PemDecode.AsWrittenAgreesWhenItEnds` | jwkc/convert_to_jwk.go:43-47 | whenever the source's loop finishes, it appended no nil block and its blocks are exactly `FileBlocks` |
| `RoundTrip.ParserMatchesMarshaller` | jwkc/convert_to_jwk.go:105-113 | decoding a produced block uses the parser that matches the marshaller that produced it, on the bytes it produced: PKCS#1 for RSA, PKIX for EC public, SEC1 for EC private |
| `RoundTrip.KeyRoundTrip` | jwkc/convert_to_jwk.go:104-113 | a produced block decodes to the key it came from, if the library's parser undoes its marshaller for that key |
| `RoundTrip.MetadataRoundTrip` | jwkc/convert_to_jwk.go:56-61 | at the level of block values, kid, alg and use written as headers come back unchanged as KeyID, Algorithm and Use for any block the parsers accept |
| `RoundTrip.JwkRoundTrip` | jwkc/convert_to_jwk.go:56-61 | at the level of block values, a JWK converted to a PEM block and back is the same JWK, key and metadata, if the library round-trips the key |
| `RoundTrip.PlanBlocksDecodeToTheirKeys` | pemc/convert_to_pem.go:47-55 | every block a `pem` run produces decodes to the JWK it came from, if the library round-trips that key |
| `RoundTrip.PemRoundTripLabel` | jwkc/convert_to_jwk.go:106-113 | a decoded and re-encoded block keeps its label. The exception is `EC PUBLIC KEY`: it is kept only when the PKIX bytes hold an EC key, and one that holds an RSA key comes back as `RSA PUBLIC KEY` |

## Left out

- DER encoding and parsing (`x509.Marshal*` and `x509.Parse*`): foreign
  library calls, passed in as parameters. Nothing in the code establishes
  that parsing undoes marshalling, so the round-trip lemmas take it as a
  hypothesis (`RoundTrip.LibraryRoundTrips`).
- The PEM text format (`pem.Encode`, and `pem.Decode` beyond its two
  documented promises): a foreign library.
- `RoundTrip.MetadataRoundTrip` and `RoundTrip.JwkRoundTrip`: the round trip
  is proved on block values, and assumes that the PEM text layer returns the
  header map unchanged. `pem.Decode` trims surrounding whitespace from header
  keys and values, and a value with a line break breaks the block, so the
  text layer only keeps values that have neither.
- JSON encoding and decoding of key sets (go-jose, `json.Marshal`): a foreign
  library. A key set is a sequence of `Jwk` records, and the loaders are parameters.
- The SHA-1 thumbprint and the line that prints it: a hash computed by a
  foreign library, for information only. Only its failure is modelled,
  because the failure changes control flow.
- HTTP fetching and the TLS configuration for skipping verification: network
  plumbing. The flag is passed to the URL loader only.
- Opening, writing, syncing and closing files, and writing to stdout: I/O.
  A run ends in a plan that names each destination, and the I/O layer carries
  it out. A failure to open or write an output is therefore not modelled.
  Neither is the fact that the `pem` command opens its files without truncation.
- Informational `fmt` messages: left out. The error texts the converters
  produce are modelled.
- Cobra flag reading and the globals `OutputFile` and `IgnoreSSL`: CLI glue.
  They are method parameters here.
- cmd/pem.go: CLI registration only, with no logic.
- The nil-block dereference at jwkc/convert_to_jwk.go:105: the source's loop
  appends a nil block only on a decoder result that leaves the input
  unchanged, and then it never finishes (`AsWrittenAgreesWhenItEnds`). So
  under the decoder's documented behaviour, the dereference is never reached.

## Findings

| source | as written | input that shows it | evidently intended | confidence | as-written member | corrected member |
|---|---|---|---|---|---|---|
| jwkc/convert_to_jwk.go:43-47 | The loop runs while the buffer is not empty. When `pem.Decode` finds no PEM data it returns a nil block and the whole input, so the loop never ends and keeps appending nil blocks | a PEM file with anything after its last block, such as a trailing blank line (`...-----END RSA PUBLIC KEY-----\n\n`) or a text file without PEM data | stop decoding at the first point where no more PEM data is found, keeping the blocks found so far | medium, not executed | `PemDecode.LoopAsWritten`, `PemDecode.TrailingNewlineNeverEnds`, `PemDecode.AsWrittenNeverEndsOnLeftover` | `PemDecode.DecodeFileBlocks`, `PemDecode.AsWrittenAgreesWhenItEnds` |

`Jwkc.ReadAllBlocks` uses the corrected loop. By `AsWrittenAgreesWhenItEnds`,
it gives the same blocks as the source on every input where the source's loop
finishes.
