/** Cutting the contents of one input file into PEM blocks
    (jwkc/convert_to_jwk.go, the inner loop of ConvertToJWKFormat).
    `pem.Decode` is foreign; it is a parameter that returns the first block
    found, if any, and the rest of the input, and it is trusted for exactly
    the two promises of its documentation stated below. */
module PemDecode {
  import opened Keys

  /** The result of one call of the decoder. */
  datatype Decoded = Decoded(block: Option<PemBlock>, rest: seq<byte>)

  type Decoder = seq<byte> -> Decoded

  /** When a block is found, the rest is strictly shorter than the input. */
  ghost predicate ConsumesOnBlock(decode: Decoder)
  {
    forall s :: decode(s).block.Some? ==> |decode(s).rest| < |s|
  }

  /** When no PEM data is found the whole input comes back as the rest. */
  ghost predicate KeepsInputOnNoBlock(decode: Decoder)
  {
    forall s :: decode(s).block.None? ==> decode(s).rest == s
  }

  /** The loop as the source writes it: decode while the buffer is not empty
      and append whatever the decoder returned, found block or not. This
      loop has no bound of its own, so it is run here on `fuel` iterations;
      None means that it had not finished when the fuel ran out. */
  function LoopAsWritten(decode: Decoder, buf: seq<byte>, fuel: nat): Option<seq<Option<PemBlock>>>
    decreases fuel
  {
    if |buf| == 0 then Some([])
    else if fuel == 0 then None
    else
      var d := decode(buf);
      match LoopAsWritten(decode, d.rest, fuel - 1)
      case None => None
      case Some(bs) => Some([d.block] + bs)
  }

  /** The blocks found from the front of `buf`, stopping at the end of the
      input or at the first point where no more PEM data is found. */
  function FileBlocks(decode: Decoder, buf: seq<byte>): (blocks: seq<PemBlock>)
    requires ConsumesOnBlock(decode)
    ensures |blocks| <= |buf|
    decreases |buf|
  {
    if |buf| == 0 then []
    else match decode(buf).block
      case None => []
      case Some(b) => [b] + FileBlocks(decode, decode(buf).rest)
  }

  /** What is left of `buf` where FileBlocks stops: empty when the decoder
      used up the whole input. */
  function Remainder(decode: Decoder, buf: seq<byte>): (rest: seq<byte>)
    requires ConsumesOnBlock(decode)
    decreases |buf|
  {
    if |buf| == 0 then []
    else match decode(buf).block
      case None => buf
      case Some(_) => Remainder(decode, decode(buf).rest)
  }

  /** The found blocks as the source's slice of possibly-nil blocks holds them. */
  function Lift(blocks: seq<PemBlock>): (r: seq<Option<PemBlock>>)
    ensures |r| == |blocks|
    ensures forall i :: 0 <= i < |blocks| ==> r[i] == Some(blocks[i])
  {
    seq(|blocks|, i requires 0 <= i < |blocks| => Some(blocks[i]))
  }

  /** The loop of the source never finishes once the input holds anything
      after its last PEM block (a trailing blank line, say): the decoder then
      hands the same bytes back forever. */
  lemma {:induction false} AsWrittenNeverEndsOnLeftover(decode: Decoder, buf: seq<byte>, fuel: nat)
    requires ConsumesOnBlock(decode) && KeepsInputOnNoBlock(decode)
    requires Remainder(decode, buf) != []
    ensures LoopAsWritten(decode, buf, fuel) == None
    decreases fuel
  {
    if fuel > 0 {
      AsWrittenNeverEndsOnLeftover(decode, decode(buf).rest, fuel - 1);
    }
  }

  /** The same for one block followed by a blank line: the decoder takes the
      END line with its own line break and leaves the second newline. */
  lemma TrailingNewlineNeverEnds(decode: Decoder, data: seq<byte>, b: PemBlock, fuel: nat)
    requires ConsumesOnBlock(decode) && KeepsInputOnNoBlock(decode)
    requires decode(data) == Decoded(Some(b), [10])
    requires decode([10]).block.None?
    ensures LoopAsWritten(decode, data, fuel) == None
  {
    assert Remainder(decode, [10]) == [10];
    AsWrittenNeverEndsOnLeftover(decode, data, fuel);
  }

  /** When the decoder does use up the input, the source's loop finishes
      within one iteration per byte and agrees with FileBlocks. */
  lemma {:induction false} AsWrittenEndsWhenAllConsumed(decode: Decoder, buf: seq<byte>)
    requires ConsumesOnBlock(decode)
    requires Remainder(decode, buf) == []
    ensures LoopAsWritten(decode, buf, |buf|) == Some(Lift(FileBlocks(decode, buf)))
    decreases |buf|
  {
    if |buf| > 0 {
      var d := decode(buf);
      var rest := d.rest;
      AsWrittenEndsWhenAllConsumed(decode, rest);
      LoopHasSpareFuel(decode, rest, |rest|, |buf| - 1);
      assert Lift(FileBlocks(decode, buf)) == [d.block] + Lift(FileBlocks(decode, rest));
    }
  }

  /** More fuel does not change a finished run. */
  lemma {:induction false} LoopHasSpareFuel(decode: Decoder, buf: seq<byte>, fuel: nat, more: nat)
    requires fuel <= more
    requires LoopAsWritten(decode, buf, fuel).Some?
    ensures LoopAsWritten(decode, buf, more) == LoopAsWritten(decode, buf, fuel)
    decreases fuel
  {
    if |buf| > 0 {
      LoopHasSpareFuel(decode, decode(buf).rest, fuel - 1, more - 1);
    }
  }

  /** Whenever the source's loop finishes, it appended no nil block and its
      blocks are exactly those FileBlocks finds. */
  lemma AsWrittenAgreesWhenItEnds(decode: Decoder, buf: seq<byte>, fuel: nat)
    requires ConsumesOnBlock(decode) && KeepsInputOnNoBlock(decode)
    requires LoopAsWritten(decode, buf, fuel).Some?
    ensures LoopAsWritten(decode, buf, fuel) == Some(Lift(FileBlocks(decode, buf)))
  {
    if Remainder(decode, buf) != [] {
      AsWrittenNeverEndsOnLeftover(decode, buf, fuel);
      assert false;
    }
    AsWrittenEndsWhenAllConsumed(decode, buf);
    if fuel <= |buf| {
      LoopHasSpareFuel(decode, buf, fuel, |buf|);
    } else {
      LoopHasSpareFuel(decode, buf, |buf|, fuel);
    }
  }

  /** The loop with the stop the source evidently intends: it ends at the
      end of the input or at the first point where no more PEM data is
      found, so it terminates on every input. */
  method DecodeFileBlocks(decode: Decoder, bytes: seq<byte>) returns (blocks: seq<PemBlock>)
    requires ConsumesOnBlock(decode)
    ensures blocks == FileBlocks(decode, bytes)
  {
    var rest := bytes;
    blocks := [];
    while |rest| > 0
      invariant blocks + FileBlocks(decode, rest) == FileBlocks(decode, bytes)
      decreases |rest|
    {
      var d := decode(rest);
      if d.block.None? {
        break;
      }
      assert FileBlocks(decode, rest) == [d.block.value] + FileBlocks(decode, d.rest);
      blocks := blocks + [d.block.value];
      rest := d.rest;
    }
  }
}
