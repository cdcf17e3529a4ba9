/**
 * BIP-119's DefaultCheckTemplateVerifyHash, as the `util` module of
 * src/ctv.rs computes it. The functions give the preimage as one
 * concatenation; the methods build it the way the source does, appending
 * field after field into a buffer, and are proved to produce that preimage.
 */
module Util {
  import opened Bytes
  import opened Tx

  predicate AllScriptSigsEmpty(ins: seq<TxIn>)
  {
    forall k :: 0 <= k < |ins| ==> ins[k].scriptSig == []
  }

  /** The scriptSig segment: absent when every scriptSig is empty. */
  function ScriptSigsSegment(sha: Sha256, tx: Transaction): Option<Hash32>
  {
    if AllScriptSigsEmpty(tx.input) then None
    else Some(sha(ConcatMap(tx.input, EncodeScriptSig)))
  }

  function SequencesSegment(sha: Sha256, tx: Transaction): Hash32
  {
    sha(ConcatMap(tx.input, EncodeSequence))
  }

  function OutputsSegment(sha: Sha256, tx: Transaction): Hash32
  {
    sha(ConcatMap(tx.output, EncodeTxOut))
  }

  /**
   * The bytes that are hashed. The input and output counts are `as u32`
   * casts, so they wrap at 2^32.
   */
  function CtvPreimage(sha: Sha256, tx: Transaction, index: U32): seq<Byte>
  {
    EncodeI32(tx.version) + LE(tx.lockTime, 4)
    + (match ScriptSigsSegment(sha, tx) case Some(h) => h case None => [])
    + LE(|tx.input| % 0x1_0000_0000, 4) + SequencesSegment(sha, tx)
    + LE(|tx.output| % 0x1_0000_0000, 4) + OutputsSegment(sha, tx)
    + LE(index, 4)
  }

  /** The commitment `util::ctv(tx, index)` returns. */
  function DefaultCtvHash(sha: Sha256, tx: Transaction, index: U32): Hash32
  {
    sha(CtvPreimage(sha, tx, index))
  }

  /** Width of the optional scriptSig segment in the preimage. */
  function ScriptSigsWidth(tx: Transaction): nat
  {
    if AllScriptSigsEmpty(tx.input) then 0 else 32
  }

  /**
   * Where each field sits in the preimage: 84 bytes without a scriptSig
   * segment, 116 with one, in BIP-119's order.
   */
  lemma CtvPreimageLayout(sha: Sha256, tx: Transaction, index: U32)
    ensures var p := CtvPreimage(sha, tx, index);
            var k := ScriptSigsWidth(tx);
            && |p| == 84 + k
            && p[0..4] == EncodeI32(tx.version)
            && p[4..8] == LE(tx.lockTime, 4)
            && (k == 32 ==> p[8..40] == sha(ConcatMap(tx.input, EncodeScriptSig)))
            && p[8 + k..12 + k] == LE(|tx.input| % 0x1_0000_0000, 4)
            && p[12 + k..44 + k] == sha(ConcatMap(tx.input, EncodeSequence))
            && p[44 + k..48 + k] == LE(|tx.output| % 0x1_0000_0000, 4)
            && p[48 + k..80 + k] == sha(ConcatMap(tx.output, EncodeTxOut))
            && p[80 + k..84 + k] == LE(index, 4)
  {
    var seg: seq<Byte> := match ScriptSigsSegment(sha, tx) case Some(h) => h case None => [];
    assert |seg| == ScriptSigsWidth(tx);
    assert CtvPreimage(sha, tx, index)
        == EncodeI32(tx.version) + LE(tx.lockTime, 4) + seg
           + LE(|tx.input| % 0x1_0000_0000, 4) + SequencesSegment(sha, tx)
           + LE(|tx.output| % 0x1_0000_0000, 4) + OutputsSegment(sha, tx) + LE(index, 4);
    PreimagePieces(EncodeI32(tx.version), LE(tx.lockTime, 4), seg,
                LE(|tx.input| % 0x1_0000_0000, 4), SequencesSegment(sha, tx),
                LE(|tx.output| % 0x1_0000_0000, 4), OutputsSegment(sha, tx), LE(index, 4));
  }

  /** Slicing a concatenation of pieces of the preimage's widths gives back each piece. */
  lemma PreimagePieces(v: seq<Byte>, l: seq<Byte>, seg: seq<Byte>, ni: seq<Byte>, sq: seq<Byte>,
                    no: seq<Byte>, os: seq<Byte>, ix: seq<Byte>)
    requires |v| == 4 && |l| == 4 && |ni| == 4 && |sq| == 32 && |no| == 4 && |os| == 32 && |ix| == 4
    ensures var p := v + l + seg + ni + sq + no + os + ix;
            var k := |seg|;
            && |p| == 84 + k
            && p[0..4] == v && p[4..8] == l && p[8..8 + k] == seg
            && p[8 + k..12 + k] == ni && p[12 + k..44 + k] == sq
            && p[44 + k..48 + k] == no && p[48 + k..80 + k] == os
            && p[80 + k..84 + k] == ix
  {
  }

  /** The segment is omitted exactly when every scriptSig is empty. */
  lemma CtvPreimageLength(sha: Sha256, tx: Transaction, index: U32)
    ensures |CtvPreimage(sha, tx, index)| == 84 <==> AllScriptSigsEmpty(tx.input)
    ensures |CtvPreimage(sha, tx, index)| == 116 <==> !AllScriptSigsEmpty(tx.input)
  {
    CtvPreimageLayout(sha, tx, index);
  }

  /**
   * Equal preimages come from transactions that agree on version, locktime,
   * whether they carry scriptSigs, input and output counts (mod 2^32) and
   * the spend index: the preimage binds every fixed-width field.
   */
  lemma CtvPreimageBindsFields(sha: Sha256, tx1: Transaction, i1: U32, tx2: Transaction, i2: U32)
    requires CtvPreimage(sha, tx1, i1) == CtvPreimage(sha, tx2, i2)
    ensures tx1.version == tx2.version
    ensures tx1.lockTime == tx2.lockTime
    ensures AllScriptSigsEmpty(tx1.input) == AllScriptSigsEmpty(tx2.input)
    ensures |tx1.input| % 0x1_0000_0000 == |tx2.input| % 0x1_0000_0000
    ensures |tx1.output| % 0x1_0000_0000 == |tx2.output| % 0x1_0000_0000
    ensures i1 == i2
  {
    CtvPreimageLayout(sha, tx1, i1);
    CtvPreimageLayout(sha, tx2, i2);
    var k := ScriptSigsWidth(tx1);
    assert Pow256(4) == 0x1_0000_0000;
    EncodeI32Injective(tx1.version, tx2.version);
    LEInjective(tx1.lockTime, tx2.lockTime, 4);
    LEInjective(|tx1.input| % 0x1_0000_0000, |tx2.input| % 0x1_0000_0000, 4);
    LEInjective(|tx1.output| % 0x1_0000_0000, |tx2.output| % 0x1_0000_0000, 4);
    LEInjective(i1, i2, 4);
  }

  /**
   * No input's previous output or witness enters the preimage: transactions
   * that differ only there commit to the same hash.
   */
  lemma CtvHashIgnoresOutpointsAndWitnesses(sha: Sha256, tx1: Transaction, tx2: Transaction, index: U32)
    requires tx1.version == tx2.version && tx1.lockTime == tx2.lockTime && tx1.output == tx2.output
    requires |tx1.input| == |tx2.input|
    requires forall k :: 0 <= k < |tx1.input| ==>
               tx1.input[k].scriptSig == tx2.input[k].scriptSig && tx1.input[k].sequence == tx2.input[k].sequence
    ensures CtvPreimage(sha, tx1, index) == CtvPreimage(sha, tx2, index)
    ensures DefaultCtvHash(sha, tx1, index) == DefaultCtvHash(sha, tx2, index)
  {
    ConcatMapPointwise(tx1.input, EncodeScriptSig, tx2.input, EncodeScriptSig);
    ConcatMapPointwise(tx1.input, EncodeSequence, tx2.input, EncodeSequence);
    assert AllScriptSigsEmpty(tx1.input) == AllScriptSigsEmpty(tx2.input);
  }

  /**
   * Transactions that differ only in their outputs, and not in how many
   * there are, have preimages that differ only in the 32-byte outputs hash.
   */
  lemma CtvPreimageOutsideOutputs(sha: Sha256, tx1: Transaction, tx2: Transaction, index: U32)
    requires tx1.version == tx2.version && tx1.lockTime == tx2.lockTime && tx1.input == tx2.input
    requires |tx1.output| == |tx2.output|
    ensures var p1 := CtvPreimage(sha, tx1, index);
            var p2 := CtvPreimage(sha, tx2, index);
            var k := ScriptSigsWidth(tx1);
            && |p1| == |p2| == 84 + k
            && p1[..48 + k] == p2[..48 + k]
            && p1[80 + k..] == p2[80 + k..]
  {
    var seg: seq<Byte> := match ScriptSigsSegment(sha, tx1) case Some(h) => h case None => [];
    var head := EncodeI32(tx1.version) + LE(tx1.lockTime, 4) + seg
                + LE(|tx1.input| % 0x1_0000_0000, 4) + SequencesSegment(sha, tx1)
                + LE(|tx1.output| % 0x1_0000_0000, 4);
    assert |seg| == ScriptSigsWidth(tx1) && |head| == 48 + |seg|;
    var p1 := CtvPreimage(sha, tx1, index);
    var p2 := CtvPreimage(sha, tx2, index);
    assert p1 == head + OutputsSegment(sha, tx1) + LE(index, 4);
    assert p2 == head + OutputsSegment(sha, tx2) + LE(index, 4);
  }

  // ----- the source's step-by-step construction -----

  /** `util::scriptsigs`: folds every input's encoded scriptSig into a buffer and hashes it. */
  method ScriptSigsHash(sha: Sha256, tx: Transaction) returns (segment: Option<Hash32>)
    ensures segment == ScriptSigsSegment(sha, tx)
  {
    var n := |tx.input|;
    var k := 0;
    while k < n && tx.input[k].scriptSig == []
      invariant 0 <= k <= n
      invariant forall j :: 0 <= j < k ==> tx.input[j].scriptSig == []
    {
      k := k + 1;
    }
    if k == n {
      return None;
    }
    var buffer: seq<Byte> := [];
    for i := 0 to n
      invariant buffer == ConcatMap(tx.input[..i], EncodeScriptSig)
    {
      assert tx.input[..i + 1] == tx.input[..i] + [tx.input[i]];
      ConcatMapSnoc(tx.input[..i], tx.input[i], EncodeScriptSig);
      buffer := buffer + EncodeScriptSig(tx.input[i]);
    }
    assert tx.input[..n] == tx.input;
    segment := Some(sha(buffer));
  }

  /** `util::sequences`: folds every input's 4-byte sequence into a buffer and hashes it. */
  method SequencesHash(sha: Sha256, tx: Transaction) returns (h: Hash32)
    ensures h == SequencesSegment(sha, tx)
  {
    var buffer: seq<Byte> := [];
    for i := 0 to |tx.input|
      invariant buffer == ConcatMap(tx.input[..i], EncodeSequence)
    {
      assert tx.input[..i + 1] == tx.input[..i] + [tx.input[i]];
      ConcatMapSnoc(tx.input[..i], tx.input[i], EncodeSequence);
      buffer := buffer + EncodeSequence(tx.input[i]);
    }
    assert tx.input[..|tx.input|] == tx.input;
    h := sha(buffer);
  }

  /** `util::outputs`: folds every output's consensus encoding into a buffer and hashes it. */
  method OutputsHash(sha: Sha256, tx: Transaction) returns (h: Hash32)
    ensures h == OutputsSegment(sha, tx)
  {
    var buffer: seq<Byte> := [];
    for i := 0 to |tx.output|
      invariant buffer == ConcatMap(tx.output[..i], EncodeTxOut)
    {
      assert tx.output[..i + 1] == tx.output[..i] + [tx.output[i]];
      ConcatMapSnoc(tx.output[..i], tx.output[i], EncodeTxOut);
      buffer := buffer + EncodeTxOut(tx.output[i]);
    }
    assert tx.output[..|tx.output|] == tx.output;
    h := sha(buffer);
  }

  /** `util::ctv`: writes the preimage field by field, then hashes it. */
  method Ctv(sha: Sha256, tx: Transaction, input: U32) returns (hash: Hash32)
    ensures hash == DefaultCtvHash(sha, tx, input)
  {
    var buffer := EncodeI32(tx.version);
    buffer := buffer + LE(tx.lockTime, 4);
    var scriptsigs := ScriptSigsHash(sha, tx);
    if scriptsigs.Some? {
      buffer := buffer + scriptsigs.value;
    }
    buffer := buffer + LE(|tx.input| % 0x1_0000_0000, 4);
    var sequences := SequencesHash(sha, tx);
    buffer := buffer + sequences;
    buffer := buffer + LE(|tx.output| % 0x1_0000_0000, 4);
    var outputs := OutputsHash(sha, tx);
    buffer := buffer + outputs;
    buffer := buffer + LE(input, 4);
    ghost var seg: seq<Byte> := match ScriptSigsSegment(sha, tx) case Some(h) => h case None => [];
    assert buffer == EncodeI32(tx.version) + LE(tx.lockTime, 4) + seg
      + LE(|tx.input| % 0x1_0000_0000, 4) + SequencesSegment(sha, tx)
      + LE(|tx.output| % 0x1_0000_0000, 4) + OutputsSegment(sha, tx) + LE(input, 4);
    hash := sha(buffer);
  }
}
