/**
 * The transaction skeleton the templates materialise into (rust-bitcoin's
 * `Transaction`, `TxIn`, `TxOut`, `OutPoint`), the consensus encodings of
 * its parts that the commitment hash and the txid are computed over, and
 * decoders showing those encodings keep every field, in order.
 */
module Tx {
  import opened Bytes

  datatype OutPoint = OutPoint(txid: Hash32, vout: U32)

  /** `OutPoint::null()`, the previous output of a default `TxIn`. */
  function NullOutPoint(): OutPoint
  {
    OutPoint(seq(32, _ => 0), 0xFFFF_FFFF)
  }

  datatype TxIn = TxIn(previousOutput: OutPoint, scriptSig: seq<Byte>, sequence: U32, witnessStack: seq<seq<Byte>>)

  /** A `TxOut`: an amount in satoshis and the script that locks it. */
  datatype TxOut = TxOut(value: U64, scriptPubKey: seq<Byte>)

  datatype Transaction = Transaction(version: I32, lockTime: U32, input: seq<TxIn>, output: seq<TxOut>)

  /** The concatenation of `f` applied to each element, in order. */
  function ConcatMap<T>(s: seq<T>, f: T -> seq<Byte>): seq<Byte>
  {
    if s == [] then [] else f(s[0]) + ConcatMap(s[1..], f)
  }

  /** Appending one element appends its image: the step of a left fold. */
  lemma {:induction false} ConcatMapSnoc<T>(s: seq<T>, x: T, f: T -> seq<Byte>)
    ensures ConcatMap(s + [x], f) == ConcatMap(s, f) + f(x)
  {
    if s != [] {
      assert (s + [x])[1..] == s[1..] + [x];
      ConcatMapSnoc(s[1..], x, f);
    }
  }

  /** Sequences whose elements have the same images have the same concatenation. */
  lemma {:induction false} ConcatMapPointwise<T, U>(s: seq<T>, f: T -> seq<Byte>, t: seq<U>, g: U -> seq<Byte>)
    requires |s| == |t|
    requires forall k :: 0 <= k < |s| ==> f(s[k]) == g(t[k])
    ensures ConcatMap(s, f) == ConcatMap(t, g)
  {
    if s != [] {
      ConcatMapPointwise(s[1..], f, t[1..], g);
    }
  }

  /** A script as `ScriptBuf::consensus_encode` writes it: CompactSize length, then the bytes. */
  function EncodeScript(script: seq<Byte>): seq<Byte>
  {
    CompactSize(|script|) + script
  }

  function EncodeTxOut(o: TxOut): seq<Byte>
  {
    LE(o.value, 8) + EncodeScript(o.scriptPubKey)
  }

  function EncodeSequence(i: TxIn): seq<Byte>
  {
    LE(i.sequence, 4)
  }

  function EncodeScriptSig(i: TxIn): seq<Byte>
  {
    EncodeScript(i.scriptSig)
  }

  function EncodeTxIn(i: TxIn): seq<Byte>
  {
    i.previousOutput.txid + LE(i.previousOutput.vout, 4) + EncodeScript(i.scriptSig) + LE(i.sequence, 4)
  }

  /** The serialisation without witnesses that a transaction's id is the hash of. */
  function EncodeWithoutWitness(tx: Transaction): seq<Byte>
  {
    EncodeI32(tx.version)
    + CompactSize(|tx.input|) + ConcatMap(tx.input, EncodeTxIn)
    + CompactSize(|tx.output|) + ConcatMap(tx.output, EncodeTxOut)
    + LE(tx.lockTime, 4)
  }

  /** `Transaction::txid`: double SHA-256 of the serialisation without witnesses. */
  function Txid(sha: Sha256, tx: Transaction): Hash32
  {
    sha(sha(EncodeWithoutWitness(tx)))
  }

  /**
   * The txid does not depend on witnesses: transactions that differ only
   * in their inputs' witness stacks have the same id.
   */
  lemma TxidIgnoresWitnesses(sha: Sha256, tx1: Transaction, tx2: Transaction)
    requires tx1.version == tx2.version && tx1.lockTime == tx2.lockTime && tx1.output == tx2.output
    requires |tx1.input| == |tx2.input|
    requires forall k :: 0 <= k < |tx1.input| ==> tx1.input[k].(witnessStack := []) == tx2.input[k].(witnessStack := [])
    ensures Txid(sha, tx1) == Txid(sha, tx2)
  {
    forall k | 0 <= k < |tx1.input|
      ensures EncodeTxIn(tx1.input[k]) == EncodeTxIn(tx2.input[k])
    {
      var a := tx1.input[k];
      var b := tx2.input[k];
      assert a.previousOutput == b.previousOutput && a.scriptSig == b.scriptSig && a.sequence == b.sequence by {
        assert a.(witnessStack := []).previousOutput == a.previousOutput;
        assert b.(witnessStack := []).previousOutput == b.previousOutput;
      }
    }
    ConcatMapPointwise(tx1.input, EncodeTxIn, tx2.input, EncodeTxIn);
  }

  // ----- decoders: the partners of the encoders above -----

  /** Reads one CompactSize-prefixed script: the script and the bytes it took. */
  function DecodeScript(b: seq<Byte>): (r: Option<(seq<Byte>, nat)>)
    ensures r.Some? ==> 1 <= r.value.1 <= |b|
  {
    match DecodeCompactSize(b)
    case None => None
    case Some((len, k)) => if k + len <= |b| then Some((b[k..k + len], k + len)) else None
  }

  function DecodeTxOut(b: seq<Byte>): (r: Option<(TxOut, nat)>)
    ensures r.Some? ==> 1 <= r.value.1 <= |b|
  {
    if |b| < 8 then None
    else
      assert Pow256(8) == 0x1_0000_0000_0000_0000;
      var value := FromLE(b[..8]);
      match DecodeScript(b[8..])
      case None => None
      case Some((script, k)) => Some((TxOut(value, script), 8 + k))
  }

  /** Reads exactly `n` outputs and nothing else. */
  function DecodeTxOuts(b: seq<Byte>, n: nat): Option<seq<TxOut>>
    decreases n
  {
    if n == 0 then (if b == [] then Some([]) else None)
    else match DecodeTxOut(b)
      case None => None
      case Some((o, k)) =>
        match DecodeTxOuts(b[k..], n - 1)
        case None => None
        case Some(rest) => Some([o] + rest)
  }

  /** Reads exactly `n` CompactSize-prefixed scripts and nothing else. */
  function DecodeScripts(b: seq<Byte>, n: nat): Option<seq<seq<Byte>>>
    decreases n
  {
    if n == 0 then (if b == [] then Some([]) else None)
    else match DecodeScript(b)
      case None => None
      case Some((s, k)) =>
        match DecodeScripts(b[k..], n - 1)
        case None => None
        case Some(rest) => Some([s] + rest)
  }

  /** Splits a byte string into little-endian 4-byte words. */
  function DecodeSequences(b: seq<Byte>): Option<seq<U32>>
    decreases |b|
  {
    if b == [] then Some([])
    else if |b| < 4 then None
    else
      assert Pow256(4) == 0x1_0000_0000;
      match DecodeSequences(b[4..])
      case None => None
      case Some(rest) => Some([FromLE(b[..4])] + rest)
  }

  /** Script lengths fit the 64-bit CompactSize prefix (they are `usize` values). */
  predicate WellFormedScript(s: seq<Byte>)
  {
    |s| < 0x1_0000_0000_0000_0000
  }

  lemma ScriptRoundTrip(s: seq<Byte>, rest: seq<Byte>)
    requires WellFormedScript(s)
    ensures DecodeScript(EncodeScript(s) + rest) == Some((s, |EncodeScript(s)|))
  {
    CompactSizeRoundTrip(|s|, s + rest);
    assert EncodeScript(s) + rest == CompactSize(|s|) + (s + rest);
    var k := |CompactSize(|s|)|;
    assert (EncodeScript(s) + rest)[k..k + |s|] == s;
  }

  lemma TxOutRoundTrip(o: TxOut, rest: seq<Byte>)
    requires WellFormedScript(o.scriptPubKey)
    ensures DecodeTxOut(EncodeTxOut(o) + rest) == Some((o, |EncodeTxOut(o)|))
  {
    var b := EncodeTxOut(o) + rest;
    assert b[..8] == LE(o.value, 8);
    assert Pow256(8) == 0x1_0000_0000_0000_0000;
    LERoundTrip(o.value, 8);
    assert b[8..] == EncodeScript(o.scriptPubKey) + rest;
    ScriptRoundTrip(o.scriptPubKey, rest);
  }

  /**
   * The concatenated output encodings determine the outputs, in order: the
   * outputs segment of the commitment hash loses nothing.
   */
  lemma {:induction false} TxOutsRoundTrip(outs: seq<TxOut>)
    requires forall k :: 0 <= k < |outs| ==> WellFormedScript(outs[k].scriptPubKey)
    ensures DecodeTxOuts(ConcatMap(outs, EncodeTxOut), |outs|) == Some(outs)
  {
    if outs != [] {
      var e := EncodeTxOut(outs[0]);
      var b := ConcatMap(outs, EncodeTxOut);
      TxOutRoundTrip(outs[0], ConcatMap(outs[1..], EncodeTxOut));
      assert b[|e|..] == ConcatMap(outs[1..], EncodeTxOut);
      TxOutsRoundTrip(outs[1..]);
      assert [outs[0]] + outs[1..] == outs;
    }
  }

  /** The scriptSigs of the inputs, in input order. */
  function ScriptSigs(ins: seq<TxIn>): (r: seq<seq<Byte>>)
    ensures |r| == |ins|
  {
    seq(|ins|, k requires 0 <= k < |ins| => ins[k].scriptSig)
  }

  /** The sequence numbers of the inputs, in input order. */
  function Sequences(ins: seq<TxIn>): (r: seq<U32>)
    ensures |r| == |ins|
  {
    seq(|ins|, k requires 0 <= k < |ins| => ins[k].sequence)
  }

  /** The concatenated scriptSig encodings determine every input's scriptSig, in order. */
  lemma {:induction false} ScriptSigsRoundTrip(ins: seq<TxIn>)
    requires forall k :: 0 <= k < |ins| ==> WellFormedScript(ins[k].scriptSig)
    ensures DecodeScripts(ConcatMap(ins, EncodeScriptSig), |ins|) == Some(ScriptSigs(ins))
  {
    if ins != [] {
      var e := EncodeScriptSig(ins[0]);
      var b := ConcatMap(ins, EncodeScriptSig);
      ScriptRoundTrip(ins[0].scriptSig, ConcatMap(ins[1..], EncodeScriptSig));
      assert b[|e|..] == ConcatMap(ins[1..], EncodeScriptSig);
      ScriptSigsRoundTrip(ins[1..]);
      assert ScriptSigs(ins) == [ins[0].scriptSig] + ScriptSigs(ins[1..]);
    }
  }

  /** The concatenated sequence encodings determine every input's sequence, in order. */
  lemma {:induction false} SequencesRoundTrip(ins: seq<TxIn>)
    ensures DecodeSequences(ConcatMap(ins, EncodeSequence)) == Some(Sequences(ins))
  {
    if ins != [] {
      var b := ConcatMap(ins, EncodeSequence);
      assert b[..4] == LE(ins[0].sequence, 4);
      assert b[4..] == ConcatMap(ins[1..], EncodeSequence);
      assert Pow256(4) == 0x1_0000_0000;
      LERoundTrip(ins[0].sequence, 4);
      SequencesRoundTrip(ins[1..]);
      assert Sequences(ins) == [ins[0].sequence] + Sequences(ins[1..]);
    }
  }
}
