/**
 * The transaction template (`Ctv`) and its outputs (`Output`) from
 * src/ctv.rs, and their conversion into a transaction skeleton. An
 * `Output.Tree` owns a nested template; converting it needs the nested
 * template's commitment hash, so conversion and hashing are mutually
 * recursive over the template tree.
 */
module Template {
  import opened Bytes
  import opened Errors
  import opened Tx
  import opened Script
  import opened Segwit
  import Addresses
  import Util

  datatype Output =
    | Address(address: Addresses.Address, amount: U64)
    | Data(data: seq<Byte>)
    | Tree(tree: Ctv, amount: U64)

  datatype Ctv = Ctv(
    network: Addresses.Network,
    version: I32,
    locktime: U32,
    sequences: seq<U32>,
    outputs: seq<Output>)

  /** `ScriptBuf::new_op_return(data)`: OP_RETURN followed by one push of `data`. */
  function OpReturn(data: seq<Byte>): seq<Byte>
    requires |data| < PushLimit
  {
    Assemble([Op(OP_RETURN), Push(data)])
  }

  /** `Output::as_txout`. */
  function AsTxOut(sha: Sha256, o: Output, network: Addresses.Network): (r: Result<TxOut>)
    ensures r.Ok? ==> r.value.value == (if o.Data? then 0 else o.amount)
    decreases o
  {
    match o
    case Address(address, amount) =>
      (match Addresses.RequireNetwork(address, network)
       case Err(e) => Err(e)
       case Ok(checked) => Ok(TxOut(amount, checked.scriptPubKey)))
    case Data(data) =>
      if |data| >= PushLimit then Err(DataTooLarge)
      else Ok(TxOut(0, OpReturn(data)))
    case Tree(tree, amount) =>
      match TemplateHash(sha, tree)
      case Err(e) => Err(e)
      case Ok(tmplhash) =>
        Ok(TxOut(amount, Addresses.P2wsh(sha, LockingScript(tmplhash), network).scriptPubKey))
  }

  /**
   * `outputs.iter().map(|o| o.as_txout(network)).collect()`: every output
   * converted, in order, or the first failure.
   */
  function ConvertOutputs(sha: Sha256, outputs: seq<Output>, network: Addresses.Network): (r: Result<seq<TxOut>>)
    ensures r.Ok? ==> |r.value| == |outputs|
    decreases outputs
  {
    if outputs == [] then Ok([])
    else match AsTxOut(sha, outputs[0], network)
      case Err(e) => Err(e)
      case Ok(first) =>
        match ConvertOutputs(sha, outputs[1..], network)
        case Err(e) => Err(e)
        case Ok(rest) => Ok([first] + rest)
  }

  /** The inputs `as_tx` creates: one default input per sequence, carrying only the sequence. */
  function TemplateInputs(t: Ctv): seq<TxIn>
  {
    seq(|t.sequences|, k requires 0 <= k < |t.sequences| => TxIn(NullOutPoint(), [], t.sequences[k], []))
  }

  /** `Ctv::as_tx`. */
  function AsTx(sha: Sha256, t: Ctv): (r: Result<Transaction>)
    ensures r.Ok? ==> && r.value.version == t.version && r.value.lockTime == t.locktime
                      && |r.value.input| == |t.sequences| && |r.value.output| == |t.outputs|
    decreases t, 1
  {
    match ConvertOutputs(sha, t.outputs, t.network)
    case Err(e) => Err(e)
    case Ok(output) => Ok(Transaction(t.version, t.locktime, TemplateInputs(t), output))
  }

  /** `Ctv::ctv`: the commitment hash of the template's transaction, spent at input 0. */
  function TemplateHash(sha: Sha256, t: Ctv): Result<Hash32>
    decreases t, 2
  {
    match AsTx(sha, t)
    case Err(e) => Err(e)
    case Ok(tx) => Ok(Util.DefaultCtvHash(sha, tx, 0))
  }

  /** `Ctv::txouts`. */
  function TxOuts(sha: Sha256, t: Ctv): (r: Result<seq<TxOut>>)
    ensures r.Ok? ==> |r.value| == |t.outputs|
  {
    ConvertOutputs(sha, t.outputs, t.network)
  }

  /** `Ctv::witness`: a witness with one item, the template's own commitment script. */
  function Witness(sha: Sha256, t: Ctv): (r: Result<seq<seq<Byte>>>)
    ensures r.Ok? ==> |r.value| == 1 && |r.value[0]| == 34
  {
    match TemplateHash(sha, t)
    case Err(e) => Err(e)
    case Ok(h) => Ok([LockingScript(h)])
  }

  // ----- what the conversions promise -----

  /** An address output pays its amount to the address's script, and only on the template's network. */
  lemma AsTxOutAddress(sha: Sha256, address: Addresses.Address, amount: U64, network: Addresses.Network)
    ensures AsTxOut(sha, Address(address, amount), network).Ok? <==> address.network == network
    ensures AsTxOut(sha, Address(address, amount), network).Ok? ==>
              AsTxOut(sha, Address(address, amount), network).value == TxOut(amount, address.scriptPubKey)
    ensures AsTxOut(sha, Address(address, amount), network).Err? ==>
              AsTxOut(sha, Address(address, amount), network).error == InvalidAddressForNetwork
  {
  }

  /**
   * A data output carries zero satoshis and a script that is exactly
   * OP_RETURN followed by one push of the data; data too long for one push
   * is refused.
   */
  lemma AsTxOutData(sha: Sha256, data: seq<Byte>, network: Addresses.Network)
    ensures AsTxOut(sha, Data(data), network).Ok? <==> |data| < PushLimit
    ensures AsTxOut(sha, Data(data), network).Err? ==> AsTxOut(sha, Data(data), network).error == DataTooLarge
    ensures AsTxOut(sha, Data(data), network).Ok? ==>
              var o := AsTxOut(sha, Data(data), network).value;
              o.value == 0 && Disassemble(o.scriptPubKey) == Some([Op(OP_RETURN), Push(data)])
  {
    if |data| < PushLimit {
      AssembleRoundTrip([Op(OP_RETURN), Push(data)]);
    }
  }

  /**
   * A tree output pays its amount to the 34-byte P2WSH script committing to
   * `<hash of the nested template> OP_NOP4`; it fails, with the nested
   * template's own error, exactly when the nested template cannot be hashed.
   */
  lemma AsTxOutTree(sha: Sha256, tree: Ctv, amount: U64, network: Addresses.Network)
    ensures AsTxOut(sha, Tree(tree, amount), network).Ok? <==> TemplateHash(sha, tree).Ok?
    ensures AsTxOut(sha, Tree(tree, amount), network).Err? ==>
              AsTxOut(sha, Tree(tree, amount), network).error == TemplateHash(sha, tree).error
    ensures AsTxOut(sha, Tree(tree, amount), network).Ok? ==>
              var o := AsTxOut(sha, Tree(tree, amount), network).value;
              var script := LockingScript(TemplateHash(sha, tree).value);
              && o.value == amount
              && o.scriptPubKey == [OP_0, 32] + sha(script)
              && Disassemble(o.scriptPubKey) == Some([Push([]), Push(sha(script))])
              && Disassemble(script) == Some([Push(TemplateHash(sha, tree).value), Op(OP_NOP4)])
  {
  }

  /**
   * Converting the outputs succeeds exactly when every output converts; it
   * then yields one transaction output per template output, in order, and
   * otherwise fails with the error of the first output that does not convert.
   */
  lemma {:induction false} ConvertOutputsSpec(sha: Sha256, outputs: seq<Output>, network: Addresses.Network)
    ensures ConvertOutputs(sha, outputs, network).Ok? <==>
              forall k :: 0 <= k < |outputs| ==> AsTxOut(sha, outputs[k], network).Ok?
    ensures ConvertOutputs(sha, outputs, network).Ok? ==>
              && |ConvertOutputs(sha, outputs, network).value| == |outputs|
              && forall k :: 0 <= k < |outputs| ==>
                   ConvertOutputs(sha, outputs, network).value[k] == AsTxOut(sha, outputs[k], network).value
    ensures ConvertOutputs(sha, outputs, network).Err? ==>
              exists k :: 0 <= k < |outputs|
                && AsTxOut(sha, outputs[k], network) == Err(ConvertOutputs(sha, outputs, network).error)
                && forall j :: 0 <= j < k ==> AsTxOut(sha, outputs[j], network).Ok?
  {
    if outputs != [] {
      ConvertOutputsSpec(sha, outputs[1..], network);
      var r := ConvertOutputs(sha, outputs, network);
      var first := AsTxOut(sha, outputs[0], network);
      var rest := ConvertOutputs(sha, outputs[1..], network);
      if first.Err? {
        assert AsTxOut(sha, outputs[0], network) == Err(r.error);
      } else if rest.Err? {
        var k :| 0 <= k < |outputs[1..]|
                 && AsTxOut(sha, outputs[1..][k], network) == Err(rest.error)
                 && forall j :: 0 <= j < k ==> AsTxOut(sha, outputs[1..][j], network).Ok?;
        assert AsTxOut(sha, outputs[k + 1], network) == Err(r.error);
        forall j | 0 <= j < k + 1
          ensures AsTxOut(sha, outputs[j], network).Ok?
        {
          if j > 0 {
            assert outputs[j] == outputs[1..][j - 1];
          }
        }
      } else {
        forall k | 0 <= k < |outputs|
          ensures AsTxOut(sha, outputs[k], network).Ok?
          ensures r.value[k] == AsTxOut(sha, outputs[k], network).value
        {
          if k > 0 {
            assert outputs[k] == outputs[1..][k - 1];
          }
        }
      }
      if !first.Ok? || !rest.Ok? {
        assert !AsTxOut(sha, outputs[0], network).Ok? || exists k :: 0 <= k < |outputs[1..]| && !AsTxOut(sha, outputs[1..][k], network).Ok?;
      }
    }
  }

  /**
   * `as_tx` copies version and locktime, makes one input per sequence in
   * order (no previous output, empty scriptSig and witness), and makes one
   * output per template output in order; if any output fails to convert it
   * returns that failure and no transaction.
   */
  lemma AsTxSpec(sha: Sha256, t: Ctv)
    ensures AsTx(sha, t).Ok? <==> forall k :: 0 <= k < |t.outputs| ==> AsTxOut(sha, t.outputs[k], t.network).Ok?
    ensures AsTx(sha, t).Err? ==> AsTx(sha, t).error == TxOuts(sha, t).error
    ensures AsTx(sha, t).Ok? ==>
              var tx := AsTx(sha, t).value;
              && tx.version == t.version
              && tx.lockTime == t.locktime
              && |tx.input| == |t.sequences|
              && (forall k :: 0 <= k < |t.sequences| ==> tx.input[k] == TxIn(NullOutPoint(), [], t.sequences[k], []))
              && |tx.output| == |t.outputs|
              && (forall k :: 0 <= k < |t.outputs| ==> tx.output[k] == AsTxOut(sha, t.outputs[k], t.network).value)
              && tx.output == TxOuts(sha, t).value
  {
    ConvertOutputsSpec(sha, t.outputs, t.network);
  }

  /** `ctv()` succeeds exactly when `as_tx` does, and is the commitment of that transaction at input 0. */
  lemma TemplateHashSpec(sha: Sha256, t: Ctv)
    ensures TemplateHash(sha, t).Ok? <==> AsTx(sha, t).Ok?
    ensures TemplateHash(sha, t).Err? ==> TemplateHash(sha, t).error == AsTx(sha, t).error
    ensures TemplateHash(sha, t).Ok? ==>
              TemplateHash(sha, t).value == sha(Util.CtvPreimage(sha, AsTx(sha, t).value, 0))
  {
  }

  /**
   * The template's commitment preimage never has a scriptSig segment, since
   * every input `as_tx` makes has an empty scriptSig: it is always 84 bytes.
   */
  lemma TemplatePreimageLength(sha: Sha256, t: Ctv)
    requires AsTx(sha, t).Ok?
    ensures |Util.CtvPreimage(sha, AsTx(sha, t).value, 0)| == 84
  {
    var tx := AsTx(sha, t).value;
    assert Util.AllScriptSigsEmpty(tx.input);
    Util.CtvPreimageLength(sha, tx, 0);
  }
}
