/**
 * `Ctv::spending_tx`: expanding a nested template into the chain of
 * transactions that spends it, following output 0 at every level.
 */
module Spending {
  import opened Bytes
  import opened Errors
  import opened Tx
  import opened Segwit
  import opened Template
  import Addresses
  import Util

  /** The first transaction: it spends `(txid, vout)` and carries the template's own commitment script. */
  function FirstSpend(t: Ctv, txid: Hash32, vout: U32, stack: seq<seq<Byte>>, outs: seq<TxOut>): Transaction
    requires |t.sequences| > 0
  {
    Transaction(t.version, t.locktime, [TxIn(OutPoint(txid, vout), [], t.sequences[0], stack)], outs)
  }

  /** The chain `spending_tx(txid, vout)` returns. */
  function SpendingChain(sha: Sha256, t: Ctv, txid: Hash32, vout: U32): (r: Result<seq<Transaction>>)
    ensures r.Ok? ==> |r.value| == ChainDepth(t)
    ensures r.Ok? ==> forall i :: 0 <= i < |r.value| ==> |r.value[i].input| == 1
    decreases t
  {
    if |t.sequences| == 0 then Err(MissingSequence)
    else match Witness(sha, t)
      case Err(e) => Err(e)
      case Ok(stack) =>
        match TxOuts(sha, t)
        case Err(e) => Err(e)
        case Ok(outs) =>
          var tx := FirstSpend(t, txid, vout, stack, outs);
          if |t.outputs| > 0 && t.outputs[0].Tree? then
            match SpendingChain(sha, t.outputs[0].tree, Txid(sha, tx), 0)
            case Err(e) => Err(e)
            case Ok(rest) => Ok([tx] + rest)
          else Ok([tx])
  }

  /**
   * `spending_tx` as the source writes it: push the first transaction into
   * a vector, then extend it with the nested template's chain.
   */
  method SpendingTx(sha: Sha256, t: Ctv, txid: Hash32, vout: U32) returns (r: Result<seq<Transaction>>)
    ensures r == SpendingChain(sha, t, txid, vout)
    decreases t
  {
    var transactions: seq<Transaction> := [];
    if |t.sequences| == 0 {
      return Err(MissingSequence);
    }
    var stack := Witness(sha, t);
    if stack.Err? {
      return Err(stack.error);
    }
    var output := TxOuts(sha, t);
    if output.Err? {
      return Err(output.error);
    }
    var tx := FirstSpend(t, txid, vout, stack.value, output.value);
    var currentTxid := Txid(sha, tx);
    transactions := transactions + [tx];
    if |t.outputs| > 0 && t.outputs[0].Tree? {
      var nested := SpendingTx(sha, t.outputs[0].tree, currentTxid, 0);
      if nested.Err? {
        return Err(nested.error);
      }
      transactions := transactions + nested.value;
      assert transactions == [tx] + nested.value;
    } else {
      assert transactions == [tx];
    }
    r := Ok(transactions);
  }

  /** How many templates the chain passes through: one, plus those under a tree at output 0. */
  function ChainDepth(t: Ctv): nat
    decreases t
  {
    if |t.outputs| > 0 && t.outputs[0].Tree? then 1 + ChainDepth(t.outputs[0].tree) else 1
  }

  /** The template `i` levels down, following output 0. */
  function Nested(t: Ctv, i: nat): Ctv
    requires i < ChainDepth(t)
    decreases i
  {
    if i == 0 then t else Nested(t.outputs[0].tree, i - 1)
  }

  /** The outpoint the `i`-th transaction of a chain spends. */
  function SpentOutPoint(chain: seq<Transaction>, sha: Sha256, txid: Hash32, vout: U32, i: nat): OutPoint
    requires i < |chain|
  {
    if i == 0 then OutPoint(txid, vout) else OutPoint(Txid(sha, chain[i - 1]), 0)
  }

  lemma WitnessSpec(sha: Sha256, t: Ctv)
    ensures Witness(sha, t).Ok? <==> TxOuts(sha, t).Ok?
    ensures Witness(sha, t).Err? ==> Witness(sha, t).error == TxOuts(sha, t).error
    ensures Witness(sha, t).Ok? ==> Witness(sha, t).value == [LockingScript(TemplateHash(sha, t).value)]
  {
    TemplateHashSpec(sha, t);
    AsTxSpec(sha, t);
  }

  /** What one level of the chain needs: a first sequence, and outputs that all convert. */
  predicate Spendable(sha: Sha256, t: Ctv)
  {
    |t.sequences| > 0 && AsTx(sha, t).Ok?
  }

  /** Every template along output 0 is spendable. */
  predicate ChainSpendable(sha: Sha256, t: Ctv)
  {
    forall i :: 0 <= i < ChainDepth(t) ==> Spendable(sha, Nested(t, i))
  }

  /** `ChainSpendable` one level at a time. */
  lemma ChainSpendableStep(sha: Sha256, t: Ctv)
    ensures ChainSpendable(sha, t) <==>
              Spendable(sha, t) && (|t.outputs| > 0 && t.outputs[0].Tree? ==> ChainSpendable(sha, t.outputs[0].tree))
  {
    assert Nested(t, 0) == t;
    if |t.outputs| > 0 && t.outputs[0].Tree? {
      var tree := t.outputs[0].tree;
      forall i | 1 <= i < ChainDepth(t)
        ensures Nested(t, i) == Nested(tree, i - 1)
      {
      }
      if Spendable(sha, t) && ChainSpendable(sha, tree) {
        forall i | 0 <= i < ChainDepth(t)
          ensures Spendable(sha, Nested(t, i))
        {
          if i > 0 {
            assert Nested(t, i) == Nested(tree, i - 1);
          }
        }
      }
      if ChainSpendable(sha, t) {
        forall i | 0 <= i < ChainDepth(tree)
          ensures Spendable(sha, Nested(tree, i))
        {
          assert Nested(t, i + 1) == Nested(tree, i);
        }
      }
    }
  }

  /** One level of `spending_tx`: the first transaction, then the nested chain, if any. */
  lemma SpendingChainStep(sha: Sha256, t: Ctv, txid: Hash32, vout: U32)
    ensures |t.sequences| == 0 ==> SpendingChain(sha, t, txid, vout) == Err(MissingSequence)
    ensures Spendable(sha, t) ==> TxOuts(sha, t).Ok? && Witness(sha, t).Ok?
    ensures !Spendable(sha, t) ==> SpendingChain(sha, t, txid, vout).Err?
    ensures Spendable(sha, t) ==>
              var tx := FirstSpend(t, txid, vout, Witness(sha, t).value, TxOuts(sha, t).value);
              if |t.outputs| > 0 && t.outputs[0].Tree? then
                var rest := SpendingChain(sha, t.outputs[0].tree, Txid(sha, tx), 0);
                && (SpendingChain(sha, t, txid, vout).Ok? <==> rest.Ok?)
                && (rest.Ok? ==> SpendingChain(sha, t, txid, vout).value == [tx] + rest.value)
              else
                SpendingChain(sha, t, txid, vout) == Ok([tx])
  {
    WitnessSpec(sha, t);
    AsTxSpec(sha, t);
  }

  /**
   * The chain exists exactly when every template along output 0 has a
   * sequence and converts; a template without a sequence fails with
   * MissingSequence; and a chain has one transaction per template along
   * output 0, however deep the nesting.
   */
  lemma {:induction false} SpendingChainShape(sha: Sha256, t: Ctv, txid: Hash32, vout: U32)
    ensures |t.sequences| == 0 ==> SpendingChain(sha, t, txid, vout) == Err(MissingSequence)
    ensures SpendingChain(sha, t, txid, vout).Ok? <==> ChainSpendable(sha, t)
    ensures SpendingChain(sha, t, txid, vout).Ok? ==> |SpendingChain(sha, t, txid, vout).value| == ChainDepth(t)
    decreases t
  {
    SpendingChainStep(sha, t, txid, vout);
    ChainSpendableStep(sha, t);
    if Spendable(sha, t) && |t.outputs| > 0 && t.outputs[0].Tree? {
      var tx := FirstSpend(t, txid, vout, Witness(sha, t).value, TxOuts(sha, t).value);
      SpendingChainShape(sha, t.outputs[0].tree, Txid(sha, tx), 0);
    }
  }

  /**
   * The `i`-th transaction of the chain: it takes version and locktime from
   * the `i`-th template along output 0; its one input spends the funding
   * outpoint (for the first) or output 0 of the previous transaction, with
   * that template's first sequence, an empty scriptSig and a witness holding
   * exactly the template's commitment script; its outputs are `txouts()`.
   */
  lemma {:induction false} SpendingChainAt(sha: Sha256, t: Ctv, txid: Hash32, vout: U32, i: nat)
    requires SpendingChain(sha, t, txid, vout).Ok?
    requires i < |SpendingChain(sha, t, txid, vout).value|
    ensures i < ChainDepth(t)
    ensures var chain := SpendingChain(sha, t, txid, vout).value;
            var n := Nested(t, i);
            && |n.sequences| > 0
            && TemplateHash(sha, n).Ok? && TxOuts(sha, n).Ok?
            && chain[i].version == n.version
            && chain[i].lockTime == n.locktime
            && chain[i].input == [TxIn(SpentOutPoint(chain, sha, txid, vout, i), [], n.sequences[0],
                                       [LockingScript(TemplateHash(sha, n).value)])]
            && chain[i].output == TxOuts(sha, n).value
    decreases t
  {
    SpendingChainShape(sha, t, txid, vout);
    WitnessSpec(sha, t);
    var chain := SpendingChain(sha, t, txid, vout).value;
    if i > 0 {
      var tree := t.outputs[0].tree;
      var tx := chain[0];
      var rest := SpendingChain(sha, tree, Txid(sha, tx), 0);
      assert chain == [tx] + rest.value;
      SpendingChainAt(sha, tree, Txid(sha, tx), 0, i - 1);
      assert chain[i] == rest.value[i - 1];
      if i > 1 {
        assert chain[i - 1] == rest.value[i - 2];
      }
      assert SpentOutPoint(chain, sha, txid, vout, i) == SpentOutPoint(rest.value, sha, Txid(sha, tx), 0, i - 1);
    }
  }

  /**
   * The self-commitment the witness relies on: when the `i`-th template has
   * exactly one sequence, the `i`-th transaction of the chain, hashed at
   * input 0, is that template's own `ctv()`, although it spends a real
   * outpoint and carries a witness.
   */
  lemma SpendingChainSelfCommitment(sha: Sha256, t: Ctv, txid: Hash32, vout: U32, i: nat)
    requires SpendingChain(sha, t, txid, vout).Ok?
    requires i < |SpendingChain(sha, t, txid, vout).value|
    requires i < ChainDepth(t) && |Nested(t, i).sequences| == 1
    ensures TemplateHash(sha, Nested(t, i)).Ok?
    ensures Util.DefaultCtvHash(sha, SpendingChain(sha, t, txid, vout).value[i], 0) == TemplateHash(sha, Nested(t, i)).value
  {
    SpendingChainAt(sha, t, txid, vout, i);
    var n := Nested(t, i);
    AsTxSpec(sha, n);
    var spend := SpendingChain(sha, t, txid, vout).value[i];
    var shape := AsTx(sha, n).value;
    Util.CtvHashIgnoresOutpointsAndWitnesses(sha, spend, shape, 0);
  }

  /**
   * Consecutive transactions fit together: each later transaction spends
   * output 0 of the one before, that output's P2WSH program is the hash of
   * the witness script the later transaction supplies, and when the later
   * template has one sequence that script commits to the later transaction
   * itself, so its OP_CHECKTEMPLATEVERIFY check is met.
   */
  lemma SpendingChainLinks(sha: Sha256, t: Ctv, txid: Hash32, vout: U32, i: nat)
    requires SpendingChain(sha, t, txid, vout).Ok?
    requires 0 < i < |SpendingChain(sha, t, txid, vout).value|
    ensures var chain := SpendingChain(sha, t, txid, vout).value;
            && |chain[i].input| == 1 && |chain[i].input[0].witnessStack| == 1
            && chain[i].input[0].previousOutput == OutPoint(Txid(sha, chain[i - 1]), 0)
            && |chain[i - 1].output| > 0
            && chain[i - 1].output[0].scriptPubKey == Addresses.P2wshScriptPubKey(sha, chain[i].input[0].witnessStack[0])
    ensures i < ChainDepth(t)
    ensures |Nested(t, i).sequences| == 1 ==>
              var chain := SpendingChain(sha, t, txid, vout).value;
              chain[i].input[0].witnessStack == [LockingScript(Util.DefaultCtvHash(sha, chain[i], 0))]
  {
    var chain := SpendingChain(sha, t, txid, vout).value;
    SpendingChainAt(sha, t, txid, vout, i);
    SpendingChainAt(sha, t, txid, vout, i - 1);
    var prev := Nested(t, i - 1);
    assert Nested(t, i) == Nested(prev, 1) by { NestedStep(t, i - 1); }
    ConvertOutputsSpec(sha, prev.outputs, prev.network);
    AsTxOutTree(sha, Nested(t, i), prev.outputs[0].amount, prev.network);
    if |Nested(t, i).sequences| == 1 {
      SpendingChainSelfCommitment(sha, t, txid, vout, i);
    }
  }

  lemma {:induction false} NestedStep(t: Ctv, i: nat)
    requires i + 1 < ChainDepth(t)
    ensures |Nested(t, i).outputs| > 0 && Nested(t, i).outputs[0].Tree?
    ensures 1 < ChainDepth(Nested(t, i))
    ensures Nested(t, i + 1) == Nested(Nested(t, i), 1) == Nested(t, i).outputs[0].tree
    decreases i
  {
    if i > 0 {
      NestedStep(t.outputs[0].tree, i - 1);
    }
  }
}
