/**
 * `segwit::vault_locking_script`: the two-branch hot/cold vault script.
 * The IF branch waits `delay` blocks (OP_CHECKSEQUENCEVERIFY) and then
 * commits to a template paying the hot address; the ELSE branch commits at
 * once to a template paying the cold address. Each template pays the vault
 * amount less a fixed 600-satoshi fee.
 */
module VaultScript {
  import opened Bytes
  import opened Errors
  import opened Tx
  import opened Script
  import opened Template
  import opened Timelock
  import Addresses
  import Util
  import Spending

  /** The fee each branch's template leaves to miners, in satoshis. */
  const Fee: nat := 600

  /**
   * `cold_ctv` of `vault_locking_script`, and with `dest` the hot address,
   * `hot_ctv`: version 1, locktime 0, one input of sequence 0, one output
   * paying `amount - 600` to `dest`. The source's `Amount` subtraction
   * panics below 600.
   */
  function VaultTemplate(dest: Addresses.Address, network: Addresses.Network, amount: U64): Ctv
    requires amount >= Fee
  {
    Ctv(network, 1, 0, [0], [Output.Address(dest, amount - Fee)])
  }

  /**
   * `OP_IF <delay> OP_CSV OP_DROP <hot> OP_NOP4 OP_ELSE <cold> OP_NOP4 OP_ENDIF`.
   * `push_sequence(Sequence::from_height(delay))` pushes the number `delay`.
   */
  function VaultInstructions(delay: U16, hotHash: Hash32, coldHash: Hash32): seq<Instruction>
  {
    [Op(OP_IF), PushInt(delay), Op(OP_CSV), Op(OP_DROP), Push(hotHash), Op(OP_NOP4),
     Op(OP_ELSE), Push(coldHash), Op(OP_NOP4), Op(OP_ENDIF)]
  }

  /**
   * Hashes the cold template, then the hot one, and assembles the script
   * behind them. Turning a 32-byte hash into a push cannot fail.
   */
  function BranchScript(sha: Sha256, delay: U16, hotCtv: Ctv, coldCtv: Ctv): Result<seq<Byte>>
  {
    match TemplateHash(sha, coldCtv)
    case Err(e) => Err(e)
    case Ok(coldHash) =>
      match TemplateHash(sha, hotCtv)
      case Err(e) => Err(e)
      case Ok(hotHash) => Ok(Assemble(VaultInstructions(delay, hotHash, coldHash)))
  }

  /** The script `vault_locking_script(delay, cold, hot, network, amount)` returns. */
  function VaultLockingScript(sha: Sha256, delay: U16, cold: Addresses.Address, hot: Addresses.Address,
                              network: Addresses.Network, amount: U64): (r: Result<seq<Byte>>)
    requires amount >= Fee
    ensures r.Ok? <==> cold.network == network && hot.network == network
    ensures r.Err? ==> r.error == InvalidAddressForNetwork
  {
    VaultTemplateSpec(sha, cold, network, amount);
    VaultTemplateSpec(sha, hot, network, amount);
    BranchScript(sha, delay, VaultTemplate(hot, network, amount), VaultTemplate(cold, network, amount))
  }

  /**
   * `vault_locking_script` step by step: build the cold template, clone it
   * and overwrite output 0 of the clone with the hot address to get the hot
   * template, hash both, assemble.
   */
  method BuildVaultLockingScript(sha: Sha256, delay: U16, cold: Addresses.Address, hot: Addresses.Address,
                                 network: Addresses.Network, amount: U64) returns (r: Result<seq<Byte>>)
    requires amount >= Fee
    ensures r == VaultLockingScript(sha, delay, cold, hot, network, amount)
  {
    var coldCtv := VaultTemplate(cold, network, amount);
    var coldHash := TemplateHash(sha, coldCtv);
    if coldHash.Err? {
      return Err(coldHash.error);
    }
    var hotCtv := coldCtv;
    hotCtv := hotCtv.(outputs := hotCtv.outputs[0 := Output.Address(hot, amount - Fee)]);
    assert hotCtv == VaultTemplate(hot, network, amount);
    var hotHash := TemplateHash(sha, hotCtv);
    if hotHash.Err? {
      return Err(hotHash.error);
    }
    r := Ok(Assemble(VaultInstructions(delay, hotHash.value, coldHash.value)));
  }

  // ----- what the vault script promises -----

  /**
   * Fee accounting: a branch template converts exactly when its address is
   * on the vault's network, and then its transaction is version 1, locktime
   * 0, one input of sequence 0, and one output paying the destination's
   * script `amount - 600`, so that output plus the fee is the vault amount.
   */
  lemma VaultTemplateSpec(sha: Sha256, dest: Addresses.Address, network: Addresses.Network, amount: U64)
    requires amount >= Fee
    ensures TemplateHash(sha, VaultTemplate(dest, network, amount)).Ok? <==> dest.network == network
    ensures TemplateHash(sha, VaultTemplate(dest, network, amount)).Err? ==>
              TemplateHash(sha, VaultTemplate(dest, network, amount)).error == InvalidAddressForNetwork
    ensures dest.network == network ==>
              var tx := AsTx(sha, VaultTemplate(dest, network, amount)).value;
              && AsTx(sha, VaultTemplate(dest, network, amount)).Ok?
              && tx.version == 1 && tx.lockTime == 0
              && tx.input == [TxIn(NullOutPoint(), [], 0, [])]
              && tx.output == [TxOut(amount - Fee, dest.scriptPubKey)]
              && tx.output[0].value + Fee == amount
  {
    var t := VaultTemplate(dest, network, amount);
    TemplateHashSpec(sha, t);
    AsTxSpec(sha, t);
    AsTxOutAddress(sha, dest, amount - Fee, network);
  }

  /** `x` occurs in `s` at index `j` and nowhere else. */
  predicate OnlyAt(s: seq<Instruction>, x: Instruction, j: nat)
  {
    forall k :: 0 <= k < |s| ==> (s[k] == x <==> k == j)
  }

  /**
   * The script's shape: ten instructions; OP_IF, OP_ELSE and OP_ENDIF each
   * occur once, at 0, 6 and 9; OP_CSV occurs once, at 2, inside the IF
   * branch, right after a push of the number `delay` and before OP_DROP;
   * the IF branch then commits to the hot hash and the ELSE branch to the
   * cold hash.
   */
  lemma VaultInstructionsLayout(delay: U16, hotHash: Hash32, coldHash: Hash32)
    ensures var s := VaultInstructions(delay, hotHash, coldHash);
            && |s| == 10 && AllValid(s)
            && OnlyAt(s, Op(OP_IF), 0) && OnlyAt(s, Op(OP_ELSE), 6) && OnlyAt(s, Op(OP_ENDIF), 9)
            && OnlyAt(s, Op(OP_CSV), 2)
            && PushedNumber(s[1]) == Some(delay as int)
            && s[3] == Op(OP_DROP)
            && s[4] == Push(hotHash) && s[5] == Op(OP_NOP4)
            && s[7] == Push(coldHash) && s[8] == Op(OP_NOP4)
  {
    PushIntValue(delay);
    var s := VaultInstructions(delay, hotHash, coldHash);
    var p := PushInt(delay);
    assert p.Push? || 0x51 <= p.code <= 0x60;
    assert p != Op(OP_IF) && p != Op(OP_ELSE) && p != Op(OP_ENDIF) && p != Op(OP_CSV);
    forall k | 0 <= k < |s|
      ensures (s[k] == Op(OP_IF) <==> k == 0) && (s[k] == Op(OP_ELSE) <==> k == 6)
      ensures (s[k] == Op(OP_ENDIF) <==> k == 9) && (s[k] == Op(OP_CSV) <==> k == 2)
    {
      if k == 0 { assert s[k] == Op(OP_IF); }
      else if k == 1 { assert s[k] == p; }
      else if k == 2 { assert s[k] == Op(OP_CSV); }
      else if k == 3 { assert s[k] == Op(OP_DROP); }
      else if k == 4 { assert s[k] == Push(hotHash); }
      else if k == 5 { assert s[k] == Op(OP_NOP4); }
      else if k == 6 { assert s[k] == Op(OP_ELSE); }
      else if k == 7 { assert s[k] == Push(coldHash); }
      else if k == 8 { assert s[k] == Op(OP_NOP4); }
      else { assert s[k] == Op(OP_ENDIF); }
    }
  }

  /**
   * `vault_locking_script` succeeds exactly when both addresses are on the
   * vault's network (failing with InvalidAddressForNetwork otherwise), and
   * its script then disassembles to exactly the two-branch instruction list
   * over the hot and cold templates' commitments.
   */
  lemma VaultLockingScriptSpec(sha: Sha256, delay: U16, cold: Addresses.Address, hot: Addresses.Address,
                               network: Addresses.Network, amount: U64)
    requires amount >= Fee
    ensures VaultLockingScript(sha, delay, cold, hot, network, amount).Ok? <==>
              cold.network == network && hot.network == network
    ensures VaultLockingScript(sha, delay, cold, hot, network, amount).Err? ==>
              VaultLockingScript(sha, delay, cold, hot, network, amount).error == InvalidAddressForNetwork
    ensures VaultLockingScript(sha, delay, cold, hot, network, amount).Ok? ==>
              Disassemble(VaultLockingScript(sha, delay, cold, hot, network, amount).value) ==
                Some(VaultInstructions(delay, TemplateHash(sha, VaultTemplate(hot, network, amount)).value,
                                       TemplateHash(sha, VaultTemplate(cold, network, amount)).value))
  {
    VaultTemplateSpec(sha, cold, network, amount);
    VaultTemplateSpec(sha, hot, network, amount);
    if cold.network == network && hot.network == network {
      VaultInstructionsLayout(delay, TemplateHash(sha, VaultTemplate(hot, network, amount)).value,
                              TemplateHash(sha, VaultTemplate(cold, network, amount)).value);
      AssembleRoundTrip(VaultInstructions(delay, TemplateHash(sha, VaultTemplate(hot, network, amount)).value,
                                          TemplateHash(sha, VaultTemplate(cold, network, amount)).value));
    }
  }

  /**
   * The hot and cold templates differ only in the output address: their
   * commitment preimages agree on every byte except the 32-byte hash of
   * the outputs, and when the two addresses have different scripts the
   * output bytes hashed into that segment differ. Whether the two
   * commitments differ is then a question about SHA-256 alone.
   */
  lemma VaultTemplatesDifferOnlyInAddress(sha: Sha256, cold: Addresses.Address, hot: Addresses.Address,
                                          network: Addresses.Network, amount: U64)
    requires amount >= Fee
    requires cold.network == network && hot.network == network
    ensures AsTx(sha, VaultTemplate(cold, network, amount)).Ok? && AsTx(sha, VaultTemplate(hot, network, amount)).Ok?
    ensures var pc := Util.CtvPreimage(sha, AsTx(sha, VaultTemplate(cold, network, amount)).value, 0);
            var ph := Util.CtvPreimage(sha, AsTx(sha, VaultTemplate(hot, network, amount)).value, 0);
            && |pc| == |ph| == 84
            && pc[..48] == ph[..48] && pc[80..] == ph[80..]
    ensures WellFormedScript(cold.scriptPubKey) && WellFormedScript(hot.scriptPubKey)
            && cold.scriptPubKey != hot.scriptPubKey ==>
              ConcatMap(AsTx(sha, VaultTemplate(cold, network, amount)).value.output, EncodeTxOut)
              != ConcatMap(AsTx(sha, VaultTemplate(hot, network, amount)).value.output, EncodeTxOut)
  {
    VaultTemplateSpec(sha, cold, network, amount);
    VaultTemplateSpec(sha, hot, network, amount);
    var tc := AsTx(sha, VaultTemplate(cold, network, amount)).value;
    var th := AsTx(sha, VaultTemplate(hot, network, amount)).value;
    assert Util.AllScriptSigsEmpty(tc.input);
    Util.CtvPreimageOutsideOutputs(sha, tc, th, 0);
    if WellFormedScript(cold.scriptPubKey) && WellFormedScript(hot.scriptPubKey) {
      TxOutsRoundTrip(tc.output);
      TxOutsRoundTrip(th.output);
      if ConcatMap(tc.output, EncodeTxOut) == ConcatMap(th.output, EncodeTxOut) {
        assert tc.output == th.output;
        assert cold.scriptPubKey == tc.output[0].scriptPubKey == th.output[0].scriptPubKey == hot.scriptPubKey;
      }
    }
  }

  // ----- the hot branch as written can never be taken -----

  /**
   * The transaction `spending_tx` builds for the hot template meets the
   * branch's template commitment, but is version 1, so the branch's
   * OP_CHECKSEQUENCEVERIFY rejects it whatever `delay` is.
   */
  lemma HotSpendFailsCsv(sha: Sha256, delay: U16, hot: Addresses.Address, network: Addresses.Network,
                         amount: U64, txid: Hash32, vout: U32)
    requires amount >= Fee && hot.network == network
    ensures var chain := Spending.SpendingChain(sha, VaultTemplate(hot, network, amount), txid, vout);
            && chain.Ok? && |chain.value| == 1 && |chain.value[0].input| == 1
            && TemplateHash(sha, VaultTemplate(hot, network, amount)).Ok?
            && Util.DefaultCtvHash(sha, chain.value[0], 0) == TemplateHash(sha, VaultTemplate(hot, network, amount)).value
            && chain.value[0].version == 1
            && !CsvAccepts(chain.value[0].version, chain.value[0].input[0].sequence, delay)
  {
    var t := VaultTemplate(hot, network, amount);
    VaultTemplateSpec(sha, hot, network, amount);
    assert Spending.ChainDepth(t) == 1 && Spending.Nested(t, 0) == t;
    Spending.SpendingChainShape(sha, t, txid, vout);
    Spending.SpendingChainAt(sha, t, txid, vout, 0);
    Spending.SpendingChainSelfCommitment(sha, t, txid, vout, 0);
    var tx := Spending.SpendingChain(sha, t, txid, vout).value[0];
    CsvRejectsVersionOne(tx.input[0].sequence, delay);
  }

  /**
   * Not only that transaction: any transaction whose commitment preimage is
   * the hot template's, at whatever input, is version 1, so no input of it
   * passes the hot branch's OP_CHECKSEQUENCEVERIFY.
   */
  lemma HotCommitmentForbidsCsv(sha: Sha256, delay: U16, hot: Addresses.Address, network: Addresses.Network,
                                amount: U64, tx: Transaction, index: U32)
    requires amount >= Fee && hot.network == network
    requires AsTx(sha, VaultTemplate(hot, network, amount)).Ok?
    requires Util.CtvPreimage(sha, tx, index) == Util.CtvPreimage(sha, AsTx(sha, VaultTemplate(hot, network, amount)).value, 0)
    ensures tx.version == 1
    ensures forall k :: 0 <= k < |tx.input| ==> !CsvAccepts(tx.version, tx.input[k].sequence, delay)
  {
    VaultTemplateSpec(sha, hot, network, amount);
    Util.CtvPreimageBindsFields(sha, tx, index, AsTx(sha, VaultTemplate(hot, network, amount)).value, 0);
    forall k | 0 <= k < |tx.input|
      ensures !CsvAccepts(tx.version, tx.input[k].sequence, delay)
    {
      CsvRejectsVersionOne(tx.input[k].sequence, delay);
    }
  }

  // ----- a hot template whose CSV branch can be met -----

  /**
   * The hot template a relative timelock of `delay` blocks needs: version 2,
   * so that BIP-68 sequence locks apply, and input sequence
   * `Sequence::from_height(delay)`; otherwise as `VaultTemplate`.
   */
  function HotTemplate(dest: Addresses.Address, network: Addresses.Network, amount: U64, delay: U16): Ctv
    requires amount >= Fee
  {
    Ctv(network, 2, 0, [delay], [Output.Address(dest, amount - Fee)])
  }

  /** The vault script with the hot branch committing to `HotTemplate`. */
  function VaultLockingScriptCorrected(sha: Sha256, delay: U16, cold: Addresses.Address, hot: Addresses.Address,
                                       network: Addresses.Network, amount: U64): Result<seq<Byte>>
    requires amount >= Fee
  {
    BranchScript(sha, delay, HotTemplate(hot, network, amount, delay), VaultTemplate(cold, network, amount))
  }

  /**
   * With the corrected hot template the hot branch can be taken: the
   * corrected script has the same shape and cold branch, and the
   * transaction `spending_tx` builds for the hot template meets both the
   * hash the IF branch pushes and its OP_CHECKSEQUENCEVERIFY, whatever
   * `delay` is.
   */
  lemma CorrectedHotSpendPassesCsv(sha: Sha256, delay: U16, cold: Addresses.Address, hot: Addresses.Address,
                                   network: Addresses.Network, amount: U64, txid: Hash32, vout: U32)
    requires amount >= Fee && cold.network == network && hot.network == network
    ensures var script := VaultLockingScriptCorrected(sha, delay, cold, hot, network, amount);
            var chain := Spending.SpendingChain(sha, HotTemplate(hot, network, amount, delay), txid, vout);
            && script.Ok? && chain.Ok? && |chain.value| == 1 && |chain.value[0].input| == 1
            && Disassemble(script.value).Some?
            && Disassemble(script.value).value ==
                 VaultInstructions(delay, Util.DefaultCtvHash(sha, chain.value[0], 0),
                                   TemplateHash(sha, VaultTemplate(cold, network, amount)).value)
            && chain.value[0].version == 2
            && chain.value[0].input[0].sequence == delay
            && CsvAccepts(chain.value[0].version, chain.value[0].input[0].sequence, delay)
  {
    var t := HotTemplate(hot, network, amount, delay);
    VaultTemplateSpec(sha, cold, network, amount);
    TemplateHashSpec(sha, t);
    AsTxSpec(sha, t);
    AsTxOutAddress(sha, hot, amount - Fee, network);
    assert Spending.ChainDepth(t) == 1 && Spending.Nested(t, 0) == t;
    Spending.SpendingChainShape(sha, t, txid, vout);
    Spending.SpendingChainAt(sha, t, txid, vout, 0);
    Spending.SpendingChainSelfCommitment(sha, t, txid, vout, 0);
    var instructions := VaultInstructions(delay, TemplateHash(sha, t).value,
                                          TemplateHash(sha, VaultTemplate(cold, network, amount)).value);
    VaultInstructionsLayout(delay, TemplateHash(sha, t).value,
                            TemplateHash(sha, VaultTemplate(cold, network, amount)).value);
    AssembleRoundTrip(instructions);
    CsvHeightLock(2, delay, delay);
  }
}
