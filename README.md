# CTV templates and the hot/cold vault script, in Dafny

This is a model of the core of `cdv` (src/ctv.rs). The core covers four things:

- **The commitment.** It computes the BIP-119 `DefaultCheckTemplateVerifyHash` of a transaction (`util::ctv` and its helpers).
- **The template.** A transaction template (`Ctv`) has outputs (`Output`), and a `Tree` output can itself hold a nested template. The core converts the template into a transaction skeleton (`as_tx`, `txouts`, `as_txout`) and computes its commitment (`ctv`).
- **The spending chain.** It expands a template into the chain of concrete transactions that spend it (`spending_tx`, `witness`).
- **The scripts.** It builds the bare commitment script `<hash> OP_NOP4` and its P2WSH address (`locking_script`, `locking_address`), plus the two-branch hot/cold vault script (`vault_locking_script`).

Modules, one file each:

- `Bytes`: fixed-width integers, little-endian words and CompactSize.
- `Errors`: the error cases and `Result`.
- `Script`: script instructions, assembly and disassembly, and script numbers.
- `Tx`: transactions and their consensus encoding.
- `Util`: the commitment preimage and the buffer-building methods.
- `Addresses`: networks and P2WSH.
- `Segwit`: `locking_address` and `locking_script`.
- `Template`: `Ctv`, `Output`, `as_txout`, `as_tx`, `ctv`, `txouts` and `witness`.
- `Spending`: `spending_tx`.
- `Timelock`: OP_CHECKSEQUENCEVERIFY as BIP-112 defines it.
- `VaultScript`: `vault_locking_script`.

SHA-256 is a parameter `sha` of every operation that hashes, so nothing proved here depends on the hash's internals. The txid is `sha(sha(encoding without witness))`.

In the code, the pure parts are functions: the template conversions, the preimage and the chain. The parts the source writes step by step are methods proved equal to those functions:

- the cursor buffers of `util::ctv`, `scriptsigs`, `sequences` and `outputs`;
- the vector that `spending_tx` pushes into and extends;
- the clone-and-overwrite in `vault_locking_script`.

## Model

| member | source | states |
|---|---|---|
| Bytes.LERoundTrip | src/ctv.rs:146-147 | A fixed-width little-endian word, as written for the locktime, the counts and the index, reads back as the number written, provided that number fits the width. |
| Bytes.LEInjective | src/ctv.rs:151-159 | Distinct numbers that fit the width have distinct little-endian encodings. |
| Bytes.EncodeI32Injective | src/ctv.rs:146 | The 4-byte two's-complement encoding of the version determines the version. |
| Bytes.CompactSizeRoundTrip | src/ctv.rs:173 | The CompactSize length prefix written before each scriptSig reads back exactly, whatever follows it. |
| Script.AssembleRoundTrip | src/ctv.rs:239-242 | Disassembling what the script builder produces gives back exactly the pushes and opcodes that went in. |
| Script.AssembleInjective | src/ctv.rs:269-280 | Different instruction lists build different scripts. |
| Script.AssembleConcat | src/ctv.rs:239-242 | A script built in two parts is the first part's bytes followed by the second part's. |
| Script.WriteScriptIntRoundTrip | src/ctv.rs:271 | The minimal script-number bytes that `push_int` writes for a number above 16 are read by the interpreter as that number. |
| Script.PushInt | src/ctv.rs:271 | Pushing a 32-bit number always yields a well-formed instruction (an opcode above the push range, or a push below the size limit). |
| Script.PushIntValue | src/ctv.rs:271 | `push_sequence(Sequence::from_height(delay))` leaves exactly the number `delay` on the stack. |
| Tx.Txid | src/ctv.rs:67 | `tx.txid()`: double SHA-256 of the transaction's encoding without witnesses (version, inputs, outputs, locktime). `TxidIgnoresWitnesses` carries its property. |
| Tx.TxidIgnoresWitnesses | src/ctv.rs:67 | Transactions that differ only in their inputs' witness stacks have the same txid, so the txid a spend links to does not depend on the witness it carries. |
| Tx.ScriptRoundTrip | src/ctv.rs:173 | A CompactSize-prefixed script decodes back to that script, whatever follows it. |
| Tx.TxOutRoundTrip | src/ctv.rs:198 | An encoded output (8-byte value, then the prefixed script) decodes back to that output. |
| Tx.TxOutsRoundTrip | src/ctv.rs:193-203 | The concatenated output encodings that `outputs` hashes decode back to the outputs, in order. |
| Tx.ScriptSigsRoundTrip | src/ctv.rs:164-179 | The concatenated scriptSig encodings that `scriptsigs` hashes decode back to every input's scriptSig, in order. |
| Tx.SequencesRoundTrip | src/ctv.rs:181-191 | The concatenated 4-byte sequences that `sequences` hashes decode back to every input's sequence, in order. |
| Util.Ctv | src/ctv.rs:144-162 | The buffer written field by field hashes to the BIP-119 commitment of the transaction at the given input. |
| Util.ScriptSigsHash | src/ctv.rs:164-179 | The result is None exactly when every scriptSig is empty. Otherwise it is the hash of all the prefixed scriptSigs in input order. |
| Util.SequencesHash | src/ctv.rs:181-191 | The result is the hash of every input's 4-byte sequence, in input order. |
| Util.OutputsHash | src/ctv.rs:193-203 | The result is the hash of every output's consensus encoding, in output order. |
| Util.CtvPreimageLayout | src/ctv.rs:144-162 | Fields sit at fixed offsets: version, locktime, the optional scriptSig hash, the input count as u32, the sequences hash, the output count as u32, the outputs hash, the index. |
| Util.CtvPreimageLength | src/ctv.rs:148-150 | The preimage is 84 bytes exactly when every scriptSig is empty, and 116 bytes exactly when some scriptSig is not. |
| Util.CtvPreimageBindsFields | src/ctv.rs:144-162 | Equal preimages mean equal version, locktime, scriptSig presence, input and output counts (mod 2^32) and index. |
| Util.CtvPreimageOutsideOutputs | src/ctv.rs:155-159 | Transactions that differ only in their outputs, with the same output count, have preimages that differ only in the 32-byte outputs hash. |
| Util.CtvHashIgnoresOutpointsAndWitnesses | src/ctv.rs:144-162 | Transactions that differ only in the inputs' previous outputs and witnesses have the same commitment. |
| Addresses.P2wshScriptPubKey | src/ctv.rs:129-130 | The P2WSH output script is OP_0 followed by a push of SHA-256 of the witness script, and it disassembles to exactly those two pushes. |
| Segwit.LockingAddress | src/ctv.rs:233-235 | The address is on the given network, and its script is the P2WSH script of the given script. |
| Segwit.LockingScript | src/ctv.rs:237-243 | The hash must be 32 bytes. The script is then 34 bytes: a 32-byte push of the hash followed by OP_NOP4, and it disassembles to exactly that. |
| Segwit.LockingScriptInjective | src/ctv.rs:237-243 | Different commitments give different locking scripts. |
| Template.AsTxOut | src/ctv.rs:111-134 | `as_txout` turns an address, a data or a tree output into a transaction output. When it succeeds the value is the output's amount, and 0 for a data output. `AsTxOutAddress`, `AsTxOutData` and `AsTxOutTree` give each case in full, errors included. |
| Template.ConvertOutputs | src/ctv.rs:38-42 | Maps `as_txout` over the outputs and collects the first error. On success there is one output per template output; `ConvertOutputsSpec` gives the order and the error. |
| Template.AsTxOutAddress | src/ctv.rs:113-116 | An address output converts exactly when its network is the template's. It then pays its amount to the address's script. Otherwise it fails with InvalidAddressForNetwork. |
| Template.AsTxOutData | src/ctv.rs:117-124 | A data output converts exactly when the data fits one push. It then yields value 0 and a script that disassembles to OP_RETURN followed by one push of the data. Otherwise it fails with DataTooLarge. |
| Template.AsTxOutTree | src/ctv.rs:125-132 | A tree output converts exactly when its nested template hashes, and otherwise fails with that template's error. It pays its amount to the P2WSH of `<nested ctv> OP_NOP4`. |
| Template.ConvertOutputsSpec | src/ctv.rs:75-80 | Conversion succeeds exactly when every output converts. It then gives one output per template output, in order. Otherwise it fails with the error of the first output that fails. |
| Template.AsTx | src/ctv.rs:29-49 | `as_tx` builds the template's transaction. On success it has the template's version and locktime, one input per sequence and one output per template output. `AsTxSpec` gives its inputs, outputs and error. |
| Template.AsTxSpec | src/ctv.rs:29-49 | `as_tx` copies version and locktime and makes one default input per sequence, in order. It makes one output per template output, in order. It fails with no transaction when any output fails. |
| Template.TxOuts | src/ctv.rs:75-80 | `txouts()` converts the template's outputs. On success it gives one output per template output; `ConvertOutputsSpec` and `AsTxSpec` tie it to `as_tx`'s outputs and error. |
| Template.TemplateHash | src/ctv.rs:82-84 | `ctv()` is the commitment of `as_tx()`'s transaction at input 0, or `as_tx`'s error. `TemplatePreimageLength` and `SpendingChainSelfCommitment` state what it commits to. |
| Template.Witness | src/ctv.rs:86-91 | `witness()` has exactly one item, 34 bytes long: the locking script `<ctv()> OP_NOP4`. It fails when `ctv()` fails. |
| Template.TemplatePreimageLength | src/ctv.rs:29-37 | A template's commitment preimage is always 84 bytes, because `as_tx` gives every input an empty scriptSig. |
| Spending.SpendingChain | src/ctv.rs:51-73 | The chain `spending_tx` returns. On success it has one transaction per template along output 0, each with exactly one input. `SpendingChainShape`, `SpendingChainAt` and `SpendingChainLinks` give its error cases, contents and links. |
| Spending.SpendingTx | src/ctv.rs:51-73 | The vector built by push and extend is the chain of `SpendingChain`, or that chain's error. |
| Spending.SpendingChainShape | src/ctv.rs:51-73 | With no sequence the result is MissingSequence. The chain exists exactly when every template along output 0 has a sequence and converts. Its length is the number of such templates, and trees at later outputs are never expanded. |
| Spending.SpendingChainAt | src/ctv.rs:53-66 | Transaction i takes version and locktime from the i-th nested template and has one input. That input spends (txid, vout) for i = 0, otherwise (txid of transaction i-1, 0). It carries sequence[0], an empty scriptSig and the witness `[locking_script(ctv())]`, and the outputs are `txouts()`. |
| Spending.SpendingChainSelfCommitment | src/ctv.rs:82-91 | When that template has exactly one sequence, transaction i, hashed at input 0, equals that template's `ctv()`. |
| Spending.SpendingChainLinks | src/ctv.rs:67-71 | Each later transaction spends output 0 of the one before. That output's script is the P2WSH of the witness script the later transaction carries. With one sequence, that script commits to the later transaction itself. |
| Timelock.CsvRejectsVersionOne | src/ctv.rs:270-272 | OP_CHECKSEQUENCEVERIFY with a non-disabled operand fails every version-1 transaction (BIP-112). |
| Timelock.CsvHeightLock | src/ctv.rs:270-272 | For a block-height operand and a transaction of version 2 or more, CSV passes exactly when the input's sequence is at least the operand. |
| VaultScript.VaultLockingScript | src/ctv.rs:245-281 | `vault_locking_script` succeeds exactly when both the cold and the hot address are on the vault's network. Otherwise it fails with InvalidAddressForNetwork. `VaultLockingScriptSpec` and `VaultInstructionsLayout` give the script. |
| VaultScript.BuildVaultLockingScript | src/ctv.rs:245-281 | Building the cold template, then cloning it and overwriting output 0 with the hot address, gives the script `VaultLockingScript` describes. |
| VaultScript.VaultTemplateSpec | src/ctv.rs:252-261 | A branch template hashes exactly when its address is on the network, and otherwise fails with InvalidAddressForNetwork. Its transaction is version 1, locktime 0, one input of sequence 0, and one output of `amount - 600`, so output plus fee is the amount. |
| VaultScript.VaultInstructionsLayout | src/ctv.rs:269-280 | The script has ten instructions. OP_IF, OP_ELSE and OP_ENDIF occur once each, at 0, 6 and 9. OP_CSV occurs only at 2, after the push of `delay`. The IF branch commits to the hot hash, the ELSE branch to the cold hash. |
| VaultScript.VaultLockingScriptSpec | src/ctv.rs:245-281 | The script is built exactly when both addresses are on the network, and otherwise fails with InvalidAddressForNetwork. It then disassembles to exactly the two-branch list over the hot and cold commitments. |
| VaultScript.VaultTemplatesDifferOnlyInAddress | src/ctv.rs:263-267 | The hot and cold commitment preimages agree on every byte except the 32-byte outputs hash. |
| VaultScript.HotSpendFailsCsv | src/ctv.rs:263-272 | The spend `spending_tx` builds for the hot template meets the hot commitment. But it is version 1, so the IF branch's CSV rejects it for every delay. |
| VaultScript.HotCommitmentForbidsCsv | src/ctv.rs:263-272 | Every transaction whose preimage is the hot template's is version 1, so none of its inputs passes the IF branch's CSV. |
| VaultScript.CorrectedHotSpendPassesCsv | src/ctv.rs:263-272 | Here the hot template is version 2 with sequence `delay`. The spend built for it matches the hash the corrected IF branch pushes, and passes its CSV, for every delay. |

## Left out

- `colorize` (src/ctv.rs:212-219) is a regex-based HTML display helper and is not modelled.
- The test against the official BIP-119 vectors (src/ctv.rs:292-321) needs real SHA-256 and a data file that is not part of this model.
- src/server/vaults.rs and the `crate::vault::Vault` type it uses are not part of this model. They hold the HTTP handlers and presentation code.
- Serde (de)serialisation of `Ctv` and `Output` is not modelled.
- `util::sha256` (src/ctv.rs:205-209) is the `sha` parameter itself, left uninterpreted.
- Address parsing and textual encoding are not modelled. An address is reduced to its network and its output script.
- `require_network` is modelled as "the address's network equals the template's network". Mutually compatible networks, such as testnet and signet sharing an encoding, are not modelled.
- A `Data` output's string is modelled directly as its UTF-8 bytes.
- The `PushBytesBuf` limit is modelled as a length below 2^32.
- Writing into an in-memory `Cursor` cannot fail, so the `unwrap`s on `consensus_encode` are modelled as total.
- `locking_script`'s `unwrap` on a non-32-byte hash becomes the precondition `|tmplhash| == 32`. Every `ctv()` result meets it.
- `vault_locking_script` subtracts 600 satoshis with `Amount`'s `-`, which panics below 600. That panic is the precondition `amount >= 600`.
- `vault_locking_script` accepts an amount of exactly 600 and then pays a zero-value output. Below 600 the `Amount` subtraction panics (src/ctv.rs:259), which is the precondition `amount >= 600`.
- The script interpreter is not modelled. OP_CHECKSEQUENCEVERIFY is a predicate over the transaction version, the input's sequence and the number pushed before it. OP_IF's selection of a branch and OP_NOP4's template check are read off the instruction list.
- VaultScript.VaultTemplatesDifferOnlyInAddress: states that the two preimages agree outside the outputs hash, not that the two commitments differ. With SHA-256 uninterpreted, distinct addresses cannot be shown to give distinct hashes.
- VaultScript.HotCommitmentForbidsCsv: is stated for transactions with the same preimage as the hot template rather than the same hash, for the same reason.
- Spending.SpendingChainSelfCommitment: holds for templates with exactly one sequence. With more sequences, the spend has one input while the template has several, so the commitments differ, as they do in the source.

## Findings

| source | as written | input that shows it | evidently intended | confidence | as-written member | corrected member |
|---|---|---|---|---|---|---|
| src/ctv.rs:263-272 | `hot_ctv` is a clone of `cold_ctv`, so it has version 1 and sequence 0. Yet the IF branch that commits to it first runs `<delay> OP_CHECKSEQUENCEVERIFY`. | Any delay (0 included), with cold and hot addresses on the vault's network. The only transactions meeting the hot commitment are version 1, and BIP-112 fails CSV for a version below 2, so the hot branch can never be spent. | The hot template is version 2 and its input's sequence is `Sequence::from_height(delay)`. The timelocked withdrawal the vault describes is then spendable after `delay` blocks. | high; not executed | VaultScript.HotSpendFailsCsv | VaultScript.CorrectedHotSpendPassesCsv |
