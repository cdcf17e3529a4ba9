/**
 * The two helpers of the `segwit` module of src/ctv.rs that the templates
 * depend on: the bare commitment script and its P2WSH address. The vault
 * script, which depends on the templates, is in module VaultScript.
 */
module Segwit {
  import opened Bytes
  import opened Script
  import opened Addresses

  /** `segwit::locking_address`: the P2WSH address of `script` on `network`. */
  function LockingAddress(sha: Sha256, script: seq<Byte>, network: Network): (a: Address)
    ensures a.network == network
    ensures a.scriptPubKey == [OP_0, 32] + sha(script)
  {
    P2wsh(sha, script, network)
  }

  /**
   * `segwit::locking_script`: `<tmplhash> OP_NOP4`. The source unwraps the
   * conversion to a 32-byte array, so a hash of any other length panics.
   */
  function LockingScript(tmplhash: seq<Byte>): (r: seq<Byte>)
    requires |tmplhash| == 32
    ensures |r| == 34
    ensures r == [32] + tmplhash + [OP_NOP4]
    ensures Disassemble(r) == Some([Push(tmplhash), Op(OP_NOP4)])
  {
    var s := [Push(tmplhash), Op(OP_NOP4)];
    AssembleRoundTrip(s);
    assert s == [Push(tmplhash)] + [Op(OP_NOP4)];
    AssembleConcat([Push(tmplhash)], [Op(OP_NOP4)]);
    AssembleSingle(Push(tmplhash));
    AssembleSingle(Op(OP_NOP4));
    Assemble(s)
  }

  /** Different commitments give different scripts. */
  lemma LockingScriptInjective(h1: seq<Byte>, h2: seq<Byte>)
    requires |h1| == 32 && |h2| == 32
    requires LockingScript(h1) == LockingScript(h2)
    ensures h1 == h2
  {
    assert h1 == LockingScript(h1)[1..33];
    assert h2 == LockingScript(h2)[1..33];
  }
}
