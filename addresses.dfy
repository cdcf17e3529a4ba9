/**
 * Addresses, abstracted to what the templates use: the network an address
 * belongs to and the output script it stands for. Parsing and the
 * textual encodings of addresses are not modelled.
 */
module Addresses {
  import opened Bytes
  import opened Errors
  import opened Script

  datatype Network = Bitcoin | Testnet | Signet | Regtest

  datatype Address = Address(network: Network, scriptPubKey: seq<Byte>)

  /** `Address::require_network`, taken to accept exactly the address's own network. */
  function RequireNetwork(a: Address, network: Network): Result<Address>
  {
    if a.network == network then Ok(a) else Err(InvalidAddressForNetwork)
  }

  /** The output script of `Address::p2wsh(script, _)`: OP_0 followed by a push of SHA-256(script). */
  function P2wshScriptPubKey(sha: Sha256, script: seq<Byte>): (r: seq<Byte>)
    ensures r == [OP_0, 32] + sha(script)
    ensures Disassemble(r) == Some([Push([]), Push(sha(script))])
  {
    var program := [Push([]), Push(sha(script))];
    AssembleRoundTrip(program);
    assert program == [Push([])] + [Push(sha(script))];
    AssembleConcat([Push([])], [Push(sha(script))]);
    AssembleSingle(Push([]));
    AssembleSingle(Push(sha(script)));
    Assemble(program)
  }

  /** `Address::p2wsh(script, network)`. */
  function P2wsh(sha: Sha256, script: seq<Byte>, network: Network): Address
  {
    Address(network, P2wshScriptPubKey(sha, script))
  }
}
