/**
 Signing a post-quantum transaction. The hash and the signature scheme are
 parameters; the only facts used are the hash length and the size checks of the
 wrapper around verification.
 */
module Signer {
  import opened Wrappers
  import opened Bytes
  import opened PqWire
  import opened SignatureMessage
  import opened Address

  type Hash = s: seq<Byte> | |s| == 32 witness [0, 0, 0, 0, 0, 0, 0, 0, 0, 0, 0, 0, 0, 0, 0, 0, 0, 0, 0, 0, 0, 0, 0, 0, 0, 0, 0, 0, 0, 0, 0, 0]

  /**
   `tagged` hashes a domain string followed by bytes. `sign` takes a message, a
   secret key and a context, and is None where it throws; `verify` takes a
   signature, a message, a public key and a context.
   */
  datatype Crypto = Crypto(
    sha256: seq<Byte> -> Hash,
    tagged: (string, seq<Byte>) -> Hash,
    sign: (seq<Byte>, seq<Byte>, string) -> Option<seq<Byte>>,
    verify: (seq<Byte>, seq<Byte>, seq<Byte>, string) -> bool)
  {
    function Sha256d(b: seq<Byte>): (h: seq<Byte>)
      ensures |h| == 32
    {
      sha256(sha256(b))
    }

    function TxidOf(raw: seq<Byte>): seq<Byte> {
      Reverse(Sha256d(raw))
    }

    predicate Verifies(signature: seq<Byte>, message: seq<Byte>, publicKey: seq<Byte>, context: string) {
      |signature| == SIGNATURE_SIZE && |publicKey| == PUBLIC_KEY_SIZE && verify(signature, message, publicKey, context)
    }
  }

  function AddressDomain(network: string): Option<string> {
    if network == "testnet" || network == "regtest" then Some("OLC/PQ/ML-DSA-44/" + network + "/address/v1") else None
  }

  function TxDomain(network: string): Option<string> {
    if network == "testnet" || network == "regtest" then Some("OLC/PQ/ML-DSA-44/" + network + "/tx/v1") else None
  }

  function IdFromPublicKey(c: Crypto, publicKey: seq<Byte>, network: string): Option<Hash> {
    if |publicKey| != PUBLIC_KEY_SIZE then None
    else
      match AddressDomain(network)
      case None => None
      case Some(domain) => Some(c.tagged(domain, publicKey))
  }

  function AddressFromPublicKey(c: Crypto, publicKey: seq<Byte>, network: string): Option<string> {
    match IdFromPublicKey(c, publicKey, network)
    case None => None
    case Some(id) => AddressFromId(id, network)
  }

  /** The output script belongs to the key. */
  predicate Binds(c: Crypto, script: seq<Byte>, publicKey: seq<Byte>, network: string) {
    && |script| == SCRIPT_SIZE && script[0] == 0xff && script[1] == 0x51 && script[2] == 0x20
    && IdFromPublicKey(c, publicKey, network) == Some(script[3..])
  }

  /** An input to be signed, with the output it spends and the keys of its owner. */
  datatype Spending = Spending(outpoint: Outpoint, prevout: Output, publicKey: seq<Byte>, secretKey: seq<Byte>)

  datatype Order = Order(
    network: string,
    genesis: seq<Byte>,
    mode: int,
    inputs: seq<Spending>,
    outputs: seq<Output>,
    locktime: int,
    data: seq<Byte>)

  function Outpoints(inputs: seq<Spending>): (r: seq<Outpoint>)
    ensures |r| == |inputs| && forall i :: 0 <= i < |r| ==> r[i] == inputs[i].outpoint
  {
    if inputs == [] then [] else [inputs[0].outpoint] + Outpoints(inputs[1..])
  }

  function Prevouts(inputs: seq<Spending>): (r: seq<Output>)
    ensures |r| == |inputs| && forall i :: 0 <= i < |r| ==> r[i] == inputs[i].prevout
  {
    if inputs == [] then [] else [inputs[0].prevout] + Prevouts(inputs[1..])
  }

  function PublicKeys(inputs: seq<Spending>): (r: seq<seq<Byte>>)
    ensures |r| == |inputs| && forall i :: 0 <= i < |r| ==> r[i] == inputs[i].publicKey
  {
    if inputs == [] then [] else [inputs[0].publicKey] + PublicKeys(inputs[1..])
  }

  /** What input `index` of the order signs. */
  function RequestOf(o: Order, index: int): Request {
    Request(o.genesis, o.mode, Outpoints(o.inputs), Prevouts(o.inputs), o.outputs, o.locktime, PublicKeys(o.inputs), o.data, index)
  }

  /** One input's authorization: None when signing throws or the result does not verify. */
  function Authorize(c: Crypto, o: Order, i: nat): Option<Authorization>
    requires i < |o.inputs|
  {
    var q := RequestOf(o, i);
    if !Signable(q) then None
    else
      match TxDomain(o.network)
      case None => None
      case Some(context) =>
        match c.sign(Message(q), o.inputs[i].secretKey, context)
        case None => None
        case Some(signature) =>
          if c.Verifies(signature, Message(q), o.inputs[i].publicKey, context)
          then Some(Authorization(o.inputs[i].publicKey, signature)) else None
  }

  function AuthorizeFrom(c: Crypto, o: Order, i: nat): (r: Option<seq<Authorization>>)
    requires i <= |o.inputs|
    ensures r.Some? ==> |r.value| == |o.inputs| - i
    ensures r.Some? ==> forall k :: i <= k < |o.inputs| ==> Authorize(c, o, k) == Some(r.value[k - i])
    decreases |o.inputs| - i
  {
    if i == |o.inputs| then Some([])
    else
      match Authorize(c, o, i)
      case None => None
      case Some(first) =>
        match AuthorizeFrom(c, o, i + 1)
        case None => None
        case Some(others) => Some([first] + others)
  }

  function Inputs(inputs: seq<Spending>): (r: seq<Input>)
    requires forall i :: 0 <= i < |inputs| ==> inputs[i].outpoint.vout >= 0 && inputs[i].outpoint.sequence >= 0
    ensures |r| == |inputs|
    ensures forall i :: 0 <= i < |r| ==>
      r[i] == Input(inputs[i].outpoint.txid, inputs[i].outpoint.vout, [], inputs[i].outpoint.sequence)
  {
    if inputs == [] then []
    else [Input(inputs[0].outpoint.txid, inputs[0].outpoint.vout, [], inputs[0].outpoint.sequence)] + Inputs(inputs[1..])
  }

  /** The checks before the first signature. */
  predicate Ready(c: Crypto, o: Order) {
    && TxDomain(o.network).Some?
    && 1 <= |o.inputs| <= MAX_INPUTS
    && 1 <= |o.outputs| <= (if o.mode == STAKE_MODE then 3 else MAX_OUTPUTS)
    && AllFit(Payable, o.outputs)
    && (forall i :: 0 <= i < |o.inputs| ==> Binds(c, o.inputs[i].prevout.script, o.inputs[i].publicKey, o.network))
  }

  /** `signPQTransaction`: None where it throws. */
  function SignTransaction(c: Crypto, o: Order): Option<Transaction>
    requires |o.data| <= MAX_SAFE
  {
    if !Ready(c, o) then None
    else
      match AuthorizeFrom(c, o, 0)
      case None => None
      case Some(authorizations) =>
        InputsFit(c, o, authorizations);
        var t := Transaction(Inputs(o.inputs), o.outputs, o.locktime, o.mode, authorizations, o.data);
        if Serialize(t).Some? then Some(t) else None
  }

  lemma InputsFit(c: Crypto, o: Order, authorizations: seq<Authorization>)
    requires Ready(c, o) && AuthorizeFrom(c, o, 0) == Some(authorizations)
    ensures Signable(RequestOf(o, 0))
    ensures forall i :: 0 <= i < |o.inputs| ==> FitsOutpoint(o.inputs[i].outpoint)
  {
    assert Authorize(c, o, 0).Some?;
    forall i | 0 <= i < |o.inputs| ensures FitsOutpoint(o.inputs[i].outpoint) {
      assert FitsOutpoint(RequestOf(o, 0).inputs[i]);
    }
  }

  /**
   A signed transaction pays exactly the ordered outputs from the ordered inputs,
   each input's signature verifies under the key its spent output is bound to,
   for the message of this very transaction, and the result serializes.
   */
  lemma SignedTransactionVerifies(c: Crypto, o: Order, t: Transaction)
    requires |o.data| <= MAX_SAFE && SignTransaction(c, o) == Some(t)
    ensures t.outputs == o.outputs && t.locktime == o.locktime && t.mode == o.mode && t.data == o.data
    ensures |t.inputs| == |t.authorizations| == |o.inputs| && Serialize(t) == Some(Encode(t))
    ensures forall i :: 0 <= i < |t.inputs| ==> t.authorizations[i].publicKey == o.inputs[i].publicKey
    ensures forall i :: 0 <= i < |t.inputs| ==>
      t.inputs[i] == Input(o.inputs[i].outpoint.txid, o.inputs[i].outpoint.vout, [], o.inputs[i].outpoint.sequence)
    ensures forall i :: 0 <= i < |t.inputs| ==>
      && Signable(RequestOf(o, i)) && TxDomain(o.network).Some?
      && c.Verifies(t.authorizations[i].signature, Message(RequestOf(o, i)), t.authorizations[i].publicKey, TxDomain(o.network).value)
    ensures forall i :: 0 <= i < |t.inputs| ==>
      && AddressFromScript(o.inputs[i].prevout.script, o.network).Some?
      && AddressFromScript(o.inputs[i].prevout.script, o.network) == AddressFromPublicKey(c, t.authorizations[i].publicKey, o.network)
  {
    var authorizations := AuthorizeFrom(c, o, 0).value;
    InputsFit(c, o, authorizations);
    forall i | 0 <= i < |t.inputs|
      ensures Signable(RequestOf(o, i)) && t.authorizations[i].publicKey == o.inputs[i].publicKey
      ensures c.Verifies(t.authorizations[i].signature, Message(RequestOf(o, i)), t.authorizations[i].publicKey, TxDomain(o.network).value)
      ensures AddressFromScript(o.inputs[i].prevout.script, o.network) == AddressFromPublicKey(c, o.inputs[i].publicKey, o.network)
      ensures AddressFromScript(o.inputs[i].prevout.script, o.network).Some?
    {
      assert Authorize(c, o, i) == Some(authorizations[i - 0]);
      assert Binds(c, o.inputs[i].prevout.script, o.inputs[i].publicKey, o.network);
      AddressRoundTrip(o.inputs[i].prevout.script[3..], o.network);
    }
  }

  /** Different inputs of a transaction sign different messages. */
  lemma InputsSignDifferentMessages(o: Order, i: nat, j: nat)
    requires i != j && Signable(RequestOf(o, i)) && Signable(RequestOf(o, j))
    ensures Message(RequestOf(o, i)) != Message(RequestOf(o, j))
  {
    if Message(RequestOf(o, i)) == Message(RequestOf(o, j)) {
      MessageInjective(RequestOf(o, i), RequestOf(o, j));
    }
  }
}
