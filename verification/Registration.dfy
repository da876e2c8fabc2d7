/** The masternode registration: its fixed-size data, the three role signatures and the signed transaction. */
module Registration {
  import opened Wrappers
  import opened Bytes
  import opened PqWire
  import opened SignatureMessage
  import opened Address
  import opened Signer
  import opened Fees

  const COLLATERAL_SATS := 4000 * 100000000
  const OWNER_CONTEXT := "OLC/PQ/ML-DSA-44/masternode/owner/v1"
  const OPERATOR_CONTEXT := "OLC/PQ/ML-DSA-44/masternode/operator/v1"
  const COLLATERAL_CONTEXT := "OLC/PQ/ML-DSA-44/masternode/collateral/v1"

  /** A numeric IPv4 endpoint, already split into its numbers. */
  datatype Service = NoService | Endpoint(octets: seq<int>, port: int)

  /** What is registered; an empty operator payout address is a missing one. */
  datatype Terms = Terms(
    txid: seq<Byte>,
    vout: int,
    ownerKey: seq<Byte>,
    operatorKey: seq<Byte>,
    collateralKey: seq<Byte>,
    payoutAddress: string,
    reward: int,
    operatorPayoutAddress: string,
    service: Service)

  datatype Proofs = Proofs(owner: seq<Byte>, operator: seq<Byte>, collateral: seq<Byte>)

  function ZeroBytes(n: nat): (r: seq<Byte>)
    ensures |r| == n && forall i :: 0 <= i < n ==> r[i] == 0
  {
    if n == 0 then [] else ZeroBytes(n - 1) + [0]
  }

  const UNSIGNED := Proofs(ZeroBytes(SIGNATURE_SIZE), ZeroBytes(SIGNATURE_SIZE), ZeroBytes(SIGNATURE_SIZE))

  /** `encodeService`. */
  function EncodeService(s: Service): (r: Option<seq<Byte>>)
    ensures r.Some? ==> |r.value| == 18
  {
    match s
    case NoService => Some(ZeroBytes(18))
    case Endpoint(octets, port) =>
      if |octets| != 4 || (exists i :: 0 <= i < 4 && !(0 <= octets[i] < 256)) || port < 1 || port > 65535 || port == 43721 then None
      else Some(ZeroBytes(10) + [0xff, 0xff] + [octets[0], octets[1], octets[2], octets[3]] + [port / 256, port % 256])
  }

  /** `outpoint`. */
  function EncodeOutpoint(txid: seq<Byte>, vout: int): (r: Option<seq<Byte>>)
    ensures r.Some? ==> |r.value| == 36
  {
    if |txid| != 32 || txid == ZeroBytes(32) || !IsU32(vout) then None else Some(Reverse(txid) + LE(vout, 4))
  }

  function OperatorPayout(address: string, network: string): (r: Option<seq<Byte>>)
    ensures r.Some? ==> |r.value| == 32
  {
    if address == "" then Some(ZeroBytes(32))
    else
      var id := IdFromAddress(address, network);
      if id.Some? && |id.value| == 32 then id else None
  }

  /** The parts before the three signatures. */
  function EncodeTerms(t: Terms, network: string): (r: Option<seq<Byte>>)
    ensures r.Some? ==> |r.value| == 4058
  {
    if t.reward < 0 || t.reward > 10000 || (t.reward > 0 && t.operatorPayoutAddress == "") then None
    else
      match (OperatorPayout(t.operatorPayoutAddress, network), EncodeOutpoint(t.txid, t.vout),
             IdFromAddress(t.payoutAddress, network), EncodeService(t.service))
      case (Some(operatorPayout), Some(outpoint), Some(payout), Some(service)) =>
        if |t.ownerKey| != PUBLIC_KEY_SIZE || |t.operatorKey| != PUBLIC_KEY_SIZE || |t.collateralKey| != PUBLIC_KEY_SIZE || |payout| != 32 then None
        else Some([1, 1] + (outpoint + (t.ownerKey + (t.operatorKey + (t.collateralKey
                  + (payout + (LE(t.reward, 2) + (operatorPayout + service))))))))
      case _ => None
  }

  predicate FullProofs(p: Proofs) {
    |p.owner| == SIGNATURE_SIZE && |p.operator| == SIGNATURE_SIZE && |p.collateral| == SIGNATURE_SIZE
  }

  /** `encodeMasternodeRegistration`: None where it throws. Always 11,318 bytes. */
  function EncodeRegistration(t: Terms, p: Proofs, network: string): (r: Option<seq<Byte>>)
    ensures r.Some? ==> |r.value| == REGISTRATION_DATA_SIZE
  {
    match EncodeTerms(t, network)
    case None => None
    case Some(terms) => if FullProofs(p) then Some(terms + (p.owner + (p.operator + p.collateral))) else None
  }

  /** The same address, or none against the one address whose id is all zeros. */
  predicate SameOperatorPayout(a: string, b: string, network: string) {
    || a == b
    || (a == "" && IdFromAddress(b, network) == Some(ZeroBytes(32)))
    || (b == "" && IdFromAddress(a, network) == Some(ZeroBytes(32)))
  }

  predicate SameTerms(a: Terms, b: Terms, network: string) {
    && a.txid == b.txid && a.vout == b.vout
    && a.ownerKey == b.ownerKey && a.operatorKey == b.operatorKey && a.collateralKey == b.collateralKey
    && a.payoutAddress == b.payoutAddress && a.reward == b.reward && a.service == b.service
    && SameOperatorPayout(a.operatorPayoutAddress, b.operatorPayoutAddress, network)
  }

  /**
   Registration data stands for one registration: it is equal exactly for equal
   signatures and terms, but that a missing operator payout address reads like the
   address of the all-zero id.
   */
  lemma TermsInjective(a: Terms, b: Terms, p: Proofs, q: Proofs, network: string)
    requires EncodeRegistration(a, p, network).Some? && EncodeRegistration(b, q, network).Some?
    ensures EncodeRegistration(a, p, network) == EncodeRegistration(b, q, network) <==> p == q && SameTerms(a, b, network)
  {
    if EncodeRegistration(a, p, network) == EncodeRegistration(b, q, network) {
      TermsDetermined(a, b, p, q, network);
    }
    if p == q && SameTerms(a, b, network) {
      PayoutSame(a.operatorPayoutAddress, b.operatorPayoutAddress, network);
      hide OperatorPayout, EncodeOutpoint, EncodeService, IdFromAddress, SameOperatorPayout, ZeroBytes, REGISTRATION_DATA_SIZE;
      assert EncodeTerms(a, network) == EncodeTerms(b, network);
    }
  }

  /** The exception happens: without an operator payout address, and with the address of the all-zero id. */
  lemma PayoutAmbiguous(t: Terms, p: Proofs, network: string) returns (u: Terms)
    requires EncodeRegistration(t, p, network).Some? && t.operatorPayoutAddress == "" && HrpForNetwork(network).Some?
    ensures u.operatorPayoutAddress != "" && t == u.(operatorPayoutAddress := "")
    ensures EncodeRegistration(u, p, network) == EncodeRegistration(t, p, network)
  {
    AddressRoundTrip(ZeroBytes(32), network);
    var zero := AddressFromId(ZeroBytes(32), network).value;
    NoEmptyAddress(network);
    u := t.(operatorPayoutAddress := zero);
    hide AddressFromId, IdFromAddress, EncodeOutpoint, EncodeService, ZeroBytes, REGISTRATION_DATA_SIZE;
    assert OperatorPayout(zero, network) == OperatorPayout("", network);
    assert EncodeTerms(u, network) == EncodeTerms(t, network);
  }

  lemma NoEmptyAddress(network: string)
    ensures IdFromAddress("", network) == None
  {
  }

  lemma TermsDetermined(a: Terms, b: Terms, p: Proofs, q: Proofs, network: string)
    requires EncodeRegistration(a, p, network).Some? && EncodeRegistration(a, p, network) == EncodeRegistration(b, q, network)
    ensures p == q && SameTerms(a, b, network)
  {
    hide EncodeTerms, IdFromAddress, REGISTRATION_DATA_SIZE, SameTerms;
    var x, y := EncodeTerms(a, network).value, EncodeTerms(b, network).value;
    SameHead(x, y, p.owner + (p.operator + p.collateral), q.owner + (q.operator + q.collateral));
    SameHead(p.owner, q.owner, p.operator + p.collateral, q.operator + q.collateral);
    SameHead(p.operator, q.operator, p.collateral, q.collateral);
    TermsOfBytes(a, b, network);
  }

  lemma TermsOfBytes(a: Terms, b: Terms, network: string)
    requires EncodeTerms(a, network).Some? && EncodeTerms(a, network) == EncodeTerms(b, network)
    ensures SameTerms(a, b, network)
  {
    hide IdFromAddress, AddressFromId, OperatorPayout, EncodeOutpoint, EncodeService, LE, SameOperatorPayout;
    var ap, bp := IdFromAddress(a.payoutAddress, network).value, IdFromAddress(b.payoutAddress, network).value;
    var a7, b7 := EncodeService(a.service).value, EncodeService(b.service).value;
    var ar, br := OperatorPayout(a.operatorPayoutAddress, network).value, OperatorPayout(b.operatorPayoutAddress, network).value;
    var a6, b6 := ar + a7, br + b7;
    var a5, b5 := LE(a.reward, 2) + a6, LE(b.reward, 2) + b6;
    var a4, b4 := ap + a5, bp + b5;
    var a3, b3 := a.collateralKey + a4, b.collateralKey + b4;
    var a2, b2 := a.operatorKey + a3, b.operatorKey + b3;
    var a1, b1 := a.ownerKey + a2, b.ownerKey + b2;
    var ao, bo := EncodeOutpoint(a.txid, a.vout).value, EncodeOutpoint(b.txid, b.vout).value;
    SameHead([1, 1], [1, 1], ao + a1, bo + b1);
    SameHead(ao, bo, a1, b1);
    SameHead(a.ownerKey, b.ownerKey, a2, b2);
    SameHead(a.operatorKey, b.operatorKey, a3, b3);
    SameHead(a.collateralKey, b.collateralKey, a4, b4);
    SameHead(ap, bp, a5, b5);
    SameHead(LE(a.reward, 2), LE(b.reward, 2), a6, b6);
    SameHead(ar, br, a7, b7);
    SameReward(a.reward, b.reward);
    SameOutpoint(a.txid, b.txid, a.vout, b.vout);
    SameService(a.service, b.service);
    SamePayout(a.operatorPayoutAddress, b.operatorPayoutAddress, network);
    AddressBijection(a.payoutAddress, ap, network);
    AddressBijection(b.payoutAddress, bp, network);
  }

  lemma SameService(a: Service, b: Service)
    requires EncodeService(a).Some? && EncodeService(a) == EncodeService(b)
    ensures a == b
  {
    var x, y := EncodeService(a).value, EncodeService(b).value;
    if a.Endpoint? {
      assert x[10] == 0xff;
    }
    if b.Endpoint? {
      assert y[10] == 0xff;
    }
    if a.Endpoint? && b.Endpoint? {
      EndpointBytes(a);
      EndpointBytes(b);
      assert a.octets == b.octets;
    }
  }

  lemma EndpointBytes(s: Service)
    requires s.Endpoint? && EncodeService(s).Some?
    ensures var x := EncodeService(s).value;
            && |s.octets| == 4 && (forall i :: 0 <= i < 4 ==> s.octets[i] == x[12 + i])
            && s.port / 256 == x[16] && s.port % 256 == x[17]
  {
  }

  lemma SamePayout(a: string, b: string, network: string)
    requires OperatorPayout(a, network).Some? && OperatorPayout(a, network) == OperatorPayout(b, network)
    ensures SameOperatorPayout(a, b, network)
  {
    hide IdFromAddress, AddressFromId, ZeroBytes;
    if a != "" && b != "" {
      AddressBijection(a, IdFromAddress(a, network).value, network);
      AddressBijection(b, IdFromAddress(b, network).value, network);
    }
  }

  lemma PayoutSame(a: string, b: string, network: string)
    requires SameOperatorPayout(a, b, network) && OperatorPayout(a, network).Some?
    ensures OperatorPayout(a, network) == OperatorPayout(b, network)
  {
    hide IdFromAddress, ZeroBytes;
  }

  lemma SameReward(a: nat, b: nat)
    requires a < 0x1_0000 && b < 0x1_0000 && LE(a, 2) == LE(b, 2)
    ensures a == b
  {
    Limits();
    FromLEOfLE(a, 2);
    FromLEOfLE(b, 2);
  }

  lemma SameOutpoint(a: seq<Byte>, b: seq<Byte>, v: int, w: int)
    requires EncodeOutpoint(a, v).Some? && EncodeOutpoint(a, v) == EncodeOutpoint(b, w)
    ensures a == b && v == w
  {
    Limits();
    SameHash(a, b, LE(v, 4), LE(w, 4));
    FromLEOfLE(v, 4);
    FromLEOfLE(w, 4);
  }

  // ---------------------------------------------------------------- signing

  datatype Owned = Owned(address: string, publicKey: seq<Byte>, secretKey: seq<Byte>)

  /** A request to register; the collateral is worth `collateralValue`, and the keys are those of the three roles. */
  datatype Request = Request(
    network: string,
    genesis: seq<Byte>,
    feeInputs: seq<Spending>,
    outputs: seq<Output>,
    locktime: int,
    collateralValue: int,
    owner: Owned,
    operator: Owned,
    collateral: Owned,
    terms: Terms)

  datatype Registered = Registered(tx: Transaction, roleMessage: seq<Byte>, proofs: Proofs)

  predicate OwnsAddress(c: Crypto, o: Owned, network: string) {
    IdFromPublicKey(c, o.publicKey, network).Some? && IdFromPublicKey(c, o.publicKey, network) == IdFromAddress(o.address, network)
  }

  predicate IsCollateral(s: Spending, t: Terms) {
    s.outpoint.txid == t.txid && s.outpoint.vout == t.vout
  }

  /** The checks before anything is encoded. */
  predicate Acceptable(c: Crypto, r: Request) {
    && r.network == "testnet" && r.collateralValue == COLLATERAL_SATS
    && OwnsAddress(c, r.owner, r.network) && OwnsAddress(c, r.collateral, r.network)
    && |r.operator.publicKey| == PUBLIC_KEY_SIZE
    && 1 <= |r.feeInputs| <= 2
    && (forall i :: 0 <= i < |r.feeInputs| ==> !IsCollateral(r.feeInputs[i], r.terms))
  }

  /** The terms name the three roles' own keys. */
  function TermsOf(r: Request): Terms {
    r.terms.(ownerKey := r.owner.publicKey, operatorKey := r.operator.publicKey, collateralKey := r.collateral.publicKey)
  }

  function SignRole(c: Crypto, message: seq<Byte>, o: Owned, context: string): (r: Option<seq<Byte>>)
    ensures r.Some? ==> c.Verifies(r.value, message, o.publicKey, context)
  {
    match c.sign(message, o.secretKey, context)
    case None => None
    case Some(signature) => if c.Verifies(signature, message, o.publicKey, context) then Some(signature) else None
  }

  function SignRoles(c: Crypto, message: seq<Byte>, r: Request): (p: Option<Proofs>)
    ensures p.Some? ==> FullProofs(p.value)
  {
    match (SignRole(c, message, r.owner, OWNER_CONTEXT), SignRole(c, message, r.operator, OPERATOR_CONTEXT),
           SignRole(c, message, r.collateral, COLLATERAL_CONTEXT))
    case (Some(a), Some(b), Some(d)) => Some(Proofs(a, b, d))
    case _ => None
  }

  function OrderOf(r: Request, data: seq<Byte>): Order {
    Order(r.network, r.genesis, MASTERNODE_MODE, r.feeInputs, r.outputs, r.locktime, data)
  }

  /** `signMasternodeRegistration`: None where it throws. */
  function SignRegistration(c: Crypto, r: Request): Option<Registered> {
    if !Acceptable(c, r) then None
    else
      match EncodeRegistration(TermsOf(r), UNSIGNED, r.network)
      case None => None
      case Some(unsigned) =>
        if !Signable(RequestOf(OrderOf(r, unsigned), 0)) then None
        else Complete(c, r, Message(RequestOf(OrderOf(r, unsigned), 0)))
  }

  /** The role signatures, and the transaction that carries them; it must parse back. */
  function Complete(c: Crypto, r: Request, message: seq<Byte>): Option<Registered> {
    match SignRoles(c, message, r)
    case None => None
    case Some(proofs) =>
      match EncodeRegistration(TermsOf(r), proofs, r.network)
      case None => None
      case Some(data) =>
        match SignTransaction(c, OrderOf(r, data))
        case None => None
        case Some(tx) => if ParseTransfer(Encode(tx)).None? then None else Some(Registered(tx, message, proofs))
  }

  /**
   A registration of one or two inputs with standard outputs is never too large:
   it is exactly the estimate, below the 24,000-byte limit, and parses back to itself.
   */
  lemma RegistrationFits(c: Crypto, r: Request, data: seq<Byte>, tx: Transaction)
    requires |data| == REGISTRATION_DATA_SIZE && SignTransaction(c, OrderOf(r, data)) == Some(tx)
    requires forall i :: 0 <= i < |r.outputs| ==> |r.outputs[i].script| == SCRIPT_SIZE
    ensures |Encode(tx)| == EstimateRegistrationSize(|r.feeInputs|, |r.outputs|) <= 18973
    ensures ParseTransfer(Encode(tx)) == Some(tx)
  {
    hide SignTransaction, Encode, Parse, EstimateRegistrationSize, Message, Signable, AddressFromScript, AddressFromPublicKey;
    SignedTransactionVerifies(c, OrderOf(r, data), tx);
    RegistrationSizeExact(tx, Encode(tx));
    SizeBound(|r.feeInputs|, |r.outputs|);
    WireCanonical(Encode(tx), TRANSFER_MODES, tx);
  }

  lemma SizeBound(inputs: nat, outputs: nat)
    requires 1 <= inputs <= 2 && 1 <= outputs <= 2
    ensures EstimateRegistrationSize(inputs, outputs) <= 18973
  {
  }

  /**
   What is signed: each role's signature verifies, under its own key and context,
   over the message of the transaction with the signatures blank; the final data
   carries those signatures; the collateral is not among the fee inputs; and the
   owner and collateral keys belong to the addresses named.
   */
  lemma RegistrationSound(c: Crypto, r: Request, b: Registered)
    returns (unsigned: seq<Byte>, signed: seq<Byte>)
    requires SignRegistration(c, r) == Some(b)
    ensures EncodeRegistration(TermsOf(r), UNSIGNED, r.network) == Some(unsigned)
    ensures EncodeRegistration(TermsOf(r), b.proofs, r.network) == Some(signed)
    ensures unsigned[..4058] == signed[..4058] && |unsigned| == |signed| == REGISTRATION_DATA_SIZE
    ensures b.tx.data == signed && b.tx.mode == MASTERNODE_MODE && ParseTransfer(Encode(b.tx)) == Some(b.tx)
    ensures Signable(RequestOf(OrderOf(r, unsigned), 0)) && b.roleMessage == Message(RequestOf(OrderOf(r, unsigned), 0))
    ensures r.network == "testnet" && r.collateralValue == 400_000_000_000 && 1 <= |r.feeInputs| <= 2
    ensures b.tx.outputs == r.outputs && b.tx.locktime == r.locktime && |b.tx.inputs| == |r.feeInputs|
    ensures forall i :: 0 <= i < |b.tx.inputs| ==>
      b.tx.inputs[i].txid == r.feeInputs[i].outpoint.txid && b.tx.inputs[i].vout == r.feeInputs[i].outpoint.vout
    ensures c.Verifies(b.proofs.owner, b.roleMessage, r.owner.publicKey, "OLC/PQ/ML-DSA-44/masternode/owner/v1")
    ensures c.Verifies(b.proofs.operator, b.roleMessage, r.operator.publicKey, "OLC/PQ/ML-DSA-44/masternode/operator/v1")
    ensures c.Verifies(b.proofs.collateral, b.roleMessage, r.collateral.publicKey, "OLC/PQ/ML-DSA-44/masternode/collateral/v1")
    ensures forall i :: 0 <= i < |b.tx.inputs| ==> !(b.tx.inputs[i].txid == r.terms.txid && b.tx.inputs[i].vout == r.terms.vout)
    ensures AddressFromPublicKey(c, r.owner.publicKey, r.network) == Some(r.owner.address)
    ensures AddressFromPublicKey(c, r.collateral.publicKey, r.network) == Some(r.collateral.address)
  {
    hide EncodeRegistration, SignTransaction, Message, Signable, ParseTransfer, Encode, AddressFromId, IdFromAddress;
    unsigned := EncodeRegistration(TermsOf(r), UNSIGNED, r.network).value;
    signed := EncodeRegistration(TermsOf(r), b.proofs, r.network).value;
    SameUnsigned(TermsOf(r), b.proofs, r.network);
    TransactionFacts(c, r, signed, b.tx);
    AddressBijection(r.owner.address, IdFromPublicKey(c, r.owner.publicKey, r.network).value, r.network);
    AddressBijection(r.collateral.address, IdFromPublicKey(c, r.collateral.publicKey, r.network).value, r.network);
  }

  lemma SameUnsigned(t: Terms, p: Proofs, network: string)
    requires EncodeRegistration(t, UNSIGNED, network).Some? && EncodeRegistration(t, p, network).Some?
    ensures EncodeRegistration(t, UNSIGNED, network).value[..4058] == EncodeRegistration(t, p, network).value[..4058]
  {
    hide EncodeTerms;
    var terms := EncodeTerms(t, network).value;
    TakeOfConcat(terms, UNSIGNED.owner + (UNSIGNED.operator + UNSIGNED.collateral));
    TakeOfConcat(terms, p.owner + (p.operator + p.collateral));
  }

  lemma TransactionFacts(c: Crypto, r: Request, data: seq<Byte>, tx: Transaction)
    requires |data| == REGISTRATION_DATA_SIZE && SignTransaction(c, OrderOf(r, data)) == Some(tx) && ParseTransfer(Encode(tx)).Some?
    requires forall i :: 0 <= i < |r.feeInputs| ==> !IsCollateral(r.feeInputs[i], r.terms)
    ensures tx.data == data && tx.mode == MASTERNODE_MODE && ParseTransfer(Encode(tx)) == Some(tx)
    ensures tx.outputs == r.outputs && tx.locktime == r.locktime && |tx.inputs| == |r.feeInputs|
    ensures forall i :: 0 <= i < |tx.inputs| ==>
      tx.inputs[i].txid == r.feeInputs[i].outpoint.txid && tx.inputs[i].vout == r.feeInputs[i].outpoint.vout
    ensures forall i :: 0 <= i < |tx.inputs| ==> !(tx.inputs[i].txid == r.terms.txid && tx.inputs[i].vout == r.terms.vout)
  {
    hide SignTransaction, Encode, Parse, Message, Signable, AddressFromScript, AddressFromPublicKey;
    SignedTransactionVerifies(c, OrderOf(r, data), tx);
    var parsed := ParseTransfer(Encode(tx)).value;
    WireCanonical(Encode(tx), TRANSFER_MODES, parsed);
    WireCanonical(Encode(tx), TRANSFER_MODES, tx);
    forall i | 0 <= i < |tx.inputs| ensures !(tx.inputs[i].txid == r.terms.txid && tx.inputs[i].vout == r.terms.vout) {
      assert !IsCollateral(r.feeInputs[i], r.terms);
    }
  }
}
