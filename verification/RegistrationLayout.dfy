/** Registration data byte by byte, and the contexts that keep signatures of different kinds apart. */
module RegistrationLayout {
  import opened Wrappers
  import opened Bytes
  import opened PqWire
  import opened SignatureMessage
  import opened Address
  import opened Signer
  import opened Registration
  import StakeTemplate

  /** The eighteen bytes of an endpoint: zeros, or ten of them, the marker, the four octets and the port. */
  predicate ServiceBytes(b: seq<Byte>, s: Service) {
    && |b| == 18 && (forall i :: 0 <= i < 10 ==> b[i] == 0)
    && match s
       case NoService => forall i :: 10 <= i < 18 ==> b[i] == 0
       case Endpoint(octets, port) =>
         && b[10..12] == [255, 255] && |octets| == 4 && b[12] == octets[0] && b[13] == octets[1] && b[14] == octets[2] && b[15] == octets[3]
         && port == 256 * (b[16] as int) + b[17] as int && 1 <= port <= 65535 && port != 43721
  }

  lemma ServiceLayout(s: Service)
    requires EncodeService(s).Some?
    ensures ServiceBytes(EncodeService(s).value, s)
  {
    if s.Endpoint? {
      var x := EncodeService(s).value;
      assert x[10..12] == [0xff, 0xff];
      assert x[16..] == [s.port / 256, s.port % 256];
    }
  }

  /** The operator payout: the id of its address, or zeros without one. */
  predicate PayoutBytes(b: seq<Byte>, address: string, network: string) {
    |b| == 32 && if address == "" then forall i :: 0 <= i < 32 ==> b[i] == 0 else AddressFromId(b, network) == Some(address)
  }

  lemma PayoutLayout(address: string, network: string)
    requires OperatorPayout(address, network).Some?
    ensures PayoutBytes(OperatorPayout(address, network).value, address, network)
  {
    hide AddressFromId, IdFromAddress;
    if address != "" {
      AddressBijection(address, OperatorPayout(address, network).value, network);
    }
  }

  /** The terms, in the first 4,058 bytes. */
  predicate TermsLayout(b: seq<Byte>, t: Terms, network: string)
    requires |b| >= 4058
  {
    && b[..2] == [1, 1]
    && Reverse(b[2..34]) == t.txid && FromLE(b[34..38]) == t.vout
    && b[38..1350] == t.ownerKey && b[1350..2662] == t.operatorKey && b[2662..3974] == t.collateralKey
    && AddressFromId(b[3974..4006], network) == Some(t.payoutAddress)
    && FromLE(b[4006..4008]) == t.reward
    && PayoutBytes(b[4008..4040], t.operatorPayoutAddress, network)
    && ServiceBytes(b[4040..4058], t.service)
  }

  lemma OutpointLayout(b: seq<Byte>, txid: seq<Byte>, vout: int, rest: seq<Byte>)
    requires EncodeOutpoint(txid, vout).Some? && |b| >= 2 && b[2..] == EncodeOutpoint(txid, vout).value + rest
    ensures |b| >= 38 && Reverse(b[2..34]) == txid && FromLE(b[34..38]) == vout && b[38..] == rest
  {
    hide Reverse, LE, FromLE;
    assert EncodeOutpoint(txid, vout).value + rest == Reverse(txid) + (LE(vout, 4) + rest);
    Cut(b, 2, Reverse(txid), LE(vout, 4) + rest);
    Cut(b, 34, LE(vout, 4), rest);
    ReverseTwice(txid);
    Limits();
    FromLEOfLE(vout, 4);
  }

  /** Three fields in a row. */
  lemma CutThree(b: seq<Byte>, at: nat, x: seq<Byte>, y: seq<Byte>, z: seq<Byte>, rest: seq<Byte>)
    requires at <= |b| && b[at..] == x + (y + (z + rest))
    ensures at + |x| + |y| + |z| <= |b| && b[at + |x| + |y| + |z|..] == rest
    ensures b[at..at + |x|] == x && b[at + |x|..at + |x| + |y|] == y && b[at + |x| + |y|..at + |x| + |y| + |z|] == z
  {
    Cut(b, at, x, y + (z + rest));
    Cut(b, at + |x|, y, z + rest);
    Cut(b, at + |x| + |y|, z, rest);
  }

  lemma RewardRead(reward: nat)
    requires reward <= 10000
    ensures FromLE(LE(reward, 2)) == reward
  {
    Limits();
    FromLEOfLE(reward, 2);
  }

  /** Where each term is. */
  lemma TermsAt(t: Terms, network: string, b: seq<Byte>, rest: seq<Byte>)
    requires EncodeTerms(t, network).Some? && b == EncodeTerms(t, network).value + rest
    ensures |b| >= 4058 && TermsLayout(b, t, network) && b[4058..] == rest
  {
    hide IdFromAddress, AddressFromId, OperatorPayout, EncodeOutpoint, EncodeService, LE, FromLE, Reverse, PayoutBytes, ServiceBytes;
    var payout := IdFromAddress(t.payoutAddress, network).value;
    var operatorPayout := OperatorPayout(t.operatorPayoutAddress, network).value;
    var service := EncodeService(t.service).value;
    var r4 := payout + (LE(t.reward, 2) + (operatorPayout + (service + rest)));
    var r1 := t.ownerKey + (t.operatorKey + (t.collateralKey + r4));
    Flat(t, network, b, rest, r1);
    OutpointLayout(b, t.txid, t.vout, r1);
    CutThree(b, 38, t.ownerKey, t.operatorKey, t.collateralKey, r4);
    CutThree(b, 3974, payout, LE(t.reward, 2), operatorPayout, service + rest);
    Cut(b, 4040, service, rest);
    AddressBijection(t.payoutAddress, payout, network);
    PayoutLayout(t.operatorPayoutAddress, network);
    ServiceLayout(t.service);
    RewardRead(t.reward);
  }

  /** The terms with the rest behind them, as one chain of fields. */
  lemma Flat(t: Terms, network: string, b: seq<Byte>, rest: seq<Byte>, r1: seq<Byte>)
    requires EncodeTerms(t, network).Some? && b == EncodeTerms(t, network).value + rest
    requires r1 == t.ownerKey + (t.operatorKey + (t.collateralKey + (IdFromAddress(t.payoutAddress, network).value
                   + (LE(t.reward, 2) + (OperatorPayout(t.operatorPayoutAddress, network).value + (EncodeService(t.service).value + rest))))))
    ensures |b| >= 2 && b[..2] == [1, 1] && b[2..] == EncodeOutpoint(t.txid, t.vout).value + r1
  {
    hide IdFromAddress, AddressFromId, OperatorPayout, EncodeOutpoint, EncodeService, LE;
    var outpoint := EncodeOutpoint(t.txid, t.vout).value;
    assert b == [1, 1] + (outpoint + r1);
  }

  /**
   Registration data: the terms, then the owner's, the operator's and the collateral's
   signature, 11,318 bytes in all.
   */
  lemma DataLayout(t: Terms, p: Proofs, network: string, b: seq<Byte>)
    requires EncodeRegistration(t, p, network) == Some(b)
    ensures |b| == 11318 && TermsLayout(b, t, network)
    ensures b[4058..6478] == p.owner && b[6478..8898] == p.operator && b[8898..] == p.collateral
  {
    hide EncodeTerms, TermsLayout;
    TermsAt(t, network, b, p.owner + (p.operator + p.collateral));
    Cut(b, 4058, p.owner, p.operator + p.collateral);
    Cut(b, 6478, p.operator, p.collateral);
  }

  // ---------------------------------------------------------------- contexts

  lemma TestnetContexts()
    ensures AddressDomain("testnet") == Some("OLC/PQ/ML-DSA-44/testnet/address/v1")
    ensures TxDomain("testnet") == Some("OLC/PQ/ML-DSA-44/testnet/tx/v1")
    ensures StakeTemplate.BlockDomain("testnet") == "OLC/PQ/ML-DSA-44/testnet/block/v1"
  {
    assert "OLC/PQ/ML-DSA-44/" + "testnet" + "/address/v1" == "OLC/PQ/ML-DSA-44/testnet/address/v1";
    assert "OLC/PQ/ML-DSA-44/" + "testnet" + "/tx/v1" == "OLC/PQ/ML-DSA-44/testnet/tx/v1";
    assert "OLC/PQ/ML-DSA-44/" + "testnet" + "/block/v1" == "OLC/PQ/ML-DSA-44/testnet/block/v1";
  }

  lemma RegtestContexts()
    ensures AddressDomain("regtest") == Some("OLC/PQ/ML-DSA-44/regtest/address/v1")
    ensures TxDomain("regtest") == Some("OLC/PQ/ML-DSA-44/regtest/tx/v1")
    ensures StakeTemplate.BlockDomain("regtest") == "OLC/PQ/ML-DSA-44/regtest/block/v1"
  {
    assert "OLC/PQ/ML-DSA-44/" + "regtest" + "/address/v1" == "OLC/PQ/ML-DSA-44/regtest/address/v1";
    assert "OLC/PQ/ML-DSA-44/" + "regtest" + "/tx/v1" == "OLC/PQ/ML-DSA-44/regtest/tx/v1";
    assert "OLC/PQ/ML-DSA-44/" + "regtest" + "/block/v1" == "OLC/PQ/ML-DSA-44/regtest/block/v1";
  }

  /** The nine contexts in use: an address, a transaction and a block context for each network, and one for each role. */
  function Contexts(): seq<string> {
    ["OLC/PQ/ML-DSA-44/testnet/address/v1", "OLC/PQ/ML-DSA-44/regtest/address/v1",
     "OLC/PQ/ML-DSA-44/testnet/tx/v1", "OLC/PQ/ML-DSA-44/regtest/tx/v1",
     "OLC/PQ/ML-DSA-44/testnet/block/v1", "OLC/PQ/ML-DSA-44/regtest/block/v1",
     "OLC/PQ/ML-DSA-44/masternode/owner/v1", "OLC/PQ/ML-DSA-44/masternode/operator/v1", "OLC/PQ/ML-DSA-44/masternode/collateral/v1"]
  }

  /** No two contexts are the same, so a signature or a hash of one kind or network never stands for another's. */
  lemma ContextsDiffer()
    ensures Contexts() == [AddressDomain("testnet").value, AddressDomain("regtest").value, TxDomain("testnet").value, TxDomain("regtest").value,
                           StakeTemplate.BlockDomain("testnet"), StakeTemplate.BlockDomain("regtest"),
                           OWNER_CONTEXT, OPERATOR_CONTEXT, COLLATERAL_CONTEXT]
    ensures forall i, j :: 0 <= i < j < |Contexts()| ==> Contexts()[i] != Contexts()[j]
  {
    TestnetContexts();
    RegtestContexts();
    hide AddressDomain, TxDomain, StakeTemplate.BlockDomain;
    ContextLengths();
  }

  /** Kinds differ in length, networks in the first letter of their name. */
  lemma ContextLengths()
    ensures var c := Contexts();
            && |c| == 9 && |c[0]| == |c[1]| == 35 && |c[2]| == |c[3]| == 30 && |c[4]| == |c[5]| == 33
            && |c[6]| == 36 && |c[7]| == 39 && |c[8]| == 41
            && c[0][17] != c[1][17] && c[2][17] != c[3][17] && c[4][17] != c[5][17]
  {
  }
}
