/**
 Signing a block a server prepared: the coin is checked against its own
 transaction, the coinstake is signed again, and the root, hash, signature and
 size of the block are computed here.
 */
module StakeTemplate {
  import opened Wrappers
  import opened Bytes
  import opened PqWire
  import opened PqSize
  import opened SignatureMessage
  import opened Address
  import opened Signer
  import Merkle
  import PreviousOutput

  const MAX_BLOCK_BYTES := 2000000
  const MAX_TEMPLATE_AGE := 60
  const RESERVE := 3800

  /** Hexadecimal fields are their bytes, or None when they are not hexadecimal. */
  datatype Template = Template(
    version: int,
    network: string,
    genesis: seq<Byte>,
    tip: seq<Byte>,
    height: int,
    expires: int,
    previous: Option<seq<Byte>>,
    header: Option<seq<Byte>>,
    transactions: seq<Option<seq<Byte>>>)

  datatype Candidate = Candidate(txid: seq<Byte>, vout: int, address: string, value: int)

  datatype Keypair = Keypair(publicKey: seq<Byte>, secretKey: seq<Byte>)

  /** What the caller supplies besides the template: hashes are in display order. */
  datatype Session = Session(network: string, genesis: seq<Byte>, expectedTip: seq<Byte>, reserved: set<(seq<Byte>, int)>, now: int)

  datatype SignedBlock = SignedBlock(raw: seq<Byte>, hash: seq<Byte>, coinstake: seq<Byte>, reward: int, signature: seq<Byte>)

  // ---------------------------------------------------------------- the checks

  predicate IsSafe(n: int) {
    -MAX_SAFE <= n <= MAX_SAFE
  }

  function Bounded(b: Option<seq<Byte>>, maximum: nat): Option<seq<Byte>> {
    if b.None? || |b.value| == 0 || |b.value| > maximum then None else b
  }

  predicate ChainMatches(t: Template, x: Session) {
    && (x.network == "testnet" || x.network == "regtest") && t.version == 1 && t.network == x.network
    && t.genesis == x.genesis && |x.genesis| == 32 && |x.expectedTip| == 32 && t.tip == x.expectedTip
    && IsSafe(t.height) && t.height >= 1
    && IsSafe(t.expires) && x.now < t.expires <= x.now + MAX_TEMPLATE_AGE
  }

  /** The output the coin is, read from the transaction whose hash names it. */
  function CheckedCoin(c: Crypto, t: Template, coin: Candidate, keys: Keypair, x: Session): Option<Output> {
    if !ChainMatches(t, x) || (coin.txid, coin.vout) in x.reserved
       || AddressFromPublicKey(c, keys.publicKey, x.network) != Some(coin.address) then None
    else
      match Bounded(t.previous, MAX_BLOCK_BYTES)
      case None => None
      case Some(previous) =>
        if c.TxidOf(previous) != coin.txid then None
        else
          match PreviousOutput.Find(previous, coin.vout)
          case None => None
          case Some(prevout) =>
            if prevout.value <= 0 || prevout.value != coin.value
               || ScriptFromAddress(coin.address, x.network) != Some(prevout.script) then None
            else Some(prevout)
  }

  function Signed32(n: nat): int {
    if n < 0x8000_0000 then n else n - 0x1_0000_0000
  }

  predicate HeaderFits(header: seq<Byte>, x: Session) {
    && (|header| == 80 || |header| == 112)
    && var version := Signed32(FromLE(header[..4]));
    && version >= 7 && |header| == (if version == 7 then 80 else 112)
    && FromLE(header[76..80]) == 0
    && Reverse(header[4..36]) == x.expectedTip
    && x.now - MAX_TEMPLATE_AGE <= FromLE(header[68..72]) <= x.now + 15
  }

  function CheckedHeader(t: Template, x: Session): (r: Option<seq<Byte>>)
    ensures r.Some? ==> t.header == r && 80 <= |r.value| <= 112
  {
    match Bounded(t.header, 112)
    case None => None
    case Some(header) => if HeaderFits(header, x) then Some(header) else None
  }

  function Flatten(s: seq<seq<Byte>>): (r: seq<Byte>) {
    if s == [] then [] else Flatten(s[..|s| - 1]) + s[|s| - 1]
  }

  /** The transactions' bytes, when each is within bounds and together with `used` bytes they fit a block. */
  function ReadAll(fields: seq<Option<seq<Byte>>>, used: nat): (r: Option<seq<seq<Byte>>>)
    requires used <= MAX_BLOCK_BYTES
    ensures r.Some? ==> |r.value| == |fields| && used + |Flatten(r.value)| <= MAX_BLOCK_BYTES
    ensures r.Some? ==> forall i :: 0 <= i < |fields| ==> fields[i] == Some(r.value[i])
  {
    if fields == [] then Some([])
    else
      var last := Bounded(fields[|fields| - 1], MAX_BLOCK_BYTES);
      match ReadAll(fields[..|fields| - 1], used)
      case None => None
      case Some(others) =>
        if last == None || used + |Flatten(others)| + |last.value| > MAX_BLOCK_BYTES then None
        else
          assert (others + [last.value])[..|others|] == others;
          Some(others + [last.value])
  }

  function CheckedTransactions(t: Template, used: nat): (r: Option<seq<seq<Byte>>>)
    requires used <= MAX_BLOCK_BYTES
    ensures r.Some? ==> 2 <= |r.value| == |t.transactions| <= 4096 && used + |Flatten(r.value)| <= MAX_BLOCK_BYTES
    ensures r.Some? ==> forall i :: 0 <= i < |r.value| ==> t.transactions[i] == Some(r.value[i])
  {
    if |t.transactions| < 2 || |t.transactions| > 4096 then None else ReadAll(t.transactions, used)
  }

  predicate PqScript(script: seq<Byte>) {
    |script| == SCRIPT_SIZE && script[..3] == [0xff, 0x51, 0x20]
  }

  function CheckedStake(raw: seq<Byte>, coin: Candidate, prevout: Output): (r: Option<Transaction>)
    ensures r.Some? ==> |r.value.inputs| == 1 && |r.value.outputs| >= 2
  {
    match ParseCoinstake(raw)
    case None => None
    case Some(stake) =>
      if stake.inputs[0].txid != coin.txid || stake.inputs[0].vout != coin.vout
         || stake.outputs[1].script != prevout.script || stake.outputs[1].value < prevout.value then None
      else if exists i :: 0 <= i < |stake.outputs| && (stake.outputs[i].value < 0 || (i > 0 && !PqScript(stake.outputs[i].script))) then None
      else Some(stake)
  }

  /** What is signed in place of the server's coinstake. */
  function StakeOrder(stake: Transaction, coin: Candidate, prevout: Output, keys: Keypair, x: Session): Order {
    Order(x.network, x.genesis, STAKE_MODE,
          [Spending(Outpoint(coin.txid, coin.vout, 0xffff_ffff), prevout, keys.publicKey, keys.secretKey)],
          stake.outputs, 0, [])
  }

  function BlockDomain(network: string): string {
    "OLC/PQ/ML-DSA-44/" + network + "/block/v1"
  }

  function WithRoot(header: seq<Byte>, root: seq<Byte>): (r: seq<Byte>)
    requires |header| >= 80 && |root| == 32
    ensures |r| == |header|
  {
    header[..36] + root + header[68..]
  }

  function BlockAuthorization(publicKey: seq<Byte>, signature: seq<Byte>): seq<Byte> {
    [1] + publicKey + signature
  }

  function BlockBytes(header: seq<Byte>, transactions: seq<seq<Byte>>, authorization: seq<Byte>): seq<Byte> {
    header + PutCount(|transactions|, []) + Flatten(transactions) + PutCount(|authorization|, []) + authorization
  }

  /** The finished block over a header that already holds the root. */
  function Seal(c: Crypto, header: seq<Byte>, transactions: seq<seq<Byte>>, keys: Keypair, network: string, reward: int): Option<SignedBlock>
    requires |transactions| >= 2
  {
    var hash := c.Sha256d(header);
    match c.sign(hash, keys.secretKey, BlockDomain(network))
    case None => None
    case Some(signature) =>
      if !c.Verifies(signature, hash, keys.publicKey, BlockDomain(network)) then None
      else Some(SignedBlock(BlockBytes(header, transactions, BlockAuthorization(keys.publicKey, signature)),
                            Reverse(hash), transactions[1], reward, signature))
  }

  function SealStake(c: Crypto, header: seq<Byte>, transactions: seq<seq<Byte>>, coin: Candidate, prevout: Output,
                     keys: Keypair, x: Session): Option<SignedBlock>
    requires |header| >= 80 && |transactions| >= 2
  {
    hide CheckedStake, SignTransaction;
    match CheckedStake(transactions[1], coin, prevout)
    case None => None
    case Some(stake) =>
      match SignTransaction(c, StakeOrder(stake, coin, prevout, keys, x))
      case None => None
      case Some(signed) =>
        var all := transactions[1 := Encode(signed)];
        Seal(c, WithRoot(header, Merkle.Root(c, all)), all, keys, x.network, stake.outputs[1].value - prevout.value)
  }

  /** `signStakeTemplate`: None where it throws. */
  function SignedBlockOf(c: Crypto, t: Template, coin: Candidate, keys: Keypair, x: Session): Option<SignedBlock> {
    match CheckedCoin(c, t, coin, keys, x)
    case None => None
    case Some(prevout) =>
      match CheckedHeader(t, x)
      case None => None
      case Some(header) =>
        match CheckedTransactions(t, |header| + RESERVE)
        case None => None
        case Some(transactions) => SealStake(c, header, transactions, coin, prevout, keys, x)
  }

  // ---------------------------------------------------------------- signing

  lemma {:induction false} PrefixRefused(fields: seq<Option<seq<Byte>>>, k: nat, used: nat)
    requires used <= MAX_BLOCK_BYTES && k <= |fields| && ReadAll(fields[..k], used) == None
    ensures ReadAll(fields, used) == None
  {
    if k < |fields| {
      assert fields[..|fields| - 1][..k] == fields[..k];
      PrefixRefused(fields[..|fields| - 1], k, used);
    } else {
      assert fields[..k] == fields;
    }
  }

  method ReadTransactions(fields: seq<Option<seq<Byte>>>, used: nat) returns (r: Option<seq<seq<Byte>>>)
    requires used <= MAX_BLOCK_BYTES
    ensures r == ReadAll(fields, used)
  {
    var total := used;
    var transactions: seq<seq<Byte>> := [];
    for i := 0 to |fields|
      invariant ReadAll(fields[..i], used) == Some(transactions)
      invariant total == used + |Flatten(transactions)|
    {
      assert fields[..i + 1][..i] == fields[..i];
      var parsed := Bounded(fields[i], MAX_BLOCK_BYTES);
      if parsed == None {
        PrefixRefused(fields, i + 1, used);
        return None;
      }
      total := total + |parsed.value|;
      if total > MAX_BLOCK_BYTES {
        PrefixRefused(fields, i + 1, used);
        return None;
      }
      FlattenSnoc(transactions, parsed.value);
      transactions := transactions + [parsed.value];
    }
    assert fields[..|fields|] == fields;
    r := Some(transactions);
  }

  lemma FlattenSnoc(s: seq<seq<Byte>>, x: seq<Byte>)
    ensures Flatten(s + [x]) == Flatten(s) + x
  {
    assert (s + [x])[..|s|] == s;
  }

  method SignStakeTemplate(c: Crypto, t: Template, coin: Candidate, keys: Keypair, x: Session) returns (r: Option<SignedBlock>)
    ensures r == SignedBlockOf(c, t, coin, keys, x)
  {
    hide CheckedCoin, CheckedHeader, SealStake, ReadAll;
    var prevout := CheckedCoin(c, t, coin, keys, x);
    if prevout == None {
      return None;
    }
    var header := CheckedHeader(t, x);
    if header == None {
      return None;
    }
    if |t.transactions| < 2 || |t.transactions| > 4096 {
      return None;
    }
    var transactions := ReadTransactions(t.transactions, |header.value| + RESERVE);
    if transactions == None {
      return None;
    }
    r := SignStake(c, header.value, transactions.value, coin, prevout.value, keys, x);
  }

  method SignStake(c: Crypto, unrooted: seq<Byte>, fixed: seq<seq<Byte>>, coin: Candidate, prevout: Output, keys: Keypair, x: Session)
    returns (r: Option<SignedBlock>)
    requires |unrooted| >= 80 && |fixed| >= 2
    ensures r == SealStake(c, unrooted, fixed, coin, prevout, keys, x)
  {
    hide CheckedStake, SignTransaction, Encode, Flatten, PutCount, Merkle.Root;
    var header, transactions := unrooted, fixed;
    var stake := CheckedStake(transactions[1], coin, prevout);
    if stake == None {
      return None;
    }
    var signed := SignTransaction(c, StakeOrder(stake.value, coin, prevout, keys, x));
    if signed == None {
      return None;
    }
    transactions := transactions[1 := Encode(signed.value)];
    var root := Merkle.MerkleRoot(c, transactions);
    header := header[..36] + root + header[68..];
    var hash := c.Sha256d(header);
    var signature := c.sign(hash, keys.secretKey, BlockDomain(x.network));
    if signature == None || !c.Verifies(signature.value, hash, keys.publicKey, BlockDomain(x.network)) {
      return None;
    }
    var authorization := [1] + keys.publicKey + signature.value;
    r := Some(SignedBlock(header + PutCount(|transactions|, []) + Flatten(transactions) + PutCount(|authorization|, []) + authorization,
                          Reverse(hash), transactions[1], stake.value.outputs[1].value - prevout.value, signature.value));
  }

  // ---------------------------------------------------------------- what a signed block is

  lemma StakeShape(raw: seq<Byte>, coin: Candidate, prevout: Output, stake: Transaction)
    requires CheckedStake(raw, coin, prevout) == Some(stake)
    ensures coin.vout >= 0 && stake.inputs == [Input(coin.txid, coin.vout, [], 0xffff_ffff)]
    ensures stake.locktime == 0 && stake.mode == STAKE_MODE && stake.data == [] && |stake.authorizations| == 1
    ensures WellSized(stake) && Encode(stake) == raw && |raw| <= MAX_TX_BYTES
  {
    hide Encode, Parse, WellSized;
    WireCanonical(raw, STAKE_MODES, stake);
    SizedStake(stake);
    assert stake.inputs == [stake.inputs[0]];
  }

  lemma SizedStake(t: Transaction)
    requires WellSized(t) && t.mode == STAKE_MODE
    ensures t.data == [] && |t.authorizations| == |t.inputs|
  {
  }

  lemma CoinstakeKept(raw: seq<Byte>, coin: Candidate, prevout: Output, stake: Transaction, signed: Transaction)
    requires CheckedStake(raw, coin, prevout) == Some(stake) && signed == stake.(authorizations := signed.authorizations)
    requires Parse(Encode(signed), STAKE_MODES) == Some(signed)
    ensures ParseCoinstake(Encode(signed)) == Some(signed)
  {
    hide Encode, Parse;
  }

  /** The coinstake that is signed is the server's, with the owner's authorization in place of the server's. */
  lemma OnlyAuthorizationChanges(c: Crypto, raw: seq<Byte>, coin: Candidate, prevout: Output, keys: Keypair, x: Session,
                                 stake: Transaction, signed: Transaction)
    requires CheckedStake(raw, coin, prevout) == Some(stake)
    requires SignTransaction(c, StakeOrder(stake, coin, prevout, keys, x)) == Some(signed)
    ensures signed == stake.(authorizations := signed.authorizations)
    ensures |Encode(signed)| == |raw| && ParseCoinstake(Encode(signed)) == Some(signed)
  {
    hide CheckedStake, SignTransaction, Message, Signable, Encode, Parse, ParseCoinstake;
    hide AddressFromScript, AddressFromPublicKey, PayloadSize, EncodedSize;
    StakeShape(raw, coin, prevout, stake);
    SignedTransactionVerifies(c, StakeOrder(stake, coin, prevout, keys, x), signed);
    assert signed.inputs == [signed.inputs[0]] == stake.inputs;
    EncodeLength(signed);
    EncodeLength(stake);
    WireCanonical(Encode(signed), STAKE_MODES, signed);
    CoinstakeKept(raw, coin, prevout, stake, signed);
  }

  lemma {:induction false} FlattenLength(a: seq<seq<Byte>>, b: seq<seq<Byte>>)
    requires |a| == |b| && forall i :: 0 <= i < |a| ==> |a[i]| == |b[i]|
    ensures |Flatten(a)| == |Flatten(b)|
  {
    if a == [] {
    } else {
      FlattenLength(a[..|a| - 1], b[..|b| - 1]);
    }
  }

  /** The reserve covers the transaction count and the block signature. */
  lemma WithinReserve(header: seq<Byte>, transactions: seq<seq<Byte>>, authorization: seq<Byte>)
    requires |transactions| <= 4096 && |authorization| == 3733
    requires |header| + RESERVE + |Flatten(transactions)| <= MAX_BLOCK_BYTES
    ensures |BlockBytes(header, transactions, authorization)| <= MAX_BLOCK_BYTES
  {
    PutCountLength(|transactions|, []);
    PutCountLength(|authorization|, []);
  }

  lemma CoinFacts(c: Crypto, t: Template, coin: Candidate, keys: Keypair, x: Session, prevout: Output)
    requires CheckedCoin(c, t, coin, keys, x) == Some(prevout)
    ensures prevout.value == coin.value > 0 && ScriptFromAddress(coin.address, x.network) == Some(prevout.script)
    ensures t.previous.Some? && c.TxidOf(t.previous.value) == coin.txid && PreviousOutput.Find(t.previous.value, coin.vout) == Some(prevout)
    ensures (coin.txid, coin.vout) !in x.reserved && AddressFromPublicKey(c, keys.publicKey, x.network) == Some(coin.address)
    ensures (x.network == "testnet" || x.network == "regtest") && t.version == 1 && t.network == x.network && t.height >= 1
    ensures t.genesis == x.genesis && t.tip == x.expectedTip && x.now < t.expires <= x.now + 60
  {
    hide AddressFromPublicKey, ScriptFromAddress, PreviousOutput.Find;
  }

  /** No output of a coinstake is negative, and all but the first pay keys of the post-quantum form. */
  predicate StakePays(outputs: seq<Output>) {
    forall i :: 0 <= i < |outputs| ==>
      outputs[i].value >= 0 && (i > 0 ==> |outputs[i].script| == 35 && outputs[i].script[..3] == [0xff, 0x51, 0x20])
  }

  lemma StakeFacts(raw: seq<Byte>, coin: Candidate, prevout: Output, stake: Transaction)
    requires CheckedStake(raw, coin, prevout) == Some(stake)
    ensures ParseCoinstake(raw) == Some(stake) && StakePays(stake.outputs)
    ensures stake.inputs[0].txid == coin.txid && stake.inputs[0].vout == coin.vout
    ensures stake.outputs[1].script == prevout.script && stake.outputs[1].value >= prevout.value
  {
    hide ParseCoinstake;
  }

  /** What a header that is checked says of itself. */
  lemma HeaderFacts(t: Template, x: Session, header: seq<Byte>)
    requires CheckedHeader(t, x) == Some(header)
    ensures 80 <= |header| <= 112 && 7 <= FromLE(header[..4]) < 0x8000_0000 && |header| == (if FromLE(header[..4]) == 7 then 80 else 112)
    ensures Reverse(header[4..36]) == x.expectedTip && x.now - 60 <= FromLE(header[68..72]) <= x.now + 15 && FromLE(header[76..80]) == 0
  {
    hide FromLE, Reverse;
  }

  /** The parts of a signed block. */
  datatype Parts = Parts(prevout: Output, header: seq<Byte>, sent: seq<seq<Byte>>, stake: Transaction, signed: Transaction)

  lemma Steps(c: Crypto, t: Template, coin: Candidate, keys: Keypair, x: Session, b: SignedBlock) returns (p: Parts)
    requires SignedBlockOf(c, t, coin, keys, x) == Some(b)
    ensures CheckedCoin(c, t, coin, keys, x) == Some(p.prevout)
    ensures CheckedHeader(t, x) == Some(p.header) && 80 <= |p.header| <= 112
    ensures CheckedTransactions(t, |p.header| + RESERVE) == Some(p.sent) && |p.sent| >= 2
    ensures CheckedStake(p.sent[1], coin, p.prevout) == Some(p.stake)
    ensures SignTransaction(c, StakeOrder(p.stake, coin, p.prevout, keys, x)) == Some(p.signed)
    ensures var all := p.sent[1 := Encode(p.signed)];
            Seal(c, WithRoot(p.header, Merkle.Root(c, all)), all, keys, x.network, p.stake.outputs[1].value - p.prevout.value) == Some(b)
  {
    hide CheckedCoin, CheckedHeader, CheckedTransactions, CheckedStake, SignTransaction, Encode, Seal, WithRoot, Merkle.Root;
    var prevout := CheckedCoin(c, t, coin, keys, x).value;
    var header := CheckedHeader(t, x).value;
    var sent := CheckedTransactions(t, |header| + RESERVE).value;
    var stake := CheckedStake(sent[1], coin, prevout).value;
    p := Parts(prevout, header, sent, stake, SignTransaction(c, StakeOrder(stake, coin, prevout, keys, x)).value);
  }

  /**
   The block a template leads to: the server's transactions in order, with only
   the authorization of the coinstake replaced and its length kept; the whole
   value of the coin goes back to the coin's own script; the block is at most
   2,000,000 bytes.
   */
  lemma SignedBlockSafe(c: Crypto, t: Template, coin: Candidate, keys: Keypair, x: Session, b: SignedBlock) returns (p: Parts)
    requires SignedBlockOf(c, t, coin, keys, x) == Some(b)
    ensures |p.sent| == |t.transactions| >= 2 && forall i :: 0 <= i < |p.sent| ==> t.transactions[i] == Some(p.sent[i])
    ensures ParseCoinstake(p.sent[1]) == Some(p.stake) && ParseCoinstake(b.coinstake) == Some(p.signed)
    ensures p.signed == p.stake.(authorizations := p.signed.authorizations) && |b.coinstake| == |p.sent[1]|
    ensures p.signed.inputs[0].txid == coin.txid && p.signed.inputs[0].vout == coin.vout
    ensures ScriptFromAddress(coin.address, x.network) == Some(p.signed.outputs[1].script)
    ensures p.signed.outputs[1].value >= coin.value > 0 && b.reward == p.signed.outputs[1].value - coin.value
    ensures StakePays(p.signed.outputs) && |p.sent| <= 4096 && |b.raw| <= 2_000_000
    ensures t.previous.Some? && c.TxidOf(t.previous.value) == coin.txid
    ensures PreviousOutput.Find(t.previous.value, coin.vout) == Some(Output(coin.value, p.signed.outputs[1].script))
    ensures (coin.txid, coin.vout) !in x.reserved && AddressFromPublicKey(c, keys.publicKey, x.network) == Some(coin.address)
    ensures (x.network == "testnet" || x.network == "regtest") && t.version == 1 && t.network == x.network && t.height >= 1
    ensures t.genesis == x.genesis && t.tip == x.expectedTip && x.now < t.expires <= x.now + 60
  {
    hide PreviousOutput.Find, SignedBlockOf, CheckedCoin, CheckedHeader, CheckedTransactions, CheckedStake, SignTransaction;
    hide ScriptFromAddress, AddressFromPublicKey, ParseCoinstake, Encode, WithRoot, Merkle.Root, Flatten, BlockBytes, StakePays;
    p := Steps(c, t, coin, keys, x, b);
    CoinFacts(c, t, coin, keys, x, p.prevout);
    StakeFacts(p.sent[1], coin, p.prevout, p.stake);
    OnlyAuthorizationChanges(c, p.sent[1], coin, p.prevout, keys, x, p.stake, p.signed);
    var all := p.sent[1 := Encode(p.signed)];
    FlattenLength(p.sent, all);
    WithinReserve(WithRoot(p.header, Merkle.Root(c, all)), all, BlockAuthorization(keys.publicKey, b.signature));
  }

  /** What follows a prefix of a block: its authorization, after its length, and nothing else. */
  lemma TailReads(prefix: seq<Byte>, publicKey: seq<Byte>, signature: seq<Byte>) returns (field: seq<Byte>)
    requires |publicKey| == 1312 && |signature| == 2420
    ensures field == BlockAuthorization(publicKey, signature)
    ensures |field| == 3733 && field[0] == 1 && field[1..1313] == publicKey && field[1313..] == signature
    ensures var raw := prefix + PutCount(|field|, []) + field;
            prefix <= raw && ReadVar(raw[|prefix|..]) == Got(field, [])
  {
    field := BlockAuthorization(publicKey, signature);
    ReadOfPutVar(field, []);
    PutCountSplit(|field|, field);
    var raw := prefix + PutCount(|field|, []) + field;
    hide PutCount, ReadVar;
    assert raw[|prefix|..] == PutCount(|field|, []) + field;
    assert field + [] == field;
  }

  lemma PutCountSplit(n: nat, rest: seq<Byte>)
    ensures PutCount(n, []) + rest == PutCount(n, rest)
  {
    SplitCount(n, rest);
  }

  /**
   The block's header is the template's with the root of the emitted
   transactions in it, and the block signature verifies over that header's hash.
   After header, count and transactions comes one field and no more: a one, the
   public key and the block signature.
   */
  lemma SignedBlockCommits(c: Crypto, t: Template, coin: Candidate, keys: Keypair, x: Session, b: SignedBlock)
    returns (header: seq<Byte>, transactions: seq<seq<Byte>>, field: seq<Byte>)
    requires SignedBlockOf(c, t, coin, keys, x) == Some(b)
    ensures t.header.Some? && |header| == |t.header.value| >= 80
    ensures header[..36] == t.header.value[..36] && header[68..] == t.header.value[68..]
    ensures |transactions| == |t.transactions| >= 2 && transactions[1] == b.coinstake && header[36..68] == Merkle.Root(c, transactions)
    ensures forall i :: 0 <= i < |transactions| && i != 1 ==> t.transactions[i] == Some(transactions[i])
    ensures 7 <= FromLE(header[..4]) < 0x8000_0000 && |header| == (if FromLE(header[..4]) == 7 then 80 else 112)
    ensures Reverse(header[4..36]) == x.expectedTip && x.now - 60 <= FromLE(header[68..72]) <= x.now + 15 && FromLE(header[76..80]) == 0
    ensures var prefix := header + PutCount(|transactions|, []) + Flatten(transactions);
            prefix <= b.raw && ReadVar(b.raw[|prefix|..]) == Got(field, [])
    ensures |field| == 3733 && field[0] == 1 && field[1..1313] == keys.publicKey && field[1313..] == b.signature
    ensures b.hash == Reverse(c.Sha256d(header)) && c.Verifies(b.signature, c.Sha256d(header), keys.publicKey, BlockDomain(x.network))
  {
    hide SignedBlockOf, CheckedCoin, CheckedHeader, CheckedTransactions, CheckedStake, SignTransaction, Encode, Merkle.Root, Flatten, PutCount;
    hide ReadVar, FromLE, Reverse, BlockAuthorization;
    var p := Steps(c, t, coin, keys, x, b);
    transactions := p.sent[1 := Encode(p.signed)];
    header := WithRoot(p.header, Merkle.Root(c, transactions));
    HeaderFacts(t, x, p.header);
    assert header[..4] == p.header[..4] && header[4..36] == p.header[4..36];
    assert header[68..72] == p.header[68..72] && header[76..80] == p.header[76..80];
    field := TailReads(header + PutCount(|transactions|, []) + Flatten(transactions), keys.publicKey, b.signature);
  }
}
