/**
 The encrypted wallet store: what it can hold, what a backup of it contains, and
 exactly when importing that backup succeeds. Encryption, key generation, seed
 derivation and phrase checking are parameters.
 */
module WalletStore {
  import opened Wrappers
  import opened Bytes
  import opened PqWire
  import opened Address
  import opened Signer
  import opened Registration

  const MIN_PASSWORD := 6
  const MAX_KEYS := 100
  const MAX_SECRET := 512

  /** What is encrypted. */
  datatype Plain = SeedText(seed: seq<Byte>) | PhraseText(phrase: string) | VerifierText

  /** `encrypt` also takes its random salt, as a number; `publicKey` is of a seed. */
  datatype Vault = Vault(
    encrypt: (Plain, string, nat) -> string,
    decrypt: (string, string) -> Option<Plain>,
    publicKey: seq<Byte> -> seq<Byte>,
    derive: (string, nat) -> seq<Byte>,
    validPhrase: string -> bool,
    normalize: string -> string,
    crypto: Crypto)

  /** Twenty-four words of at most eight letters, with spaces between them. */
  const MAX_PHRASE := 215

  predicate PhraseLike(phrase: string) {
    0 < |phrase| <= MAX_PHRASE && forall i :: 0 <= i < |phrase| ==> 'a' <= phrase[i] <= 'z' || phrase[i] == ' '
  }

  /** What the store ever encrypts. Its ciphertexts have at most 348 characters. */
  predicate Encryptable(x: Plain) {
    match x
    case SeedText(seed) => |seed| == 32
    case PhraseText(phrase) => PhraseLike(phrase)
    case VerifierText => true
  }

  /** Decryption undoes encryption under the same password, and sizes are as specified. */
  ghost predicate Sound(v: Vault) {
    && (forall x, p, n :: Encryptable(x) ==> v.decrypt(v.encrypt(x, p, n), p) == Some(x) && 0 < |v.encrypt(x, p, n)| <= MAX_SECRET)
    && (forall s :: |s| == 32 ==> |v.publicKey(s)| == PUBLIC_KEY_SIZE)
    && (forall m, i :: |v.derive(m, i)| == 32)
    && (forall m :: v.normalize(v.normalize(m)) == v.normalize(m))
    && (forall m :: v.validPhrase(v.normalize(m)) ==> PhraseLike(v.normalize(m)))
    && !v.validPhrase("")
  }

  datatype Status = Draft | Registered | Withdrawn

  /** A masternode controlled from this browser; an empty transaction id is a missing one. */
  datatype Record = Record(
    id: seq<Byte>,
    network: string,
    createdAt: int,
    status: Status,
    ownerAddress: string,
    collateralAddress: string,
    payoutAddress: string,
    operatorPayoutAddress: string,
    operatorReward: int,
    service: Service,
    collateralTxid: seq<Byte>,
    collateralVout: int,
    operatorPublicKey: seq<Byte>,
    encryptedOperatorSeed: string,
    registrationTxid: seq<Byte>,
    withdrawalTxid: seq<Byte>)

  datatype Key = Key(address: string, encryptedSeed: string)

  /** `encryptedMnemonic` is empty when there is none. */
  datatype Meta = Meta(network: string, verifier: string, encryptedMnemonic: string)

  /** Keys are in order of their numbers. */
  datatype Store = Store(meta: Option<Meta>, keys: seq<Key>, records: seq<Record>)

  const EMPTY := Store(None, [], [])

  datatype Backup = Backup(version: nat, network: string, encryptedMnemonic: Option<string>, keys: seq<Key>, records: seq<Record>)

  // ---------------------------------------------------------------- checks

  function AddressForSeed(v: Vault, seed: seq<Byte>, network: string): Option<string> {
    AddressFromPublicKey(v.crypto, v.publicKey(seed), network)
  }

  predicate ValidSecret(s: string) {
    0 < |s| <= MAX_SECRET
  }

  predicate ValidTxid(txid: seq<Byte>) {
    |txid| == 32 && txid != ZeroBytes(32)
  }

  predicate ValidAddress(address: string, network: string) {
    IdFromAddress(address, network).Some?
  }

  function Addresses(keys: seq<Key>): (r: seq<string>)
    ensures |r| == |keys| && forall i :: 0 <= i < |r| ==> r[i] == keys[i].address
  {
    if keys == [] then [] else Addresses(keys[..|keys| - 1]) + [keys[|keys| - 1].address]
  }

  predicate Distinct(s: seq<string>) {
    forall i, j :: 0 <= i < j < |s| ==> s[i] != s[j]
  }

  /** The checks of one backup key, the i-th; an empty phrase is none. */
  predicate KeyValid(v: Vault, k: Key, i: nat, phrase: string, network: string, password: string) {
    && ValidSecret(k.encryptedSeed) && ValidAddress(k.address, network)
    && v.decrypt(k.encryptedSeed, password).Some? && v.decrypt(k.encryptedSeed, password).value.SeedText?
    && var seed := v.decrypt(k.encryptedSeed, password).value.seed;
    && |seed| == 32 && AddressForSeed(v, seed, network) == Some(k.address)
    && (phrase != "" ==> v.derive(phrase, i) == seed)
  }

  predicate LifecycleValid(r: Record) {
    match r.status
    case Draft => r.registrationTxid == [] && r.withdrawalTxid == []
    case Registered => ValidTxid(r.registrationTxid) && r.withdrawalTxid == []
    case Withdrawn => ValidTxid(r.registrationTxid) && ValidTxid(r.withdrawalTxid)
  }

  /** What does not change in a record's life. */
  predicate IdentityValid(v: Vault, r: Record, network: string, addresses: seq<string>) {
    && r.network == network && |r.id| == 32 && |r.operatorPublicKey| == PUBLIC_KEY_SIZE
    && ValidSecret(r.encryptedOperatorSeed) && 0 <= r.createdAt <= MAX_SAFE
    && r.ownerAddress in addresses && r.collateralAddress in addresses
    && ValidAddress(r.payoutAddress, network)
    && (r.operatorPayoutAddress != "" ==> ValidAddress(r.operatorPayoutAddress, network))
    && 0 <= r.operatorReward <= 10000 && (r.operatorReward > 0 ==> r.operatorPayoutAddress != "")
    && EncodeService(r.service).Some?
    && ValidTxid(r.collateralTxid) && 0 <= r.collateralVout < 0x1_0000_0000
    && IdFromPublicKey(v.crypto, r.operatorPublicKey, network) == Some(r.id)
  }

  /** The operator seed decrypts to the operator key. */
  predicate SeedValid(v: Vault, r: Record, password: string) {
    && v.decrypt(r.encryptedOperatorSeed, password).Some? && v.decrypt(r.encryptedOperatorSeed, password).value.SeedText?
    && |v.decrypt(r.encryptedOperatorSeed, password).value.seed| == 32
    && v.publicKey(v.decrypt(r.encryptedOperatorSeed, password).value.seed) == r.operatorPublicKey
  }

  /** `canonicalMasternodeRecord` accepts the record, and its operator seed checks. */
  predicate RecordValid(v: Vault, r: Record, network: string, addresses: seq<string>, password: string) {
    IdentityValid(v, r, network, addresses) && LifecycleValid(r) && SeedValid(v, r, password)
  }

  // ---------------------------------------------------------------- operations

  /** Key number i of a phrase. */
  function MakeKey(v: Vault, phrase: string, network: string, password: string, i: nat): (k: Key)
    requires TxDomain(network).Some? && Sound(v)
    ensures AddressForSeed(v, v.derive(phrase, i), network) == Some(k.address)
  {
    hide AddressForSeed;
    SeedHasAddress(v, v.derive(phrase, i), network);
    Key(AddressForSeed(v, v.derive(phrase, i), network).value, v.encrypt(SeedText(v.derive(phrase, i)), password, i))
  }

  function MakeKeys(v: Vault, phrase: string, network: string, password: string, count: nat): (r: seq<Key>)
    requires TxDomain(network).Some? && Sound(v)
    ensures |r| == count && forall i :: 0 <= i < count ==> r[i] == MakeKey(v, phrase, network, password, i)
  {
    hide MakeKey;
    if count == 0 then [] else MakeKeys(v, phrase, network, password, count - 1) + [MakeKey(v, phrase, network, password, count - 1)]
  }

  lemma SeedHasAddress(v: Vault, seed: seq<Byte>, network: string)
    requires Sound(v) && |seed| == 32 && TxDomain(network).Some?
    ensures AddressForSeed(v, seed, network).Some? && ValidAddress(AddressForSeed(v, seed, network).value, network)
  {
    hide AddressFromId, IdFromAddress;
    AddressRoundTrip(IdFromPublicKey(v.crypto, v.publicKey(seed), network).value, network);
  }

  /** `createWallet`: None where it throws. */
  function Create(v: Vault, s: Store, password: string, network: string, count: int, mnemonic: string): Option<Store>
    requires Sound(v)
  {
    if |password| < MIN_PASSWORD || TxDomain(network).None? || count < 1 || count > MAX_KEYS
       || !v.validPhrase(v.normalize(mnemonic)) || s.meta.Some? then None
    else
      var phrase := v.normalize(mnemonic);
      Some(Store(Some(Meta(network, v.encrypt(VerifierText, password, 0), v.encrypt(PhraseText(phrase), password, 1))),
                 MakeKeys(v, phrase, network, password, count), []))
  }

  /** `exportBackup`. */
  function Export(s: Store): Option<Backup> {
    match s.meta
    case None => None
    case Some(meta) =>
      Some(Backup(3, meta.network, if ValidSecret(meta.encryptedMnemonic) then Some(meta.encryptedMnemonic) else None, s.keys, s.records))
  }

  /** The recovery phrase of a backup: None where decrypting or checking it throws, empty when there is none. */
  function PhraseOf(v: Vault, b: Backup, password: string): Option<string> {
    match b.encryptedMnemonic
    case None => Some("")
    case Some(e) =>
      if !ValidSecret(e) then None
      else
        match v.decrypt(e, password)
        case Some(PhraseText(phrase)) => if v.validPhrase(v.normalize(phrase)) then Some(v.normalize(phrase)) else None
        case _ => None
  }

  predicate UniqueRecords(records: seq<Record>) {
    forall i, j :: 0 <= i < j < |records| ==> records[i].id != records[j].id
  }

  predicate KeysAccepted(v: Vault, keys: seq<Key>, phrase: string, network: string, password: string) {
    && 1 <= |keys| <= MAX_KEYS && Distinct(Addresses(keys))
    && forall i :: 0 <= i < |keys| ==> KeyValid(v, keys[i], i, phrase, network, password)
  }

  predicate RecordsAccepted(v: Vault, records: seq<Record>, network: string, addresses: seq<string>, password: string) {
    && |records| <= MAX_KEYS && UniqueRecords(records)
    && forall i :: 0 <= i < |records| ==> RecordValid(v, records[i], network, addresses, password)
  }

  /** `importBackup`: None where it throws. A version 1 backup has no masternodes. */
  function Import(v: Vault, s: Store, b: Backup, password: string): Option<Store> {
    if |password| < MIN_PASSWORD || b.version < 1 || b.version > 3 || TxDomain(b.network).None? || s.meta.Some? then None
    else
      match PhraseOf(v, b, password)
      case None => None
      case Some(phrase) =>
        var records := if b.version == 1 then [] else b.records;
        if !KeysAccepted(v, b.keys, phrase, b.network, password)
           || !RecordsAccepted(v, records, b.network, Addresses(b.keys), password) then None
        else
          Some(Store(Some(Meta(b.network, v.encrypt(VerifierText, password, 0), if b.encryptedMnemonic.Some? then b.encryptedMnemonic.value else "")),
                     b.keys, records))
  }

  method CheckKeys(v: Vault, keys: seq<Key>, phrase: string, network: string, password: string) returns (ok: bool)
    ensures ok <==> KeysAccepted(v, keys, phrase, network, password)
  {
    hide KeyValid;
    if |keys| == 0 || |keys| > MAX_KEYS {
      return false;
    }
    var seen: set<string> := {};
    for i := 0 to |keys|
      invariant seen == set k | 0 <= k < i :: keys[k].address
      invariant forall k :: 0 <= k < i ==> KeyValid(v, keys[k], k, phrase, network, password)
      invariant forall j, k :: 0 <= j < k < i ==> keys[j].address != keys[k].address
    {
      if !KeyValid(v, keys[i], i, phrase, network, password) {
        return false;
      }
      if keys[i].address in seen {
        ghost var j :| 0 <= j < i && keys[j].address == keys[i].address;
        assert Addresses(keys)[j] == Addresses(keys)[i];
        return false;
      }
      seen := seen + {keys[i].address};
    }
    ok := true;
  }

  method CheckRecords(v: Vault, records: seq<Record>, network: string, addresses: seq<string>, password: string) returns (ok: bool)
    ensures ok <==> RecordsAccepted(v, records, network, addresses, password)
  {
    hide RecordValid;
    if |records| > MAX_KEYS {
      return false;
    }
    var ids: set<seq<Byte>> := {};
    for i := 0 to |records|
      invariant ids == set k | 0 <= k < i :: records[k].id
      invariant forall k :: 0 <= k < i ==> RecordValid(v, records[k], network, addresses, password)
      invariant forall j, k :: 0 <= j < k < i ==> records[j].id != records[k].id
    {
      if !RecordValid(v, records[i], network, addresses, password) || records[i].id in ids {
        return false;
      }
      ids := ids + {records[i].id};
    }
    ok := true;
  }

  method ImportBackup(v: Vault, s: Store, b: Backup, password: string) returns (r: Option<Store>)
    ensures r == Import(v, s, b, password)
  {
    hide KeysAccepted, RecordsAccepted, TxDomain, PhraseOf;
    if |password| < MIN_PASSWORD || b.version < 1 || b.version > 3 || TxDomain(b.network).None? || s.meta.Some? {
      return None;
    }
    var phrase := PhraseOf(v, b, password);
    if phrase == None {
      return None;
    }
    var keysOk := CheckKeys(v, b.keys, phrase.value, b.network, password);
    if !keysOk {
      return None;
    }
    var records := if b.version == 1 then [] else b.records;
    var recordsOk := CheckRecords(v, records, b.network, Addresses(b.keys), password);
    if !recordsOk {
      return None;
    }
    var encryptedMnemonic := if b.encryptedMnemonic.Some? then b.encryptedMnemonic.value else "";
    r := Some(Store(Some(Meta(b.network, v.encrypt(VerifierText, password, 0), encryptedMnemonic)), b.keys, records));
  }

  function Find(records: seq<Record>, id: seq<Byte>): (i: nat)
    ensures i <= |records| && (i < |records| ==> records[i].id == id)
    ensures forall k :: 0 <= k < |records| && records[k].id == id ==> i < |records|
  {
    if records == [] then 0 else if records[0].id == id then 0 else 1 + Find(records[1..], id)
  }

  /** The stored verifier decrypts under the password. */
  predicate PasswordMatches(v: Vault, s: Store, password: string) {
    s.meta.Some? && v.decrypt(s.meta.value.verifier, password) == Some(VerifierText)
  }

  /** `createMasternodeRecord`, with the random seed it draws. */
  function CreateRecord(v: Vault, s: Store, password: string, terms: Record, seed: seq<Byte>, salt: nat): Option<Store>
    requires Sound(v) && |seed| == 32
  {
    if |password| < MIN_PASSWORD || TxDomain(terms.network).None? || !ValidTxid(terms.collateralTxid)
       || terms.collateralVout < 0 || terms.collateralVout >= 0x1_0000_0000
       || !PasswordMatches(v, s, password) || s.meta.value.network != terms.network
       || terms.ownerAddress !in Addresses(s.keys) || terms.collateralAddress !in Addresses(s.keys)
       || !ValidAddress(terms.payoutAddress, terms.network)
       || (terms.operatorPayoutAddress != "" && !ValidAddress(terms.operatorPayoutAddress, terms.network))
       || terms.operatorReward < 0 || terms.operatorReward > 10000 then None
    else
      var r := NewRecord(v, password, terms, seed, salt);
      if Find(s.records, r.id) < |s.records| then None else Some(s.(records := s.records + [r]))
  }

  function NewRecord(v: Vault, password: string, terms: Record, seed: seq<Byte>, salt: nat): Record
    requires Sound(v) && |seed| == 32 && TxDomain(terms.network).Some?
  {
    terms.(id := IdFromPublicKey(v.crypto, v.publicKey(seed), terms.network).value, status := Draft,
           operatorPublicKey := v.publicKey(seed), encryptedOperatorSeed := v.encrypt(SeedText(seed), password, salt),
           registrationTxid := [], withdrawalTxid := [])
  }

  /** `markMasternodeRegistered`: any 32 bytes are taken for a transaction id, and a withdrawal id stays. */
  function MarkRegistered(s: Store, id: seq<Byte>, txid: seq<Byte>): Option<Store> {
    var i := Find(s.records, id);
    if |txid| != 32 || i == |s.records| then None
    else Some(s.(records := s.records[i := s.records[i].(status := Status.Registered, registrationTxid := txid)]))
  }

  /** `markMasternodeCollateralWithdrawn`. */
  function MarkWithdrawn(s: Store, id: seq<Byte>, txid: seq<Byte>): Option<Store> {
    var i := Find(s.records, id);
    if |txid| != 32 || i == |s.records| then None
    else Some(s.(records := s.records[i := s.records[i].(status := Withdrawn, withdrawalTxid := txid)]))
  }

  // ---------------------------------------------------------------- what can be restored

  /** A backup of the store imports into an empty store under this password. */
  predicate Importable(v: Vault, s: Store, password: string) {
    Export(s).Some? && Import(v, EMPTY, Export(s).value, password).Some?
  }

  /** An import restores the network, the phrase, the ordered keys and the records. */
  lemma ImportRestores(v: Vault, s: Store, password: string)
    requires Importable(v, s, password) && ValidSecret(s.meta.value.encryptedMnemonic)
    ensures var r := Import(v, EMPTY, Export(s).value, password).value;
            r.meta.Some? && r.meta.value.network == s.meta.value.network && r.meta.value.encryptedMnemonic == s.meta.value.encryptedMnemonic
            && r.keys == s.keys && r.records == s.records
  {
    hide KeysAccepted, RecordsAccepted;
  }

  lemma CreatedKeysValid(v: Vault, phrase: string, network: string, password: string, count: nat)
    requires Sound(v) && TxDomain(network).Some? && 1 <= count <= MAX_KEYS
    ensures KeysAccepted(v, MakeKeys(v, phrase, network, password, count), phrase, network, password) <==>
            Distinct(Addresses(MakeKeys(v, phrase, network, password, count)))
  {
    hide AddressForSeed, ValidAddress, MakeKeys;
    var keys := MakeKeys(v, phrase, network, password, count);
    forall i | 0 <= i < count ensures KeyValid(v, keys[i], i, phrase, network, password) {
      SeedHasAddress(v, v.derive(phrase, i), network);
      assert v.decrypt(v.encrypt(SeedText(v.derive(phrase, i)), password, i), password) == Some(SeedText(v.derive(phrase, i)));
    }
  }

  lemma NoRecords(v: Vault, network: string, addresses: seq<string>, password: string)
    ensures RecordsAccepted(v, [], network, addresses, password)
  {
  }

  /** A new wallet's backup imports exactly when its addresses are all different. */
  lemma CreateImportable(v: Vault, password: string, network: string, count: int, mnemonic: string, s: Store)
    requires Sound(v) && Create(v, EMPTY, password, network, count, mnemonic) == Some(s)
    ensures Importable(v, s, password) <==> Distinct(Addresses(s.keys))
    ensures ValidSecret(s.meta.value.encryptedMnemonic) && PasswordMatches(v, s, password)
  {
    hide KeysAccepted, RecordsAccepted, MakeKeys, Addresses, Distinct;
    var phrase := v.normalize(mnemonic);
    NoRecords(v, network, Addresses(s.keys), password);
    assert v.decrypt(v.encrypt(PhraseText(phrase), password, 1), password) == Some(PhraseText(phrase));
    assert v.decrypt(v.encrypt(VerifierText, password, 0), password) == Some(VerifierText);
    CreatedKeysValid(v, phrase, network, password, count);
  }

  /** The store without its records. */
  predicate BaseImportable(v: Vault, s: Store, password: string) {
    Importable(v, s.(records := []), password)
  }

  lemma RecordsDecide(v: Vault, s: Store, password: string)
    requires BaseImportable(v, s, password)
    ensures s.meta.Some?
    ensures Importable(v, s, password) <==> RecordsAccepted(v, s.records, s.meta.value.network, Addresses(s.keys), password)
  {
    hide KeysAccepted, RecordsAccepted, TxDomain;
  }

  lemma ImportableParts(v: Vault, s: Store, password: string)
    requires Importable(v, s, password)
    ensures s.meta.Some? && TxDomain(s.meta.value.network).Some? && BaseImportable(v, s, password)
    ensures RecordsAccepted(v, s.records, s.meta.value.network, Addresses(s.keys), password)
  {
    hide KeysAccepted, TxDomain, RecordValid;
  }

  /** A created record is a valid draft exactly when its reward has a payout address and its service is valid. */
  lemma NewRecordValid(v: Vault, s: Store, password: string, terms: Record, seed: seq<Byte>, salt: nat)
    requires Sound(v) && |seed| == 32 && CreateRecord(v, s, password, terms, seed, salt).Some? && 0 <= terms.createdAt <= MAX_SAFE
    ensures RecordValid(v, NewRecord(v, password, terms, seed, salt), terms.network, Addresses(s.keys), password) <==>
            (terms.operatorReward > 0 ==> terms.operatorPayoutAddress != "") && EncodeService(terms.service).Some?
  {
    hide ValidAddress, EncodeService, Addresses;
    assert v.decrypt(v.encrypt(SeedText(seed), password, salt), password) == Some(SeedText(seed));
  }

  /**
   Creating a record keeps a store importable exactly when there were fewer than
   a hundred, a reward has a payout address, and the service is valid.
   */
  lemma CreateRecordImportable(v: Vault, s: Store, password: string, terms: Record, seed: seq<Byte>, salt: nat, t: Store)
    requires Sound(v) && |seed| == 32 && Importable(v, s, password)
    requires CreateRecord(v, s, password, terms, seed, salt) == Some(t) && 0 <= terms.createdAt <= MAX_SAFE
    ensures Importable(v, t, password) <==>
            |s.records| < MAX_KEYS && (terms.operatorReward > 0 ==> terms.operatorPayoutAddress != "") && EncodeService(terms.service).Some?
  {
    hide RecordValid, Importable, EncodeService, Addresses, IdFromPublicKey, ValidAddress, PasswordMatches;
    ImportableParts(v, s, password);
    NewRecordValid(v, s, password, terms, seed, salt);
    var r := NewRecord(v, password, terms, seed, salt);
    assert t.records == s.records + [r] && t.(records := []) == s.(records := []);
    assert s.meta.value.network == terms.network;
    RecordsDecide(v, t, password);
    assert t.records[|s.records|] == r;
    forall k | 0 <= k < |s.records| ensures t.records[k] == s.records[k] && t.records[k].id != r.id {}
  }

  /** Replacing record i by one with the same identity leaves only its lifecycle in question. */
  lemma ReplaceDecides(v: Vault, s: Store, password: string, i: nat, r: Record)
    requires Importable(v, s, password) && i < |s.records|
    requires r == s.records[i].(status := r.status, registrationTxid := r.registrationTxid, withdrawalTxid := r.withdrawalTxid)
    ensures Importable(v, s.(records := s.records[i := r]), password) <==> LifecycleValid(r)
  {
    hide Importable, IdentityValid, SeedValid, LifecycleValid;
    ImportableParts(v, s, password);
    var t := s.(records := s.records[i := r]);
    assert t.(records := []) == s.(records := []);
    RecordsDecide(v, t, password);
    SameIdentity(v, s.records[i], r, s.meta.value.network, Addresses(s.keys), password);
    assert t.records[i] == r;
  }

  lemma SameIdentity(v: Vault, a: Record, b: Record, network: string, addresses: seq<string>, password: string)
    requires b == a.(status := b.status, registrationTxid := b.registrationTxid, withdrawalTxid := b.withdrawalTxid)
    ensures IdentityValid(v, a, network, addresses) == IdentityValid(v, b, network, addresses)
    ensures SeedValid(v, a, password) == SeedValid(v, b, password)
  {
    hide ValidAddress, EncodeService;
  }

  /**
   Marking a record registered keeps a store importable exactly when the
   transaction id is not zero and the record was not already withdrawn.
   */
  lemma MarkRegisteredImportable(v: Vault, s: Store, password: string, id: seq<Byte>, txid: seq<Byte>, t: Store)
    requires Importable(v, s, password) && MarkRegistered(s, id, txid) == Some(t)
    ensures Importable(v, t, password) <==> ValidTxid(txid) && s.records[Find(s.records, id)].status != Withdrawn
  {
    hide Importable, Find;
    var i := Find(s.records, id);
    ImportableParts(v, s, password);
    assert RecordValid(v, s.records[i], s.meta.value.network, Addresses(s.keys), password);
    ReplaceDecides(v, s, password, i, s.records[i].(status := Status.Registered, registrationTxid := txid));
  }

  /** Marking it withdrawn does exactly when the id is not zero and the record was registered before. */
  lemma MarkWithdrawnImportable(v: Vault, s: Store, password: string, id: seq<Byte>, txid: seq<Byte>, t: Store)
    requires Importable(v, s, password) && MarkWithdrawn(s, id, txid) == Some(t)
    ensures Importable(v, t, password) <==> ValidTxid(txid) && s.records[Find(s.records, id)].status != Draft
  {
    hide Importable, Find;
    var i := Find(s.records, id);
    ImportableParts(v, s, password);
    assert RecordValid(v, s.records[i], s.meta.value.network, Addresses(s.keys), password);
    ReplaceDecides(v, s, password, i, s.records[i].(status := Withdrawn, withdrawalTxid := txid));
  }

  // ---------------------------------------------------------------- whole lives

  datatype Operation =
    | AddRecord(terms: Record, seed: seq<Byte>, salt: nat)
    | Register(id: seq<Byte>, txid: seq<Byte>)
    | Withdraw(id: seq<Byte>, txid: seq<Byte>)

  predicate WellTyped(o: Operation) {
    o.AddRecord? ==> |o.seed| == 32 && 0 <= o.terms.createdAt <= MAX_SAFE
  }

  /** An operation that throws changes nothing. */
  function Apply(v: Vault, s: Store, password: string, o: Operation): Store
    requires Sound(v) && WellTyped(o)
  {
    var r := match o
             case AddRecord(terms, seed, salt) => CreateRecord(v, s, password, terms, seed, salt)
             case Register(id, txid) => MarkRegistered(s, id, txid)
             case Withdraw(id, txid) => MarkWithdrawn(s, id, txid);
    if r.Some? then r.value else s
  }

  /** What a caller can check to keep its store importable. */
  predicate Careful(s: Store, o: Operation) {
    match o
    case AddRecord(terms, _, _) =>
      |s.records| < MAX_KEYS && (terms.operatorReward > 0 ==> terms.operatorPayoutAddress != "") && EncodeService(terms.service).Some?
    case Register(id, txid) =>
      ValidTxid(txid) && (Find(s.records, id) < |s.records| ==> s.records[Find(s.records, id)].status != Withdrawn)
    case Withdraw(id, txid) =>
      ValidTxid(txid) && (Find(s.records, id) < |s.records| ==> s.records[Find(s.records, id)].status != Draft)
  }

  function ApplyAll(v: Vault, s: Store, password: string, ops: seq<Operation>): Store
    requires Sound(v) && forall i :: 0 <= i < |ops| ==> WellTyped(ops[i])
  {
    if ops == [] then s else Apply(v, ApplyAll(v, s, password, ops[..|ops| - 1]), password, ops[|ops| - 1])
  }

  lemma ApplyImportable(v: Vault, s: Store, password: string, o: Operation)
    requires Sound(v) && WellTyped(o) && Importable(v, s, password) && Careful(s, o)
    ensures Importable(v, Apply(v, s, password, o), password) && Apply(v, s, password, o).meta == s.meta && Apply(v, s, password, o).keys == s.keys
  {
    hide Importable, ValidTxid, EncodeService;
    match o
    case AddRecord(terms, seed, salt) =>
      var t := CreateRecord(v, s, password, terms, seed, salt);
      if t.Some? { CreateRecordImportable(v, s, password, terms, seed, salt, t.value); }
    case Register(id, txid) =>
      var t := MarkRegistered(s, id, txid);
      if t.Some? { MarkRegisteredImportable(v, s, password, id, txid, t.value); }
    case Withdraw(id, txid) =>
      var t := MarkWithdrawn(s, id, txid);
      if t.Some? { MarkWithdrawnImportable(v, s, password, id, txid, t.value); }
  }

  /**
   Every store reached from a new wallet with different addresses by careful
   operations has a backup that imports and restores it.
   */
  lemma {:induction false} LifeImportable(v: Vault, s: Store, password: string, ops: seq<Operation>)
    requires Sound(v) && Importable(v, s, password) && s.meta.Some? && ValidSecret(s.meta.value.encryptedMnemonic)
    requires forall i :: 0 <= i < |ops| ==> WellTyped(ops[i])
    requires forall i {:trigger ops[i]} :: 0 <= i < |ops| ==> Careful(ApplyAll(v, s, password, ops[..i]), ops[i])
    ensures var t := ApplyAll(v, s, password, ops);
            && Importable(v, t, password) && t.meta == s.meta && t.keys == s.keys
            && var r := Import(v, EMPTY, Export(t).value, password).value;
            r.meta.Some? && r.meta.value.network == t.meta.value.network && r.meta.value.encryptedMnemonic == t.meta.value.encryptedMnemonic
            && r.keys == t.keys && r.records == t.records
  {
    hide Import, Export, Careful, Apply, WellTyped;
    if ops == [] {
    } else {
      var before := ops[..|ops| - 1];
      forall i | 0 <= i < |before| ensures Careful(ApplyAll(v, s, password, before[..i]), before[i]) {
        assert before[..i] == ops[..i] && before[i] == ops[i];
      }
      LifeImportable(v, s, password, before);
      assert Careful(ApplyAll(v, s, password, ops[..|ops| - 1]), ops[|ops| - 1]);
      ApplyImportable(v, ApplyAll(v, s, password, before), password, ops[|ops| - 1]);
    }
    ImportRestores(v, ApplyAll(v, s, password, ops), password);
  }

  // ---------------------------------------------------------------- unlocking

  /** The seed of key i, when it decrypts to the key's address. */
  function SeedOf(v: Vault, k: Key, network: string, password: string): Option<seq<Byte>> {
    match v.decrypt(k.encryptedSeed, password)
    case Some(SeedText(seed)) => if |seed| == 32 && AddressForSeed(v, seed, network) == Some(k.address) then Some(seed) else None
    case _ => None
  }

  /** Unlocking the restored wallet yields, address by address, the seeds of the original. */
  lemma RestoredSeeds(v: Vault, s: Store, password: string, i: nat)
    requires Sound(v) && Importable(v, s, password) && ValidSecret(s.meta.value.encryptedMnemonic) && i < |s.keys|
    ensures var r := Import(v, EMPTY, Export(s).value, password).value;
            && PasswordMatches(v, r, password)
            && SeedOf(v, r.keys[i], r.meta.value.network, password).Some?
            && SeedOf(v, r.keys[i], r.meta.value.network, password) == SeedOf(v, s.keys[i], s.meta.value.network, password)
  {
    hide RecordsAccepted, AddressForSeed, ValidAddress, Addresses;
    ImportRestores(v, s, password);
    assert v.decrypt(v.encrypt(VerifierText, password, 0), password) == Some(VerifierText);
    var phrase := PhraseOf(v, Export(s).value, password).value;
    assert KeyValid(v, s.keys[i], i, phrase, s.meta.value.network, password);
  }

  // ---------------------------------------------------------------- a store that meets the assumptions

  function Text(bytes: seq<Byte>): (s: string)
    ensures |s| == |bytes| && forall i :: 0 <= i < |s| ==> s[i] == bytes[i] as char
  {
    if bytes == [] then "" else Text(bytes[..|bytes| - 1]) + [bytes[|bytes| - 1] as char]
  }

  function Codes(s: string): (bytes: seq<Byte>)
    ensures |bytes| == |s| && forall i :: 0 <= i < |s| ==> bytes[i] == s[i] as int % 256
  {
    if s == "" then [] else Codes(s[..|s| - 1]) + [s[|s| - 1] as int % 256]
  }

  function PlainMark(x: Plain): (s: string)
    ensures 0 < |s|
  {
    match x
    case SeedText(seed) => ['s'] + Text(seed)
    case PhraseText(phrase) => ['p'] + phrase
    case VerifierText => "v"
  }

  function PlainOf(s: string): Option<Plain> {
    if s == "" then None
    else if s[0] == 's' then Some(SeedText(Codes(s[1..])))
    else if s[0] == 'p' then Some(PhraseText(s[1..]))
    else Some(VerifierText)
  }

  lemma PlainOfMark(x: Plain)
    requires Encryptable(x)
    ensures PlainOf(PlainMark(x)) == Some(x) && |PlainMark(x)| <= MAX_SECRET
  {
    match x
    case SeedText(seed) => assert Codes(Text(seed)) == seed;
    case PhraseText(phrase) =>
    case VerifierText =>
  }

  /** A vault without secrets, in which "a" is a valid phrase. */
  function OpenVault(): Vault {
    var crypto := Crypto(_ => ZeroBytes(32), (_, _) => ZeroBytes(32), (_, _, _) => None, (_, _, _, _) => false);
    Vault((x, _, _) => PlainMark(x), (s, _) => PlainOf(s), _ => ZeroBytes(PUBLIC_KEY_SIZE), (_, _) => ZeroBytes(32),
          m => m == "a", m => m, crypto)
  }

  /** The assumptions can be met, together with everything a restored wallet needs. */
  lemma AssumptionsMet() returns (v: Vault, s: Store)
    ensures Sound(v) && Create(v, EMPTY, "secret", "testnet", 1, "a") == Some(s) && Importable(v, s, "secret")
  {
    hide ZeroBytes, PlainMark, PlainOf, Importable, AddressForSeed, TxDomain;
    v := OpenVault();
    forall x: Plain, p: string, n: nat | Encryptable(x)
      ensures v.decrypt(v.encrypt(x, p, n), p) == Some(x) && 0 < |v.encrypt(x, p, n)| <= MAX_SECRET
    {
      PlainOfMark(x);
    }
    TestnetKnown();
    s := Create(v, EMPTY, "secret", "testnet", 1, "a").value;
    CreateImportable(v, "secret", "testnet", 1, "a", s);
  }

  lemma TestnetKnown()
    ensures TxDomain("testnet").Some?
  {
  }
}
