/** What creating, importing and changing a wallet means, in plain terms: each condition on a backup, and what every operation leaves. */
module WalletMeaning {
  import opened Wrappers
  import opened Bytes
  import opened Address
  import opened Signer
  import opened Registration
  import opened WalletStore

  /** A secret of 1 to 512 characters that decrypts to these 32 bytes. */
  predicate Holds(v: Vault, secret: string, password: string, seed: seq<Byte>) {
    1 <= |secret| <= 512 && |seed| == 32 && v.decrypt(secret, password) == Some(SeedText(seed))
  }

  /** The key's seed makes its address and, if the backup has a phrase, is what the phrase derives at the key's place. */
  ghost predicate KeyMatches(v: Vault, k: Key, i: nat, phrase: Option<string>, network: string, password: string) {
    exists seed: seq<Byte> ::
      && Holds(v, k.encryptedSeed, password, seed)
      && AddressFromPublicKey(v.crypto, v.publicKey(seed), network) == Some(k.address)
      && (phrase.Some? ==> seed == v.derive(phrase.value, i))
  }

  /** The backup's phrase, if it has one: it decrypts, and is valid once normalized. */
  ghost predicate PhraseIs(v: Vault, b: Backup, password: string, phrase: Option<string>) {
    match b.encryptedMnemonic
    case None => phrase == None
    case Some(secret) =>
      1 <= |secret| <= 512 && exists p: string ::
        v.decrypt(secret, password) == Some(PhraseText(p)) && phrase == Some(v.normalize(p)) && v.validPhrase(v.normalize(p))
  }

  predicate IsTxid(txid: seq<Byte>) {
    |txid| == 32 && exists i :: 0 <= i < 32 && txid[i] != 0
  }

  /** The operator key is that of the encrypted seed, and names the record. */
  ghost predicate OperatorMatches(v: Vault, r: Record, network: string, password: string) {
    && IdFromPublicKey(v.crypto, r.operatorPublicKey, network) == Some(r.id)
    && exists seed: seq<Byte> :: Holds(v, r.encryptedOperatorSeed, password, seed) && v.publicKey(seed) == r.operatorPublicKey
  }

  /** The owner and the collateral are keys of the backup, the payouts valid addresses of the network. */
  predicate AddressesMatch(r: Record, keys: seq<Key>, network: string) {
    && (exists i :: 0 <= i < |keys| && keys[i].address == r.ownerAddress)
    && (exists i :: 0 <= i < |keys| && keys[i].address == r.collateralAddress)
    && IdFromAddress(r.payoutAddress, network).Some?
    && (if r.operatorPayoutAddress == "" then r.operatorReward == 0
        else IdFromAddress(r.operatorPayoutAddress, network).Some? && 0 <= r.operatorReward <= 10000)
  }

  /** A registered record names its registration, a withdrawn one its withdrawal as well. */
  predicate TransactionsMatch(r: Record) {
    && IsTxid(r.collateralTxid) && 0 <= r.collateralVout <= 0xffff_ffff
    && (if r.status.Draft? then r.registrationTxid == [] else IsTxid(r.registrationTxid))
    && (if r.status.Withdrawn? then IsTxid(r.withdrawalTxid) else r.withdrawalTxid == [])
  }

  ghost predicate RecordMatches(v: Vault, r: Record, keys: seq<Key>, network: string, password: string) {
    && r.network == network && 0 <= r.createdAt <= 0x1f_ffff_ffff_ffff && EncodeService(r.service).Some?
    && OperatorMatches(v, r, network, password) && AddressesMatch(r, keys, network) && TransactionsMatch(r)
  }

  predicate KeysDiffer(keys: seq<Key>) {
    forall i, j :: 0 <= i < j < |keys| ==> keys[i].address != keys[j].address
  }

  predicate RecordsDiffer(records: seq<Record>) {
    forall i, j :: 0 <= i < j < |records| ==> records[i].id != records[j].id
  }

  /** All that an import demands. */
  ghost predicate Acceptable(v: Vault, b: Backup, password: string, phrase: Option<string>) {
    && |password| >= 6 && b.version in {1, 2, 3} && b.network in {"testnet", "regtest"}
    && PhraseIs(v, b, password, phrase)
    && 1 <= |b.keys| <= 100 && KeysDiffer(b.keys)
    && (forall i :: 0 <= i < |b.keys| ==> KeyMatches(v, b.keys[i], i, phrase, b.network, password))
    && (b.version != 1 ==>
          && |b.records| <= 100 && RecordsDiffer(b.records)
          && forall i :: 0 <= i < |b.records| ==> RecordMatches(v, b.records[i], b.keys, b.network, password))
  }

  // ---------------------------------------------------------------- check by check

  lemma AddressIsValid(c: Crypto, publicKey: seq<Byte>, network: string, address: string)
    requires AddressFromPublicKey(c, publicKey, network) == Some(address)
    ensures IdFromAddress(address, network).Some?
  {
    hide AddressFromId, IdFromAddress;
    var id := IdFromPublicKey(c, publicKey, network).value;
    AddressBijection(address, id, network);
  }

  lemma KeyMeans(v: Vault, k: Key, i: nat, phrase: Option<string>, network: string, password: string)
    requires phrase != Some("")
    ensures KeyValid(v, k, i, if phrase.Some? then phrase.value else "", network, password) <==> KeyMatches(v, k, i, phrase, network, password)
  {
    hide AddressFromPublicKey, IdFromAddress;
    if KeyValid(v, k, i, if phrase.Some? then phrase.value else "", network, password) {
      assert Holds(v, k.encryptedSeed, password, v.decrypt(k.encryptedSeed, password).value.seed);
    }
    if KeyMatches(v, k, i, phrase, network, password) {
      var seed: seq<Byte> :| Holds(v, k.encryptedSeed, password, seed)
                             && AddressFromPublicKey(v.crypto, v.publicKey(seed), network) == Some(k.address)
                             && (phrase.Some? ==> seed == v.derive(phrase.value, i));
      AddressIsValid(v.crypto, v.publicKey(seed), network, k.address);
    }
  }

  lemma PhraseMeans(v: Vault, b: Backup, password: string, phrase: Option<string>)
    requires !v.validPhrase("")
    ensures PhraseIs(v, b, password, phrase) ==> phrase != Some("")
    ensures PhraseIs(v, b, password, phrase) ==> PhraseOf(v, b, password) == Some(if phrase.Some? then phrase.value else "")
    ensures PhraseOf(v, b, password).Some? ==>
              PhraseIs(v, b, password, if b.encryptedMnemonic.Some? then PhraseOf(v, b, password) else None)
  {
  }

  lemma TxidMeans(txid: seq<Byte>)
    ensures ValidTxid(txid) <==> IsTxid(txid)
  {
    var zeros := ZeroBytes(32);
    if |txid| == 32 && txid != zeros {
      var i :| 0 <= i < 32 && txid[i] != zeros[i];
      assert txid[i] != 0;
    }
  }

  lemma OperatorMeans(v: Vault, r: Record, network: string, password: string)
    ensures OperatorMatches(v, r, network, password) <==>
              && |r.id| == 32 && |r.operatorPublicKey| == 1312 && ValidSecret(r.encryptedOperatorSeed)
              && IdFromPublicKey(v.crypto, r.operatorPublicKey, network) == Some(r.id) && SeedValid(v, r, password)
  {
    if ValidSecret(r.encryptedOperatorSeed) && SeedValid(v, r, password) {
      assert Holds(v, r.encryptedOperatorSeed, password, v.decrypt(r.encryptedOperatorSeed, password).value.seed);
    }
  }

  lemma AddressesMean(r: Record, keys: seq<Key>, network: string)
    ensures AddressesMatch(r, keys, network) <==>
              && r.ownerAddress in Addresses(keys) && r.collateralAddress in Addresses(keys)
              && ValidAddress(r.payoutAddress, network)
              && (r.operatorPayoutAddress != "" ==> ValidAddress(r.operatorPayoutAddress, network))
              && 0 <= r.operatorReward <= 10000 && (r.operatorReward > 0 ==> r.operatorPayoutAddress != "")
  {
    hide IdFromAddress;
    var addresses := Addresses(keys);
    assert forall i :: 0 <= i < |keys| ==> addresses[i] == keys[i].address;
  }

  lemma TransactionsMean(r: Record)
    ensures TransactionsMatch(r) <==> LifecycleValid(r) && ValidTxid(r.collateralTxid) && 0 <= r.collateralVout < 0x1_0000_0000
  {
    hide ValidTxid, IsTxid;
    TxidMeans(r.collateralTxid);
    TxidMeans(r.registrationTxid);
    TxidMeans(r.withdrawalTxid);
  }

  lemma RecordMeans(v: Vault, r: Record, keys: seq<Key>, network: string, password: string)
    ensures RecordValid(v, r, network, Addresses(keys), password) <==> RecordMatches(v, r, keys, network, password)
  {
    OperatorMeans(v, r, network, password);
    AddressesMean(r, keys, network);
    TransactionsMean(r);
    hide OperatorMatches, AddressesMatch, TransactionsMatch, SeedValid, LifecycleValid, Addresses, ValidAddress, ValidTxid,
      ValidSecret, EncodeService, IdFromPublicKey;
  }

  lemma KeysMean(v: Vault, keys: seq<Key>, phrase: Option<string>, network: string, password: string)
    requires phrase != Some("")
    ensures KeysAccepted(v, keys, if phrase.Some? then phrase.value else "", network, password) <==>
              1 <= |keys| <= 100 && KeysDiffer(keys) && forall i :: 0 <= i < |keys| ==> KeyMatches(v, keys[i], i, phrase, network, password)
  {
    hide KeyValid, KeyMatches;
    var p := if phrase.Some? then phrase.value else "";
    forall i | 0 <= i < |keys| ensures KeyValid(v, keys[i], i, p, network, password) <==> KeyMatches(v, keys[i], i, phrase, network, password) {
      KeyMeans(v, keys[i], i, phrase, network, password);
    }
    var addresses := Addresses(keys);
    assert forall i :: 0 <= i < |keys| ==> addresses[i] == keys[i].address;
  }

  lemma RecordsMean(v: Vault, records: seq<Record>, keys: seq<Key>, network: string, password: string)
    ensures RecordsAccepted(v, records, network, Addresses(keys), password) <==>
              && |records| <= 100 && RecordsDiffer(records)
              && forall i :: 0 <= i < |records| ==> RecordMatches(v, records[i], keys, network, password)
  {
    hide RecordValid, RecordMatches, Addresses;
    forall i | 0 <= i < |records|
      ensures RecordValid(v, records[i], network, Addresses(keys), password) <==> RecordMatches(v, records[i], keys, network, password)
    {
      RecordMeans(v, records[i], keys, network, password);
    }
  }

  // ---------------------------------------------------------------- the import

  lemma AcceptedMeans(v: Vault, s: Store, b: Backup, password: string, phrase: Option<string>)
    requires !v.validPhrase("") && s.meta == None && PhraseIs(v, b, password, phrase)
    ensures Import(v, s, b, password).Some? <==> Acceptable(v, b, password, phrase)
  {
    hide KeysAccepted, RecordsAccepted, PhraseIs, PhraseOf, KeyMatches, RecordMatches, KeysDiffer, RecordsDiffer, Addresses;
    PhraseMeans(v, b, password, phrase);
    KeysMean(v, b.keys, phrase, b.network, password);
    RecordsMean(v, b.records, b.keys, b.network, password);
    NoRecords(v, b.network, Addresses(b.keys), password);
  }

  /**
   An import succeeds exactly when there is no wallet yet and the backup is
   acceptable with its own phrase: a phrase that derives the keys, keys that make
   their addresses, and records whose operator keys are those of their seeds. It
   stores the keys in order and, from versions 2 and 3, the records as they are.
   */
  lemma ImportExactly(v: Vault, s: Store, b: Backup, password: string)
    requires !v.validPhrase("")
    ensures Import(v, s, b, password).Some? <==> s.meta == None && exists phrase :: Acceptable(v, b, password, phrase)
    ensures Import(v, s, b, password).Some? ==>
              var r := Import(v, s, b, password).value;
              && r.keys == b.keys && r.records == (if b.version == 1 then [] else b.records)
              && r.meta.Some? && r.meta.value.network == b.network
              && r.meta.value.encryptedMnemonic == (if b.encryptedMnemonic.Some? then b.encryptedMnemonic.value else "")
  {
    hide KeysAccepted, RecordsAccepted, PhraseIs, KeyMatches, RecordMatches, KeysDiffer, RecordsDiffer, Addresses, PhraseOf;
    if Import(v, s, b, password).Some? {
      var phrase := if b.encryptedMnemonic.Some? then PhraseOf(v, b, password) else None;
      PhraseMeans(v, b, password, phrase);
      AcceptedMeans(v, s, b, password, phrase);
    }
    if s.meta == None {
      if phrase :| Acceptable(v, b, password, phrase) {
        AcceptedMeans(v, s, b, password, phrase);
      }
    }
  }

  // ---------------------------------------------------------------- creating

  /** A new wallet: every key holds what the phrase derives at its place, under the address that this seed makes. */
  lemma CreatedMeans(v: Vault, s: Store, password: string, network: string, count: int, mnemonic: string, t: Store)
    requires Sound(v) && Create(v, s, password, network, count, mnemonic) == Some(t)
    ensures s.meta == None && |password| >= 6 && network in {"testnet", "regtest"} && v.validPhrase(v.normalize(mnemonic))
    ensures 1 <= count <= 100 && |t.keys| == count && t.records == []
    ensures forall i :: 0 <= i < count ==> KeyMatches(v, t.keys[i], i, Some(v.normalize(mnemonic)), network, password)
    ensures t.meta.Some? && t.meta.value.network == network && v.decrypt(t.meta.value.verifier, password) == Some(VerifierText)
    ensures v.decrypt(t.meta.value.encryptedMnemonic, password) == Some(PhraseText(v.normalize(mnemonic)))
  {
    hide MakeKeys, KeyMatches;
    var phrase := v.normalize(mnemonic);
    assert Encryptable(PhraseText(phrase)) && Encryptable(VerifierText);
    forall i | 0 <= i < count ensures KeyMatches(v, t.keys[i], i, Some(phrase), network, password) {
      assert t.keys[i] == MakeKey(v, phrase, network, password, i);
      MadeKeyMatches(v, phrase, network, password, i);
    }
  }

  lemma MadeKeyMatches(v: Vault, phrase: string, network: string, password: string, i: nat)
    requires Sound(v) && TxDomain(network).Some?
    ensures KeyMatches(v, MakeKey(v, phrase, network, password, i), i, Some(phrase), network, password)
  {
    hide AddressFromPublicKey;
    var seed := v.derive(phrase, i);
    assert Encryptable(SeedText(seed));
    assert Holds(v, v.encrypt(SeedText(seed), password, i), password, seed);
  }

  /** `getRecoveryMnemonic`: None where it throws. */
  function Recover(v: Vault, s: Store, password: string): Option<string> {
    if |password| < MIN_PASSWORD || !PasswordMatches(v, s, password) || !ValidSecret(s.meta.value.encryptedMnemonic) then None
    else
      match v.decrypt(s.meta.value.encryptedMnemonic, password)
      case Some(PhraseText(p)) =>
        var phrase := v.normalize(p);
        if v.validPhrase(phrase)
           && forall i :: 0 <= i < |s.keys| ==> AddressForSeed(v, v.derive(phrase, i), s.meta.value.network) == Some(s.keys[i].address)
        then Some(phrase) else None
      case _ => None
  }

  /** The phrase of a new wallet can be read back. */
  lemma CreatedRecovers(v: Vault, s: Store, password: string, network: string, count: int, mnemonic: string, t: Store)
    requires Sound(v) && Create(v, s, password, network, count, mnemonic) == Some(t)
    ensures Recover(v, t, password) == Some(v.normalize(mnemonic))
  {
    hide AddressFromPublicKey, Create;
    CreatedMeans(v, s, password, network, count, mnemonic, t);
    CreatedSecret(v, s, password, network, count, mnemonic, t);
  }

  lemma CreatedSecret(v: Vault, s: Store, password: string, network: string, count: int, mnemonic: string, t: Store)
    requires Sound(v) && Create(v, s, password, network, count, mnemonic) == Some(t)
    ensures t.meta.Some? && ValidSecret(t.meta.value.encryptedMnemonic)
  {
    hide MakeKeys;
    assert Encryptable(PhraseText(v.normalize(mnemonic)));
  }

  /** And so can the phrase of an imported wallet: it is never one that restores other addresses. */
  lemma ImportRecovers(v: Vault, s: Store, b: Backup, password: string, p: string)
    requires Sound(v) && Import(v, s, b, password).Some?
    requires b.encryptedMnemonic.Some? && v.decrypt(b.encryptedMnemonic.value, password) == Some(PhraseText(p))
    ensures Recover(v, Import(v, s, b, password).value, password) == Some(v.normalize(p))
  {
    ImportExactly(v, s, b, password);
    ImportLocks(v, s, b, password);
    hide AddressFromPublicKey, Import, RecordMatches, KeysDiffer, RecordsDiffer;
    var phrase :| Acceptable(v, b, password, phrase);
    assert phrase == Some(v.normalize(p));
  }

  lemma ImportLocks(v: Vault, s: Store, b: Backup, password: string)
    requires Sound(v) && Import(v, s, b, password).Some?
    ensures PasswordMatches(v, Import(v, s, b, password).value, password)
  {
    hide KeysAccepted, RecordsAccepted, PhraseOf;
    assert Encryptable(VerifierText);
  }

  /** A backup is of version 3 and has everything but the verifier: the network, a usable phrase secret, the keys and the records. */
  lemma Exported(s: Store)
    ensures Export(s).Some? <==> s.meta.Some?
    ensures s.meta.Some? ==>
              var b, secret := Export(s).value, s.meta.value.encryptedMnemonic;
              && b.version == 3 && b.network == s.meta.value.network && b.keys == s.keys && b.records == s.records
              && b.encryptedMnemonic == if 1 <= |secret| <= 512 then Some(secret) else None
  {
  }

  /** A created record keeps the terms it was given; its operator key is the seed's, its id the key's, and no other record has it. */
  lemma RecordCreated(v: Vault, s: Store, password: string, terms: Record, seed: seq<Byte>, salt: nat, t: Store)
    requires Sound(v) && |seed| == 32 && CreateRecord(v, s, password, terms, seed, salt) == Some(t)
    ensures PasswordMatches(v, s, password) && t.meta == s.meta && t.keys == s.keys && |t.records| == |s.records| + 1
    ensures t.records[..|s.records|] == s.records && forall i :: 0 <= i < |s.records| ==> s.records[i].id != t.records[|s.records|].id
    ensures var r := t.records[|s.records|];
            && OperatorMatches(v, r, s.meta.value.network, password) && r.operatorPublicKey == v.publicKey(seed)
            && r.network == terms.network == s.meta.value.network && r.createdAt == terms.createdAt
            && r.ownerAddress == terms.ownerAddress && r.collateralAddress == terms.collateralAddress
            && r.payoutAddress == terms.payoutAddress && r.operatorPayoutAddress == terms.operatorPayoutAddress
            && r.operatorReward == terms.operatorReward && r.service == terms.service
            && r.collateralTxid == terms.collateralTxid && r.collateralVout == terms.collateralVout
            && r.status.Draft? && r.registrationTxid == [] && r.withdrawalTxid == []
  {
    hide Addresses, ValidAddress, Find;
    assert Encryptable(SeedText(seed));
    var r := NewRecord(v, password, terms, seed, salt);
    assert Holds(v, r.encryptedOperatorSeed, password, seed);
  }

  /** The two records are the same but for the status and the two transaction ids. */
  predicate SameTerms(a: Record, b: Record) {
    && a.id == b.id && a.network == b.network && a.createdAt == b.createdAt
    && a.ownerAddress == b.ownerAddress && a.collateralAddress == b.collateralAddress
    && a.payoutAddress == b.payoutAddress && a.operatorPayoutAddress == b.operatorPayoutAddress
    && a.operatorReward == b.operatorReward && a.service == b.service
    && a.collateralTxid == b.collateralTxid && a.collateralVout == b.collateralVout
    && a.operatorPublicKey == b.operatorPublicKey && a.encryptedOperatorSeed == b.encryptedOperatorSeed
  }

  /** Marking touches the one record with the id, and of that only the status and the transaction named. */
  lemma RecordMarked(s: Store, id: seq<Byte>, txid: seq<Byte>) returns (i: nat)
    ensures MarkRegistered(s, id, txid).Some? <==> |txid| == 32 && exists k :: 0 <= k < |s.records| && s.records[k].id == id
    ensures MarkWithdrawn(s, id, txid).Some? <==> MarkRegistered(s, id, txid).Some?
    ensures MarkRegistered(s, id, txid).Some? ==>
              var r, w := MarkRegistered(s, id, txid).value, MarkWithdrawn(s, id, txid).value;
              && i < |s.records| == |r.records| == |w.records| && s.records[i].id == id
              && r.meta == w.meta == s.meta && r.keys == w.keys == s.keys
              && (forall k :: 0 <= k < |s.records| && k != i ==> r.records[k] == w.records[k] == s.records[k])
              && SameTerms(r.records[i], s.records[i]) && SameTerms(w.records[i], s.records[i])
              && r.records[i].status.Registered? && r.records[i].registrationTxid == txid
              && r.records[i].withdrawalTxid == s.records[i].withdrawalTxid
              && w.records[i].status.Withdrawn? && w.records[i].withdrawalTxid == txid
              && w.records[i].registrationTxid == s.records[i].registrationTxid
  {
    i := Find(s.records, id);
    hide Find;
  }
}
