# A model of the OrganicLifeCoin web wallet

The wallet runs in the browser and holds its own keys. This project models the
code a mistake in would cost money or lose a wallet, and proves what that code
keeps. Its newer part (`scripts/pqwallet/`) uses ML-DSA signatures; its older
part (`scripts/`) keeps a mempool, builds transactions and follows a stream of
shielded blocks.

| module | models |
|---|---|
| `Words`, `Checksum`, `BitGroups`, `Bech32`, `KnownStrings`, `Address` | 32-bit words as numbers, the GF(2)-linear Bech32m checksum ("Checksum" of BIP-173, "Bech32m" of BIP-350), the bit regrouper, and addresses |
| `Bytes`, `PqWire`, `PqReader`, `PqSize` | the transaction wire format, its cursor parser, and the exact encoded length |
| `SignatureMessage`, `Signer` | the message an input signs, and signing |
| `PreviousOutput`, `Merkle`, `StakeTemplate` | checking and signing a block prepared by a server |
| `SessionSpec`, `SessionSafety`, `SessionCauses`, `StakingSession` | the asynchronous staking session: its steps, what every run keeps, why it does what it does, and the object |
| `Coins`, `Fees`, `CoinSelect`, `Masternode`, `Registration`, `RegistrationLayout` | coin choice, fees, and masternode registration |
| `WalletStore`, `WalletMeaning`, `SeedVault`, `Mnemonic` | the encrypted store and its backup, what is accepted and what changes, seeds in memory, recovery phrases |
| `MempoolSpec`, `Mempool`, `MempoolMeaning`, `Ripening`, `WalletBalance` | outpoint statuses, cached balances, what a balance is and what moves it, what it owes to the chain height, and the wallet that answers with it |
| `LegacyTx`, `LegacyReader`, `TxBuilder` | the older format, its parser that reverses inside its own input, and the transaction builder |
| `StreamSpec`, `StreamReader`, `ShieldSync`, `SyncRun` | the growing stream buffer, the framed block stream, and the syncer on its stream in every order of events |
| `AddressWindow` | the window of derived addresses a wallet watches |

A source function that computes is a function. One that loops or changes an
object is a method or a class, proved equal to such a function, and the
theorems are about the functions. `None` (or `Fail`) is the source's thrown
error. Hexadecimal strings are the bytes they stand for. Satoshi amounts are
integers, with 64-bit bounds written out where the format has them.

SHA-256, ML-DSA, AES-GCM, key derivation, the word list, the clock, network
replies, random values and `Array.sort` are parameters or, for the sort, an
insertion sort. What is used of them is only: hashes have 32 bytes,
decryption undoes encryption of what the store encrypts (the verifier, 32-byte
seeds and phrases of at most 215 lowercase letters and spaces) under the same
password into at most 512 characters, derived seeds and keys have their sizes,
phrase normalization is idempotent, and a valid phrase is not empty and of that
form. `WalletStore.AssumptionsMet` shows that all of this can be met at once.
Collisions are never excluded: where a collision would matter, as in the
transaction tree, the theorem produces it.

Properties that do not hold as one would hope, with the exact condition:

- Re-serializing accepted bytes fails exactly when an output value is negative
  (`PqWire.Reserialize`): the parser reads signed values, the writer refuses
  negative ones. Every negative 64-bit value is accepted in some transfer
  (`PqSize.NegativeAccepted`).
- The transaction tree's root does not fix the list of transactions. It does, up
  to a collision, among lists of one length, and for every two lengths there are
  lists that share a root (`Merkle.RootFixesAtOneLength`): a repeated last
  transaction is one way, 64 bytes that read as two child hashes another
  (`Merkle.RepeatedLastKeepsRoot`, `Merkle.PairAsTransaction`).
- `convertBits` admits all widths up to 32, but its 32-bit accumulator regroups
  correctly exactly when both widths are at most 31 and their sum, less their
  greatest common divisor, is at most 32 (`BitGroups.WidthsExact`); for every
  other pair there are values that come out wrong (`BitGroups.ConvertWrong`).
  Addresses use 8 and 5, which are right (`BitGroups.AddressWidths`).
- Without a change address `selectCoins` stops at the first sufficient choice
  that leaves change, even when a later one needs none (last clause of
  `CoinSelect.SelectCoins`; a list where it happens:
  `CoinSelect.LaterPairLeavesNothing`).
- Change to an exchange address does not pay for its own output, and the 253rd
  output costs two bytes nobody pays for: `TxBuilder.CreateTransaction` says
  exactly when a transaction pays too little, and
  `TxBuilder.UnderpaymentHappens` gives both cases.
- Registration data reads the same for a missing operator payout address and for
  the address of the all-zero id, and for no other two different registrations
  (`Registration.TermsInjective`, `Registration.PayoutAmbiguous`).
- A transaction without inputs does not drop the mempool's cached balances;
  they stay right exactly when it changes none (`Mempool.CachedWithoutInputs`,
  `Mempool.InputlessCanGoStale`). Used through the wallet it never changes one
  (`Mempool.KeptBalance`, `WalletBalance.Wallet.AddTransaction`).
- A new block moves the chain height at once, and the caches are dropped only
  after the block has been fetched, or not at all before the wallet is
  synchronised. In between the wallet answers with the balance at the height its
  cache was filled at. What is missing is exactly what ripened since
  (`WalletBalance.AnswerMisses`), so that on a growing chain an answer is right
  if and only if no output that counts has ripened (`WalletBalance.AnswerRight`).
  An input where one has: `WalletBalance.StaleAfterNewBlock`. From a drop of the
  caches to the next block all is right (`WalletBalance.DropMakesCurrent`,
  `WalletBalance.RightUntilHeightMoves`).
- The immature delegated balance is computed once and never again; it stays
  right exactly while as much is immature as at first
  (`WalletBalance.ImmatureColdFrozen`). Asked for before the delegated balance
  is cached, it is 0, and the delegated balance then counts the immature too
  (`WalletBalance.FirstImmatureCold`, `WalletBalance.SpoiledAtOnce`); the order
  the page asks in avoids that (`WalletBalance.PageOrder`).
- When a shortfall is subtracted from the outputs one can become negative:
  exactly when some output is below its share, the first with the remainder
  (`TxBuilder.CreateTransaction`; an input: `TxBuilder.NegativeOutputHappens`).
- The older format's writer does not write negative values as it reads them
  (`LegacyTx.NegativeMiswritten`).
- Of two keys with one address, unlocking replaces the earlier seed without
  wiping it (`SeedVault.Seeds.Unlock`). Keys that import have different
  addresses (`SeedVault.ImportedNotReplaced`).
- An older transaction reads back as itself exactly when its shielded part has
  a binding signature of at most 64 bytes and version 3 or later, or is absent
  (`LegacyTx.RoundTrip`).
- The store lets through lifecycle steps its own import refuses: a zero
  transaction id, registering a withdrawn record again, withdrawing a draft, an
  invalid service, a reward without payout address, a 101st record. Each
  operation's exact condition is a lemma of `WalletStore`.
- When the stream of blocks breaks off, up to ten complete blocks before the
  break are not delivered (`ShieldSync.BatchesAreOnePass`), whatever the order of
  events (`SyncRun.DeliveredInEveryOrder`).

## Model

| member | source | states |
|---|---|---|
| Checksum.Polymod | scripts/pqwallet/pqaddress.js:28-38 | the shift-and-xor loop computes the register run that the linear-algebra lemmas are about |
| Checksum.Superposition | scripts/pqwallet/pqaddress.js:28-38 | the register is linear over GF(2): running on the xor of two inputs from the xor of two registers gives the xor of the results |
| Checksum.StepInjective | scripts/pqwallet/pqaddress.js:31-36 | one step with the same symbol never merges two different 30-bit registers |
| Checksum.ChecksumUnique | scripts/pqwallet/pqaddress.js:48-58 | of all six-symbol endings exactly one verifies, and it is the one the encoder computes |
| Checksum.BurstDetected | scripts/pqwallet/pqaddress.js:28-58 | at any length and position, two different fillings of at most six consecutive symbols never leave the same register, so at most one verifies |
| Checksum.ComputeChecksum | scripts/pqwallet/pqaddress.js:48-54 | the extracting loop returns the unique verifying ending |
| BitGroups.ConvertBits | scripts/pqwallet/pqaddress.js:115-146 | the loop, for all widths and integers, yields what 32-bit shifts and signed masks make of the values, refusals included |
| BitGroups.BytesThroughSymbols | scripts/pqwallet/pqaddress.js:166-198 | regrouping bytes to five-bit symbols with padding and back without returns the bytes |
| BitGroups.SymbolsThroughBytes | scripts/pqwallet/pqaddress.js:179-198 | symbols that regroup to bytes without padding are the padded regrouping of those bytes |
| BitGroups.WidthsExact | scripts/pqwallet/pqaddress.js:115-146 | that is exactly the regrouping of the concatenated bits, for all values and both paddings, if and only if both widths are at most 31 and from + to - gcd(from, to) is at most 32 |
| BitGroups.ConvertWrong | scripts/pqwallet/pqaddress.js:115-146 | for every other admitted pair of widths, values that are regrouped wrongly |
| Bech32.Bech32mEncode | scripts/pqwallet/pqaddress.js:60-83 | all refusals, and otherwise prefix, separator, data and checksum characters |
| Bech32.Bech32mDecode | scripts/pqwallet/pqaddress.js:85-113 | the scanning loops compute the declarative decoding, every refusal included |
| Bech32.DecodeOfEncode | scripts/pqwallet/pqaddress.js:60-113 | whatever the encoder accepts decodes to the same prefix and data, and is lowercase |
| Bech32.EncodeOfDecode | scripts/pqwallet/pqaddress.js:60-113 | whatever decodes is, up to letter case, the encoding of what it decodes to |
| Bech32.EncodesExactly | scripts/pqwallet/pqaddress.js:60-83 | encoding succeeds if and only if the prefix is not empty, printable and without capitals, the data are five-bit, and the string has at most 90 characters |
| Bech32.DecodedShape | scripts/pqwallet/pqaddress.js:85-113 | what is decoded has 8 to 90 printable characters, not both capitals and small letters, a prefix, and six symbols more than its data |
| KnownStrings.KnownString | scripts/pqwallet/pqaddress.js:24-113 | the BIP-350 string "A1LQFN3A" is accepted with prefix "a" and no data, and "a1lqfn3a" is what the encoder writes for them: the constant, the generators and the order of the symbols, on a value from outside |
| KnownStrings.Alphabet | scripts/pqwallet/pqaddress.js:25 | the symbols 0 to 31 are written and read as "qpzry9x8gf2tvdw0s3jn54khce6mua7l" |
| KnownStrings.ExpandedPrefix | scripts/pqwallet/pqaddress.js:40-46 | a prefix of three letters is expanded to their high bits in order, a zero, and their low bits |
| Address.AddressRoundTrip | scripts/pqwallet/pqaddress.js:166-198 | every 32-byte id has an address, within 90 characters, that reads back as that id |
| Address.NonCanonicalUnreachable | scripts/pqwallet/pqaddress.js:179-198 | the re-encoding check can never fail once the checks before it have passed |
| Address.AddressBijection | scripts/pqwallet/pqaddress.js:166-198 | ids and accepted addresses of a network correspond one to one |
| Address.ScriptBijection | scripts/pqwallet/pqaddress.js:200-213 | scripts of the 35-byte form and accepted addresses correspond one to one |
| Address.ScriptOfId | scripts/pqwallet/pqaddress.js:200-213 | every id has the script ff 51 20 and the id, and one address on each network, each made from the other |
| Address.AddressSpells | scripts/pqwallet/pqaddress.js:166-173 | an address is the prefix, "1", the version symbol 1, 52 symbols that are the id as one number with four zero bits behind it, and six symbols of checksum |
| Address.AddressOfNetwork | scripts/pqwallet/pqaddress.js:5-8 | testnet addresses are 69 characters beginning "olcpqtest1p", regtest addresses 72 beginning "olcpqregtest1p", and no other network has any |
| Address.OneNetwork | scripts/pqwallet/pqaddress.js:179-198 | no network accepts an address of another |
| Address.DamagedAddressRejected | scripts/pqwallet/pqaddress.js:85-113 | an accepted address changed within six consecutive characters after the separator is rejected |
| Bytes.ReadOfPutCompactSize | scripts/pqwallet/pqtxtx.js:45-121 | every 64-bit count reads back from its encoding, whatever follows |
| Bytes.CountForms | scripts/pqwallet/pqtxtx.js:45-66 | a count below 253 is its own byte; others follow 253, 254 or 255 in two, four or eight bytes, the least significant first |
| Bytes.PutOfReadCompactSize | scripts/pqwallet/pqtxtx.js:105-121 | an accepted count determines the bytes it was read from: wider forms are refused |
| Bytes.PutOfReadMany | scripts/pqwallet/pqtxtx.js:402-421 | a list read by a canonical item reader is exactly the concatenation of its items' encodings |
| PqWire.ParseOfEncode | scripts/pqwallet/pqtxtx.js:191-246 | a well-sized transaction of at most 24,000 bytes parses to its own fields in every mode allowed |
| PqWire.EncodeOfParse | scripts/pqwallet/pqtxtx.js:389-446 | accepted bytes are the encoding of the fields parsed, and those fields are within all bounds |
| PqWire.WireCanonical | scripts/pqwallet/pqtxtx.js:297-461 | raw bytes parse to t if and only if t is well sized, of an allowed mode, and raw is its encoding of at most 24,000 bytes |
| PqWire.Reserialize | scripts/pqwallet/pqtxtx.js:159-166 | accepted bytes re-serialize, and to the same bytes, if and only if no output value is negative |
| PqWire.ParsedShape | scripts/pqwallet/pqtxtx.js:389-446 | every accepted transaction begins 03 00 08 00 and its input count, and has one or two inputs with as many keys of 1,312 and signatures of 2,420 bytes, at most two outputs or three when it stakes, and at most 12,000 bytes of data in just the modes that carry any |
| PqWire.ModesOf | scripts/pqwallet/pqtxtx.js:448-461 | wallet transactions are of mode 1 or 6, staking ones of mode 2 |
| PqWire.InputLayout | scripts/pqwallet/pqtxtx.js:191-211 | where each field of an unsigned input is in its 41 bytes |
| PqWire.AuthorizationLayout | scripts/pqwallet/pqtxtx.js:213-246 | the key comes before the signature, in 3,732 bytes |
| PqWire.EndLayout | scripts/pqwallet/pqtxtx.js:325-338 | after the outputs come the locktime, 00 01, and the payload as one field to the end, which begins with 1, the mode and the number of keys |
| PqReader.ByteReader.Read | scripts/pqwallet/pqtxtx.js:76-83 | the cursor advances over exactly the bytes returned, and stays where it is on failure |
| PqReader.ByteReader.ReadCompact | scripts/pqwallet/pqtxtx.js:105-121 | the cursor form of the canonical count reader |
| PqReader.ParsePQTransaction | scripts/pqwallet/pqtxtx.js:389-446 | the cursor parser with its loops accepts and returns exactly what the format's reading functions say |
| PqReader.ParsePayloadBytes | scripts/pqwallet/pqtxtx.js:347-387 | slicing at computed offsets agrees with reading field by field, on every input |
| PqReader.AuthorizationsFit | scripts/pqwallet/pqtxtx.js:354-372 | the up-front length check is exactly what reading the authorizations needs |
| PqSize.EncodeLength | scripts/pqwallet/pqtxtx.js:297-338 | the encoded length as a function of script lengths, counts and data length alone |
| PqSize.NegativeAccepted | scripts/pqwallet/pqtxtx.js:408-421 | for every negative 64-bit value, accepted bytes that cannot be serialized again |
| SignatureMessage.MessageReads | scripts/pqwallet/pqsigner.js:64-139 | a reader that takes the fields one by one, in the order of the format, gets back from every message exactly the request it was built from |
| SignatureMessage.MessageInjective | scripts/pqwallet/pqsigner.js:64-139 | equal messages come from equal requests: genesis, mode, inputs, sequences, spent outputs, outputs, locktime, keys, data and index |
| SignatureMessage.BuildMessage | scripts/pqwallet/pqsigner.js:64-139 | the appending loops build the message of every signable request and refuse every other |
| SignatureMessage.AppendSpends | scripts/pqwallet/pqsigner.js:106-120 | the input loop appends all inputs with their spent outputs, or refuses if any field is out of range |
| Signer.SignedTransactionVerifies | scripts/pqwallet/pqsigner.js:141-234 | a signed transaction has the ordered inputs and outputs, each input's own key authorizes it, every signature verifies over this transaction's own message, and the key is the one its spent output is bound to |
| Signer.InputsSignDifferentMessages | scripts/pqwallet/pqsigner.js:202-221 | no two inputs of a transaction sign the same message |
| PreviousOutput.FindPreviousOutput | scripts/pqwallet/pqstaking.js:23-56 | the offset-advancing decoder computes the declarative prefix decoding |
| PreviousOutput.AgreesWithParse | scripts/pqwallet/pqstaking.js:23-56 | on everything the full parser accepts, it returns that parser's output v exactly when v is an index and the scripts it passes are at most 10,000 bytes |
| PreviousOutput.FindAfter | scripts/pqwallet/pqstaking.js:39-55 | what it finds after the version, for any inputs and outputs and whatever follows them |
| LegacyTx.PreviousOutputAgrees | scripts/pqwallet/pqstaking.js:23-56 | on every older transaction it finds that transaction's output v, under the same bounds, exactly for the versions it admits |
| Merkle.MerkleRoot | scripts/pqwallet/pqstaking.js:58-68 | the level-by-level loop computes the recursive tree root |
| Merkle.SmallRoots | scripts/pqwallet/pqstaking.js:58-68 | the roots of one, two and three transactions, hash by hash: left before right, an odd last one beside itself |
| Merkle.RootCommits | scripts/pqwallet/pqstaking.js:58-68 | equal roots of lists of equal length mean equal lists, or exhibit two different strings hashed for them with one hash |
| Merkle.RootFixesAtOneLength | scripts/pqwallet/pqstaking.js:58-68 | a root fixes the list, up to an exhibited collision, among lists of lengths m and n if and only if m = n |
| Merkle.EveryTwoLengths | scripts/pqwallet/pqstaking.js:58-68 | for every hash and every two different lengths, two lists of those lengths with the same root |
| Merkle.RepeatedLastKeepsRoot | scripts/pqwallet/pqstaking.js:61-65 | one way two lengths share a root: the last of an odd number of transactions repeated |
| Merkle.PairAsTransaction | scripts/pqwallet/pqstaking.js:61-66 | another: one 64-byte transaction equal to the hashes of a pair |
| StakeTemplate.SignStakeTemplate | scripts/pqwallet/pqstaking.js:75-148 | the method with its running size check and overwritten coinstake computes the specified block or refusal |
| StakeTemplate.ReadTransactions | scripts/pqwallet/pqstaking.js:109-115 | the running total refuses exactly when the sum of all sizes exceeds the block limit or a field is malformed |
| StakeTemplate.OnlyAuthorizationChanges | scripts/pqwallet/pqstaking.js:116-132 | the signed coinstake equals the server's except for its authorization, has the same length, and still parses as a coinstake |
| StakeTemplate.SignedBlockSafe | scripts/pqwallet/pqstaking.js:75-148 | server transactions kept in order, only the authorization replaced, the full coin value back to the coin's own script, the reward the difference and paid by the server's own coinbase and stake outputs, the coin read from the transaction whose hash names it and its address that of the signing key, not reserved, on the expected chain and network, expiring at most 60 seconds ahead, at most 4,096 transactions and 2,000,000 bytes |
| StakeTemplate.SignedBlockCommits | scripts/pqwallet/pqstaking.js:132-147 | the emitted header is the template's with the root of the emitted transactions, and the block signature verifies over its hash; after the header and the counted transactions one length-prefixed field of 3,733 bytes ends the block: 1, the public key, the signature, in this order |
| SessionSafety.RunSafe | scripts/pqwallet/pqstaking-session.js:2-73 | in every interleaving: one carrier per generation, exactly one while active; calls and signatures only live, right after a passed check, with a signal not aborted; an error only right after its own stop |
| SessionSafety.StepKeeps | scripts/pqwallet/pqstaking-session.js:9-72 | each step keeps that invariant |
| SessionSafety.StaleResumptionSilent | scripts/pqwallet/pqstaking-session.js:26-58 | a suspended tick of an older generation changes nothing when it resumes, whatever the reply |
| SessionSafety.FallbackUnreachable | scripts/pqwallet/pqstaking-session.js:21-22 | after any run, neither a fired timer nor a start reaches the fallback stop |
| SessionSafety.SilentOnceStopped | scripts/pqwallet/pqstaking-session.js:14-20 | after a stop no reply or timer makes the session call, sign or publish until it is started again |
| SessionCauses.StepAnswers | scripts/pqwallet/pqstaking-session.js:23-58 | everything a step does answers its own event. Only the rotated batch of the candidates just received is sent for preparation, 1 to 128 coins, each confirmed and not reserved. A template is signed only when the server names as best tip the very tip it was prepared on, for the coins it was prepared with. What is submitted is the block signed in this step, and acceptance is published only for a receipt with its hash |
| SessionCauses.StepFollows | scripts/pqwallet/pqstaking-session.js:10-63 | every call, signature, publication and new wait of a step is one its timer or reply entitles the same tick to; nothing else enters the log or waits |
| SessionCauses.RunExplained | scripts/pqwallet/pqstaking-session.js:2-73 | in every run: each signed template was prepared for usable coins of an earlier reply, after which the server named its tip as the best once more; each submitted block was signed at such a moment; each acceptance comes with a later receipt for such a block |
| SessionCauses.BatchAsked | scripts/pqwallet/pqstaking-session.js:26-35 | a live tick that gets candidates sends the batch whole, moves the rotation past it and waits; without a usable coin it waits for the next tick |
| SessionCauses.TipAsked | scripts/pqwallet/pqstaking-session.js:36-41 | a live tick that gets a preparation asks for the best tip if there is a template, and otherwise schedules the next tick |
| SessionCauses.BlockSubmitted | scripts/pqwallet/pqstaking-session.js:42-50 | on the expected tip it signs and submits, with every state and call in order; on any other tip it signs nothing and schedules the next tick |
| SessionCauses.BlockAccepted | scripts/pqwallet/pqstaking-session.js:51-58 | on the receipt of its block it publishes acceptance and schedules the next tick |
| SessionCauses.RoundAccepted | scripts/pqwallet/pqstaking-session.js:21-58 | from candidates to acceptance, four matching replies make exactly the fourteen log entries of a round and leave one timer |
| SessionCauses.UnusableStops | scripts/pqwallet/pqstaking-session.js:36-38 | a rejected, malformed or contradicting reply stops the session, aborts its signal, and publishes idle and then the error |
| SessionCauses.ForbiddenStops | scripts/pqwallet/pqstaking-session.js:9-13 | a reply that comes when signing is no longer allowed stops the session and does nothing else |
| SessionCauses.AllowedUsable | scripts/pqwallet/pqstaking-session.js:27-28 | exactly the confirmed and unreserved candidates are usable, each as often as offered |
| SessionSafety.EveryCoinComesUp | scripts/pqwallet/pqstaking-session.js:29-32 | from any offset every coin is in one of the next n/128 (rounded up) + 1 batches |
| StakingSession.Session.Handle | scripts/pqwallet/pqstaking-session.js:2-73 | handling any event keeps the invariant: one carrier while active, none otherwise, calls and signatures only live and checked. The log only grows, and every new entry answers the event: only the batch received is prepared, only on the expected tip is signed, only what was signed is submitted, only its receipt is accepted. A tick of an older generation changes nothing, a stopped session stays silent |
| StakingSession.Session.Stop | scripts/pqwallet/pqstaking-session.js:14-20 | afterwards nothing is alive: inactive, no timer, every suspended tick of an older generation, the signal aborted; and idle is all that is published |
| StakingSession.Session.Start | scripts/pqwallet/pqstaking-session.js:64-70 | an active session is left as it is; otherwise, if signing is allowed, exactly one tick of a new generation waits for candidates with a signal not aborted, and if not the session is inactive again |
| Fees.TransferSizeExact | scripts/pqwallet/pqcoinselect.js:76-102 | the size estimate is the serialized length of every transfer of that shape |
| Fees.RegistrationSizeExact | scripts/pqwallet/pqmasternode.js:57-70 | so is the registration estimate |
| CoinSelect.BuildSelection | scripts/pqwallet/pqcoinselect.js:113-147 | value conserved, nothing below dust, fee at least the rate's for the shape returned and less than the two-output fee plus dust; null and the missing change address exactly characterised |
| CoinSelect.SelectCoins | scripts/pqwallet/pqcoinselect.js:159-216 | the smallest sufficient coin, otherwise a sufficient pair of least total; fails with a change address exactly when no one or two coins suffice, and without one exactly when the first sufficient choice leaves change |
| CoinSelect.LaterPairLeavesNothing | scripts/pqwallet/pqcoinselect.js:197-210 | four coins and a demand without change address where the first sufficient pair leaves change and a later one leaves nothing |
| CoinSelect.TryPairs | scripts/pqwallet/pqcoinselect.js:197-210 | the nested loops find a least sufficient pair over all pairs of positions |
| CoinSelect.SelectionPaysRate | scripts/pqwallet/pqcoinselect.js:76-147 | the serialized transfer of a selection pays the demanded rate for each of its bytes |
| Masternode.SelectFeeCoins | scripts/pqwallet/pqmasternode.js:72-109 | optimal and complete over the usable coins, with the exact fee and change |
| Masternode.Usable | scripts/pqwallet/pqmasternode.js:82-85 | no usable coin is the collateral, and each has positive value |
| Masternode.UsableWithin | scripts/pqwallet/pqmasternode.js:82-85 | every other coin of positive value is usable, as often as it was offered |
| Registration.EncodeRegistration | scripts/pqwallet/pqmasternode.js:152-175 | registration data always has 11,318 bytes |
| Registration.TermsInjective | scripts/pqwallet/pqmasternode.js:152-175 | registration data is equal if and only if signatures, outpoint, keys, payout address, reward and service are, and the operator payout addresses too but that none reads like the all-zero id |
| Registration.PayoutAmbiguous | scripts/pqwallet/pqmasternode.js:156-158 | a registration without operator payout address, and another that reads alike |
| Registration.RegistrationFits | scripts/pqwallet/pqmasternode.js:199-303 | every one- or two-input registration with standard outputs is exactly its estimate, at most 18,973 bytes, and parses back to itself |
| Registration.RegistrationSound | scripts/pqwallet/pqmasternode.js:199-303 | on testnet, for a collateral of exactly 4,000 coins: each role signature verifies in its role's context over the message of the transaction with blank signatures, the final data differs only in the signatures, inputs and outputs are those ordered, the collateral is no input, and the owner and collateral keys have their addresses |
| RegistrationLayout.DataLayout | scripts/pqwallet/pqmasternode.js:152-175 | where each term is in the 11,318 bytes: version, action, outpoint, the owner's, operator's and collateral's key, payout id, reward, operator payout id, endpoint, and the three signatures in the same order |
| RegistrationLayout.ContextsDiffer | scripts/pqwallet/pqmasternode.js:23-27 | the nine contexts in use are as written in the source, and no two are the same: signatures of one kind, role or network never stand for another's |
| WalletStore.AssumptionsMet | scripts/pqwallet/pqwallet-store.js:262-339 | the assumptions on encryption, keys and phrases can be met, and a wallet created then imports |
| WalletStore.ImportBackup | scripts/pqwallet/pqwallet-store.js:482-633 | the checking loops accept exactly the backups that `Import` accepts, which `WalletMeaning.ImportExactly` characterises |
| WalletMeaning.ImportExactly | scripts/pqwallet/pqwallet-store.js:482-633 | a backup is imported if and only if there is no wallet yet, the password has six characters, version and network are known, its phrase if any decrypts and is valid, each of the 1 to 100 different addresses is that of the seed its key decrypts to, each seed is what the phrase derives at its place, and each of at most 100 different records has an operator seed of its operator key, an id of that key, owner and collateral among the keys, and consistent payouts and transactions. Keys and records are stored as they are, in order |
| WalletMeaning.ImportRecovers | scripts/pqwallet/pqwallet-store.js:425-453 | the phrase of an imported wallet is read back: it never belongs to other addresses |
| WalletMeaning.CreatedMeans | scripts/pqwallet/pqwallet-store.js:262-339 | each key of a new wallet holds what the phrase derives at its place, under that seed's address; the phrase and the verifier decrypt under the password |
| WalletMeaning.CreatedRecovers | scripts/pqwallet/pqwallet-store.js:425-453 | the phrase of a new wallet is read back |
| WalletMeaning.RecordCreated | scripts/pqwallet/pqwallet-store.js:671-723 | a created record keeps every term it was given, as a draft; its operator key is the seed's, its id the key's and no other record's; nothing else changes |
| WalletMeaning.RecordMarked | scripts/pqwallet/pqwallet-store.js:748-772 | marking succeeds exactly for a known id and 32 bytes, and changes only that record's status and the transaction named |
| WalletMeaning.Exported | scripts/pqwallet/pqwallet-store.js:455-480 | a backup is of version 3 and holds the network, all keys and records, and the phrase secret if it has 1 to 512 characters |
| WalletStore.CreateImportable | scripts/pqwallet/pqwallet-store.js:262-339 | a new wallet's backup imports if and only if its addresses are all different |
| WalletStore.CreateRecordImportable | scripts/pqwallet/pqwallet-store.js:671-723 | creating a record keeps the store importable if and only if there were fewer than a hundred, a reward has a payout address and the service is valid |
| WalletStore.MarkRegisteredImportable | scripts/pqwallet/pqwallet-store.js:748-759 | marking registered does if and only if the transaction id is not zero and the record was not withdrawn |
| WalletStore.MarkWithdrawnImportable | scripts/pqwallet/pqwallet-store.js:761-772 | marking withdrawn does if and only if the id is not zero and the record had been registered |
| WalletStore.LifeImportable | scripts/pqwallet/pqwallet-store.js:455-633 | after any sequence of operations each meeting its condition, the backup imports and restores network, phrase, ordered keys and records |
| WalletStore.RestoredSeeds | scripts/pqwallet/pqwallet-store.js:346-379 | the restored wallet unlocks, address by address, to the seeds of the original |
| SeedVault.Seeds.Lock | scripts/pqwallet/pqwallet-store.js:382-389 | every seed array ever handed out by this unlock is zero afterwards |
| SeedVault.Seeds.Unlock | scripts/pqwallet/pqwallet-store.js:346-379 | the seeds of all addresses or none: on failure those decrypted are wiped and the old ones untouched, on success the old ones are wiped; but of two keys with one address the earlier seed is neither held nor wiped |
| SeedVault.ImportedNotReplaced | scripts/pqwallet/pqwallet-store.js:482-633 | keys with different addresses, as an import demands, replace none |
| SeedVault.Seeds.Decrypt | scripts/pqwallet/pqwallet-store.js:245-255 | a seed is kept only if it has the key's address, otherwise its memory is wiped |
| Mnemonic.PhraseBijection | scripts/pqwallet/pqmnemonic.js:15-57 | 32-byte entropies and accepted 24-word phrases correspond one to one |
| Mnemonic.PhraseNumber | scripts/pqwallet/pqmnemonic.js:15-31 | the word positions, as eleven-bit digits, are the same number as the entropy and its checksum byte, as eight-bit digits |
| Mnemonic.EntropyToMnemonic | scripts/pqwallet/pqmnemonic.js:15-31 | the loop cuts the bits of entropy and checksum into the phrase's words |
| Mnemonic.MnemonicToEntropy | scripts/pqwallet/pqmnemonic.js:33-57 | the filling loop and the checksum test compute the declarative inverse |
| MempoolSpec.StatusDeclared | scripts/mempool.js:54-106 | every outpoint's status is what the set of processed transactions declares |
| MempoolSpec.OrderIrrelevant | scripts/wallet.js:1497-1515 | two orders of the same transactions, spender before funder included, give every outpoint the same status |
| MempoolSpec.BalanceOrderIrrelevant | scripts/mempool.js:179-250 | and every balance is the same |
| MempoolMeaning.BalanceMeans | scripts/mempool.js:179-250 | after any history in any order a balance is the value of the own, mature outputs with the required flags that no transaction of the history spends |
| MempoolMeaning.ArrivalMoves | scripts/wallet.js:1497-1515 | a new transaction moves a balance by what its outputs bring less what its inputs were worth, each once |
| MempoolMeaning.SpendingOne | scripts/mempool.js:54-59 | spending one free, mature, own output on someone else lowers the balance by exactly its value |
| MempoolMeaning.LockAndUnlock | scripts/wallet.js:193-213 | locking an outpoint lowers a balance by what it was worth, and unlocking restores it |
| MempoolMeaning.OfferedUnspent | scripts/mempool.js:206-235 | no transaction of the history spends an output that is offered |
| MempoolSpec.KeyRoundTrip | scripts/transaction.js:28-40 | a map key names its outpoint, for ids of 64 characters |
| Mempool.Pool.Process | scripts/wallet.js:1497-1515 | the loops over inputs and outputs leave the specified statuses, drop the caches when there is an input or an own output and keep them otherwise |
| Mempool.Pool.GetBalance | scripts/mempool.js:277-284 | the cached balance whatever the height, or else the recomputed one, which is cached; from caches that agree with the ledger at this height, the recomputed one |
| Mempool.Pool.GetImmatureBalance | scripts/mempool.js:301-309 | the cached one, or else all that is owned less the two other balances as they are cached; from caches that agree, the recomputed one |
| Mempool.Pool.GetImmatureColdBalance | scripts/mempool.js:315-326 | the one ever computed, less a delegated balance asked for without a height |
| Mempool.Pool.GetUTXOs | scripts/mempool.js:206-235 | different outputs, each neither spent nor locked, with the required flags, mature if it has to be, and as its transaction has it; they add up to the balance unless a target is given and they reach a tenth more than it, and none is taken once the ones before it do |
| Mempool.CachedWithoutInputs | scripts/mempool.js:54-59 | without inputs a cached balance stays right if and only if the new outputs count for what the replaced ones did |
| Mempool.InputlessCanGoStale | scripts/mempool.js:54-59 | a concrete stale balance |
| Mempool.KeptBalance | scripts/wallet.js:1497-1515 | a transaction without inputs or own outputs changes no balance, where no output of its id was flagged before |
| WalletBalance.Wallet.AddTransaction | scripts/wallet.js:1497-1515 | after every transaction the wallet adds, each cache still holds the balance of all that was seen, at the height it was filled at |
| WalletBalance.Wallet.Handle | scripts/wallet.js:1080-1092 | so they do after every other event, a height that moves before the caches are dropped included; and the present balance is the answer and what ripened in between |
| WalletBalance.Answers | scripts/wallet.js:1497-1617 | from creation on, over every run in which an id stands for one list of outputs, each answer is the balance, of what had been seen by then, at the height its cache was filled at, and misses exactly what ripened since |
| Ripening.BalanceMoves | scripts/mempool.js:237-250 | a balance at one height is that at any other and the worth of what is immature at the one and mature at the other |
| WalletBalance.AnswerMisses | scripts/wallet.js:1603-1617 | what an answer misses of the present balance, for every question and any state of the caches |
| WalletBalance.AnswerRight | scripts/wallet.js:1603-1613 | over every run on a growing chain without negative amounts, an answer is right if and only if no output that counts has ripened since its cache was filled |
| WalletBalance.RightUntilHeightMoves | scripts/wallet.js:1080-1090 | from creation, or a drop of the caches, until the height next moves every answer is right, unless the immature delegated balance is asked for first |
| WalletBalance.StaleAfterNewBlock | scripts/global.js:516-524 | a new coin of 5 that ripens with the new block and is answered as 0 |
| WalletBalance.FirstImmatureCold | scripts/mempool.js:315-326 | the first answer is what is immature, or 0 where no delegated balance is cached, which then counts the immature |
| WalletBalance.ImmatureColdFrozen | scripts/mempool.js:252-257 | it never changes again, and is right exactly while as much is immature as it says |
| WalletBalance.SpoiledAtOnce | scripts/mempool.js:315-326 | a new delegated coin of 5 that is answered as mature |
| WalletBalance.PageOrder | scripts/composables/use_wallet.js:28-37 | over every run, asking in the order of the page never spoils the delegated balance |
| LegacyTx.DecodeOfEncode | scripts/transaction.js:220-433 | what is read back of any transaction written, field by field |
| LegacyTx.RoundTrip | scripts/transaction.js:220-433 | it is the transaction itself if and only if every field is written where it is read |
| LegacyTx.SpendLayout | scripts/transaction.js:364-433 | where each field of a shielded spend is in its 384 bytes |
| LegacyTx.NoteLayout | scripts/transaction.js:364-433 | where each field of a shielded output is in its 948 bytes |
| LegacyReader.FromHex | scripts/transaction.js:220-362 | reversing hashes inside the buffer being read gives the transaction in the original bytes |
| LegacyReader.ReverseSegment | scripts/transaction.js:228-230 | one segment reversed in place, everything else untouched |
| LegacyReader.Serialize | scripts/transaction.js:364-433 | the buffer-rebuilding loops write the encoding |
| LegacyTx.NegativeMiswritten | scripts/encoding.js:246-254 | negative values written in too few bytes, or as another number |
| TxBuilder.Builder.GetFee | scripts/transaction_builder.js:57-75 | the fee for the largest signatures, less what is handled, and the inputs exactly as before |
| TxBuilder.EstimateIsLength | scripts/transaction_builder.js:57-75 | the estimate is the serialized length with dummy signatures |
| TxBuilder.Builder.AddScript | scripts/transaction_builder.js:169-187 | the output, its reduced value and the handled fee, or nothing for dust |
| TxBuilder.Builder.EquallySubtractAmt | scripts/transaction_builder.js:272-287 | the outputs together lose exactly the amount, all but the first equally; none is negative afterwards if and only if none was below its share |
| TxBuilder.CreateTransaction | scripts/wallet.js:1344-1386 | inputs minus outputs is rate times final size when change is kept or a shortfall the outputs can bear is subtracted; more by less than the change output's cost when it is dropped; less by exactly that cost for an exchange address; too little exactly when `Underpays` says; and no output negative exactly when the outputs bear the shortfall |
| TxBuilder.UnderpaymentHappens | scripts/wallet.js:1344-1386 | change to an exchange, and change as the 253rd output, that underpay |
| TxBuilder.NegativeOutputHappens | scripts/wallet.js:1363-1368 | one output of 100 paid from a coin of 100 becomes negative |
| StreamSpec.RunKeeps | scripts/reader.js:28-135 | in every interleaving the queue holds what was sent, finished calls cover it once and in order, null and short discards come only at the end of the stream, and no suspended call that could go on is left asleep |
| StreamSpec.EndFinishesEveryCall | scripts/reader.js:43-55 | after any run, once the stream has ended a call still suspended has been notified, and finishes when it runs |
| StreamReader.Reader.AppendBytes | scripts/reader.js:70-81 | the queue grows by the bytes, across array growth, and no view handed out changes |
| StreamReader.Reader.ResizeArray | scripts/reader.js:58-68 | a larger array with the same queue; its refusal cannot be reached |
| StreamReader.Reader.Read | scripts/reader.js:87-111 | the next bytes of the stream, null, suspension or refusal, as the queue says |
| StreamReader.Reader.Discard | scripts/reader.js:117-135 | progress and suspension as the queue says |
| ShieldSync.BatchesAreOnePass | scripts/shield_syncer.js:29-69 | the batches concatenate to the one-pass parse of a well-formed stream; when it breaks off, exactly the full batches of eleven before the break |
| ShieldSync.PassOfPutBlocks | scripts/shield_syncer.js:36-63 | a stream written as packets of a length and its bytes, transactions first and then 5d, the height and the time in four bytes each, is read back as exactly the blocks written |
| ShieldSync.Syncer.GetNextBlocks | scripts/shield_syncer.js:29-69 | nothing while the reader is busy; otherwise one batch, the last height seen, and data saved exactly when there are no more blocks |
| SyncRun.DeliveredInEveryOrder | scripts/shield_syncer.js:29-124 | however the stream is cut into chunks and whatever the order of arrivals, calls and wake-ups, the initial discard included: what is delivered is a beginning of the batches of the complete stream, and all of them with its ending once the syncer is over |
| SyncRun.EverythingDelivered | scripts/shield_syncer.js:29-69 | after any run in which the stream ended, the syncer ends without further arrivals, having delivered all batches of the complete stream |
| SyncRun.EveryFairRunEnds | scripts/shield_syncer.js:29-69 | after the end of the stream every continuation in which enough steps come when they are due ends the syncer, in whatever order the others come |
| SyncRun.FairRunsDeliver | scripts/shield_syncer.js:29-69 | and has then delivered everything, from creation on |
| SyncRun.SavedAndResumed | scripts/shield_syncer.js:71-124 | a run to the end of whole blocks saves all it was sent, and a second run from there delivers, after the first, what one pass over both streams gives |
| AddressWindow.RunKeeps | scripts/wallet.js:472-557 | over every run each window reaches twenty indices past the highest used, all of it recognised, and every address handed out is recognised |
| AddressWindow.IssuedStayRecognised | scripts/wallet.js:347-362 | addresses handed out stay recognised whatever comes later |
| AddressWindow.FreshAddresses | scripts/wallet.js:472-489 | asking again and again gives one new index after the other up to the twentieth past the highest used one, and then the highest used one |
| AddressWindow.Wallet.UpdateHighestUsedIndex | scripts/wallet.js:514-537 | the highest used index of the paid address's chain is the larger of its index and what it was, none ever falls, all addresses up to twenty past it are recognised, and none is forgotten |
| AddressWindow.Wallet.GetNewAddress | scripts/wallet.js:472-489 | the address handed out is recognised, with an index from the highest used one to twenty past it, and a new and unused one while there is one within that |
| AddressWindow.Wallet.LoadAddresses | scripts/wallet.js:543-557 | twenty-one more addresses of a chain recognised |

## Left out

- BitGroups.ConvertBits: the values are integers; fractional numbers are not modelled.
- Bech32.Bech32mDecode: letter case is the ASCII mapping, which is all that printable ASCII strings need.
- CoinSelect.SelectCoins: amounts are integers already; the conversion of strings and numbers is not modelled.
- Registration.EncodeRegistration: the service text is already split into octets and port.
- Mnemonic.MnemonicToEntropy: phrases are sequences of words; Unicode normalization, joining and splitting are not modelled.
- LegacyReader.FromHex: on bytes that run out before the binding signature the source reads short fields without an error, where the model returns None.
- LegacyTx.RoundTrip: values and counts are at most 2^53 - 1, where JavaScript numbers are exact.
- TxBuilder.CreateTransaction: the outputs are given as scripts; Base58 decoding of addresses and shielded outputs are not modelled.
- AddressWindow.RunKeeps: for keys that derive addresses; the wallet constructor given a key resets its window after loading and is not a starting point.
- Mempool.Pool.GetBalance: a computed balance of -1, which only negative amounts could give, is not kept by the source.
- Mempool.Pool.Process: one set of own scripts for all outputs of a transaction; the source may widen its address window between two of them.
- WalletStore.LifeImportable: the database is a value with atomic operations; opening, blocking and upgrading it are not modelled.
- StakingSession.Session.Handle: `onState` and `canSign` do not call back into the session, as in the wallet's own page; of what is published the log keeps the phase, not the counts and hashes beside it.
- ShieldSync.Syncer.GetNextBlocks: on a stream that is there to its end; suspended reads are in `SyncRun`, whose calls come one at a time, as the wallet makes them.
- Explicit payloads handed to `serializeTransfer` (scripts/pqwallet/pqtxtx.js:248-290): only payloads built from the inputs are modelled.
- The transaction history and its ordering, and the lock helper.
- Governance, staking rewards display, exports, price feeds, network requests and the user interface.
