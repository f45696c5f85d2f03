# skepticoin, modelled and proved

A Dafny model of the parts of skepticoin that decide what the money is: the binary encoding of blocks and
transactions, the fork tree with its unspent outputs and balance index, consensus validation and the money supply,
the transaction pool and the miner's template, block reception with its write buffer, the framing of messages on the
wire, chain synchronisation, Merkle trees, chain sampling and the wallet's coin selection.

`dafny verify dfyconfig.toml` checks all of it.

## How the model is laid out

- `Basics`, `Crypto`: exceptions as results, big-endian numbers, the order of `bytes`; the hashes and ECDSA as
  constants without a value. Nothing is assumed of a hash. Where a result needs different strings to have different
  hashes, it says so of one finite set of strings: the encodings of some transactions (`NoCollisionIn`), such as those
  of a chain (`NoCollision`), or of the headers two peers store (`NoHeaderCollision`). Of ECDSA only this is assumed, and
  only where a wallet signs: its private keys sign for its public keys (`SignsFor`).
- `Serialization`, `Datatypes`, `Codecs`, `Canonical`, `Streams`: the grammar, its decoders as functions of the bytes
  not read yet, the round trips, which accepted strings are the encoder's own, and the stream methods proved to run
  those functions.
- `Balances`, `Chains`, `CoinStates`, `Consensus`, `Merkle`, `Pow`: the program. A Python loop is a method with a
  loop, proved equal to a function that says case by case what is returned or which exception class is raised.
- `Layout`, `Spends`, `Alone`, `Sampling`, `Rules`, `Handling`, `Pooling`: the same decisions said over again as rules
  on the data, with the constants written out and without the functions of the program that take them, and proved
  equivalent: where the bytes are, what a spend has to show, what is valid by itself, what a sample and its evidence
  consist of, which blocks a coin state accepts, what becomes of a block received, and what enters the pool and stays.
- `Totals`, `BlockEffects`, `Applying`, `ChainRules`, `Supply`, `Conservation`, `History`, `Provenance`,
  `BalanceIndex`, `IndexOrder`: what applying and validation mean for one chain. `ValidChain` states the rules on the chain alone.
- `Ledger`, `Runs`, `Retarget`, `Forks`: the invariant of the coin state (`LedgerOk`: every index is a function of the
  stored blocks, every stored chain is valid, the heads are the childless blocks, the current hash has maximum height),
  its preservation over runs, and what follows in every reachable state. A run starts at a trusted state, such as the
  first block, and each step adds a block that is not stored, lies above the built-in checkpoints, does not hash to
  32 zero bytes and passes both validations.
- `Sources`: the weaker invariant (`StateSourced`) that states keep when blocks are added without validation.
- `Managers`, `Receiving`, `Verdicts`, `Unfunded`, `Skipped`, `Template`, `Mining`: the pool, blocks and transactions
  from peers over whole runs, which verdicts last, what breaks, and mining from what a run leaves behind.
- `Framing`, `Sending`, `Sync`, `Adoption`: the wire, the locator, and catching up.
- `Wallets`, `Spending`: coin selection and signing.

Python integers that are packed into 32- or 64-bit fields are the types `u32` and `u64`; a value that does not fit
surfaces, as in the program, as a `struct.error` when it is serialised (`StructError`).

## Where the code and its descriptions differ

- The encoder of variable-length quantities is not minimal: for numbers whose bit length is a positive multiple of
  seven it emits a first octet without bits (`Serialization.VlqPaddedExactly`). The decoder accepts shorter and longer
  spellings; those it accepts are the encoder's own exactly when they have as many octets
  (`Canonical.OwnOctetsExactly`). So the hash cached while decoding a transaction is the transaction's own exactly when
  both its length prefixes are spelled as the encoder would, collisions aside (`Canonical.CachedHashExactly`), and every
  transaction has another spelling that is accepted (`Canonical.PaddedIsRead`).
- `CoinbaseData` accepts 256 bytes in its constructor, but its length field is one byte. A template is constructed
  exactly when the data has at most 255 bytes; 256 raise when they are packed (`Template.BuiltExactly`).
- A block is put into the write buffer before it is applied. Applying it raises exactly when it spends something that is
  neither unspent at its parent nor created earlier in it (`Sources.AddSucceedsExactly`); such blocks get past every
  check made before (`Unfunded.ClaimingBlockBreaks`). The block stays in the buffer, and the next validated block takes
  it to disk (`Receiving.UnfundedBlockReachesDisk`). This is the one way in which memory, buffer and disk fall out of
  step (`Receiving.StepKeepsInv`).
- Cleaning the pool catches only the errors of transaction validation; any other exception would leave the new coin
  state with the old pool (`Managers.ChainManager.SetCoinstate`). In a run without colliding transactions cleaning
  never raises, whether blocks are validated or skipped (`Receiving.ChangeKeepsNodeOk`).
- The comment on skipped validation says that a valid block guarantees a valid parent. It does not: a block that
  validation refuses can be added while validation is skipped, and then a child of it passes
  (`Skipped.ValidChildOfInvalidParent`), because the verdict on a block depends on its parent's entries alone
  (`Runs.VerdictLocal`). Both get past the checks made before (`Skipped.LoneBlockByItself`), so a run of two messages
  ends with a last known valid state that holds the refused block and with both blocks on disk
  (`Skipped.InvalidBecomesKnownValid`). The step that does it is, above the checkpoints, exactly one with a block that is
  taken, funded, not validated, and no valid extension of its parent's chain (`Skipped.StepKeepsLedgers`).
- After such a block the construction of a template may raise (`Mining.SkippedBlockStopsMining`). When it does not, the
  block passes the validation as always (`Mining.RunTemplatePasses`).

## Model

| member | source | states |
|---|---|---|
| Serialization.VlqRoundTrip | skepticoin/serialization.py:75-104 | decoding an encoded natural number gives it back and leaves exactly what follows, for every number |
| Serialization.VlqPaddedExactly | skepticoin/serialization.py:75-89 | the encoder wastes its first octet exactly when the bit length is a multiple of seven |
| Serialization.VlqNotCanonical | skepticoin/serialization.py:92-104 | two different byte strings decode to the same number |
| Canonical.OwnOctetsExactly | skepticoin/serialization.py:92-104 | of all octets the decoder accepts for a number, the encoder's own are exactly those of the encoder's length |
| Serialization.ByteStream.SerializeVlq | skepticoin/serialization.py:75-89 | the loop of divisions and remainders writes the base-128 digits, most significant first |
| Serialization.ByteStream.DeserializeVlq | skepticoin/serialization.py:92-104 | the reading loop computes the decoder and stops after the first octet below 128 |
| Serialization.ByteStream.Read | skepticoin/serialization.py:40-46 | all bytes asked for, or a truncation error |
| Serialization.ByteStream.SerializeList | skepticoin/serialization.py:49-52 | the length, then every element in order |
| Serialization.ByteStream.DeserializeList | skepticoin/serialization.py:55-60 | as many elements as announced, each read where the last one stopped |
| Serialization.ListRoundTrip | skepticoin/serialization.py:49-60 | lists of any element with a round trip round-trip |
| Serialization.StrictPrefixTruncated | skepticoin/serialization.py:40-46 | a strict prefix of an encoding is refused, and refused as truncated |
| Layout.VlqLayout | skepticoin/serialization.py:75-89 | the octets spell the number in base 128, most significant first, all but the last flagged, and exactly how many there are |
| Layout.ListLayout | skepticoin/serialization.py:49-52 | the number of elements, and then nothing but the elements |
| Layout.ElementsLayout | skepticoin/serialization.py:49-52 | the elements of a list follow one another in order |
| Layout.PublicKeyLayout | skepticoin/signing.py:61-64 | tag 2 and the 64 bytes of the key |
| Layout.SignatureLayout | skepticoin/signing.py:118-182 | tag and offsets of the three kinds of signature, the height big-endian |
| Layout.ReferenceLayout | skepticoin/datatypes.py:51-53 | the hash and then the index, big-endian |
| Layout.InputLayout | skepticoin/datatypes.py:88-90 | the reference and then the signature |
| Layout.OutputLayout | skepticoin/datatypes.py:116-124 | the value in eight bytes, big-endian, and then the key |
| Layout.TransactionLayout | skepticoin/datatypes.py:163-166 | version 0, the inputs, the outputs |
| Layout.SummaryLayout | skepticoin/datatypes.py:268-274 | the height, and every other field at its distance behind it |
| Layout.HeaderLayout | skepticoin/datatypes.py:307-311 | version 0, the summary, the evidence |
| Layout.BlockLayout | skepticoin/datatypes.py:359-361 | the header and then the list of transactions |
| Layout.OthersRefused | skepticoin/signing.py:28-93 | other tags and versions raise, and what they raise |
| Codecs.TransactionCodec | skepticoin/datatypes.py:144-166 | decode(encode(t) + rest) is t and rest; more input never changes a decoder's answer except a truncation |
| Codecs.BlockCodec | skepticoin/datatypes.py:349-361 | the same for blocks |
| Codecs.HeaderBack | skepticoin/datatypes.py:297-311 | the same for headers |
| Codecs.SummaryBack | skepticoin/datatypes.py:257-274 | the same for summaries |
| Codecs.ReferenceBack | skepticoin/datatypes.py:45-53 | the same for output references |
| Codecs.SignatureBack | skepticoin/signing.py:80-93 | the same for the tagged union of signatures, coinbase data up to 255 bytes included |
| Codecs.PublicKeyBack | skepticoin/signing.py:28-64 | the same for public keys |
| Codecs.TransactionEncodingInjective | skepticoin/datatypes.py:163-166 | different transactions have different encodings |
| Codecs.BlockEncodingInjective | skepticoin/datatypes.py:359-361 | different blocks have different encodings |
| Codecs.HeaderEncodingInjective | skepticoin/datatypes.py:307-311 | different headers have different encodings |
| Codecs.CutShortIsTruncated | skepticoin/serialization.py:40-46 | a transaction or block cut short anywhere is refused as truncated |
| Codecs.DeserializeTransaction | skepticoin/datatypes.py:144-161 | the hash cached while reading is that of exactly the bytes read |
| Codecs.DeserializeOwnTransaction | skepticoin/datatypes.py:155-169 | for bytes the program wrote, the cached hash is the transaction's own |
| Canonical.OwnListExactly | skepticoin/serialization.py:55-60 | of all bytes a list decoder accepts, the encoder's own are exactly those with its length prefix |
| Canonical.OwnBytesExactly | skepticoin/datatypes.py:144-161 | the bytes read as a transaction are its encoding exactly when both length prefixes are the encoder's |
| Canonical.CachedHashExactly | skepticoin/datatypes.py:155-169 | the cached hash is the transaction's own exactly then, unless two strings collide |
| Canonical.PaddedIsRead | skepticoin/datatypes.py:144-161 | every transaction has a second spelling that is read as the same transaction |
| Canonical.OwnHeaderExactly | skepticoin/datatypes.py:297-311 | the bytes read as a header are its encoding exactly when its height is spelled as the encoder would |
| Canonical.ForeignHashesRefused | skepticoin/consensus.py:23-24 | a Merkle root over cached hashes that are not the transactions' own is refused by whoever hashes them again, or two strings collide |
| Streams.WriteCoinbaseData | skepticoin/signing.py:154-158 | tag, height, length and payload in this order |
| Streams.WriteSignature | skepticoin/signing.py:118-182 | the tag of the class and its fields |
| Streams.ReadSignature | skepticoin/signing.py:80-93 | dispatch on the tag, a DeserializationError for any other |
| Streams.ReadPublicKey | skepticoin/signing.py:28-59 | dispatch on the tag, a DeserializationError for any other |
| Streams.WriteSummary | skepticoin/datatypes.py:268-274 | the fields in their order, the height as a variable-length quantity |
| Streams.ReadSummary | skepticoin/datatypes.py:257-266 | reads back what the writer writes |
| Streams.WriteBlock | skepticoin/datatypes.py:359-361 | header, then the list of transactions |
| Streams.ReadBlock | skepticoin/datatypes.py:349-357 | the cached hash is that of the header's bytes as read |
| Streams.BlockThereAndBack | skepticoin/datatypes.py:323-361 | write, read: the same block, and the cached hash is the block's hash |
| Datatypes.SignableIgnoresSignatures | skepticoin/datatypes.py:174-180 | signing does not change what is signed |
| Balances.UtoApplyTransaction | skepticoin/balances.py:12-30 | the loop over inputs and outputs computes the replay step; a coinbase consumes nothing |
| Balances.UtoApplyBlock | skepticoin/balances.py:33-39 | the first transaction as coinbase, then the others in order, each on the result of the one before |
| Balances.PkbApplyTransaction | skepticoin/balances.py:42-72 | debits looked up in the outputs before the block, then credits |
| Balances.PkbApplyBlock | skepticoin/balances.py:75-89 | the same walk over a block for the balance index |
| Chains.PublicKeyBalances.ChainAtHash | skepticoin/balances.py:102-109 | following parents and reversing gives the chain from the first block to the hash |
| Chains.PublicKeyBalances.PublicKeyBalancesByHash | skepticoin/balances.py:111-127 | the index recomputed from scratch along that chain |
| Chains.PublicKeyBalances.GetItem | skepticoin/balances.py:129-132 | remembered or recomputed, the answer is the same |
| Chains.ChainOfAncestor | skepticoin/balances.py:102-109 | the chain of a block on a chain is the part of that chain up to it |
| Chains.ChainStable | skepticoin/coinstate.py:97-101 | storing more blocks does not change the chain of a stored one |
| BlockEffects.AppliedBlockEffect | skepticoin/balances.py:33-39 | with new hashes a block takes away exactly what it spends and adds exactly what it creates |
| BlockEffects.AppliedBlockSucceeds | skepticoin/balances.py:12-39 | spending what is there, once, never fails, whatever the hashes |
| Applying.AppliedExactly | skepticoin/balances.py:33-39 | a block that uses no reference twice applies exactly when each spend is of an output unspent before it or created earlier in it, whatever the hashes |
| BlockEffects.AppliedBlockValue | skepticoin/consensus.py:81-102 | a block adds at most what its coinbase pays out beyond the fees, whatever the hashes |
| BalanceIndex.BlockKeepsSummary | skepticoin/balances.py:75-89 | looking spent outputs up in the state before the block is enough to keep the index a summary |
| BalanceIndex.ChainSummary | skepticoin/balances.py:111-127 | for every key, value is the sum of its unspent outputs and the references are exactly those, each once |
| IndexOrder.ChainOrder | skepticoin/balances.py:42-89 | under each key the index lists exactly the unspent references the chain created for it, in the order of their creation |
| Consensus.ValidateNonCoinbaseTransactionByItself | skepticoin/consensus.py:299-335 | the checks in their order, with the exception class of each |
| Alone.TransactionExactly | skepticoin/consensus.py:292-335 | valid by itself exactly when not empty, at most 200,000 bytes, every amount and their sum between 1 and the maximum, all references different and real, all inputs signed; wrong amounts raise another exception |
| Alone.DistinctExactly | skepticoin/consensus.py:385-393 | the references of a list are distinct exactly when no two inputs of any two transactions share one |
| Consensus.ValidateNoDuplicateOutputReferencesInTransactions | skepticoin/consensus.py:385-393 | passes exactly when no reference occurs twice over all inputs of all transactions |
| Consensus.ValidateBlockByItself | skepticoin/consensus.py:396-423 | the checks in their order, the coinbase height and the Merkle root included |
| Alone.BlockExactly | skepticoin/consensus.py:361-423 | valid by itself exactly when its hash is below its target as a number, it is at most 30 seconds ahead, at most 200,000 bytes, starts with one coinbase of its height and at most 200 bytes of data, all spends are valid by themselves and share no reference, and the root is that of its transactions |
| Alone.BlockRefused | skepticoin/consensus.py:361-423 | the order of these checks and the exception of each |
| Consensus.ValidateNonCoinbaseTransactionInCoinstate | skepticoin/consensus.py:447-474 | every input unspent at the parent, every signature good, outputs at most inputs |
| Spends.SpendExactly | skepticoin/consensus.py:338-345 | a spend is valid exactly when every input refers to an unspent output and carries a signature that ECDSA finds good under the key of that output on the transaction without its signatures, and the outputs do not exceed the inputs |
| Spends.RefusedExactly | skepticoin/consensus.py:447-474 | the first input that does not decides the exception: not unspent, a placeholder, a wrong signature, a key the library refuses |
| Spends.OverspendingRefused | skepticoin/consensus.py:447-474 | outputs worth more than the claimed inputs are refused as an invalid transaction |
| Spends.MessageIsPinned | skepticoin/datatypes.py:174-180 | one message to sign stands for one list of references and one list of outputs |
| Spends.ChainIsSigned | skepticoin/consensus.py:447-474 | on every valid chain whatever is spent is claimed by a good signature of the key it was paid to |
| Ledger.LedgerIsSigned | skepticoin/consensus.py:447-474 | so in every ledger, below every stored hash |
| Consensus.ValidateBlockInCoinstate | skepticoin/consensus.py:511-531 | checkpoint, summary, evidence, coinbase and the other transactions, in this order |
| Rules.VerdictExactly | skepticoin/consensus.py:511-531 | up to the height of the checkpoints accepted exactly when the height has no known hash or it is this one; above it exactly when time, target, height, evidence, coinbase and every spend obey the rules on the parent, its unspent outputs and the blocks below, in any state |
| Rules.BlockRefused | skepticoin/consensus.py:489-531 | the order of the checks on summary, evidence and coinbase, and the exception of each |
| Merkle.GetMerkleRoot | skepticoin/merkletree.py:9-20 | the pairing loop and its recursion compute the root |
| Merkle.RootExactly | skepticoin/merkletree.py:9-20 | the root of one hash is it; of more, the hash of the root of the first 2^k and the root of the rest, in this order, for the greatest 2^k below their number |
| Merkle.MerkleBinding | skepticoin/merkletree.py:9-20 | lists of one length with one root are equal, or two colliding strings are produced |
| Merkle.LengthIsNotBound | skepticoin/merkletree.py:9-20 | for every two lengths there are lists with one root, whatever the hash, so MerkleBinding needs its one length |
| Merkle.GetMerkleTree | skepticoin/merkletree.py:45-60 | the tree built by pairing nodes |
| Merkle.TreeAgreesWithRoot | skepticoin/merkletree.py:32-60 | the tree's hash is the root |
| Merkle.ProofIsSound | skepticoin/merkletree.py:63-78 | a proof keeps the root, ends at the leaf with its value, and is no deeper than the rounded-up logarithm |
| Merkle.CeilLog2Least | skepticoin/merkletree.py:63-78 | that logarithm is the least exponent whose power of two reaches the number of leaves |
| Pow.SelectBlockSlice | skepticoin/pow.py:30-41 | the wrapping loop reads the block cyclically from the selected start |
| Sampling.HeightSelected | skepticoin/pow.py:20-27 | the height is the remainder of the number in the first eight bytes |
| Sampling.EveryHeightSelected | skepticoin/pow.py:20-27 | every lower height that eight bytes can spell is selected by some hash |
| Sampling.StartSelected | skepticoin/pow.py:30-34 | the start is the remainder of the number in the next four bytes |
| Sampling.EveryStartSelected | skepticoin/pow.py:30-34 | every start that four bytes can spell is selected by some hash |
| Pow.CyclicIsModular | skepticoin/pow.py:30-41 | byte k of a slice is byte (start + k) mod len of the block |
| Pow.SelectNKLengthSlicesFromChain | skepticoin/pow.py:57-75 | the loop chains the hash through the slices |
| Sampling.SampleExactly | skepticoin/pow.py:44-75 | what is drawn is exactly the sample whose every byte is the one in the block at the height, and behind the start, that the chained hash of its slice selects |
| Pow.SamplingIsTotal | skepticoin/pow.py:44-75 | with a block at every lower height sampling never fails and yields exactly the bytes wanted |
| Consensus.ChainSampleSize | skepticoin/consensus.py:161-179 | a chain sample always has the size that the evidence decoder reads |
| Sampling.EvidenceExactly | skepticoin/consensus.py:146-204 | the reconstructed evidence is exactly the scrypt of summary and height, the sample it selects, and the blake2 of both with the transactions |
| Sampling.EvidenceBindsTransactions | skepticoin/consensus.py:188-204 | one evidence stands for one list of transactions, or two strings collide under blake2 |
| Sampling.EvidenceBindsSummary | skepticoin/consensus.py:156-158 | and for one summary and height, or two inputs collide under scrypt |
| ChainRules.BuiltInGenesisOk | skepticoin/coinstate.py:66-68 | a first block with one coinbase of the initial subsidy obeys the rules |
| Supply.SubsidyPositive | skepticoin/consensus.py:105-111 | the subsidy is positive exactly in the first thirty eras |
| Supply.SubsidyExactly | skepticoin/consensus.py:105-111 | at every height the subsidy is ten coins halved once for every 1,050,000 blocks, rounded down |
| Supply.SubsidySumBound | skepticoin/params.py:13-33 | all subsidies of the first n blocks sum to at most MAX_SASHIMI, and to exactly that iff n is at least 31,500,000 |
| Supply.BlockSupply | skepticoin/consensus.py:429-444 | a valid block adds at most its subsidy to the unspent total, whatever the hashes |
| Supply.ChainSupply | skepticoin/consensus.py:429-444 | no valid chain holds more unspent value than its blocks' subsidies, whatever the hashes |
| Conservation.BlockConserves | skepticoin/consensus.py:81-102 | with new hashes a block changes the unspent total by exactly the coinbase minus the fees |
| Conservation.ChainConserves | skepticoin/consensus.py:429-444 | a valid chain's unspent total is exactly what its coinbases minted |
| Conservation.MintedAtMost | skepticoin/consensus.py:429-444 | a valid chain mints at most the subsidies, and all of them only when every coinbase claims everything |
| Conservation.FullClaimsReachTheBound | skepticoin/consensus.py:429-444 | the total equals the sum of subsidies exactly when every coinbase claims all it may |
| History.NoTransactionTwice | skepticoin/signing.py:133-136 | no transaction hash occurs twice on a valid chain |
| History.SpentStaysSpent | skepticoin/consensus.py:447-474 | what a block spends was unspent before it and is never unspent again after it |
| History.CreatedIsFresh | skepticoin/balances.py:24-30 | every reference a block creates was never unspent before |
| Provenance.ChainSourced | skepticoin/balances.py:12-39 | every unspent output is an output of the transaction its reference names, on any chain |
| Provenance.SourcedAgree | skepticoin/balances.py:12-39 | a reference unspent in two states made by the same transactions stands for the same output in both |
| Provenance.BranchesAgree | skepticoin/balances.py:12-39 | so on any two branches, valid or not |
| Sources.LedgerIsSourced | skepticoin/coinstate.py:77-101 | every ledger state's unspent outputs come from its stored transactions |
| Sources.GrowthKeepsSources | skepticoin/coinstate.py:77-129 | adding any block under a stored parent, validated or not, keeps that |
| Sources.AddSucceedsExactly | skepticoin/coinstate.py:77-101 | for a block valid by itself, adding under a stored parent succeeds exactly when every spend is of an output unspent at the parent or created earlier in the block |
| Sources.HeadMovesExactly | skepticoin/coinstate.py:111-121 | in any state, a ledger or not, an added block becomes the head exactly when it is built on it or higher |
| Ledger.GenesisEstablishes | skepticoin/coinstate.py:55-68 | the first block makes a state that satisfies the invariant |
| Ledger.GrowthKeepsLedger | skepticoin/coinstate.py:77-129 | adding a valid block cannot fail, keeps the invariant, and leaves every stored block as it is |
| Ledger.ChildlessGrows | skepticoin/coinstate.py:103-109 | taking out the parent and putting in the block keeps the heads the childless blocks |
| Ledger.ValidatedExtends | skepticoin/consensus.py:396-531 | a block that passes both validations obeys the rules on top of its parent's chain |
| Ledger.ValidationExactly | skepticoin/consensus.py:511-531 | for a block valid by itself, the coin-state validation accepts exactly the valid extensions of stored chains whose evidence is the reconstructed one |
| Runs.RunKeepsLedger | skepticoin/coinstate.py:70-75 | every reachable state satisfies the invariant and forgets nothing |
| Runs.ValidatedIsAdded | skepticoin/coinstate.py:70-75 | once both validations pass, adding cannot raise |
| Runs.IndexesAreReplays | skepticoin/coinstate.py:77-101 | at every stored hash the maps equal a replay along the parents, and the heights are exactly 0 to the block's own |
| Runs.SupplyIsBounded | skepticoin/params.py:13-33 | at every stored hash the unspent total is at most the subsidies so far, and so at most MAX_SASHIMI |
| Runs.NoDoubleSpend | skepticoin/consensus.py:447-474 | what a block of a stored chain spent is not unspent at its end, and no transaction occurs twice on it |
| Runs.IndexSummarisesUtxo | skepticoin/balances.py:111-132 | at every stored hash the balance index exists and summarises the unspent outputs |
| Runs.HeadIsEarliestHighest | skepticoin/coinstate.py:111-121 | the current hash is the earliest-added among the blocks of maximum height |
| Runs.HeadsAreChildless | skepticoin/coinstate.py:103-109 | the current hash is a head, and the heads are exactly the stored blocks without stored children |
| Runs.StateDeterminedByBlocks | skepticoin/coinstate.py:77-129 | states with the same blocks agree on every index, the heads and the height of the head |
| Runs.VerdictNeverChanges | skepticoin/consensus.py:489-531 | once the parent is stored, the verdict on a block is the same in every later state |
| Runs.VerdictLocal | skepticoin/consensus.py:489-531 | the verdict on a block depends on the entries of its parent alone |
| Runs.OrderIsIrrelevant | skepticoin/coinstate.py:70-129 | blocks accepted in one order are accepted in every parent-first order, with the same indexes and heads |
| Retarget.TimestampsIncrease | skepticoin/consensus.py:497-500 | time passes by at least a second a block along a valid chain |
| Retarget.TargetConstantBetweenReadjustments | skepticoin/consensus.py:27-39 | the target is constant within an interval |
| Retarget.NewTargetBounds | skepticoin/consensus.py:477-486 | the new target is the scaled one, at least a 120th of the former, capped at 32 bytes, and round-trips through them |
| Retarget.RetargetIsTotalAndBounded | skepticoin/consensus.py:27-39 | at every readjustment the interval's first block is found and the new target exists and is bounded on both sides |
| Retarget.ProofOfWorkIsNumeric | skepticoin/consensus.py:361-375 | comparing byte strings is comparing the numbers they spell |
| Forks.FindLcaWithMain | skepticoin/coinstate.py:162-170 | the loop ends, at the highest block shared with the current chain, and raises only for a branch that shares nothing |
| Forks.RunKeepsRoot | skepticoin/coinstate.py:161-172 | no run starts a second tree, so every fork point exists |
| Forks.ListForks | skepticoin/coinstate.py:161-172 | every head with the block where it leaves the current chain |
| Managers.ChainManager.SetCoinstate | skepticoin/networking/manager.py:197-203 | the new state, the cleaned pool and the last known valid state; what is left after an exception |
| Managers.ChainManager.CleanupTransactionPool | skepticoin/networking/manager.py:240-257 | keeps the order, drops what fails transaction validation, passes other exceptions on |
| Managers.ChainManager.AddTransactionToPool | skepticoin/networking/manager.py:205-234 | appended exactly when valid and free of shared references; a valid and conflict-free pool stays so |
| Managers.PoolVerdictExactly | skepticoin/networking/manager.py:205-234 | a sound pool takes exactly what is valid by itself, claims unspent outputs at the head with good signatures, does not overspend and shares no reference with the pool; a mere conflict is turned away quietly |
| Managers.CleanedKeepsValid | skepticoin/networking/manager.py:240-257 | cleaning keeps exactly the valid ones and never makes references collide |
| Managers.CleanedExactly | skepticoin/networking/manager.py:240-257 | cleaning succeeds exactly when no pooled transaction raises another error, and leaves exactly what can be spent at the head |
| Managers.CleanedInOrder | skepticoin/networking/manager.py:240-257 | and leaves it in its order |
| Managers.HeadChangeKeepsSpendable | skepticoin/networking/manager.py:240-257 | between any two states whose outputs come from non-colliding transactions, validated or not, cleaning cannot raise and keeps exactly what is still spendable |
| Template.CoinbaseFits | skepticoin/consensus.py:118-143 | what the template's coinbase pays is within the money supply, so it fits its field |
| Template.TemplateBuilt | skepticoin/consensus.py:226-268 | construction from a valid pool cannot fail, and what the template is made of |
| Template.BuiltExactly | skepticoin/signing.py:126-158 | from a state and pool that can be mined, construction succeeds exactly with coinbase data of at most 255 bytes, and which error it raises with more |
| Template.ConstructedPasses | skepticoin/consensus.py:226-268 | in any state, a ledger or not, a block constructed from a valid pool passes the validation in the coin state exactly when it is dated after the head |
| Template.TemplateValidates | skepticoin/consensus.py:226-268 | the template passes the validation in the coin state it was made for |
| Template.TemplateStaysValid | skepticoin/consensus.py:511-531 | and in every later state |
| Template.TemplateByItself | skepticoin/consensus.py:396-423 | by itself it is valid exactly when solved, not dated ahead, not too big, and its coinbase data is at most 200 bytes |
| Template.SolvedTemplateIsNextHead | skepticoin/coinstate.py:70-121 | a solved template is accepted and becomes the head |
| Verdicts.VerdictAfterStep | skepticoin/networking/remote_peer.py:482-503 | after a block received, the verdict on a block with a stored parent is what it was, or that of the state gone back to, where an orphan is refused |
| Verdicts.VerdictStays | skepticoin/networking/remote_peer.py:451-522 | once its parent is in both remembered states, the verdict on a block is the same after every run of blocks and transactions, validated, skipped or rolled back |
| Verdicts.ValidatedRunInStep | skepticoin/networking/manager.py:197-203 | over every run without skipped validation the current state is the last known valid one |
| Mining.RunTemplatePasses | skepticoin/consensus.py:226-268 | in every state of every run, skipped and rolled-back blocks included, a block that construction returns passes the validation in the coin state exactly when it is dated after the head |
| Mining.TemplateVerdictStays | skepticoin/consensus.py:511-531 | and that verdict stays in every later state of the manager, if the head was among the last known valid blocks |
| Mining.SkippedBlockStopsMining | skepticoin/consensus.py:118-143 | construction is what can fail: after an unvalidated block at the greatest height of the field no template can be constructed |
| Mining.RunIsMinable | skepticoin/networking/manager.py:197-257 | after every run with validation on, state and pool meet all that the template needs, and the state is the last known valid one |
| Mining.RunTemplateValidates | skepticoin/consensus.py:226-268 | so after any such run the template exists and passes the validation, in that state and in every later one, whatever is received |
| Receiving.BlockStore.FlushBlocksToDisk | skepticoin/blockstore.py:159-163 | everything in the buffer is inserted or ignored, in order, and the buffer is empty |
| Receiving.HandleBlockReceived | skepticoin/networking/remote_peer.py:451-503 | the branches: known, orphan, invalid by itself, not applicable, skipped, validated, rolled back |
| Handling.HandledExactly | skepticoin/networking/remote_peer.py:451-503 | all that can happen to a block: not past the first checks, nothing; not applicable, it waits and an exception; answering a request at a height that is no multiple of 10,000, added and waiting; otherwise added, known to be valid and on disk exactly when the rules approve it, and if not, back to the last known valid state with an empty buffer |
| Handling.RunHandledExactly | skepticoin/networking/remote_peer.py:451-503 | so with every block of every run, as long as every add before it succeeded |
| Handling.CheckpointDecides | skepticoin/consensus.py:511-519 | at a height with a known hash a checked, funded block stays, with nothing undone, exactly when it has that hash |
| Handling.RunObeys | skepticoin/networking/remote_peer.py:482-499 | over every run no checked block above the checkpoints enters the state against the rules on its parent |
| Receiving.FlushAddsAll | skepticoin/blockstore.py:105-163 | flushing novel blocks drops none and overwrites nothing |
| Receiving.HandleTransactionReceived | skepticoin/networking/remote_peer.py:512-522 | known, refused or pooled; other exceptions passed on |
| Pooling.OfferedExactly | skepticoin/networking/remote_peer.py:512-522 | a transaction offered is appended exactly when it is not pooled and the pool can take it, and nothing else changes |
| Pooling.StaysExactly | skepticoin/networking/manager.py:240-257 | through any event a pooled transaction stays exactly when its inputs are unspent at the head after it |
| Pooling.StaysThroughout | skepticoin/networking/manager.py:240-257 | over every run it stays throughout exactly when its inputs are unspent at every head on the way |
| Pooling.BlockOnlyRemoves | skepticoin/networking/manager.py:240-257 | a block received only takes transactions out of the pool and keeps the order |
| Receiving.StepKeepsInv | skepticoin/networking/remote_peer.py:451-503 | memory is the last known valid blocks plus the buffer and disk is the last known valid blocks: kept by a step exactly unless the block is taken and not funded |
| Receiving.RunKeepsInv | skepticoin/networking/remote_peer.py:451-503 | the same over every run in which every add that is reached succeeds, with the disk closed under parents and never losing a block |
| Receiving.BlockKeepsNodeOk | skepticoin/networking/remote_peer.py:451-503 | a block received, validated, skipped or rolled back, keeps the pool valid at the head, and an exception comes only from adding it |
| Receiving.RunKeepsNodeOk | skepticoin/networking/manager.py:197-257 | over every run of received blocks and transactions the pool is valid and conflict-free at the head |
| Receiving.PoolStaysValid | skepticoin/networking/manager.py:197-257 | the same said out, from any ledger state: each pooled transaction valid by itself and at the head, no reference shared |
| Receiving.EventKeepsPoolSound | skepticoin/networking/manager.py:240-257 | with no hypothesis at all, pooled transactions stay valid by themselves and free of shared references |
| Receiving.UnfundedBlockReachesDisk | skepticoin/networking/remote_peer.py:479-499 | a taken block that is not funded goes to disk with the next validated one, although no state ever held it |
| Unfunded.ClaimingBlockValid | skepticoin/consensus.py:396-423 | a block that claims one sashimi from any reference passes all checks by itself, unless it hashes to 32 bytes of 255 |
| Unfunded.ClaimingBlockBreaks | skepticoin/networking/remote_peer.py:462-480 | so on every stored block, and for every reference not unspent there, there is a block that is buffered and cannot be added |
| Skipped.LoneBlockByItself | skepticoin/consensus.py:396-423 | a block with only a coinbase that pays nothing and the easiest target passes all checks by itself exactly when it does not hash to that target and is not dated too far ahead |
| Skipped.ValidChildOfInvalidParent | skepticoin/networking/remote_peer.py:482-503 | a block that validation refuses can be added unvalidated, and then a child of it passes validation |
| Skipped.StepKeepsLedgers | skepticoin/networking/remote_peer.py:482-503 | both remembered states stay ledgers exactly unless a block is added against the rules; above the checkpoints, one that is taken, funded and not validated |
| Skipped.RunKeepsLedgers | skepticoin/networking/remote_peer.py:482-503 | a run keeps them ledgers from beginning to end exactly when no step adds a block against the rules |
| Skipped.ChildExists | skepticoin/consensus.py:146-179 | on a block added without validation a child with the reconstructed evidence can always be made |
| Skipped.InvalidBecomesKnownValid | skepticoin/networking/remote_peer.py:477-503 | a run of two messages that ends with a refused block in the last known valid state, and on disk with its child |
| Receiving.ValidatedRunKeepsLedger | skepticoin/networking/remote_peer.py:482-501 | over every run without skipped validation both remembered states stay ledgers |
| Framing.ParseInPieces | skepticoin/networking/remote_peer.py:91-117 | reading a stream in two pieces is reading it whole: payloads, failure and bytes kept |
| Framing.MessageReceiver.Receive | skepticoin/networking/remote_peer.py:91-117 | one call, with its recursion, hands over what the bytes so far mean and keeps the rest; it terminates |
| Framing.MessageReceiver.ReceiveAll | skepticoin/networking/remote_peer.py:91-117 | any split into chunks hands over the same payloads and fails alike |
| Framing.FramesParse | skepticoin/networking/remote_peer.py:91-117 | frames are read back as framed, and end the connection exactly when one is too long or not accepted |
| Framing.PartialFrames | skepticoin/networking/remote_peer.py:91-117 | cut anywhere, what was handed over is a beginning of what was framed |
| Layout.FrameExactly | skepticoin/networking/remote_peer.py:91-117 | at the beginning of a stream a frame of more than 32 MiB ends the connection; any other hands over its payload |
| Layout.NoFrameExactly | skepticoin/networking/remote_peer.py:91-117 | other letters end the connection, and too few bytes wait |
| Layout.FrameLayout | skepticoin/networking/remote_peer.py:233-259 | the letters MAJI, the length big-endian, the payload |
| Sending.SendQueue.SendMessage | skepticoin/networking/remote_peer.py:233-259 | the frame is queued behind everything queued before; empty buffer implies empty backlog, writing iff there is something to write |
| Sending.SendQueue.HandleCanSend | skepticoin/networking/remote_peer.py:294-306 | whatever the socket takes, nothing is lost, repeated or reordered; with room enough everything goes out |
| Sending.Converse | skepticoin/networking/remote_peer.py:233-310 | queueing, sending and arriving interleaved in any way: the receiver gets a beginning of the sent payloads, and all of them once all bytes have arrived |
| Sync.LocatorOfState | skepticoin/networking/manager.py:259-269 | the locator lists the active chain's hashes at distances 0 to 9 and the squares 16 to 3969 below the head |
| Sync.RecentHeightsExactly | skepticoin/networking/manager.py:266-269 | the heights listed are exactly those at one of the distances below the head, as far as there are any |
| Sync.RecentHeightsDescend | skepticoin/networking/manager.py:266-269 | strictly descending, so the first match is the highest |
| Sync.HeightsExactly | skepticoin/networking/manager.py:266-269 | exactly the ten highest heights and those at the squares of 4 to 63 below the head |
| Sync.LocatorExactly | skepticoin/networking/manager.py:259-269 | the locator is the active chain's hashes at these heights, in their order |
| Sync.OldnessGap | skepticoin/networking/manager.py:266-269 | neighbouring locator entries are at most 125 apart, the last 3969 below the head |
| Sync.HandleGetBlocksMessageReceived | skepticoin/networking/remote_peer.py:343-370 | the loop with its early answer, its break and its default start |
| Sync.ReplyExactly | skepticoin/networking/remote_peer.py:343-370 | the reply to every list of hashes: unknown and lower side-chain hashes are passed over, one at or above the head ends it, one on the active chain is answered with the 500 after it, and none left with those from height 1 |
| Sync.ReplyFrom | skepticoin/networking/remote_peer.py:361-370 | the reply is the responder's active chain from the start height, at most 500 hashes |
| Sync.ReplyBound | skepticoin/networking/remote_peer.py:343-370 | a reply starts above f - 124 and at most at f + 1 and the requester has the parent of its first block; it is not empty when the responder's chain is longer |
| Sync.FollowUp | skepticoin/networking/remote_peer.py:343-395 | naming the last hash received is answered with the 500 after it |
| Sync.PrefixReply | skepticoin/networking/remote_peer.py:343-370 | a requester that lags behind gets exactly what comes next |
| Adoption.AdoptNext | skepticoin/coinstate.py:77-129 | the next block of the responder's chain can be added and becomes the requester's head |
| Adoption.ReceiveNext | skepticoin/networking/remote_peer.py:451-503 | the handler takes that block, whether it validates it or not, and raises nothing |
| Adoption.RoundAdopts | skepticoin/networking/remote_peer.py:343-503 | a round of locator, inventory and blocks received ends with exactly the next 500 blocks, or as many as there are |
| Adoption.GapCloses | skepticoin/networking/remote_peer.py:343-503 | a gap g is closed after ceil(g / 500) rounds and not before |
| Wallets.SignTransaction | skepticoin/wallet.py:101-133 | every input signed by the key its output pays to, or an exception |
| Wallets.Wallet.CreateSpendTransaction | skepticoin/wallet.py:136-176 | the nested loops select, reserve, stop and complete; a failed spend keeps its reservations |
| Spending.CandidatesAreOurs | skepticoin/wallet.py:147-153 | the references walked are exactly the wallet's unspent outputs, each once |
| Spending.SelectFacts | skepticoin/wallet.py:147-176 | what is taken is distinct, unreserved, counted right, no more than needed; enough is found exactly when it is there |
| Spending.CandidatesInTurn | skepticoin/wallet.py:147-153 | candidates come key after key in the wallet's order, each key's in the order of the index |
| Spending.SelectTakesFirst | skepticoin/wallet.py:147-160 | what is selected are the first of them that are not reserved |
| Spending.SignedIsValid | skepticoin/consensus.py:447-474 | a signed draft is valid exactly when its outputs do not exceed its inputs |
| Spending.SelectionAtHead | skepticoin/wallet.py:136-176 | at a ledger head the lookup never fails, and selection succeeds exactly when the unreserved value suffices |
| Spending.CompletedIsGood | skepticoin/wallet.py:163-174 | inputs minus outputs is the fee exactly, the payment and the change are as ordered |
| Spending.SpendSucceedsExactly | skepticoin/wallet.py:136-176 | for a positive amount a spend succeeds exactly when the unreserved value covers it and the fee, and is then valid at the head |
| Spending.ReservedGrows | skepticoin/wallet.py:154-159 | over any sequence of attempts, in whatever states, the reserved set only grows |
| Spending.SpendsAreDisjoint | skepticoin/wallet.py:154-159 | however many spends are attempted, in whatever states, no two that succeed share an input |

## Left out

- The inside of sha256d, scrypt, blake2 and ECDSA: constants without a value, so every result holds for every choice of them.
- Coinbase data of 256 bytes: it can be constructed and never packed, so the type of payloads stops at 255; the template's construction reports it as the packing error.
- `SECP256k1PublicKey.validate` on a malformed key: one outcome of the signature check, a MalformedPointError, that validation passes on.
- The list codecs take the element's decoder as a function of the bytes at the cursor; that the element methods of `Streams` run those functions is proved beside them.
- SQLite: the disk is a map from hashes to blocks with insert-or-ignore; tables, reading back and the splitting of blocks into rows are not modelled.
- Sockets, selectors, threads, locks, logging, clocks and randomness: parameters of the modelled steps, or absent. A selector that refuses to change its interest is not modelled.
- The message classes: payloads are opaque, and one predicate says which of them the peer handles without an exception.
- A stored block's cached hash when its header came in another spelling of the height: block hashes are those of the encoder's bytes.
- Inventory bookkeeping, peer discovery, hello messages, ban scores, broadcasting and the choice of peers.
- The built-in checkpoint table: a parameter; runs lie above it, because validation is skipped below it.
- A second block without a parent, and adding a block that is already stored: excluded from the steps of a run.
- Blocks that initial download adds without validation: covered by the results on the pool, the templates and the write buffer; those on the ledger hold as long as none of these blocks breaks the rules (`Skipped.RunKeepsLedgers`).
- Template.TemplateValidates: does not model that a transaction received in another spelling enters the program's Merkle root under its cached hash, because the model hashes every transaction as the encoder writes it; `Canonical.ForeignHashesRefused` says what becomes of such a root.
- The construction of a first block, the explorer's own index, scripts, the REPL, wallet files and address parsing.
- Python's equality on `BlockSummary` and `CoinbaseData` ignores the height; the model compares everything.
- The unused key list and the annotations of a wallet.
- Sync.ReplyBound: stated for an agreement at most 3969 below the requester's head, the reach of its locator; the default start at height 1 below that is not bounded.
