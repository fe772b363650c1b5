# WinterWallet in Dafny

WinterWallet is a Solana wallet whose authority is a hash-based one-time signature. Every instruction it
signs uses up one position of a key hierarchy, and the on-chain account stores the Merkle root of the public
key of the next position. This project models the parts whose agreement the wallet's safety rests on and
proves that they agree.

- **Signature core** (`Merkle`, `MerkleStream`, `Winternitz`, `Encoding`, `Soundness`). The streaming
  five-slot Merkle stack equals the level-by-level tree; verification accepts what signing makes, and any
  other accepted signature comes with a hash collision read off the two computations.
- **Keys and positions** (`Keypair`, `PositionRoots`). Hierarchical derivation, the position counter, and exactly
  which positions share a key.
- **Mnemonics** (`BitStrings`, `Bip39`). The in-place bit packer and the validator against the bit-string rule of
  BIP-39, section "Generating the mnemonic".
- **Wire protocol** (`Wire`, `Decode`, `Preimage`, `Wallet`, `EndToEnd`, `Plans`, `StaleAdvance`, `Binding`). The client's encoder
  and the program's decoder are inverse to each other, three builders sign the same bytes, a signed plan executes
  on chain as the calls it was made from and leaves its new root stored, a signature of another position is
  refused, and an executed Advance says what was signed, up to an exactly stated ambiguity.
- **Program and runtime** (`Program`, `Runtime`, `NestedRuns`, `Authority`, `Frames`, `Revival`, `Lamports`). Initialize, Advance,
  Withdraw and Close with nested self-calls and calls of other programs on a ledger of accounts, rolled back on
  error; the linear history of every address, after a Close as well, who may spend from it, what a transaction leaves
  alone, and lamport accounting over whole trees of calls.
- **Lifecycle** (`Protocol`, `Lockstep`, `Delivery`, `Cli`). Processes under a lock, an atomically replaced state file, crashes,
  power loss, a network that delays, drops and duplicates, and the rotating root, as a state machine with an
  inductive invariant; the command-line runs are shown to be runs of it, and its chain is shown to be the account on
  the program's ledger.
- **Transactions** (`AccountTable`, `Message`, `Compile`, `LegacyTx`, `V0`). The legacy message compiler with a reader of
  its bytes, the size estimate, and the lookup-table partition.

SHA-256 and the two halves of HMAC-SHA512 are function parameters about which nothing is assumed but their
output length. No statement assumes injectivity: where the source relies on it, the statement returns two
concrete colliding inputs, and says which of the two computations hashed them.

Every lemma switches automatic induction off: an induction is written out where a proof needs one, and no proof rests
on a hypothesis the verifier adds by itself.

Code that loops or updates in place is a method, or a method of a class (`WinternitzKeypair`, `Bank`, `Host`,
`FlatBuffer`, `Collector`), proved equal to a specification function; the theorems are about those functions. What such
a function computes is also said without it: bytes at their offsets, flags in terms of the instructions, numbers in
plain arithmetic, refusals by the check that decides.

## Where the code and its promises differ

- `increment_child` counts children up to 2^32 - 1, and `derive_child` ORs the top bit into every index
  (core/src/keypair.rs:194-207, 247-258). Children `c` and `c + 2^31` therefore have the same key:
  `Keypair.KeysRepeatAtHardenedBit` gives the first repetition, `Keypair.SharedRootIff` the exact condition (equal indices
  below bit 31), and `PositionRoots` proves the lifecycle for the positions before it and that distinctness fails from
  it on. The comment at core/src/keypair.rs:209-212 speaks of four levels; the code walks three and then the scalars.
- `recover` may move the local position back to one whose signature is already out. `Lockstep.RecoverSafeIff` gives the
  exact condition under which every continuation stays one-time: nothing was sent at the on-chain position.
- The comment at client/src/transaction.rs:50-53 calls the size estimate exact up to 256 accounts. It is also
  inexact when a length is cut to sixteen bits: `LegacyTx.LongDataOverestimates` is such an instruction and
  `LegacyTx.SizeExactIff` is the exact condition. Inside the 1232-byte limit it always is exact.
- The signed bytes carry no account count, so they are not injective across different counts.
  `Preimage.EqualBytesIff` says exactly which commitments share their bytes, `Binding.SignedBytesCutTwice` gives
  lists the client accepts whose bytes are also those of another executable call, and `Binding.UnambiguousIff` is the
  exact condition, decidable before signing, under which that cannot happen.
- The Initialize signature covers the tag alone, so the root it arrives with is not signed:
  `EndToEnd.InitializeBindsNoRoot`. The lifecycle delivers only messages the wallet sent.
- The signed bytes of an Advance carry no signer or writable flags. `Binding.SignatureBindsNoFlags`: flagged otherwise,
  the accounts are accepted with the same signature and passed to the same calls.
- An Advance never looks at the owner of the account it is given (program/src/instructions/advance.rs:63-84), so a forged
  account may carry another wallet's id and bump. `Authority.SpendsNeedTheStoredRoot` shows that this gains nothing:
  the promotion is by address, and whatever spends from a wallet comes after an Advance of that very account.
- The comment in program/src/instructions/close.rs:54-56 says a closed wallet cannot be revived with stale data.
  `NestedRuns.OldWalletStaysGone` proves that. The address itself can be given data again in the same transaction, by
  Initialize or by another program, and closed a second time (`Revival.CloseTwice`); `NestedRuns.NothingAfterClose`
  says that only then anything happens to it after a Close.

## Model

| member | source | states |
|---|---|---|
| Merkle.StreamingIsTextbook | core/src/pubkey.rs:85-141 | for every non-empty leaf list, pushing with collapse and draining with lifting gives the root of the tree that duplicates the last node of each odd level |
| Merkle.PushAllIsTiling | core/src/pubkey.rs:105-122 | after i leaves the stack holds the perfect subtrees of i's binary form |
| Merkle.TilingShape | core/src/pubkey.rs:99-122 | the stack length is the number of one bits of the leaf count and its levels fall strictly |
| Merkle.DepthBound | core/src/pubkey.rs:99-102 | a count up to 62 has at most five one bits, so depth 5 is never exceeded |
| Merkle.DrainOddLevel | core/src/pubkey.rs:127-141 | draining an orphan of an odd level equals draining the level above with the orphan paired with itself |
| Merkle.RootClash | core/src/pubkey.rs:92-146 | two different leaf lists of one size under one root yield two different node pairs with one hash, each taken from its own tree |
| MerkleStream.PushLeaf | core/src/pubkey.rs:105-122 | the in-place collapse loop is the functional push and stays inside five slots |
| MerkleStream.Lift | core/src/pubkey.rs:131-134 | the lifting loop self-duplicates exactly up to the neighbour's level |
| MerkleStream.SettleTop | core/src/pubkey.rs:127-141 | one drain step in place keeps the drained root |
| MerkleStream.StreamRoot | core/src/pubkey.rs:92-146 | the whole in-place algorithm returns the textbook root for every leaf count from 1 to 62 |
| Winternitz.ChainLoop | core/src/lib.rs:56-62 | the loop is the iterated hash |
| Winternitz.LowByte | core/src/privkey.rs:63-66 | the two u8 casts of the checksum lose nothing |
| Winternitz.StartChains | core/src/privkey.rs:54-62 | every message chain is walked by its byte and the u16 sum is the checksum |
| Winternitz.SignPrehashed | core/src/privkey.rs:54-68 | signing walks every scalar by its digit |
| Winternitz.DigestIsPrefix | core/src/lib.rs:65-71 | what is signed is a prefix of the hash of all parts in a row |
| Winternitz.ToPubkeyLoop | core/src/privkey.rs:80-91 | the public key walks every scalar 255 steps |
| Winternitz.RecoverPubkeyPrehashed | core/src/signature.rs:70-90 | recovery walks every scalar by the rest of its digit |
| Winternitz.Merklize | core/src/pubkey.rs:92-146 | the committed root is the textbook tree over the tagged leaves |
| Encoding.BytesRoundTrip | core/src/signature.rs:132-143 | reading the raw bytes of a vector gives the vector back |
| Encoding.VectorRoundTrip | core/src/signature.rs:132-143 | every byte string of the right length is the raw form of the vector read from it |
| Encoding.BytesAt | core/src/signature.rs:132-143 | scalar i lies at byte 32 * i, the two checksum scalars behind the message scalars |
| Soundness.SignedVerifies | core/src/signature.rs:48-50 | what signing makes, verification accepts, for every key and digest |
| Soundness.ForgeryClash | core/src/signature.rs:48-90 | from any other accepted signature, a collision between a string the verifier hashed and a string the owner hashed |
| Soundness.PubkeyClash | core/src/pubkey.rs:92-146 | two public keys under one root collide in a tagged node or a tagged leaf |
| Soundness.ScalarLeadsToRoot | core/src/pubkey.rs:85-146 | every scalar, hashed behind a byte 0, leads to the root through its neighbours, hashed behind a byte 1 with the left one first, in as many steps as the tree is deep |
| Soundness.ChainClash | core/src/lib.rs:56-62 | two chains that start apart and end together cross at a step, which collides |
| Soundness.LowerDigit | core/src/privkey.rs:56-66 | of any two digests the first has a digit strictly below the second's |
| Soundness.DigitsAntichain | core/src/privkey.rs:56-66 | digit vectors of different digests are incomparable, in both directions |
| Soundness.OtherDigestForgery | core/src/signature.rs:70-90 | a signature accepted on another digest holds an earlier link of a published chain, or a collision is exhibited |
| Keypair.NextIsSuccessor | client/src/wallet.rs:50-59 | `next` is +1 on parent * 2^32 + child and refuses exactly at the last position |
| Keypair.WinternitzKeypair.IncrementChild | core/src/keypair.rs:250-265 | the in-place step agrees with `next`, and panics exactly where `next` refuses |
| Keypair.WinternitzKeypair.WalkPath | core/src/keypair.rs:215-220 | the loop walks wallet, parent, child in this order; one step is the row below |
| Keypair.ChildIsMac | core/src/keypair.rs:194-207 | a child is the MAC under the parent's chain code of a zero byte, the parent's key and the big-endian index with its top bit set: the left half its key, the right half its chain code |
| Keypair.ChildrenCollide | core/src/keypair.rs:194-207 | two different steps to one child collide on both halves of the MAC, on the same two inputs |
| Keypair.WinternitzKeypair.DeriveKey | core/src/keypair.rs:213-232 | the derived key is the hardened children of the position's node, scalar i that of index i |
| Keypair.WinternitzKeypair.SignAndIncrement | core/src/keypair.rs:238-245 | signs with the key of the old position and leaves it by exactly one step |
| Keypair.SharedRootIff | core/src/keypair.rs:194-232 | two positions commit to one root if their indices agree below bit 31, and only if, unless a collision is exhibited |
| Keypair.SharedRootEvidence | core/src/keypair.rs:194-232 | positions that differ below bit 31 and share a root yield a collision between a string hashed for the one and a string hashed for the other, or a collision of the whole MAC at one level of the two paths, or of its left half at one scalar index |
| Keypair.KeysRepeatAtHardenedBit | core/src/keypair.rs:194-199 | child 2^31, reached by `next`, derives the key of child 0 |
| BitStrings.ClearLowBits | core/src/keypair.rs:128-131 | the mask clears exactly the low bits |
| BitStrings.ClearLowEqual | core/src/keypair.rs:128-131 | equality under the mask is equality of the leading bits |
| BitStrings.SetInString | core/src/keypair.rs:119-121 | OR-ing one shifted bit into a byte sets exactly that bit of its string |
| Bip39.ReadIndex | core/src/keypair.rs:85-90 | the shift loop reads the eleven bits at the moving position as a number |
| Bip39.GenerateMnemonic | core/src/keypair.rs:78-97 | the words are those of the 264-bit string cut into elevens |
| Bip39.WriteIndex | core/src/keypair.rs:118-123 | the inner loop appends the eleven bits of the index to the buffer |
| Bip39.PackWords | core/src/keypair.rs:111-124 | the buffer holds the bits of all words and zeros, unless a word is unknown |
| Bip39.MaskIsChecksum | core/src/keypair.rs:126-131 | the masked byte comparison is the checksum rule on bit strings, for every checksum length up to eight |
| Bip39.Validate | core/src/keypair.rs:99-134 | accepts exactly the valid mnemonics; the two next rows say which those are |
| Bip39.ExtendedIsValid | core/src/keypair.rs:99-134 | every entropy of 16, 20, 24, 28 or 32 bytes, with the leading bits of its hash, spells a mnemonic of 12, 15, 18, 21 or 24 words that is valid |
| Bip39.ValidIsExtended | core/src/keypair.rs:99-134 | every valid mnemonic has one of these lengths and is spelled by its own packed entropy |
| Bip39.IndexesAreDigits | core/src/keypair.rs:78-97 | the word indexes are the base-2048 digits of entropy and checksum read as one number, leading byte and leading bit first |
| Bip39.GeneratedIsValid | core/src/keypair.rs:78-134 | every generated mnemonic validates |
| Bip39.GeneratedRepacks | core/src/keypair.rs:78-124 | the words of a generated mnemonic repack to the entropy and its checksum byte |
| Bip39.ValidIsGenerated | core/src/keypair.rs:78-134 | every valid 24-word mnemonic is the one generated from its own packed entropy |
| Wire.EncodeAdvance | client/src/instruction.rs:143-198 | accepts exactly the lists within the limits, and reports which limit is broken first; what it encodes is in the rows below |
| Wire.ProgramAt | client/src/instruction.rs:184 | at the offset of instruction k the account list has its program, unsigned and readonly |
| Wire.AccountAt | client/src/instruction.rs:188-194 | behind it account j of instruction k, with its own writable flag and never signing |
| Wire.DataAt | client/src/instruction.rs:166-182 | byte by byte: the number of instructions, then for each its number of accounts, its data length with the low byte first, and its data |
| Wire.RefusalSays | client/src/instruction.rs:143-178 | the totals are checked first, then the instructions in order, the accounts of each before its data |
| Wire.CountLimitIsImplied | sdk/ts/src/instructions/advance.ts:115-160 | in plain numbers: accepted are the lists with at most 128 programs and accounts in all, 16 accounts and 65535 data bytes each, and the 255-instruction check never decides |
| Decode.DecodeEncoded | program/src/instructions/advance.rs:86-101 | an encoded list decodes, over any views with the client's addresses, to the same programs, addresses and data in order |
| Decode.NextSays | program/src/instructions/advance.rs:148-175 | what the next instruction is cut to, byte by byte, and which of the two errors refuses it |
| Decode.EncodeDecoded | program/src/instructions/advance.rs:148-222 | every payload and account list consumed completely is what the client makes of the decoded instructions, byte for byte and address for address |
| Preimage.ClientParts | client/src/preimage.rs:20-37 | the client's list of signed parts |
| Preimage.ProgramParts | program/src/instructions/advance.rs:113-143 | the same parts, without overrunning the 133-slot buffer |
| Preimage.SdkBytes | sdk/ts/src/instructions/advance.ts:171-211 | the flat buffer holds the concatenation of the same parts |
| Preimage.SignedAt | client/src/preimage.rs:20-37 | the signed bytes byte by byte: tag, id, stored root, new root, one address after the other, payload |
| Preimage.TagTexts | common/src/lib.rs:25-28 | the two tags are these texts, character for character |
| Preimage.EqualBytesIff | client/src/preimage.rs:20-37 | exactly when two commitments have the same signed bytes |
| Preimage.SameCountInjective | client/src/preimage.rs:20-37 | with equally many accounts, equal bytes mean equal id, roots, addresses and payload |
| Wallet.NewPlan | client/src/plan.rs:27-45 | a plan exists exactly for the accepted lists and owns payload and account order |
| Wallet.SignAdvance | client/src/wallet.rs:212-246 | refuses, in this order, a wrong position, the last position and a foreign root, and nothing else; otherwise signs the plan's commitment, and the keypair moves by one, never when it refuses |
| EndToEnd.SignedAdvanceReplays | program/src/instructions/advance.rs:63-104 | the instruction made from an accepted list and its signature parses, verifies against the stored root, and executes as storing the new root and then making the client's calls in order, each with its program, addresses and data and with every account writable that the client lists as writable |
| EndToEnd.SignedAdvanceStores | program/src/instructions/advance.rs:63-104 | if the client's calls succeed and none closes the wallet, the transaction succeeds and leaves the plan's new root stored, or the root an inner Advance wrote last |
| EndToEnd.AcceptedIsOwners | program/src/instructions/advance.rs:113-143 | an accepted Advance carries exactly the signature of the stored root's key over the on-chain commitment, or a collision is exhibited |
| StaleAdvance.StaleSignatureRefused | program/src/instructions/advance.rs:63-84 | a signature made at one position is not executed while another position's root is stored, unless it exhibits a hash collision, an HMAC collision, or every private scalar of the one key on a chain of the other at a positive distance |
| StaleAdvance.Crossed | core/src/signature.rs:48-90 | a signature of one key accepted for the root of another exhibits a collision of what was hashed, or the keys are linked at every index, as far apart as the digits |
| Binding.UnambiguousIff | client/src/preimage.rs:20-37 | signed bytes stand for one executable Advance alone if and only if no other cut of them into accounts and payload could be consumed |
| Binding.SignedBytesCutTwice | client/src/preimage.rs:20-37 | for every second account beginning with 1, 1, 32, 0: an accepted list whose signed bytes are also those of another call |
| Binding.ExecutedIsSigned | program/src/instructions/advance.rs:113-143 | while the root a plan was signed against is stored, an executed Advance with its signature has the plan's signed bytes, or exhibits a collision of the short digest, a hash collision, or chains that return to their start |
| Binding.UnambiguousBinds | program/src/instructions/advance.rs:113-143 | for an unambiguous plan the first case is the plan itself: id, new root, account order and payload |
| EndToEnd.ReplayIsRun | program/src/instructions/advance.rs:86-101 | cutting and calling in turn equals cutting everything first and then calling |
| EndToEnd.RunStops | program/src/instructions/advance.rs:165-203 | the list stops with the respective error at the first call whose program is not executable by then, or that needs the wallet's signature while the seeds sign for another address or for none |
| EndToEnd.AdvanceLayout | client/src/instruction.rs:49-70 | the Advance instruction byte by byte, and its accounts: the wallet, writable and unsigned, then the payload's |
| Plans.OneCallPlan | program/src/instructions/advance.rs:63-104 | a signed plan of one instruction does nothing but store the new root and make that one call |
| Plans.WithdrawPlanSucceeds | client/src/plan.rs:53-66 | a withdrawal plan on a funded wallet, handed its own accounts with the flags it lists, succeeds: the root rotates and exactly the amount moves |
| Base.U64LeBytes | client/src/instruction.rs:79-92 | the amount of a withdrawal travels as eight bytes, the low one first |
| Plans.ClosePlanSucceeds | client/src/plan.rs:68-76 | a close plan handed its own accounts succeeds: the receiver gets everything and an empty system account is left |
| Plans.OrdinaryPlans | client/src/plan.rs:53-76 | both plans exist for every wallet, receiver, amount and root |
| Plans.InitializeSucceeds | client/src/instruction.rs:17-40 | the owner's first transaction, with a payer who can cover it, creates the wallet of the id that is the root of the signing position, and the payer pays exactly what the address lacks |
| EndToEnd.InitializeBindsNoRoot | program/src/instructions/initialize.rs:62-96 | a signature that initialises a wallet with one root initialises the same wallet with every other root as well |
| Binding.SignatureBindsNoFlags | client/src/preimage.rs:20-37 | an Advance accepted with its accounts flagged one way is accepted with every other flagging that leaves the wallet writable, and makes the same calls |
| Runtime.Bank.RunWithdraw | program/src/instructions/withdraw.rs:19-75 | the handler's checks in order and its two balance writes, also when both accounts are one |
| Program.WithdrawRefusals | program/src/instructions/withdraw.rs:19-68 | which check refuses a withdrawal, and that too little for amount and rent is refused as such, in plain arithmetic |
| Runtime.Bank.RunClose | program/src/instructions/close.rs:12-58 | the handler's checks in order, the credit, and the emptied, reassigned account |
| Program.CloseRefusals | program/src/instructions/close.rs:12-40 | which check refuses a Close |
| Runtime.Bank.RunInitialize | program/src/instructions/initialize.rs:23-96 | the id recovered from the signature must derive the wallet address |
| Program.InitializeRefusals | program/src/instructions/initialize.rs:23-53 | which check refuses an Initialize before its signature is read |
| Program.CoversIff | program/src/instructions/initialize.rs:98-136 | who can pay for a creation, in plain numbers, a wallet that pays for itself included |
| EndToEnd.OwnerInitializes | program/src/instructions/initialize.rs:62-96 | the owner's signature over the Initialize text creates the wallet of the id that is the root of the signing position |
| EndToEnd.InitializedIsOwners | program/src/instructions/initialize.rs:92-96 | whatever recovers to that id is the owner's signature over the text, or exhibits a collision |
| Program.WalletLayout | program/src/state.rs:5-9 | the 65 bytes of a wallet: id, root, bump |
| Runtime.Bank.CreateAndInitialize | program/src/instructions/initialize.rs:98-136 | top-up, allocate, assign and the 65-byte view, also when the wallet pays for itself |
| Runtime.Bank.VerifySignature | program/src/instructions/advance.rs:113-143 | accepts exactly the signatures valid over the commitment against the old root, up to 128 accounts |
| Runtime.Bank.RotateAndVerify | program/src/instructions/advance.rs:63-84 | the root is stored before the signature over the old root is checked, and every refusal in its order |
| Program.AdvanceRefusals | program/src/instructions/advance.rs:63-116 | which check refuses an Advance before its signature is verified |
| EndToEnd.SignatureRefusals | program/src/instructions/advance.rs:67-87 | behind those an Advance is refused for its signature over the stored root, and only with a valid one for an empty payload |
| Runtime.Bank.InvokeNext | program/src/instructions/advance.rs:148-222 | the moving payload and cursor advance by exactly one decoded instruction, called with the wallet promoted |
| Runtime.Bank.ReplayAll | program/src/instructions/advance.rs:86-101 | the loop runs the announced count and then requires empty payload and cursor at the account count |
| Runtime.Bank.Submit | program/src/instructions/advance.rs:63-104 | a whole transaction with nested calls; on an error ledger and history are as before |
| NestedRuns.InvokeFollows | program/src/instructions/advance.rs:63-104 | over every successful tree of calls, whatever other programs do in it, owner and data of every address are what its linear history makes of them, and every Advance in it verified |
| NestedRuns.AdvancesChain | program/src/instructions/advance.rs:67-84 | each Advance of a wallet not yet closed replaced, in call order, the root the Advance before it wrote, under the same id |
| NestedRuns.StoredRootIsLast | program/src/instructions/advance.rs:67-77 | until it is closed a wallet stays the program's, keeps id and bump, and stores the root written last |
| NestedRuns.TreesAreLawful | program/src/instructions/advance.rs:213-221 | a runtime under which only the owner rewrites an account and hands it over zeroed makes every history lawful |
| NestedRuns.NothingAfterClose | program/src/instructions/close.rs:31-58 | after an inner Close every event of that wallet has a re-allocation or an Initialize of the address before it; nothing is assumed of other programs |
| NestedRuns.SelfCallsEndAtClose | program/src/instructions/close.rs:31-58 | in a tree of self-calls that does not initialise the wallet again, nothing happens to it after its Close |
| NestedRuns.OldWalletStaysGone | program/src/instructions/close.rs:50-58 | the closed wallet's id and root do not come back: unless it is initialised again, the program owns at that address no wallet but one with an all-zero id, whose root is zero unless an Advance was signed for the zero root |
| NestedRuns.DeadWalletRefuses | program/src/instructions/withdraw.rs:32-34 | an address without data refuses every Advance, Withdraw and Close |
| NestedRuns.TreeHistory | program/src/instructions/advance.rs:63-104 | chain of roots, last root and the state after a Close at once, for one tree of calls |
| NestedRuns.TransactionHistory | program/src/instructions/advance.rs:63-104 | the same for a transaction of any number of instructions, each with its own tree |
| Authority.SpendsNeedTheStoredRoot | program/src/instructions/advance.rs:63-104 | over every successful transaction, of any number of instructions, in which a live wallet signs for none of them: whatever spends from it, closes it, or hands its signature to another program comes after an Advance of it whose signature verified against the root stored when the transaction began |
| Authority.NoAdvanceNoLoss | program/src/instructions/advance.rs:63-104 | over a transaction without an Advance of its own the wallet keeps owner, id and root and every lamport |
| Authority.NoSeedsNoUse | program/src/instructions/advance.rs:176-203 | signatures are lent for wallets only: an address that signs for nothing and that no seeds sign for is never spent from, closed, or presented as a signer |
| Frames.TransactionFramed | program/src/instructions/advance.rs:63-104 | over every transaction: an account no instruction lists as writable is unchanged, and one of another program that neither became a wallet nor paid for one only gains, if the other programs called keep to the same |
| Authority.InvokeGuarded | program/src/instructions/advance.rs:148-222 | for every address, live or not, over one tree: every use of its authority follows an Advance of it |
| Revival.CloseTwice | program/src/instructions/close.rs:50-58 | as three calls of one Advance a Close, a re-allocation by the system program and a second Close all succeed |
| Revival.SignedCloseTwice | program/src/instructions/close.rs:50-58 | one signed transaction that verifies, closes the wallet, has the address re-allocated and closes it again |
| Revival.SystemIsLawful | program/src/instructions/close.rs:50-58 | the system program of that run keeps to the runtime's rule |
| Lamports.WithdrawMoves | program/src/instructions/withdraw.rs:58-75 | exactly the amount moves and nothing saturates; onto itself nothing moves |
| Lamports.WithdrawKeeps | program/src/instructions/withdraw.rs:58-75 | supply is kept and no wallet falls below the rent minimum, aliased accounts included |
| Lamports.CloseMoves | program/src/instructions/close.rs:22-58 | everything is swept and an empty system account is left |
| Lamports.CreateKeeps | program/src/instructions/initialize.rs:98-136 | creation mints nothing and leaves a rent-exempt wallet, unless the wallet paid for itself |
| Lamports.InvokeKeeps | program/src/instructions/advance.rs:63-104 | over every successful tree of calls supply is kept, and a wallet below the rent minimum was below it before, was handed over so by another program, or paid for its own creation |
| Lamports.RunsConserve | program/src/lib.rs:23-38 | over every sequence of transactions, with no rent check made, no lamport appears or disappears, and a wallet ends below the rent minimum only if it was there before or one of the transactions underfunded it; a transaction is a list of instructions with one rollback |
| Lamports.RentHoldsUnchecked | program/src/instructions/withdraw.rs:58-75 | in a run without an underfunding event the runtime's rent check, made once at the end of each transaction, never fails and every live wallet keeps the rent minimum without it |
| Lamports.CheckedRunsConserve | program/src/lib.rs:23-38 | with the runtime's check, whatever underfunds, supply and rent exemption survive every run |
| Lamports.CheckFailsOnlyByOthers | program/src/instructions/withdraw.rs:58-75 | the instructions of this program never make the runtime's rent check at the end of a transaction fail |
| Protocol.OneTimeUse | cli/src/commands/withdraw.rs:45-156 | in every recover-free interleaving with crashes, power losses that spare any position renamed since the last sync, and failing deliveries, at most one message per position is ever sent |
| Protocol.StepKeepsInv | cli/src/state.rs:84-192 | every step keeps the invariant that what was sent lies below what is safe on disk |
| Protocol.PowerLossLeaves | cli/src/state.rs:84-151 | a power loss may leave the synced position and any position renamed over it since, and no other |
| Lockstep.LockstepRuns | cli/src/commands/withdraw.rs:47-76 | if no sent instruction is accepted under the root of another position: while the wallet lives the chain is at the local position or its predecessor, and the executed instructions are those of positions 0, 1, 2, ..., each once |
| Lockstep.SavedPositionsGrow | cli/src/state.rs:84-151 | the durably saved position never goes back |
| Lockstep.SendFollowsSave | client/src/wallet.rs:285-355 | a send happens under the lock and after the next position was durably saved |
| Lockstep.RecoverLands | cli/src/commands/recover.rs:22-64 | `recover`, whatever root of the chain's history it reads, sets the local position to that root's |
| Lockstep.RecoverSafeIff | cli/src/commands/recover.rs:49-64 | for every root `recover` may read: every continuation keeps one-time use if and only if nothing was sent at that root's position or above |
| Lockstep.EarlyRecoverBreaks | cli/src/commands/recover.rs:49-64 | from the start of any wallet: init, a spend held back by the network, `recover` and another spend send two messages at position 1 |
| Cli.Host.SaveInDir | cli/src/state.rs:84-151 | write, rename, sync in order; a failure leaves the old or the new position, success makes the new one durable |
| Cli.Host.LockAndLoad | cli/src/state.rs:175-192 | the lock is taken without waiting, before the state file is read, and the command goes on exactly if the lock was free and the file allows it |
| Cli.Host.RunSpend | cli/src/commands/transfer.rs:49-176 | withdraw, transfer and close alike: whatever fails on the way, the run is a run of the protocol, and what it sends is the one message of the loaded position, saved past before |
| Cli.Host.RunInit | cli/src/commands/init.rs:33-142 | refuses an existing state file, then position 0 is signed, saved and sent in this order |
| Cli.ScanLoop | cli/src/commands/recover.rs:33-47 | the scan returns the first position from 1 with the on-chain root |
| Protocol.RecoverWrites | cli/src/commands/recover.rs:33-64 | `recover` writes the first position from 1 on with the root it read, or nothing if there is none up to its depth |
| PositionRoots.DistinctOrEvidence | core/src/keypair.rs:194-232 | below bit 31 the wallet's roots are distinct, or two positions of it exhibit a collision |
| PositionRoots.SoundOrEvidence | program/src/instructions/advance.rs:113-143 | no sent instruction verifies under the root of another position, or its acceptance exhibits what a stale signature exhibits |
| PositionRoots.NotDistinctFromHardenedBit | core/src/keypair.rs:194-199 | from bit 31 on they are not |
| PositionRoots.OneMessagePerKey | core/src/keypair.rs:213-245 | one-time use of keys: below bit 31 two sent messages whose signing keys share the private scalar at one index are the same message, or the whole MAC collides at one level of their paths, or its left half at that index |
| PositionRoots.DerivedWalletLockstep | cli/src/commands/withdraw.rs:47-76 | lockstep and at-most-once for a derived wallet and the program's own verification, or one of the two kinds of evidence from the run |
| Delivery.DeliveryAgrees | program/src/instructions/advance.rs:63-104 | for init and the withdraw, transfer and close plans: the instruction a message travels as and the protocol's delivery step agree, on refusals, failures and the root or emptiness left on the ledger |
| Delivery.CarriedAgrees | client/src/transaction.rs:38-48 | the same for a whole transaction that carries the message between other instructions, such as those of the compute budget: it runs through and delivers, or is rolled back and does not |
| Delivery.ElsewhereAgrees | program/src/instructions/advance.rs:63-104 | instructions of others, with any calls of other programs but no Advance of the wallet, leave what the account shows |
| Delivery.LiveCallQuietIff | program/src/instructions/close.rs:54-56 | while the wallet is live, a call of another program is among the admitted ones exactly when it takes nothing from the wallet: every transfer that does not mention it, and every deposit into it |
| Delivery.EmptyCallQuietIff | program/src/instructions/close.rs:54-56 | before Initialize and after Close, exactly when it gives the empty account no data |
| Delivery.LedgerIsChain | cli/src/commands/withdraw.rs:45-156 | over every schedule of processes, deliveries and other people's transactions the account and the protocol's chain say the same, and the protocol's side is a recover-free run |
| Delivery.LedgerInLockstep | cli/src/commands/withdraw.rs:45-156 | after every such schedule the root stored on the ledger is that of the local position or its predecessor, or something the schedule computed stands in the way |
| AccountTable.Collector.Add | client/src/transaction.rs:176-192 | the first entry of the key is widened, or a new one appended |
| AccountTable.Collector.CollectAccounts | client/src/transaction.rs:107-127 | payer, programs and accounts are collected in order and sorted by rank |
| AccountTable.SortIsStable | client/src/transaction.rs:127-132 | the sort is a permutation in rank order that keeps the order inside each rank |
| AccountTable.TableSummarizes | cli/src/helpers.rs:318-348 | every used key once, its flags the OR over all its uses, the payer first, in rank order |
| AccountTable.TableFlags | cli/src/helpers.rs:318-348 | in terms of the instructions alone: a key of the table signs, or is writable, exactly if it is the payer or some instruction lists an account of that key as such, and every key is the payer, an invoked program or a listed account |
| AccountTable.TableKeys | client/src/transaction.rs:107-127 | the payer, the invoked programs and the listed accounts are in the table, and nothing else |
| AccountTable.TableOrder | client/src/transaction.rs:107-132 | inside a rank the keys come in the order in which the instructions first mention them, each instruction's program before its accounts |
| AccountTable.HeaderCuts | cli/src/helpers.rs:350-361 | the three counts cut the table exactly where signing and writing stop |
| Message.EncodeCompactU16 | cli/src/helpers.rs:423-436 | the shifting loop appends the compact form |
| Message.CompactRoundTrip | cli/src/helpers.rs:423-436 | the compact form reads back, whatever follows it |
| Message.CompactForms | cli/src/helpers.rs:423-436 | one, two or three bytes of seven bits each, low bits first, the top bit set on all but the last |
| Message.CompactLenAgrees | client/src/transaction.rs:194-202 | the length loop counts the bytes the encoder pushes |
| Message.MessageRoundTrip | cli/src/helpers.rs:363-402 | the bytes of a message read back as the message, with nothing left over |
| Message.MessageLayout | cli/src/helpers.rs:363-378 | the three header counts, the number of keys, the keys, the blockhash, the number of instructions and the instructions, in this order |
| Message.CompiledLayout | cli/src/helpers.rs:379-399 | program index, number of accounts, account indexes, data length, data, both lengths in compact form |
| Message.CompiledInOrder | cli/src/helpers.rs:379-399 | the instructions lie one behind the other |
| Compile.BuildMessage | cli/src/helpers.rs:312-402 | the builder's bytes are those of the compiled message, which the layout and faithfulness rows are about |
| Compile.LegacyMessageSize | client/src/transaction.rs:142-174 | the running sum, and the refusal exactly when a key is missing from the table |
| Compile.TableHasAll | cli/src/helpers.rs:379-393 | every program and account is in the table, so no lookup panics |
| Compile.EstimateLegacyTransactionSize | client/src/transaction.rs:54-62 | refuses exactly above 256 accounts; its other refusals never occur |
| Compile.ValidatePayerOnlySigners | client/src/transaction.rs:80-94 | refuses exactly when another account must sign |
| LegacyTx.BuildSignedWireTx | cli/src/helpers.rs:415-421 | one signature, then the message |
| LegacyTx.OneSignatureLayout | cli/src/helpers.rs:415-421 | a byte 1, the signature, the message |
| LegacyTx.BuildUnsignedWireTx | cli/src/helpers.rs:404-413 | blank signatures, then the message |
| LegacyTx.CompiledIsFaithful | cli/src/helpers.rs:312-402 | keys are unique and the payer is first; an account of the message signs, or is writable, exactly if it is the payer or some instruction lists it so; and every instruction of the message means the one compiled, with these flags |
| LegacyTx.SizeExactIff | client/src/transaction.rs:50-62 | the estimate is never short, and exact precisely when no length is cut to fewer bytes |
| LegacyTx.LongDataOverestimates | client/src/transaction.rs:50-62 | for every instruction without accounts and with 65536 bytes of data the estimate answers and is two bytes too long |
| LegacyTx.SmallIsExact | client/src/transaction.rs:65-77 | inside the 1232-byte limit there are at most 35 accounts and no cast truncates |
| LegacyTx.SizeDecides | client/src/transaction.rs:65-77 | the 1232-byte limit alone decides: whatever meets it also has at most 256 accounts; and which refusal is given otherwise |
| LegacyTx.RefusedIffUnindexable | client/src/transaction.rs:134-140 | the estimate is refused exactly when the index of some account does not fit into a byte |
| LegacyTx.OneSigner | client/src/transaction.rs:80-94 | one signature is enough exactly for the lists that ask nobody but the payer to sign |
| LegacyTx.CheckedLength | cli/src/helpers.rs:196-208 | after the two checks the signed bytes are exactly as long as estimated |
| LegacyTx.CheckedMeaning | cli/src/helpers.rs:196-208 | after the two checks the bytes read back as one message with one signer, faithful in this sense to the instructions |
| V0.BuildAltMap | sdk/ts/src/transaction.ts:281-291 | the map holds exactly the first match of every address |
| V0.FirstMatchFinds | sdk/ts/src/transaction.ts:281-291 | the match kept is the first in table and entry order |
| V0.PartitionV0Accounts | sdk/ts/src/transaction.ts:265-334 | the loops compute the partition that the following rows are about |
| V0.PartitionLossless | sdk/ts/src/transaction.ts:293-331 | static keys and what the lookups resolve to are together exactly the collected accounts with their flags, and every index is the first match of its address |
| V0.StaticInOrder | sdk/ts/src/transaction.ts:300-310 | the static keys come in the order they have in the table |
| V0.StaticIff | sdk/ts/src/transaction.ts:300-310 | an account of the transaction is static exactly if it signs, is the program of some instruction, or is listed by no table |
| V0.KeptStatic | sdk/ts/src/transaction.ts:300-304 | the payer, every account some instruction lists as a signer and every invoked program are static, whatever the tables list |
| V0.MovedIsListed | sdk/ts/src/transaction.ts:312-324 | every other account is looked up, among the writable indexes if some instruction lists it as writable and among the readonly ones if none does, at an index where that table lists it, and is not static |
| V0.StaticIsTable | sdk/ts/src/transaction.ts:190-204 | the static keys are in rank order and start with the payer |
| V0.PartitionTablesDistinct | sdk/ts/src/transaction.ts:312-331 | no table has two lookups |
| V0.EstimateV0TransactionSize | sdk/ts/src/transaction.ts:190-231 | the running sum of the v0 size |
| V0.EstimateLegacySize | sdk/ts/src/transaction.ts:78-99 | the TypeScript estimate is the Rust one wherever that one answers |
| V0.V0SizeFormula | sdk/ts/src/transaction.ts:190-231 | below 128 accounts: legacy + 2 + 34 per table - 31 per moved account |

## Left out

- Lockstep.LockstepRuns: delivers only instructions the wallet sent. An Initialize that a relay sends with a root of its own is outside it; `EndToEnd.InitializeBindsNoRoot` says what that can do.
- PositionRoots.DerivedWalletLockstep: states the positions of wallet 0 and parent 0 below child 2^31, where keys do not repeat. `Protocol.OneTimeUse` is about positions and has no such bound, but from child 2^31 on the positions of a wallet use their keys a second time (`Keypair.KeysRepeatAtHardenedBit`); `PositionRoots.OneMessagePerKey` is the statement about keys. Whether the calls inside a delivered instruction succeed is left to the environment.
- Delivery.LedgerInLockstep: instructions of others are taken to hold no Advance of the wallet, to give no data to its address while that is without data, and not to take from what this program owns, as the runtime enforces; what an Advance that the wallet did not send exhibits is the subject of `EndToEnd.AcceptedIsOwners`, `StaleAdvance` and `Binding`. A message is delivered by an instruction of a transaction, not by an inner call of another wallet's Advance, and a spend is a withdrawal or one call of another program, as the command line plans it.
- Authority.NoAdvanceNoLoss: uses of other programs that they neither rewrite nor debit what this program owns. No key signs for a program address at the top of a transaction, which is the condition on signers.
- NestedRuns.TreeHistory: uses of other programs the runtime's rule that only the owner rewrites an account or hands it over, zeroed; `NestedRuns.TreesAreLawful` derives that for every tree from the rule. Calls of this program made by another program at the top of a transaction are not modelled; from inside its own calls the runtime forbids them.
- Lamports.RunsConserve: needs a positive rent minimum, a supply that fits in a u64, and other programs that mint nothing and leave accounts they do not own alone, which the runtime enforces. Rent is asked of them only at the end of a transaction, as the runtime does, and for wallets only. Fees are not modelled.
- V0.V0SizeFormula: above 127 accounts a count can take a second byte; the formula is stated below that.
- Bip39.GenerateMnemonic: words are given as a list, the split at white space and the word list's contents are not modelled; the list is any 2048 distinct words.
- Two state directories under one mnemonic, on two machines or two home directories: the lock and the saved position are those of one directory, and nothing in the source joins two.
- Cli.Host.RunSpend: one process at a time in the imperative form; interleavings are those of `Protocol.Run`. The state file is its position only.
- A crash or power loss inside the save of `recover`: its reset of the local position is one atomic step (cli/src/commands/recover.rs:49-64).
- Re-initialising a closed wallet, and one-time use after a `recover` beyond its exact condition.
- Chain forks and rollback of the account read at a low commitment level; durability of the state directory's own entry.
- Inside of SHA-256, HMAC-SHA512, PBKDF2, ed25519 and the search for the program address and its bump, which are parameters.
- Borrow flags, layout casts, zeroization and uninitialised memory; arrays are ordinary arrays, accessed in bounds.
- The runtime's call depth, compute budget and account-count limits, and the inner signer set beyond the wallet's promotion.
- RPC, confirmation, simulation results, prompts, argument parsing, JSON, base58 and base64.
- Compute-budget instructions, token-transfer and account deserialisation helpers, hex encoding: single-branch layout code.
- A reader of v0 transactions: the source only estimates their size.
