# The EVM bridge, modelled and proved in Dafny

This project models the two halves of an EVM bridge and proves what they promise each other and their users.

**The proof pipeline.** Off chain, a monitor encodes the transactions or receipts of a block, builds a Merkle-Patricia
trie over their RLP-encoded indices and sends the concatenated nodes on one key's path. On chain, a contract cuts those
bytes up with its own RLP decoder, walks the nodes by hash and parses the proven bytes. The two halves are written
independently. The proofs show that they agree, in both directions: what the monitor sends is accepted with the right
value, and nothing else is, unless two distinct byte strings with equal hash are at hand. Keccak-256 is an arbitrary
function to 32 bytes, so each such claim names the nodes that would collide. The monitor's RLP, packed paths and trie
roots are proved to be those that Appendices B, C and D of the Ethereum Yellow Paper define; transactions follow
EIP-2718 and the EIPs of their types.

**The ledger and its state machine.** The contract keeps balances, allowances, supply totals per asset, a gas reserve,
two nonces with the one queued withdrawal between them, the observed deposits by height, a rolling window of headers
and a book of timelocked proposals. Each handler is a method on the stored fields, proved equal to a function of the
old state. For each call one theorem says in plain conditions on the stored fields when it is accepted, and exactly what
it changes; the others are about every run, with a log of what each call brought about.

A method that refuses leaves the state as it was: the entry points abort on an error and the host then undoes the call.

## Modules

| files | content |
|---|---|
| ByteStrings, Rlp, RlpTheorems | bytes, wrapping words, big-endian numbers; the codec and its canonicity |
| HexPrefix, Trie, TrieBuilder, TrieTheorems, TrieNodes | paths, the monitor's trie as function and as loops, lookups, node round trip |
| Mpt, Verifier, MptTheorems, ProofBytes, ProofTheorems, BlockProofs | the verifier, uniqueness, soundness, completeness, whole blocks |
| YellowPaper, YellowPaperTheorems | RLP, hex-prefix and trie root as the Yellow Paper defines them, and that the monitor's are these |
| Erc20, Transactions, TransactionTheorems, SighashTheorems, MonitorTheorems, Receipts | transactions and receipts on both sides |
| Evidence, EvidenceTheorems, Submissions, SubmissionTheorems | the verdicts on submitted bytes, that they are about the block, and runs of submitted calls |
| MinedTheorems, DropTheorems, PaidRun | that mined deposits are accepted and mined withdrawals can be settled; when one can be dropped, and that this says nothing about its payment |
| Observed, Blocklist, HeaderStore, FeedTheorems, HeaderTheorems, HeaderRuns | observed deposits and headers, alone and inside the whole contract |
| Proposals, ProposalTheorems, Governance, AdminTheorems | the timelock, the gates and the admin calls behind them |
| Accounts, TransferTheorems, RoutingTheorems, UnmapTheorems, SpendTheorems | call by call: when it is accepted, in plain conditions, and exactly what it changes |
| AllowanceTheorems, OverdrawnRun | what spenders take and owners pay, over every run |
| Ledger, Handlers, Actions, Bridge, History | stored state, handlers as functions and as methods, calls as data, runs with their log |
| Gas, Totals, Books, Effects, LedgerTheorems, UserTotalTheorems, TokenTheorems, MispairedRun | fees, sums of balances, conservation and solvency per asset and per token |
| WithdrawalQueue, SettlementTheorems, DepositTheorems, WithdrawalTheorems, ConfirmationTheorems, SampleRun, MisnamedRun | the queue, settlement once, credit once, what a withdrawal costs and returns |

## Model

| member | source | states |
|---|---|---|
| BlockProofs.EndToEnd | evm-mapping-contract/monitor/trie.go:114-223 | for every block of values up to 65536 bytes (inlined nodes included) other than a tiny one, and every index, the monitor's proof is 1 to 19 nodes, its concatenation is cut back into them, and verifying them against the root returns exactly the value at the index, unless two of those nodes collide |
| BlockProofs.NothingElseVerifies | evm-mapping-contract/contract/mpt/verify.go:127-303 | whatever key and nodes are offered against a block's root, an accepted value is the value at an index whose key is the given one, or an offered node has the hash of a different node on the honest path |
| BlockProofs.RootIsHashUnlessTiny | evm-mapping-contract/monitor/trie.go:34-40 | the root has 32 bytes if and only if the block is not a single value of at most 26 bytes |
| BlockProofs.TinyBlockExample | evm-mapping-contract/monitor/trie.go:218-223 | a block of one legacy transaction with every field zero or empty, 10 bytes long, has no hash for a root |
| BlockProofs.BlockLookup | evm-mapping-contract/monitor/trie.go:125-159 | the trie of a block maps exactly the RLP index keys, each to the value at its index |
| BlockProofs.IndexKeysPrefixFree | evm-mapping-contract/monitor/receipt.go:72-75 | no index key is a prefix of another, so no two values share a key |
| BlockProofs.BuildTxProof | evm-mapping-contract/monitor/receipt.go:112-131 | yields a proof exactly for an index in range: root, generated nodes and encoding of that transaction |
| Transactions.MonitorEncodeTx | evm-mapping-contract/monitor/tx_encode.go:60-180 | the choice by type and the loops compute the encoding of every type; wire bytes pass unchanged |
| Transactions.RefusedTypes | evm-mapping-contract/contract/mapping/proof.go:233-278 | of the encoded types the contract's parser refuses exactly 1, 3 and 4 as unsupported |
| YellowPaperTheorems.BlockRoot | evm-mapping-contract/monitor/trie.go:34-223 | the root of every block that is not tiny is TRIE of its entries as Appendix D of the Yellow Paper defines it over the set of key-value pairs, and the hash of a tiny block's root is |
| YellowPaperTheorems.BuildIsC | evm-mapping-contract/monitor/trie.go:42-188 | the encoding of every built trie of distinct keys is c(J, i) of its entries: leaf, extension or branch, children inlined below 32 bytes |
| YellowPaperTheorems.CompactIsHP | evm-mapping-contract/monitor/trie.go:80-102 | the packed path is the hex-prefix encoding of Appendix C, nibble by nibble |
| YellowPaperTheorems.StringIsRlp | evm-mapping-contract/contract/rlp/encode.go:5-26 | a string below 2^64 bytes is encoded as Appendix B has it, with the numbers 128, 56 and 183 |
| YellowPaperTheorems.ListIsRlp | evm-mapping-contract/contract/rlp/encode.go:28-46 | a list below 2^64 bytes is encoded as Appendix B has it, with the numbers 192, 56 and 247 |
| MonitorTheorems.EnvelopeExactly | evm-mapping-contract/monitor/tx_encode.go:60-201 | wire bytes pass unchanged; otherwise the encoding is the type byte and the fields in the order of EIP-155, 2930, 1559, 4844 or 7702, access lists, blob hashes and authorizations included |
| MptTheorems.ProofUnique | evm-mapping-contract/contract/mpt/verify.go:127-171 | two node lists accepted for one root and key give the same value, or contain distinct nodes of equal hash |
| MptTheorems.VerifyExactly | evm-mapping-contract/contract/mpt/verify.go:127-204 | acceptance holds if and only if there are 1 to MaxProofNodes nodes and the references lead from the root, within the bound on hops, through the whole key and its terminator to the value |
| MptTheorems.NodeExactly | evm-mapping-contract/contract/mpt/verify.go:211-303 | bytes are decoded to a node exactly if they begin with the canonical encoding of a list that denotes it: two elements with a path, or sixteen references and a value, where a string refers only when empty or 32 bytes long |
| ProofTheorems.VerifySound | evm-mapping-contract/contract/mpt/verify.go:127-303 | a value accepted against the hash of any well-formed trie is the one the trie holds, or an offered node collides with one on the trie's own path |
| ProofTheorems.VerifyComplete | evm-mapping-contract/monitor/trie.go:191-215 | the generated proof of any key a trie holds is accepted with its value, if its nodes do not collide |
| ProofTheorems.ProofLength | evm-mapping-contract/monitor/trie.go:198-215 | a proof has at most one node per nibble and one more |
| ProofTheorems.ProofSplits | evm-mapping-contract/contract/mapping/proof.go:437-450 | splitting the concatenation of a generated proof gives back its nodes |
| TrieTheorems.BuildLookup | evm-mapping-contract/monitor/trie.go:125-159 | looking up any key in the built trie gives the last value inserted under it; only an empty value whose key begins another key can be lost |
| TrieTheorems.BuildWellFormed | evm-mapping-contract/monitor/trie.go:125-159 | every built trie has nibble paths, sixteen children per branch and a branch under each extension |
| TrieNodes.DecodeNodeEncode | evm-mapping-contract/contract/mpt/verify.go:211-303 | decoding a node's encoding gives back the node, inlined children included, so nesting never exceeds the decoder's depth |
| RlpTheorems.DecodeExactly | evm-mapping-contract/contract/rlp/decode.go:38-170 | an item is accepted at an offset, ending at end, if and only if it is within the depth and size limits and its canonical encoding stands exactly there |
| RlpTheorems.Canonical | evm-mapping-contract/contract/rlp/decode.go:38-170 | whatever is accepted re-encodes to exactly the bytes read |
| RlpTheorems.DecodeEncoded | evm-mapping-contract/contract/rlp/encode.go:5-46 | every item tree within the limits, encoded anywhere in a longer buffer, decodes to itself and ends just past its encoding |
| RlpTheorems.PrefixFree | evm-mapping-contract/contract/rlp/encode.go:5-46 | no encoding is a prefix of another one |
| RlpTheorems.Uint64RoundTrip | evm-mapping-contract/contract/rlp/decode.go:173-182 | AsUint64 inverts EncodeUint64 on all 64-bit words, whatever follows |
| RlpTheorems.StringLimit | evm-mapping-contract/contract/rlp/decode.go:15-99 | a string of up to 65536 bytes decodes to itself, whatever follows, and a longer one is refused as oversized |
| RlpTheorems.NestingLimit | evm-mapping-contract/contract/rlp/decode.go:15-45 | a list inside twenty lists decodes, and inside twenty-one the depth is exceeded |
| RlpTheorems.AsUint64Exactly | evm-mapping-contract/contract/rlp/decode.go:173-190 | a number is the big-endian value modulo 2^64 of a string, and 0 for a list |
| Rlp.DecodeItem | evm-mapping-contract/contract/rlp/decode.go:38-145 | the recursive decoder equals its specification, prefix by prefix, with termination by depth |
| Rlp.DecodeChildren | evm-mapping-contract/contract/rlp/decode.go:147-162 | the loop over a list's payload equals the recursive reading of it, error cases included |
| Rlp.DecodeLength | evm-mapping-contract/contract/rlp/decode.go:164-170 | the shifting loop computes the wrapped 64-bit length that a Go int holds, negative when the top bit is set |
| Rlp.AsUint64 | evm-mapping-contract/contract/rlp/decode.go:173-182 | the shifting loop computes the big-endian value modulo 2^64 |
| Rlp.BuildList | evm-mapping-contract/contract/rlp/encode.go:28-34 | the appending loop computes the list encoding |
| Rlp.BigEndianUint64 | evm-mapping-contract/contract/rlp/encode.go:48-63 | filling the buffer from its end gives the shortest big-endian form |
| HexPrefix.CompactRoundTrip | evm-mapping-contract/contract/mpt/verify.go:324-341 | the verifier reads back exactly the path and leaf flag that the monitor packed |
| HexPrefix.CompactCanonical | evm-mapping-contract/contract/mpt/verify.go:324-336 | a compact string survives parsing and printing if and only if its flag nibble is at most 3 and an even path is padded with 0 |
| HexPrefix.NibblesInjective | evm-mapping-contract/monitor/trie.go:104-111 | keys with equal nibbles are equal |
| HexPrefix.MonitorKeyToNibbles | evm-mapping-contract/monitor/trie.go:104-111 | the loop computes the nibbles of a key |
| HexPrefix.VerifierKeybytesToHex | evm-mapping-contract/contract/mpt/verify.go:311-320 | the in-place loop computes the nibbles and the terminator |
| HexPrefix.MonitorNibblesToCompact | evm-mapping-contract/monitor/trie.go:80-102 | the loop computes the hex-prefix form for both parities |
| TrieBuilder.BuildNode | evm-mapping-contract/monitor/trie.go:125-159 | the grouping loops build the specified trie |
| TrieBuilder.CommonPrefixLen | evm-mapping-contract/monitor/trie.go:161-188 | the scan finds the longest common prefix of the keys |
| TrieBuilder.EncodeBranch | evm-mapping-contract/monitor/trie.go:42-58 | the loop over the sixteen children computes the branch encoding, hashing children of 32 bytes and more |
| TrieBuilder.AppendProof | evm-mapping-contract/monitor/trie.go:198-215 | the recursive collection appends exactly the nodes on the key's path |
| Verifier.Verify | evm-mapping-contract/contract/mpt/verify.go:127-171 | the hash-following loop equals its specification, including which error is returned and the bound on steps |
| Verifier.Follow | evm-mapping-contract/contract/mpt/verify.go:178-204 | the loop inside one node returns the remaining key and the child it stops at |
| Verifier.NewProofDB | evm-mapping-contract/contract/mpt/verify.go:96-104 | the map holds each node under its hash |
| Verifier.DecodeFull | evm-mapping-contract/contract/mpt/verify.go:248-265 | the loop decodes all sixteen references and the value, or fails with the first that fails |
| ProofBytes.Split | evm-mapping-contract/contract/mapping/proof.go:437-450 | the loop cuts off items until the first failure |
| ProofBytes.SplitIsPrefix | evm-mapping-contract/contract/mapping/proof.go:437-450 | the nodes of any split are canonical items standing one after the other at the start of the input |
| ProofBytes.SplitStops | evm-mapping-contract/contract/mapping/proof.go:437-450 | the nodes reach up to the end of the input or to the first byte from which nothing decodes |
| TransactionTheorems.WithdrawalRoundTrip | evm-mapping-contract/contract/mapping/withdrawal.go:139-213 | a built and signed withdrawal parses back to all its fields, and the signing hash is taken over exactly the unsigned bytes |
| WithdrawalTheorems.ETHRecognised | evm-mapping-contract/contract/mapping/handlers.go:471-483 | a signed ETH withdrawal passes every field check of confirmSpend for its spend |
| WithdrawalTheorems.TokenRecognised | evm-mapping-contract/contract/mapping/handlers.go:484-515 | a signed token withdrawal passes every field check if and only if the token's symbol is not eth |
| Transactions.Sign | evm-mapping-contract/contract/mapping/withdrawal.go:184-213 | the signing loop equals its specification, with its three errors |
| Transactions.ReencodeItem | evm-mapping-contract/contract/mapping/proof.go:340-349 | the recursive loop computes the canonical encoding of an item |
| Transactions.ComputeTxSighash | evm-mapping-contract/contract/mapping/proof.go:351-393 | the hash is that of the specified preimage for both transaction forms |
| Transactions.Pad | evm-mapping-contract/contract/mapping/proof.go:452-459 | left-pads to 32 bytes, cutting longer strings |
| Transactions.MonitorAccessList | evm-mapping-contract/monitor/tx_encode.go:182-201 | the loops compute the nested list encoding |
| SighashTheorems.PreimageIsRawBytes | evm-mapping-contract/contract/mapping/proof.go:351-393 | for any accepted type-2 transaction, with any access list, the preimage is 0x02, a list header and the raw bytes of the input's first nine items |
| SighashTheorems.LegacyPreimage | evm-mapping-contract/contract/mapping/proof.go:306-393 | for any accepted legacy transaction the preimage is the six raw fields, the chain id and two empty strings if and only if those six items are strings |
| SighashTheorems.Eip155 | evm-mapping-contract/contract/mapping/proof.go:306-338 | v = 2c + 35 + y is read as chain id c and recovery bit y |
| SighashTheorems.ParseExactly | evm-mapping-contract/contract/mapping/proof.go:231-338 | whatever the bytes are, the parser accepts exactly twelve or more items behind a 2 or nine or more on their own, and reads exactly these fields, a v below 35 included |
| MonitorTheorems.EIP1559RoundTrip | evm-mapping-contract/monitor/tx_encode.go:79-95 | the parser inverts the monitor's type-2 encoder and the preimage is the transaction's unsigned encoding |
| MonitorTheorems.LegacyRoundTrip | evm-mapping-contract/monitor/tx_encode.go:114-126 | the parser inverts the monitor's legacy encoder and the preimage is the EIP-155 one |
| MonitorTheorems.PadRestores | evm-mapping-contract/contract/mapping/proof.go:452-459 | r and s come back after the encoder dropped their leading zeros |
| Erc20.EncodeTransfer | evm-mapping-contract/contract/abi/erc20.go:12-19 | the copying loops write selector, address and amount into the 68-byte buffer |
| Erc20.CalldataFields | evm-mapping-contract/contract/abi/erc20.go:12-19 | the amount slot reads back the amount if and only if it is below 2^256, and then selector, padding and recipient are intact |
| Receipts.ReceiptAgreement | evm-mapping-contract/contract/mapping/proof.go:395-435 | parsing an encoded receipt gives the same logs in the same order with none skipped, and its status |
| Receipts.ReceiptDelivered | evm-mapping-contract/monitor/receipt.go:66-85 | from a block of receipts to the parsed logs: the proof built for receipt i verifies to it and parses to its logs, or two of its nodes collide |
| Receipts.MonitorEncodeReceipt | evm-mapping-contract/monitor/receipt.go:29-63 | the loops compute the receipt encoding, with its type byte |
| Receipts.BuildReceiptProof | evm-mapping-contract/monitor/receipt.go:66-85 | yields a proof exactly for an index in range |
| Receipts.ParseLogs | evm-mapping-contract/contract/mapping/proof.go:395-435 | the loop equals its specification: which logs are skipped and when it fails |
| Receipts.ReceiptForm | evm-mapping-contract/monitor/receipt.go:29-63 | a receipt is its type byte, unless that is 0, and status, gas, bloom and logs in this order |
| Receipts.LogsExactly | evm-mapping-contract/contract/mapping/proof.go:411-434 | whatever the items are, parsing gives exactly the logs among them in order, topics padded on the left, and fails only over a topic of more than 32 bytes |
| Receipts.ReceiptExactly | evm-mapping-contract/contract/mapping/proof.go:395-435 | logs come from the fourth of four or more fields, which must be a list, and the status from the first |
| EvidenceTheorems.ETHDepositIsReal | evm-mapping-contract/contract/mapping/proof.go:35-125 | an accepted ETH deposit is the block's transaction at that index: its chain id is the contract's, its recipient the vault, its value the amount, its signer the depositor; otherwise a node was forged |
| EvidenceTheorems.ETHDepositIsSeen | evm-mapping-contract/contract/mapping/proof.go:35-125 | with the monitor's proof a deposit is accepted if and only if the block's transaction pays it into the vault, or two nodes collide |
| EvidenceTheorems.EIP1559PaysVault | evm-mapping-contract/monitor/tx_encode.go:79-95 | for bytes the monitor encoded from a type-2 transaction this is a statement about its fields: chain id, recipient, value, and the signer of its unsigned form |
| EvidenceTheorems.LegacyPaysVault | evm-mapping-contract/monitor/tx_encode.go:114-126 | the same for a legacy transaction with v = 2c + 35 + y |
| EvidenceTheorems.ERC20DepositIsReal | evm-mapping-contract/contract/mapping/proof.go:132-229 | an accepted token deposit is the log at that index of the block's receipt at that index: a transfer of the amount from the depositor to the vault; otherwise a node was forged |
| EvidenceTheorems.ERC20DepositIsSeen | evm-mapping-contract/contract/mapping/proof.go:132-229 | with the monitor's proof a token deposit is accepted if and only if the header is of the contract's chain, the log index is at most 10000 and that log of the block's receipt is a transfer to the vault, or two nodes collide |
| EvidenceTheorems.SpendIsReal | evm-mapping-contract/contract/mapping/handlers.go:408-545 | a proven settlement is the block's transaction at the index with the status of the receipt at the same index, or a node was forged |
| EvidenceTheorems.DropIsSeen | evm-mapping-contract/contract/mapping/handlers.go:1258-1337 | with the monitor's proof the drop verdict holds if and only if the nonces agree and the block has at the index a receipt of status 0, or a transaction of the chain with a later nonce, by kind; or two nodes collide |
| EvidenceTheorems.DropIsReal | evm-mapping-contract/contract/mapping/handlers.go:1258-1337 | an accepted drop proof shows, in the block of its header, a receipt of status 0, or a transaction of the chain whose nonce exceeds the spend's; otherwise a node was forged |
| SubmissionTheorems.ETHCreditIsReal | evm-mapping-contract/contract/mapping/handlers.go:64-108 | an accepted ETH deposit call raises active by the amount and, unless a swap goes out, raises the balance of the account its last deposit_to instruction names, or the depositor's, by the amount less a hundredth and moves no other; amount and depositor are those of the block's transaction at its index, whose hash is noted, or a node was forged |
| SubmissionTheorems.ERC20CreditIsReal | evm-mapping-contract/contract/mapping/handlers.go:110-143 | the same of a token deposit call, untaxed and in the token's registered symbol: amount and sender are those of the transfer at its log index in the block's receipt, or a node was forged |
| MinedTheorems.ETHDepositIsAccepted | evm-mapping-contract/contract/mapping/handlers.go:54-108 | with the monitor's proof from a stored block, the call is accepted if and only if the contract is not paused and has a vault, the caller is a relayer, the transaction pays a positive amount into the vault, and it was not observed; or two nodes collide |
| MinedTheorems.ERC20DepositIsAccepted | evm-mapping-contract/contract/mapping/handlers.go:110-143 | the same of a token: unpaused, a vault, a registered token, a header of the chain, and an unobserved transfer of a positive amount at a log index of at most 10000 |
| RoutingTheorems.InstructionsRead | evm-mapping-contract/contract/mapping/handlers.go:645-667 | each of the four keys is read from the last instruction that begins with it and is longer, and is otherwise the depositor for deposit_to and empty for the rest |
| RoutingTheorems.MapETHExactly | evm-mapping-contract/contract/mapping/handlers.go:54-108 | when an ETH deposit is accepted and all it changes: reserve, totals, noted bytes, and the recipient's balance; or, if a swap goes out, the transfers made while the router may take the deposit |
| RoutingTheorems.MapERC20Exactly | evm-mapping-contract/contract/mapping/handlers.go:110-143 | the same of a token deposit |
| SubmissionTheorems.TransactionCreditedOnce | evm-mapping-contract/contract/mapping/handlers.go:64-143 | over every run of submitted calls a transaction of a block, by height and index, is credited at most once, unless the height was wiped in between or a node was forged |
| SubmissionTheorems.TransferCreditedOnce | evm-mapping-contract/contract/mapping/handlers.go:64-143 | the same of a log, by height, receipt index and log index |
| SubmissionTheorems.CreditHasCall | evm-mapping-contract/contract/mapping/handlers.go:64-143 | every credit in the log of a run was logged by an accepted deposit call, which stands at the same place |
| SubmissionTheorems.SettlementIsReal | evm-mapping-contract/contract/mapping/handlers.go:379-570 | an accepted settlement pays the head if and only if the block's receipt says success, refunds it otherwise, and the block's transaction at that index carries the head's nonce on the contract's chain, delivers its amount to its recipient, as ether or by a transfer of its token, and is signed by the vault of its queueing; or a node was forged |
| MinedTheorems.SettlementIsSeen | evm-mapping-contract/contract/mapping/handlers.go:379-570 | with the monitor's proofs from a stored block, the settlement of the head is accepted if and only if the block is later than the withdrawal and shows at that index a transaction signed by the vault of its queueing that delivers the head's amount to its recipient under its nonce; it then pays or refunds as the receipt says; or two nodes collide |
| MinedTheorems.MinedIsSettled | evm-mapping-contract/contract/mapping/handlers.go:379-570 | after every run of fewer than 2^64 calls, a queued withdrawal of less than 2^256 that its vault signed and a later stored block holds can be settled with the monitor's proofs, unless it is of a token registered as eth or two nodes collide |
| SubmissionTheorems.RefundIsReal | evm-mapping-contract/contract/mapping/handlers.go:1053-1219 | an accepted drop refunds the head, and the block of its header holds at the named index some receipt of status 0, or some transaction of the chain with a nonce above the head's, whoever signed either; or a node was forged |
| DropTheorems.DropAcceptedExactly | evm-mapping-contract/contract/mapping/handlers.go:1053-1337 | each of the three drop calls, with the monitor's evidence, is accepted, and refunds the head, if and only if the caller may drop it and the block has at that index such a receipt or such a transaction; or two nodes collide |
| DropTheorems.RefundableExactly | evm-mapping-contract/contract/mapping/handlers.go:1180-1337 | the owner can have the head refunded from a stored block if and only if some transaction of the block failed, whosever it is, or some transaction of the chain in it has a later nonce, whoever signed it; or two nodes collide |
| DropTheorems.PaidIsRefunded | evm-mapping-contract/contract/mapping/handlers.go:1134-1153 | a head that the block shows as paid at one index is refunded all the same with any failed receipt or later nonce at another index of that block, or two nodes collide |
| PaidRun.PaidThenRefunded | evm-mapping-contract/contract/mapping/handlers.go:1258-1337 | a reachable state and a block with the signed withdrawal, which succeeded, and the vault's own next transaction, which failed: the owner's cancel is accepted with either kind of evidence from the second, or two nodes collide |
| DropTheorems.NonceDecides | evm-mapping-contract/contract/mapping/handlers.go:1137-1140 | if the chain mines at most one transaction of the vault under a nonce: once that nonce is taken, the withdrawal was paid on the chain if and only if the transaction that took it matches the withdrawal and its receipt says success |
| DropTheorems.GuardedRefundIsUnpaid | evm-mapping-contract/contract/mapping/handlers.go:1275-1308 | were a failed receipt accepted only where the block's transaction at the same index is the vault's under the head's nonce, a refunded head would never have been paid on that chain, or a node was forged |
| Submissions.SubmitAllIsRun | evm-mapping-contract/contract/main.go:133-260 | a run of submitted calls is a run of the calls with the verdicts reached along the way |
| LedgerTheorems.Solvent | evm-mapping-contract/contract/mapping/handlers.go:54-570 | over every run of fewer than 2^64 calls, swaps and refunds included, and for every asset: deposits equal active + queued + paid + dropped, no balance is negative, the balances sum to at most active, and user equals that sum up to three logged drifts |
| LedgerTheorems.ActiveNeverClamped | evm-mapping-contract/contract/mapping/handlers.go:239-257 | in every such state a successful ETH unmap lowers active by exactly the amount, so the clamp is never taken |
| UserTotalTheorems.UserTotalExactly | evm-mapping-contract/contract/mapping/handlers.go:232-257 | over every run of fewer than 2^64 calls, swaps included: for eth, user equals the sum of balances after every call if and only if no accepted call swaps a taxed deposit out or charges an unmapFrom fee on top; for every other asset it always does |
| UserTotalTheorems.CallKeepsUserTotal | evm-mapping-contract/contract/mapping/handlers.go:232-257 | from a state in which user equals the sum of balances, an accepted call keeps them equal if and only if it is neither of these two |
| UserTotalTheorems.NoTaxedSwap | evm-mapping-contract/contract/mapping/handlers.go:83-109 | a deposit swaps its tax out if and only if it is at least 100 wei, names a swap target and asset, a router is registered and its call returns |
| UserTotalTheorems.UserTotal | evm-mapping-contract/contract/mapping/handlers.go:239-257 | for every asset but eth on every run, and for eth when no taxed swap goes out: active = user + fee, and user covers the balances, with equality if and only if no ETH unmapFrom charged its fee on top |
| UserTotalTheorems.WithdrawalNeverAborts | evm-mapping-contract/contract/mapping/supply.go:67-86 | under the same condition whoever can be debited can withdraw: neither the abort of TrackWithdrawal nor the user clamp is reachable |
| UserTotalTheorems.WithdrawableExactly | evm-mapping-contract/contract/mapping/supply.go:67-86 | after every run of fewer than 2^64 calls, swaps included, and for every asset: abort and clamp are out of reach for every affordable debit if and only if no balance exceeds the user total |
| UserTotalTheorems.SwapBreaksUserTotal | evm-mapping-contract/contract/mapping/handlers.go:83-109 | an input for the exception: after one swap deposit of 100 wei the user total is 99 while the balances sum to 100 |
| UserTotalTheorems.SwapBlocksWithdrawal | evm-mapping-contract/contract/mapping/supply.go:77-86 | in that state the contract's own balance of 100 exceeds the user total, so an affordable debit is not covered |
| TokenTheorems.TokenConserved | evm-mapping-contract/contract/mapping/handlers.go:54-570 | over every run of fewer than 2^64 calls, for every token and asset: the verified deposits of the token equal the asset's active total plus what is queued, paid or dropped of the token, after every call, if and only if no accepted call moves one of the two without the other |
| TokenTheorems.NamedTokenConserved | evm-mapping-contract/contract/mapping/handlers.go:786-949 | under a symbol registered for one token alone, that holds if and only if no accepted unmapFrom debits the symbol and sends another token, or sends the token and debits another symbol |
| MispairedRun.MispairedReachable | evm-mapping-contract/contract/mapping/handlers.go:786-949 | a run in which two symbols name one token each and an accepted unmapFrom debits one and sends the other, so neither token stays conserved |
| Totals.TotalCredited | evm-mapping-contract/contract/mapping/balance.go:83-105 | crediting or debiting an account moves its asset's sum by the amount and no other sum |
| Effects.RoutedFigures | evm-mapping-contract/contract/mapping/handlers.go:645-700 | routing adds the whole amount to some balance exactly when the router call returns; a failed call is undone and the depositor is credited |
| Effects.SettlementShape | evm-mapping-contract/contract/mapping/handlers.go:547-567 | a settlement pays out, or returns the queued amount to its owner and to both totals; it always takes the head |
| SpendTheorems.MatchesExactly | evm-mapping-contract/contract/mapping/handlers.go:466-515 | confirmSpend matches exactly the transactions under the spend's nonce, on the chain, that send its amount to its recipient, or call the token with the ABI's encoding of that transfer and send nothing |
| SpendTheorems.ConfirmExactly | evm-mapping-contract/contract/mapping/handlers.go:379-570 | a settlement is accepted if and only if intent, later height, signer and such a transaction agree with the head; status 1 removes the head and changes nothing else, any other returns amount and gas |
| SpendTheorems.DropExactly | evm-mapping-contract/contract/mapping/handlers.go:1053-1219 | each drop is accepted if and only if its proof is and the caller may: the admin, the owner, or anybody 5000 blocks on; the amount goes back to owner and totals, no gas does |
| SpendTheorems.ReplaceExactly | evm-mapping-contract/contract/mapping/handlers.go:993-1045 | a replacement rewrites the head's transaction at 4 gwei and three times the base fee plus 4 gwei, for the same recipient and amount, and is refused only when that does not fit or no head is stored |
| SpendTheorems.ClearExactly | evm-mapping-contract/contract/mapping/handlers.go:1223-1252 | on a testnet contract the queue is emptied, the nonces are 0 and the deposits observed at the last 203 heights are forgotten |
| UnmapTheorems.UnmapETHExactly | evm-mapping-contract/contract/mapping/handlers.go:150-276 | accepted if and only if: queue empty, reserve of 0.05 ether, at least 0.01 ether, a non-zero recipient, a key, a price that fits and is within the caller's limit, and a balance for amount and fee; the debit, the totals and the queued spend are exact |
| UnmapTheorems.UnmapERC20Exactly | evm-mapping-contract/contract/mapping/handlers.go:278-368 | accepted if and only if the amount reaches the token's minimum and balance and totals cover it, besides the common conditions; the debit, the totals, the reserve and the queued spend are exact |
| UnmapTheorems.UnmapFromExactly | evm-mapping-contract/contract/mapping/handlers.go:786-949 | accepted only with a grant of the amount, which it uses up exactly; no other grant changes, and the owner pays the amount and, for ether, the fee unless it is deducted |
| AllowanceTheorems.AllowanceHonoured | evm-mapping-contract/contract/mapping/handlers.go:597-700 | over every run of fewer than 2^64 calls, for every owner, spender and asset: what transferFrom, unmapFrom and the transfers during swaps took under a grant, with what is left of it, is at most what was granted |
| AllowanceTheorems.OwnerPaysTheGrant | evm-mapping-contract/contract/mapping/handlers.go:855-915 | an unmapFrom costs the owner exactly what it uses up of the grant if and only if it is not one of ether with the fee on top |
| OverdrawnRun.SpenderOverdraws | evm-mapping-contract/contract/mapping/handlers.go:855-915 | an input for the exception: a grant of 0.01 ether costs the owner 0.010042 ether |
| TransferTheorems.TransferExactly | evm-mapping-contract/contract/mapping/handlers.go:572-595 | accepted if and only if the caller holds the positive amount and a recipient is named; that amount moves and no other balance changes |
| TransferTheorems.TransferFromExactly | evm-mapping-contract/contract/mapping/handlers.go:597-625 | the same of the owner's amount, with a grant that falls by exactly the amount while no other changes |
| TransferTheorems.ApproveExactly | evm-mapping-contract/contract/mapping/handlers.go:627-641 | a non-negative amount becomes the grant, and no other grant changes |
| TransferTheorems.IncreaseExactly | evm-mapping-contract/contract/mapping/handlers.go:951-966 | a positive amount is added to the grant |
| TransferTheorems.DecreaseExactly | evm-mapping-contract/contract/mapping/handlers.go:968-987 | a positive amount is taken off the grant, not below zero |
| WithdrawalQueue.QueueInvariant | evm-mapping-contract/contract/mapping/withdrawal.go:15-43 | over every run pending is confirmed or confirmed + 1, and a spend is stored at n exactly when confirmed <= n < pending |
| WithdrawalQueue.AdvanceAlwaysSucceeds | evm-mapping-contract/contract/mapping/withdrawal.go:236-251 | whatever nonce the caller names, a stored spend is the head, so the compare-and-advance goes through at all three call sites and the head is removed |
| WithdrawalQueue.UnmapQueues | evm-mapping-contract/contract/mapping/handlers.go:150-368 | a successful unmap of any of the three kinds finds the queue empty and queues one sound spend under the pending nonce |
| WithdrawalQueue.ReplaceReprices | evm-mapping-contract/contract/mapping/handlers.go:993-1045 | replacing a withdrawal changes nothing but the head's unsigned transaction |
| SettlementTheorems.SettledOnce | evm-mapping-contract/contract/mapping/handlers.go:379-570 | over every run without a testnet clear, the settled withdrawals are those of nonces 0 up to confirmed, once each, in order, with the owner, asset, amount and destination they were queued with |
| SettlementTheorems.NoSecondSettlement | evm-mapping-contract/contract/mapping/handlers.go:1053-1219 | so no nonce is settled twice, as paid and refunded or otherwise |
| WithdrawalTheorems.FailedReceiptRestores | evm-mapping-contract/contract/mapping/handlers.go:547-567 | a token unmap, direct or under an allowance, replaced or not, ended by a failed receipt restores every balance and supply figure, and the gas reserve unless the gas cost exceeded it |
| WithdrawalTheorems.ExactFee | evm-mapping-contract/contract/mapping/handlers.go:189-257 | a successful ETH unmap debits amount plus exactly 21000 * (2 * base + 2 gwei) unless the fee is deducted, books that fee, and signs that price |
| ConfirmationTheorems.QueuedIsRecognised | evm-mapping-contract/contract/mapping/handlers.go:435-515 | over every run, and for any signature: a queued withdrawal of less than 2^256 parses, hashes to its stored unsigned bytes and is matched by confirmSpend, if and only if the last call that wrote it was not the unmapERC20 of a token registered under the symbol eth |
| ConfirmationTheorems.UnmapRecognised | evm-mapping-contract/contract/mapping/handlers.go:278-368 | a freshly queued withdrawal is recognised if and only if it is not one of a token registered under the symbol eth |
| ConfirmationTheorems.ReplacedRecognised | evm-mapping-contract/contract/mapping/handlers.go:1026-1036 | a replaced withdrawal is always recognised, because the replacement goes by the asset's name alone |
| ConfirmationTheorems.VaultKept | evm-mapping-contract/contract/main.go:388-394 | no call but setVault changes the vault |
| MisnamedRun.UnrecognisedReachable | evm-mapping-contract/contract/mapping/handlers.go:740-751 | an input for the exception: registering such a token, depositing 100 units and unmapping them queues a withdrawal that no signature makes recognisable |
| Gas.SafeGasFeeExact | evm-mapping-contract/contract/mapping/balance.go:42-57 | under wrapping arithmetic the price is refused if and only if base * mult + tip >= 2^64, and otherwise price and fee are exact |
| DepositTheorems.SingleCredit | evm-mapping-contract/contract/mapping/handlers.go:64-143 | over every run the same height, hash and index is credited twice only if that height was wiped in between |
| DepositTheorems.ObservedLog | evm-mapping-contract/contract/mapping/observed.go:17-57 | over every run the bytes at each height are exactly the 34-byte entries of the marks credited since it was last wiped |
| DepositTheorems.DepositMarks | evm-mapping-contract/contract/mapping/handlers.go:64-143 | a successful deposit finds its mark absent and stores it |
| Observed.ScanIsMembership | evm-mapping-contract/contract/mapping/observed.go:17-37 | on bytes written by MarkObserved the scan decides membership |
| Observed.IsObserved | evm-mapping-contract/contract/mapping/observed.go:17-37 | the nested loops find exactly whole, aligned entries |
| Observed.MarkObserved | evm-mapping-contract/contract/mapping/observed.go:39-57 | appends the entry to what is stored |
| Observed.MakeEntryInjective | evm-mapping-contract/contract/mapping/observed.go:51-57 | an entry determines hash and 16-bit index |
| FeedTheorems.FeedStores | evm-mapping-contract/contract/blocklist/blocks.go:219-293 | after an accepted feed every entry still within the last 101 heights loads as it came in, all eight fields one by one, older headers are dropped and the others are unchanged |
| FeedTheorems.AddOneExactly | evm-mapping-contract/contract/blocklist/blocks.go:219-293 | a block is accepted if and only if it has the next height, the contract's chain, the hash of the tip's stored form and 32-byte roots |
| FeedTheorems.AddSplits | evm-mapping-contract/contract/blocklist/blocks.go:219-293 | a longer feed is its first block and then the rest, and fails as a whole |
| FeedTheorems.SeedExactly | evm-mapping-contract/contract/blocklist/blocks.go:322-352 | the seed is accepted once, at a non-zero height of the chain, and loads field by field with a zero state root |
| FeedTheorems.ReplaceExactly | evm-mapping-contract/contract/blocklist/blocks.go:379-429 | a replacement of a stored header of the same chain loads field by field, the observed deposits of its height are dropped, and nothing else changes |
| FeedTheorems.StoredForm | evm-mapping-contract/contract/blocklist/blocks.go:66-101 | a stored header is 137 bytes: the version 1 and the fields at fixed offsets, words big-endian |
| FeedTheorems.LoadsExactly | evm-mapping-contract/contract/blocklist/blocks.go:103-125 | bytes load as a header exactly if there are at least 137 of them and the version is 1 |
| HeaderTheorems.HeadersSourced | evm-mapping-contract/contract/blocklist/blocks.go:219-429 | over every run each stored header loads as the entry that last came in for its height, in all eight fields |
| HeaderTheorems.HeaderWindow | evm-mapping-contract/contract/blocklist/blocks.go:219-429 | over every run of seed, add and replace: the stored heights are exactly max(seed, last - 100) to last, the tip loads, every header loads with its height and the contract's chain id, and each is linked to its predecessor's stored bytes unless that one was replaced |
| HeaderRuns.ContractWindow | evm-mapping-contract/contract/blocklist/blocks.go:219-429 | the same over every run of the whole contract: no deposit, withdrawal or other call disturbs the window |
| HeaderRuns.WindowIsOfHeaderCalls | evm-mapping-contract/contract/blocklist/blocks.go:219-429 | after any run the stored headers and tip are those its unpaused header calls alone would leave |
| HeaderTheorems.AddOne | evm-mapping-contract/contract/blocklist/blocks.go:219-293 | an accepted block is the successor of the tip, linked to its hash, and shifts the window by one |
| Blocklist.HeaderRoundTrip | evm-mapping-contract/contract/blocklist/blocks.go:77-125 | loading a stored header gives it back, whatever bytes follow |
| Blocklist.AppendUint64 | evm-mapping-contract/contract/blocklist/blocks.go:305-310 | the eight shifts append the big-endian word |
| HeaderStores.HeaderStore.HandleAddBlocks | evm-mapping-contract/contract/blocklist/blocks.go:219-293 | the loop stores, prunes and advances as specified; an error leaves everything as it was |
| HeaderStores.HeaderStore.HandleSeedBlock | evm-mapping-contract/contract/blocklist/blocks.go:322-352 | seeds once, at a non-zero height, with a zero state root |
| HeaderStores.HeaderStore.HandleReplaceBlock | evm-mapping-contract/contract/blocklist/blocks.go:379-429 | replaces a stored header and drops the observed deposits of its height |
| ProposalTheorems.TimelockHolds | evm-mapping-contract/contract/admin/proposals.go:178-230 | over every run ids are 1, 2, 3, ... in order; each is accepted at most once, with its submitted action and payload, at a height in [queue + timelock, queue + timelock + 201600) |
| ProposalTheorems.FreshIds | evm-mapping-contract/contract/admin/proposals.go:109-121 | the next id is larger than all stored ones, which submitting leaves alone |
| ProposalTheorems.SettledInRuns | evm-mapping-contract/contract/admin/proposals.go:206-265 | once a proposal is no longer pending, no run of actions changes it |
| ProposalTheorems.OnePhase | evm-mapping-contract/contract/admin/proposals.go:206-265 | a pending proposal can be executed exactly inside its window and expired exactly after it, so never both |
| AdminTheorems.WindowInBlocks | evm-mapping-contract/contract/admin/proposals.go:58-97 | by name, the window opens 400000, 28800, 7200 or 0 blocks after the submission and is open for 201600 |
| AdminTheorems.ProposeExactly | evm-mapping-contract/contract/admin/proposals.go:174-199 | a known name is filed under the next id with payload, hash, proposer and window as given, pending; the counter moves past the id |
| AdminTheorems.ExecuteExactly | evm-mapping-contract/contract/admin/proposals.go:201-230 | exactly a pending proposal in its window with the payload it was filed with is executed, and becomes accepted |
| AdminTheorems.CancelExactly | evm-mapping-contract/contract/admin/proposals.go:235-247 | exactly a pending proposal is cancelled |
| AdminTheorems.ExpireExactly | evm-mapping-contract/contract/admin/proposals.go:254-269 | exactly a pending proposal past its window expires |
| AdminTheorems.PerformedExactly | evm-mapping-contract/contract/main.go:292-545 | an execution goes through exactly if the timelock lets it and its payload asks for an admin call of its name that the bridge accepts, a new oracle account, or something outside the model while unpaused |
| AdminTheorems.GatesExactly | evm-mapping-contract/contract/main.go:65-89 | users' calls and expiry are open, the header feed is for the owner or a set oracle account, everything else for the owner, and a call that is not let through changes nothing |
| AdminTheorems.NamesExactly | evm-mapping-contract/contract/main.go:384-545 | which name each admin call is proposed under |
| AdminTheorems.SettingExactly | evm-mapping-contract/contract/main.go:387-526 | each setting waits for unpausing and writes its own field only |
| AdminTheorems.PausedRefuses | evm-mapping-contract/contract/main.go:91-97 | while paused every call is refused but pausing, unpausing and the header feed |
| Governance.BookGated | evm-mapping-contract/contract/main.go:267-334 | over every run the book of proposals changes by the owner's calls alone, but for expiry |
| Governance.AdminWaits | evm-mapping-contract/contract/main.go:65-71 | over every run, and apart from users' calls and the header feed, the bridge changes only by the owner's executing a proposal, inside the window of its submission, and the change is that of the admin call it was submitted as |
| Governance.VaultWaits | evm-mapping-contract/contract/admin/proposals.go:58-97 | the vault changes only when the owner executes a setVault proposal at least 400000 blocks old |
| Governance.OracleWaits | evm-mapping-contract/contract/main.go:487-498 | the oracle account changes only when the owner executes a setOracleAccount proposal at least 7200 blocks old |
| Governance.HeadersGated | evm-mapping-contract/contract/main.go:73-89 | over every run the stored headers change only by a feed of the owner or of the oracle account of that moment, or by a seed or replacement proposal executed by the owner inside its window |
| Governance.BookInvariant | evm-mapping-contract/contract/main.go:267-334 | with aborted executions undone, the book keeps fresh ids, windows and single acceptance beside the running bridge |
| Governance.BridgeIsRun | evm-mapping-contract/contract/main.go:133-541 | the bridge under governance runs the calls of its users, of the feed and of its executed proposals, so every theorem about runs applies |
| Proposals.ProposalBook.Submit | evm-mapping-contract/contract/admin/proposals.go:178-199 | stores the proposal under a fresh id with its window, or refuses an unknown action |
| Proposals.ProposalBook.Execute | evm-mapping-contract/contract/admin/proposals.go:206-230 | accepts a pending proposal inside its window only |
| Proposals.ProposalBook.Withdraw | evm-mapping-contract/contract/admin/proposals.go:235-247 | cancels a pending proposal only |
| Proposals.ProposalBook.Expire | evm-mapping-contract/contract/admin/proposals.go:254-269 | expires a pending proposal past its window only |
| Bridges.Bridge.ExecuteAll | evm-mapping-contract/contract/main.go:133-260 | running any list of calls on the stored fields leaves the state of the specified run, failed calls undone |
| Bridges.Bridge.Submit | evm-mapping-contract/contract/main.go:133-383 | a call given by its bytes makes the step of the verdicts the contract reaches on them |
| Bridges.Bridge.SubmitEach | evm-mapping-contract/contract/main.go:133-383 | running any list of submitted calls leaves the state that the theorems about them speak of |
| Bridges.Bridge.Execute | evm-mapping-contract/contract/main.go:133-541 | every call makes exactly its specified step and a refused one changes nothing |
| Bridges.Bridge.HandleMapETH | evm-mapping-contract/contract/mapping/handlers.go:54-108 | relayer, proof and observed checks, routing, tax, credit, supply and mark, in the order of the code; the new state is exactly the specified one, and an error leaves the state alone |
| Bridges.Bridge.HandleMapERC20 | evm-mapping-contract/contract/mapping/handlers.go:110-143 | the token path: no relayer and no tax; the new state is exactly the specified one, and an error leaves the state alone |
| Bridges.Bridge.RouteDeposit | evm-mapping-contract/contract/mapping/handlers.go:645-700 | self-credit, allowance, router call, allowance reset, reversal on failure; returns who is still to be credited |
| Bridges.Bridge.ParseInstructions | evm-mapping-contract/contract/mapping/handlers.go:645-667 | later instructions override earlier ones |
| Bridges.Bridge.HandleUnmapETH | evm-mapping-contract/contract/mapping/handlers.go:150-276 | all checks in order, debit, clamped supply update, queued spend; the new state is exactly the specified one, and an error leaves the state alone |
| Bridges.Bridge.HandleUnmapERC20 | evm-mapping-contract/contract/mapping/handlers.go:278-368 | all checks in order, debit, supply, gas reserve, queued spend; the abort undoes the debit; the new state is exactly the specified one, and an error leaves the state alone |
| Bridges.Bridge.HandleUnmapFrom | evm-mapping-contract/contract/mapping/handlers.go:786-949 | all checks in order, debit with or without fee, allowance, supply by amount only, reserve, queued spend; the new state is exactly the specified one, and an error leaves the state alone |
| Bridges.Bridge.HandleConfirmSpend | evm-mapping-contract/contract/mapping/handlers.go:379-570 | intent, height and match checks; pays or refunds with gas; deletes and advances; the new state is exactly the specified one, and an error leaves the state alone |
| Bridges.Bridge.HandleClearNonce | evm-mapping-contract/contract/mapping/handlers.go:1053-1100 | refund, advance, realign, delete on an accepted proof; the new state is exactly the specified one, and an error leaves the state alone |
| Bridges.Bridge.HandleExpireWithdrawal | evm-mapping-contract/contract/mapping/handlers.go:1105-1176 | head only, window decides who, proof always; the new state is exactly the specified one, and an error leaves the state alone |
| Bridges.Bridge.HandleCancelMyWithdrawal | evm-mapping-contract/contract/mapping/handlers.go:1180-1219 | owner and proof, any nonce; the new state is exactly the specified one, and an error leaves the state alone |
| Bridges.Bridge.HandleReplaceWithdrawal | evm-mapping-contract/contract/mapping/handlers.go:993-1045 | re-prices the head at 3 * base + 4 gwei; the new state is exactly the specified one, and an error leaves the state alone |
| Bridges.Bridge.HandleClearTestnetState | evm-mapping-contract/contract/mapping/handlers.go:1223-1252 | the two deleting loops clear exactly the named nonces and heights; the new state is exactly the specified one, and an error leaves the state alone |
| Bridges.Bridge.HandleTransfer | evm-mapping-contract/contract/mapping/handlers.go:572-595 | moves a positive affordable amount to a named recipient; the new state is exactly the specified one, and an error leaves the state alone |
| Bridges.Bridge.HandleTransferFrom | evm-mapping-contract/contract/mapping/handlers.go:597-625 | the same under an allowance, which falls by the amount; the new state is exactly the specified one, and an error leaves the state alone |
| Bridges.Bridge.HandleApprove | evm-mapping-contract/contract/mapping/handlers.go:627-641 | sets a non-negative allowance; the new state is exactly the specified one, and an error leaves the state alone |
| Bridges.Bridge.HandleIncreaseAllowance | evm-mapping-contract/contract/mapping/handlers.go:951-966 | adds a positive amount; the new state is exactly the specified one, and an error leaves the state alone |
| Bridges.Bridge.HandleDecreaseAllowance | evm-mapping-contract/contract/mapping/handlers.go:968-987 | subtracts a positive amount, not below zero; the new state is exactly the specified one, and an error leaves the state alone |
| Bridges.Bridge.NonceAdvance | evm-mapping-contract/contract/mapping/withdrawal.go:236-251 | advances exactly when the stored head is the spend's nonce and its entry exists |
| Bridges.Bridge.TrackDeposit | evm-mapping-contract/contract/mapping/supply.go:58-65 | adds to active, user and fee of the asset only |
| Bridges.Bridge.TrackWithdrawal | evm-mapping-contract/contract/mapping/supply.go:77-86 | subtracts from active and user, or refuses when either is smaller |
| Bridges.Bridge.DecBalance | evm-mapping-contract/contract/mapping/balance.go:89-105 | subtracts a positive affordable amount, or refuses and changes nothing |
| Bridges.Bridge.IncBalance | evm-mapping-contract/contract/mapping/balance.go:83-87 | adds to one account only |
| Bridges.Bridge.DeductGasReserve | evm-mapping-contract/contract/mapping/handlers.go:777-784 | subtracts, not below zero |

## Where the code differs from what is said about it

- The comment in `HandleUnmapETH` claims that Supply.User always equals the sum of user balances. It does not: a swap
  credits the router's side with the deposit before tax, and an ETH `HandleUnmapFrom` debits amount and fee but tracks
  the amount only. `UserTotalTheorems.SwapBreaksUserTotal` is an input, and
  `UserTotalTheorems.UserTotalExactly` says on which runs the two stay equal: for eth, those without an accepted call of
  either kind; for every other asset, all of them.
- `leafNode.hash` returns the raw encoding of a small leaf, so the root of a tiny block is not a hash
  (`BlockProofs.RootIsHashUnlessTiny`).
- The code does not refuse to register a token under the symbol "eth". An `unmapERC20` of such a token queues a token
  transfer that `confirmSpend` compares with an ETH transfer and never matches (`MisnamedRun.UnrecognisedReachable`).
  `replaceWithdrawal` rebuilds it as an ETH transfer, which it does match; so a queued withdrawal is recognised exactly
  when the last call that wrote it was not such an unmap (`ConfirmationTheorems.QueuedIsRecognised`).
- The comment in `HandleExpireWithdrawal` promises a refund only against proof that the L1 withdrawal did not send funds.
  `verifyL1ProofOfDrop` does not deliver it: it accepts the receipt of any failed transaction, and any transaction of the
  chain with a later nonce, whoever signed either and at whatever height. So the evidence is at hand exactly when some
  transaction of a stored block failed or has a later nonce (`DropTheorems.RefundableExactly`), also when that very block
  shows the withdrawal as paid (`DropTheorems.PaidIsRefunded`; `PaidRun.PaidThenRefunded` is an input). Missing for a
  failed receipt is that the transaction at its index is the vault's under the withdrawal's nonce
  (`DropTheorems.GuardedRefundIsUnpaid`). For a later nonce no check of the signer would do: the vault's next
  transaction is mined just as well after the withdrawal itself. What decides is the transaction that took the
  withdrawal's own nonce (`DropTheorems.NonceDecides`).
- `HandleUnmapFrom` never compares the asset it debits with the symbol of the token it sends
  (`MispairedRun.MispairedReachable`); `TokenTheorems.NamedTokenConserved` says on which runs each token is conserved
  all the same.
- The comment on the expiry window says "2 * tactical"; the constant is 201600, and the model uses the constant.
- The repository's README lists `setChainId` and `adminMint`, which the contract no longer has.

## Left out

- Keccak-256, ecrecover and TSS signing: host calls; an arbitrary function, two arbitrary functions for the canonical and the strict recovery, and a flag that says whether a key exists.
- RPC, HTTP, retries, the startup probe and dead letters of the monitor, `HexToUint` and `HexToBytes`: input and output; the encoders start from parsed fields.
- JSON, hex strings, decimal strings, DID strings, log emission: stored records are typed values, a DID is any non-empty string, an amount that does not parse is `None`.
- State keys are typed (account, asset) pairs, so accounts or assets containing the key delimiter, and token symbols containing "|", are not modelled.
- sdk/ bindings and runtime/: foreign calls and build support.
- The verifier-contract branch of the header store's `readState`: no verifier is configured.
- Key creation and renewal, the registered public key and the verifier contract's id: a proposal for one of them leaves the modelled state alone. `initContract`: the testnet flag and the first oracle account are parameters of a run.
- The router contract: a call fails without effect or returns after any list of `transferFrom` calls by anyone; it does not re-enter map or unmap.
- Bridges.Bridge.Execute: the owner and oracle checks of the entry points are not part of it but of `Governance.Step`; whoever may call, the step is this one.
- Bridges.Bridge.ExecuteAll: likewise without the owner and oracle checks.
- Bridges.Bridge.Submit: likewise without the owner and oracle checks.
- Bridges.Bridge.SubmitEach: likewise without the owner and oracle checks.
- Bridges.Bridge.HandleMapETH: takes the verdict on the proof as an input; `Bridges.Bridge.Submit` computes it from the submitted bytes.
- Bridges.Bridge.HandleMapERC20: takes the verdict on the proof as an input; `Bridges.Bridge.Submit` computes it from the submitted bytes.
- Bridges.Bridge.HandleConfirmSpend: takes the verdict on the proofs as an input; `Bridges.Bridge.Submit` computes it from the submitted bytes.
- Bridges.Bridge.HandleClearNonce: takes the verdict on the drop proof as an input; `Bridges.Bridge.Submit` computes it from the submitted bytes.
- Bridges.Bridge.HandleExpireWithdrawal: takes the verdict on the drop proof as an input; `Bridges.Bridge.Submit` computes it from the submitted bytes.
- Bridges.Bridge.HandleCancelMyWithdrawal: takes the verdict on the drop proof as an input; `Bridges.Bridge.Submit` computes it from the submitted bytes.
- Bridges.Bridge.RouteDeposit: the message sent to the router, destination chain included, has no effect here beyond the router's transfers, since the router's own behaviour is an input.
- Governance.AdminWaits: how a payload is read is a parameter; a payload read as another action than the one proposed counts as an abort.
- Go's `int` is taken as 64 bits and byte strings as shorter than 2^63, the longest a Go slice can be; on a 32-bit `int` the decoder's length arithmetic differs.
- An amount of more than 68 bytes makes `EncodeTransfer` panic; the handlers model this as an abort, and `Erc20.EncodeTransfer` requires it not to happen.
- LedgerTheorems.Solvent: conservation per ledger asset, which `TokenTheorems.TokenConserved` ties to tokens; for runs of fewer than 2^64 calls, because the 64-bit nonces wrap after that many; the other theorems over runs that use the queue have the same bound.
- SettlementTheorems.SettledOnce: for runs without `clearTestnetState`, which sets the nonces back to 0 and so reuses them.
- HeaderTheorems.HeaderWindow: for heights that stay below 2^64; a header whose predecessor was replaced after it was added need not be linked to the replacement, since `HandleReplaceBlock` checks no parent.
- ProposalTheorems.TimelockHolds: for heights at least the longest window away from 2^64 and fewer than 2^64 - 1 actions.
- DepositTheorems.SingleCredit: marks carry the index modulo 2^16, as the stored entries do; two deposits of one height and hash whose indices agree modulo 2^16 count as the same.
- WithdrawalTheorems.FailedReceiptRestores: no other call in between except a replacement; other calls in between are covered by conservation, which is about sums. The code does not give back the allowance an unmapFrom used up, and the lemma does not say so.
- EvidenceTheorems.ETHDepositIsReal: the observed check is not part of the verdict but of the handler, where it comes before the amount check as in the code.
- Which of several errors `VerifyETHDeposit` reports is not modelled, only whether it fails.
