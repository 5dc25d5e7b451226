# Verified model of the replicated ledger and its consensus rounds

Every node of the network keeps a chain of blocks. The commands in the blocks fold into a ledger: peers with their
stake, two address maps, the total weight, pending stake votes and a key/value state store. Blocks are made in rounds:
a validator pools transactions, proposes a block, collects votes, and adds the block as soon as the voters hold more
than half of the stake. Around this stand a gossip protocol, an account of stake credits and a catch-up loop. The
Dafny modules here model these parts and prove what they keep.

| module | models |
|---|---|
| `Text`, `Types`, `OrderedMaps` | decimal text, padded keys and byte order; blocks, transactions, commands, schema facts, the opaque cryptography; the insertion-ordered map |
| `Weights`, `Ledgers`, `Tallies`, `Addresses` | stake as weight, the fold of commands into the ledger, pending stake votes, the address maps |
| `Validations`, `Permissions` | the check of transactions and blocks before they are accepted; what an accepted block is known to contain, and who may remove a peer |
| `Chains`, `Ranges`, `Blockchains`, `Resets` | the stored chain, window and database, range and page queries, the `Blockchain` object, its life across resets |
| `Agreement`, `Sync` | two ledgers from one genesis block; catching up with a peer |
| `Validators`, `Proposals`, `Rounds`, `VoteCollection` | the choice of validator, the proposed block, the `BlockFactory` round machine, a whole round from proposal to added block |
| `Gossip`, `StakeCredits` | the `Network` object and a network of nodes; the `Server`'s stake credits |
| `Witnesses` | concrete chains and nodes that meet the hypotheses of the agreement and catch-up theorems |

Objects whose methods update their fields are classes here (`Blockchain`, `BlockFactory`, `Network`, `Server`). Each of
their methods is proved against a function of the old state, and the theorems are about those functions or about runs
of the methods.

## What a reader should know

Assumptions, each written as a parameter or a hypothesis of the lemma that needs it:

- Hashing, signing, verifying and JSON are parameters (`Types.Env`); nothing is assumed of them as an axiom. Hashes have
  one length (`Rounds.HashSized`, of a node of the round machine), so they cannot be injective. Agreement and catch-up
  ask only that the blocks they compare do not collide (`Types.NoCollision`): two chains block by block, or a stored block
  and its copy in memory. `Witnesses.ForkedNodes` builds two nodes of the round machine that meet all of this.
  Signatures that verify (`Types.SignaturesVerify`) are a hypothesis of `VoteCollection.ProposeAndCollect`.
- `addBlock` is one atomic step: `Blockchain.add` awaits between its height check and its height update, so two calls
  could interleave there. `Ledgers.EveryRun` does not need this: it interleaves single commands of any blocks.
- `clear`, `reset` and `init` are each one step. `clear` awaits twice before the peers go
  (`src/chain/blockchain.ts:120-128`) and `init` clears the state database once more (line 106), so a command of a
  suspended `add` could land in between and leave a peer key without a peer, or a peer without a key.
- Heights are below 10^16 (`Text.BlockKeyOrderBreaks` shows why), a genesis block has height 1 and well-formed keys,
  database writes succeed.
- `isOnline` is a snapshot set, timers are flags that may fire at any moment while armed, the sender of a packet is
  known by its address, and a shuffled order is a parameter.
- `arrayTakenDecision` is never filled, so `isDecisionTaken` is always false and a decision changes nothing.
- Quorum is strictly more than half of the recorded weight (`src/chain/blockchain.ts:344`). `README.md:19` of the
  repository speaks of two thirds; the model follows the code.

Promises that are false as they stand, with the exact condition under which they hold:

- **Catch-up can stall.** The stake cut is written back into the command of the block in memory, so this copy no
  longer matches its hash. A peer that answers from memory hands it out and the receiver rejects it in every round
  (`Witnesses.BlockedBlocksExist` gives such a chain for all limits). A copy is altered if and only if some vote in the block decides
  its tally and would take more stake than there is (`Sync.AlteredCopy`).
- **Catch-up depends on the local weight and on the limits.** If weight is left from an earlier reset, a block of the
  peer may lack quorum here. If `network_sync_size` is not below `api_max_query_size` and the peer has more blocks than
  the query limit beyond the first, answers start too high and nothing is ever added
  (`Witnesses.OversizedSyncExists`). `Sync.SyncOutcome` has the exact
  condition for every start and all limits: a target is reached after n rounds if and only if it is the genesis block,
  or answers fit, no block below it lacks quorum or is altered and answered from memory, and n rounds are enough.
- **A second reset blocks the chain.** `clear` empties the peers but not `quorumWeighted`. A node that starts from its
  own genesis file and is then reset to the same genesis block counts twice the stake and accepts no further block
  (`Resets.SecondResetStalls`). In general quorum stays reachable if and only if the weight at the last clear is below
  the current stake (`Ledgers.SurplusBlocksQuorum`).
- **Tally keys can mix votes.** Two different idents lead to one key for some stakes within a limit if and only if one
  is the other followed by `-` or by a non-zero number without leading zeros whose tenfold is within the limit
  (`Tallies.TalliesMix`; the schema's limit is 1000). Idents that end in a character no number has, as `ping` and `vote`
  do, are never confused.
- **Addresses outlive a clear.** `clear` empties the peers but not `mapHttp` and `mapUdp`, so an address can lead to somebody
  who is no peer (`Addresses.StaleAddress`). Where nothing was cleared, an address that only one peer ever used is known
  if and only if that peer is a current one and has it (`Addresses.AddressBook`).
- **A node may sign two blocks of one height** (`Rounds.SignsTwice`), so agreement is accountable: a fork exhibits a
  staked peer that signed both blocks.
- **The vote collector does not look at signatures.** At quorum it broadcasts the confirmation whatever the votes are;
  its own `add` succeeds if and only if all votes verify and no origin has two transactions in the block
  (`Rounds.BlockFactory.ProcessSignBlock`).
- **Relay bound.** One broadcast to everybody causes at most (n-1)^2 sends and an addressed one at most 2(n-1); for two
  peers the latter is more than the square. `Gossip.SquareBound`: the square is exceeded if and only if there are exactly
  two peers and the message is addressed, not to its origin, and no status message.
- **The search for a validator** ends if and only if some peer is online (`Validators.SearchEnds`).

## Model

| member | source | states |
|---|---|---|
| Agreement.AccountableAgreement | src/chain/blockchain.ts:136-149 | where two chains from one genesis block first differ in hash, and no two blocks of one height collide, a peer with stake in the common state signed both blocks; below they agree on all but votes, and on the whole ledger |
| Agreement.NodesAgreeOrFork | src/chain/blockchain.ts:136-149 | two node objects with one genesis block either fork at a staked double signature or agree on all common blocks, and at equal height on every ledger field |
| Agreement.Agree | src/chain/blockchain.ts:338-345 | while no staked peer signs two blocks of a height, any two chains are equal up to votes as far as both reach |
| Agreement.CommonHistory | src/chain/blockchain.ts:136-149 | equal hashes up to a height mean equal transactions, peers, stakes, weight, tallies and state |
| Agreement.CertifiedSound | src/chain/blockchain.ts:136-149 | the ledger of an accepted chain records exactly the stake of its peers, and no stake is negative |
| Types.HashCommits | src/chain/block.ts:46-53 | for two blocks that do not collide, the hash fixes version, previous hash, transactions and height: the comma-joined text has one reading |
| Weights.QuorumsIntersect | src/chain/blockchain.ts:338-345 | two lists of distinct voters that both reach quorum share a peer with positive stake |
| Weights.NoQuorumWithout | src/chain/blockchain.ts:338-345 | distinct voters without a peer that holds half of the weight never reach quorum |
| Weights.QuorumReachable | src/chain/blockchain.ts:338-345 | some list of distinct voters reaches quorum if and only if all peers together do |
| Validations.HasQuorumWeighted | src/chain/blockchain.ts:338-345 | the loop decides whether the listed stakes exceed half of the recorded weight |
| Validations.ValidateBlock | src/net/validation.ts:106-159 | the loops with their early exits accept exactly non-empty blocks with the right hash, distinct origins, valid transactions and, if asked, distinct verifying votes with quorum |
| Permissions.TxAccepted | src/net/validation.ts:162-186 | a transaction passes if and only if it is well formed, signed by its origin for this height, removes nobody but its origin and decides for no past height |
| Permissions.AcceptedBlocks | src/net/validation.ts:106-159 | `add` accepts a block if and only if it is the next height on the tip, its hash is that of the joined text, its transactions are such ones of distinct origins, and its votes are verifying ones of distinct origins that hold more than half of the weight |
| Permissions.EveryTransactionIsSigned | src/net/validation.ts:162-186 | on every accepted chain each transaction above the first block was signed by its origin for the height it is at |
| Permissions.OnlyItselfLeaves | src/net/validation.ts:174-176 | on every accepted chain, a peer that is there before a block and not after it is the origin of a transaction in it with its own removal, signed for that height |
| Permissions.Leave | src/net/api.ts:128-135 | a node's own request to leave is accepted and waits in line |
| Ledgers.EveryRun | src/chain/blockchain.ts:394-488 | after every run of commands, interleaved in any way, and clears, each taken as one step: recorded weight is the stake of the peers plus the weight at the last clear, no stake is negative, and the state store answers every key with the current stake or last data value and holds nothing else |
| Ledgers.NextInOrder | src/chain/blockchain.ts:120-128 | each single command, and clear, keeps that invariant |
| Ledgers.StoreAnswers | src/chain/blockchain.ts:490-511 | in every state of a run the store answers a peer key with the current stake and a data key with the last value of that namespace and origin, and nothing for others |
| Ledgers.ExpectedValue | src/schema/block/v7/transaction/data.json:17 | a reference answer under a namespace and origin is that origin's last value: by the colons of the pattern no data key is a peer key or another data key |
| Ledgers.StakeChangeNeedsQuorum | src/chain/blockchain.ts:458-488 | a stake changes through a vote if and only if distinct origins other than the target hold more than half of the weight and the cut change is not zero; no other stake moves |
| Ledgers.DecidedStake | src/chain/blockchain.ts:476-487 | a vote that completes a majority leaves the stake asked for, or zero if more was to be taken than there is; weight and command move by the same difference, no other stake moves, and any other vote moves nothing |
| Ledgers.MajorityPeerIsImmune | src/chain/blockchain.ts:458-488 | a peer with at least half of the recorded weight keeps its stake under every vote |
| Ledgers.SurplusBlocksQuorum | src/chain/blockchain.ts:120-128 | quorum can be reached if and only if the weight left by the last clear is below the stake of the peers |
| Tallies.TalliesMix | src/chain/blockchain.ts:466-473 | votes with two different idents share a key for some stakes within a limit if and only if one ident extends the other by `-` or a number whose tenfold is within it |
| Tallies.IdentsShareKey | src/chain/blockchain.ts:466 | the same condition for the joined texts, in both directions |
| Tallies.TallyKeyInjective | src/chain/blockchain.ts:466-473 | a tally key fixes the target, and with plain idents also ident and amount |
| Tallies.TallyKeysMix | src/chain/blockchain.ts:466-473 | two concrete votes with different idents and amounts share a key |
| Tallies.TalliesHoldVotes | src/chain/blockchain.ts:458-476 | in every run, an origin is in a tally if and only if one of its ballots under that key was looked at and no later step decided the key: a decision spends the ballots |
| Tallies.DecidingVotersAgree | src/chain/blockchain.ts:458-488 | everyone in the tally of a vote has a standing ballot for the same target, and for the same ident and amount unless the idents can be confused, which plain ones cannot |
| Addresses.AddressBook | src/chain/blockchain.ts:426-456 | in every run a current peer is found under an address that no other peer was ever added under, nobody else is, and if nothing was cleared it is found exactly as long as it is there |
| Addresses.ClearForgets | src/chain/blockchain.ts:120-128 | a clear forgets peers and state but neither addresses, weight nor pending votes |
| Addresses.StaleAddress | src/chain/blockchain.ts:120-128 | after a clear an address can lead to somebody who is no peer |
| Text.IntTextInjective | src/chain/blockchain.ts:466 | decimal text of integers is injective |
| Text.BlockKeyOrder | src/chain/blockchain.ts:249-252 | 16-digit padded keys sort exactly as heights below 10^16 |
| Text.BlockKeyDenotes | src/chain/blockchain.ts:144 | a key has 16 digits and denotes its height |
| Text.BlockKeyOrderBreaks | src/chain/blockchain.ts:144 | at 10^16 the order of keys breaks |
| Text.SortTextsSorts | src/net/network.ts:209-228 | sorting distinct keys gives their sorted listing |
| Chains.PutNext | src/chain/blockchain.ts:136-149 | storing the next block appends it to the key-ordered database |
| Chains.BetweenIsSlice | src/chain/blockchain.ts:234-256 | a key range of the database is exactly the block range |
| Chains.AddExtends | src/chain/blockchain.ts:136-159 | execute-then-cache leads from the state of a chain to the state of the chain with one more block, window and write-back included |
| Chains.InitExtends | src/chain/blockchain.ts:102-113 | cache-then-execute, in the opposite order, leads to the same state |
| Chains.ReplayRefinesAdds | src/chain/blockchain.ts:102-113 | re-reading the database of any accepted chain ends in exactly the state the incremental run has |
| Blockchains.Blockchain.constructor | src/chain/blockchain.ts:83-100 | a fresh object holds nothing but its database |
| Blockchains.Blockchain.Clear | src/chain/blockchain.ts:120-128 | database, window, peers and state go; weight, address maps and tallies stay |
| Blockchains.Blockchain.Reset | src/chain/blockchain.ts:130-134 | afterwards the node stores the genesis block on top of what clear left |
| Blockchains.Blockchain.Init | src/chain/blockchain.ts:102-113 | whatever was in memory, and whether or not the blocks would be accepted again, all fields become those of the chain in the database on top of the ledger in memory |
| Blockchains.Blockchain.Add | src/chain/blockchain.ts:136-149 | true exactly for an acceptable block, which is appended with all fields following; else nothing changes; votes for this node are credited in order; an accepted chain stays one |
| Blockchains.Blockchain.ReadBlock | src/chain/blockchain.ts:107-112 | a block of the database is cached and then executed, and the cached object shows what was written back |
| Blockchains.Blockchain.UpdateCacheFields | src/chain/blockchain.ts:151-159 | height, latest block and window are those of the specification step |
| Blockchains.Blockchain.ProcessState | src/chain/blockchain.ts:394-424 | all commands fold into the ledger in order; the block object returned is the stored one up to written-back cuts |
| Blockchains.Blockchain.Execute | src/chain/blockchain.ts:394-424 | one command of any kind changes the fields exactly as the fold does |
| Blockchains.Blockchain.AddPeer | src/chain/blockchain.ts:426-443 | a new peer enters all maps, weight and store with stake one; a known one changes nothing |
| Blockchains.Blockchain.RemovePeer | src/chain/blockchain.ts:445-456 | the peer leaves all maps, weight and store |
| Blockchains.Blockchain.ModifyStake | src/chain/blockchain.ts:458-488 | the vote is ignored, collected or deciding as the fold says, the command comes back as written back, and a vote for this node is credited |
| Blockchains.Blockchain.CountVote | src/chain/blockchain.ts:466-488 | a vote that is looked at repeats, enters or decides its tally as the fold says |
| Blockchains.Blockchain.ChangeStake | src/chain/blockchain.ts:476-487 | the peer is left with the stake asked for or zero, command, weight and store follow, and the tally is closed |
| Blockchains.Blockchain.GetRange | src/chain/blockchain.ts:234-256 | for all integers, memory path or database path, the answer is the specified block range, and nothing from an empty chain |
| Blockchains.Blockchain.Lookup | src/chain/blockchain.ts:241-255 | between two bounds the blocks come from memory if both ends are there and else from the database, as specified |
| Blockchains.WindowAgrees | src/chain/blockchain.ts:151-159 | in every state the window holds the last min(height, max) blocks in order, each the stored one up to cuts, and the database all blocks under their keys |
| Blockchains.CreditsSnoc | src/chain/blockchain.ts:463-464 | exactly the votes of others for the local node, while it is a peer, are credited, to their origins and in order |
| Blockchains.Blockchain.GetPage | src/chain/blockchain.ts:258-269 | for all integers the answer is the specified page, and nothing from an empty chain |
| Blockchains.LookupServes | src/chain/blockchain.ts:241-255 | slice indices are in bounds when both ends are cached, and slice and database scan give the same range up to cuts |
| Blockchains.Restart | src/chain/blockchain.ts:102-113 | a fresh object over the database of a node that was reset once has the same height, window, peers, weight, address maps, tallies and store |
| Ranges.ServedBlocks | src/chain/blockchain.ts:234-256 | every query yields consecutive heights within the chain, each block equal to the stored one up to cuts |
| Ranges.RangeMeans | src/chain/blockchain.ts:234-239 | for all integers, which heights a query is answered with: up to the upper bound, the lower bound or the tip, from the lower bound on, at most the limit and at least one |
| Ranges.AnyPage | src/chain/blockchain.ts:258-269 | for all integers, which heights a page has: a page below one is the first, a size below one or too large is the limit |
| Ranges.ExecutedSameUpToCut | src/chain/blockchain.ts:479-482 | execution changes in a block object only the stake of cut votes, and only upwards |
| Ranges.ExecutedChanges | src/chain/blockchain.ts:476-482 | execution changes a block object if and only if some vote in it decides its tally with more to take than there is |
| Ranges.FullPage | src/chain/blockchain.ts:258-269 | a page inside the chain is its slot counted from the end |
| Ranges.PartialPage | src/chain/blockchain.ts:258-269 | the last partial page restarts at block 1 |
| Ranges.PagesConcatenate | src/chain/blockchain.ts:258-269 | full pages read backwards are exactly the newest page * size blocks, each once |
| Ranges.PagesCover | src/chain/blockchain.ts:258-269 | every height is on one of the pages 1 to ceil(height / size) |
| Resets.AnyLife | src/chain/blockchain.ts:102-149 | through any sequence of resets and offered blocks the node stores what the reference says, and its fields keep the weight and state-store invariant |
| Resets.SecondResetStalls | src/chain/blockchain.ts:120-134 | a second reset to a genesis block of peers doubles the recorded weight and no block is accepted any more |
| Resets.SurplusRejectsEverything | src/chain/blockchain.ts:120-128 | with a surplus as large as all stakes no block is accepted |
| Sync.SyncOutcome | src/net/bootstrap.ts:48-67 | whatever ledger the local node starts from and whatever the limits: after n rounds the local chain is a prefix of the peer's, and it has reached a target if and only if this is the genesis block, or answers fit, no block below is blocked and target <= 1 + n * (sync_size + 1) |
| Sync.SyncStalls | src/net/bootstrap.ts:56-63 | the loop gets exactly to the first block that lacks quorum here or is altered in the answer, and stays there |
| Sync.RoundsComplete | src/net/bootstrap.ts:56-63 | without a blocked block each round adds sync_size + 1 blocks until the peer's chain is complete |
| Sync.OversizedAnswer | src/net/api.ts:147-152 | an answer starts at the asked height if and only if the sync size is below the query limit or the chain is nearly exhausted; otherwise nothing of it is added |
| Sync.OversizedSync | src/net/bootstrap.ts:56-63 | if answers do not fit the loop never gets past the genesis block |
| Sync.AlteredCopy | src/chain/blockchain.ts:476-482 | the copy in memory differs from the stored block if and only if the cut guard of some vote in it is met |
| Sync.SameStartBlocks | src/net/bootstrap.ts:56-63 | a node that starts from the peer's own ledger is blocked only by what memory altered |
| Sync.AlteredIsRejected | src/net/validation.ts:106-112 | a copy whose stake was cut, and whose text does not collide with the original, fails the hash check of every node |
| Sync.SyncWithNetwork | src/net/bootstrap.ts:48-67 | from any local state: does nothing if the tip is known; else, when the target can be reached, the loop terminates within the bound and leaves a valid node with a prefix of the peer's chain at the target |
| Validators.ComputeStringDiff | src/chain/util.ts:85-94 | the result is the last of the sums that start at zero and grow, character by character, by the larger code minus the smaller |
| Validators.CalcValidator | src/net/block-factory.ts:100-113 | the search ends at the peer at the height's place if it is online, else at the first online one from the place given by those sums of the last two hashes |
| Validators.SearchEnds | src/net/block-factory.ts:100-113 | somebody can be chosen if and only if some peer is online |
| Validators.ChosenIsMet | src/net/block-factory.ts:100-113 | to be chosen is exactly that, written out without the search and without the distance function |
| Validators.OfflineTurn | src/net/block-factory.ts:103-106 | with the turn's peer offline and the peer at the distance of the hashes online, that one is chosen |
| Validators.ChoiceIsUnique | src/net/block-factory.ts:100-113 | nodes with equal height, tip, peers and online view choose the same validator |
| Validators.FairRotation | src/net/block-factory.ts:100-113 | with all N peers online, N consecutive heights choose each peer exactly once |
| Proposals.ProposalIsValid | src/net/block-factory.ts:217-227 | a proposal from a valid pool passes every node's check if and only if no origin is in it twice |
| Proposals.OwnTransactionsAreDistinct | src/net/block-factory.ts:202-216 | if everybody sends his own transaction no origin is in the pool twice |
| Proposals.ArrivalOrderIsForgotten | src/net/block-factory.ts:211-216 | with distinct signatures the pool depends on the set of its transactions only, and with it the block and its hash |
| Proposals.ConfirmationCarriesOver | src/net/block-factory.ts:269-279 | a block one node accepted is accepted, with its votes, by every node at the same tip that holds the candidate |
| Rounds.BlockFactory.constructor | src/net/block-factory.ts:86-93 | an idle round satisfies the invariant |
| Rounds.BlockFactory.CalcValidator | src/net/block-factory.ts:100-113 | the validator is the one met, by height and by the distance of the hashes, for the tip this node holds |
| Rounds.BlockFactory.Stack | src/net/block-factory.ts:124-134 | commands are accepted exactly if they would be valid in the next block, and then enter the queue once, under the given ident if it has 1 to 32 characters and else a fresh one |
| Rounds.BlockFactory.DoAddTx | src/net/block-factory.ts:179-199 | the first waiting record is signed for the next height and sent to the validator if none is in flight; else nothing changes |
| Rounds.BlockFactory.SignNext | src/net/block-factory.ts:184-193 | the first waiting record leaves the line and is in flight, signed for the next height, with its retry armed |
| Rounds.BlockFactory.ProcessAddTx | src/net/block-factory.ts:202-228 | pooled exactly if no candidate is held, the height fits, the sender has none yet and it is valid; the pool stays valid and the timer is armed |
| Rounds.BlockFactory.ProposeTimer | src/net/block-factory.ts:218-227 | the pool is never empty; the candidate continues the tip, holds the sorted pool and one own vote, and is valid if senders sent their own transactions |
| Rounds.BlockFactory.ProcessProposeBlock | src/net/block-factory.ts:231-248 | exactly a valid candidate for tip + 1 replaces the held one and is signed, with the outcome for chain, candidate and messages; anything else changes nothing |
| Rounds.BlockFactory.SignHeld | src/net/block-factory.ts:241-247 | the signature of the held candidate goes to the chosen validator, or counts here if that is this node, and then the block is added exactly if quorum and the full check allow it |
| Rounds.BlockFactory.ProcessSignBlock | src/net/block-factory.ts:251-267 | one vote per origin; at quorum a confirmation is sent, and the block is added if and only if the full check holds, for a collected candidate exactly if votes verify and origins are distinct; a vote that adds nothing leaves pool, chain and what is known of the candidate |
| Rounds.BlockFactory.ProcessConfirmBlock | src/net/block-factory.ts:269-279 | a held candidate with this hash gets the votes and is added if and only if they suffice |
| Rounds.BlockFactory.AddBlock | src/net/block-factory.ts:331-346 | exactly an acceptable block is added and starts a new round with the validator of the new tip; the own transaction in flight is committed if and only if it is in the block; the starting ledger stays |
| Rounds.BlockFactory.Clear | src/net/block-factory.ts:348-365 | the own transaction in flight is committed if the block has its signature and else goes back to the head of the queue |
| Rounds.BlockFactory.RetryTimer | src/net/block-factory.ts:367-374 | the round is dropped and the own transaction that is due, the one in flight before if any, is sent again |
| Rounds.BlockFactory.AddTxTimer | src/net/block-factory.ts:331-346 | the own transaction that is due is in flight afterwards, for the height the chain has now |
| Rounds.BlockFactory.ProcessMessage | src/net/block-factory.ts:144-177 | the outcome of every message for chain, candidate, pool and messages sent: that of its handler if it is for or from the one chosen validator, and where a handler declines, or the gate does, nothing changes |
| Rounds.AnyRun | src/net/block-factory.ts:124-365 | every interleaving of calls, messages, timers and synced blocks keeps the round invariant and only extends the chain. The queue takes in exactly what is stacked and valid at the time, and that is what was committed, then what is in flight, then what waits, in order and each once. What was committed is in the block of its height, heights increase, and every issued own transaction that is in a block was committed. A synced block is added exactly if acceptable; a message adds only a block of the hash it names |
| Rounds.SignsTwice | src/net/block-factory.ts:231-248 | a node that gets two valid candidates of one height and different hashes from the chosen validator signs both |
| VoteCollection.ProposeAndCollect | src/net/block-factory.ts:217-267 | after the proposal timer of a pool of senders' own transactions, over any sequence of votes whose signatures verify, and whoever is online as long as this node stays the validator, the block is added at the first vote with which its distinct origins hold quorum, and then the full check holds; until then votes are collected |
| VoteCollection.CollectedOk | src/net/block-factory.ts:251-267 | collecting first votes keeps content valid, origins distinct and signatures verifying |
| VoteCollection.ConfirmationArrives | src/net/block-factory.ts:269-279 | a block that one node accepted is added, with its votes, by every node of the round machine at the same tip that holds a valid candidate of its hash |
| VoteCollection.FollowRound | src/net/block-factory.ts:231-279 | a node that gets a sound proposal and then the confirmation of the block the validator accepted signs the one and adds the other |
| Witnesses.ForkedNodes | src/net/block-factory.ts:231-248 | two nodes of the round machine meet every hypothesis of the agreement theorem and have parted at a double signature |
| Witnesses.BlockedBlocksExist | src/chain/blockchain.ts:479-482 | for all limits: a peer with three genesis peers and one block of two votes over the third hands out an altered block, and catch-up stays at the genesis block for ever |
| Witnesses.OversizedSyncExists | src/net/api.ts:147-152 | for all limits with sync size not below the query limit there is an accepted chain of unaltered blocks of which only the genesis block is ever had |
| Gossip.Network.IncomingData | src/net/network.ts:182-206 | processed exactly if open, known, valid and newer than the last of its kind and origin; passed on exactly if straight from its origin |
| Gossip.Network.P2pNetwork | src/net/network.ts:209-228 | the network becomes the sorted listing of the peers and the broadcast list all others |
| Gossip.Network.DoBroadcast | src/net/network.ts:243-254 | an addressed message on its last hop goes to its destination only and not back to its origin; any other goes, once for each time it is listed, to everybody on the list but its origin, and nothing else is sent |
| Gossip.EverybodyIsSent | src/net/network.ts:249-252 | in every run the origin of a started message has sent it to every other node |
| Gossip.EverybodyGets | src/net/network.ts:182-206 | once its origin's packets are delivered, in any order and among any others, every other node has processed a message or a later one of its kind and origin |
| Gossip.GossipCoversLoss | src/net/network.ts:202-204 | a node that gets a message first hand sends it on to everybody it is meant for, and whoever that packet is delivered to has got it, whether or not the origin's own packet arrives |
| Gossip.EveryNetOrderly | src/net/network.ts:182-206 | under loss, reordering and duplication every run keeps the filters in order, senders are origins or have processed the message, and no node processes its own or one nobody started |
| Gossip.ProcessedOnce | src/net/network.ts:193-200 | no node processes a message twice, and processed numbers per kind and origin strictly increase |
| Gossip.TwoHops | src/net/network.ts:202-204 | counting hops along the deliveries that cause packets, every packet sent by the origin of its message is on the first hop and every other on the second: none travels further |
| Gossip.GossipBounded | src/net/network.ts:182-254 | one broadcast among n peers causes at most (n-1)^2 sends, an addressed one at most 2(n-1) |
| Gossip.SquareBound | src/net/network.ts:182-254 | the square bound holds in every run if and only if there are not exactly two peers or the message cannot be started or is a status message, not addressed, or addressed to its origin |
| Gossip.TwoPeersExceedTheSquare | src/net/network.ts:243-249 | between two peers a run with more than one send exists if and only if the message can be started and is addressed to the other and no status message |
| Gossip.SeqKeyInjective | src/net/network.ts:194 | the filter key fixes kind and origin |
| StakeCredits.Server.IncStakeCredit | src/net/server.ts:230-232 | a vote raises the credit of its origin by one |
| StakeCredits.Server.ProposeModifyStake | src/net/server.ts:203-228 | refused only if queued already, accepted exactly if the credit allows it, sent off as one numbered transaction when the queue is full; the accounting invariant is kept |
| StakeCredits.Server.StackTx | src/net/server.ts:234-248 | the new transaction has every command of the batch in order, unchanged but for its number, and numbers count from one |
| StakeCredits.AnyRun | src/net/server.ts:203-232 | in every run the server's state is the account the events alone give; a credit is votes minus accepted proposals; accepted proposals exceed votes by less than a third of the online peers; and the commands handed over, followed by the queue, ask for exactly the accepted proposals, each once and in order |

## Left out

- Express routes, the websocket feed, I2P and SAM sockets, SOCKS fetches and LevelDB itself: input and output.
- Sodium, SHA-256, base64url, zlib, JSON and the schema engine: opaque parameters and schema predicates.
- `Config`, `Genesis`, `Wallet`, `Logger`, `main`: set-up and plumbing.
- The join and challenge handshake of `src/net/bootstrap.ts`: timers and retries around external calls.
- The stake proposal for voting peers in `updateCache` (`src/chain/blockchain.ts:161-188`) and `mapVoteStake`: they call a server whose network does not exist yet during `init`.
- `processStatus` (`src/net/block-factory.ts:281-329`): statistics over status messages that end in a stake proposal or a call of the catch-up loop, both of which are modelled as steps of their own.
- The commented-out handling of decisions: dead code.
- Wall-clock time: online views are snapshots and armed timers may fire at any moment.
- `QuartileCoeff`, `stringXOR`, `shuffleArray`, `searchBlocks`, `searchState`, `getTransaction`, `getPerformance`: peripheral, no property of a whole run depends on them.
- `debug_performance` entries of the state store: off in normal operation, they would be further keys of the store.
- Two calls of `add` that both pass the height check before either has stored its block: only `Ledgers.EveryRun` covers this.
- Sync.SyncWithNetwork: takes the peer as unchanged while the loop runs, every fetch as answered and the peer's genesis block as not altered in memory (only a stake decided within the genesis block itself could alter it); where the target cannot be reached the loop does not end, which `Sync.SyncOutcome` states instead of a method.
- The moment the retry timer is armed after a proposal: here before the vote is processed, because the original clears the round only once the accepted block is stored.
- `getPublicKeyByUdp` and `validateMessage`: the peer an address belongs to and the result of schema validation are arguments of `Gossip.Network.IncomingData`.
