# P2ID: a verified model

P2ID pays people by identity. Funds wait in a vault whose address is derived from an identity; a
zero-knowledge proof made from a signed identity token shows which wallet belongs to that identity, and
the vault pays that wallet. This project models the three parts that decide who is paid what, and proves
that they do it right:

1. **The vault and the contracts it consults**: deposits, buckets, fees and the owner cache of
   `P2IDVault`; upgrades through `PviumP2IDVaultProxy`; alpha mode, timelocks and the implementation
   registry of `PviumP2IdVaultFactory`; the signer keys of `PviumIdentity`. A run is any sequence of calls,
   governance steps, clock ticks and donations. A call that sends money or pulls tokens hands control to
   outside code, which may run any further actions before the call ends.
2. **The circuit's checks on the token's bytes, and the witness builder that must satisfy them**: the
   string and nesting scan, the range flags and the anchoring of one linked account, against a model of
   JSON as it is written; and the searches that produce the offsets.
3. **The storage-layout checker** for new implementations, and the **encodings** that carry a claim from
   the circuit to the chain and to the clients.

## How it is organised

| files | what they hold |
|---|---|
| `Types`, `KeySet`, `Factory` | shared vocabulary; the signer-key set and the factory, as value-level steps and as classes |
| `Books`, `Sweeps` | deposit bookkeeping and what a page or a list of ids takes |
| `OwnerCache` | the owner cache beside the history of accepted proofs |
| `Vault`, `VaultProofs` | the vault's operations on its storage as a value, and what each keeps |
| `System`, `SystemProofs` | the whole system as a state machine with callbacks; its invariant |
| `Calls` | what each call does to the whole system, and exactly when it succeeds, said by its arguments and the state it found |
| `Claims`, `Settlement` | over every run: which payout each deposit belongs to, what each charges, and what the vault really sent |
| `Provenance` | over every run: the call each accepted proof, payout, deposit and implementation comes from |
| `Theorems`, `Drain`, `Conservation` | what else holds in every reachable state and along every run |
| `VaultContract`, `ProxyContract` | the vault and the proxy as classes, proved to compute those operations |
| `Json`, `Scan`, `Documents`, `Locate` | JSON text, the scan, and recognising members |
| `Circuit`, `Commitment`, `Soundness` | the circuit's checks and loops; its commitments and the contracts'; the soundness theorem |
| `Witness`, `Completeness`, `BuilderProofs` | the searches; the completeness theorem |
| `Splices`, `BraceStyles`, `CrossTokens`, `BraceTheorems` | what the circuit takes for an account and is none; exactly when that cannot happen |
| `Encoding` | hexadecimal, 128-bit halves, the attestation |
| `Layout`, `CompiledLayout`, `LayoutCheck` | type descriptions, layouts as the compiler writes them, and the comparison |
| `FullLayout`, `LayoutVariants`, `LayoutTheorems` | what types really are, look-alikes, and exactly when the comparison is right |

## Conventions

- A Solidity mapping is a map that reads absent keys as zero. Totals are integers tied by the invariant
  to sums of naturals, and proved to fit 256 bits, so that checked arithmetic on them cannot revert. The one
  product that can exceed 256 bits, untracked funds times the quoted rate, is modelled as a revert.
- A revert is a result that leaves the state unchanged. The class methods undo their changes the way a
  transaction does: an entry point saves storage and puts it back when anything in it fails.
- The laws in `Calls`, `Settlement` and `Provenance` are stated by sums over records, by the calls of a run and by
  plain arithmetic, not through the functions that compute the operations. The state keeps every transfer that
  the vault itself makes (token, payee, amount, time, and the payout, refund or distribution it is for).
- Everything outside the vault is environment: verifiers other than `PviumVerifier` answer anything or
  fail; the policy answers anything; tokens credit what they like and can call back, but a balance falls
  only by the vault's own transfers and by what the policy pulls while fees are distributed
  (contracts/README.md:179-182). Hashes are injective keys; whether a signature or a zero-knowledge proof
  verifies is part of the input.
- Bytes of a token are the characters of a Dafny string. A JSON string is a sequence of units, each one
  character written in any way section 7 of RFC 8259 allows: as itself, as a short escape, or as `\uXXXX`
  with digits of either case. What it says is a second string, and the text in `linked_accounts` is what that
  claim says, so both levels may be written in any way. Documents are compact: no space between tokens.
- A digest stands for the bytes it is taken of, so that equal commitments mean equal preimages.
- Identity contracts are shared: several verifiers may read one, and a verifier's answers follow it.
- A layout is as the compiler writes it when its labels and sizes follow from what the types are made of.
  `elementary` gives the sizes of the language's own value types; the name of a value type that a program
  defines fixes no size.
- The circuit's buffer length is a parameter below the field modulus, and nothing is assumed of the bytes
  behind the payload.

## What came out

- **Circuit soundness depends on how account braces are written.** The circuit separates accounts by brace
  bytes, and a JSON string may write a brace as an escape. `BraceTheorems.SoundExactlyWhenKeptApart` gives the
  exact condition, `TwoAccountsFool` the smallest token that breaks it, and `UniformSound` the reason why no
  writer that treats equal characters alike, `JSON.stringify` among them, can run into it.
- **The layout checker is right exactly when every description shows all.** It does not expand fixed-size
  arrays. `LayoutTheorems.SafeExactlyWhenItSeesAll` says when that does no harm: unless a label leaves open a
  struct, or the size of a program's own value type, below such an array. `ArrayElementsUnchecked` and
  `ValueTypesUnchecked` are two pairs of layouts it confuses. The vault's present layout has no fixed-size array.
- **A quote can be one that nobody can sweep.** Draining pays exactly the quoted amount from every reachable
  state in which a sweep can succeed, and `Drain.SweepsExactlyWhen` says when that is: besides a usable cache
  and a readable balance, the product of the untracked surplus and the fee rate must fit 256 bits. `sweepable`
  does not look at that product, nor at claimability; `Drain.QuoteNobodyCanSweep` is a reachable state where
  it promises the whole balance.
- The upgrade flag of the proxy is never observed by `P2IDVault` code: a re-entered upgrade is refused, and
  otherwise the flag has no effect on the outcome (`UpgradeTo` in `ProxyContract`).
- contracts/README.md:86-87 says that manual registration checks only code presence; the code also checks
  the factory binding (contracts/src/PviumP2IdVaultFactory.sol:300-308), and the model follows the code.
- A comment in sdks/node/p2id-verifier/src/publicInputs.ts:50 speaks of a 320-byte file; the code accepts
  exactly 352 bytes (eleven fields of 32), and the model follows the code.

## Model

| member | source | states |
|---|---|---|
| `Theorems.Solvency` | contracts/src/P2IDVault.sol:52-69 | In every reachable state each token balance covers the unconsumed deposits plus the fees owed; the three stored layers of totals are exactly those sums and fit 256 bits, so their checked arithmetic never reverts |
| `Theorems.CallbackSolvency` | contracts/src/P2IDVault.sol:836-841 | Whatever a payee, token or policy does while it holds control (any number of calls, donations, governance steps), it sees a locked vault whose balance plus fees in flight covers everything held |
| `Settlement.ExactlyOnce` | contracts/src/P2IDVault.sol:400-409 | A deposit leaves exactly once if consumed and never otherwise: a refund is one transfer of all of it to its funder after its window, a claim is of all of it in one payout of its own bucket to the payee it names; credited = refunded + claimed gross + still tracked, per token |
| `Settlement.ClaimsBelongToOnePayout` | contracts/src/P2IDVault.sol:667-737 | Over every run each claimed deposit belongs to exactly one payout, and that payout is of the deposit's own verifier, constraint and token and goes where the claim says, in all of the five sweeps |
| `Settlement.ClaimedDepositsWentRight` | contracts/src/P2IDVault.sol:211-251 | So a claimed deposit of a default bucket went to the wallet of the best proof accepted by then under the deposit's own verifier, and one with a constraint to the wallet of the proof presented for this vault's identity under that verifier with evidence for that constraint |
| `Settlement.PayoutCharges` | contracts/src/P2IDVault.sol:647-665 | Each payout pays exactly the claims of its stretch of the log and the untracked funds it took, and charges exactly the fees of those claims plus the rate quoted then on the untracked funds, rounded down |
| `Settlement.FeesAddUp` | contracts/src/P2IDVault.sol:716-737 | Over every run and token the fees of all payouts are the fees of all claims plus those on untracked funds |
| `Settlement.ClaimsChargeTheirRate` | contracts/src/P2IDVault.sol:715-721 | A claim is of the whole deposit and its fee is amount times the rate recorded at funding over 10000, rounded down |
| `Settlement.RefundsReachFunders` | contracts/src/P2IDVault.sol:400-409 | Over every run each refund is one transfer of the whole deposit, in its token, to its funder, made after fundedAt plus the refund window |
| `Settlement.PayoutsAreSent` | contracts/src/P2IDVault.sol:725-769 | Over every run each payout that is more than its fee is one transfer of the difference, in its token, to its payee |
| `Settlement.OnlyDueTransfers` | contracts/src/P2IDVault.sol:758-769 | Nothing else is ever sent: each transfer is the only one for a payout, a refund or a distribution of native fees, and of exactly that amount |
| `Settlement.BalanceIsWhatWasNotSent` | contracts/src/P2IDVault.sol:758-769 | Along any run from deployment a balance is what was there and came in, minus exactly the transfers the vault made and, for a token, what policies pulled of the fees owed |
| `Settlement.SplitSweepsLoseLittle` | contracts/src/P2IDVault.sol:200-209 | Of any stretch of the payouts of any run: taking untracked funds in several sweeps at one rate never charges more than in one, and loses less than one unit per extra sweep |
| `Calls.RefundsExactlyWhen` | contracts/src/P2IDVault.sol:400-409 | In any reachable state a refund succeeds exactly when an open deposit's own funder asks after fundedAt plus window and takes the money; then the deposit is consumed, all of it was sent to the funder, and nothing else changed |
| `Calls.SweepsDo` | contracts/src/P2IDVault.sol:186-251 | What every sweep does, callbacks included: it consumes exactly the open deposits among the listed ids or the next page of at most 100, records one payout of exactly their sum, their fees, and all untracked funds if due at the policy's capped rate, through the default or an allowed verifier, to the recorded owner or the wallet of the proof, and sends what is left after the fee |
| `Calls.SweepsSucceedExactlyWhen` | contracts/src/P2IDVault.sol:186-251 | Which sweeps succeed: those whose proof (if any) is accepted, with a usable owner cache for default buckets, a nonzero constraint for the others, distinct open ids of that bucket, and a readable surplus whose fee fits 256 bits |
| `Calls.FundsExactlyWhen` | contracts/src/P2IDVault.sol:343-394 | Funding succeeds exactly with a funder, an allowed verifier, a window within bounds, an amount within 128 bits, a supported constraint this funder never used, and money that arrives; the new deposit records the caller's terms, the time, the balance increase and the policy's capped rate then |
| `Calls.DistributesExactlyWhen` | contracts/src/P2IDVault.sol:253-273 | Distribution succeeds exactly when nothing is owed or what it costs is at most what is owed; then exactly that much less is owed, nothing else changed, and native fees went whole to the policy in force |
| `Calls.QuoteIs` | contracts/src/P2IDVault.sol:531-537 | What sweepable answers in any reachable state: the open deposits of the default bucket, plus all untracked funds exactly if the verifier is the default with a valid cache and a proof as new as the cross-default floor |
| `Calls.PaymentCall` | contracts/src/P2IDVault.sol:836-841 | A paying call leaves exactly the storage its operation computed and its one transfer, whatever the payee does meanwhile, or nothing at all |
| `Provenance.ProofsWereRight` | contracts/src/P2IDVault.sol:548-605 | Over every run each proof accepted during it, through the vault or the proxy, was presented by one of its actions under the default or an allowed verifier, which vouched for it as a proof of this vault's identity (and of the constraint asked for, by a key accepted then); none accepted before under that verifier was newer; and under an alpha key it came with an attestation by the attester of the day, for the current epoch, within its deadline, with a new nonce |
| `Provenance.ProvesExactlyWhen` | contracts/src/P2IDVault.sol:283-291 | And such a proof is accepted whenever those conditions hold |
| `Provenance.AppliesExactlyWhen` | contracts/src/P2IDVault.sol:575-605 | Applying a proof succeeds exactly with a wallet, a time at most fifteen minutes ahead and no newer proof accepted before, a readable revision, and a nonzero key hash if it will name the owner |
| `Provenance.SameProofRenews` | contracts/src/P2IDVault.sol:591-601 | The proof of the recorded wallet and time, presented again, makes a void cache usable again |
| `Provenance.OnlyOwnIdentity` | contracts/src/PviumP2IDVaultProxy.sol:84-104 | In every reachable state every accepted proof, through the vault or the proxy, is of the identity the vault was initialized with and its address derived from |
| `Provenance.IdentityIsFixed` | contracts/src/P2IDVault.sol:112-125 | Which identity that is never changes |
| `Provenance.UpgradesExactlyWhen` | contracts/src/PviumP2IDVaultProxy.sol:84-138 | An upgrade succeeds exactly for this vault's own identity, to another registered implementation with the alpha guard, by the wallet of a vouched-for (and if need be attested) proof at least as new as every proof accepted under or as the default and as the last upgrade, that names the owner |
| `Provenance.ImplementationsWereRight` | contracts/src/PviumP2IDVaultProxy.sol:86-92 | Over every run, an implementation installed during it was installed by such an upgrade: at its step it was registered and guarded |
| `Provenance.RecordsWereRight` | contracts/src/P2IDVault.sol:343-394 | Over every run each payout is the work of one sweep and each deposit that of one funding call, as `Calls.SweepsDo` and `Calls.FundsExactlyWhen` say of the state it found |
| `Provenance.RecordsStay` | contracts/src/P2IDVault.sol:48-49 | Along every run deposits keep their terms, what is consumed stays so, and log and payouts only grow |
| `Provenance.OldAttestationsDie` | contracts/src/PviumP2IdVaultFactory.sol:41-60 | Once the owner has changed a key's alpha status or the attester, no attestation for the epoch before authorizes anything, along any later run |
| `OwnerCache.PayableExactlyWhen` | contracts/src/P2IDVault.sol:624-638 | A proofless sweep has a payee exactly when the verifier is the default or allowed and the proof that last validated its cache is still current, and the payee is the wallet of that proof |
| `OwnerCache.FreshExactlyWhen` | contracts/src/P2IDVault.sol:631-638 | The cache is fresh exactly when the proof that last validated it was accepted under the revision, key hash and alpha revision read now |
| `Theorems.PayoutsAddUp` | contracts/src/P2IDVault.sol:725-737 | Per token, gross payouts are the claimed deposits plus untracked funds, and all fees charged are either distributed or still owed |
| `Theorems.BucketAgreement` | contracts/src/P2IDVault.sol:667-692 | A bucket list is exactly the ids with that verifier, constraint and token in funding order; everything below the cursor is consumed; no funder uses a nonzero constraint twice |
| `Theorems.OwnerRefinesHistory` | contracts/src/P2IDVault.sol:575-605 | The cached owner and floor are the wallet and time of the earliest accepted proof with the maximal issue time; a fresh cache names a nonzero owner; the direct-transfer floor is the newest time accepted through whoever was default then |
| `Theorems.AlphaSafety` | contracts/src/P2IDVault.sol:283-291 | While the current key is in alpha, the wallet a proofless sweep pays was last validated by a step that spent an attestation nonce, and no nonce is spent twice, over every run |
| `Theorems.BoundedLockout` | contracts/src/PviumP2IDVaultProxy.sol:102-115 | No recorded floor of the vault or the proxy is ever more than fifteen minutes ahead of the clock |
| `Theorems.LateProofPasses` | contracts/src/P2IDVault.sol:576-602 | A proof issued more than fifteen minutes after any reachable state passes every floor that state recorded, in the vault and in the proxy, and makes its wallet the fresh owner |
| `Theorems.EveryPayoutWasRight` | contracts/src/P2IDVault.sol:200-209 | Every payout ever made went to the wallet of the best proof accepted by then (or the presented proof, for constrained buckets), charged at most one percent, and paid untracked funds only through the default of the moment at its floor |
| `Theorems.RevocationReaches` | contracts/src/PviumIdentity.sol:156-163 | After removeSignerKey, along any later run, a proofless sweep under any verifier of that identity contract can only pay a wallet validated since by a proof whose signing key is accepted now, for the recorded wallet or with a newer time |
| `Theorems.UpgradesNeverGoBack` | contracts/src/PviumP2IDVaultProxy.sol:102-115 | Over any run lastUpgrade.iat never decreases, and equal times keep the same wallet |
| `Theorems.UpgradeIsAtomic` | contracts/src/PviumP2IDVaultProxy.sol:84-138 | No upgrade succeeds while the vault lock is held, and a refused one is a step that leaves the world as it was; that the proxy really undoes what it wrote is `ProxyContract.PviumP2IDVaultProxy.UpgradeTo` |
| `Theorems.RunForward` | contracts/src/P2IDVault.sol:575-605 | Along every run history only grows, revisions and the clock only move forward, and the invariant is kept |
| `Theorems.BestIsStable` | contracts/src/P2IDVault.sol:586-600 | With more history the recorded owner changes only together with a newer time |
| `Theorems.OwnerMovesWithNewerProof` | contracts/src/P2IDVault.sol:576-600 | Along any run from a reachable state the recorded time of a verifier never falls, its owner never vanishes, and the owner is replaced only together with a newer time |
| `Theorems.ReturningWalletIsNewer` | contracts/src/P2IDVault.sol:576-600 | So a wallet that was replaced and is recorded again has itself presented a proof newer than the one that replaced it |
| `Conservation.BalanceIsAccounted` | contracts/src/P2IDVault.sol:725-769 | Over any run from deployment, callbacks included, a token balance is what was there and came in, minus whole refunds, payouts net of their fees, and what fee distribution took |
| `Conservation.RunConserves` | contracts/src/P2IDVault.sol:725-769 | The same between any state that satisfies the invariant and the end of any run from it |
| `Conservation.ExecConserves` | contracts/src/P2IDVault.sol:253-273 | One action with whatever outside code does meanwhile moves the balance by what came in minus what its records say has left |
| `SystemProofs.UpgradeAgreement` | contracts/src/PviumP2IDVaultProxy.sol:84-138 | A successful upgrade leaves owner = caller, and the verifier floor, the direct-transfer floor and lastUpgrade.iat all equal to the proof time |
| `SystemProofs.ExecInv` | contracts/src/P2IDVault.sol:836-841 | Every action, callbacks included, keeps the whole invariant |
| `SystemProofs.ReachableInv` | contracts/src/P2IDVault.sol:112-126 | Hence it holds in every state any run reaches from a freshly initialized vault |
| `SystemProofs.LockedFrame` | contracts/src/P2IDVault.sol:836-841 | While the lock is held no sequence of outside actions changes the vault, and no balance falls |
| `SystemProofs.WithdrawEntryInv` | contracts/src/P2IDVault.sol:253-273 | Fee distribution deducts exactly what left, reverts above the owed amount, and keeps the invariant |
| `SystemProofs.FundEntryInv` | contracts/src/P2IDVault.sol:343-394 | Funding credits the observed balance increase and keeps the invariant, with the token in control in between |
| `SystemProofs.EnterInv` | contracts/src/P2IDVault.sol:400-483 | Every entry point, with any callback, keeps the invariant |
| `SystemProofs.UpgradeInv` | contracts/src/PviumP2IDVaultProxy.sol:84-138 | Upgrades keep the invariant |
| `SystemProofs.EnvInv` | contracts/src/PviumP2IdVaultFactory.sol:45-51 | Time, donations, governance, key-set calls and verifier changes keep it |
| `System.InitialInv` | contracts/src/P2IDVault.sol:112-126 | A fresh vault satisfies it whatever money and settings it finds |
| `Drain.DrainingPaysTheQuote` | contracts/src/P2IDVault.sol:531-537 | From any reachable state with a usable owner cache, uninterrupted sweeps of page p consume the whole default bucket in ceil((length - cursor)/p) calls, and their summed gross equals sweepable at the start, untracked funds counted once |
| `Drain.SweepsExactlyWhen` | contracts/src/P2IDVault.sol:647-665 | An uninterrupted sweep succeeds exactly when the cache is usable, the balance readable and the product of surplus and rate fits 256 bits |
| `Drain.PagingKeepsFees` | contracts/src/P2IDVault.sol:667-692 | Any two sequences of page limits that drain a default bucket from the same reachable state pay the same gross and charge the same fees, to the unit |
| `Drain.PagedCharges` | contracts/src/P2IDVault.sol:647-692 | Sweeps with any page limits charge exactly the recorded fees of the open deposits they covered, plus the fee on the surplus once |
| `Drain.QuoteNobodyCanSweep` | contracts/src/P2IDVault.sol:531-537 | A concrete reachable state with a known owner in which sweepable quotes the whole balance and every sweep reverts, because the fee product does not fit 256 bits |
| `Drain.SweepOnce` | contracts/src/P2IDVault.sol:647-692 | One sweep advances the cursor one page and pays what left the bucket plus the surplus, after which no surplus is left |
| `Drain.DrainedIsEmpty` | contracts/src/P2IDVault.sol:42-69 | A bucket whose cursor reached the end has no unconsumed deposit and total zero |
| `OwnerCache.ApplyInv` | contracts/src/P2IDVault.sol:575-605 | Applying a proof keeps owner, floors and bindings an exact summary of the accepted history |
| `OwnerCache.ApplyAccepts` | contracts/src/P2IDVault.sol:575-605 | What acceptance does: owner and floor move only forward, validation binds key and revisions, other verifiers are untouched |
| `OwnerCache.FreshHasOwner` | contracts/src/P2IDVault.sol:624-638 | A fresh cache names a nonzero owner |
| `OwnerCache.FreshnessAfterApply` | contracts/src/P2IDVault.sol:575-605 | After an applied proof the cache is fresh iff it was before or the proof names the owner |
| `OwnerCache.AlphaFreshMeansAttested` | contracts/src/P2IDVault.sol:631-638 | A fresh cache under an alpha key was last validated by an attested step for the recorded wallet and time |
| `OwnerCache.FreshMeansSignerStands` | contracts/src/PviumVerifier.sol:86-112 | A fresh cache under a PviumVerifier rests on a proof whose signing key is accepted now |
| `OwnerCache.RemovalVoidsCache` | contracts/src/PviumIdentity.sol:156-163 | A removal makes the caches under all verifiers that read that identity contract stale at once |
| `OwnerCache.FloorsAreBounded` | contracts/src/P2IDVault.sol:576-579 | Stored floors are at most now + 15 minutes |
| `OwnerCache.LateProofIsApplied` | contracts/src/P2IDVault.sol:576-602 | A proof newer than every stored floor is applied and becomes the owner |
| `Books.RecordInv` | contracts/src/P2IDVault.sol:371-393 | Recording a deposit keeps totals, index, constraint uses and ledger |
| `Books.ClaimInv` | contracts/src/P2IDVault.sol:716-721 | Claiming an unconsumed deposit keeps them |
| `Books.RefundInv` | contracts/src/P2IDVault.sol:400-409 | Refunding an unconsumed deposit keeps them |
| `Books.AccrueInv` | contracts/src/P2IDVault.sol:729-735 | Accruing a fee keeps them |
| `Books.DistributeInv` | contracts/src/P2IDVault.sol:269-273 | Booking a distribution of at most the owed fee keeps them |
| `Books.TotalConsumed` | contracts/src/P2IDVault.sol:745-749 | Consuming a deposit lowers each sum over unconsumed deposits by its amount where selected |
| `Books.IdsExact` | contracts/src/P2IDVault.sol:57-60 | The ids of a bucket are exactly its deposits, strictly increasing |
| `Books.FeeSumUpdate` | contracts/src/P2IDVault.sol:66-69 | Changing one entry of feesOwed changes the sum over verifiers by the difference |
| `Sweeps.FromCursorTakes` | contracts/src/P2IDVault.sol:667-692 | One page from the cursor takes exactly the unconsumed deposits of the listed stretch, at their recorded fees, and advances the cursor |
| `Sweeps.ByIdsTakes` | contracts/src/P2IDVault.sol:694-713 | A sweep by ids succeeds iff all ids are distinct unconsumed deposits of the bucket, and takes exactly those |
| `Sweeps.WalkSplit` | contracts/src/P2IDVault.sol:678-690 | Two consecutive stretches take what one walk over both takes, gross, fee and count |
| `Sweeps.IdOrderKeepsFees` | contracts/src/P2IDVault.sol:694-721 | The order of the ids decides neither whether the sweep succeeds nor what is paid and charged |
| `Sweeps.OrderIsIrrelevant` | contracts/src/P2IDVault.sol:716-721 | Recorded-deposit fees total the same in any order |
| `Sweeps.ClaimFeeCap` | contracts/src/P2IDVault.sol:716-721 | A recorded fee is at most a hundredth of the amount |
| `Sweeps.SplittingLosesLessThanOneEach` | contracts/src/P2IDVault.sol:204-207 | The arithmetic of it: amounts charged one by one at a rate, against their sum |
| `VaultProofs.PayInv` | contracts/src/P2IDVault.sol:725-737 | A payment at a fee of at most one percent never underflows and keeps the invariant |
| `VaultProofs.OwnerIsBest` | contracts/src/P2IDVault.sol:624-629 | The wallet a default sweep pays is that of the best accepted proof, and untracked funds require the floor |
| `VaultProofs.ProveInv` | contracts/src/P2IDVault.sol:548-556 | Authorising and presenting a proof keeps the invariant, each attestation nonce spent once |
| `VaultProofs.DefaultPayout` | contracts/src/P2IDVault.sol:647-665 | Page plus surplus paid to the owner keeps the invariant and can be afforded |
| `VaultProofs.SweepDefaultInv` | contracts/src/P2IDVault.sol:647-665 | A default sweep keeps the invariant and its payment is covered by the balance |
| `VaultProofs.SweepUntrackedInv` | contracts/src/P2IDVault.sol:200-209 | So does a sweep of untracked funds |
| `VaultProofs.SweepDepositsInv` | contracts/src/P2IDVault.sol:211-217 | So does a sweep by ids |
| `VaultProofs.SweepBucketInv` | contracts/src/P2IDVault.sol:227-235 | So does a constrained sweep, which pays the wallet of its own proof |
| `VaultProofs.SweepBucketDepositsInv` | contracts/src/P2IDVault.sol:245-251 | So does a constrained sweep by ids |
| `VaultProofs.RefreshAndSweepInv` | contracts/src/P2IDVault.sol:191-194 | So does proving and sweeping in one call |
| `VaultProofs.RefundDepositInv` | contracts/src/P2IDVault.sol:400-409 | So does a refund |
| `VaultProofs.FundInv` | contracts/src/P2IDVault.sol:371-393 | Recording a funded deposit keeps the invariant |
| `VaultContract.P2IDVault.constructor` | contracts/src/P2IDVault.sol:103-105 | Before initialization the storage is empty and bound to its factory |
| `VaultContract.P2IDVault.Initialize` | contracts/src/P2IDVault.sol:112-125 | Succeeds exactly once, from the factory, with ordered windows; stores the settings and touches nothing else |
| `VaultContract.P2IDVault.Restore` | contracts/src/P2IDVault.sol:836-841 | A revert puts back everything the transaction changed |
| `VaultContract.P2IDVault.ConsumeDeposit` | contracts/src/P2IDVault.sol:745-749 | Marks consumed and lowers both totals, and nothing else |
| `VaultContract.P2IDVault.ClaimDeposit` | contracts/src/P2IDVault.sol:716-721 | Claims one deposit at its recorded rate |
| `VaultContract.P2IDVault.ConsumeFromCursor` | contracts/src/P2IDVault.sol:667-692 | The stored-cursor page loop computes the specified page |
| `VaultContract.P2IDVault.ConsumeRange` | contracts/src/P2IDVault.sol:681-690 | The page loop: after it the books are those of the specified walk over ids[from..end], and the sums are its sums |
| `VaultContract.P2IDVault.ConsumeIds` | contracts/src/P2IDVault.sol:694-713 | The id loop claims exactly the listed ids or fails |
| `VaultContract.P2IDVault.IndexDeposit` | contracts/src/P2IDVault.sol:372-393 | Pushes and indexes a deposit |
| `VaultContract.P2IDVault.MayFund` | contracts/src/P2IDVault.sol:351-359 | The checks before any money moves |
| `VaultContract.P2IDVault.FundNative` | contracts/src/P2IDVault.sol:343-394 | Funding with native coin, whole: exactly when it succeeds, and all storage afterwards |
| `VaultContract.P2IDVault.BeginPull` | contracts/src/P2IDVault.sol:351-369 | Funding with a token up to the pull: the checks and the lock under which outside code runs |
| `VaultContract.P2IDVault.EndPull` | contracts/src/P2IDVault.sol:370-394 | After the pull: the balance increase is credited if it is positive and fits 128 bits, or everything since the start is undone |
| `VaultContract.P2IDVault.RecordFunding` | contracts/src/P2IDVault.sol:371-393 | Records a funded deposit at the rate quoted now |
| `VaultContract.P2IDVault.RefundDeposit` | contracts/src/P2IDVault.sol:400-409 | Refund with its three checks, all storage and the payment stated; who is paid, and when, is `Calls.RefundsExactlyWhen` |
| `VaultContract.P2IDVault.IsFresh` | contracts/src/P2IDVault.sol:631-638 | The four freshness tests |
| `VaultContract.P2IDVault.CachedOwner` | contracts/src/P2IDVault.sol:624-629 | The wallet a proofless sweep pays, or a revert |
| `VaultContract.P2IDVault.InstallOwner` | contracts/src/P2IDVault.sol:586-595 | Newer proofs install the owner; the same wallet may renew a void cache |
| `VaultContract.P2IDVault.ApplyProof` | contracts/src/P2IDVault.sol:575-605 | All of _apply, or a revert |
| `VaultContract.P2IDVault.SpendAttestation` | contracts/src/P2IDVault.sol:283-291 | The alpha modifier |
| `VaultContract.P2IDVault.PresentProof` | contracts/src/P2IDVault.sol:548-556 | Claimability, verification, application |
| `VaultContract.P2IDVault.ProveOwner` | contracts/src/P2IDVault.sol:172-181 | Attestation then proof |
| `VaultContract.P2IDVault.RefreshProof` | contracts/src/P2IDVault.sol:172-181 | refreshProof, restoring everything on failure |
| `VaultContract.P2IDVault.AcceptOwnerProof` | contracts/src/P2IDVault.sol:561-571 | The upgrade hook: only the proxy itself may call it, under the lock, refused unless the wallet ends up the owner; a refusal leaves all storage as it was |
| `VaultContract.P2IDVault.UntrackedBalance` | contracts/src/P2IDVault.sol:739-743 | Balance minus held, floored at zero |
| `VaultContract.P2IDVault.EligibleSurplus` | contracts/src/P2IDVault.sol:619-621 | Surplus only for the fresh default at its floor |
| `VaultContract.P2IDVault.SweepableView` | contracts/src/P2IDVault.sol:531-537 | The quote |
| `VaultContract.P2IDVault.AccrueFee` | contracts/src/P2IDVault.sol:729-735 | Accrual per verifier and in total |
| `VaultContract.P2IDVault.PayOut` | contracts/src/P2IDVault.sol:725-737 | Fee accrued, net returned for the transfer |
| `VaultContract.P2IDVault.SweepDefault` | contracts/src/P2IDVault.sol:647-665 | The default sweep leaves exactly the specified storage and payment, or what was there before |
| `VaultContract.P2IDVault.SweepUntracked` | contracts/src/P2IDVault.sol:200-209 | Likewise for untracked funds alone, through the default verifier at its floor |
| `VaultContract.P2IDVault.SweepDeposits` | contracts/src/P2IDVault.sol:211-217 | Likewise for a list of ids; a bad id undoes the claims before it; whose deposits they are is `Settlement.ClaimsBelongToOnePayout` |
| `VaultContract.P2IDVault.SweepBucket` | contracts/src/P2IDVault.sol:227-235 | Likewise for a constrained bucket, whose payee is the wallet of the proof; failure undoes proof and nonce |
| `VaultContract.P2IDVault.SweepBucketDeposits` | contracts/src/P2IDVault.sol:245-251 | Likewise, undoing proof, nonce and claims on failure |
| `VaultContract.P2IDVault.RefreshAndSweep` | contracts/src/P2IDVault.sol:191-194 | Likewise, undoing the proof when the sweep fails |
| `VaultContract.P2IDVault.BeginFees` | contracts/src/P2IDVault.sol:253-264 | Distribution up to the call of the policy: the amount owed and the lock |
| `VaultContract.P2IDVault.EndFees` | contracts/src/P2IDVault.sol:259-272 | After the call: native coin counts as owed, of a token what the balance lost; above the owed amount everything is undone |
| `VaultContract.P2IDVault.SettleFees` | contracts/src/P2IDVault.sol:270-272 | Books a distribution: both totals fall by the amount |
| `ProxyContract.PviumP2IDVaultProxy.VaultFloor` | contracts/src/PviumP2IDVaultProxy.sol:161-169 | Maximum of both vault floors, discarding values too far ahead |
| `ProxyContract.PviumP2IDVaultProxy.Authorise` | contracts/src/PviumP2IDVaultProxy.sol:94-101 | The alpha check of an upgrade, spending its nonce |
| `ProxyContract.PviumP2IDVaultProxy.ProofIsNew` | contracts/src/PviumP2IDVaultProxy.sol:105-112 | Order against the last upgrade and the vault floors |
| `ProxyContract.PviumP2IDVaultProxy.Install` | contracts/src/PviumP2IDVaultProxy.sol:113-137 | Record, implementation, hook and the read-back checks |
| `ProxyContract.PviumP2IDVaultProxy.UpgradeTo` | contracts/src/PviumP2IDVaultProxy.sol:84-159 | Atomicity of upgrades: written step by step to the storage of proxy and vault, it leaves exactly the specified upgrade, or after any failure every slot of both as it was; it refuses to re-enter |
| `Factory.TimelockHistory` | contracts/src/PviumP2IdVaultFactory.sol:395-456 | Whatever policy, default verifier or base implementation is in force, other than the constructor's, was the owner's proposal, approved when made and when activated, and stood unchanged and not cancelled for its full delay before the owner put it into force |
| `Factory.ProposalStood` | contracts/src/PviumP2IdVaultFactory.sol:321-336 | A pending proposal is the owner's and has stood unchanged, and not cancelled, since the step that made it |
| `Factory.SlotStep` | contracts/src/PviumP2IdVaultFactory.sol:395-456 | One step changes a setting only by the owner activating a ripe proposal for it, sets a proposal only by the owner proposing it, and a cancellation clears it |
| `Factory.RegistryKeepsBase` | contracts/src/PviumP2IdVaultFactory.sol:360-389 | The original and the base implementation stay registered, and the owner stays the owner |
| `Factory.RegistryHistory` | contracts/src/PviumP2IdVaultFactory.sol:256-389 | Whatever is registered was so from the start and never revoked, or the owner proposed it (bound to this factory), the proposal stood unchanged and not cancelled for fourteen days, the owner registered it, and has not revoked it since |
| `Factory.OnlyTheOwner` | contracts/src/PviumP2IdVaultFactory.sol:395-456 | Only the owner's calls have an effect |
| `Factory.ProposalsWork` | contracts/src/PviumP2IdVaultFactory.sol:300-456 | What the owner proposes properly can be put into force after its delay, and then is in force (or registered) |
| `Factory.AlphaSet` | contracts/src/PviumP2IdVaultFactory.sol:45-51 | Releasing a key takes it out of alpha and enabling puts it back, for that key alone; re-enabling a released key raises its revision by one, and every earlier attestation is void |
| `Factory.AlphaFollowsOwner` | contracts/src/PviumP2IdVaultFactory.sol:41-60 | Over any run a key is in alpha exactly as the owner last said, the attester is the one the owner last named, and the epoch counts the owner's decisions about alpha and the attester |
| `Factory.AlphaRevisionGuardsRelease` | contracts/src/PviumP2IdVaultFactory.sol:45-51 | A released key can return to alpha only with a higher alpha revision, which never falls |
| `Factory.PviumP2IdVaultFactory.Deploy` | contracts/src/PviumP2IdVaultFactory.sol:191-228 | Deployment succeeds exactly with an owner, ordered refund windows, a policy with code that allows the default verifier, and a nonzero key hash read from it; then no proposal stands, the first key is in alpha and the base is registered |
| `Factory.PviumP2IdVaultFactory.constructor` | contracts/src/PviumP2IdVaultFactory.sol:206-228 | The settings such a deployment leaves |
| `Factory.PviumP2IdVaultFactory.SetAlpha` | contracts/src/PviumP2IdVaultFactory.sol:45-51 | Owner only: release or re-enable a key; re-enabling a released key raises its alpha revision; the epoch moves either way |
| `Factory.PviumP2IdVaultFactory.SetDefaultAttester` | contracts/src/PviumP2IdVaultFactory.sol:54-59 | Attester change moves the epoch |
| `Factory.PviumP2IdVaultFactory.ProposePolicy` | contracts/src/PviumP2IdVaultFactory.sol:395-400 | Owner only, code present: the proposal stands with its delay from now |
| `Factory.PviumP2IdVaultFactory.CancelPolicyProposal` | contracts/src/PviumP2IdVaultFactory.sol:402-408 | Owner only: drops the standing proposal, or reverts without one |
| `Factory.PviumP2IdVaultFactory.ActivatePolicy` | contracts/src/PviumP2IdVaultFactory.sol:410-422 | Activation after the delay |
| `Factory.PviumP2IdVaultFactory.ProposeDefaultVerifier` | contracts/src/PviumP2IdVaultFactory.sol:428-434 | Owner only, approved by the policy: the proposal stands for 14 days from now |
| `Factory.PviumP2IdVaultFactory.CancelDefaultVerifierProposal` | contracts/src/PviumP2IdVaultFactory.sol:436-443 | Owner only: drops the standing proposal, or reverts without one |
| `Factory.PviumP2IdVaultFactory.ActivateDefaultVerifier` | contracts/src/PviumP2IdVaultFactory.sol:445-456 | Activation after 14 days |
| `Factory.PviumP2IdVaultFactory.DeployVaultImplementation` | contracts/src/PviumP2IdVaultFactory.sol:256-297 | Deploy and propose |
| `Factory.PviumP2IdVaultFactory.ProposeImplementation` | contracts/src/PviumP2IdVaultFactory.sol:300-308 | Manual proposal, opt-in only |
| `Factory.PviumP2IdVaultFactory.ProposeDefaultImplementation` | contracts/src/PviumP2IdVaultFactory.sol:310-319 | Proposal as the base |
| `Factory.PviumP2IdVaultFactory.CancelImplementationProposal` | contracts/src/PviumP2IdVaultFactory.sol:352-358 | Owner only: drops the standing proposal, or reverts without one |
| `Factory.PviumP2IdVaultFactory.RegisterImplementation` | contracts/src/PviumP2IdVaultFactory.sol:360-377 | Registration after 14 days, re-checked |
| `Factory.PviumP2IdVaultFactory.RevokeImplementation` | contracts/src/PviumP2IdVaultFactory.sol:381-389 | Revocation spares the base and the original |
| `KeySet.RemovedKeyStaysOut` | contracts/src/PviumIdentity.sol:125-163 | A removed key is accepted again only after at least seven days, whatever is called in between |
| `KeySet.NoticeOverRun` | contracts/src/PviumIdentity.sol:125-154 | No key enters before its seven-day notice has passed, over any run |
| `KeySet.RevisionPinsKeys` | contracts/src/PviumIdentity.sol:156-163 | Over any run an unchanged revision means no key was dropped, and the revision never falls |
| `KeySet.KeyAfterInv` | contracts/src/PviumIdentity.sol:125-163 | signerKeyCount is the size of the set, and a pending proposal implies the key is not accepted |
| `KeySet.KeyRunInv` | contracts/src/PviumIdentity.sol:125-163 | The same over any run |
| `KeySet.KeysAreTheOwners` | contracts/src/PviumIdentity.sol:125-163 | Over any run an accepted key is an initial one that the owner never removed, or a point of the curve that the owner proposed, that was not cancelled, and that was activated at least seven days later |
| `KeySet.ProposalsWork` | contracts/src/PviumIdentity.sol:125-152 | A point of the curve that the owner proposes is accepted once somebody activates it after seven days, and not if the owner cancels |
| `KeySet.RemovalsWork` | contracts/src/PviumIdentity.sol:156-163 | A key the owner removes is out at once, and the revision moves by one |
| `KeySet.BasePointPasses` | contracts/src/PviumIdentity.sol:253-260 | The base point of P-256 passes the test |
| `KeySet.KeysLeaveByTheOwner` | contracts/src/PviumIdentity.sol:156-163 | Over any run a key leaves only when the owner removes it |
| `KeySet.OnCurveExactlyWhen` | contracts/src/PviumIdentity.sol:253-260 | Reduced step by step as the code does, the test is: coordinates in range and y^2 - (x^3 - 3x + b) divisible by p |
| `KeySet.PviumIdentity.constructor` | contracts/src/PviumIdentity.sol:94-120 | The initial set has exactly the given distinct keys and their count |
| `KeySet.PviumIdentity.ProposeSignerKey` | contracts/src/PviumIdentity.sol:125-132 | Owner only, on the curve, not yet accepted: the seven-day notice starts (again) and nothing else changes |
| `KeySet.PviumIdentity.CancelSignerKeyProposal` | contracts/src/PviumIdentity.sol:134-139 | Owner only: drops a standing proposal, or reverts |
| `KeySet.PviumIdentity.ActivateSignerKey` | contracts/src/PviumIdentity.sol:142-152 | Anyone, once the notice has passed: the key enters, its proposal goes, the count rises |
| `KeySet.PviumIdentity.RemoveSignerKey` | contracts/src/PviumIdentity.sol:156-163 | Owner only, at once: set, count and revision move together |
| `Json.EscPrefix` | circuit/src/main.nr:61-71 | Whichever of the ways of section 7 of RFC 8259 each character is written in, the writing is a prefix code: one text is never read as two |
| `Json.StringifySays` | http-prover/src/witness.ts:65-69 | What JSON.stringify writes says what it was given |
| `Json.StructuralAt` | circuit/src/main.nr:61-71 | A brace, bracket, comma or colon in the bytes of a written string is that character written as itself |
| `Json.QuoteAt` | circuit/src/main.nr:61-71 | A quote in the bytes of a written string is always the second half of an escaped quote |
| `Json.UntilQuote` | circuit/src/main.nr:348-366 | Written text up to its closing quote is the only plain text up to a quote |
| `Json.PlainRun` | circuit/src/main.nr:381-389 | Bytes without a backslash from a character boundary are those characters, each written as itself |
| `Documents.EncRun` | circuit/src/main.nr:156-187 | A document leaves the scan where it was; everything strictly inside it is in a string or deeper |
| `Documents.StringMarks` | circuit/src/main.nr:157-161 | The scan is inside exactly from a string's first content byte to its closing quote |
| `Scan.ScanPayload` | circuit/src/main.nr:165-186 | The pass over the fixed buffer, counting in the prime field, computes the scan at every byte, and its final test is the integer one |
| `Scan.StringMap` | http-prover/src/witness.ts:20-34 | The builder's map is the same scan on all payload bytes |
| `Scan.FieldCount` | circuit/src/main.nr:165-187 | Counting in the field agrees with the integers because counts are bounded by the payload length |
| `Locate.TopMember` | circuit/src/main.nr:188-191 | A quote outside strings, at depth one, after a brace or comma starts a member of the root object |
| `Locate.QuoteInAccounts` | circuit/src/main.nr:334-357 | In the array's text a quote after a brace or comma and before a name opens a member of one account |
| `Circuit.FlagPass` | circuit/src/main.nr:300-326 | The three-flag pass succeeds iff no brace lies strictly inside the object, every byte from the array start through the object end is in a string, and braces before it balance; off when disabled |
| `Circuit.ProveAccount` | circuit/src/main.nr:284-392 | Accepts exactly under the stated conditions and returns the value without capitals (unless its case counts) and its commitment, prefix, type and that text; switched off it checks nothing and returns the zero commitment |
| `Circuit.CheckType` | circuit/src/main.nr:334-346 | The type member checks |
| `Circuit.CheckValueKey` | circuit/src/main.nr:348-366 | The value member checks |
| `Circuit.ReadValue` | circuit/src/main.nr:375-389 | Copies the value, without capitals unless its case counts; fails exactly on a backslash |
| `Circuit.ReadIat` | circuit/src/main.nr:188-191 | The issue time: ten digits at a top-level iat key |
| `Circuit.FindAccounts` | circuit/src/main.nr:200-205 | The anchoring of linked_accounts |
| `Circuit.FoldHex` | circuit/src/main.nr:240-246 | The base-16 fold in the field, failing exactly on a byte that is no digit |
| `Circuit.CheckWallet` | circuit/src/main.nr:235-246 | The public wallet is the address read from the slot, zero without one |
| `Circuit.Prove` | circuit/src/main.nr:93-263 | The whole circuit after decoding: it accepts exactly when the conditions hold, and outputs exactly the issue time and the two commitments they describe |
| `Circuit.BytesAtEq` | circuit/src/bytes.nr:48-59 | Pattern comparison |
| `Circuit.ParseDecimal` | circuit/src/bytes.nr:93-101 | Decimal value, failing exactly on a non-digit |
| `Circuit.TableTypes` | circuit/src/identity.nr:36-53 | Type names are plain names |
| `Circuit.TableKeys` | circuit/src/identity.nr:55-72 | So are key names |
| `Soundness.CircuitSound` | circuit/src/main.nr:193-205 | For every compact JSON token with distinct keys whose linked_accounts says an array of flat objects, whatever its strings say and however each character of them is written at both levels, as long as of any two neighbouring braces of different accounts one is written as itself: accepted offsets mean one single listed account has exactly the public type and exactly the hashed value, likewise the wallet slot, and the issue time is the token's own |
| `BraceTheorems.SoundExactlyWhenKeptApart` | circuit/src/main.nr:194-196 | The condition is exact: for every choice of which account braces are written as themselves, all accepted proofs about all tokens written so are sound if and only if any two neighbouring accounts have one of the two braces between them written as itself |
| `BraceTheorems.HiddenGapFools` | circuit/src/main.nr:300-326 | For every choice that hides both braces between two neighbours there is a token, accepted offsets, and a proven email that no account lists |
| `BraceTheorems.TwoAccountsFool` | circuit/src/main.nr:300-326 | The smallest case: of two accounts, an email without an address and a phone with one, whose inner braces are escaped, the circuit accepts an email that no account lists |
| `BraceTheorems.UniformSound` | circuit/src/main.nr:193-205 | A writer that writes each character the same way everywhere, whichever way, leaves no gap: everything accepted of its tokens is sound |
| `Splices.SplicePasses` | circuit/src/main.nr:284-392 | A stretch between a brace in a string of one account and a brace in a string of the next, with no brace written as itself inside it, passes every check of one account |
| `Commitment.CrossCheck` | contracts/src/PviumVerifier.sol:92-97 | Of an accepted proof the wallet commitment equals that of an address exactly when a hex wallet is used and the address is the public one, so the check on chain never fails for a nonzero wallet and never passes another |
| `Commitment.RoutesTo` | contracts/src/lib/P2IDHash.sol:19-23 | An accepted proof's identity commitment is the salt a payer computes exactly for its type and a value equal up to ASCII letter case (equal outright for a phone number, or a wallet without 0x) |
| `Commitment.HashesAlike` | contracts/src/lib/P2IDHash.sol:35-49 | On chain two values of one type within the limits have the same commitment if and only if they agree position by position up to ASCII letter case; phone numbers, and wallets without 0x, if and only if they are equal |
| `Commitment.ProofsAlike` | circuit/src/main.nr:366-390 | So have two accepted proofs, if and only if their types are equal and their values agree likewise |
| `Commitment.ProofCommits` | circuit/src/main.nr:366-390 | An accepted proof commits to prefix, type and a text that is the value without capitals, or the value itself for a phone number or a wallet without 0x |
| `Circuit.NormalText` | circuit/src/main.nr:375-390 | What is hashed is that text |
| `Witness.TablesAgree` | http-prover/src/identity.ts:2-16 | The witness builder's table of types and keys agrees with the circuit's, so no two types share a name |
| `Commitment.PreimageInjective` | circuit/src/main.nr:366-390 | A commitment determines the identity type and the normalized value |
| `Commitment.Normalize` | contracts/src/lib/P2IDHash.sol:35-49 | The loop on chain computes the normalization of the circuit; what that is, position by position, is `Commitment.HashesAlike` |
| `Commitment.HashIdentity` | contracts/src/lib/P2IDHash.sol:19-23 | The commitment of an identity value: prefix, type, and the value without capitals (the value itself for a phone number or a wallet without 0x); an error for an unknown type or a length outside 1 to 128 |
| `Commitment.ToLowerHex` | contracts/src/lib/P2IDHash.sol:52-62 | The digit loop, from the last to the first, writes 0x and the forty digits of the address |
| `Soundness.AccountSound` | circuit/src/main.nr:284-392 | The same for one account slot, under the same condition |
| `Soundness.IatSound` | circuit/src/main.nr:411-426 | The accepted issue time is the token's iat claim, all of its digits, however the token's strings are written |
| `Soundness.SameAccount` | circuit/src/main.nr:194-196 | Where accounts are separated by a brace written as itself, no brace between two members means that they belong to one account |
| `Soundness.ObjectInside` | circuit/src/main.nr:197-199 | Bytes in one string with the array start lie in the array |
| `Soundness.LiftPattern` | circuit/src/main.nr:334-366 | A written pattern after a brace or comma of a written text stands for a pattern in what the text says |
| `Soundness.TopKey` | circuit/src/main.nr:188-205 | A top-level key written there is that member of the token, with its value |
| `Witness.FindTopLevel` | http-prover/src/witness.ts:41-49 | First occurrence outside strings at a member boundary |
| `Witness.FindMember` | http-prover/src/witness.ts:52-59 | First occurrence in a range at a member boundary |
| `Witness.LocateAccount` | http-prover/src/witness.ts:71-100 | The first object containing both patterns, with the member hits in it |
| `Witness.BuildWitness` | http-prover/src/witness.ts:110-169 | All offsets, the wallet field and the issue time read, or an input error; the segment length limits included |
| `Witness.FirstTop` | http-prover/src/witness.ts:41-49 | The result is a hit and nothing before it is |
| `BuilderProofs.WitnessComplete` | http-prover/src/witness.ts:110-169 | On a token with scalar or string top-level values, flat accounts with plain keys and brace-free strings and a ten-digit iat, the builder succeeds exactly when the identity and the requested wallet are listed and the wallet is no malformed address; then every circuit check passes, and the values and the issue time read are the requested ones and the token's |
| `BuilderProofs.SampleIsProvable` | http-prover/src/witness.ts:110-169 | A concrete one-account token meets the conditions, and its email is found and accepted |
| `BuilderProofs.LocatedOk` | http-prover/src/witness.ts:71-100 | The located offsets of one account pass every account check |
| `BuilderProofs.ChosenAccount` | http-prover/src/witness.ts:79-99 | The search stops at the first account that lists both members, or there is none |
| `BuilderProofs.AccountsFound` | http-prover/src/witness.ts:121-126 | The array is found with its start and its end |
| `BuilderProofs.IatFound` | http-prover/src/witness.ts:138-139 | The issue-time offset passes the circuit |
| `Completeness.FlatDepth` | circuit/src/main.nr:162-164 | With scalar and string claims everything between the outer braces is at depth one |
| `Completeness.IncludesMeansLists` | http-prover/src/witness.ts:89-90 | An account's text includes a pattern exactly when the account lists that member |
| `Completeness.PatternInAccount` | http-prover/src/witness.ts:51-59 | Every occurrence of a pattern stands at a member boundary |
| `Encoding.HexInjective` | circuit/src/main.nr:240-246 | Equally long digit strings with one value are equal |
| `Encoding.AddressFits` | circuit/src/main.nr:239-246 | The fold of forty digits is below 2^160 |
| `Encoding.FieldIsAddress` | http-prover/src/witness.ts:171-175 | Whatever the builder announces is what the circuit reads, in any letter case after 0x; it throws exactly on 0X and on malformed addresses |
| `Encoding.FieldsDistinguish` | http-prover/src/witness.ts:171-175 | Two addresses share a field exactly when they differ only in case |
| `Encoding.WalletRoundTrip` | sdks/node/p2id-verifier/src/publicInputs.ts:74-88 | Zero-padded printing recovers the lowercased address of every nonzero wallet |
| `Encoding.PrintHex` | sdks/node/p2id-verifier/src/publicInputs.ts:77-81 | Printing and padding undoes the fold |
| `Encoding.PackHash` | circuit/src/bytes.nr:104-112 | The loop computes both 16-byte halves |
| `Encoding.JoinSplit` | contracts/src/PviumIdentity.sol:248-250 | Joining the halves on chain gives back every 32-byte value |
| `Encoding.AttestationRoundTrip` | contracts/src/PviumIdentity.sol:236-246 | Nothing the circuit attests is changed by packing, joining and the narrowing casts |
| `Encoding.SplitFields` | sdks/node/p2id-verifier/src/publicInputs.ts:57-61 | Reading a proof file: eleven 32-byte big-endian fields in order, or an error for any other length |
| `Encoding.FileRoundTrip` | sdks/node/p2id-verifier/src/publicInputs.ts:57-61 | Reading back the file of a proof gives its public inputs |
| `Layout.CanonicalIsText` | contracts/scripts/lib/storageLayout.ts:36-43 | The recursive description is the text of the type's shape |
| `Layout.TextCode` | contracts/scripts/lib/storageLayout.ts:36-43 | Descriptions of cleanly named types form a code: none continues another |
| `Layout.TextInjective` | contracts/scripts/lib/storageLayout.ts:36-43 | Equal descriptions mean equal shapes |
| `LayoutCheck.CompareLayouts` | contracts/scripts/lib/storageLayout.ts:48-71 | The loops report exactly the specified findings |
| `LayoutCheck.AcceptsMeans` | contracts/scripts/lib/storageLayout.ts:48-71 | No error iff every base variable is kept and every other candidate variable is past the base's end |
| `LayoutTheorems.SafeExactlyWhenItSeesAll` | contracts/scripts/lib/storageLayout.ts:36-71 | For every layout as the compiler writes it: all accepted candidates keep slot, offset and full type (elements of fixed-size arrays included) of every base variable, if and only if no base variable's description ends at a fixed-size array whose label and size leave its elements open |
| `LayoutTheorems.SafeExactlyWithoutStructsInArrays` | contracts/scripts/lib/storageLayout.ts:36-71 | With the language's own value types only, that is: if and only if no struct is below a fixed-size array |
| `LayoutTheorems.AcceptedKeepsStorage` | contracts/scripts/lib/storageLayout.ts:48-71 | Under that condition no error implies that every base variable keeps slot, offset and full type, and candidate-only variables lie after all base slots |
| `LayoutTheorems.BlindIsFooled` | contracts/scripts/lib/storageLayout.ts:39-42 | Without it there is an accepted candidate that stores something else in that variable |
| `LayoutTheorems.ChainKeepsStorage` | contracts/scripts/lib/storageLayout.ts:48-71 | Along a chain of implementations, each checked against the one before, the last keeps what the first stores, if only the first meets the condition |
| `LayoutTheorems.ArrayElementsUnchecked` | contracts/scripts/lib/storageLayout.ts:41-42 | Concrete layouts in which the struct of a fixed-size array changes unnoticed |
| `LayoutTheorems.ValueTypesUnchecked` | contracts/scripts/lib/storageLayout.ts:42-42 | Concrete layouts in which the size of a value type in a fixed-size array changes unnoticed |
| `FullLayout.LabelTells` | contracts/scripts/lib/storageLayout.ts:36-43 | Equal labels (and sizes) that leave nothing open mean equal types, down to the elements |
| `FullLayout.ShapeTells` | contracts/scripts/lib/storageLayout.ts:36-43 | Equal descriptions that nowhere end blindly mean equal types |
| `LayoutVariants.Disguise` | contracts/scripts/lib/storageLayout.ts:36-43 | From every blind type another can be made with the same label, size and description |
| `CompiledLayout.ShapeIsClean` | contracts/scripts/lib/storageLayout.ts:36-43 | A type as the compiler writes it has a description that can be read back, and the size its shape has |
| `LayoutCheck.AcceptedKeepsShapes` | contracts/scripts/lib/storageLayout.ts:48-71 | Without any condition: every base variable keeps slot, offset and the shape its description shows |
| `LayoutCheck.SilentExactlyWhen` | contracts/scripts/lib/storageLayout.ts:48-71 | Nothing at all is reported exactly when the candidate is accepted and no base variable has changed its name |
| `LayoutCheck.AcceptsItself` | contracts/scripts/lib/storageLayout.ts:48-71 | A well-formed layout compared with itself has no findings at all |
| `LayoutCheck.AcceptsCompose` | contracts/scripts/lib/storageLayout.ts:48-71 | Acceptance is transitive |
| `LayoutCheck.ChainAccepted` | contracts/scripts/lib/storageLayout.ts:48-71 | Along a chain of implementations the last is compatible with the first |
| `LayoutCheck.EndsGrow` | contracts/scripts/lib/storageLayout.ts:64-64 | An accepted candidate's storage ends no earlier |

## Left out

- Cryptography: SHA-256, keccak, ECDSA, the proof system, base64 decoding and CREATE2 address arithmetic are
  not modelled; whether a proof or an attestation verifies is an input.
- ABI encoding, gas limits, delegatecall mechanics and `executeWithAttestation`'s dispatch of encoded calls.
- Hostile registered implementations: the code behind the proxy is `P2IDVault`, and reads of it succeed.
- Views and their paging; events other than the settlement ledger.
- Ownership handover of the factory and of the identity contract, and the `url` and `kid` of a key proposal.
- Registered constraint signers of `PviumVerifier`: which constraint a proof comes with evidence for is part of the
  proof, and whether any signer is registered a setting of the verifier.
- What an alpha attestation's signature covers (vault, caller, call and nonce) is one flag of the attestation.
- Wrap-around of 64-bit timestamps and revision counters, which the clock and the number of calls cannot reach.
- The factory's own funding path (`deploy`, `fund`), which pulls tokens and calls the vault's `fundFor`.
- The policy contract: an oracle for allowed verifiers, rates, and what it pulls.
- The signing input, its base64 form and the padding of the buffers; space between the tokens of a JSON document.
- Precision of slot numbers beyond 2^53 in the layout checker, its messages, and the ABI and source scans.
- The HTTP prover around the witness builder, the explorer, deployment scripts and `gen_prover.py`.
- VaultContract.P2IDVault.PayOut: stops at the amount to transfer, because the transfer, the lock around it and
  callbacks during it are steps of `System`.
- VaultContract.P2IDVault.RecordFunding: the recording step alone; the checks, the lock and the observed
  balance around it are `FundNative`, `BeginPull` and `EndPull`, and the token call between them is a step of `System`.
- VaultContract.P2IDVault.SettleFees: the booking step alone; `BeginFees` and `EndFees` are around it.
- Circuit.Prove: starts from the decoded payload and the signature's verdict; the digests are their preimages.
- Layout.TextInjective: assumes labels as the compiler writes them, without `/`, and field names made of
  identifier characters; `CompiledLayout.ShapeIsClean` derives this from the layout.
