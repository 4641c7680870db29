# EquityGuard, modelled and proved

EquityGuard binds a signed transaction to the economic state of a token: two
64-bit multipliers and the activation time T at which the second replaces the
first. The transaction must not execute once that state has moved. This project
models the guard, the protocols and harnesses built around it and the codecs
they share, and proves what each is for.

- **Policy and replay.** `Guard` holds the policy as the differential harness
  restates it and as the program checks it. `Replay` runs any policy over every
  (authorization, later observation, lag, window) pair and tallies it against a
  notion of staleness that does not mention the guard; `ReplayTheorems` proves
  the tallies balance and that the policy leaves no finding on any history, `ReplayPairs`
  which pairs those are and what each counter counts.
- **Crossing an activation.** `Activation` is the build, attest, sign, hold,
  cross, submit protocol against adversaries who may answer anything at any
  step; `LocalActivation` supplies the concrete parties and says what the program
  answers to the submitted bytes. `Coordinator` and `CoordinatorRuns` are the
  attestation server under every interleaving of its calls, `AttestationLimits`
  where its guarantees end, `AttestedTrades` the server beside the program.
  `Devnet` is the browser flow with its decisions and held bytes.
- **What a transaction may be.** `Grammar` is the accumulating checker and the
  language it accepts, `GrammarReports` when each failure is reported, `WalletPrefix`
  what a wallet may add while signing, `SysvarView` the flags the runtime shows, and
  `OnChain` and `JupiterTrade` the client's builders and the program's processor: from
  the builder through the wallet to the program's verdict, only the policy decides.
  `ProcessorOrder` lists the processor's refusals in their order.
- **Codecs.** `Digits`, `Base58`, `Commitment`, `Encoders`, `Abi`, `CaseRecord`
  and `Wire`: round trips, injectivity, and exactly where two implementations
  of one encoding part. `Layouts` gives every field its offset, `DemoDigest` is the digest recomputed from a recorded wire.
- **Bytes in place.** `Mint` walks and edits a mint's extension area, `MintBytes` says
  of the bytes alone which mints it reads, `BuiltMint` writes one, `Capture` splits and extracts capture lines, `ApiReplay` searches and summarises.
- **Generated cases.** `Generator`, `GuardCases` and `ReplayCases` produce the
  labelled corpus; every stream determines its case, and the labels are the
  program's own verdicts.

Multipliers are 64-bit patterns, never numbers: valid means positive and normal
in the sense of section 3.4 of IEEE 754-2019. SHA-256 is an arbitrary function to
32 bytes. It is never assumed free of collisions: a statement that rests on a
digest concludes that the two preimages it compares are equal or that exactly
these two collide. Ed25519 verification (section 5.1.7 of RFC 8032) and the derivation of associated token
accounts are uninterpreted functions. Byte arrays the sources edit in place are
arrays here, objects whose methods update them are classes, and every such method
is proved against a function of the old state.

Some statements of the sources hold only under a condition, which is proved to be
exact:

- the two suffix encoders agree iff no address is all `1`s, so they part on every
  transaction that creates a token account (`Encoders.EncodersAgreeExactly`);
- one immutable authorization per proof holds, from any reachable state of the
  server on, iff no two calls for a proof are in flight and none for a proof
  already authorized (`CoordinatorRuns.ImmutableExactly`); overlapping calls break
  it for every transaction the server attests
  (`AttestationLimits.EveryHonestProofCanBeReplaced`);
- an authorization is of its simulation's phase iff no two attestable trades of
  different phases have colliding messages (`AttestationLimits.PhasesAgreeExactly`);
- the equality reported after a submission holds iff the submitter left the array
  it was handed as it was, since it is measured afterwards; the equality before the
  submission is unconditional (`Activation.ExecuteAcrossActivation`);
- a case record survives iff every number fits its width (`CaseRecord.SurvivesExactly`);
- the two account-flag computations agree iff the signer count stays within the
  static accounts or nothing is loaded (`Wire.FlagsAgreeExactly`);
- the issuer replay reports iff no compared poll holds the stored pending multiplier
  at a fractional second (`ApiReplay.ReplayApi`).

`dafny verify dfyconfig.toml` checks everything.

## Model

| member | source | states |
|---|---|---|
| Guard.ProgramRefinesSpec | programs/equity_guard/src/guard.rs:22-68 | the program's checked i64 check gives the specification's verdict on every request, clock and mint whose activation time is an i64 |
| Guard.AcceptedExactly | scripts/m11b/differential.ts:338-349 | a request is accepted iff the mint holds exactly the signed state and, when a change is scheduled, both window bounds stay in i64 and the clock is strictly outside the window on the side the phase names |
| Guard.VerdictInOrder | scripts/m11b/differential.ts:338-349 | every verdict, not only acceptance: the first of six listed conditions that holds names the refusal, the i64 bounds included |
| Guard.NoRewriteRevivesIt | scripts/m11b/differential.ts:338-349 | over any run of mint states under a clock that never runs back, a pending expectation is dead from T - before on and an activated one up to T + after, however the mint is rewritten |
| Guard.NeverBothPhases | scripts/m11b/differential.ts:338-349 | no instant and no mint accept one state under both phases, whatever the two windows |
| Guard.VerdictsRunInOrder | scripts/fixtures/generate_guard_conformance.py:609-626 | with fixed bytes and a nondecreasing clock the verdicts run ok, InsideTransitionWindow, ActivationPhaseChanged (mirrored for an activated expectation), cut exactly where the clock enters and leaves the window |
| Guard.CrossesExactly | scripts/m11b/differential.ts:338-349 | under a zero-second window a request is allowed on its own side of T, InsideTransitionWindow at T, ActivationPhaseChanged beyond, always allowed where no change is scheduled, and refused field by field once the mint is rewritten |
| Replay.PairTally.Classify | scripts/m11b/market-replay.ts:414-452 | the four-way classification of one pair moves exactly the counters its outcome names, and records its note while fewer than ten are kept |
| Replay.PairTally.Count | scripts/m11b/market-replay.ts:411-452 | one evaluated pair adds its whole contribution, verdict histogram included, to a tally |
| Replay.EvaluatePair | scripts/m11b/market-replay.ts:389-453 | both tallies of a pair stay the total of the pairs they have seen, refused authorizations included |
| Replay.ChainReplay.TallyFor | scripts/m11b/market-replay.ts:235 | the tally of a lag and window is created on first use and found again afterwards |
| Replay.ChainReplay.Observe | scripts/m11b/market-replay.ts:305-341 | one verifiable record is appended to its mint's history and paired with every lag that reaches back far enough |
| Replay.ChainReplay.Replay | scripts/m11b/market-replay.ts:212-387 | after any records the history, the totals and every lag/window tally are those of exactly the pairs the records define |
| ReplayTheorems.TotalsAreTheSum | scripts/m11b/market-replay.ts:334-341 | every numeric field and the verdict histogram of the totals is the sum over the lag/window tallies |
| ReplayTheorems.Identities | scripts/m11b/market-replay.ts:414-452 | evaluations = allows + blocks = histogram size = stale + in-window + expected allows; stale = stale blocked + unexpected allows; findings = notes |
| ReplayTheorems.EveryPairOnce | scripts/m11b/market-replay.ts:334-341 | evaluations + refused at build = 3 times the sum over mints and lags of max(0, n - lag) |
| ReplayPairs.PairsExactly | scripts/m11b/market-replay.ts:305-341 | a pair is replayed iff it joins two verifiable records of one mint that stand exactly the lag apart among that mint's verifiable records, at one of the six lags and under one of the three windows, each with the phase of its own time |
| ReplayPairs.TotalsCount | scripts/m11b/market-replay.ts:389-453 | each of the thirteen counters and the verdict histogram is the number of replayed pairs of which a condition holds that names states, times, multipliers in effect and the policy's answers, and no helper of the replay |
| ReplayPairs.OnePairNotes | scripts/m11b/market-replay.ts:414-452 | a pair leaves a note iff the policy's answer is wrong, of the kind it is wrong in |
| ReplayTheorems.ZeroFindingsExactly | scripts/m11b/market-replay.ts:389-453 | for any policy the four finding counters are all zero iff the policy meets the economic classification on every pair |
| ReplayTheorems.SpecMeetsEconomicsExactly | scripts/m11b/market-replay.ts:402-452 | without the refusal at build time the specification meets the economics exactly when the stored state moved or the window bounds stay in i64 |
| ReplayTheorems.ReplayFindsNothing | scripts/m11b/market-replay.ts:389-453 | with the specification as guard all four finding counters end at zero for every capture |
| ReplayTheorems.ClockBlindPolicyIsCaught | scripts/m11b/market-replay.ts:203-212 | a policy that allows one stale pair leaves a finding, so the zeros are not vacuous |
| Activation.BuildAndSign | apps/phantom-local-feasibility/src/activation-proof.ts:101-122 | up to the signature each answer is used in order, a refusal names the check that failed, and nothing is submitted |
| Activation.ObtainReceipt | apps/phantom-local-feasibility/src/activation-proof.ts:124-142 | the signing clock is on the leg's side of T and the receipt is for the bytes and message that were simulated, whatever the wallet made of the array it returned |
| Activation.AwaitActivation | apps/phantom-local-feasibility/src/activation-proof.ts:143-154 | at most 240 polls, each after a pause, ending with a clock after T or a refusal |
| Activation.SubmitHeld | apps/phantom-local-feasibility/src/activation-proof.ts:155-174 | submission needs a live blockhash, the same deployment digest and bytes equal to the wallet's return; it happens at most once and last |
| Activation.ExecuteAcrossActivation | apps/phantom-local-feasibility/src/activation-proof.ts:101-182 | for every adversarial clock, wallet, coordinator and validator: one signature, at most one submission, of the wallet's own bytes, with signing clock < T < submission clock on the stale leg; the outcome is the submitter's answer to those bytes, and the equality reported afterwards says whether it left them alone; every refusal is justified by the one dependency asked or check made at that point |
| LocalActivation.SubmittedCarriesTheRequest | apps/phantom-local-feasibility/src/local-activation.ts:77-134 | with the concrete closures the submitted wire holds the simulated message, and that message shows the program a guarded trade built around the captured state, the leg's phase and a zero window |
| LocalActivation.CarriedIsThePolicy | packages/jupiter/src/compose.ts:349-373 | a wire whose message resolves to the built trade is answered by the policy on the request it was built from |
| LocalActivation.StaleLegIsRefused | apps/phantom-local-feasibility/src/local-activation.ts:77-134 | the program allows the wire when it is simulated and when it is signed, answers exactly ActivationPhaseChanged at every time from submission on while the mint is unchanged, and never allows the held guard data from then on, whatever the mint, the accounts and the transaction around it |
| LocalActivation.RefreshedLegIsAccepted | apps/phantom-local-feasibility/src/local-activation.ts:77-134 | the refreshed leg is built at or after T, and on an unchanged mint the program allows its wire iff it executes after T or no change is scheduled |
| LocalActivation.SubmittedAtActivation | apps/phantom-local-feasibility/src/local-activation.ts:114-133 | the submission reads the mint once more: still the captured state, at or after the activation, and sends the wire verbatim |
| LocalActivation.RunLocalActivation | apps/phantom-local-feasibility/src/local-activation.ts:71-134 | a completed run submitted a wire to which the program's answer is known for every mint state and every time, over an unchanged mint read at or after T, simulated and signed before T and submitted after it on the stale leg, built at or after T on the refreshed one |
| Digits.RecodeRoundTrip | scripts/fixtures/solana_encoding.py:24-38 | changing base and back, leading zeros kept one for one, is the identity on all digit sequences |
| Base58.B58 | scripts/fixtures/solana_encoding.py:24-30 | repeated division writes the base58 text of the bytes, one 1 per leading zero byte |
| Base58.Unb58 | scripts/fixtures/solana_encoding.py:33-38 | the text is read back, or refused when a character is not in the alphabet |
| Base58.B58d | scripts/evidence/build-final-demo.ts:61-72 | the shifting decoder computes the same function as the reference decoder |
| Base58.Bs58Decode | scripts/research/suffix-grammar.ts:205-221 | the decoder through hexadecimal text gives the same bytes, with one zero byte more when the number is zero |
| Base58.DecodeOfEncode | scripts/fixtures/solana_encoding.py:24-38 | every byte string survives encode then decode |
| Base58.EncodeOfDecode | scripts/fixtures/solana_encoding.py:24-38 | every text over the alphabet survives decode then encode |
| Base58.HexDecoderAgreesExactly | scripts/research/suffix-grammar.ts:205-221 | the two decoders agree iff some character is not 1 |
| Base58.OnesAreZeros | scripts/research/suffix-grammar.ts:205-221 | an address of n 1s is n zero bytes to the reference decoder and n + 1 to the one through hexadecimal text |
| Commitment.EveryKeyHasItsAddress | scripts/fixtures/solana_encoding.py:24-38 | every 32-byte key is what its address decodes to, so the encoders' addresses stand for all keys |
| Commitment.InstructionIsSelfDelimiting | scripts/fixtures/solana_encoding.py:120-129 | an encoded instruction parses back to itself and leaves exactly what follows it |
| Commitment.AllAreSelfDelimiting | scripts/fixtures/solana_encoding.py:137-140 | so does any counted list of instructions |
| Commitment.DownstreamInjective | scripts/fixtures/solana_encoding.py:132-134 | equal kind 1 preimages come from equal instructions |
| Commitment.SuffixInjective | scripts/fixtures/solana_encoding.py:137-140 | equal kind 2 and 3 preimages come from equal suffixes |
| Commitment.DomainsNeverMeet | scripts/fixtures/solana_encoding.py:116-140 | no kind 1 preimage is a kind 2 or 3 preimage |
| Commitment.CommitmentsBind | programs/equity_guard/src/downstream.rs:70-92 | two digests of the same kind agree iff the instructions, or suffixes, are equal or their two preimages collide; digests of different kinds agree iff their two preimages collide |
| Layouts.InstructionLies | programs/equity_guard/src/downstream.rs:70-92 | the offset of every field of an encoded instruction: program, count, 34 bytes an account with its two flags, length, data |
| Layouts.PreimagesLie | scripts/fixtures/solana_encoding.py:132-140 | the two domains as text, the instruction count of a suffix and the encodings behind them, by offset |
| Encoders.JoinParts | packages/guard-client/src/downstream.ts:55-69 | the parts land one after another in one array of exactly their total size |
| Encoders.EncodeOne | scripts/fixtures/solana_encoding.py:120-129 | the growing buffer is the specified encoding, refused exactly when an address does not decode or a length does not fit u32 |
| Encoders.SuffixCommitmentPreimage | scripts/research/suffix-grammar.ts:181-200 | the pushed parts join to the suffix preimage over the hexadecimal decoder's key bytes |
| Encoders.EncodersAgreeExactly | scripts/research/suffix-grammar.ts:181-221 | the research preimage equals the reference preimage iff no address of the suffix is all 1s |
| Encoders.SetupSplitsTheEncoders | scripts/research/suffix-grammar.ts:181-221 | a suffix naming the system program, as every setup instruction does, gives the two encoders different preimages |
| SysvarView.SysvarViewOf | scripts/fixtures/solana_encoding.py:89-111 | two growing sets and a rewrite compute the transaction-level view |
| SysvarView.FlagsOf | packages/guard-client/src/downstream.ts:84-95 | scanning the transaction for one address finds its merged signer and writable flags |
| SysvarView.ViewShows | scripts/fixtures/solana_encoding.py:89-111 | programs, addresses and bytes stay, and an account is shown a signer or writable iff some instruction asks it or it is the fee payer |
| SysvarView.AsCommitted | packages/guard-client/src/downstream.ts:83-101 | the client's committed instruction is the entry the sysvar will hold |
| SysvarView.SeenAlike | scripts/fixtures/solana_encoding.py:89-111 | flags depend only on which non-empty account lists occur: not on programs, data, order or repetition |
| SysvarView.GuardDataIsUnseen | scripts/fixtures/generate_guard_conformance.py:752-784 | the suffix, hence its digest, seen beside a zero-commitment placeholder at index 0 is the one seen beside the final guard wherever that is inserted |
| SysvarView.AccountlessPrefixIsUnseen | scripts/fixtures/solana_encoding.py:89-111 | instructions without accounts in front change nothing in the view behind them |
| SysvarView.ViewIsIdempotent | scripts/fixtures/solana_encoding.py:89-111 | viewing a view changes nothing |
| Abi.ValidIsAnInterval | scripts/fixtures/generate_guard_fuzz.py:78-96 | positive normal doubles are exactly the patterns from 0x0010000000000000 to 0x7FEFFFFFFFFFFFFF |
| Abi.PackV2 | scripts/m11b/differential.ts:317-331 | ten writes at fixed offsets into a zeroed buffer give the documented layout |
| Abi.Unpack | programs/equity_guard/src/instruction.rs:111-160 | the sequential reader computes the offset-based decode outcome, errors in the same order |
| Abi.DecodeOfPacked | scripts/m11b/differential.ts:317-331 | the exact outcome of decoding any packed fields: the error, or every field with its number wrapped to its width |
| Abi.DecodesExactly | scripts/fixtures/generate_guard_fuzz.py:160-176 | a payload decodes iff it has 99 bytes, version 2, two multipliers in that interval, phase at most 1 and adapter 1 to 3 |
| Abi.PackOfDecode | programs/equity_guard/src/instruction.rs:163-188 | packing what was unpacked gives back the payload |
| Abi.ClientToProgram | packages/guard-client/src/abi.ts:120-158 | whatever the client encoder accepts the program reads back field for field |
| Abi.DemoReaderAgrees | scripts/evidence/build-final-demo.ts:139-159 | the demo's reader agrees with the program on every accepted payload and reads packed fields at the same offsets |
| Bytes.LittleEndian | scripts/m11b/differential.ts:316-331 | byte i of an encoded number is its digit of weight 256 to the i |
| Mint.ReadTlvEntries | packages/guard-client/src/mint-state.ts:149-177 | the loop is the strict walk: unknown, truncated, overrunning and repeated entries are refused |
| Mint.TlvValueOffset | scripts/m11b/differential.ts:129-140 | the lookup terminates with the first entry of the type, headers taken at their word |
| Mint.ScaledUiValueOffset | scripts/fixtures/generate_guard_fuzz.py:396-406 | so does the fixture generator's lookup, for the scaled amount |
| Mint.LookupAgrees | scripts/fixtures/generate_guard_fuzz.py:396-406 | wherever the strict walk is content the lookups find the same value offset, or none |
| Mint.DecodesExactly | packages/guard-client/src/mint-state.ts:50-76 | a mint decodes iff it has a sound header and walk, a 56-byte config, no forbidden combination and two valid multipliers |
| MintBytes.WalkExactly | packages/guard-client/src/mint-state.ts:149-177 | the walk returns a list iff its entries stand end to end in the account's own bytes with kinds 1 to 28, none twice and none seen before, up to a zero kind or less than two bytes |
| MintBytes.CombinationsExactly | packages/guard-client/src/mint-state.ts:179-196 | which extension kinds may stand together, as implications between kinds |
| MintBytes.MintRefusedInOrder | packages/guard-client/src/mint-state.ts:50-144 | for every account whose entries are laid out, the first of seven conditions on its bytes names the refusal, and otherwise the state is the three numbers at their offsets |
| MintBytes.UnlaidIsRefused | packages/guard-client/src/mint-state.ts:149-177 | an account that lays out no list of entries is never read |
| Mint.EntriesApart | packages/guard-client/src/mint-state.ts:149-177 | two entries of a walk never overlap |
| Mint.EditedDecodes | scripts/m11b/differential.ts:290-302 | an edit inside the config value keeps the walk, and the mint decodes to what the value now says |
| Mint.EditedElsewhere | scripts/m11b/differential.ts:402-405 | an edit inside another entry's value leaves the decoded state as it was |
| Mint.WriteEconomic | scripts/m11b/differential.ts:290-302 | three writes inside the value; reading back gives the written state with t wrapped to i64, and nothing else changes |
| Mint.DeriveLocalMint | apps/phantom-local-feasibility/server/local-mint.ts:5-21 | the source array is untouched; in the copy only 32 authority bytes and 8 timestamp bytes may differ, and it decodes to the old state with the new time; it succeeds iff the source decodes |
| Mint.AppendedCorruption | scripts/m11b/differential.ts:492-505 | a repeated or unknown entry after a full area makes the mint unreadable |
| Mint.AppendedInterest | scripts/m11b/differential.ts:508-517 | an appended interest-bearing config makes the combination forbidden |
| BuiltMint.WalkReadsTlvs | scripts/fixtures/generate_guard_fuzz.py:364-365 | an extension area written entry by entry, with known kinds and none twice, is read back as exactly those entries, to its end |
| BuiltMint.BuiltMintDecodes | scripts/fixtures/generate_guard_fuzz.py:368-390 | the mint built around a scaled config decodes to the two multipliers and time put in, or is refused when a multiplier is not positive normal |
| Grammar.CheckSemanticBinding | scripts/research/route-v2.ts:180-203 | the pushed failures are the specified list |
| Grammar.CheckSetup | scripts/research/suffix-grammar.ts:77-92 | the setup failures are the specified list |
| Grammar.CheckMiddle | scripts/research/suffix-grammar.ts:130-157 | one pass with three counters reports the failures of everything between guard and trade |
| Grammar.CheckTransactionGrammar | scripts/research/suffix-grammar.ts:101-170 | early returns and the full pass report the specified failures in order |
| Grammar.BoundExactly | scripts/research/route-v2.ts:180-203 | no semantic failure iff the instruction is the declared trade |
| Grammar.MiddleClean | scripts/research/suffix-grammar.ts:130-157 | no failure in the middle iff it is an arrangement of at most one price, one limit and one setup for the trade |
| Grammar.AcceptedExactly | scripts/research/suffix-grammar.ts:101-170 | no failure at all iff the transaction is in the declared language: a guard, then at most one nine-byte price, one five-byte limit and one setup whose accounts 1 to 5 are trade accounts 2, 0, 4, the system program and account 6, then the declared trade, whose accounts 1 and 2 are the canonical ones of accounts 0, 3, 5 and 0, 4, 6 |
| GrammarReports.ReportedExactly | scripts/research/suffix-grammar.ts:101-170 | each of the 26 failures is reported iff what it names is the case, said of the instructions' own accounts and bytes: which account differs, which instruction repeats which, which address is not canonical |
| GrammarReports.UnreadableReports | scripts/research/route-v2.ts:180-186 | of an instruction that is no decodable trade only that is reported, by its program |
| GrammarReports.RouteRebuildsTheTrade | scripts/research/route-v2.ts:98-135 | the decoded route loses nothing: the instruction data is rebuilt from its fields, and its keys are the first eight accounts in order |
| Grammar.AtMostFive | scripts/research/suffix-grammar.ts:101-170 | an accepted transaction has two to five instructions |
| Grammar.InsertionsAreRejected | scripts/research/suffix-grammar.ts:101-170 | nothing can be appended to an accepted transaction, and nothing but a budget or setup instruction inserted after its guard, whatever trade is then declared |
| Grammar.RoundsUpExactly | scripts/research/route-v2.ts:142-145 | the minimum output is the ceiling iff the numerator is not negative or divides, which slippage up to 100% guarantees; otherwise it is one above the ceiling |
| WalletPrefix.SameBytes | apps/devnet-wallet-demo/src/live-execution.ts:187-192 | the byte loop decides equality, absence included |
| WalletPrefix.SameInstruction | apps/devnet-wallet-demo/src/live-execution.ts:194-202 | same program, data and accounts, an absent account list being an empty one |
| WalletPrefix.VerifyWalletSigned | apps/devnet-wallet-demo/src/live-execution.ts:209-246 | the outcome is the first that applies of six refusals (version, signer or lifetime, shape, prefix, changed instruction, signature) or acceptance, which gives the signature's text and the guard's index |
| WalletPrefix.AcceptsExactly | apps/devnet-wallet-demo/src/live-execution.ts:209-246 | acceptance, said of the messages: legacy, the one signer and lifetime, every unsigned instruction unchanged at the end, at most one five-byte limit and one nine-byte price without accounts before them, a first signature with a non-zero byte |
| WalletPrefix.DistinctTagsBoundThePrefix | apps/devnet-wallet-demo/src/live-execution.ts:224-230 | the length test repeats what distinct tags already force |
| WalletPrefix.AcceptedMeansUnchanged | apps/devnet-wallet-demo/src/live-execution.ts:209-246 | behind an accepted prefix the transaction-level view of every unsigned instruction is unchanged |
| OnChain.ProgramGrammarExactly | programs/equity_guard/src/jupiter.rs:356-412 | the program accepts a suffix iff the host grammar accepts it behind any guard, for the trade it declares itself, and the narrower demands hold: the order price, limit, setup, no budget accounts, the two fixed programs, a plausible route without a second fee, and the token program of each side |
| OnChain.TransferAllowedExactly | programs/equity_guard/src/downstream.rs:142-193 | kind 1 passes iff the next instruction is a ten-byte Token-2022 TransferChecked whose second of at least four accounts is the mint, and its digest is the commitment |
| OnChain.SuffixAllowedExactly | programs/equity_guard/src/jupiter.rs:356-542 | kinds 2 and 3 pass iff the suffix is a price, a limit, at most the setup of the trade's destination and a trade, told by account index and data offset: mint and USDC, Token-2022 and the legacy program on their sides, amounts, slippage, fees, canonical accounts |
| ProcessorOrder.ExecuteRefusesInOrder | programs/equity_guard/src/processor.rs:33-68 | the processor's answer is its first failing check: payload, accounts, mint, sysvar, mint data, position, action, clock, policy |
| ProcessorOrder.TransferRefusedInOrder | programs/equity_guard/src/downstream.rs:142-193 | every refusal of kind 1 and the condition that yields it, in order |
| ProcessorOrder.SuffixRefusedInOrder | programs/equity_guard/src/jupiter.rs:356-412 | every refusal of a suffix and its condition, in order |
| ProcessorOrder.RouteRefusedInOrder | programs/equity_guard/src/jupiter.rs:440-515 | every refusal of the trade in it, said of its own accounts and bytes, in order |
| ProcessorOrder.CommittedSuffixRefusedInOrder | programs/equity_guard/src/jupiter.rs:323-352 | the guard's place, the suffix, the widths and the digest, in order |
| OnChain.AllowedIsCommitted | programs/equity_guard/src/processor.rs:33-68 | an allowed transaction of kind 1 has a Token-2022 TransferChecked of the account's own mint next, one of kinds 2 and 3 a guard first and a whole trade suffix of that mint behind it; and they are exactly the committed next instruction, or the whole committed suffix, unless two preimages collide |
| OnChain.DeadRequestIsNeverAllowed | programs/equity_guard/src/processor.rs:33-68 | a request the policy refuses in every mint state is never allowed, whatever the accounts and the transaction around it |
| OnChain.OnlyThePolicyIsLeft | programs/equity_guard/src/processor.rs:33-68 | once payload, accounts and next action are in order the processor's verdict is the policy's |
| OnChain.BuildsExactly | packages/guard-client/src/downstream.ts:159-175 | the builder succeeds iff the transfer is a supported one of that mint and the client encoder accepts the expectation |
| OnChain.BuiltTransferExecutesThePolicy | packages/guard-client/src/downstream.ts:159-175 | a transfer guarded by the client's builder, shown with its transaction-level flags, is decided on chain by the policy alone, behind any instructions without accounts |
| OnChain.SignedTransferExecutesThePolicy | apps/devnet-wallet-demo/src/live-execution.ts:209-246 | so is anything the wallet check accepts for it: build, sign, prefix, recompute, for every mint state and time |
| JupiterTrade.BuildsTradeExactly | packages/guard-client/src/jupiter.ts:379-415 | the re-check after the guard is rebuilt never fails: the builder succeeds iff the kind is a Jupiter kind, the encoder accepts the expectation and the program's own rules accept the suffix as shown, and its guard carries the digest of the finished transaction's suffix |
| JupiterTrade.BuiltTradeExecutesThePolicy | packages/guard-client/src/jupiter.ts:379-415 | a built trade is decided on chain by the policy alone, for every account state and time |
| Coordinator.PayloadExactly | apps/phantom-local-feasibility/server/attestation.ts:297-319 | among all payloads the program decodes, the payload rules accept exactly the Jupiter kinds for the protected mint and the armed activation |
| Coordinator.AdmittedExactly | apps/phantom-local-feasibility/server/attestation.ts:243-340 | a wire is admitted iff it opens to a one-signer v0 message over the guard, two budgets and Jupiter last, with a version 2 payload for the mint, the activation and a Jupiter kind; what is kept is the digests of wire and message, the length, the signature, and what the message and the payload bytes say |
| Coordinator.TradeRefusedInOrder | apps/phantom-local-feasibility/server/attestation.ts:243-319 | every refusal of a wire and its condition, in order |
| Coordinator.ProgramsRefusedInOrder | apps/phantom-local-feasibility/server/attestation.ts:279-296 | those of its programs: unresolved, their number, guard first, Jupiter last, the two budgets |
| Coordinator.PayloadRefusedInOrder | apps/phantom-local-feasibility/server/attestation.ts:297-319 | and those of its guard payload: length, version and kind, mint, activation, phase |
| Coordinator.SimulationRefusedInOrder | apps/phantom-local-feasibility/server/attestation.ts:448-478 | a failed simulation, then a missing success line, refuse and store nothing; otherwise one record is stored under the next id |
| Coordinator.AuthorizationRefusedInOrder | apps/phantom-local-feasibility/server/attestation.ts:486-518 | every refusal of an authorization before its clock and its condition, in order |
| Coordinator.RecordedIsWhatTheProgramDecodes | apps/phantom-local-feasibility/server/attestation.ts:297-340 | mint, kind, phase and activation recorded of a trade are those the program reads from its guard, which it can decode iff both multipliers are positive normal |
| Coordinator.TimingThrowsExactlyUnchecked | apps/phantom-local-feasibility/server/attestation.ts:154-161 | the timing record throws exactly where the clock check has refused, which names the side the clock is on |
| Coordinator.CoordinatorAttestations.NewProofId | apps/phantom-local-feasibility/server/attestation.ts:418-421 | one increment, one id |
| Coordinator.CoordinatorAttestations.ResumeSimulation | apps/phantom-local-feasibility/server/attestation.ts:448-475 | a refusal stores nothing; a record is stored under its own new id with the clock, shape and programs it attests |
| Coordinator.CoordinatorAttestations.StartAuthorization | apps/phantom-local-feasibility/server/attestation.ts:486-517 | before the await: known proof, same activation, no authorization yet, the simulated message, a signature that verifies |
| Coordinator.CoordinatorAttestations.ResumeAuthorization | apps/phantom-local-feasibility/server/attestation.ts:520-543 | after the await: stored iff the clock is on the phase's side, without looking at the store again |
| CoordinatorRuns.ActivationServer.BeginArm | apps/phantom-local-feasibility/server/activation-server.ts:122-124 | arming is the flag step every run takes: refused once armed or arming, and the flag never falls |
| CoordinatorRuns.ActivationServer.HandleArm | apps/phantom-local-feasibility/server/activation-server.ts:120-158 | a refused call leaves both flags, a failed one leaves the server arming for good, a confirmed one arms it with the confirmed time |
| CoordinatorRuns.ActivationServer.HandleSimulation | apps/phantom-local-feasibility/server/activation-server.ts:261-269 | a simulation request up to its first await is the step every run takes |
| CoordinatorRuns.ActivationServer.HandleAuthorization | apps/phantom-local-feasibility/server/activation-server.ts:272-279 | a request up to its first await is the step every run takes: nothing before the server is armed, then the coordinator's own checks against the armed localT |
| CoordinatorRuns.EveryRun | apps/phantom-local-feasibility/server/attestation.ts:432-543 | over every interleaving: each record is of a wire a call of the run presented that decodes as a protected trade of the armed activation; each authorization holds a verified signature, has a simulation with its proof id, localT and message hash begun by an earlier call, and the two are of one message and one phase with both clocks < localT if PENDING and both >= localT if ACTIVATED, unless these two messages collide; no simulation is lost or replaced, localT never changes |
| CoordinatorRuns.SimulationsAreOfTheirCall | apps/phantom-local-feasibility/server/attestation.ts:432-480 | of every stored simulation in any run, read off the wire it was begun with: the digests of that wire and of its message, its length, fee payer, programs, mint, kind, phase and activation; its clock and its logs, units and slot are what the actions read for that very call, in that order, and the logs show all three success lines |
| CoordinatorRuns.AuthorizationsAreOfTheirSimulation | apps/phantom-local-feasibility/server/attestation.ts:432-543 | of every stored authorization: the five actions behind it in the order they happened; both records hold the digests and lengths of the two wires those actions presented, the signature is the one inside the signed wire and verifies for its fee payer, both clocks are the ones read for these calls, and the two are of one message and one phase on its side of the activation unless the two messages collide |
| CoordinatorRuns.DefaultIdsAreInjective | apps/phantom-local-feasibility/server/attestation.ts:418-421 | the default ids are pairwise different, so that holds for them |
| CoordinatorRuns.FailedArmingIsFinal | apps/phantom-local-feasibility/server/activation-server.ts:122-157 | a failed arming call leaves the server unarmed for good |
| CoordinatorRuns.SerializedRunsNeverReplace | apps/phantom-local-feasibility/server/attestation.ts:497-541 | when calls for one proof never overlap, its first authorization is its only one |
| CoordinatorRuns.ImmutableExactly | apps/phantom-local-feasibility/server/attestation.ts:497-541 | from any reachable state, all continuations whose calls wait for one another keep every authorization iff no two calls for a proof are in flight and none for a proof already authorized |
| CoordinatorRuns.ReplacedExactly | apps/phantom-local-feasibility/server/attestation.ts:520-541 | after any run the next step replaces an authorization iff it is the clock, on the right side, of a call in flight for that proof and the clock or the signed wire differs from the recorded one |
| CoordinatorRuns.OverlapReplaces | apps/phantom-local-feasibility/server/attestation.ts:497-541 | two overlapping calls for one proof replace each other's record |
| CoordinatorRuns.ActivationMismatchNeverHappens | apps/phantom-local-feasibility/server/attestation.ts:494-496 | on a server no call is refused for naming another activation |
| AttestationLimits.EveryHonestProofCanBeReplaced | apps/phantom-local-feasibility/server/attestation.ts:497-541 | for every message the coordinator would attest, a concrete run submitting its signed bytes twice at once replaces the authorization |
| AttestationLimits.PhasesAgreeExactly | apps/phantom-local-feasibility/server/attestation.ts:486-543 | over all runs an authorization is of its simulation's phase iff no two attestable trades of different phases have colliding messages |
| AttestedTrades.AllowedTradesAreAdmitted | apps/phantom-local-feasibility/server/attestation.ts:243-340 | every single-signer v0 trade of its mint and activation that the program allows over any accounts at any time passes the coordinator's wire rules, which read from it the mint, kind, phase and activation the program decoded |
| AttestedTrades.StoredAuthorizationsDieAtActivation | apps/phantom-local-feasibility/server/attestation.ts:486-543 | over every run, the guard data inside the wire of a stored authorization, signed for a scheduled change, is never allowed off the side its record names: PENDING not from localT on, ACTIVATED not up to it, whatever the mint, the accounts and the transaction around it |
| Devnet.DecisionsRunInOrder | apps/devnet-wallet-demo/src/transactions.ts:81-112 | along a nondecreasing clock the decisions run wait, sign, missed; wait, ready; false, true; each cut exactly at T - 35, T or T + 1 |
| Devnet.SignableExactly | apps/devnet-wallet-demo/src/transactions.ts:81-92 | signing is decided iff the scheduled state is stored, pending, and the clock within 35 seconds before T |
| Devnet.StaleExactly | apps/devnet-wallet-demo/src/transactions.ts:108-112 | the chain is ready for the stale submission iff the bytes were signed for exactly its state, pending under a zero window, and its clock has passed T |
| Devnet.OtherBytesAreMismatched | apps/devnet-wallet-demo/src/transactions.ts:70-106 | bytes other than the scheduled ones are never signable nor reviewable |
| Devnet.SameSignedBytes | apps/devnet-wallet-demo/src/live-execution.ts:514-521 | length, digest and byte loop accept exactly the sealed bytes |
| Devnet.PrepareHeldSubmission | apps/devnet-wallet-demo/src/live-execution.ts:562-567 | the prepared bytes equal the held ones and match the sealed digest; expiry and any change refuse |
| Devnet.SignPending | apps/devnet-wallet-demo/src/live-execution.ts:578-663 | an authorization is sealed iff three reads show the scheduled pending state before T, the first two within 35 seconds of it, the blockhash lives, the transfer builds and the wallet's signature is accepted; it holds the wallet's bytes |
| Devnet.WaitForActivation | apps/devnet-wallet-demo/src/app.ts:330-346 | at most 90 reads, stopping at the first expiry or readiness |
| Devnet.CarriedIsThePolicy | apps/devnet-wallet-demo/src/transactions.ts:122-158 | build, wallet and program together: an accepted wire is answered by the policy on the request it was built from, for every mint account and time |
| Devnet.StaleAttempt | apps/devnet-wallet-demo/src/live-execution.ts:578-673 | what is sent is what the wallet returned, unexpired, sealed before T and sent after it; the program's answer to those bytes is known for every mint state and time: allowed before T, refused at it, ActivationPhaseChanged after it, and field by field once the mint is rewritten; nothing is signed iff signing was not due; the send follows the first ready read, expiry names the read that showed it, a timeout means none did |
| Generator.WeightsSumTo1000 | scripts/m11b/differential.ts:97 | the weights fill the drawn range, so the fallback category is unreachable |
| Generator.Generator.ValidMultiplierBits | scripts/m11b/differential.ts:189-206 | always positive normal, and by the draw near the smallest, near the largest, anywhere, or one of the given constants |
| Generator.ValidDrawsExactly | scripts/m11b/differential.ts:189-206 | the multipliers that can be drawn are exactly the positive normal patterns |
| Generator.Generator.OtherMultiplier | scripts/m11b/differential.ts:209-216 | the first acceptable candidate the stream offers and the stream right behind it, within a number of tries; none iff none of those is acceptable |
| Generator.Generator.InvalidMultiplierBits | scripts/m11b/differential.ts:218-235 | never positive normal, and determined by the stream |
| Generator.InvalidsByDraw | scripts/m11b/differential.ts:218-235 | by the draw a zero, a quiet NaN, an odd negative NaN, an infinity, a subnormal or a negated constant |
| Generator.Generator.Timestamp | scripts/m11b/differential.ts:237-242 | always an i64: by the draw an observed time, a second of a stretch of years, or an extreme; two values of the stream |
| Generator.TimestampsExactly | scripts/m11b/differential.ts:237-242 | a time can be drawn iff it is one of those listed or in the stretch |
| Generator.Generator.Window | scripts/m11b/differential.ts:244-263 | the window each draw stands for, and how much of the stream it takes |
| Generator.WindowsExactly | scripts/m11b/differential.ts:244-263 | a window can be drawn iff both bounds are below the largest u32 or it is one of three extremes |
| Generator.Generator.ClockNear | scripts/m11b/differential.ts:265-286 | always an i64: by the draw on and around the window's bounds and T, within 2,000,000 seconds of T, in a stretch of real time, or far away, and T itself where that is no i64; two values of the stream |
| Generator.ClocksExactly | scripts/m11b/differential.ts:265-286 | for every activation and window a clock can be drawn iff it is one of the sixteen named times, within 2,000,000 seconds of T, or in the stretch of real time |
| Generator.Generator.PickCategory | scripts/m11b/differential.ts:351-359 | the category whose cumulative stretch holds the draw |
| GuardCases.PackedVerdict | scripts/m11b/differential.ts:554-561 | the verdict on the fields is the verdict on what is read back from the packed bytes, even when t wraps |
| GuardCases.AlterRequest | scripts/m11b/differential.ts:400-428 | each stale category changes its own field of the honest request and nothing else, to another value, and keeps the request well formed |
| GuardCases.BreakMint | scripts/m11b/differential.ts:429-526 | each broken account is refused by the decoder with the category's error |
| GuardCases.EditPayload | scripts/m11b/differential.ts:453-475 | an edited payload is refused with the category's error |
| GuardCases.PlansAreLabelled | scripts/m11b/differential.ts:538-575 | whatever stage a case is meant to stop at, the expectation written on it is the processor's outcome |
| GuardCases.GenerateCase | scripts/m11b/differential.ts:361-575 | for every stream every generated case is the one the stream gives: of the category whose stretch of the weights holds the first draw, over the fixture, state, window and clock the next ones give, changed as that category says and in nothing else; it carries the program's own verdict, stale categories exactly their own error, and sizes that fit the record; no case only where this very call found no other multiplier in the allowed tries, for one it had drawn or its mint held, at the place in the stream it had come to |
| GuardCases.OpenCase | scripts/m11b/differential.ts:361-382 | fixture, state, window and clock are those of the stream, and the state is written into the copy of the fixture |
| GuardCases.CloseCase | scripts/m11b/differential.ts:383-575 | from these the honest request, what the category makes of request, account, commitment or payload, and the expectation it carries |
| GuardCases.EveryCategoryIsDrawn | scripts/m11b/differential.ts:351-359 | each of the 24 categories is drawn by some stream |
| GuardCases.TransferReads | scripts/m11b/guard-cases.ts:199-215 | the transfer of a case reads back: amount, decimals, and who signs and is written |
| ReplayCases.CaseIsThePair | scripts/m11b/market-replay.ts:631-683 | the processor's verdict on a replay case is the policy's verdict on the pair |
| ReplayCases.CaseIsLabelled | scripts/m11b/market-replay.ts:631-683 | its economic label, stale, in-window or allowed, is the program's outcome |
| ReplayCases.CaseShows | scripts/m11b/market-replay.ts:631-683 | every field of a case: the later account and time, a payload that reads back to the earlier state and phase under the window, the commitment to one transfer of a million units, the economic label |
| ReplayCases.ReplayCases | scripts/m11b/market-replay.ts:631-683 | the four nested loops yield the specified sequence, over every mint, numbered in order, the lag as category |
| ReplayCases.CasesExactly | scripts/m11b/market-replay.ts:631-683 | that sequence holds the case of every buildable pair at the two lags and two windows and no other case |
| ReplayCases.EveryCaseIsLabelled | scripts/m11b/market-replay.ts:631-683 | every case of it carries the program's own outcome |
| CaseRecord.Writer.Finish | scripts/m11b/guard-cases.ts:137-145 | the chunks land in one array of the recorded length |
| CaseRecord.EncodeCase | scripts/m11b/guard-cases.ts:152-177 | the writer produces the documented record, refused exactly on the three checked lengths or a bad key |
| CaseRecord.SurvivesExactly | scripts/m11b/guard-cases.ts:13-21 | a case is read back as it was iff every number fits its width, account counts and data lengths included |
| Layouts.RecordLies | scripts/m11b/guard-cases.ts:13-21 | the offset of every field of a record |
| Layouts.InstructionRecordLies | scripts/m11b/guard-cases.ts:13-21 | and of every field of an instruction in it |
| CaseRecord.StreamRoundTrip | programs/equity_guard/examples/m11b_differential.rs:91-156 | any concatenation of fitting records parses back to exactly that list |
| Wire.CompactU16 | scripts/evidence/build-final-demo.ts:73 | the do-while loop writes the compact form |
| Wire.Cu16Exactly | scripts/evidence/build-final-demo.ts:73 | a compact-u16 reader recovers n iff n < 65536, from at most three bytes |
| Wire.WireFromJson | scripts/evidence/build-final-demo.ts:85-103 | the parts join to the wire layout; refused iff a text is not base58 or a key not 32 bytes |
| Wire.WireRoundTrip | scripts/evidence/build-final-demo.ts:85-103 | the wire is self-delimiting and reads back to the same signatures, header, keys, instructions and lookups |
| Wire.MessageAfter65 | scripts/evidence/build-final-demo.ts:85-103 | with one signature the message is the wire after 65 bytes |
| Layouts.MessageLies | scripts/evidence/build-final-demo.ts:85-103 | the offsets of version, header counts, every key and the blockhash |
| Layouts.CompiledLies | scripts/evidence/build-final-demo.ts:85-103 | and of a compiled instruction's program index, account indexes and data |
| Layouts.CountLies | scripts/evidence/build-final-demo.ts:73 | the bytes of every count below 65536, low seven bits first |
| Wire.Resolve | scripts/research/decode-build.ts:155-179 | three loops push the runtime account list in order |
| Wire.LookupsLoadInOrder | scripts/research/decode-build.ts:155-179 | one more lookup adds the addresses its own table has at its own indexes, in their order, behind those before |
| Wire.FlagsAgreeExactly | scripts/evidence/build-final-demo.ts:106-117 | both tools give every index the same key and flags iff the signer count stays within the static accounts or nothing is loaded |
| DemoDigest.SuffixCommitment | scripts/evidence/build-final-demo.ts:119-137 | the pushed parts hash to the digest of the resolved suffix, refused iff a key, a text or a length is not encodable |
| DemoDigest.ResolvedIsTheViewExactly | scripts/evidence/build-final-demo.ts:106-137 | resolving the compiled indexes shows what the instructions sysvar shows iff every index used has the merged flags of its key |
| DemoDigest.DemoDigestIsTheProgramsOwn | scripts/evidence/build-final-demo.ts:119-137 | for keys in the compiler's order the program's suffix check is its rules and the equality of the guard's commitment with the demo's digest |
| Capture.SplitLinesExact | scripts/observation/extract-window.ts:47-58 | the loop computes the lines with their terminators |
| Capture.SplitKeepsEveryByte | scripts/observation/extract-window.ts:47-58 | the lines concatenate back to the input and are proper lines |
| Capture.SplitOfFlatExactly | scripts/observation/extract-window.ts:47-58 | joining and splitting again is the identity iff the lines are proper |
| Capture.CountLines | scripts/observation/capture-isolation.ts:65-70 | the counter agrees with the splitter on every input |
| Capture.ExtractWindow | scripts/observation/extract-window.ts:84-129 | the window is the chosen lines byte for byte and splits back into exactly them; first, last, gaps and unplaceable lines are those of the selection |
| Capture.SelectedExactly | scripts/observation/extract-window.ts:96-114 | a line is chosen iff it can be placed, its time is in the half-open window, and it shares a symbol with the query if that names any |
| Capture.GapsExactly | scripts/observation/extract-window.ts:115-118 | a gap is reported iff two chosen neighbours are at least a minute apart |
| Capture.UnplaceableExactly | scripts/observation/extract-window.ts:96-110 | the unplaceable lines are counted one by one |
| ApiReplay.LatestAtOrBefore | scripts/m11b/market-replay.ts:578-588 | on nondecreasing times the binary search returns the last observation at or before the poll |
| ApiReplay.LatestExactly | scripts/m11b/market-replay.ts:578-588 | there is exactly one such index, and it is the one a plain backward scan finds |
| ApiReplay.RunsAreMaximal | scripts/m11b/market-replay.ts:593-602 | the disagreement runs are maximal, apart, and hold every disagreement |
| ApiReplay.RunsHoldEveryDisagreement | scripts/m11b/market-replay.ts:593-602 | their lengths sum to the number of disagreements |
| ApiReplay.ReplayApi | scripts/m11b/market-replay.ts:549-620 | a report unless a compared poll has the stored pending multiplier at a fractional second; its counters are those of the compared polls and each interval shows one maximal run |
| ApiReplay.ComparedExactly | scripts/m11b/market-replay.ts:578-592 | a poll is compared iff an observation precedes it, with the multiplier in effect at the last one |
| ApiReplay.ComparedPolls | scripts/m11b/market-replay.ts:549-604 | the compared list holds the comparison of every such poll and no other |
| ApiReplay.EffectiveExactly | scripts/m11b/market-replay.ts:549-620 | the multiplier in effect is the old one before the activation and the new one from it on |
| ApiReplay.DisagreementsExactly | scripts/m11b/market-replay.ts:593-602 | the disagreements are the comparisons whose two multipliers differ |
| ApiReplay.PendingExactly | scripts/m11b/market-replay.ts:603-607 | so are the pending multipliers shown, and those that are the stored one at its stored second |
| ApiReplay.ThrowsOnFractions | scripts/m11b/market-replay.ts:603-607 | a poll ends the replay iff its pending multiplier is the stored one at a time that is no whole second |
| ApiReplay.LastPending | scripts/m11b/market-replay.ts:494-500 | the newest pending observation followed by an activated one |
| ApiReplay.ProbesAcrossT | scripts/m11b/market-replay.ts:500-515 | the exact verdicts of the probes at T - 1, T and T + 1 |

## Left out

- RPC calls, polling delays, sending, confirmation, files, HTTP and command lines: they are parameters, or answers an adversary may choose.
- User interfaces, error-message texts, display amounts and evidence files.
- Generator.Generator.OtherMultiplier: the source retries without bound; the model takes the number of tries from its caller, because the loop ends for no other reason than the stream, and returns the source's value for every number of tries that reaches it.
- Generator.Generator.ValidMultiplierBits: the decimal constants are positive normal patterns given from outside, because decimal-to-binary conversion is not modelled; the xorshift step of the stream is not modelled either, every stream is allowed.
- GuardCases.GenerateCase: the six committed mints enter as any list of sound fixtures; the two UNSPECIFIED categories carry no expectation to prove.
- Grammar.CheckTransactionGrammar: instruction data are bytes, not hexadecimal text; the route plan after the fixed prefix stays opaque, as in the source.
- Mint.DecodesExactly: models the client's decoder, which the program's own Token-2022 unpack is documented to match; that library is not part of this model.
- OnChain.ProgramGrammarExactly: addresses are texts standing for their 32 bytes, and the Instructions sysvar is its parsed content, so its own corruption is not modelled.
- Coordinator.RecordedIsWhatTheProgramDecodes: base64 and the two decoders are given functions of the bytes; capture timestamps of records are omitted.
- Wire.FlagsAgreeExactly: unresolvable lookup entries, which one tool shows as placeholder text, are whatever the table function returns.
- Capture.ExtractWindow: reading a line as JSON is a given function; a line that is neither JSON nor UTF-8, on which the source throws, has no counterpart.
- ApiReplay.ReplayApi: decoding a poll, event detection and the reason counters are left out; times are exact numbers, not rounded ones.
- LocalActivation.RunLocalActivation: retargeting the recorded swap, the balance checks around it and the size limit of the compiled trade are left out; the swap's instructions are any the adversary chooses.
- Devnet.StaleAttempt: the deployment and cluster gates and the confirmation after the send are left out; compiling is a given function that shows every account with its flags in the whole transaction.
- Activation.ExecuteAcrossActivation: asynchronous answers are functions of the whole history so far, and time passes only between answers.
- Replay.ChainReplay.Replay: decoding of capture lines, wall-clock gaps, event detection and printed boundaries are left out; they feed no counter of the totals.
- The mutation tables, pinned hashes and recorded figures of the fixtures: finite data.
- The checks of plan and consent objects and of the swap builder of the guard client: they add members of the kind already proved.
