# A verified model of the lottery ticket dispenser

The dispenser sells tickets that carry six-digit numbers. A customer asks for k tickets matching a pattern such as
`1**4*7`, holds them for a lease, and confirms or releases each one. This project models the engine in three layers and
proves what each layer promises to the next.

**Arithmetic and indexes** (`pattern.dfy`, `walker.dfy`, `candidates.dfy`, `bitmap.dfy`, `index.dfy`). Patterns are parsed
into a base value and wildcard positions; an odometer turns an index into the j-th matching number; a modular walk visits
the matches in scrambled order; candidates come in batches; a counting sort groups ticket ids by number; a bit-packed set
answers which numbers still have stock. The number of digits, the number space and all batch sizes are parameters.

**The in-memory store** (`ledger.dfy`, `allocation.dfy`, `stock.dfy`, `memorystore.dfy`, `leases.dfy`). `Ledger` is the life of one ticket
— free, held, sold — and what every legal log of events implies. `Allocation` says which tickets a two-pass claim takes and
that this is optimal. `MemoryStore` is the class with its arrays, counters, bitmap and index; ghost fields tie them to the
book (ticket to slot) and to the log of everything that happened.

**The database and its replicas** (`table.dfy`, `claimrounds.dfy`, `claimguarantees.dfy`, `pgstore.dfy`, `backends.dfy`,
`availability.dfy`, `hybridrounds.dfy`, `hybrid.dfy`, `transactions.dfy`, `reaper.dfy`, `drift.dfy`, `stranding.dfy`,
`hybridprotocol.dfy`, `concurrentclaim.dfy`). SQL statements are transitions of a table of rows. The claim loops of `Store`
and `HybridStore` are proved equal to functions of an environment that gives, for every batch, the clock, the rows others
have locked, what others wrote, whether the caller gave up and whether the statement failed. `Transactions` takes the
statements apart into lock, write and commit steps of concurrent transactions. `Drift` takes the hybrid store apart into the
steps between which other calls run: the database statements, and each critical section that follows them in memory.
`Stranding` says exactly when a replica's count can fall below the truth. `HybridProtocol` shows that each method of the
class, left alone, is a run of that protocol, and `ConcurrentClaims` puts a claim inside a run with everything else going on
beside it. `Reaper` compares histories with and without sweeps.

## Assumptions

- Walker seeds, clock readings, lease lengths, cancellation, statement failures and the choice a query plan makes among
  eligible rows are parameters, so every theorem holds for all of them. `coprimeTo` draws from a given finite stream that
  contains a coprime multiplier. A query plan is a function of the eligible rows (`TicketTable.ProperPlan`); one exists.
- Of the database: a statement sees committed rows, a row is locked by one transaction at a time, WHERE is checked on the row
  under its lock, locks last until the end of the transaction, and SKIP LOCKED treats a row locked by someone else as
  absent. A failed statement changes nothing. The order of RETURNING is the order in which rows were picked.
- A critical section under a Go mutex is one step.
- Ticket ids of the in-memory store are 0 to n-1, each once, and no number has more than 65536 tickets
  (`MemoryStores.Loadable`); `Stock.CounterFaithful` shows that this is exactly when a `uint16` counter can be trusted.

## Where the promises end

- `lottery-go/STATE-SYNC.md:96` says that every replica's count is at least the truth. That fails when a refresh reads the
  table after one of the replica's own confirmations has committed and swaps the result in before that confirmation reaches
  `MarkSold`: the sale is then subtracted twice. `Stranding.StraddlingHidesStock` is a run, in the program's own order of
  steps and with nothing left to do at its end, after which a free ticket does not pass the hint. `Drift.DriftBound` is the
  bound that does hold in every reachable state. `Stranding.NeverStrandsIff` says from which reachable states the count can
  fall below the truth, and stock can be hidden, before the next swap: exactly those where the count does not cover the
  unsold tickets together with the pending confirmations that `MarkSold` will still subtract. `Stranding.RefreshStrandsIff`
  is that condition just after a refresh, in terms of the straddled confirmations and the sales since its snapshot.
- A negative lease makes a claim take its own tickets again: `Leases.NeverTwiceIffLeaseNotNegative` shows that this is
  exactly the case of leases below zero, and `Leases.TakenTwice` is a store with one ticket that hands it out twice.
- A database claim may return fewer tickets than there are: `PostgresStores.FillsIffWithinBudget` shows that, undisturbed,
  it finds min(k, claimable matches) for every table and every pair of seeds exactly if the pattern's match count fits the
  batch budget.
- The reaper is described as housekeeping. `Reaper.ReaperNeverNeeded` confirms it for claims and confirmations.
  `Reaper.ReleaseNoticesSweepIff` shows in which direction and exactly when a release differs, and `Reaper.SweepNoticed` is
  such a history.

## Model

| member | source | states |
|---|---|---|
| Patterns.ParsePattern | lottery-go/pattern.go:30-47 | succeeds exactly on strings of the right length over digits and `*`, and yields their base and wildcards |
| Patterns.PatternDeterminesText | lottery-go/pattern.go:24-27 | different accepted strings give different base or wildcards |
| Patterns.Matches | lottery-go/pattern.go:69-76 | the loop computes the stripped comparison for every integer, negative ones included, with Go's truncating operators |
| Patterns.MatchesMeaning | lottery-go/pattern.go:67-76 | a number from zero up matches exactly if it has no more digits than the pattern and its zero-padded decimal form agrees with the pattern text wherever that is not `*`; a negative one exactly if all fixed digits are zeros and its absolute value matches |
| Patterns.NumberAt | lottery-go/pattern.go:54-65 | the odometer loop computes the number of index j |
| Patterns.OdometerIsomorphism | lottery-go/pattern.go:49-76 | j to NumberAt(j) is strictly increasing on [0, MatchCount) and its image is exactly the matching numbers of the number space |
| Patterns.NumberAtIsJthSmallest | lottery-go/pattern.go:54-65 | exactly j matching numbers are smaller than NumberAt(j) |
| NumberTheory.Gcd | lottery-go/walker.go:45-50 | the loop computes Euclid's function |
| NumberTheory.EuclidIsGreatestCommonDivisor | lottery-go/walker.go:45-50 | the result divides both arguments and every common divisor divides it |
| Walkers.CoprimeTo | lottery-go/walker.go:35-43 | returns the first drawn multiplier in [1, n] that is coprime to n |
| Walkers.MultiplierCovers | lottery-go/walker.go:36-43 | of n consecutive draws each multiplier in [1, n] comes from exactly one |
| Walkers.OneIsCoprime | lottery-go/walker.go:16-22 | every n has a valid seed, so a walker can always be built |
| Walkers.Walker.Next | lottery-go/walker.go:24-33 | produces the walk in order and reports its end |
| Walkers.WalkFromB | lottery-go/walker.go:24-33 | a sequence of n values is the walk exactly if it starts at b and each value is the one before it plus a, modulo n |
| Walkers.StartsApart | lottery-go/walker.go:16-33 | two walks of n values start at the same value exactly if their seeds agree in b |
| Walkers.NoOverflow | lottery-go/walker.go:29-30 | a*i+b never exceeds n*n-1 |
| Walkers.ImageLaw | lottery-go/walker.go:5-11 | the walk takes exactly n / gcd(a, n) distinct values |
| Walkers.PermutationIffCoprime | lottery-go/walker.go:5-11 | the walk is a permutation of [0, n) if and only if the Euclid loop returns 1 |
| CandidateStream.Candidates.NextBatch | lottery-go/candidates.go:25-37 | returns the next stretch of the seed's walk, up to the requested size, and advances by its length |
| CandidateStream.NumberWalkIsMatchSet | lottery-go/candidates.go:16-20 | for every seed the walk lists every matching number once and nothing else |
| CandidateStream.CandidatesStartApart | lottery-go/candidates.go:9-37 | the first candidate is the b-th match, so two requests for one pattern start at the same number exactly if their seeds agree in b |
| CandidateStream.BatchIndependence | lottery-go/candidates.go:25-37 | for any positive batch sizes the batches repeat nothing and contain only matches; a batch is empty exactly when everything was produced before it |
| Bits.TrailingZeros | lottery-go/bitmap.go:56 | the position of the lowest set bit of a nonzero word |
| Bits.BitOfAndNot | lottery-go/bitmap.go:30-34 | and-not clears exactly the bits of its operand |
| Bitmaps.Bitmap.constructor | lottery-go/bitmap.go:13-20 | starts as the empty set, with the word count rounded up |
| Bitmaps.Bitmap.Set | lottery-go/bitmap.go:25-28 | adds n to the set and changes nothing else, slack bits included |
| Bitmaps.Bitmap.Clear | lottery-go/bitmap.go:30-34 | removes n from the set and changes nothing else |
| Bitmaps.Bitmap.Test | lottery-go/bitmap.go:36-39 | is membership |
| Bitmaps.Bitmap.NextSet | lottery-go/bitmap.go:41-68 | returns the least member at or after max(from, 0) and below size, or -1 if there is none, whatever the slack bits of the last word hold |
| TicketIndex.BuildIndex | lottery-go/index.go:23-52 | block n of the index is the input-order list of the ids carrying n |
| TicketIndex.Count | lottery-go/index.go:27-32 | pass 1 leaves the number of tickets of n in offsets[n+1] |
| TicketIndex.Accumulate | lottery-go/index.go:34-38 | pass 2 turns the counts into start positions in place |
| TicketIndex.Place | lottery-go/index.go:40-49 | pass 3 puts every id into its number's block, in input order |
| TicketIndex.SlotsAreAPermutation | lottery-go/index.go:45-49 | pass 3 writes different slots for different tickets, all in range |
| TicketIndex.IndexIsPermutation | lottery-go/index.go:18-21 | offsets are monotone and end at the ticket count, and all blocks together are a permutation of the input ids |
| Ledger.SoldIsAbsorbing | lottery-go/store.go:129-150 | nothing legal happens to a ticket after its confirmation, so it is confirmed at most once |
| Ledger.ClaimsAreSeparated | lottery-go/store.go:116-127 | two claims of one ticket are separated by a release of the first holder or by an event strictly after the first lease |
| Ledger.ConfirmFollowsLiveClaim | lottery-go/store.go:136-142 | every confirmation is by the holder of the ticket's latest claim, unreleased and within its lease |
| Ledger.ConfirmSucceedsIffLiveClaim | lottery-go/store.go:129-150 | the next confirmation succeeds exactly if such a claim stands |
| Ledger.Conservation | lottery-go/ticketstore.go:11-17 | free, held and sold tickets add up to all tickets |
| Allocation.SpreadLen | lottery-go/store.go:66-68 | pass 1 takes one ticket of each number that has a claimable one, up to k |
| Allocation.TopUpLen | lottery-go/store.go:70-75 | pass 2 takes as many tickets as there are, up to what is missing |
| Allocation.ChooseSound | lottery-go/store.go:79-114 | whatever a pass takes is distinct, claimable and carries a number it has visited |
| Allocation.CountsAreScan | lottery-go/store.go:79-114 | the claimable tickets met along a walk are exactly the naive scan over its numbers |
| Allocation.ClaimOptimal | lottery-go/store.go:58-77 | both passes together take min(k, C) tickets carrying min(k, D) different numbers, C and D being all claimable matches and their numbers |
| Allocation.EarliestTicketsWin | lottery-go/store.go:98-111 | within a number no claimable ticket listed before a taken one is passed over |
| Allocation.EarliestNumbersWin | lottery-go/store.go:79-114 | along a walk, if a ticket of one number is taken, every number before it has given one ticket (pass 1) or all its claimable tickets (pass 2) |
| Stock.CounterFaithful | lottery-go/store.go:27-34 | a wrapping 16-bit counter reaches zero only with the last sale exactly if a number has at most 65536 tickets |
| Stock.TallyAfterSale | lottery-go/store.go:142-148 | a sale moves exactly one counter and clears its bit exactly on the last unsold ticket |
| Stock.TallyAfterMove | lottery-go/store.go:27-34 | reserving, releasing and expiring move no counter and no bit |
| Stock.ClearBitHidesNothing | lottery-go/store.go:95-97 | skipping a number whose bit is clear skips no claimable ticket, expired reservations included |
| Stock.TakenEarlier | lottery-go/store.go:91-112 | tickets taken earlier in a pass never belong to the number considered next |
| Stock.HandedIsGrant | lottery-go/store.go:106-110 | handing out tickets changes exactly those slots and reports each of them once |
| MemoryStores.DenseIds | lottery-go/store.go:16-17 | distinct ids within range leave no gap |
| MemoryStores.Tally | lottery-go/store.go:50-54 | after loading, counters count each number's tickets, bits mark the numbers that have any, and numberOf maps ids to numbers |
| MemoryStores.MemoryStore.constructor | lottery-go/store.go:37-56 | establishes the representation invariant with an empty log |
| MemoryStores.MemoryStore.ClaimableNow | lottery-go/store.go:116-127 | evaluates expiry at claim time: free, or reserved with a lease strictly over |
| MemoryStores.MemoryStore.ClaimTicket | lottery-go/store.go:103-110 | reserves the ticket exactly if it is claimable, and keeps the invariant |
| MemoryStores.MemoryStore.ClaimNumber | lottery-go/store.go:98-111 | takes from one number's block, in order, what the request and the per-number limit allow |
| MemoryStores.MemoryStore.ClaimCandidate | lottery-go/store.go:91-112 | the bitmap test makes no difference to what one number contributes |
| MemoryStores.MemoryStore.ClaimPass | lottery-go/store.go:81-114 | the three nested loops take exactly the specified tickets along the part of the walk that the context lets them visit |
| MemoryStores.VisitsFacts | lottery-go/store.go:82-90 | that part is the whole walk while the context is live, and min(64 * i, matches) numbers if the i-th check is the first to find it ended |
| MemoryStores.MemoryStore.TopUp | lottery-go/store.go:73-75 | the second pass, when pass 1 fell short |
| MemoryStores.MemoryStore.Claim | lottery-go/store.go:58-77 | the exact new book, log and result, for every lease and every end of the context: the tickets that pass 1 and then pass 2 choose along the first min(64 * i, matches) numbers of their walks, i checks having found the context live; nothing at all if it has ended before the call; every reservation names a slot held for the caller until that time, with its number; for lease >= 0 only distinct claimable matches; with a live context min(k, C) of them with min(k, D) numbers; a negative k panics and changes nothing |
| Leases.StoreIsState | lottery-go/store.go:58-77 | every valid store is one of the states the next two rows speak of, and its claim hands out what they say |
| Leases.NeverTwiceIffLeaseNotNegative | lottery-go/store.go:62-75 | no claim on any store state, for any pattern, seeds and end of the context, is handed one ticket twice if and only if the lease is not negative |
| Leases.TakenTwice | lottery-go/store.go:62-75 | for every negative lease: a store just loaded with one ticket hands it out twice in one claim of two |
| MemoryStores.MemoryStore.Confirm | lottery-go/store.go:129-150 | the three error cases in order, each exactly when the arrays say so, the exact sale otherwise; holder and lease stay on record; counters and bitmap kept in step |
| MemoryStores.MemoryStore.Release | lottery-go/store.go:152-165 | the error cases, each exactly when the arrays say so, the exact release otherwise: status free, holder erased, old lease left behind; counters untouched |
| MemoryStores.MemoryStore.ConfirmNeedsLiveClaim | lottery-go/store.go:129-150 | over the whole run: a confirmation succeeds exactly for the holder of the latest claim, if unreleased and unexpired |
| MemoryStores.MemoryStore.Exclusive | lottery-go/store.go:58-165 | over the whole run: a ticket is claimed again only after release or strict expiry, and never after its sale |
| MemoryStores.MemoryStore.Conserved | lottery-go/store.go:22-25 | available, reserved and sold tickets always add up to the loaded stock |
| TicketTable.ClausesAreLegality | lottery-go/postgres/store.go:75 | the WHERE clauses are the legality conditions of claim, reap, release and confirmation |
| TicketTable.ReserveIsGrant | lottery-go/postgres/store.go:66-70 | the claim's SET clause is a grant in the book and changes no number |
| TicketTable.DistinctPicksSound | lottery-go/postgres/store.go:92-117 | distinctClaimSQL picks open rows only, no row and no number twice, at most the limit |
| TicketTable.DistinctPicksWide | lottery-go/postgres/store.go:84-91 | short of its limit, distinctClaimSQL takes a row of every candidate number that has an open one |
| TicketTable.EarliestCandidatesWin | lottery-go/postgres/store.go:90-117 | under the limit the candidates earliest in the batch win: before one that contributes, every candidate with an open row contributes |
| TicketTable.PlainPicksSound | lottery-go/postgres/store.go:65-79 | claimSQL picks min(limit, open rows) different open rows of the candidate numbers |
| TicketTable.SomePlanIsProper | lottery-go/postgres/store.go:71-78 | a query plan as assumed exists |
| ClaimRounds.CallSound | lottery-go/postgres/store.go:136-190 | whatever others do and wherever the call is cut short: at most k tickets, claimable when taken, of matching numbers, held for the time asked; the result begins with what pass 1 took, and pass 1 never takes a number twice across its batches |
| ClaimRounds.AsksFor | lottery-go/postgres/store.go:147-189 | a round asks the database unless its context or its walk has ended: in pass 1 about four candidates per ticket still wanted, at most a batch, in pass 2 about a batch, or what the walk has left |
| ClaimRounds.CallTells | lottery-go/postgres/store.go:147-189 | the result of a call is the tickets of all its statements, and it stops, for that reason, exactly at a check that finds the context ended or at a statement that fails |
| ClaimGuarantees.NoTicketTwice | lottery-go/postgres/store.go:136-190 | within one lease and among users who respect running holds, no ticket comes back twice and all are still held at the end |
| ClaimGuarantees.ReportIsTrue | lottery-go/postgres/store.go:119-134 | under the same conditions every reservation reported names a row reserved for the caller with that number and that lease |
| ClaimGuarantees.QuietCallFills | lottery-go/postgres/store.go:162-189 | undisturbed and within the batch budget the call returns min(k, claimable matches) |
| ClaimGuarantees.QuietSpreadIsWide | lottery-go/postgres/store.go:81-91 | undisturbed, the first pass takes a ticket of every number it visits that has one to give, until it has k |
| PostgresStores.FillsIffWithinBudget | lottery-go/postgres/store.go:22-34 | it does so for every table and every pair of seeds if and only if the match count of the pattern is at most maxBatches * batchSize |
| PostgresStores.DefaultBudget | lottery-go/postgres/store.go:22-34 | with the default knobs that means at most three wildcards |
| PostgresStores.SeededClaimSpreads | lottery-go/postgres/store.go:143-160 | undisturbed, for every pair of seeds: the result carries at least min(k, D1) different numbers, D1 of the first min(4k, batchSize) candidates of pass 1 having a claimable row; with D1 >= k it is k tickets of k numbers |
| PostgresStores.SmallPatternSpreads | lottery-go/postgres/store.go:81-91 | a pattern with at most min(4k, batchSize) matches gets exactly min(k, D) different numbers, D of its matches having a claimable row |
| PostgresStores.Database.ClaimRows | lottery-go/postgres/store.go:119-134 | one statement reserves exactly the picked rows, bumps each version once and returns them |
| PostgresStores.Store.RunPass | lottery-go/postgres/store.go:147-160 | a batch loop does what its specification says in every environment |
| PostgresStores.Store.Claim | lottery-go/postgres/store.go:136-190 | table, reservations and error of the whole call, as specified, for k < 1 too: a database error exactly if a statement it issued failed, the context's error exactly if a check found it ended, the tickets taken before are returned and nothing is asked afterwards |
| PostgresStores.Store.Confirm | lottery-go/postgres/store.go:193-207 | sells the row exactly if the in-memory store would: status sold, holder, number and lease as before, version one higher; otherwise changes nothing and explains the later state; undisturbed, the verdicts agree; a failing update or explanation is an error and sells nothing |
| PostgresStores.Store.Release | lottery-go/postgres/store.go:209-223 | the same for releases: status available, holder and lease erased, number as before, version one higher |
| PostgresStores.ExplainedConfirm | lottery-go/postgres/store.go:225-252 | on an unchanged row the explanation of a failed confirmation is the in-memory verdict |
| PostgresStores.ExplainedRelease | lottery-go/postgres/store.go:225-252 | the same for releases |
| PostgresStores.Explained | lottery-go/postgres/store.go:225-252 | not found exactly without a row, lease over exactly if the caller holds the row past its lease, not held otherwise |
| PostgresStores.Store.ReapExpired | lottery-go/postgres/store.go:254-279 | frees min(limit, open expired rows) expired rows, erasing holder and lease and raising the version, and nothing else, and counts them; if the statement fails, nothing |
| Backends.MemoryClaimFills | lottery-go/store.go:58-77 | from any valid store state, whatever the seeds, the uncancelled in-memory claim brings min(k, claimable matches) tickets |
| Backends.BackendsClaimAlike | lottery-go/ticketstore.go:35-45 | if store and table hold the same tickets with the same numbers in the same states, then undisturbed and within the batch budget both hand out equally many tickets, whatever seeds each of them draws |
| Availabilities.LoadIsExact | lottery-go/postgres/load.go:44-57 | from a correct answer to loadSQL the hint holds the number of unsold tickets of every number |
| Availabilities.Availability.Load | lottery-go/postgres/load.go:59-97 | loads the rows, skips numbers outside the space, and keeps bit n set exactly if the count is positive; if the query or a row fails, the old hint stays |
| Availabilities.Availability.MaybeAvailableNow | lottery-go/postgres/load.go:99-109 | true exactly if the count is positive; false outside the number space |
| Availabilities.Availability.Sold | lottery-go/postgres/load.go:111-125 | takes exactly one off a positive count, leaves every other count alone, and keeps bit and count in step |
| Availabilities.Availability.Restocked | lottery-go/postgres/load.go:127-140 | raises an empty count to exactly one, leaves every other count alone, and keeps bit and count in step |
| Availabilities.Availability.NextAvailableFrom | lottery-go/postgres/load.go:142-150 | the least number at or after `from` that may have stock, or -1 |
| HybridRounds.KeepMembers | lottery-go/postgres/hybrid.go:148-164 | filtering keeps exactly the candidates the hint lets pass and adds none |
| HybridRounds.BatchLearnt | lottery-go/postgres/hybrid.go:166-190 | after a batch is reconciled each of its numbers passes the hint and each of its tickets is remembered with its number |
| HybridRounds.HybridTells | lottery-go/postgres/hybrid.go:86-146 | the result of a call is the tickets of all its statements, and it stops, for that reason, exactly at a check that finds the context ended or at a statement that fails |
| HybridRounds.HintIsTransparent | lottery-go/postgres/hybrid.go:86-164 | whatever other calls do to the hint meanwhile, as long as every batch that is asked about meets a hint that over-reports the table, and no statement is going to fail whose batch the hint filters out entirely, HybridStore.Claim returns the reservations, the error and leaves the table of Store.Claim: both passes, filtered-out batches and the batch budget included |
| HybridRounds.OverReportingHintIsTransparent | lottery-go/postgres/hybrid.go:86-164 | in particular when the hint over-reports at the start, no other call touches it, nobody creates stock and no statement fails; then it still over-reports at the end |
| HybridRounds.AnyHintIsSafe | lottery-go/postgres/hybrid.go:148-164 | for an arbitrary hint, changed arbitrarily by other calls: at most k tickets, each claimable when taken, matching, and within one lease none twice |
| HybridRounds.HybridReportIsTrue | lottery-go/postgres/hybrid.go:86-146 | within one lease every reservation reported names a row reserved for the caller with that number and that lease, whatever the hint |
| HybridStores.HybridStore.constructor | lottery-go/postgres/hybrid.go:66-75 | starts with a loaded hint and no remembered numbers |
| HybridStores.HybridStore.Open | lottery-go/postgres/hybrid.go:46-75 | a store exactly if the hint could be loaded, with the loaded counts |
| HybridStores.HybridStore.FilterByHint | lottery-go/postgres/hybrid.go:153-164 | computes the kept candidates in order |
| HybridStores.HybridStore.ReconcileAfterClaim | lottery-go/postgres/hybrid.go:174-190 | raises every returned number and remembers every returned id |
| HybridStores.HybridStore.Claim | lottery-go/postgres/hybrid.go:86-146 | table, hint, remembered numbers, reservations and error of the whole call, with other calls changing the hint between its batches: a database error exactly if a statement it issued failed, the context's error exactly if a check found it ended, the tickets taken before are returned and nothing is asked afterwards |
| HybridStores.HybridStore.ForgetNumber | lottery-go/postgres/hybrid.go:236-244 | returns and removes the remembered number |
| HybridStores.HybridStore.Confirm | lottery-go/postgres/hybrid.go:192-215 | the sale, with holder, number and lease left on the row, and the hint one lower exactly if the number was known; failed calls leave hint and remembered numbers alone |
| HybridStores.HybridStore.Release | lottery-go/postgres/hybrid.go:217-234 | the release, with holder and lease erased, and the number passing the hint if it was known; failed calls leave hint and remembered numbers alone |
| HybridStores.HybridStore.Refresh | lottery-go/postgres/hybrid.go:246-264 | swaps in the loaded counts and keeps the remembered numbers; if the load fails, the old hint stays |
| HybridStores.FreshHintOverReports | lottery-go/postgres/hybrid.go:46-50 | a hint just loaded over-reports |
| Drift.StepKeeps | lottery-go/postgres/hybrid.go:166-264 | every database statement and every critical section of claim, confirmation, release, sweep and refresh keeps the drift invariant of every replica and every running refresh |
| Drift.DriftBound | lottery-go/postgres/hybrid.go:192-264 | in every reachable state counts[n] >= unsold(n) + own pending confirmations of n - straddled confirmations of n |
| Drift.NeverHidden | lottery-go/postgres/load.go:17-29 | without straddled confirmations of its number an unsold ticket's number passes the hint |
| Drift.RefreshHeals | lottery-go/postgres/hybrid.go:246-264 | a refresh that no own confirmation straddles makes every unsold ticket's number pass again |
| Stranding.NeverStrandsIff | lottery-go/STATE-SYNC.md:94-98 | from a reachable state: whatever happens before the next swap, a count stays at least the truth, and equally its number stays visible while it has stock, if and only if the number is sold out or the count covers its unsold tickets and the pending confirmations that are still going to be marked |
| Stranding.RefreshStrandsIff | lottery-go/postgres/hybrid.go:246-264 | just after a swap that holds if and only if the number is sold out or its sales since the snapshot that will not be subtracted are at least as many as its straddled confirmations that will |
| Stranding.StraddlingHidesStock | lottery-go/postgres/hybrid.go:166-264 | a run in program order in which a refresh between commit and MarkSold ends, with every call finished, in a hint that hides a free ticket |
| HybridProtocol.UninterruptedConfirm | lottery-go/postgres/hybrid.go:195-215 | left alone, a successful confirmation is a run of the protocol that ends with the table, hint and remembered numbers HybridStore.Confirm promises, and changes nothing else |
| HybridProtocol.UninterruptedRelease | lottery-go/postgres/hybrid.go:217-234 | the same for a release: the number forgotten and marked available if it was known |
| HybridProtocol.UninterruptedRefresh | lottery-go/postgres/hybrid.go:246-264 | the same for a refresh: what loadSQL counts in the table is what the protocol swaps in; pending own confirmations become straddled |
| HybridProtocol.UninterruptedClaim | lottery-go/postgres/hybrid.go:86-190 | the same for a whole claim, both passes: the table, hint and remembered numbers that HybridStore.Claim promises |
| ConcurrentClaims.ConcurrentClaimIsPlain | lottery-go/postgres/hybrid.go:86-190 | a claim inside a run of the protocol, with any steps of anybody between its batches, between filter and statement and between statement and hint update: if no confirmation of the replica is straddled when a batch is filtered, and no statement is going to fail whose batch the hint filters out entirely, the caller gets what the plain store gives in the same environment, and the table is that of a reachable state |
| ConcurrentClaims.MetHintOverReports | lottery-go/postgres/load.go:17-29 | the hint a batch is filtered by over-reports the table its later statement meets, whatever happened in between |
| ConcurrentClaims.ReachableClaimIsPlain | lottery-go/postgres/hybrid.go:15-26 | from a reachable state without straddled confirmations, no other call of the replica running, the hybrid claim is the plain claim, whatever other users do that creates no stock, if no statement fails |
| Transactions.CommitExplains | lottery-go/postgres/store.go:58-61 | committing the writes of one transaction appends one legal event for each of them |
| Transactions.UpdateIsEvent | lottery-go/postgres/store.go:65-79 | every statement's WHERE and SET clauses are a legal event and its effect, with the version one higher |
| Transactions.StepKeeps | lottery-go/postgres/store.go:56-64 | every lock, write, commit and rollback keeps locks disjoint, locked rows eligible and the committed log legal |
| Transactions.LocksAreExclusive | lottery-go/postgres/store.go:56-64 | no row is locked by two transactions, and a locked row still meets the condition it was locked for |
| Transactions.CommittedLogIsLegal | lottery-go/postgres/store.go:56-64 | in every run the committed changes form a legal log whose replay is the table |
| Transactions.Exclusive | lottery-go/postgres/store.go:65-117 | in every run: claims of one ticket are separated by release or strict expiry, sold is final, and each confirmation belongs to a live claim |
| Transactions.VersionCountsChanges | lottery-go/postgres/schema.sql:11 | a row's version is the number of committed changes of its ticket |
| Transactions.StatementIsTransaction | lottery-go/postgres/store.go:58-61 | every kind of statement, as one atomic rewriting of unlocked rows that meet its condition, is one such transaction, possible from every reachable state |
| Transactions.ClaimIsTransaction | lottery-go/postgres/store.go:65-117 | the claim statement of the batch loops is one |
| Transactions.SweepIsTransaction | lottery-go/postgres/store.go:254-279 | the sweep is one |
| Transactions.UpdateIsTransaction | lottery-go/postgres/store.go:193-223 | the updates of confirmation and release are each one |
| Reaper.SweepsStayBehind | lottery-go/postgres/store.go:254-279 | under a monotone clock every row of a history with sweeps equals the one without up to its version, or was freed where the other still shows a hold that is over |
| Reaper.ReaperNeverNeeded | lottery-go/postgres/store.go:254-279 | after any history, at any later time: same claimable and sold tickets, same claims, same confirmations with and without sweeps |
| Reaper.ReleaseNoticesSweepIff | lottery-go/postgres/store.go:209-223 | a release that succeeds after sweeps succeeds without them; it succeeds only without them exactly if there the caller still holds the row and the sweeps have freed it, and then its lease is over |
| Reaper.SweepNoticed | lottery-go/postgres/store.go:209-279 | a history in which a release notices a sweep |
| Reaper.UsersQualify | lottery-go/postgres/store.go:65-279 | any sequence of modelled statements by other users keeps reserved rows complete and creates no stock, and respects the running holds of a holder it does not act for; so the theorems about claims apply to it |

## Left out

- HTTP handlers, JSON, routing, status codes, the command-line programs, connection pools, migrations and error wrapping.
- `RunListener` and the notification trigger: a replica's own sale then reaches `MarkSold` twice, so the drift bound is not
  claimed in that mode.
- `sharded.go`: the same claim loop in a single pass over shards, without the distinct-number pass.
- `metrics.go`, `Stats`, `StatusOf`, `StreamTickets`, timers, tickers and logging.
- The distribution of random seeds, and that `coprimeTo` terminates with probability one.
- The Go memory model: critical sections are atomic steps.
- A statement that takes effect although its caller sees an error.
- Strings are sequences of characters; the original indexes a pattern by bytes.
- 32-bit widths of numbers, ids, offsets and hint counts: the model uses unbounded integers, except for the 16-bit counters
  of the in-memory store and the 64-bit words of the bitmap.
- MemoryStores.MemoryStore.Claim: the context is asked in order through a function for each pass; nothing is claimed about
  optimality once it has ended.
- ClaimGuarantees.QuietCallFills: does not claim the maximum of different numbers, because the first pass may run out of its
  batch budget before it has visited every match; PostgresStores.SeededClaimSpreads says what its first statement brings.
- HybridStores.HybridStore.Claim: other calls change the hint just before a batch is filtered; what they do between the
  filter and MarkAvailable, and to the remembered numbers, is modelled in Drift and ConcurrentClaims, not in the method.
- HybridStores.HybridStore.Confirm: one step in the class, as is Release; their separate critical sections are the steps of
  Drift.
- PostgresStores.Store.ReapExpired: a negative limit, which the database rejects, is not modelled.
- Drift.DriftBound: replicas are all started before the first step.
