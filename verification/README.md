# Flight booking: verified model

A Dafny model of the flight-booking service's shared state and of everything that
reads or writes it: the seat-lock store, quoting and its price arithmetic, the
booking commit, the seat map, the audit log with its reconciliation, and
round-trip search. `dafny verify dfyconfig.toml` checks the whole project.

The model has four layers.

1. **Values and arithmetic.** Amounts are integers: cents for fares, surcharges and
   charged totals, and units of 10^-11 USD for unrounded sums, the scale at which
   every amount of this system is exact. Occupancy is the decimal the program
   computes: a quotient rounded to 28 significant digits. Time is a count of
   microseconds. (`Entities`, `Rounding`, `Breakdown`, `Occupancy`, `Pricing`)
2. **The stores and services as classes**, with the fields the program updates in
   place, each method proved equal to a function on the value of the whole shared
   state, `World`. (`Bookings`, `LockTables`, `SeatLocks`, `Adapters`, `QuoteStores`,
   `Quoting`, `Committing`, `Services`, `SeatRows`, `SeatMaps`, `AuditReplay`)
3. **The concurrent system.** Any number of threads run acquire, quote and commit
   one store call at a time, interleaved in any way with each other and with a
   monotone clock. The seat-lock store's own lock and the module-wide commit lock
   have owners; each thread has a program counter. `Exec` runs any sequence of
   steps, so a lemma about `Exec(from, ls)` is about every reachable state. (`Steps`)
4. **Theorems over every run**: no double booking, atomicity of commits,
   linearizability of acquire, conservation of money and mail, reconciliation of
   the audit log, lifecycles of quote and lock ids, occupancy as a count of seats,
   prices that do not fall, retries, and runs that refute simpler claims.
   (`BookingSafety`, `CommitHistory`, `CommitPoints`, `CommitRefinement`,
   `Linearizability`, `LockRuns`, `Ledger`, `QuoteTrail`, `Lifecycles`, `Inventory`, `Futures`,
   `QuotedPrices`, `SoloRuns`, `Races`)

`Search` is separate: which pairs a round-trip search returns, in which order, on
which page.

## Assumptions

Every run starts with empty stores and id supplies free of repetitions (they may
run out; that is modelled). The catalog is fixed during a run, there is one
currency, and amounts stay below 10^15, so that prices are exact in the decimal
context. Seat ids are the keys of the cabin. Locks are keyed by seat id alone,
whatever the flight, as in the program.

## What the code does and does not do

Where the documentation and the code differ, the model follows the code.

- **Rounding position.** The docstring at `src/flights/domain/model/quote.py:75-78`
  says amounts with at most two fractional digits are rounded to cents. The code,
  and lines 49-53, round one position coarser than the last non-zero digit.
  `CentRuleAgrees` says exactly where the two agree. Under the code's rule a larger
  raw amount can be charged less (`RoundTotalNotMonotone`), exactly when
  `RoundTotalInverted` says so and by at most 0.50 (`RoundTotalDropBounded`), and a
  later quote can cost less than an earlier one (`LaterQuoteCostsLess`).
- **The one-cent claim** of `tests/integration/http/test_quote_breakdown.py:272-279`
  is not universal: a domestic quote of 200.10 on a Monday is charged 193.60 and
  rebuilds to 194.00 (`QuotedTotalsDoNotRebuild`). `RebuiltTotal` says exactly when
  the claim holds; the gap is never more than 0.50, and that is reached.
- **Positive totals** (`tests/unit/domain/test_pricing_properties.py:57-65`) hold for
  every fare of at least 1.00 without a net surcharge discount (`TotalIsPositive`);
  a middle seat on a 1.00 fare is charged a negative total
  (`QuotedDiscountExceedsTheFare`). `QuoteIsPositiveIff` says exactly which quotes
  are charged a positive total.
- **A stored, live quote can be called expired.** `_resolve_quote` claims that a
  quote found by `get` but not by `get_valid` can only have expired
  (`src/flights/application/booking_service.py:235-239`). Quoting does not take the
  commit lock, so the quote can be stored between the two reads
  (`LiveQuoteCalledExpired`); the lock check has the same gap
  (`LiveLockCalledExpired`). It happens exactly when the first read saw no such
  quote or lock and the second finds it live (`FoundLiveMeansOvertaken`), so never
  to a caller that names a quote already stored and a lock id already issued
  (`KnownIsNotOvertaken`). `RefusalsAreAtomic` and `CommitsAreAtomic` show that
  this is the only way in which an interleaved commit differs from an atomic one.
- **Session mismatch is not reported regardless of the lifetime**, as
  `src/flights/application/booking_service.py:310-312` says: an expired lock of
  another session is reported as expired (`RefusalsAreTruthful`; a run is in
  `ForeignLockCalledExpired`).
- **`get` of the quote store ignores the lifetime**, unlike what ADR-006 says
  (`docs/product/architecture/adr-006-quote-store-and-audit-log.md:16`).
- **Running out of references strands a charge**: the reference is drawn after
  payment (`ExhaustionStrandsACharge`; every supply can be used up, by
  `ChargesWithoutBooking`). `Conservation` is exact if and only if no commit has
  run out.
- **Re-acquiring leaves the old handle valid.** A granted acquire keeps handles
  exclusive if and only if the session did not hold one of the seats live
  (`AcquireExclusiveIff`); otherwise two sessions can end up with live handles for
  one seat (`ReacquiringBreaksExclusion`). Bookings stay safe all the same
  (`NoDoubleBookingEver` assumes nothing about locks).
- **A cabin seat marked OCCUPIED** counts towards occupancy but is shown as
  available and can be booked, and then counts twice (`MarkedSeatsCountTwice`).
  `OccupancyCountsSeats` holds for every cabin and gives the difference exactly.
- **The order of audit events** of quotes relative to commits is not that of atomic
  calls: a commit may cite a quote that is stored but not reported yet, and the log
  then does not reconcile until it is (`UnreportedQuoteCited`). `AuditReconciles`
  says exactly when the reconciliation is clean.

## Model

| member | source | states |
|---|---|---|
| Rounding.HalfEvenIsNearestEven | src/flights/domain/model/money.py:19-20 | half-even rounding yields k if and only if k is a nearest integer and the even one of two equally near |
| Rounding.HalfEvenMonotone | src/flights/domain/model/money.py:19-20 | rounding to a fixed position is monotone |
| Rounding.StepByDivisibility | src/flights/domain/model/quote.py:80-94 | the position chosen from the stripped decimal exponent is the one told by divisibility: whole dollars for at most one fractional digit, ten cents for exactly two, cents beyond |
| Rounding.RoundTotalIsTiesToEven | src/flights/domain/model/quote.py:49-71 | the charged total is roundTiesToEven of the raw sum on the grid of its position, in both directions |
| Rounding.SecondQuantizeIsExact | src/flights/domain/model/quote.py:70-71 | the final quantization to cents never changes the value |
| Rounding.RoundTotalError | src/flights/domain/model/quote.py:49-71 | exactly whole dollars are charged as they are, and the error is at most 0.50, 0.05 and 0.005 for one, two and more fractional digits |
| Rounding.CentRuleAgrees | src/flights/domain/model/quote.py:75-94 | the docstring's rule of rounding to cents agrees with the code if and only if the amount is whole dollars or has more than two fractional digits |
| Rounding.RoundTotalMonotoneOnAStep | src/flights/domain/model/quote.py:49-71 | amounts rounded at the same position are rounded monotonically |
| Rounding.RoundTotalDropBounded | src/flights/domain/model/quote.py:74-95 | of any two raw sums the larger is charged at most 0.50 less than the smaller |
| Rounding.RoundTotalInverted | src/flights/domain/model/quote.py:74-95 | the larger of two raw sums is charged less if and only if the one with fewer digits is rounded past the other by more than half the other's step, told from the two sums alone |
| Rounding.RoundTotalNotMonotone | src/flights/domain/model/quote.py:74-95 | witnesses: 1.51 is charged 0.50 less than 1.50, and 228.74 less than 228.735 |
| Rounding.RoundTotalPositive | src/flights/domain/model/quote.py:55-95 | exactly which raw sums are charged a positive total |
| Breakdown.ComputeTotal | src/flights/domain/model/quote.py:55-71 | the accumulating loop computes the rounded sum of multiplied fare, surcharges, taxes and fees |
| Breakdown.RawTotalInDollars | src/flights/domain/model/quote.py:55-68 | the raw sum, in dollars, is fare times the three multipliers plus surcharges, taxes and fees |
| Breakdown.RebuiltTotal | tests/integration/http/test_quote_breakdown.py:272-279 | exactly when the total rebuilt from the displayed breakdown is within a cent of the charged one, by the digits of the two raw sums; it is exact when neither has more than two, and never more than 0.50 off |
| Quoting.QuotedTotalsDoNotRebuild | tests/integration/http/test_quote_breakdown.py:272-279 | the one-cent claim fails for quotes: 193.60 against 194.00, and 4.00 against 3.50 reaches the bound |
| Occupancy.ComparisonIsExact | src/flights/application/quote_service.py:149 | comparing the 28-digit rounded percentage with a whole bound decides as exact integer comparison, for every count and every cabin below 2 * 10^26 seats |
| Occupancy.QuotientIsCorrectlyRounded | src/flights/application/quote_service.py:149 | the quotient is the exact one rounded to the nearest decimal of 28 digits, ties to even |
| Pricing.DemandBucketIsExact | src/flights/domain/pricing.py:41-48 | decimal rounding never moves a flight across a demand threshold |
| Pricing.WorkedExamples | tests/unit/domain/test_pricing.py:29-44 | the three published totals: 228.74, 897.00 and 1944.00 |
| Pricing.PublishedSurcharges | tests/unit/domain/test_pricing_surcharges.py:34-52 | every published surcharge in dollars, and none for every other pair of class and kind |
| Pricing.TotalIsPositive | tests/unit/domain/test_pricing_properties.py:57-65 | a fare of at least 1.00 without a net surcharge discount is charged a positive total at every occupancy, date, weekday, tax and fee |
| Quoting.QuotedDiscountExceedsTheFare | src/flights/domain/pricing.py:96 | witness that the surcharge hypothesis is needed: a domestic quote of a middle seat on a 1.00 fare is charged -4.60, tax included |
| Quoting.QuoteIsPositiveIff | src/flights/domain/model/quote.py:55-95 | a quote is charged a positive total if and only if its taxed base is positive and none of the few smallest amounts |
| Bookings.SaveIsADictionaryWrite | src/flights/adapters/inmemory/booking_repository.py:21-27 | after a save the reference finds the booking and every other reference what it found before |
| Bookings.SaveKeepsKeys | src/flights/adapters/inmemory/booking_repository.py:25-34 | references stay unique among the stored bookings |
| Bookings.BookingRepository.Get | src/flights/adapters/inmemory/booking_repository.py:21-23 | a booking is answered if and only if it is stored and has the reference |
| Bookings.BookingRepository.Save | src/flights/adapters/inmemory/booking_repository.py:25-27 | the reference then finds the saved booking, every other reference what it found, and references stay unique |
| Bookings.BookingRepository.IterAll | src/flights/adapters/inmemory/booking_repository.py:29-34 | the snapshot holds a booking if and only if looking up its reference finds it |
| Bookings.OccupiedMeansBooked | src/flights/application/seat_map_service.py:101-109 | the seats collected for the map are exactly those commit finds booked |
| Bookings.FindBooked | src/flights/application/booking_service.py:294-302 | whether some confirmed booking of the flight lists the seat |
| Bookings.CountBookedSeats | src/flights/application/quote_service.py:196-204 | the summed lengths of the flight's confirmed bookings |
| Bookings.CollectOccupied | src/flights/application/seat_map_service.py:101-109 | the union of the flight's confirmed bookings' seats |
| LockTables.ConflictsInOrder | src/flights/adapters/inmemory/seat_lock_store.py:130-146 | a conflict is the request filtered, in order and with repetitions, by the seats that a live record of another session covers |
| LockTables.GrantedIff | src/flights/adapters/inmemory/seat_lock_store.py:78-87 | an acquire is granted if and only if a lock id is left and no requested seat is kept by another live session, and answered with a conflict if and only if one is |
| LockTables.AcquireMeans | src/flights/adapters/inmemory/seat_lock_store.py:69-87 | field by field: a conflict filters the request by the seats an unexpired entry of another session keeps; otherwise the lock carries the drawn id and the request's flight, seats and session, expires ten minutes after the reading and becomes the entry of exactly the requested seats |
| LockTables.OnlyInOrder | src/flights/adapters/inmemory/seat_lock_store.py:136-146 | a conflict keeps the order of the request |
| LockTables.AcquireCoherent | src/flights/adapters/inmemory/seat_lock_store.py:69-87 | acquire keeps the two indexes coherent and ids fresh, points exactly the requested seats at the new record, and changes nothing on a conflict |
| LockTables.ReleaseCoherent | src/flights/adapters/inmemory/seat_lock_store.py:89-102 | release keeps coherence, leaves no seat pointing at the lock and touches no seat of another lock |
| SeatLocks.SeatLockStore.Acquire | src/flights/adapters/inmemory/seat_lock_store.py:69-87 | check-then-install on the two indexes, with the answer and the lock id drawn |
| SeatLocks.SeatLockStore.FindConflicts | src/flights/adapters/inmemory/seat_lock_store.py:130-146 | the conflict loop computes the conflicts of the table |
| SeatLocks.SeatLockStore.InstallLock | src/flights/adapters/inmemory/seat_lock_store.py:148-173 | draws one id and indexes one record, living ten minutes, under it and under every requested seat; an empty supply changes nothing |
| SeatLocks.SeatLockStore.Release | src/flights/adapters/inmemory/seat_lock_store.py:89-102 | pops the record and the seats that still point at it; an unknown id changes nothing |
| SeatLocks.SeatLockStore.IsValid | src/flights/adapters/inmemory/seat_lock_store.py:104-115 | stored and strictly before its expiry |
| SeatLocks.SeatLockStore.Get | src/flights/adapters/inmemory/seat_lock_store.py:104-126 | at every instant the lock is valid if and only if a record is answered and the instant is before its expiry; the record carries the id |
| SeatLocks.SeatLockStore.FindActiveLockForSeat | src/flights/adapters/inmemory/seat_lock_store.py:177-196 | the seat's record if it is live |
| LockRuns.ReplaySound | src/flights/adapters/inmemory/seat_lock_store.py:63-102 | the two indexes stay coherent and issued ids unique over every history of acquires and releases |
| LockRuns.HoldIsStable | src/flights/adapters/inmemory/seat_lock_store.py:130-173 | a granted session that releases none of its locks keeps every granted seat, whatever other sessions attempt, for a lock lifetime from the grant, or from the oldest clock reading among its own later calls if one is older |
| LockRuns.HeldSeatsConflict | src/flights/adapters/inmemory/seat_lock_store.py:130-146 | while a hold lasts, an acquire of the seat by any other session is answered with a conflict naming it |
| LockRuns.AcquireExclusiveIff | src/flights/adapters/inmemory/seat_lock_store.py:143-166 | a granted acquire keeps live handles exclusive if and only if it asks for no seat its session holds live |
| LockRuns.HandleExclusion | src/flights/adapters/inmemory/seat_lock_store.py:89-173 | over every history without such re-acquires, in whatever order late calls are served, every live record is the entry of each seat it covers |
| LockRuns.ExclusiveHandles | src/flights/adapters/inmemory/seat_lock_store.py:148-166 | then no two live handles of different lock ids cover a common seat |
| LockRuns.ReacquiringBreaksExclusion | src/flights/adapters/inmemory/seat_lock_store.py:99-102 | witness: re-acquire, release the newer handle, and another session holds a second live handle |
| LockRuns.ExactlyOneWins | scripts/race_last_seat.py:87-126 | in every sequential race of distinct sessions for a free seat the first served wins and every other one gets a conflict naming the seat |
| Adapters.IdGenerator.NewBookingReference | src/flights/adapters/mocks/ids.py:50-51 | pops the head of the reference queue, or reports exhaustion |
| Adapters.IdGenerator.NewQuoteId | src/flights/adapters/mocks/ids.py:53-54 | pops the head of the quote-id queue, or reports exhaustion |
| Adapters.IdGenerator.NewSessionId | src/flights/adapters/mocks/ids.py:59-60 | pops the head of the session-id queue, or reports exhaustion |
| QuoteStores.QuoteStore.Save | src/flights/adapters/inmemory/quote_store.py:25-41 | the quote is then valid under its id at exactly the instants before its expiry, and other ids read as before |
| QuoteStores.QuoteStore.GetValid | src/flights/adapters/inmemory/quote_store.py:29-41 | the stored quote strictly before its expiry |
| QuoteStores.QuoteStore.Get | src/flights/adapters/inmemory/quote_store.py:29-53 | tells at every instant what the time-aware read answers: the same quote before its expiry, nothing after |
| Quoting.RawQuoteFormula | src/flights/application/quote_service.py:151-174 | the unrounded quote is (fare * demand * time * day + surcharges) * (1 + tax rate) + fees |
| Quoting.QuoteInputsAreExact | src/flights/application/quote_service.py:76-105 | the demand multiplier is the bucket of exact counting of cabin-unavailable and booked seats, and the days before departure are calendar days |
| Quoting.SurchargesPerSeat | src/flights/application/quote_service.py:176-194 | each requested cabin seat is charged its table amount as often as it is requested, and nothing else is charged |
| Quoting.SurchargesInOrder | src/flights/application/quote_service.py:187-194 | the lines are the requested cabin seats in the order of the request |
| Quoting.PriceMeans | src/flights/application/quote_service.py:76-105 | a price told by the calendar, an exact seat count and the published tables: days before, weekday, demand, time and day multipliers, taxes and fees |
| Quoting.QuotedMeans | src/flights/application/quote_service.py:71-130 | an answered quote field by field: id, session, request, price, thirty minutes of life; it is stored, its event tells it with its inputs, and nothing else changes but the ids used |
| Quoting.QuoteOutcome | src/flights/application/quote_service.py:72-82 | when a quote call answers an unknown flight, a departed one or an exhausted supply, and what each leaves behind |
| Quoting.QuotesRise | src/flights/application/quote_service.py:71-105 | with more seats booked and less time left the unrounded quote is no lower, the total at most 0.50 lower, and not lower at all at the same rounding position |
| Committing.RefusalsAreTruthful | src/flights/application/booking_service.py:99-141 | each refusal is given if and only if what it says is true of the stores and no earlier check fails, for every error and the first failing seat |
| Committing.SeatsErrorFirst | src/flights/application/booking_service.py:263-292 | the error of a request is that of its first failing seat |
| Committing.OutcomeMeans | src/flights/application/booking_service.py:99-222 | a commit is refused with exactly the true error and no effect, or else declined, exhausted or booked by the verdict and the supply alone |
| Committing.BookedMeans | src/flights/application/booking_service.py:143-222 | a booked commit charges the base fare or the named quote's total to the request's token; the booking, the mail and the event tell the request field by field, the reference is used up, and nothing else changes |
| Committing.BookedReleases | src/flights/application/booking_service.py:203-204 | a booked commit that names a lock takes exactly that lock out of the two indexes |
| Committing.DeclinedMeans | src/flights/application/booking_service.py:143-175 | a declined commit asked for the same amount, its event tells the request and the gateway's reason or "declined", and nothing else changes |
| Committing.ExhaustedMeans | src/flights/application/booking_service.py:143-177 | an accepted commit without a reference left has charged that amount and changed nothing else |
| Services.QuoteService.Quote | src/flights/application/quote_service.py:71-130 | one quote call does to the whole state what QuoteCall says: price, ids, store, audit, or the error and what it has consumed |
| Services.QuoteService.PriceFlight | src/flights/application/quote_service.py:84-105 | the breakdown with its recorded inputs |
| Services.QuoteService.CollectSurcharges | src/flights/application/quote_service.py:176-194 | one line per requested cabin seat, in order, unknown seats skipped |
| Services.QuoteService.SumTaxableBase | src/flights/application/quote_service.py:167-173 | the multiplied fare plus the surcharges |
| Services.BookingService.Commit | src/flights/application/booking_service.py:99-222 | one commit call does to the whole state what CommitCall says, on every path: refused checks change nothing, a decline charges and reports, exhaustion strands the charge, success books, mails, releases and reports |
| Services.BookingService.Resolve | src/flights/application/booking_service.py:227-261 | none given, live quote, not found or expired |
| Services.BookingService.ValidateSeats | src/flights/application/booking_service.py:263-292 | the first failing seat's error |
| Services.BookingService.ValidateLock | src/flights/application/booking_service.py:304-355 | not found, expired, session mismatch or passed |
| Steps.MutexEver | src/flights/application/booking_service.py:40-100 | in every reachable state at most one thread is inside a commit and at most one inside an acquire, and they own the locks |
| BookingSafety.SafeStep | src/flights/application/booking_service.py:99-222 | each step of each thread keeps the safety invariant, in particular between the seat checks and the save |
| BookingSafety.NoDoubleBookingEver | src/flights/application/booking_service.py:263-302 | over every interleaving, whatever becomes of the committers' seat locks, no two bookings of a flight share a seat, every booked seat exists and is for sale, and no reference is used twice |
| CommitPoints.StandingEver | src/flights/application/booking_service.py:118-194 | over every run, the quote, the lock and the charge a commit relies on still stand at each of its steps until it saves |
| CommitPoints.RefusalsAreAtomic | src/flights/application/booking_service.py:99-141 | over every run each check of an interleaved commit decides as the atomic call on the state of that moment with the clock the same call read, exactly unless it is a second read whose first, at a given earlier step, saw no such quote or lock and which finds it live |
| CommitPoints.FoundLiveMeansOvertaken | src/flights/application/booking_service.py:243-261 | over every run the second read of a check finds the quote or lock live if and only if the first found none stored and it has been stored since |
| CommitPoints.KnownIsNotOvertaken | src/flights/application/booking_service.py:235-239 | a commit that names only a quote stored and a lock id issued before its call is never told that a live one expired |
| CommitHistory.Began | src/flights/application/booking_service.py:100-118 | over every run the clock reading a commit works with is the one the same call made when it looked up the flight, and the thread has been in that call since |
| CommitHistory.FirstRead | src/flights/application/booking_service.py:243-246 | over every run a thread about to make the second read of a check has made the first, which found nothing valid, and has done nothing since |
| CommitPoints.BookingsAreAtomic | src/flights/application/booking_service.py:177-194 | an interleaved commit saves exactly the booking, charge and reference that the atomic call at the moment of saving does |
| CommitRefinement.ChargesAreAtomic | src/flights/application/booking_service.py:143-177 | at the moment of the charge the atomic call makes the same charge; a decline, an exhausted supply and a booking are decided by the verdict and the supply alone |
| CommitRefinement.CommitsAreAtomic | src/flights/application/booking_service.py:99-222 | over every run the finished commits are a sequence of atomic calls at the charge or the refusing check of each, with the clock each call read, in the order of return, which gives every recorded answer and writes all bookings, mail, charges, references and commit events; the only exceptions are checks overtaken between their two reads, which write nothing |
| CommitRefinement.EveryBookingIsAnswered | src/flights/application/booking_service.py:143-193 | over every run each booking answered to a caller tells its request, at the flight's base fare or at the total of the stored, unexpired quote it named |
| Races.LiveQuoteCalledExpired | src/flights/application/booking_service.py:235-261 | from every initial state with a flight to quote, a run in which a live quote is reported expired |
| Races.LiveLockCalledExpired | src/flights/application/booking_service.py:317-332 | from every initial state with a free seat, a run in which a live lock is reported expired |
| Races.UnreportedQuoteCited | tests/support/audit_replay.py:105-113 | from every initial state with a flight to quote and seats for sale, a run whose audit log does not reconcile |
| Races.ForeignLockCalledExpired | src/flights/application/booking_service.py:310-332 | from every initial state with a free seat, a run in which another session's expired lock is reported expired, not foreign |
| Races.ChargesWithoutBooking | src/flights/application/booking_service.py:148-177 | from every initial state with a flight, a run that uses up the references and charges more than it books |
| Races.LaterQuoteCostsLess | src/flights/application/quote_service.py:71-130 | a run in which the same seat is quoted at 1.30 and five days later at 1.00 |
| SoloRuns.CommitAlone | src/flights/application/booking_service.py:99-222 | a commit run without interruption has the effect and answer of CommitCall |
| SoloRuns.QuoteAlone | src/flights/application/quote_service.py:71-130 | a quote run without interruption has the effect and the answer of QuoteCall |
| SoloRuns.AloneIsARun | src/flights/application/booking_service.py:99-100 | uninterrupted calls are runs of the concurrent system, so what holds over every run holds after them |
| Linearizability.AcquireIsLinearizable | src/flights/adapters/inmemory/seat_lock_store.py:83-173 | every interleaving of acquire's steps gives the answers and indexes of the atomic calls in the order of service |
| Linearizability.RaceHasOneWinner | scripts/race_last_seat.py:87-126 | for any number of threads, any schedule and any earlier traffic, when distinct sessions race for a free seat exactly the first served gets it and the others a conflict naming it |
| Linearizability.IndexesEver | src/flights/adapters/inmemory/seat_lock_store.py:63-102 | the indexes are coherent in every reachable state between calls, and live handles exclusive if no session re-acquired |
| Linearizability.HoldEver | src/flights/adapters/inmemory/seat_lock_store.py:130-196 | a granted hold survives in the running system for its whole lifetime |
| Linearizability.GrantedSeatsConflict | src/flights/adapters/inmemory/seat_lock_store.py:83-146 | in any traffic, a later acquire by another session naming a granted seat within the grant's lifetime is answered with a conflict naming it |
| Ledger.Conservation | src/flights/application/booking_service.py:143-222 | between commits the mail queue, the bookings and the answers are one sequence, the committed events are theirs, the failure events tell quote, flight, seats and token of the commits answered as declined, one for each declined charge, and successful charges are the booked totals if and only if no commit ran out of references |
| Ledger.EffectsInOrder | src/flights/application/booking_service.py:148-221 | at every moment of every run what is booked has been charged, what is mailed, reported or answered has been booked, in the same order, and what is reported as failed has been declined |
| Ledger.ExhaustionStrandsACharge | src/flights/application/booking_service.py:148-177 | an accepted commit answers exhaustion if and only if no reference is left, and has then charged and done nothing else |
| AuditReplay.Reconcile | tests/support/audit_replay.py:77-123 | the two loops compute the mismatches in order |
| AuditReplay.MismatchMeans | tests/support/audit_replay.py:98-122 | a commit yields the missing quote when the log has none of that id, and otherwise the total the last such quote recorded and then the total charged, exactly when they differ |
| AuditReplay.MismatchesInOrder | tests/support/audit_replay.py:97-123 | the mismatches come in the order of the log |
| AuditReplay.CleanWhenEachMatches | tests/support/audit_replay.py:97-123 | the result is empty if and only if no event is a mismatch |
| AuditReplay.QuotesByIdFinds | tests/support/audit_replay.py:94-96 | the index finds an id if and only if a QuoteCreated event carries it |
| QuoteTrail.MismatchEver | tests/support/audit_replay.py:98-123 | on every run a committed event mismatches if and only if some thread has stored its quote and not yet reported it; a differing total never occurs |
| QuoteTrail.PendingUntilLogged | src/flights/application/quote_service.py:120-129 | on every run a stored quote is about to be reported by a thread if and only if it is not logged |
| QuoteTrail.AnsweredIsLogged | src/flights/application/quote_service.py:120-130 | on every run a quote has been answered to its caller if and only if it is stored and logged |
| QuoteTrail.AuditReconciles | tests/support/audit_replay.py:57-123 | the reconciliation of every reachable log is clean if and only if every quote a commit cites has been answered to its caller; every event tells its stored quote and replays to its fare and multipliers |
| SeatMaps.SeatMapService.Show | src/flights/application/seat_map_service.py:68-152 | each seat of the cabin once, in row and column order, with its class and kind: blocked if and only if the cabin marks it blocked, occupied if and only if a confirmed booking lists it or an unexpired lock of someone else covers it, available otherwise |
| SeatMaps.DisplayIsUnique | src/flights/application/seat_map_service.py:154-156 | that list is unique when no two seats share a row and column |
| SeatRows.SplitRowColumn | src/flights/application/seat_map_service.py:39-52 | the loop over the leading digits splits off the row number |
| SeatRows.RowColumnRoundTrip | src/flights/application/seat_map_service.py:40-52 | a row number and a column written one after the other are read back |
| SeatRows.RowsInOrder | src/flights/application/seat_map_service.py:154-156 | rows are ordered by their numbers, not by their writing |
| SeatRows.ColumnsInOrder | src/flights/application/seat_map_service.py:154-156 | within a row, columns are ordered by their first difference, a shorter one before its continuations |
| SeatRows.OrderSeats | src/flights/application/seat_map_service.py:154-156 | every seat once, in the order of the keys |
| SeatMaps.SeatMapService.CollectLocked | src/flights/application/seat_map_service.py:111-137 | the cabin seats that a live lock keeps from the requester |
| SeatMaps.MapAgreesWithAcquireAndCommit | src/flights/application/seat_map_service.py:139-152 | a seat is shown available to a session if and only if commit's seat check passes it and an acquire of it by the session is granted now |
| SeatMaps.ConflictsAreTheMapsLockedSeats | src/flights/application/seat_map_service.py:111-137 | an acquire's conflict is the request filtered, in order, by the seats the map hides from the session, if and only if no requested seat outside the cabin is kept by another session |
| SeatMaps.AnonymousMeansEveryone | src/flights/application/seat_map_service.py:134-135 | the anonymous map shows a seat available if and only if every session's map does |
| Inventory.CountMeasuresSet | src/flights/application/quote_service.py:196-204 | without double booking, the summed booking lengths are the number of occupied seats if and only if no booking repeats a seat |
| Inventory.OccupancyCountsSeats | src/flights/application/quote_service.py:132-149 | in every reachable state the occupancy numerator is the number of seats the lock-free map shows as not available plus the seats the cabin marks as occupied and the repetitions within bookings; it is that number if and only if there is neither |
| Inventory.DemandFollowsTheSeatMap | src/flights/application/quote_service.py:84-105 | in every reachable state a quote's demand multiplier is the bucket of that count |
| Inventory.OccupancyOfPlainRequests | src/flights/application/quote_service.py:132-204 | when no commit call of the run lists a seat twice, the numerator is the number of seats not available if and only if the cabin marks none as occupied |
| Inventory.MarkedSeatsCountTwice | src/flights/application/quote_service.py:143-149 | a run in which a seat marked occupied is shown available, is booked, and makes a one-seat flight 200 percent occupied |
| Futures.LaterEver | src/flights/adapters/inmemory/quote_store.py:25-27 | along every run bookings are only added and stored quotes are never dropped or replaced |
| Futures.QuotesRiseAlongRuns | src/flights/application/quote_service.py:71-105 | between any two moments of any run the unrounded quote never falls and the total falls by at most 0.50 |
| QuotedPrices.LaterQuotesCostNoLess | src/flights/application/quote_service.py:71-130 | over every run, a quote called after another one for the same flight and seats was stored has no lower unrounded price, a total at most 0.50 lower, and no lower total at the same rounding position |
| Futures.ChecksPassLater | src/flights/application/booking_service.py:118-147 | a request that passes the checks passes them later if and only if its quote and lock live and its seats are unbooked, for the same amount |
| Futures.RetryAfterDecline | src/flights/application/booking_service.py:148-194 | after a decline and any run, the same request with any payment token that is accepted books, and charges that token the same amount, if and only if its quote and lock live, its seats are unbooked and a reference is left |
| Lifecycles.QuoteLife | src/flights/adapters/inmemory/quote_store.py:29-53 | over every run a stored quote stays and is valid for exactly the half-open thirty minutes from its creation; an id not issued is not stored |
| Lifecycles.LockLife | src/flights/application/booking_service.py:203-204 | over every run a stored lock keeps its record and is valid exactly until its expiry, once gone stays gone and is reported not found, and is named by at most one booked commit, which ends it |
| Lifecycles.LockWindow | src/flights/adapters/inmemory/seat_lock_store.py:104-166 | every stored lock was granted by a served call for that call's flight, seats and session, and is valid for exactly the half-open ten minutes from its clock reading |
| Lifecycles.ReleasedMeansBooked | src/flights/application/booking_service.py:194-204 | over every run, whenever a commit has released its lock, its booking is already stored |
| Search.SortIsStable | src/flights/application/search_service.py:188-193 | the result is sorted by the two departures, has the same pairs and keeps the order of equal keys |
| Search.StableSortIsUnique | src/flights/application/search_service.py:188-193 | any sorted list that keeps the order of equal keys is this one |
| Search.FilterOrderIsIrrelevant | src/flights/application/search_service.py:172-187 | price filter and time window commute |
| Search.RoundTripIsExact | src/flights/application/search_service.py:142-199 | each pair with the asked places, days and airline on both legs, two hours from landing to return, the sum of fares in the price bounds and the outbound time of day in the window is returned once per choice of its two flights, and no other pair is |
| Search.RoundTripIsOrdered | src/flights/application/search_service.py:156-193 | the pairs come by outbound departure, then return departure, then the catalog's order of the two flights |
| Search.PagesCover | src/flights/adapters/http/app.py:111-113 | the pages one after the other are the list without gap or overlap |

## Left out

- HTTP routing, request and response schemas and status codes, except the page slice and the cents of displayed taxes and fees.
- Several currencies and the currency-mismatch errors.
- JSONL files, string and ISO time formatting: events are datatypes, totals are integers.
- Time zones: every time is UTC, and a day is a day of that clock.
- Decimal overflow beyond the 28-digit context: amounts stay below 10^15.
- SeatMaps.SeatMapService.Show: seats that share a row and column, such as 1A and 01A, come in an unspecified order, not in that of the cabin's listing; digits are the ten ASCII ones.
- Search.RoundTripIsOrdered: the local list that the program rebinds and sorts in place is modelled on values, as a stable sort; one-way search and the passenger count are not modelled.
- Adding flights or changing a cabin during a run; other booking states than CONFIRMED never arise, since only commit creates bookings.
- Direct release calls by clients in the concurrent system, where only commits release; `LockRuns` covers histories with arbitrary releases.
- CommitRefinement.CommitsAreAtomic: covers what commits alone write; the release of the lock takes place later than the rest of a commit and is a call of its own in the history of `Linearizability`, and the place of commit events among those of quotes is described by `QuoteTrail`.
- Finer steps than store calls: the flight lookup shares a step with the clock or booking read after it, the two ids of a quote are drawn in one step, and returning shares a step with giving up a lock.
- The seat-map view is not a thread of the concurrent system: it is related to the other services on the state of one moment.
- The payment gateway's history of charges: the program's gateway keeps none; the model's is for stating conservation.
- The reentrancy and fairness of the locks: a thread may wait forever.
- What commit does not check stays unchecked: that the lock covers the requested seats or flight, that the quote matches the request, that a quote is used once.
- Unimplemented scaffolds (`rules.py`, `Quote.is_valid`, `UuidIdGenerator`), production wiring and the delegating services.
- Passenger details beyond their names, and booking history.
