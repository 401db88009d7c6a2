# What the carpool optimizer guarantees

A Dafny model of the carpool optimizer and of the service parts around it, with proofs of what they promise. The
solver (`packages/domain`) is the centre: exact sequencing of one car, the objective, insertion, greedy construction,
large neighbourhood search and the independent checker. Around it stand the set-partitioning model used to measure it
(`packages/bench`), the rate limiter, the elimination of unroutable addresses, the optimization-job and roster
protocols (`apps/api`), and the reading of a pasted roster (`apps/web`).

Code that computes by expressions is a function here; code that loops or changes state is a method, a class where the
source has one, proved against a function or a stated property. Random draws, the progress callback and the acceptance
of worse states are arbitrary, so every statement about a search holds for every run of it. Costs are `real`, seconds
are `int`, the travel matrix is any directed integer matrix. `Models.NodeId` is an integer: identifiers are only
compared for equality and order.

## How it is laid out

- `Models`, `Sorting`: the data, times along a path, sets of people and sums over them in any order.
- `Legs`, `Bits`, `HeldKarp`, `TwoOpt`, `Objective`, `Sequence`, `Worsening`, `LongCar`: the order of one car's stops,
  its price, and when putting them in order makes it dearer.
- `Feasibility`, `Validation`, `Outcome`: what a car and an answer may not do, and what an empty report means.
- `Insertion`, `Fleet`, `Offers`, `Search`, `Seating`, `Greedy`, `Shortage`: seating riders, with and without memory,
  and whether the seats go round.
- `Evaluation`, `Accounting`, `Answers`, `Moves`, `Warm`, `Lns`: the search, its running total and its moves.
- `Hypotheses`, `Stranding`: inputs on which the solvers' promises fail, and exactly when they do.
- `Enumeration`, `Columns`, `Partition`, `Exact`, `Optimum`, `Coverage`: the set-partitioning model.
- `RateLimit`, `Unroutable`, `RosterProtocol`, `JobProtocol`, `RosterParse`: one module for each of the smaller cores;
  `RosterWriting` writes rosters and reads them back.

`dafny verify dfyconfig.toml` checks all of it.

## What the results rest on

- `Greedy.SoloFeasible`: whoever has their car opened without a check may drive there and back alone: the committed,
  and flexible people whom a rider is pinned to (`greedy.py:179-181`, `201-206`). `Hypotheses.NobodyRidesExactly` shows
  that without riders this is exactly what a legal answer needs.
- `Greedy.PinsAreOneDeep`: no flexible rider is both pinned and pinned to by a rider, themselves included.
  `Hypotheses.PinsPlaceTwiceExactly`: exactly when this fails does greedy's pin loop put somebody in two places, and
  nothing else about the event matters. `Hypotheses.SelfPinRidesInOwnCar` is a roster of one on which it happens.
- `Moves.PoolPinsAreOneDeep`: the same for the search, which may also have to seat flexible people who take neither leg.
  Passengers may be pinned and pinned to. The search may open a car for one of them and even seat them elsewhere;
  then the recheck throws the move away, since they cannot drive.
- `Outcome.NobodyLate`: the checker's `late_arrival` complaint does not depend on the answer, so an answer of either
  solver is clean if and only if nobody has to arrive before the event takes arrivals.
- `Warm.Repairable`: the earlier answer has nobody in two places, and nobody who keeps their seat has come to need a
  leg they were not carried on. `Warm.KeptIsGoodExactly`: this is exactly when a repaired car is coherent,
  and `Hypotheses.RepairLosesALeg` is an answer whose rider keeps the way out and loses the way back, in a car that
  passes on its own.
- `Answers.Startable`: an answer given to the search as `initial` keeps every rule, committed drivers included.
- `Optimum.PricedExactly`: at most twelve stops a leg, and no order of a car's stops beats the driver's direct trip
  (or the detour weight is zero). `Optimum.MinimumIsOptimalSequenced` needs neither, among answers whose cars are
  ordered by the sequencer the columns were priced with.
- CP-SAT is assumed to return a minimum-cost selection; nothing else about it.
- Rate limiting: positive limits and periods, one rule for a name, a clock that does not run backwards.
- Jobs: a live solve does not outlive its lease, and "solved once" is said of jobs that kept the fingerprint they were
  enqueued with.

## Where the code and its documentation part

- `resequence` does not always leave a car no dearer (`sequence.py:181`): the sequencer folds the detour weight into
  every edge, while the objective stops the detour at zero. `Sequence.ResequenceCanWorsen` is a car it makes dearer.
  Up to twelve stops a leg, some non-negative weights make it dearer exactly when some order of the car's stops is
  shorter than the driver's direct trip and no order is both the shortest and the best for its riders
  (`Worsening.CanWorsenExactly`); under given weights, exactly when the undercut is charged more than the legs save
  (`Worsening.DearerExactly`).
- Past twelve stops it can also be dearer for want of a better order: `LongCar.LongCarWorsens` is a car of thirteen
  stops, undercut by no order, that comes back five times as long in an order no reversal improves.
- `ruin` puts a flexible driver whose car it closes into the pool "as a rider" (`lns.py:210-218`), riding or not, and
  `recreate` has distances for riders only (`lns.py:127-133`, `317`). `Stranding.ClosingStrandsExactly` says exactly
  when that makes a rebuild fail, and `Stranding.IdleDriverStrands` is a legal answer of one car on which it does. So
  `Lns.Solve` may return nothing; it never does when nobody is stranded where it begins (`Fleet.NoneStranded`), as
  nobody is in greedy's answers. `RosterProtocol.FlexibleCanNeedNoLeg` is how such a driver comes about.
- The exact model counts a group's people against the seats (`exact.py:125`), while a car's seats are counted leg by
  leg (`objective.py:56-80`). Someone only going out and someone only coming back may share a seat, and no column has
  both. `Coverage.ColumnsCoverExactly` says when every legal answer is made of columns: exactly when, for every
  driver, there are no such two riders, or no seats, or no more riders than seats. `Coverage.SharingIsMissed` is an
  event of three on which every decoded answer is dearer than a legal one by far more than rounding.
- `validate` passes a car that drops the same rider off twice, when they also ride out (`validate.py:116-125`).
  `Hypotheses.DroppedTwicePasses` is one; `Outcome.CleanIsSeparateExactly` says this is all it misses.
- `patch_participant` checks that a passenger offers no seats on the row it loaded before taking the lock
  (`participants.py:313-336`). `RosterProtocol.PassengerCanOfferSeats` is an interleaving of two edits that breaks the
  rule, `RosterProtocol.SeatRuleExactly` the exact condition. The rule that everyone needs a leg fails
  the same way (`participants.py:337-344`, `RosterProtocol.LegRuleExactly`). The cap holds in every interleaving, and
  every pin names somebody else on the roster.
- That a pin names somebody who can drive is checked when it is written (`participants.py:190-194`) and not when the
  driver is edited. `RosterProtocol.PinToPassenger` breaks it with no two transactions at once;
  `RosterProtocol.PatchPinsDriveExactly` says which edits do, and `RosterProtocol.PinsDriveUnlessDemoted` that nothing
  else does.
- Looking for a finished job before the insert is not enough (`optimizations.py:367-390`):
  `JobProtocol.FirstLookIsNotEnough` is a reachable state in which the insert goes through for a solved problem.
- `seat_short` compares seats with riders, "so someone is left out whatever a solver does" (`greedy.py:79-87`). Not so:
  someone only going out and someone only coming back share a seat, and whoever is flexible may drive.
  `Shortage.ShortIsNotEnough` is an event that is short and leaves nobody out. Where only roles and seats can be
  broken, somebody is left out in every legal answer exactly when one leg has more passengers than there are seats
  (`Shortage.EveryoneRidesExactly`); whatever else may be broken, then too (`Shortage.SomebodyIsLeftOut`).
- A roster pasted without a header comes back whole exactly when its first person is not taken for one
  (`RosterWriting.RosterRoundTripExactly`); under a header it always does (`RosterWriting.HeadedRoundTrip`).

## Model

| member | source | states |
|---|---|---|
| Models.ScheduleForward | packages/domain/src/carpool_domain/models.py:224-233 | the loop gives every node of the path its time: the last one at the start plus the whole path |
| Models.TimesAlongDistinct | packages/domain/src/carpool_domain/models.py:224-233 | on a path that repeats no node, the time at a stop is the length of the path up to it |
| Models.BackwardTimes | packages/domain/src/carpool_domain/models.py:236-244 | a schedule counted back from a deadline reaches the last node exactly on it |
| Models.OutboundSchedule | packages/domain/src/carpool_domain/models.py:247-252 | the outbound schedule times exactly the car and its stops, and reaches the venue on time |
| Models.OutboundTimes | packages/domain/src/carpool_domain/models.py:236-252 | everyone on the way out is left as long before the deadline as the rest of the way takes |
| Legs.LegCost | packages/domain/src/carpool_domain/sequence.py:34-44 | the loop over edges is the occupancy-weighted cost of the leg |
| Legs.OrderAsPick | packages/domain/src/carpool_domain/sequence.py:47-95 | any order of the same stops, repeats included, is a permutation of their positions |
| HeldKarp.FillTables | packages/domain/src/carpool_domain/sequence.py:56-80 | the filled tables hold only costs of real orders and no order of any subset beats its entry |
| HeldKarp.TraceIsOrder | packages/domain/src/carpool_domain/sequence.py:72-93 | following `came_from` gives an order visiting exactly the mask at exactly the table cost |
| HeldKarp.TableIsLowerBound | packages/domain/src/carpool_domain/sequence.py:62-80 | every way of visiting a subset costs at least its entry |
| HeldKarp.HeldKarp | packages/domain/src/carpool_domain/sequence.py:47-95 | the order returned is a permutation of the stops and no other permutation costs less, for every matrix and occupancy |
| TwoOpt.NearestNeighbour | packages/domain/src/carpool_domain/sequence.py:106-115 | a permutation of the stops, each the nearest still left, the earliest of equals |
| TwoOpt.OrdersAboveLeast | packages/domain/src/carpool_domain/sequence.py:98-128 | the costs of all orders of the stops are bounded below, negative weights or not |
| TwoOpt.HeadroomShrinks | packages/domain/src/carpool_domain/sequence.py:98-128 | an improvement by the margin uses up a natural number of steps, which is why the fallback ends |
| TwoOpt.NearestNeighbourThen2Opt | packages/domain/src/carpool_domain/sequence.py:98-128 | ends for every matrix at a permutation no dearer than nearest neighbour, which no reversal improves by more than 1e-9 |
| Objective.OutboundRide | packages/domain/src/carpool_domain/objective.py:46-80 | time aboard on the way out is each edge times the riders already picked up |
| Objective.InboundRide | packages/domain/src/carpool_domain/objective.py:46-80 | time aboard on the way back is each edge times the riders still to drop off |
| Objective.AloneMetrics | packages/domain/src/carpool_domain/objective.py:58-80 | a driver alone goes straight there and back: no detour, nobody aboard, no seat taken |
| Objective.MetricsAgainstAlone | packages/domain/src/carpool_domain/objective.py:58-80 | a car's direct time is its driver's round trip alone, there and back; its detour is how far its own round trip exceeds that, never below nothing; the seats used are the fuller leg's |
| Objective.RouteCostWrittenOut | packages/domain/src/carpool_domain/objective.py:108-115 | a car is charged each weight on its own seconds |
| Objective.PathCostSplits | packages/domain/src/carpool_domain/sequence.py:34-44 | a leg cost is weighted drive time plus weighted occupied time |
| Sequence.SequenceLeg | packages/domain/src/carpool_domain/sequence.py:131-154 | a permutation; of up to twelve stops no order at all is cheaper; beyond, no dearer than nearest neighbour, settled under reversals, and nearest neighbour itself if that is settled |
| Sequence.Resequence | packages/domain/src/carpool_domain/sequence.py:180-186 | the same car and riders, each leg in sequenced order; a leg of up to twelve stops costs no more than in any other order |
| Sequence.RouteCostIsLegTotal | packages/domain/src/carpool_domain/sequence.py:142-146 | the objective of a car is the two leg costs, less the commute, plus the detour charge the clamp forgives |
| Sequence.ResequenceBound | packages/domain/src/carpool_domain/sequence.py:180-186 | up to twelve stops a leg, clamp charge aside, no order of the same riders is priced below the resequenced one |
| Sequence.ResequenceOptimal | packages/domain/src/carpool_domain/sequence.py:180-186 | with no order undercutting the direct trip, or no detour weight, the resequenced car is the cheapest way to carry its riders |
| Sequence.WorseOnlyByUndercutting | packages/domain/src/carpool_domain/sequence.py:180-186 | up to twelve stops a leg, a car resequencing makes dearer has a round trip shorter than the direct one and than before |
| Sequence.ResequenceCanWorsen | packages/domain/src/carpool_domain/sequence.py:180-186 | a concrete car that resequencing makes strictly dearer |
| Sequence.ReversedLegCost | packages/domain/src/carpool_domain/sequence.py:157-177 | on a symmetric matrix an order and its reverse cost the same out and back |
| Sequence.ReversedIsOptimal | packages/domain/src/carpool_domain/sequence.py:157-177 | on a symmetric matrix the reverse of any optimal way out is an optimal way back |
| LongCar.LongCarWorsens | packages/domain/src/carpool_domain/sequence.py:98-128 | a car of thirteen stops that no order undercuts, five times as dear once resequenced |
| Worsening.DearerExactly | packages/domain/src/carpool_domain/sequence.py:142-146 | under one set of weights a car is dearer than another order of it exactly when the extra undercut is charged more than the legs save |
| Worsening.CanWorsenExactly | packages/domain/src/carpool_domain/sequence.py:180-186 | up to twelve stops a leg, some weights make resequencing dearer exactly when an order undercuts the direct trip and none is best at both; some then do so however ties are broken |
| Feasibility.ViolatedConstraints | packages/domain/src/carpool_domain/validate.py:47-92 | exactly the rules the car breaks, less the ignored ones |
| Feasibility.RouteFeasible | packages/domain/src/carpool_domain/validate.py:95-108 | true exactly when the car breaks no rule |
| Feasibility.CarRulesExactly | packages/domain/src/carpool_domain/validate.py:47-92 | the driver is a passenger; a leg has more riders than seats; or the round trip exceeds the direct one by more than the cap |
| Feasibility.TimeRuleExactly | packages/domain/src/carpool_domain/validate.py:47-92 | somebody on the way out would have to leave before their earliest departure for the rest of the way to end at the deadline |
| Feasibility.PinRuleExactly | packages/domain/src/carpool_domain/validate.py:47-92 | somebody aboard is pinned to another driver |
| Validation.CountAssignments | packages/domain/src/carpool_domain/validate.py:116-125 | how often each person is assigned, both legs of one car counting once |
| Validation.CheckAssignments | packages/domain/src/carpool_domain/validate.py:127-142 | exactly the unknown, duplicate and missing assignments |
| Validation.CheckRoute | packages/domain/src/carpool_domain/validate.py:144-227 | exactly the complaints one car deserves |
| Validation.Validate | packages/domain/src/carpool_domain/validate.py:111-242 | exactly the justified violations, or the lookup failure of a route that names a stranger |
| Validation.CleanIsUnjustified | packages/domain/src/carpool_domain/validate.py:111-242 | no violation is justified exactly when everyone is placed once, every car is legal and every rider is on the legs they need |
| Outcome.WellFormedIsClean | packages/domain/src/carpool_domain/validate.py:111-242 | a state whose cars are legal and where everyone is in exactly one place passes the checker, late arrivals aside |
| Outcome.CleanIsSeparateExactly | packages/domain/src/carpool_domain/validate.py:116-142 | an answer the checker passes has nobody in two places exactly when no car drops anyone off twice |
| Hypotheses.DroppedTwicePasses | packages/domain/src/carpool_domain/validate.py:120-123 | a car that drops one rider off twice passes the checker |
| Insertion.CostMemo.Cost | packages/domain/src/carpool_domain/lns.py:140-146 | a remembered price is the true price, also after the table is dropped |
| Insertion.FindInsertion | packages/domain/src/carpool_domain/greedy.py:47-76 | the loops over both legs compute the first cheapest feasible position |
| Insertion.BestInsertionIsBest | packages/domain/src/carpool_domain/greedy.py:47-76 | none exactly when no pair of positions is feasible; otherwise feasible, exactly priced and cheapest of all pairs, the earliest of equals |
| Insertion.FullCarRefusesEveryPosition | packages/domain/src/carpool_domain/greedy.py:56-64 | the early exit on seats refuses only cars every position of which is infeasible |
| Fleet.GoodIsPlain | packages/domain/src/carpool_domain/models.py:184-210 | a coherent car visits no node twice on a leg, so the pricing results apply to it |
| Fleet.SeatInto | packages/domain/src/carpool_domain/greedy.py:47-76 | seating a new rider keeps the cars coherent and places exactly one person more |
| Fleet.Without | packages/domain/src/carpool_domain/lns.py:90-95 | the car without the rider carries everyone else, with the same driver |
| Fleet.ShrinkCar | packages/domain/src/carpool_domain/lns.py:90-95 | taking people out of a car leaves the rest coherent and unplaces exactly them |
| Fleet.CloseCar | packages/domain/src/carpool_domain/lns.py:214-221 | closing a car unplaces exactly its driver and its riders |
| Offers.GreedyOfferHolds | packages/domain/src/carpool_domain/greedy.py:133-155 | greedy offers only what holds: that rider added to that car, feasible, at the exact price |
| Offers.SearchOfferHolds | packages/domain/src/carpool_domain/lns.py:311-336 | the search offers only what holds, churn included |
| Offers.OfferIsExact | packages/domain/src/carpool_domain/lns.py:323-336 | the price is what seating adds: to the car and the churn, or a new car and its trip |
| Offers.GreedyOfferIsCheapest | packages/domain/src/carpool_domain/greedy.py:133-155 | greedy offers the cheapest seat among its candidates or a car of their own, a seat on a tie, and nothing exactly when there is neither |
| Offers.SearchOfferIsCheapest | packages/domain/src/carpool_domain/lns.py:311-336 | the search offers the cheapest seat among its candidates, churn included, or a car of their own, and nothing exactly when there is neither |
| Offers.GreedyTakesNearest | packages/domain/src/carpool_domain/greedy.py:133-155 | the candidates are the open cars nearest by drive from the rider, the least ids of equals, as many as asked for, in that order |
| Search.SearchTakesNearest | packages/domain/src/carpool_domain/lns.py:127-133 | the candidates are the open cars of other people nearest by drive from the rider, as many as asked for but at least one, in that order |
| Offers.OfferStands | packages/domain/src/carpool_domain/greedy.py:121-128 | an offer into one car still holds after another car has changed |
| Search.Searcher.constructor | packages/domain/src/carpool_domain/lns.py:99-136 | the memo tables start empty and the drivers nearest each rider are sorted once |
| Search.Searcher.Insertion | packages/domain/src/carpool_domain/lns.py:173-184 | the remembered insertion is the one `best_insertion` finds |
| Search.Searcher.Tidy | packages/domain/src/carpool_domain/lns.py:186-195 | the car in sequenced order, or as it was when that order breaks a rule |
| Search.Searcher.MakeOffer | packages/domain/src/carpool_domain/lns.py:311-336 | the loop over nearest cars offers the cheapest of the first open ones or a car of their own, none exactly when no seat is feasible and they may not drive alone |
| Search.MakeGreedyOffer | packages/domain/src/carpool_domain/greedy.py:133-155 | the loop offers the cheapest of the nearest open cars or a car of their own, none exactly when no seat is feasible and they may not drive alone |
| Seating.RefusedExactly | packages/domain/src/carpool_domain/lns.py:311-336 | refused exactly when no car tried has a feasible place for the rider and they may not drive alone |
| Seating.TakeOffer | packages/domain/src/carpool_domain/greedy.py:120-122 | taking a standing offer seats exactly that rider in a feasible car and drops nobody |
| Seating.Cheapest | packages/domain/src/carpool_domain/greedy.py:110-118 | the chosen rider has the least price, times their factor where there is one, and the least id among equals |
| Seating.Refresh | packages/domain/src/carpool_domain/greedy.py:121-129 | after a car changes every standing offer holds again and every refusal dates from after the last car was opened |
| Seating.SeatCheapestFirst | packages/domain/src/carpool_domain/greedy.py:95-130 | every round takes the cheapest of offers that all still hold; riders are seated or returned, each once, and those returned were refused since the last car was opened |
| Seating.SeatOne | packages/domain/src/carpool_domain/lns.py:294-299 | the rider takes exactly the offer the cars make, or nothing changes |
| Seating.SeatInOrder | packages/domain/src/carpool_domain/greedy.py:217-223 | each in turn takes the offer the cars then make; riders are seated or returned, each once, and those returned were refused |
| Seating.StillTurnedAway | packages/domain/src/carpool_domain/greedy.py:198-223 | cars only gain, so whoever was turned away once is accounted for to the end |
| Greedy.SeatPinned | packages/domain/src/carpool_domain/greedy.py:198-212 | one pinned rider: the car opened if need be, then the cheapest seat in it, or left out because it has none |
| Greedy.SeatAllPinned | packages/domain/src/carpool_domain/greedy.py:198-212 | every pinned rider in roster order is in their driver's car or left out, and left out only when refused |
| Greedy.PinnedInRosterOrder | packages/domain/src/carpool_domain/greedy.py:198-199 | whoever is earlier on the roster has their turn earlier |
| Greedy.FurthestFirstIs | packages/domain/src/carpool_domain/greedy.py:192-219 | every unpinned rider once, nobody before somebody with a longer drive to the venue, the lesser id first of equals |
| Greedy.PinsStrandNobody | packages/domain/src/carpool_domain/greedy.py:198-206 | a flexible driver whose car the pin loop opens rides, or somebody without a car is pinned to them |
| Greedy.TidyAll | packages/domain/src/carpool_domain/greedy.py:225-233 | every car in sequenced order or as it stands, still legal, with the same people |
| Greedy.Construct | packages/domain/src/carpool_domain/greedy.py:178-234 | for both orders a legal answer with everyone in one place and nobody left out who was not turned away, reached by pins in roster order, then those with the longest drive to the venue first or cheapest first, then tidying |
| Greedy.Solve | packages/domain/src/carpool_domain/greedy.py:158-175 | a legal answer, clean exactly when nobody is late by themselves: the furthest-first construction, or where seats are short the cheapest-first one if it costs strictly less |
| Shortage.EveryoneRidesExactly | packages/domain/src/carpool_domain/greedy.py:79-87 | where only roles and seats can be broken, a legal answer leaving nobody out exists exactly when on neither leg there are more passengers than seats of all who can drive |
| Shortage.SomebodyIsLeftOut | packages/domain/src/carpool_domain/greedy.py:79-87 | when a leg has more passengers than all the seats there are, every legal answer leaves one of them out |
| Shortage.ShortExactly | packages/domain/src/carpool_domain/greedy.py:79-87 | the seats are short when there are fewer than people who ride, counted over both legs and whether or not they could drive |
| Shortage.ShortLeavesOut | packages/domain/src/carpool_domain/greedy.py:79-87 | where all riders are passengers on the same leg, short means that every legal answer leaves one out |
| Shortage.ShortIsNotEnough | packages/domain/src/carpool_domain/greedy.py:79-87 | one seat, one passenger out and another back: short, and everyone can be carried |
| Hypotheses.PinTurnCoherentExactly | packages/domain/src/carpool_domain/greedy.py:198-212 | a pin step puts somebody in two places exactly when it opens a rider's car or seats a driver |
| Hypotheses.PinsPlaceTwiceExactly | packages/domain/src/carpool_domain/greedy.py:198-212 | the pin loop leaves somebody driving and also seated or left out exactly when some flexible rider is both pinned and pinned to |
| Hypotheses.SelfPinRidesInOwnCar | packages/domain/src/carpool_domain/greedy.py:198-212 | a flexible participant pinned to themselves rides in their own car |
| Hypotheses.NobodyRidesExactly | packages/domain/src/carpool_domain/greedy.py:179-181 | with nobody to carry, a legal answer exists exactly when every committed driver may drive alone |
| Evaluation.CostSumIsPrice | packages/domain/src/carpool_domain/objective.py:94-124 | the cars' costs add up to the price of the summed drive, ride and detour seconds |
| Evaluation.OneCarMore | packages/domain/src/carpool_domain/objective.py:94-124 | no answer costs nothing, and one more car is charged for itself and for its seconds |
| Evaluation.OneMoreLeftOut | packages/domain/src/carpool_domain/objective.py:104-115 | whoever is left out is charged for once, and once more for every point of priority |
| Evaluation.PartingIsCharged | packages/domain/src/carpool_domain/objective.py:83-91 | against an earlier answer exactly those who ride in both with different drivers are charged for |
| Evaluation.MovedSumIsChurn | packages/domain/src/carpool_domain/objective.py:83-91 | with nobody in two cars, counting moved riders car by car is the objective's churn |
| Evaluation.TotalIsEvaluate | packages/domain/src/carpool_domain/lns.py:148-166 | on every coherent state the search's total is the objective's, churn included |
| Accounting.OneCarChanges | packages/domain/src/carpool_domain/lns.py:148-156 | changing or opening one car changes the total by that car's charge alone |
| Accounting.OfferIsTheChange | packages/domain/src/carpool_domain/lns.py:311-336 | taking a standing offer changes the total, churn included, by exactly its price |
| Answers.CarsOfInOrder | packages/domain/src/carpool_domain/lns.py:430 | listing the cars in order and reading them back gives the same state |
| Answers.EvaluateIsTotal | packages/domain/src/carpool_domain/lns.py:430-431 | an answer listed in any order is charged by the objective what the search's total says |
| Moves.DrawScale | packages/domain/src/carpool_domain/lns.py:301-309 | every rider's factor is between a half and one and a half |
| Moves.ChooseRemoved | packages/domain/src/carpool_domain/lns.py:224-241 | any of the size drawn, or those nearest one rider, nobody left behind being nearer |
| Moves.EmptyOneCar | packages/domain/src/carpool_domain/lns.py:209-221 | the car's riders are taken out, and its driver too exactly when not committed |
| Moves.Ruin | packages/domain/src/carpool_domain/lns.py:199-245 | nobody is removed only when nobody rides; otherwise one car's people, or at most a quarter of those seated and thirty (one at least), leave, exactly those returned, and every other stop stays where it was |
| Moves.RecreateAllPinned | packages/domain/src/carpool_domain/lns.py:255-268 | the pinned by id, each seated or refused; after that everybody still waiting is pinned to nobody |
| Moves.RecreatePinned | packages/domain/src/carpool_domain/lns.py:255-268 | a pinned rider takes the cheapest place in their driver's car or is refused by it; a car is opened only for someone waiting |
| Moves.Recreate | packages/domain/src/carpool_domain/lns.py:247-292 | everyone waiting is seated, pins by id before the rest in turn or cheapest first, or left out having been turned away, and nobody seated loses their seat; or somebody waits whom there are no distances for |
| Moves.SwapIsSound | packages/domain/src/carpool_domain/lns.py:388-404 | exchanging two riders of two cars leaves everyone in one place, on their legs |
| Moves.Swap | packages/domain/src/carpool_domain/lns.py:388-404 | two unpinned riders change to the cheapest places in each other's cars, or nothing changes because two drawn could not |
| Warm.KeptIsGood | packages/domain/src/carpool_domain/lns.py:352-373 | with no leg newly needed, what is kept of a car is coherent and carries nobody who drives |
| Warm.KeptIsGoodExactly | packages/domain/src/carpool_domain/lns.py:352-373 | what is kept of a car is coherent exactly when nobody kept has come to need a leg they were not on |
| Warm.WarmDriversExactly | packages/domain/src/carpool_domain/lns.py:347-349 | a car goes to exactly the committed and whoever is flexible and drove before |
| Warm.KeptExactly | packages/domain/src/carpool_domain/lns.py:351-371 | on either leg exactly those stay who need it, do not drive and may ride with this driver |
| Warm.StayInOrder | packages/domain/src/carpool_domain/lns.py:366-371 | those who stay keep their order |
| Hypotheses.RepairLosesALeg | packages/domain/src/carpool_domain/lns.py:362-374 | a rider who now needs both legs keeps the way out alone, in a car that passes on its own and is not coherent |
| Warm.KeepCars | packages/domain/src/carpool_domain/lns.py:361-376 | every earlier car with its driver is kept in sequenced order when it passes, and emptied when not |
| Warm.WarmStart | packages/domain/src/carpool_domain/lns.py:338-386 | every earlier car is kept or emptied and the rest rebuilt: everyone is in one place, kept riders keep their seats, and nobody is left out who was not turned away |
| Lns.MoveStrandsNobody | packages/domain/src/carpool_domain/lns.py:456-465 | a move opens cars only for riders and for drivers whose cars it closed, so it strands nobody |
| Stranding.ClosingStrandsExactly | packages/domain/src/carpool_domain/lns.py:209-317 | closing a flexible driver's car leaves somebody in the pool the search has no distances for exactly when the driver takes neither leg, is pinned to nobody and nobody in their car or left out is pinned to them |
| Stranding.RaisesOnlyIfStranded | packages/domain/src/carpool_domain/lns.py:209-317 | whatever is ruined, a rebuild fails only in a state with an idle, unpinned driver to whom no rider outside the cars is pinned |
| Stranding.IdleDriverStrands | packages/domain/src/carpool_domain/lns.py:209-221 | the empty car of one flexible participant who takes neither leg is a legal answer, and closing it makes every rebuild fail |
| Lns.PriceState | packages/domain/src/carpool_domain/lns.py:148-166 | the remembered total is the total of the state, churn included |
| Lns.Recheck | packages/domain/src/carpool_domain/lns.py:467-483 | exactly the changed cars are put in sequenced order, which makes the whole state legal; a rejected move left a car infeasible |
| Lns.Move | packages/domain/src/carpool_domain/lns.py:456-483 | whatever is drawn, a move exchanges two riders or takes some out and rebuilds, then tidies, and lands in a legal state, or comes to nothing for a reason that holds, or fails on a stranded driver |
| Lns.Begin | packages/domain/src/carpool_domain/lns.py:429-441 | the search begins at the repaired earlier answer exactly when that is legal and costs less than the start |
| Lns.CandidateKeeps | packages/domain/src/carpool_domain/lns.py:485-491 | accepting every improvement and any other state keeps the best within its margin of everything tried |
| Lns.Anneal | packages/domain/src/carpool_domain/lns.py:451-491 | every run is a chain of such moves accepting every improvement, as long as the cap allows, and the best is one of its states, legal, no dearer than the start, and every state tried costs at least as much less a billionth |
| Lns.Solve | packages/domain/src/carpool_domain/lns.py:407-492 | for every stream of draws, progress and cap: one of the states gone through, or nothing when a move fails, which takes a stranded driver where the search begins; the answer is legal, clean exactly when nobody is late by themselves, charged by the objective no more than the given or greedy start, and every state tried costs at least as much less a billionth |
| Columns.CheckSupported | packages/bench/src/carpool_bench/exact.py:57-64 | refuses exactly the unsupported instances, for the first participant at fault and for flexibility before a cap before a departure |
| Columns.ColumnCount | packages/bench/src/carpool_bench/exact.py:67-80 | the number of columns without enumerating them is the number enumerated |
| Enumeration.CombinationsCount | packages/bench/src/carpool_bench/exact.py:125-126 | there are exactly `comb(n, k)` groups of a size |
| Enumeration.CombinationsComplete | packages/bench/src/carpool_bench/exact.py:125-126 | every set of that size is enumerated |
| Enumeration.CombinationsDiffer | packages/bench/src/carpool_bench/exact.py:125-126 | no set is enumerated twice |
| Columns.ColumnsAreColumns | packages/bench/src/carpool_bench/exact.py:122-133 | every column is a driver with riders who may ride with them, no more than the seats |
| Columns.ColumnsComplete | packages/bench/src/carpool_bench/exact.py:122-133 | every driver with every such set of riders is a column |
| Columns.ColumnsDiffer | packages/bench/src/carpool_bench/exact.py:122-133 | no driver has the same set of riders twice |
| Partition.Car | packages/bench/src/carpool_bench/exact.py:83-86 | the car of a column carries each of its riders on the legs they need, in sequenced order |
| Partition.AddColumn | packages/bench/src/carpool_bench/exact.py:127-133 | one more column is priced and listed under its driver and each of its riders |
| Partition.BuildModel | packages/bench/src/carpool_bench/exact.py:107-154 | the model has every column once, priced, and listed under exactly its driver and its riders |
| Exact.Prepare | packages/bench/src/carpool_bench/exact.py:102-133 | unsupported and oversized instances are refused, everything else becomes its model |
| Exact.RidersPick | packages/bench/src/carpool_bench/exact.py:140-142 | a rider is in at most one taken column, and in none exactly when left out |
| Exact.SupportedFeasible | packages/bench/src/carpool_bench/exact.py:19-23 | on a supported instance a car is legal exactly when its legs fit and its riders may ride with its driver |
| Exact.DecodedIsLegal | packages/bench/src/carpool_bench/exact.py:171-179 | every admissible selection decodes to a legal answer in which every driver drives |
| Exact.Decode | packages/bench/src/carpool_bench/exact.py:171-179 | the answer listed is the one the selection stands for, by driver and by id |
| Optimum.ChosenByDriver | packages/bench/src/carpool_bench/exact.py:135-138 | the taken columns are one for each driver, so their weights add up driver by driver |
| Optimum.EncodeAdmissible | packages/bench/src/carpool_bench/exact.py:135-142 | a legal answer whose cars are all columns is an admissible selection |
| Optimum.DecodedPrice | packages/bench/src/carpool_bench/exact.py:144-154 | a decoded answer costs no more than its selection weighs, up to rounding |
| Optimum.EncodedPrice | packages/bench/src/carpool_bench/exact.py:144-154 | an answer's selection weighs no more than the answer costs, up to rounding |
| Optimum.MinimumIsOptimal | packages/bench/src/carpool_bench/exact.py:89-185 | the decoded minimum costs no more than any legal answer made of columns, up to two thousandths a driver and one a rider |
| Optimum.MinimumIsOptimalSequenced | packages/bench/src/carpool_bench/exact.py:83-185 | whatever the stops or undercutting, the decoded minimum costs no more than any legal answer of columns ordered by the same sequencer, up to two thousandths a driver and one a rider |
| Coverage.ColumnsCoverExactly | packages/bench/src/carpool_bench/exact.py:122-133 | every legal answer is made of columns exactly when in no car an outbound-only and a return-only rider could share a seat that is short |
| Coverage.SharingIsMissed | packages/bench/src/carpool_bench/exact.py:122-133 | one seat, one rider out and one back: every decoded answer costs a whole rider more than a legal one |
| Coverage.AlwaysAdmissible | packages/bench/src/carpool_bench/exact.py:135-142 | there is always an admissible selection |
| Coverage.ExactIsOptimal | packages/bench/src/carpool_bench/exact.py:89-185 | where nobody could share a seat, the decoded minimum is legal and no legal answer is charged less by the objective, up to two thousandths a driver and one a rider |
| RateLimit.RateLimiter.Hit | apps/api/src/carpool_api/ratelimit.py:106-122 | granted exactly when the level covers the cost; refused with the time to wait and nothing changed; otherwise as good as spent |
| RateLimit.RateLimiter.Sweep | apps/api/src/carpool_api/ratelimit.py:124-128 | exactly the full buckets go and nobody's level changes |
| RateLimit.LevelGrows | apps/api/src/carpool_api/ratelimit.py:115-117 | a level refills by limit over period a second, up to the limit |
| RateLimit.SpentLevels | apps/api/src/carpool_api/ratelimit.py:120 | spending takes the cost from that client under that rule and nothing from anyone else |
| RateLimit.ForgetFull | apps/api/src/carpool_api/ratelimit.py:124-128 | a full bucket is the same as no bucket |
| RateLimit.WindowBound | apps/api/src/carpool_api/ratelimit.py:106-122 | in every run one client is granted at most the limit and limit over period for every second of any interval |
| RateLimit.WaitingWorksExactly | apps/api/src/carpool_api/ratelimit.py:82-86 | waiting out `retry_after`, whatever others do, is enough exactly when the cost is within the limit |
| RateLimit.WaitingLessIsNotEnough | apps/api/src/carpool_api/ratelimit.py:82-86 | no whole number of seconds shorter than `retry_after` is enough |
| RateLimit.SweepingDecidesTheSame | apps/api/src/carpool_api/ratelimit.py:120-128 | in every run a sweeping limiter decides every request as one that never forgets |
| Unroutable.CountCells | apps/api/src/carpool_api/adapters/travel.py:170-173 | the counts are the missing cells touching each affected node |
| Unroutable.FindWorst | apps/api/src/carpool_api/adapters/travel.py:174-176 | the node with most missing cells, a participant before the destination, then the earliest |
| Unroutable.WorstIsBroken | apps/api/src/carpool_api/adapters/travel.py:164-182 | while what is missing is the rows and columns of some participants, the worst node is one of them |
| Unroutable.Eliminate | apps/api/src/carpool_api/adapters/travel.py:148-182 | takes out the worst node until no cell is missing between kept nodes, never the destination nor over half, or is refused because the destination was the worst or too many went; exactly the broken participants when whole rows and columns are missing |
| Unroutable.ParseMatrix | apps/api/src/carpool_api/adapters/travel.py:201-230 | refused for too many or for the destination, or complete and rounded between every two kept nodes; everybody removed lacks something in one of the tables, nobody is removed from complete tables, and exactly the broken participants when those are whole rows and columns |
| RosterProtocol.AddKeeps | apps/api/src/carpool_api/routes/participants.py:208-258 | an added participant keeps the cap and every pin good |
| RosterProtocol.AddExactly | apps/api/src/carpool_api/routes/participants.py:208-258 | somebody is added exactly when their pin is good and there are at most fifty with them, and nobody else changes |
| RosterProtocol.PatchKeeps | apps/api/src/carpool_api/routes/participants.py:301-371 | an edit made on a row loaded before the lock still keeps the cap and every pin good |
| RosterProtocol.PatchExactly | apps/api/src/carpool_api/routes/participants.py:301-371 | an edit is accepted exactly when the pin it gives is good and not their own, and the row as loaded with what it gives offers seats only to drive and needs a leg |
| RosterProtocol.PatchWritesDifferences | apps/api/src/carpool_api/routes/participants.py:346-364 | of the row as it now is, an edit writes exactly what it gives and found otherwise when it loaded the row |
| RosterProtocol.PatchedRow | apps/api/src/carpool_api/routes/participants.py:346-364 | on the row it loaded an edit leaves exactly what it gives; nobody else and no other field changes |
| RosterProtocol.CancelKeeps | apps/api/src/carpool_api/routes/participants.py:375-410 | cancelling keeps the cap and leaves no pin at whoever is cancelled |
| RosterProtocol.CancelFrees | apps/api/src/carpool_api/routes/participants.py:375-410 | whoever is cancelled is off the roster and their place under the cap is free |
| RosterProtocol.CancelExactly | apps/api/src/carpool_api/routes/participants.py:394-405 | of everybody else's row only a pin at the one cancelled goes |
| RosterProtocol.NextKeeps | apps/api/src/carpool_api/routes/participants.py:89-107 | every statement of every transaction keeps the invariant: one lock holder, good drafts, reads no newer than their version |
| RosterProtocol.RosterSafe | apps/api/src/carpool_api/routes/participants.py:10-16 | in every committed state of every interleaving at most fifty are active and every pin names someone else still on the roster |
| RosterProtocol.StalenessIsSound | apps/api/src/carpool_api/routes/optimizations.py:309-317 | a solution whose version is current was solved on the current roster, though version and roster were read apart and rows not re-read |
| RosterProtocol.SolveMayMixRosters | apps/api/src/carpool_api/routes/optimizations.py:309-317 | a reachable solve of one person as they were and another as they joined later, which its version marks stale |
| RosterProtocol.SeatRuleExactly | apps/api/src/carpool_api/routes/participants.py:313-336 | an edit breaks the rule on a passenger's seats exactly when the field it leaves alone has moved against the one it writes |
| RosterProtocol.PassengerCanOfferSeats | apps/api/src/carpool_api/routes/participants.py:313-336 | an interleaving of two edits reaches a passenger offering three seats |
| RosterProtocol.LegRuleExactly | apps/api/src/carpool_api/routes/participants.py:337-344 | an edit leaves somebody needing no leg exactly when it gives up one and the other has been given up since the row was loaded |
| RosterProtocol.FlexibleCanNeedNoLeg | apps/api/src/carpool_api/routes/participants.py:313-344 | an interleaving of two edits reaches a flexible participant who needs neither leg |
| RosterProtocol.PatchPinsDriveExactly | apps/api/src/carpool_api/routes/participants.py:190-194 | an edit leaves a pin to a passenger exactly when it makes one of somebody pinned to |
| RosterProtocol.ApplyPinsDriveExactly | apps/api/src/carpool_api/routes/participants.py:156-195 | of all transactions only those edits leave a pin to a passenger |
| RosterProtocol.PinsDriveUnlessDemoted | apps/api/src/carpool_api/routes/participants.py:156-195 | in every run without such an edit every pin names somebody who is no passenger |
| RosterProtocol.PinToPassenger | apps/api/src/carpool_api/routes/participants.py:320-336 | three transactions one after another leave a pin to a passenger |
| JobProtocol.NextKeeps | apps/api/src/carpool_api/routes/optimizations.py:290-493 | every database step of every request and solve keeps the job invariant |
| JobProtocol.AnsweredExactly | apps/api/src/carpool_api/routes/optimizations.py:338-340 | a request is answered from an earlier job exactly when one of the same fingerprint and version succeeded |
| JobProtocol.TakenBackExactly | apps/api/src/carpool_api/routes/optimizations.py:367-390 | an insert is taken back exactly when a job of the same fingerprint and version has succeeded meanwhile |
| JobProtocol.InsertsExactly | apps/api/src/carpool_api/routes/optimizations.py:169-196 | an insert goes through exactly when every job in flight has outlived its lease, and conflicts exactly when not |
| JobProtocol.ReclaimsExactly | apps/api/src/carpool_api/routes/optimizations.py:169-196 | an insert reclaims exactly the jobs in flight past their lease, and takes a lease of three hundred seconds |
| JobProtocol.CommitExactly | apps/api/src/carpool_api/routes/optimizations.py:169-196 | a commit queues the new job, fails the jobs it reclaimed and leaves every other job as it was |
| JobProtocol.EndMakesRoom | apps/api/src/carpool_api/routes/optimizations.py:365-411 | once a job has ended, well or not, the next request inserts at once |
| JobProtocol.SolvedIsAnswered | apps/api/src/carpool_api/routes/optimizations.py:338-340 | whoever asks for what has just been solved is answered from it |
| JobProtocol.AtMostOneInFlight | apps/api/src/carpool_api/routes/optimizations.py:365-411 | in every interleaving at most one job of the event is in flight |
| JobProtocol.SolvedAtMostOnce | apps/api/src/carpool_api/routes/optimizations.py:367-390 | in every interleaving a problem is solved at most once by jobs that keep their enqueue fingerprint |
| JobProtocol.InFlightIsLeased | apps/api/src/carpool_api/routes/optimizations.py:361-362 | every in-flight job carries a lease that runs out within three hundred seconds |
| JobProtocol.NothingStaysWedged | apps/api/src/carpool_api/routes/optimizations.py:169-196 | however every process died, after three hundred seconds the next insert goes through |
| JobProtocol.FirstLookIsNotEnough | apps/api/src/carpool_api/routes/optimizations.py:338-340 | a reachable state in which an insert goes through for a problem solved since the first look |
| RosterParse.SplitLine | apps/web/lib/roster/parse.ts:74-105 | the character loop computes the scan of the line |
| RosterParse.SplitUndoesQuoting | apps/web/lib/roster/parse.ts:77-105 | trimmed cells, each quoted with inner quotes doubled or bare without commas and quotes, come back exactly (section 2 of RFC 4180, rules 5 to 7) |
| RosterParse.TabsComeApart | apps/web/lib/roster/parse.ts:75 | cells without tabs come back trimmed from a tab-separated line |
| RosterWriting.TrimExactly | apps/web/lib/roster/parse.ts:75-103 | trimming takes the white space off both ends and nothing else |
| RosterParse.ReadHeader | apps/web/lib/roster/parse.ts:122-132 | a header exactly when at least two fields are named, each read where it is first named |
| RosterParse.ReadIsAcceptable | apps/web/lib/roster/parse.ts:199-256 | every row read has a name and an address within bounds, no seats for a passenger and one to eight for a driver |
| RosterParse.ParseLines | apps/web/lib/roster/parse.ts:164-257 | the loop over lines computes the fold that the results below are about |
| RosterParse.EveryLineAccounted | apps/web/lib/roster/parse.ts:176-256 | every line that is not blank is the header, one row or one complaint, and never two; complaints quote their line |
| RosterParse.LinesComeApart | apps/web/lib/roster/parse.ts:165 | lines joined by any of the three line breaks come apart again |
| RosterParse.ParseRoster | apps/web/lib/roster/parse.ts:164-257 | for every text the rows are acceptable and every line is accounted for once |
| RosterWriting.WrittenReads | apps/web/lib/roster/parse.ts:74-105 | cells written with tabs, or quoted and joined by commas, come back exactly |
| RosterWriting.NumberReads | apps/web/lib/roster/parse.ts:150-155 | a number of any length is read, with its sign, from among other text |
| RosterWriting.RoleIsRead | apps/web/lib/roster/parse.ts:141-147 | the eight words for each role, in any case, are read as that role |
| RosterWriting.HeadingExactly | apps/web/lib/roster/parse.ts:113-119 | a cell names a field exactly when it spells one of its headings, in any case, underscores for spaces |
| RosterWriting.RowReads | apps/web/lib/roster/parse.ts:199-256 | a row that says so, in whichever columns and words, reads back as that person |
| RosterWriting.SeatsRefused | apps/web/lib/roster/parse.ts:223-237 | more than eight seats, of however many digits, or fewer than none, are refused by name |
| RosterWriting.HeadedRoundTrip | apps/web/lib/roster/parse.ts:164-257 | a roster under a header reads back whole: columns in any order under any known headings, seats and roles said in any of the known ways, tabs or commas, any line break |
| RosterWriting.RosterRoundTripExactly | apps/web/lib/roster/parse.ts:164-257 | a roster of five columns without a header reads back whole, tabs or commas, any line break, exactly when its first person is not taken for a header |

## Left out

- Haversine estimates, the synthetic instance generator and the demo event: library mathematics; any matrix is allowed.
- CP-SAT, its hints, time limits and bounds: foreign code, replaced by the assumption that a minimum is returned.
- The temperature and acceptance probability: a worse candidate is accepted or not arbitrarily.
- Floating point: costs are exact reals, so the 1e-9 margins are exact and sums do not depend on their order.
- Missing matrix entries: the matrix is total. `Unroutable.ParseMatrix` shows the service only builds complete ones.
- Messages, and the order of violations and of dictionary iteration: violations are a set of codes with who and where.
- Location, names, contact details, and the construction-time checks of a participant beyond identifiers.
- Return-leg clock times (`inbound_schedule`): nothing the solver or checker decides depends on them.
- `explain.py`, geocoding, fingerprint hashing, tokens, HTTP, schemas, migrations and all React code.
- The shape checks of a matrix response (`_table`) and snap distances: tables are taken as square.
- Idempotency keys, solve slots, the locked-roster check and other events: they do not interact with what is proved.
- Cancelling an optimization job only sets a flag (`cancel_requested`), which changes no status: no step models it.
- Sequence.Resequence: ties between equally good orders are left open, as is the order found past twelve stops, so the
  memo of sequenced cars is specified by what it may return.
- Lns.Solve: says nothing of how good the answer is beyond the start and what was tried; that is measured, not decided.
- Seating.SeatCheapestFirst: a standing offer is the cheapest when it was made, not re-priced against every other car.
- Optimum.MinimumIsOptimal: for cars the sequencer does not price exactly, only `Optimum.MinimumIsOptimalSequenced`.
- RosterProtocol.StalenessIsSound: one direction only; an edit between reading the version and the roster marks a
  current solution stale, which is harmless.
- RosterParse.ParseRoster: lower-casing is that of ASCII letters, and lengths count characters, not UTF-16 units.
