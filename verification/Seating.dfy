/** Seating a pool of riders one at a time, always whoever is cheapest to seat next. */
module Seating {
  import opened Models
  import opened Sorting
  import opened Feasibility
  import opened Insertion
  import opened Fleet
  import opened Offers
  import opened Search

  /** What the construction and the search change in place: the cars, and whoever is left out. */
  class State {
    var routes: Cars
    var unassigned: set<NodeId>

    constructor (routes: Cars, unassigned: set<NodeId>)
      ensures this.routes == routes && this.unassigned == unassigned
    {
      this.routes := routes;
      this.unassigned := unassigned;
    }
  }

  ghost function PreviousOf(search: Searcher?): Previous {
    if search == null then map[] else search.previous
  }

  ghost predicate Ready(inst: Instance, search: Searcher?)
    reads search, if search == null then {} else {search.memo}
  {
    search != null ==> search.Valid() && search.inst == inst
  }

  ghost function Memory(search: Searcher?): set<object> {
    if search == null then {} else {search, search.memo}
  }

  /** The offer these cars would make a rider: greedy's, or the search's with churn priced in. */
  ghost function OfferOf(inst: Instance, candidates: nat, search: Searcher?, cars: Cars, rider: NodeId): Option<Offer>
    requires inst.Has(rider) && AllCarsKnown(inst, cars)
  {
    if search == null then GreedyOffer(inst, cars, rider, candidates)
    else SearchOffer(inst, search.previous, NearestDrivers(inst, rider), cars, rider, search.candidates)
  }

  /** No car closes and nobody loses their seat. */
  ghost predicate Keeps(before: Cars, cars: Cars) {
    forall d :: d in before ==> d in cars && before[d].Passengers() <= cars[d].Passengers()
  }

  ghost predicate Refused(inst: Instance, candidates: nat, search: Searcher?, cars: Cars, r: NodeId) {
    inst.Has(r) && AllCarsKnown(inst, cars) && OfferOf(inst, candidates, search, cars, r).None?
  }

  /** The cars a rider is offered seats in. */
  ghost function CandidatesFor(inst: Instance, candidates: nat, search: Searcher?, cars: Cars, r: NodeId): seq<NodeId> {
    if search == null then GreedyCandidates(inst, cars, r, candidates)
    else SearchCandidates(NearestDrivers(inst, r), cars, search.candidates)
  }

  /** No place among that car's stops is feasible for the rider. */
  ghost predicate NoSeatIn(inst: Instance, cars: Cars, d: NodeId, r: NodeId) {
    && inst.Has(r) && d in cars && Known(inst, cars[d])
    && forall c :: IsInsertion(inst, cars[d], r, c) ==> !Feasible(inst, c)
  }

  lemma SeatlessExactly(inst: Instance, previous: Previous, cars: Cars, d: NodeId, r: NodeId)
    requires inst.Has(r) && d in cars && Known(inst, cars[d])
    ensures SeatIn(inst, previous, cars, r, d).None? <==> NoSeatIn(inst, cars, d, r)
  {
    hide Feasible, BestInsertion, IsInsertion;
    BestInsertionIsBest(inst, cars[d], r);
  }

  /** Refused exactly when none of the cars tried has a feasible position for the rider and they may not drive alone. */
  lemma RefusedExactly(inst: Instance, candidates: nat, search: Searcher?, cars: Cars, r: NodeId)
    requires inst.Has(r) && AllCarsKnown(inst, cars)
    ensures Refused(inst, candidates, search, cars, r) <==>
      && !MayDriveAlone(inst, r)
      && forall i :: 0 <= i < |CandidatesFor(inst, candidates, search, cars, r)| ==>
           NoSeatIn(inst, cars, CandidatesFor(inst, candidates, search, cars, r)[i], r)
  {
    hide Known, MayDriveAlone, NoSeatIn, GreedyCandidates, SearchCandidates, SeatIn, NearestDrivers, GreedyOffer,
         SearchOffer;
    var open, previous := CandidatesFor(inst, candidates, search, cars, r), PreviousOf(search);
    if search == null {
      GreedyOfferIsCheapest(inst, cars, r, candidates);
    } else {
      SearchOfferIsCheapest(inst, search.previous, NearestDrivers(inst, r), cars, r, search.candidates);
    }
    forall i | 0 <= i < |open|
      ensures SeatIn(inst, previous, cars, r, open[i]).None? <==> NoSeatIn(inst, cars, open[i], r)
    {
      SeatlessExactly(inst, previous, cars, open[i], r);
    }
  }

  /** Refused by what these cars once were. */
  ghost predicate RefusedEarlier(inst: Instance, candidates: nat, search: Searcher?, cars: Cars, r: NodeId) {
    exists earlier: Cars :: Keeps(earlier, cars) && Refused(inst, candidates, search, earlier, r)
  }

  /** Refused since the last car was opened. */
  ghost predicate RefusedSince(inst: Instance, candidates: nat, search: Searcher?, cars: Cars, r: NodeId) {
    exists earlier: Cars ::
      earlier.Keys == cars.Keys && Keeps(earlier, cars) && Refused(inst, candidates, search, earlier, r)
  }

  /** A pinned rider their driver has no seat for, or whose driver has no car. */
  ghost predicate PinRefused(inst: Instance, cars: Cars, r: NodeId) {
    && inst.Has(r) && inst.index[r].pinnedDriver.Some?
    && var target := inst.index[r].pinnedDriver.value;
       target in cars ==> inst.Has(cars[target].driver) && BestInsertion(inst, cars[target], r).None?
  }

  /** Whoever is left out was once refused by these cars, or by the one car they are pinned to. */
  ghost predicate TurnedAway(inst: Instance, candidates: nat, search: Searcher?, cars: Cars, r: NodeId) {
    exists earlier: Cars ::
      && Keeps(earlier, cars)
      && inst.Has(r)
      && if inst.index[r].pinnedDriver.Some? then PinRefused(inst, earlier, r)
         else Refused(inst, candidates, search, earlier, r)
  }

  ghost predicate AllTurnedAway(inst: Instance, candidates: nat, search: Searcher?, cars: Cars, left: set<NodeId>) {
    forall r :: r in left ==> TurnedAway(inst, candidates, search, cars, r)
  }

  /** One rider priced against the cars as they stand, by greedy's offer or by the search's remembered one. */
  method Quote(inst: Instance, candidates: nat, search: Searcher?, cars: Cars, rider: NodeId)
    returns (offer: Option<Offer>)
    requires Ready(inst, search) && IsRider(inst, rider) && AllCarsKnown(inst, cars)
    modifies Memory(search)
    ensures Ready(inst, search)
    ensures offer == OfferOf(inst, candidates, search, cars, rider)
    ensures offer.Some? ==> Holds(inst, PreviousOf(search), cars, rider, offer.value)
  {
    hide NearestDrivers, GreedyOffer, SearchOffer, AllCarsKnown, Holds;
    if search == null {
      offer := MakeGreedyOffer(inst, cars, rider, candidates);
      GreedyOfferHolds(inst, cars, rider, candidates);
    } else {
      offer := search.MakeOffer(cars, rider);
      SearchOfferHolds(inst, search.previous, NearestDrivers(inst, rider), cars, rider, search.candidates);
    }
  }

  ghost predicate StandingFor(inst: Instance, candidates: nat, search: Searcher?, cars: Cars, r: NodeId,
                              offer: Option<Offer>) {
    && IsRider(inst, r) && !Placed(cars, r)
    && (offer.Some? ==> Holds(inst, PreviousOf(search), cars, r, offer.value))
    && (offer.None? ==> RefusedSince(inst, candidates, search, cars, r))
  }

  /** Every standing offer is still applicable and correctly priced for its own car, every refusal up to date. */
  ghost predicate Standing(inst: Instance, candidates: nat, search: Searcher?, cars: Cars,
                           offers: map<NodeId, Option<Offer>>) {
    forall r :: r in offers ==> StandingFor(inst, candidates, search, cars, r, offers[r])
  }

  function Score(offers: map<NodeId, Option<Offer>>, scale: Option<map<NodeId, real>>, r: NodeId): real
    requires r in offers && offers[r].Some?
  {
    offers[r].value.price * if scale.Some? && r in scale.value then scale.value[r] else 1.0
  }

  /** No dearer than `r`, and the smaller id where they tie. */
  ghost predicate NoDearer(offers: map<NodeId, Option<Offer>>, scale: Option<map<NodeId, real>>, best: NodeId,
                           r: NodeId)
    requires best in offers && offers[best].Some? && r in offers && offers[r].Some?
  {
    || Score(offers, scale, best) < Score(offers, scale, r)
    || (Score(offers, scale, best) == Score(offers, scale, r) && best <= r)
  }

  ghost predicate CheapestOf(offers: map<NodeId, Option<Offer>>, scale: Option<map<NodeId, real>>,
                             among: set<NodeId>, best: Option<NodeId>)
    requires among <= offers.Keys
  {
    && (best.None? ==> forall r :: r in among ==> offers[r].None?)
    && (best.Some? ==>
          && best.value in among && offers[best.value].Some?
          && forall r :: r in among && offers[r].Some? ==> NoDearer(offers, scale, best.value, r))
  }

  /** Whoever is cheapest to seat next, once prices are scaled. */
  method Cheapest(offers: map<NodeId, Option<Offer>>, scale: Option<map<NodeId, real>>) returns (best: Option<NodeId>)
    ensures CheapestOf(offers, scale, offers.Keys, best)
    ensures best.Some? && scale.None? ==> forall r :: r in offers && offers[r].Some? ==>
      var least, price := offers[best.value].value.price, offers[r].value.price;
      least < price || (least == price && best.value <= r)
    ensures best.Some? && scale.Some? && best.value in scale.value ==>
      forall r :: r in offers && offers[r].Some? && r in scale.value ==>
        var least := offers[best.value].value.price * scale.value[best.value];
        var price := offers[r].value.price * scale.value[r];
        least < price || (least == price && best.value <= r)
  {
    best := None;
    var left := offers.Keys;
    while left != {}
      invariant left <= offers.Keys
      invariant CheapestOf(offers, scale, offers.Keys - left, best)
      decreases |left|
    {
      hide Score;
      var r := PickElement(left);
      if offers[r].Some? {
        if best.None? || Score(offers, scale, r) < Score(offers, scale, best.value)
           || (Score(offers, scale, r) == Score(offers, scale, best.value) && r < best.value) {
          best := Some(r);
        }
      }
      left := left - {r};
    }
  }

  /** Taking an offer seats exactly that rider, in a feasible car, and nobody already seated is moved. */
  lemma TakeOffer(inst: Instance, previous: Previous, cars: Cars, rider: NodeId, o: Offer)
    requires Coherent(inst, cars) && IsRider(inst, rider) && !Placed(cars, rider)
    requires Holds(inst, previous, cars, rider, o)
    ensures Coherent(inst, cars[o.driver := o.route])
    ensures forall p :: Placed(cars[o.driver := o.route], p) <==> Placed(cars, p) || p == rider
    ensures forall p :: Seats(cars[o.driver := o.route], p) ==> Seats(cars, p) || p == rider
    ensures Feasible(inst, o.route)
    ensures o.driver in cars ==> cars[o.driver].Passengers() <= o.route.Passengers()
    ensures o.driver !in cars ==> o.driver == rider
  {
    OfferIsExact(inst, previous, cars, rider, o);
    if o.driver in cars {
      hide Holds, Coherent, Feasible;
      SeatInto(inst, cars, o.driver, rider, o.route);
      CarIsGood(inst, cars, o.driver);
      InsertionFacts(inst, o.driver, cars[o.driver], rider, o.route);
    } else {
      hide Coherent, Feasible;
      OpenCar(inst, cars, rider);
    }
  }

  lemma CarIsGood(inst: Instance, cars: Cars, d: NodeId)
    requires Coherent(inst, cars) && d in cars
    ensures GoodCar(inst, d, cars[d]) && Known(inst, cars[d])
  {
    GoodIsKnown(inst, d, cars[d]);
  }

  lemma CoherentIsKnown(inst: Instance, cars: Cars)
    requires Coherent(inst, cars)
    ensures AllCarsKnown(inst, cars)
  {
    forall d | d in cars ensures Known(inst, cars[d]) {
      CarIsGood(inst, cars, d);
    }
  }

  lemma KeepsMore(a: Cars, b: Cars, c: Cars)
    requires Keeps(a, b) && Keeps(b, c)
    ensures Keeps(a, c)
  {
  }

  lemma StillRefused(inst: Instance, candidates: nat, search: Searcher?, before: Cars, cars: Cars, r: NodeId)
    requires RefusedEarlier(inst, candidates, search, before, r) && Keeps(before, cars)
    ensures RefusedEarlier(inst, candidates, search, cars, r)
  {
    hide Keeps, Refused;
    var earlier: Cars :| Keeps(earlier, before) && Refused(inst, candidates, search, earlier, r);
    KeepsMore(earlier, before, cars);
  }

  lemma PinIsRefused(inst: Instance, candidates: nat, search: Searcher?, cars: Cars, r: NodeId)
    requires PinRefused(inst, cars, r)
    ensures TurnedAway(inst, candidates, search, cars, r)
  {
    hide Refused;
    assert Keeps(cars, cars);
  }

  lemma RefusedIsTurnedAway(inst: Instance, candidates: nat, search: Searcher?, cars: Cars, r: NodeId)
    requires RefusedEarlier(inst, candidates, search, cars, r) && inst.Has(r) && inst.index[r].pinnedDriver.None?
    ensures TurnedAway(inst, candidates, search, cars, r)
  {
    hide Keeps, Refused;
  }

  lemma SinceIsEarlier(inst: Instance, candidates: nat, search: Searcher?, cars: Cars, r: NodeId)
    requires RefusedSince(inst, candidates, search, cars, r)
    ensures RefusedEarlier(inst, candidates, search, cars, r)
  {
    hide Keeps, Refused;
  }

  /** Once turned away, turned away for good as far as this account goes: cars only gain. */
  lemma StillTurnedAway(inst: Instance, candidates: nat, search: Searcher?, before: Cars, cars: Cars, left: set<NodeId>)
    requires AllTurnedAway(inst, candidates, search, before, left) && Keeps(before, cars)
    ensures AllTurnedAway(inst, candidates, search, cars, left)
  {
    hide Keeps, Refused, PinRefused;
    forall r | r in left ensures TurnedAway(inst, candidates, search, cars, r) {
      var earlier: Cars :| Keeps(earlier, before) && inst.Has(r)
        && if inst.index[r].pinnedDriver.Some? then PinRefused(inst, earlier, r)
           else Refused(inst, candidates, search, earlier, r);
      KeepsMore(earlier, before, cars);
    }
  }

  lemma FreeTurnedAway(inst: Instance, candidates: nat, search: Searcher?, cars: Cars, left: set<NodeId>)
    requires forall r :: r in left ==> inst.Has(r) && inst.index[r].pinnedDriver.None?
    requires forall r :: r in left ==> RefusedEarlier(inst, candidates, search, cars, r)
                                       || RefusedSince(inst, candidates, search, cars, r)
    ensures AllTurnedAway(inst, candidates, search, cars, left)
  {
    hide RefusedEarlier, RefusedSince, TurnedAway;
    forall r | r in left ensures TurnedAway(inst, candidates, search, cars, r) {
      if RefusedSince(inst, candidates, search, cars, r) {
        SinceIsEarlier(inst, candidates, search, cars, r);
      }
      RefusedIsTurnedAway(inst, candidates, search, cars, r);
    }
  }

  lemma RefusedSinceStands(inst: Instance, candidates: nat, search: Searcher?, before: Cars, cars: Cars, r: NodeId)
    requires RefusedSince(inst, candidates, search, before, r) && Keeps(before, cars) && cars.Keys == before.Keys
    ensures RefusedSince(inst, candidates, search, cars, r)
  {
    hide Keeps, Refused;
    var earlier: Cars :|
      earlier.Keys == before.Keys && Keeps(earlier, before) && Refused(inst, candidates, search, earlier, r);
    KeepsMore(earlier, before, cars);
  }

  lemma RefusedNow(inst: Instance, candidates: nat, search: Searcher?, cars: Cars, r: NodeId)
    requires Refused(inst, candidates, search, cars, r)
    ensures RefusedSince(inst, candidates, search, cars, r)
    ensures RefusedEarlier(inst, candidates, search, cars, r)
  {
    hide Refused;
    assert Keeps(cars, cars);
  }

  lemma StillStanding(inst: Instance, candidates: nat, search: Searcher?, before: Cars, r: NodeId,
                      offer: Option<Offer>, driver: NodeId, c: Route)
    requires StandingFor(inst, candidates, search, before, r, offer)
    requires !Placed(before[driver := c], r) && Keeps(before, before[driver := c])
    requires driver in before && (offer.Some? ==> offer.value.driver != driver)
    ensures StandingFor(inst, candidates, search, before[driver := c], r, offer)
  {
    hide Holds, Keeps, RefusedSince;
    if offer.Some? {
      OfferStands(inst, PreviousOf(search), before, r, offer.value, driver, c);
    } else {
      assert before[driver := c].Keys == before.Keys;
      RefusedSinceStands(inst, candidates, search, before, before[driver := c], r);
    }
  }

  lemma QuoteStands(inst: Instance, candidates: nat, search: Searcher?, cars: Cars, r: NodeId, offer: Option<Offer>)
    requires IsRider(inst, r) && !Placed(cars, r) && AllCarsKnown(inst, cars)
    requires offer == OfferOf(inst, candidates, search, cars, r)
    requires offer.Some? ==> Holds(inst, PreviousOf(search), cars, r, offer.value)
    ensures StandingFor(inst, candidates, search, cars, r, offer)
  {
    hide Holds, RefusedSince, OfferOf, AllCarsKnown, Placed;
    if offer.None? {
      RefusedNow(inst, candidates, search, cars, r);
    }
  }

  /** The offers that seating into `driver` made stale are made again; the rest still stand. */
  method Refresh(inst: Instance, candidates: nat, search: Searcher?, before: Cars, cars: Cars,
                 offers: map<NodeId, Option<Offer>>, driver: NodeId)
    returns (renewed: map<NodeId, Option<Offer>>)
    requires Ready(inst, search) && Coherent(inst, cars)
    requires driver in cars && cars == before[driver := cars[driver]] && Keeps(before, cars)
    requires Standing(inst, candidates, search, before, offers)
    requires forall r :: r in offers ==> !Placed(cars, r)
    modifies Memory(search)
    ensures Ready(inst, search)
    ensures renewed.Keys == offers.Keys && Standing(inst, candidates, search, cars, renewed)
  {
    hide Ready, Holds, Coherent, AllCarsKnown, Placed, IsRider, OfferOf, RefusedSince, Keeps;
    CoherentIsKnown(inst, cars);
    renewed := offers;
    var isNew := driver !in before;
    var left := offers.Keys;
    while left != {}
      invariant Ready(inst, search)
      invariant left <= offers.Keys && renewed.Keys == offers.Keys
      invariant forall r :: r in left ==> renewed[r] == offers[r]
      invariant forall r :: r in renewed && r !in left ==>
        StandingFor(inst, candidates, search, cars, r, renewed[r])
      decreases |left|
    {
      var other := PickElement(left);
      var standing := renewed[other];
      assert StandingFor(inst, candidates, search, before, other, standing);
      if isNew || (standing.Some? && standing.value.driver == driver) {
        var again := Quote(inst, candidates, search, cars, other);
        QuoteStands(inst, candidates, search, cars, other, again);
        renewed := renewed[other := again];
      } else {
        StillStanding(inst, candidates, search, before, other, standing, driver, cars[driver]);
      }
      left := left - {other};
    }
  }

  /** What seating has done so far: only pool members were added, in feasible cars, and nobody was lost. */
  ghost predicate Grown(inst: Instance, before: Cars, cars: Cars, seated: set<NodeId>) {
    && Coherent(inst, cars)
    && (forall p :: Placed(cars, p) <==> Placed(before, p) || p in seated)
    && (forall p :: Seats(cars, p) ==> Seats(before, p) || p in seated)
    && Keeps(before, cars)
    && (forall d :: d in cars ==> (d in before && cars[d] == before[d]) || Feasible(inst, cars[d]))
    && (forall d :: d in cars ==> d in before || d in seated)
  }

  lemma GrownNothing(inst: Instance, cars: Cars, seated: set<NodeId>)
    requires Coherent(inst, cars) && seated == {}
    ensures Grown(inst, cars, cars, seated)
  {
    hide Coherent, Feasible, Placed, Seats;
  }

  lemma GrownStep(inst: Instance, previous: Previous, before: Cars, cars: Cars, seated: set<NodeId>,
                  rider: NodeId, o: Offer)
    requires Grown(inst, before, cars, seated)
    requires IsRider(inst, rider) && !Placed(cars, rider) && Holds(inst, previous, cars, rider, o)
    ensures Grown(inst, before, cars[o.driver := o.route], seated + {rider})
  {
    hide Coherent, Feasible, Holds, Placed, Seats;
    TakeOffer(inst, previous, cars, rider, o);
  }

  function Elements(s: seq<NodeId>): set<NodeId> {
    set r | r in s
  }

  lemma ElementsMore(s: seq<NodeId>, i: nat)
    requires i < |s|
    ensures Elements(s[..i + 1]) == Elements(s[..i]) + {s[i]}
  {
    assert s[..i + 1] == s[..i] + [s[i]];
    assert forall x :: x in Elements(s[..i + 1]) <==> x in Elements(s[..i]) + {s[i]};
  }

  lemma ElementsNone(s: seq<NodeId>)
    ensures Elements(s[..0]) == {}
  {
    assert forall x :: x in Elements(s[..0]) <==> x in {};
  }

  lemma ElementsSorted(keys: set<NodeId>)
    ensures Elements(Sorted(keys)) == keys
  {
    assert forall x :: x in Elements(Sorted(keys)) <==> x in keys;
  }

  method FirstOffers(inst: Instance, candidates: nat, search: Searcher?, cars: Cars, riders: seq<NodeId>)
    returns (offers: map<NodeId, Option<Offer>>)
    requires Ready(inst, search) && Coherent(inst, cars)
    requires forall r :: r in riders ==> IsRider(inst, r) && !Placed(cars, r)
    modifies Memory(search)
    ensures Ready(inst, search)
    ensures offers.Keys == Elements(riders)
    ensures Standing(inst, candidates, search, cars, offers)
  {
    hide Ready, Holds, Coherent, AllCarsKnown, Placed, IsRider, Standing, StandingFor, Elements, OfferOf;
    offers := map[];
    CoherentIsKnown(inst, cars);
    NothingStands(inst, candidates, search, cars);
    ElementsNone(riders);
    for i := 0 to |riders|
      invariant Ready(inst, search)
      invariant offers.Keys == Elements(riders[..i])
      invariant Standing(inst, candidates, search, cars, offers)
    {
      ElementsMore(riders, i);
      var offer := Quote(inst, candidates, search, cars, riders[i]);
      QuoteStands(inst, candidates, search, cars, riders[i], offer);
      StandingMore(inst, candidates, search, cars, offers, riders[i], offer);
      offers := offers[riders[i] := offer];
    }
    assert riders[..|riders|] == riders;
  }

  lemma StandingMore(inst: Instance, candidates: nat, search: Searcher?, cars: Cars, offers: map<NodeId, Option<Offer>>,
                     r: NodeId, offer: Option<Offer>)
    requires Standing(inst, candidates, search, cars, offers) && StandingFor(inst, candidates, search, cars, r, offer)
    ensures Standing(inst, candidates, search, cars, offers[r := offer])
  {
    hide StandingFor;
  }

  lemma NothingStands(inst: Instance, candidates: nat, search: Searcher?, cars: Cars)
    ensures Standing(inst, candidates, search, cars, map[])
  {
  }

  /** One round of the queue: the cars and the offers standing when `rider` was chosen. */
  datatype Turn = Turn(cars: Cars, offers: map<NodeId, Option<Offer>>, rider: NodeId)

  /** The chosen rider is the cheapest of offers that all still stand, and takes theirs. */
  ghost predicate FairTurn(inst: Instance, candidates: nat, search: Searcher?, scale: Option<map<NodeId, real>>,
                           t: Turn, after: Cars) {
    && Standing(inst, candidates, search, t.cars, t.offers)
    && CheapestOf(t.offers, scale, t.offers.Keys, Some(t.rider))
    && after == t.cars[t.offers[t.rider].value.driver := t.offers[t.rider].value.route]
  }

  /** From `start`, fair rounds lead to `cars` with `waiting` still unseated. */
  ghost predicate Fair(inst: Instance, candidates: nat, search: Searcher?, scale: Option<map<NodeId, real>>,
                       start: Cars, riders: set<NodeId>, turns: seq<Turn>, cars: Cars, waiting: set<NodeId>) {
    var n := |turns|;
    if n == 0 then cars == start && waiting == riders
    else
      var t := turns[n - 1];
      && Fair(inst, candidates, search, scale, start, riders, turns[..n - 1], t.cars, t.offers.Keys)
      && FairTurn(inst, candidates, search, scale, t, cars)
      && waiting == t.offers.Keys - {t.rider}
  }

  lemma FairMore(inst: Instance, candidates: nat, search: Searcher?, scale: Option<map<NodeId, real>>,
                 start: Cars, riders: set<NodeId>, turns: seq<Turn>, t: Turn, after: Cars)
    requires Fair(inst, candidates, search, scale, start, riders, turns, t.cars, t.offers.Keys)
    requires FairTurn(inst, candidates, search, scale, t, after)
    ensures Fair(inst, candidates, search, scale, start, riders, turns + [t], after, t.offers.Keys - {t.rider})
  {
    hide FairTurn;
    assert (turns + [t])[..|turns|] == turns;
  }

  /** Where the queue stands after some rounds. */
  ghost predicate Queue(inst: Instance, candidates: nat, search: Searcher?, scale: Option<map<NodeId, real>>,
                        start: Cars, riders: set<NodeId>, turns: seq<Turn>, cars: Cars,
                        offers: map<NodeId, Option<Offer>>) {
    && offers.Keys <= riders
    && Standing(inst, candidates, search, cars, offers)
    && Grown(inst, start, cars, riders - offers.Keys)
    && Fair(inst, candidates, search, scale, start, riders, turns, cars, offers.Keys)
  }

  lemma QueueStarts(inst: Instance, candidates: nat, search: Searcher?, scale: Option<map<NodeId, real>>,
                    cars: Cars, offers: map<NodeId, Option<Offer>>)
    requires Coherent(inst, cars) && Standing(inst, candidates, search, cars, offers)
    ensures Queue(inst, candidates, search, scale, cars, offers.Keys, [], cars, offers)
  {
    hide Standing, Coherent;
    GrownNothing(inst, cars, offers.Keys - offers.Keys);
  }

  lemma QueueMore(inst: Instance, candidates: nat, search: Searcher?, scale: Option<map<NodeId, real>>,
                  start: Cars, riders: set<NodeId>, turns: seq<Turn>, t: Turn, after: Cars,
                  renewed: map<NodeId, Option<Offer>>)
    requires Queue(inst, candidates, search, scale, start, riders, turns, t.cars, t.offers)
    requires FairTurn(inst, candidates, search, scale, t, after)
    requires renewed.Keys == t.offers.Keys - {t.rider} && Standing(inst, candidates, search, after, renewed)
    requires Grown(inst, start, after, riders - t.offers.Keys + {t.rider})
    ensures Queue(inst, candidates, search, scale, start, riders, turns + [t], after, renewed)
  {
    hide Fair, Standing, Grown;
    FairMore(inst, candidates, search, scale, start, riders, turns, t, after);
    assert t.rider in t.offers;
    assert riders - t.offers.Keys + {t.rider} == riders - renewed.Keys;
  }

  /** One round: the chosen rider is seated and their offer withdrawn. */
  method SeatNext(inst: Instance, candidates: nat, search: Searcher?, st: State, offers: map<NodeId, Option<Offer>>,
                  rider: NodeId, ghost start: Cars, ghost seated: set<NodeId>)
    returns (renewed: map<NodeId, Option<Offer>>)
    requires Ready(inst, search) && rider in offers && offers[rider].Some?
    requires Standing(inst, candidates, search, st.routes, offers)
    requires Grown(inst, start, st.routes, seated)
    modifies st`routes, Memory(search)
    ensures Ready(inst, search)
    ensures renewed.Keys == offers.Keys - {rider} && |renewed| < |offers|
    ensures Standing(inst, candidates, search, st.routes, renewed)
    ensures st.routes == old(st.routes)[offers[rider].value.driver := offers[rider].value.route]
    ensures Grown(inst, start, st.routes, seated + {rider})
  {
    hide Ready, Holds, Coherent, Placed, IsRider, Feasible;
    var chosen := offers[rider].value;
    var before := st.routes;
    var cars := before[chosen.driver := chosen.route];
    assert StandingFor(inst, candidates, search, before, rider, offers[rider]);
    GrownStep(inst, PreviousOf(search), start, before, seated, rider, chosen);
    TakeOffer(inst, PreviousOf(search), before, rider, chosen);
    var rest := offers - {rider};
    forall r | r in rest ensures !Placed(cars, r) {
      assert StandingFor(inst, candidates, search, before, r, offers[r]);
    }
    renewed := Refresh(inst, candidates, search, before, cars, rest, chosen.driver);
    st.routes := cars;
  }

  lemma QueueDone(inst: Instance, candidates: nat, search: Searcher?, scale: Option<map<NodeId, real>>,
                  start: Cars, riders: set<NodeId>, turns: seq<Turn>, cars: Cars,
                  offers: map<NodeId, Option<Offer>>)
    requires Queue(inst, candidates, search, scale, start, riders, turns, cars, offers)
    requires CheapestOf(offers, scale, offers.Keys, None)
    ensures Elements(Sorted(offers.Keys)) == offers.Keys <= riders && Distinct(Sorted(offers.Keys))
    ensures Grown(inst, start, cars, riders - offers.Keys)
    ensures Fair(inst, candidates, search, scale, start, riders, turns, cars, offers.Keys)
    ensures forall r :: r in offers ==> RefusedSince(inst, candidates, search, cars, r)
  {
    hide RefusedSince, Holds, Placed, IsRider, Fair, Grown, Sorted, Elements;
    ElementsSorted(offers.Keys);
  }

  /**
    * `seat_cheapest_first`: seats into `st`, always whoever is cheapest by offers that all still stand,
    * and returns whoever has been refused since the last car was opened.
    */
  method SeatCheapestFirst(inst: Instance, candidates: nat, search: Searcher?, st: State, riders: seq<NodeId>,
                           scale: Option<map<NodeId, real>>)
    returns (left: seq<NodeId>, ghost turns: seq<Turn>)
    requires Ready(inst, search) && Coherent(inst, st.routes)
    requires forall r :: r in riders ==> IsRider(inst, r) && !Placed(st.routes, r)
    modifies st`routes, Memory(search)
    ensures Ready(inst, search)
    ensures Distinct(left) && Elements(left) <= Elements(riders)
    ensures Grown(inst, old(st.routes), st.routes, Elements(riders) - Elements(left))
    ensures Fair(inst, candidates, search, scale, old(st.routes), Elements(riders), turns, st.routes, Elements(left))
    ensures forall r :: r in Elements(left) ==> RefusedSince(inst, candidates, search, st.routes, r)
  {
    hide Ready, Coherent, Placed, IsRider, Standing, Sorted, Distinct, Elements, Grown, Fair, RefusedSince, Queue,
         CheapestOf;
    turns := [];
    ghost var everyone := Elements(riders);
    var offers := FirstOffers(inst, candidates, search, st.routes, riders);
    QueueStarts(inst, candidates, search, scale, st.routes, offers);
    while |offers| > 0
      invariant Ready(inst, search)
      invariant Queue(inst, candidates, search, scale, old(st.routes), everyone, turns, st.routes, offers)
      decreases |offers|
    {
      var next := Cheapest(offers, scale);
      if next.None? {
        QueueDone(inst, candidates, search, scale, old(st.routes), everyone, turns, st.routes, offers);
        left := Sorted(offers.Keys);
        return;
      }
      ghost var t := Turn(st.routes, offers, next.value);
      QueueParts(inst, candidates, search, scale, old(st.routes), everyone, turns, st.routes, offers, next.value);
      offers := SeatNext(inst, candidates, search, st, offers, next.value, old(st.routes), everyone - t.offers.Keys);
      QueueMore(inst, candidates, search, scale, old(st.routes), everyone, turns, t, st.routes, offers);
      turns := turns + [t];
    }
    NobodyWaits(offers, scale);
    QueueDone(inst, candidates, search, scale, old(st.routes), everyone, turns, st.routes, offers);
    left := Sorted(offers.Keys);
  }

  lemma NobodyWaits(offers: map<NodeId, Option<Offer>>, scale: Option<map<NodeId, real>>)
    requires |offers| == 0
    ensures CheapestOf(offers, scale, offers.Keys, None)
  {
    assert |offers.Keys| == 0;
  }

  lemma QueueParts(inst: Instance, candidates: nat, search: Searcher?, scale: Option<map<NodeId, real>>,
                   start: Cars, riders: set<NodeId>, turns: seq<Turn>, cars: Cars,
                   offers: map<NodeId, Option<Offer>>, next: NodeId)
    requires Queue(inst, candidates, search, scale, start, riders, turns, cars, offers)
    requires CheapestOf(offers, scale, offers.Keys, Some(next))
    ensures Standing(inst, candidates, search, cars, offers) && Grown(inst, start, cars, riders - offers.Keys)
    ensures next in offers && offers[next].Some?
    ensures var o := offers[next].value;
      FairTurn(inst, candidates, search, scale, Turn(cars, offers, next), cars[o.driver := o.route])
  {
    hide Standing, Grown, Fair;
  }

  /** One rider takes the offer the cars make them, or stays out when there is none. */
  ghost predicate TakesOffer(inst: Instance, candidates: nat, search: Searcher?, before: Cars, r: NodeId, after: Cars,
                             ok: bool) {
    && inst.Has(r) && AllCarsKnown(inst, before)
    && var offer := OfferOf(inst, candidates, search, before, r);
       && ok == offer.Some?
       && after == if ok then before[offer.value.driver := offer.value.route] else before
  }

  /** One rider, wherever is cheapest as things stand, or nowhere. */
  method SeatOne(inst: Instance, candidates: nat, search: Searcher?, st: State, ghost start: Cars, rider: NodeId,
                 ghost seated: set<NodeId>)
    returns (ok: bool)
    requires Ready(inst, search) && Grown(inst, start, st.routes, seated)
    requires IsRider(inst, rider) && !Placed(start, rider) && rider !in seated
    modifies st`routes, Memory(search)
    ensures Ready(inst, search)
    ensures Grown(inst, start, st.routes, if ok then seated + {rider} else seated)
    ensures TakesOffer(inst, candidates, search, old(st.routes), rider, st.routes, ok)
    ensures Keeps(old(st.routes), st.routes)
  {
    hide Ready, Holds, Coherent, Placed, Feasible, OfferOf, AllCarsKnown;
    CoherentIsKnown(inst, st.routes);
    var offer := Quote(inst, candidates, search, st.routes, rider);
    ok := offer.Some?;
    if ok {
      TakeOffer(inst, PreviousOf(search), st.routes, rider, offer.value);
      GrownStep(inst, PreviousOf(search), start, st.routes, seated, rider, offer.value);
      st.routes := st.routes[offer.value.driver := offer.value.route];
    }
  }

  lemma OneMoreLeft(order: seq<NodeId>, i: nat, left: seq<NodeId>)
    requires i < |order| && Distinct(order) && Elements(left) <= Elements(order[..i]) && Distinct(left)
    ensures order[i] !in Elements(order[..i])
    ensures Distinct(left + [order[i]]) && Elements(left + [order[i]]) == Elements(left) + {order[i]}
  {
    assert forall x :: x in left ==> x in Elements(left);
    assert forall x :: x in Elements(left + [order[i]]) <==> x in Elements(left) + {order[i]};
  }

  lemma SeatedMore(whole: set<NodeId>, left: set<NodeId>, x: NodeId)
    requires x !in whole && left <= whole
    ensures whole + {x} - (left + {x}) == whole - left
    ensures whole + {x} - left == whole - left + {x}
  {
  }

  /** Taking turns in the order given: who was left without an offer, and every state passed through. */
  ghost predicate InTurn(inst: Instance, candidates: nat, search: Searcher?, order: seq<NodeId>, states: seq<Cars>,
                         left: set<NodeId>)
    requires |states| == |order| + 1
  {
    forall i :: 0 <= i < |order| ==>
      var later := i + 1;
      TakesOffer(inst, candidates, search, states[i], order[i], states[later], order[i] !in left)
  }

  lemma InTurnMore(inst: Instance, candidates: nat, search: Searcher?, order: seq<NodeId>, i: nat, states: seq<Cars>,
                   left: set<NodeId>, after: Cars, ok: bool)
    requires i < |order| && Distinct(order) && |states| == i + 1
    requires left <= Elements(order[..i])
    requires InTurn(inst, candidates, search, order[..i], states, left)
    requires TakesOffer(inst, candidates, search, states[i], order[i], after, ok)
    ensures InTurn(inst, candidates, search, order[..i + 1], states + [after], if ok then left else left + {order[i]})
  {
    hide TakesOffer, OfferOf;
    var now := if ok then left else left + {order[i]};
    var next := states + [after];
    assert order[i] !in left;
    forall k | 0 <= k < i + 1
      ensures var later := k + 1;
        TakesOffer(inst, candidates, search, next[k], order[..i + 1][k], next[later], order[..i + 1][k] !in now)
    {
      if k < i {
        assert order[..i][k] == order[k];
        var later := k + 1;
        assert next[k] == states[k] && next[later] == states[later];
      }
    }
  }

  lemma RefusedMore(inst: Instance, candidates: nat, search: Searcher?, before: Cars, after: Cars, left: set<NodeId>,
                    r: NodeId, ok: bool)
    requires forall x :: x in left ==> RefusedEarlier(inst, candidates, search, before, x)
    requires Keeps(before, after) && TakesOffer(inst, candidates, search, before, r, after, ok)
    ensures forall x :: x in left ==> RefusedEarlier(inst, candidates, search, after, x)
    ensures !ok ==> RefusedEarlier(inst, candidates, search, after, r)
  {
    hide RefusedEarlier, Keeps, OfferOf, AllCarsKnown;
    forall x | x in left ensures RefusedEarlier(inst, candidates, search, after, x) {
      StillRefused(inst, candidates, search, before, after, x);
    }
    if !ok {
      RefusedNow(inst, candidates, search, before, r);
    }
  }

  /** Seat the riders in the order given. */
  method SeatInOrder(inst: Instance, candidates: nat, search: Searcher?, st: State, order: seq<NodeId>)
    returns (left: seq<NodeId>, ghost states: seq<Cars>)
    requires Ready(inst, search) && Coherent(inst, st.routes) && Distinct(order)
    requires forall r :: r in order ==> IsRider(inst, r) && !Placed(st.routes, r)
    modifies st`routes, Memory(search)
    ensures Ready(inst, search)
    ensures Distinct(left) && Elements(left) <= Elements(order)
    ensures Grown(inst, old(st.routes), st.routes, Elements(order) - Elements(left))
    ensures |states| == |order| + 1 && states[0] == old(st.routes) && states[|order|] == st.routes
    ensures InTurn(inst, candidates, search, order, states, Elements(left))
    ensures forall r :: r in Elements(left) ==> RefusedEarlier(inst, candidates, search, st.routes, r)
  {
    hide Ready, Coherent, Placed, IsRider, Distinct, Elements, Grown, InTurn, TakesOffer, RefusedEarlier, Keeps;
    left, states := [], [st.routes];
    NobodyYet(inst, candidates, search, order, st.routes);
    for i := 0 to |order|
      invariant Ready(inst, search)
      invariant Distinct(left) && Elements(left) <= Elements(order[..i])
      invariant Grown(inst, old(st.routes), st.routes, Elements(order[..i]) - Elements(left))
      invariant |states| == i + 1 && states[0] == old(st.routes) && states[i] == st.routes
      invariant InTurn(inst, candidates, search, order[..i], states, Elements(left))
      invariant forall r :: r in Elements(left) ==> RefusedEarlier(inst, candidates, search, st.routes, r)
    {
      ElementsMore(order, i);
      OneMoreLeft(order, i, left);
      SeatedMore(Elements(order[..i]), Elements(left), order[i]);
      assert order[i] in order;
      var ok := SeatOne(inst, candidates, search, st, old(st.routes), order[i], Elements(order[..i]) - Elements(left));
      InTurnMore(inst, candidates, search, order, i, states, Elements(left), st.routes, ok);
      RefusedMore(inst, candidates, search, states[i], st.routes, Elements(left), order[i], ok);
      states := states + [st.routes];
      if !ok {
        left := left + [order[i]];
      }
    }
    assert order[..|order|] == order;
  }

  lemma NobodyYet(inst: Instance, candidates: nat, search: Searcher?, order: seq<NodeId>, cars: Cars)
    requires Coherent(inst, cars)
    ensures Distinct<NodeId>([]) && Elements([]) == {} && Elements(order[..0]) == {}
    ensures Grown(inst, cars, cars, Elements(order[..0]) - Elements([]))
    ensures InTurn(inst, candidates, search, order[..0], [cars], Elements([]))
  {
    hide Coherent, Grown;
    ElementsNone(order);
    assert forall x :: x in Elements([]) <==> x in {};
    GrownNothing(inst, cars, Elements(order[..0]) - Elements([]));
  }
}
