/**
  * The roster as concurrent transactions: every mutation bumps the version row first, which is the lock; reads see
  * what is committed. Solves read the version, then the roster, and later the roster again.
  */
module RosterProtocol {
  import opened Models

  const MAX_ACTIVE := 50

  type Id = int

  /** One participant row of the event. */
  datatype Row = Row(active: bool, role: Role, seats: int, pin: Option<Id>, outbound: bool, back: bool)

  type People = map<Id, Row>

  datatype Db = Db(version: nat, people: People)

  /** The fields of an edit that are given. */
  datatype Change = Change(role: Option<Role>, seats: Option<int>, pin: Option<Option<Id>>, outbound: Option<bool>,
                           back: Option<bool>)

  datatype Request = Add(id: Id, row: Row) | Patch(id: Id, change: Change) | Cancel(id: Id)

  // ---- What each transaction does once it holds the lock -----------------------------------------------------

  function Active(people: People): People {
    map p | p in people && people[p].active :: people[p]
  }

  /** `_validate_pin`: nobody, or someone else on the roster who drives. */
  predicate PinAllowed(people: People, self: Option<Id>, pin: Option<Id>) {
    pin.None? || (self != pin && pin.value in people && people[pin.value].active && !people[pin.value].role.Passenger?)
  }

  /** `add_participant` after the bump: the pin is checked, the row inserted, the roster counted. */
  function AddTo(people: People, id: Id, row: Row): Option<People> {
    var after := people[id := row.(active := true)];
    if !PinAllowed(people, None, row.pin) || |Active(after)| > MAX_ACTIVE then None else Some(after)
  }

  /** A given value that differs from the one loaded is written; anything else is left as it now is. */
  function Written<T(==)>(given: Option<T>, loaded: T, current: T): T {
    if given.Some? && given.value != loaded then given.value else current
  }

  function Merged<T>(given: Option<T>, loaded: T): T {
    if given.Some? then given.value else loaded
  }

  predicate SeatRule(role: Role, seats: int) {
    !(seats > 0 && role.Passenger?)
  }

  function Edited(row: Row, change: Change, loaded: Row): Row {
    row.(role := Written(change.role, loaded.role, row.role),
         seats := Written(change.seats, loaded.seats, row.seats),
         pin := Written(change.pin, loaded.pin, row.pin),
         outbound := Written(change.outbound, loaded.outbound, row.outbound),
         back := Written(change.back, loaded.back, row.back))
  }

  /** `patch_participant` after the bump, with the row it loaded before. */
  function PatchIn(people: People, id: Id, change: Change, loaded: Row): Option<People> {
    if change.pin.Some? && !PinAllowed(people, Some(id), change.pin.value) then None
    else if !SeatRule(Merged(change.role, loaded.role), Merged(change.seats, loaded.seats)) then None
    else if !(Merged(change.outbound, loaded.outbound) || Merged(change.back, loaded.back)) then None
    else if id !in people then None
    else Some(people[id := Edited(people[id], change, loaded)])
  }

  function Unpinned(row: Row, id: Id): Row {
    if row.pin == Some(id) then row.(pin := None) else row
  }

  /** `cancel_participant` after the bump: the row stays, and every pin naming it goes. */
  function CancelIn(people: People, id: Id): People {
    map p | p in people :: Unpinned(if p == id then people[p].(active := false) else people[p], id)
  }

  function Apply(people: People, req: Request, loaded: Option<Row>): Option<People> {
    match req
    case Add(id, row) => if id in people then None else AddTo(people, id, row)
    case Patch(id, change) => if loaded.None? then None else PatchIn(people, id, change, loaded.value)
    case Cancel(id) => Some(CancelIn(people, id))
  }

  // ---- What each transaction comes to --------------------------------------------------------------------------

  ghost function ActiveIds(people: People): (ids: set<Id>)
    ensures forall p :: p in ids <==> p in people && people[p].active
    ensures |ids| == |Active(people)|
  {
    var ids := set p | p in people && people[p].active;
    assert Active(people).Keys == ids;
    ids
  }

  /** A pin an addition or an edit of somebody else may write. */
  ghost predicate GoodPin(people: People, pin: Option<Id>) {
    pin.Some? ==>
      && pin.value in people && people[pin.value].active
      && (people[pin.value].role.Driver? || people[pin.value].role.Either?)
  }

  /** Somebody is added exactly when their pin is good and there are at most fifty with them; nobody else changes. */
  lemma AddExactly(people: People, id: Id, row: Row)
    requires id !in people
    ensures AddTo(people, id, row).Some? <==> GoodPin(people, row.pin) && |ActiveIds(people)| + 1 <= 50
    ensures AddTo(people, id, row).Some? ==>
      var after := AddTo(people, id, row).value;
      && ActiveIds(after) == ActiveIds(people) + {id}
      && after == people[id := Row(true, row.role, row.seats, row.pin, row.outbound, row.back)]
  {
    var after := people[id := row.(active := true)];
    assert forall p :: p in ActiveIds(after) <==> p in ActiveIds(people) || p == id;
    assert ActiveIds(after) == ActiveIds(people) + {id};
  }

  /**
    * An edit is accepted exactly when the pin it gives is good and not their own, and the row it was loaded as, with
    * what it gives, offers seats only to drive and needs a leg.
    */
  lemma PatchExactly(people: People, id: Id, change: Change, loaded: Row)
    requires id in people
    ensures PatchIn(people, id, change, loaded).Some? <==>
      && (change.pin.Some? ==> GoodPin(people, change.pin.value) && change.pin.value != Some(id))
      && ((match change.role case Some(r) => r case None => loaded.role) == Passenger ==>
            (match change.seats case Some(n) => n case None => loaded.seats) <= 0)
      && ((match change.outbound case Some(b) => b case None => loaded.outbound)
          || (match change.back case Some(b) => b case None => loaded.back))
  {
  }

  /** What an accepted edit changes: on the row it loaded the fields it gives, and nothing else in any case. */
  lemma PatchedRow(people: People, id: Id, change: Change, loaded: Row)
    requires id in people && PatchIn(people, id, change, loaded).Some?
    ensures var after := PatchIn(people, id, change, loaded).value;
      && after.Keys == people.Keys && (forall p :: p in people && p != id ==> after[p] == people[p])
      && after[id].active == people[id].active
      && (change.role.None? ==> after[id].role == people[id].role)
      && (change.seats.None? ==> after[id].seats == people[id].seats)
      && (change.pin.None? ==> after[id].pin == people[id].pin)
      && (change.outbound.None? ==> after[id].outbound == people[id].outbound)
      && (change.back.None? ==> after[id].back == people[id].back)
    ensures var after := PatchIn(people, id, change, loaded).value;
      people[id] == loaded ==>
        && (change.role.Some? ==> after[id].role == change.role.value)
        && (change.seats.Some? ==> after[id].seats == change.seats.value)
        && (change.pin.Some? ==> after[id].pin == change.pin.value)
        && (change.outbound.Some? ==> after[id].outbound == change.outbound.value)
        && (change.back.Some? ==> after[id].back == change.back.value)
  {
  }

  /** Of the row as it now is, an edit writes exactly what it gives and found otherwise when it loaded the row. */
  lemma PatchWritesDifferences(people: People, id: Id, change: Change, loaded: Row)
    requires id in people && PatchIn(people, id, change, loaded).Some?
    ensures var row, now := PatchIn(people, id, change, loaded).value[id], people[id];
      && row.role == (if change.role.None? || change.role.value == loaded.role then now.role else change.role.value)
      && row.seats == (if change.seats.None? || change.seats.value == loaded.seats then now.seats
                       else change.seats.value)
      && row.pin == (if change.pin.None? || change.pin.value == loaded.pin then now.pin else change.pin.value)
      && row.outbound == (if change.outbound.None? || change.outbound.value == loaded.outbound then now.outbound
                          else change.outbound.value)
      && row.back == (if change.back.None? || change.back.value == loaded.back then now.back else change.back.value)
  {
  }

  /** Whoever is cancelled is off the roster, and their place under the cap is free. */
  lemma CancelFrees(people: People, id: Id)
    ensures ActiveIds(CancelIn(people, id)) == ActiveIds(people) - {id}
    ensures id in people && people[id].active ==> |ActiveIds(CancelIn(people, id))| == |ActiveIds(people)| - 1
  {
    hide Active;
    var after := CancelIn(people, id);
    assert forall p :: p in ActiveIds(after) <==> p in ActiveIds(people) && p != id;
  }

  /** Of everybody's row only a pin at the one cancelled goes, and their own place on the roster. */
  lemma CancelExactly(people: People, id: Id, p: Id)
    requires p in people
    ensures CancelIn(people, id).Keys == people.Keys
    ensures var before, after := people[p], CancelIn(people, id)[p];
      && after.active == (before.active && p != id)
      && after.role == before.role && after.seats == before.seats
      && after.outbound == before.outbound && after.back == before.back
      && after.pin == (if before.pin == Some(id) then None else before.pin)
  {
  }

  // ---- Interleavings --------------------------------------------------------------------------------------------

  /** Where a roster transaction is: its row loaded, holding the lock, or written and about to commit. */
  datatype Phase =
    | Loaded(req: Request, row: Row)
    | Holding(req: Request, loaded: Option<Row>)
    | Ready(draft: Db)

  /** Where a solve is: the version read, the roster read for the request, and what was solved. */
  datatype Solve =
    | VersionRead(version: nat)
    | FirstRead(version: nat, first: People)
    | Solved(version: nat, roster: People)

  datatype State = State(db: Db, txs: map<int, Phase>, solves: map<int, Solve>)

  datatype Step =
    | Load(tx: int, req: Request)
    | Lock(tx: int, req: Request)
    | Write(tx: int)
    | Commit(tx: int)
    | Abort(tx: int)
    | ReadVersion(solve: int)
    | ReadRoster(solve: int)
    | Run(solve: int)

  predicate HasLock(p: Phase) {
    p.Holding? || p.Ready?
  }

  ghost predicate Unlocked(s: State) {
    forall t :: t in s.txs ==> !HasLock(s.txs[t])
  }

  /** Reading again in the same session: who is on the roster is fresh, rows already loaded are not read again. */
  function Reread(first: People, now: People): People {
    map p | p in now :: if p in first then first[p] else now[p]
  }

  /** One statement of one transaction. */
  ghost predicate Next(s: State, step: Step, t: State) {
    match step
    case Load(tx, req) =>
      && tx !in s.txs && !req.Add? && req.id in s.db.people && s.db.people[req.id].active
      && t == s.(txs := s.txs[tx := Loaded(req, s.db.people[req.id])])
    case Lock(tx, req) =>
      && Unlocked(s)
      && (if req.Add? then tx !in s.txs else tx in s.txs && s.txs[tx].Loaded? && s.txs[tx].req == req)
      && t == s.(txs := s.txs[tx := Holding(req, if req.Add? then None else Some(s.txs[tx].row))])
    case Write(tx) =>
      && tx in s.txs && s.txs[tx].Holding?
      && var written := Apply(s.db.people, s.txs[tx].req, s.txs[tx].loaded);
         t == if written.Some? then s.(txs := s.txs[tx := Ready(Db(s.db.version + 1, written.value))])
              else s.(txs := s.txs - {tx})
    case Commit(tx) =>
      && tx in s.txs && s.txs[tx].Ready?
      && t == s.(db := s.txs[tx].draft, txs := s.txs - {tx})
    case Abort(tx) => tx in s.txs && t == s.(txs := s.txs - {tx})
    case ReadVersion(solve) =>
      solve !in s.solves && t == s.(solves := s.solves[solve := VersionRead(s.db.version)])
    case ReadRoster(solve) =>
      && solve in s.solves && s.solves[solve].VersionRead?
      && t == s.(solves := s.solves[solve := FirstRead(s.solves[solve].version, Active(s.db.people))])
    case Run(solve) =>
      && solve in s.solves && s.solves[solve].FirstRead?
      && t == s.(solves := s.solves[solve :=
           Solved(s.solves[solve].version, Reread(s.solves[solve].first, Active(s.db.people)))])
  }

  /** A run: every state follows from the one before by some step. */
  ghost predicate IsRun(states: seq<State>, steps: seq<Step>) {
    && |states| == |steps| + 1
    && states[0] == State(Db(0, map[]), map[], map[])
    && forall i :: 0 <= i < |steps| ==>
         var j := i + 1;
         Next(states[i], steps[i], states[j])
  }

  // ---- What every reachable state keeps --------------------------------------------------------------------------

  /** No more than the cap, and every pin names someone else who is still on the roster. */
  ghost predicate RosterKept(people: People) {
    && |Active(people)| <= MAX_ACTIVE
    && forall p :: p in people && people[p].pin.Some? ==>
         var q := people[p].pin.value;
         q != p && q in people && people[q].active
  }

  lemma AddKeeps(people: People, id: Id, row: Row)
    requires RosterKept(people) && id !in people && AddTo(people, id, row).Some?
    ensures RosterKept(AddTo(people, id, row).value)
  {
  }

  lemma ActiveKeys(a: People, b: People)
    requires a.Keys == b.Keys && forall p :: p in b ==> p in a && (b[p].active ==> a[p].active)
    ensures |Active(b)| <= |Active(a)|
  {
    forall p | p in Active(b).Keys ensures p in Active(a).Keys {
      assert p in b;
    }
    KeysAtMost(Active(b).Keys, Active(a).Keys);
  }

  lemma KeysAtMost(a: set<Id>, b: set<Id>)
    requires a <= b
    ensures |a| <= |b|
  {
    assert b == a + (b - a);
  }

  lemma PatchKeeps(people: People, id: Id, change: Change, loaded: Row)
    requires RosterKept(people) && PatchIn(people, id, change, loaded).Some?
    ensures RosterKept(PatchIn(people, id, change, loaded).value)
  {
    ActiveKeys(people, PatchIn(people, id, change, loaded).value);
  }

  lemma CancelKeeps(people: People, id: Id)
    requires RosterKept(people)
    ensures RosterKept(CancelIn(people, id))
  {
    hide Active;
    ActiveKeys(people, CancelIn(people, id));
  }

  lemma ApplyKeeps(people: People, req: Request, loaded: Option<Row>)
    requires RosterKept(people) && Apply(people, req, loaded).Some?
    ensures RosterKept(Apply(people, req, loaded).value)
  {
    hide RosterKept, AddTo, PatchIn, CancelIn;
    match req
    case Add(id, row) => AddKeeps(people, id, row);
    case Patch(id, change) => PatchKeeps(people, id, change, loaded.value);
    case Cancel(id) => CancelKeeps(people, id);
  }

  /** Whoever is ready to commit was written from the database as it still is. */
  ghost predicate DraftGood(db: Db, p: Phase) {
    p.Ready? ==> p.draft.version == db.version + 1 && RosterKept(p.draft.people)
  }

  /** What a solve has read is no newer than its version says, and current while the version is. */
  ghost predicate ReadGood(db: Db, r: Solve) {
    && r.version <= db.version
    && (r.FirstRead? && r.version == db.version ==> r.first == Active(db.people))
    && (r.Solved? && r.version == db.version ==> r.roster == Active(db.people))
  }

  ghost predicate Inv(s: State) {
    && RosterKept(s.db.people)
    && (forall t, u :: t in s.txs && u in s.txs && HasLock(s.txs[t]) && HasLock(s.txs[u]) ==> t == u)
    && (forall t :: t in s.txs ==> DraftGood(s.db, s.txs[t]))
    && (forall r :: r in s.solves ==> ReadGood(s.db, s.solves[r]))
  }

  lemma RereadSame(now: People)
    ensures Reread(now, now) == now
  {
  }

  lemma CommitKeeps(s: State, tx: int, t: State)
    requires Inv(s) && Next(s, Commit(tx), t)
    ensures Inv(t)
  {
    hide RosterKept, Active;
    assert DraftGood(s.db, s.txs[tx]);
    forall u | u in t.txs ensures !HasLock(t.txs[u]) {
      assert u in s.txs && u != tx;
    }
    forall r | r in t.solves ensures ReadGood(t.db, t.solves[r]) {
      assert ReadGood(s.db, s.solves[r]);
    }
  }

  lemma WriteKeeps(s: State, tx: int, t: State)
    requires Inv(s) && Next(s, Write(tx), t)
    ensures Inv(t)
  {
    hide RosterKept, Active, Apply, ReadGood;
    if Apply(s.db.people, s.txs[tx].req, s.txs[tx].loaded).Some? {
      ApplyKeeps(s.db.people, s.txs[tx].req, s.txs[tx].loaded);
    }
  }

  lemma OthersKeep(s: State, step: Step, t: State)
    requires Inv(s) && Next(s, step, t) && !step.Commit? && !step.Write?
    ensures Inv(t)
  {
    hide RosterKept, Active, Reread;
    if step.Run? {
      RereadSame(Active(s.db.people));
    }
  }

  /** Every step of every transaction keeps the roster, the lock and the reads in order. */
  lemma NextKeeps(s: State, step: Step, t: State)
    requires Inv(s) && Next(s, step, t)
    ensures Inv(t)
  {
    hide Inv, Next;
    match step
    case Commit(tx) => CommitKeeps(s, tx, t);
    case Write(tx) => WriteKeeps(s, tx, t);
    case _ => OthersKeep(s, step, t);
  }

  lemma {:induction false} EveryState(states: seq<State>, steps: seq<Step>, i: nat)
    requires IsRun(states, steps) && i < |states|
    ensures Inv(states[i])
  {
    if i == 0 {
      assert Active(map[]) == map[];
    } else {
      var p := i - 1;
      EveryState(states, steps, p);
      assert Next(states[p], steps[p], states[i]);
      NextKeeps(states[p], steps[p], states[i]);
    }
  }

  /** In every committed state of every interleaving: the cap holds and every pin names someone else on the roster. */
  lemma RosterSafe(states: seq<State>, steps: seq<Step>, i: nat)
    requires IsRun(states, steps) && i < |states|
    ensures |ActiveIds(states[i].db.people)| <= 50
    ensures forall p :: p in states[i].db.people && states[i].db.people[p].pin.Some? ==>
      var q := states[i].db.people[p].pin.value;
      q != p && q in states[i].db.people && states[i].db.people[q].active
  {
    EveryState(states, steps, i);
  }

  /** A solution not marked stale was solved on the roster as it is, though version and roster were read apart. */
  lemma StalenessIsSound(states: seq<State>, steps: seq<Step>, i: nat, solve: int)
    requires IsRun(states, steps) && i < |states| && solve in states[i].solves && states[i].solves[solve].Solved?
    requires states[i].solves[solve].version == states[i].db.version
    ensures var roster, people := states[i].solves[solve].roster, states[i].db.people;
      roster.Keys == ActiveIds(people) && forall p :: p in roster ==> roster[p] == people[p]
  {
    hide RosterKept;
    EveryState(states, steps, i);
    assert ReadGood(states[i].db, states[i].solves[solve]);
  }

  // ---- What the ordering does not protect --------------------------------------------------------------------------

  /** The edit writes one of role and seats, and the other has moved to where they clash since the row was loaded. */
  predicate Clashes(row: Row, change: Change, loaded: Row) {
    var writesRole := change.role.Some? && change.role.value != loaded.role;
    var writesSeats := change.seats.Some? && change.seats.value != loaded.seats;
    || (writesSeats && !writesRole && change.seats.value > 0 && row.role.Passenger?)
    || (writesRole && !writesSeats && change.role.value.Passenger? && row.seats > 0)
  }

  /** The rule that a passenger offers no seats is checked on the row loaded before the lock: exactly when it fails. */
  lemma SeatRuleExactly(people: People, id: Id, change: Change, loaded: Row)
    requires id in people && PatchIn(people, id, change, loaded).Some?
    requires SeatRule(people[id].role, people[id].seats)
    ensures var row := PatchIn(people, id, change, loaded).value[id];
      SeatRule(row.role, row.seats) <==> !Clashes(people[id], change, loaded)
    ensures people[id].role == loaded.role && people[id].seats == loaded.seats ==> !Clashes(people[id], change, loaded)
  {
  }

  /** Every pin names somebody who is not a passenger, as it did when it was checked. */
  ghost predicate PinsDrive(people: People) {
    forall p :: p in people && people[p].pin.Some? && people[p].pin.value in people ==>
      !people[people[p].pin.value].role.Passenger?
  }

  /**
    * An edit checks the pin it writes, not the pins that name the row it writes: exactly when it leaves a pin to a
    * passenger.
    */
  lemma PatchPinsDriveExactly(people: People, id: Id, change: Change, loaded: Row)
    requires RosterKept(people) && PinsDrive(people) && PatchIn(people, id, change, loaded).Some?
    ensures PinsDrive(PatchIn(people, id, change, loaded).value) <==>
      !(Written(change.role, loaded.role, people[id].role).Passenger?
        && exists p :: p in people && people[p].pin == Some(id))
  {
    hide Active;
    var after := PatchIn(people, id, change, loaded).value;
    if p :| p in people && people[p].pin == Some(id) {
      assert p != id && after[p].pin == Some(id);
    }
  }

  lemma AddPinsDrive(people: People, id: Id, row: Row)
    requires RosterKept(people) && PinsDrive(people) && id !in people && AddTo(people, id, row).Some?
    ensures PinsDrive(AddTo(people, id, row).value)
  {
    hide Active;
  }

  lemma CancelPinsDrive(people: People, id: Id)
    requires PinsDrive(people)
    ensures PinsDrive(CancelIn(people, id))
  {
  }

  /** A transaction may leave a pin to a passenger: an edit that makes one of somebody pinned to. */
  ghost predicate Demotes(people: People, req: Request, loaded: Option<Row>) {
    && req.Patch? && loaded.Some? && req.id in people
    && Written(req.change.role, loaded.value.role, people[req.id].role).Passenger?
    && exists p :: p in people && people[p].pin == Some(req.id)
  }

  /** Of all transactions, in whatever interleaving, only those edits break the rule. */
  lemma ApplyPinsDriveExactly(people: People, req: Request, loaded: Option<Row>)
    requires RosterKept(people) && PinsDrive(people) && Apply(people, req, loaded).Some?
    ensures PinsDrive(Apply(people, req, loaded).value) <==> !Demotes(people, req, loaded)
  {
    hide RosterKept, PinsDrive, AddTo, PatchIn, CancelIn;
    match req
    case Add(id, row) => AddPinsDrive(people, id, row);
    case Patch(id, change) =>
      PatchedIsThere(people, id, change, loaded.value);
      PatchPinsDriveExactly(people, id, change, loaded.value);
    case Cancel(id) => CancelPinsDrive(people, id);
  }

  lemma PatchedIsThere(people: People, id: Id, change: Change, loaded: Row)
    requires PatchIn(people, id, change, loaded).Some?
    ensures id in people
  {
  }

  ghost predicate PinsDriveIn(s: State) {
    PinsDrive(s.db.people) && forall t :: t in s.txs && s.txs[t].Ready? ==> PinsDrive(s.txs[t].draft.people)
  }

  ghost predicate Demoting(s: State, step: Step) {
    && step.Write? && step.tx in s.txs && s.txs[step.tx].Holding?
    && Apply(s.db.people, s.txs[step.tx].req, s.txs[step.tx].loaded).Some?
    && Demotes(s.db.people, s.txs[step.tx].req, s.txs[step.tx].loaded)
  }

  lemma NextPinsDrive(s: State, step: Step, t: State)
    requires Next(s, step, t) && RosterKept(s.db.people) && PinsDriveIn(s) && !Demoting(s, step)
    ensures PinsDriveIn(t)
  {
    hide RosterKept, PinsDrive, Apply, Demotes;
    if step.Write? {
      var tx := s.txs[step.tx];
      if Apply(s.db.people, tx.req, tx.loaded).Some? {
        ApplyPinsDriveExactly(s.db.people, tx.req, tx.loaded);
      }
    }
  }

  lemma NobodyPinned()
    ensures PinsDriveIn(State(Db(0, map[]), map[], map[]))
  {
  }

  /** In every run without such an edit every pin names somebody who is no passenger, in every state. */
  lemma {:induction false} PinsDriveUnlessDemoted(states: seq<State>, steps: seq<Step>, i: nat)
    requires IsRun(states, steps) && i < |states|
    requires forall k :: 0 <= k < i ==> !Demoting(states[k], steps[k])
    ensures PinsDriveIn(states[i])
  {
    hide Next, Demoting, Active, PinsDriveIn;
    if i == 0 {
      NobodyPinned();
    } else {
      PinsDriveUnlessDemoted(states, steps, i - 1);
      RosterSafe(states, steps, i - 1);
      var j := i - 1 + 1;
      assert Next(states[i - 1], steps[i - 1], states[j]);
      NextPinsDrive(states[i - 1], steps[i - 1], states[i]);
    }
  }

  predicate LegRule(row: Row) {
    row.outbound || row.back
  }

  /** The edit gives up one leg, and the other has been given up since the row was loaded. */
  predicate LegsClash(row: Row, change: Change, loaded: Row) {
    var writesOut := change.outbound.Some? && change.outbound.value != loaded.outbound;
    var writesBack := change.back.Some? && change.back.value != loaded.back;
    || (writesOut && !writesBack && !change.outbound.value && !row.back)
    || (writesBack && !writesOut && !change.back.value && !row.outbound)
  }

  /** The rule that everyone needs a leg is checked on the row loaded before the lock: exactly when it fails. */
  lemma LegRuleExactly(people: People, id: Id, change: Change, loaded: Row)
    requires id in people && PatchIn(people, id, change, loaded).Some? && LegRule(people[id])
    ensures LegRule(PatchIn(people, id, change, loaded).value[id]) <==> !LegsClash(people[id], change, loaded)
    ensures people[id].outbound == loaded.outbound && people[id].back == loaded.back ==>
      !LegsClash(people[id], change, loaded)
  {
  }

  lemma OneMoreStep(states: seq<State>, steps: seq<Step>, step: Step, t: State)
    requires IsRun(states, steps) && Next(states[|steps|], step, t)
    ensures IsRun(states + [t], steps + [step])
  {
    hide Next;
    var more, all := states + [t], steps + [step];
    forall i | 0 <= i < |all| ensures var j := i + 1; Next(more[i], all[i], more[j]) {
      if i < |steps| {
        var j := i + 1;
        assert Next(states[i], steps[i], states[j]);
      }
    }
  }

  ghost predicate Reaches(s: State) {
    exists states: seq<State>, steps: seq<Step> :: IsRun(states, steps) && states[|steps|] == s
  }

  lemma ReachesNext(s: State, step: Step, t: State)
    requires Reaches(s) && Next(s, step, t)
    ensures Reaches(t)
  {
    hide Next;
    var states: seq<State>, steps: seq<Step> :| IsRun(states, steps) && states[|steps|] == s;
    OneMoreStep(states, steps, step, t);
    assert (states + [t])[|steps + [step]|] == t;
  }

  lemma ReachesStart()
    ensures Reaches(State(Db(0, map[]), map[], map[]))
  {
    assert IsRun([State(Db(0, map[]), map[], map[])], []);
  }

  /** Commits of a whole transaction, from the lock on. */
  lemma ReachesCommit(s: State, tx: int, req: Request, after: People)
    requires Reaches(s) && Unlocked(s)
    requires if req.Add? then tx !in s.txs else tx in s.txs && s.txs[tx].Loaded? && s.txs[tx].req == req
    requires Apply(s.db.people, req, if req.Add? then None else Some(s.txs[tx].row)) == Some(after)
    ensures Reaches(s.(db := Db(s.db.version + 1, after), txs := s.txs - {tx}))
  {
    hide Reaches, Apply;
    var held := s.(txs := s.txs[tx := Holding(req, if req.Add? then None else Some(s.txs[tx].row))]);
    ReachesNext(s, Lock(tx, req), held);
    var written := held.(txs := held.txs[tx := Ready(Db(s.db.version + 1, after))]);
    ReachesNext(held, Write(tx), written);
    var done := written.(db := Db(s.db.version + 1, after), txs := written.txs - {tx});
    ReachesNext(written, Commit(tx), done);
    assert done.txs == s.txs - {tx};
  }

  ghost function BecomePassenger(): Request {
    Patch(7, Change(Some(Passenger), Some(0), None, None, None))
  }

  ghost function OfferSeats(): Request {
    Patch(7, Change(None, Some(3), None, None, None))
  }

  ghost function Flexible(): Row {
    Row(true, Either, 2, None, true, true)
  }

  lemma OneIsUnderTheCap(row: Row)
    requires row.active && row.pin.None?
    ensures AddTo(map[], 7, row) == Some(map[7 := row])
  {
    assert Active(map[7 := row]) == map[7 := row];
    assert row.(active := true) == row;
  }

  ghost function GiveUp(outbound: bool): Request {
    Patch(7, if outbound then Change(None, None, None, Some(false), None)
             else Change(None, None, None, None, Some(false)))
  }

  /** Both edits are loaded before either commits; the second then writes over what the first has made of the row. */
  lemma BothEdits(a: Request, b: Request, first: Row, second: Row)
    requires a.Patch? && b.Patch? && a.id == 7 && b.id == 7
    requires PatchIn(map[7 := Flexible()], 7, a.change, Flexible()) == Some(map[7 := first])
    requires PatchIn(map[7 := first], 7, b.change, Flexible()) == Some(map[7 := second])
    ensures exists s :: Reaches(s) && s.db.people == map[7 := second]
  {
    hide Reaches, PatchIn;
    var s0 := State(Db(0, map[]), map[], map[]);
    ReachesStart();
    OneIsUnderTheCap(Flexible());
    ReachesCommit(s0, 1, Add(7, Flexible()), map[7 := Flexible()]);
    var s1 := State(Db(1, map[7 := Flexible()]), map[], map[]);
    assert s0.(db := Db(1, map[7 := Flexible()]), txs := s0.txs - {1}) == s1;
    var s2 := s1.(txs := map[2 := Loaded(a, Flexible())]);
    ReachesNext(s1, Load(2, a), s2);
    var s3 := s2.(txs := s2.txs[3 := Loaded(b, Flexible())]);
    ReachesNext(s2, Load(3, b), s3);
    ReachesCommit(s3, 2, a, map[7 := first]);
    var one := s3.(db := Db(2, map[7 := first]), txs := s3.txs - {2});
    ReachesCommit(one, 3, b, map[7 := second]);
    var two := one.(db := Db(3, map[7 := second]), txs := one.txs - {3});
    assert Reaches(two);
  }

  /** Two edits loaded before either commits, each fine by itself, leave a passenger offering three seats. */
  lemma PassengerCanOfferSeats()
    ensures exists s :: Reaches(s) && 7 in s.db.people && !SeatRule(s.db.people[7].role, s.db.people[7].seats)
  {
    hide Reaches;
    var passenger := Flexible().(role := Passenger, seats := 0);
    assert Edited(Flexible(), BecomePassenger().change, Flexible()) == passenger;
    assert map[7 := Flexible()][7 := passenger] == map[7 := passenger];
    var both := passenger.(seats := 3);
    assert Edited(passenger, OfferSeats().change, Flexible()) == both;
    assert map[7 := passenger][7 := both] == map[7 := both];
    BothEdits(BecomePassenger(), OfferSeats(), passenger, both);
  }

  /** The same way somebody comes to need neither leg, and if flexible to be an idle driver of the search. */
  lemma FlexibleCanNeedNoLeg()
    ensures exists s :: Reaches(s) && 7 in s.db.people && !LegRule(s.db.people[7]) && s.db.people[7].role.Either?
  {
    hide Reaches;
    var stays := Flexible().(outbound := false);
    assert Edited(Flexible(), GiveUp(true).change, Flexible()) == stays;
    assert map[7 := Flexible()][7 := stays] == map[7 := stays];
    var idle := stays.(back := false);
    assert Edited(stays, GiveUp(false).change, Flexible()) == idle;
    assert map[7 := stays][7 := idle] == map[7 := idle];
    BothEdits(GiveUp(true), GiveUp(false), stays, idle);
  }

  // ---- A pin to a passenger ------------------------------------------------------------------------------------

  ghost function PinnedTo(id: Id): Row {
    Row(true, Passenger, 0, Some(id), true, true)
  }

  /** One after the other: somebody flexible joins, somebody else is pinned to them, and they become a passenger. */
  lemma PinToPassenger()
    ensures exists s :: Reaches(s) && !PinsDrive(s.db.people)
  {
    hide Reaches, Apply;
    var one: People := map[7 := Flexible()];
    var two := one[8 := PinnedTo(7)];
    var passenger := Flexible().(role := Passenger, seats := 0);
    var three := two[7 := passenger];
    PinnedJoins(one, two);
    var s0 := State(Db(0, map[]), map[], map[]);
    ReachesStart();
    OneIsUnderTheCap(Flexible());
    ReachesAdd(s0, 1, 7, Flexible(), one);
    var s1 := State(Db(1, one), map[], map[]);
    ReachesAdd(s1, 2, 8, PinnedTo(7), two);
    var s2 := State(Db(2, two), map[], map[]);
    var s3 := s2.(txs := map[3 := Loaded(BecomePassenger(), Flexible())]);
    ReachesNext(s2, Load(3, BecomePassenger()), s3);
    PassengerPatched(two, three);
    ReachesCommit(s3, 3, BecomePassenger(), three);
    var s4 := s3.(db := Db(3, three), txs := s3.txs - {3});
    assert three[8].pin == Some(7);
    assert Reaches(s4);
  }

  /** A whole transaction that adds somebody, on a roster nobody else is changing. */
  lemma ReachesAdd(s: State, tx: int, id: Id, row: Row, after: People)
    requires Reaches(s) && s.txs == map[] && Apply(s.db.people, Add(id, row), None) == Some(after)
    ensures Reaches(State(Db(s.db.version + 1, after), map[], s.solves))
  {
    hide Reaches, Apply;
    ReachesCommit(s, tx, Add(id, row), after);
    assert s.(db := Db(s.db.version + 1, after), txs := s.txs - {tx})
        == State(Db(s.db.version + 1, after), map[], s.solves);
  }

  lemma PinnedJoins(one: People, two: People)
    requires one == map[7 := Flexible()] && two == one[8 := PinnedTo(7)]
    ensures Apply(map[], Add(7, Flexible()), None) == Some(one)
    ensures Apply(one, Add(8, PinnedTo(7)), None) == Some(two)
  {
    OneIsUnderTheCap(Flexible());
    assert PinnedTo(7).(active := true) == PinnedTo(7);
    assert Active(two) == two;
    assert two.Keys == {7, 8};
  }

  lemma PassengerPatched(two: People, three: People)
    requires two == map[7 := Flexible(), 8 := PinnedTo(7)]
    requires three == two[7 := Flexible().(role := Passenger, seats := 0)]
    ensures Apply(two, BecomePassenger(), Some(Flexible())) == Some(three)
  {
    assert Edited(Flexible(), BecomePassenger().change, Flexible()) == Flexible().(role := Passenger, seats := 0);
  }

  // ---- A roster nobody had ----------------------------------------------------------------------------------------

  ghost function Joins(): Row {
    Row(true, Passenger, 0, None, true, true)
  }

  /** A solve reads somebody as they were and somebody else as they joined later; its version then marks it stale. */
  lemma SolveMayMixRosters()
    ensures exists s ::
      && Reaches(s) && 1 in s.solves && s.solves[1].Solved? && 7 in s.db.people
      && s.solves[1].roster == map[7 := Flexible(), 8 := Joins()] && s.db.people[7].role == Passenger
      && s.solves[1].version < s.db.version
  {
    hide Reaches, Apply;
    var one: People := map[7 := Flexible()];
    var changed: People := map[7 := Flexible().(role := Passenger, seats := 0)];
    var both := changed[8 := Joins()];
    MixedSteps(one, changed, both);
    var s0 := State(Db(0, map[]), map[], map[]);
    ReachesStart();
    ReachesAdd(s0, 1, 7, Flexible(), one);
    var s1 := State(Db(1, one), map[], map[]);
    var s2 := s1.(solves := map[1 := VersionRead(1)]);
    ReachesNext(s1, ReadVersion(1), s2);
    var s3 := s2.(solves := map[1 := FirstRead(1, one)]);
    ReachesNext(s2, ReadRoster(1), s3);
    var s4 := s3.(txs := map[3 := Loaded(BecomePassenger(), Flexible())]);
    ReachesNext(s3, Load(3, BecomePassenger()), s4);
    ReachesCommit(s4, 3, BecomePassenger(), changed);
    var s5 := State(Db(2, changed), map[], s3.solves);
    assert s4.(db := Db(2, changed), txs := s4.txs - {3}) == s5;
    ReachesAdd(s5, 4, 8, Joins(), both);
    var s6 := State(Db(3, both), map[], s3.solves);
    var s7 := s6.(solves := map[1 := Solved(1, map[7 := Flexible(), 8 := Joins()])]);
    ReachesNext(s6, Run(1), s7);
    assert Reaches(s7);
  }

  lemma MixedSteps(one: People, changed: People, both: People)
    requires one == map[7 := Flexible()]
    requires changed == map[7 := Flexible().(role := Passenger, seats := 0)] && both == changed[8 := Joins()]
    ensures Apply(map[], Add(7, Flexible()), None) == Some(one) && Active(one) == one
    ensures Apply(one, BecomePassenger(), Some(Flexible())) == Some(changed)
    ensures Apply(changed, Add(8, Joins()), None) == Some(both)
    ensures Reread(one, Active(both)) == map[7 := Flexible(), 8 := Joins()]
  {
    OneIsUnderTheCap(Flexible());
    assert Edited(Flexible(), BecomePassenger().change, Flexible()) == changed[7];
    assert one[7 := changed[7]] == changed;
    assert Joins().(active := true) == Joins();
    assert both.Keys == {7, 8} && Active(both) == both;
  }
}
