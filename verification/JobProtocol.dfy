/**
  * Optimization jobs of one event as interleaved database steps. The partial unique index lets one in-flight row
  * exist, uncommitted ones included; every other read sees only what is committed.
  */
module JobProtocol {
  import opened Models

  const LEASE_SECONDS := 300

  datatype Status = Queued | Running | Succeeded | Failed {
    predicate InFlight() {
      Queued? || Running?
    }
  }

  /**
    * One job row, `asked` being the fingerprint it was enqueued with and `alive` whether the process that owns it is
    * still working on it. Neither is in the database.
    */
  datatype Job = Job(status: Status, lease: Option<int>, fingerprint: int, version: int, asked: int, alive: bool) {
    predicate InFlight() {
      status.InFlight()
    }

    predicate Expired(now: int) {
      InFlight() && lease.Some? && lease.value < now
    }

    /** Finished with the fingerprint it was enqueued with, estimates not having taken its place. */
    predicate Kept() {
      status.Succeeded? && fingerprint == asked
    }
  }

  type Jobs = map<int, Job>

  /** A request past its first look, about to insert; or the insert, not yet committed. */
  datatype Pending = Pending(id: int, fingerprint: int, version: int, lease: int, reclaimed: set<int>, checked: bool)

  datatype State = State(jobs: Jobs, asking: map<int, (int, int)>, pending: Option<Pending>, now: int)

  datatype Step =
    | Tick(now: int)
    | Ask(caller: int, fingerprint: int, version: int)
    | Insert(caller: int, id: int)
    | Conflict(caller: int)
    | Recheck
    | Commit
    | Abandon
    | Begin(id: int)
    | Finish(id: int, fingerprint: int)
    | Fail(id: int)
    | Crash(id: int)

  /** `_already_solved` */
  ghost predicate AlreadySolved(jobs: Jobs, fingerprint: int, version: int) {
    exists k ::
      k in jobs && jobs[k].status.Succeeded? && jobs[k].fingerprint == fingerprint && jobs[k].version == version
  }

  /** `_reclaim_expired_leases`: which rows it fails. */
  function ExpiredIn(jobs: Jobs, now: int): set<int> {
    set k | k in jobs && jobs[k].Expired(now)
  }

  /** What the unique index sees once a request has failed the expired rows in its own transaction. */
  ghost predicate IndexFree(jobs: Jobs, reclaimed: set<int>) {
    forall k :: k in jobs && jobs[k].InFlight() ==> k in reclaimed
  }

  function Reclaimed(jobs: Jobs, reclaimed: set<int>): Jobs {
    map k | k in jobs :: if k in reclaimed then jobs[k].(status := Failed) else jobs[k]
  }

  ghost predicate Next(s: State, step: Step, t: State) {
    match step
    // A live solve does not outlive its lease: time never passes the lease of one still being worked on,
    // committed or not.
    case Tick(now) =>
      && s.now <= now
      && (forall k :: k in s.jobs && s.jobs[k].InFlight() && s.jobs[k].alive && s.jobs[k].lease.Some? ==>
            now <= s.jobs[k].lease.value)
      && (s.pending.Some? ==> now <= s.pending.value.lease)
      && t == s.(now := now)
    // The fast path: nothing is enqueued for a problem already solved.
    case Ask(caller, fingerprint, version) =>
      && caller !in s.asking
      && t == if AlreadySolved(s.jobs, fingerprint, version) then s
              else s.(asking := s.asking[caller := (fingerprint, version)])
    // The insert waits for another's uncommitted row, and goes through only when no other row is in flight.
    case Insert(caller, id) =>
      && caller in s.asking && s.pending.None? && id !in s.jobs
      && IndexFree(s.jobs, ExpiredIn(s.jobs, s.now))
      && t == s.(asking := s.asking - {caller},
                 pending := Some(Pending(id, s.asking[caller].0, s.asking[caller].1, s.now + LEASE_SECONDS,
                                         ExpiredIn(s.jobs, s.now), false)))
    case Conflict(caller) =>
      && caller in s.asking && s.pending.None?
      && !IndexFree(s.jobs, ExpiredIn(s.jobs, s.now))
      && t == s.(asking := s.asking - {caller})
    case Recheck =>
      && s.pending.Some? && !s.pending.value.checked
      && t == if AlreadySolved(s.jobs, s.pending.value.fingerprint, s.pending.value.version) then s.(pending := None)
              else s.(pending := Some(s.pending.value.(checked := true)))
    case Commit =>
      && s.pending.Some? && s.pending.value.checked
      && var p := s.pending.value;
         t == s.(pending := None,
                 jobs := Reclaimed(s.jobs, p.reclaimed)[p.id := Job(Queued, Some(p.lease), p.fingerprint, p.version,
                                                                    p.fingerprint, true)])
    case Abandon => s.pending.Some? && t == s.(pending := None)
    case Begin(id) =>
      && id in s.jobs && s.jobs[id].status.Queued? && s.jobs[id].alive
      && t == s.(jobs := s.jobs[id := s.jobs[id].(status := Running, lease := Some(s.now + LEASE_SECONDS))])
    // `fingerprint` is the job's own, or the one re-taken when straight-line estimates stood in.
    case Finish(id, fingerprint) =>
      && id in s.jobs && s.jobs[id].status.Running? && s.jobs[id].alive
      && t == s.(jobs := s.jobs[id := s.jobs[id].(status := Succeeded, fingerprint := fingerprint, alive := false)])
    case Fail(id) =>
      && id in s.jobs && s.jobs[id].status.Running? && s.jobs[id].alive
      && t == s.(jobs := s.jobs[id := s.jobs[id].(status := Failed, alive := false)])
    case Crash(id) =>
      && id in s.jobs && s.jobs[id].alive
      && t == s.(jobs := s.jobs[id := s.jobs[id].(alive := false)])
  }

  ghost predicate IsRun(states: seq<State>, steps: seq<Step>) {
    && |states| == |steps| + 1
    && states[0].jobs == map[] && states[0].asking == map[] && states[0].pending.None?
    && forall i :: 0 <= i < |steps| ==>
         var j := i + 1;
         Next(states[i], steps[i], states[j])
  }

  // ---- What every reachable state keeps --------------------------------------------------------------------------

  /** An in-flight row carries a lease, no further off than a fresh one, and unexpired while someone works on it. */
  ghost predicate Leased(s: State, k: int)
    requires k in s.jobs
  {
    s.jobs[k].InFlight() ==>
      && s.jobs[k].lease.Some? && s.jobs[k].lease.value <= s.now + LEASE_SECONDS
      && s.jobs[k].fingerprint == s.jobs[k].asked
      && (s.jobs[k].alive ==> s.now <= s.jobs[k].lease.value)
  }

  /** While a job is in flight, nothing finished answers its problem. */
  ghost predicate Unanswered(jobs: Jobs, k: int)
    requires k in jobs
  {
    jobs[k].InFlight() ==> !AlreadySolved(jobs, jobs[k].asked, jobs[k].version)
  }

  ghost predicate OneInFlight(jobs: Jobs) {
    forall j, k :: j in jobs && k in jobs && jobs[j].InFlight() && jobs[k].InFlight() ==> j == k
  }

  /** Both succeeded on the problem they were enqueued for, and it is the same one. */
  ghost predicate SameAnswer(a: Job, b: Job) {
    a.Kept() && b.Kept() && a.asked == b.asked && a.version == b.version
  }

  ghost predicate NoRepeats(jobs: Jobs) {
    forall j, k :: j in jobs && k in jobs && SameAnswer(jobs[j], jobs[k]) ==> j == k
  }

  /** An uncommitted insert has the event to itself: whatever else is in flight is dead and about to be failed. */
  ghost predicate PendingAlone(s: State) {
    s.pending.Some? ==>
      && var p := s.pending.value;
         && p.id !in s.jobs && s.now <= p.lease <= s.now + LEASE_SECONDS
         && (forall k :: k in s.jobs && s.jobs[k].InFlight() ==> k in p.reclaimed && !s.jobs[k].alive)
         && (p.checked ==> !AlreadySolved(s.jobs, p.fingerprint, p.version))
  }

  ghost predicate Inv(s: State) {
    && OneInFlight(s.jobs) && NoRepeats(s.jobs) && PendingAlone(s)
    && (forall k :: k in s.jobs ==> Leased(s, k) && Unanswered(s.jobs, k))
  }

  // ---- Step by step ------------------------------------------------------------------------------------------------

  lemma TickKeeps(s: State, now: int, t: State)
    requires Inv(s) && Next(s, Tick(now), t)
    ensures Inv(t)
  {
    hide OneInFlight, NoRepeats, AlreadySolved;
    forall k | k in t.jobs ensures Leased(t, k) && Unanswered(t.jobs, k) {
      assert Leased(s, k) && Unanswered(s.jobs, k);
    }
  }

  lemma InsertKeeps(s: State, caller: int, id: int, t: State)
    requires Inv(s) && Next(s, Insert(caller, id), t)
    ensures Inv(t)
  {
    hide OneInFlight, NoRepeats, AlreadySolved, Unanswered;
    forall k | k in t.jobs && t.jobs[k].InFlight() ensures k in t.pending.value.reclaimed && !t.jobs[k].alive {
      assert Leased(s, k);
    }
    forall k | k in t.jobs ensures Leased(t, k) && Unanswered(t.jobs, k) {
      assert Leased(s, k) && Unanswered(s.jobs, k);
    }
  }

  lemma WaitingKeeps(s: State, step: Step, t: State)
    requires Inv(s) && Next(s, step, t) && (step.Ask? || step.Conflict? || step.Recheck? || step.Abandon?)
    ensures Inv(t)
  {
    hide OneInFlight, NoRepeats, AlreadySolved, Unanswered;
    forall k | k in t.jobs ensures Leased(t, k) && Unanswered(t.jobs, k) {
      assert Leased(s, k) && Unanswered(s.jobs, k);
    }
  }

  /** Rows that only stop being in flight answer nothing new. */
  lemma FewerAnswers(before: Jobs, after: Jobs, fingerprint: int, version: int)
    requires forall k :: k in after && after[k].status.Succeeded? ==> k in before && SameAs(before[k], after[k])
    requires !AlreadySolved(before, fingerprint, version)
    ensures !AlreadySolved(after, fingerprint, version)
  {
  }

  lemma CommitKeeps(s: State, t: State)
    requires Inv(s) && Next(s, Commit, t)
    ensures Inv(t)
  {
    hide AlreadySolved;
    var p := s.pending.value;
    assert forall k :: k in s.jobs && s.jobs[k].InFlight() ==> k in p.reclaimed;
    FewerAnswers(s.jobs, t.jobs, p.fingerprint, p.version);
    forall k | k in t.jobs && t.jobs[k].InFlight() ensures k == p.id {
    }
  }

  lemma BeginKeeps(s: State, id: int, t: State)
    requires Inv(s) && Next(s, Begin(id), t)
    ensures Inv(t)
  {
    hide AlreadySolved;
    assert s.pending.None?;
    forall k | k in t.jobs ensures Leased(t, k) && Unanswered(t.jobs, k) {
      assert Leased(s, k) && Unanswered(s.jobs, k);
      if t.jobs[k].InFlight() {
        FewerAnswers(s.jobs, t.jobs, t.jobs[k].asked, t.jobs[k].version);
      }
    }
  }

  lemma EndKeeps(s: State, step: Step, t: State)
    requires Inv(s) && Next(s, step, t) && (step.Fail? || step.Crash?)
    ensures Inv(t)
  {
    hide AlreadySolved, SameAnswer;
    forall k | k in t.jobs ensures Leased(t, k) && Unanswered(t.jobs, k) {
      assert Leased(s, k) && Unanswered(s.jobs, k);
      if t.jobs[k].InFlight() {
        FewerAnswers(s.jobs, t.jobs, t.jobs[k].asked, t.jobs[k].version);
      }
    }
    if s.pending.Some? && s.pending.value.checked {
      FewerAnswers(s.jobs, t.jobs, s.pending.value.fingerprint, s.pending.value.version);
    }
    forall j, k | j in t.jobs && k in t.jobs && SameAnswer(t.jobs[j], t.jobs[k]) ensures j == k {
      SameAnswerThen(s, t, j, k);
    }
  }

  ghost predicate SameAs(a: Job, b: Job) {
    a.status == b.status && a.fingerprint == b.fingerprint && a.version == b.version
  }

  lemma SameAnswerThen(s: State, t: State, j: int, k: int)
    requires NoRepeats(s.jobs) && j in t.jobs && k in t.jobs && SameAnswer(t.jobs[j], t.jobs[k])
    requires forall i :: i in t.jobs && t.jobs[i].status.Succeeded? ==>
      i in s.jobs && SameAs(s.jobs[i], t.jobs[i]) && s.jobs[i].asked == t.jobs[i].asked
    ensures j == k
  {
    assert SameAnswer(s.jobs[j], s.jobs[k]);
  }

  lemma FinishKeeps(s: State, id: int, fingerprint: int, t: State)
    requires Inv(s) && Next(s, Finish(id, fingerprint), t)
    ensures Inv(t)
  {
    assert s.pending.None?;
    assert Unanswered(s.jobs, id) && Leased(s, id);
    forall k | k in t.jobs ensures !t.jobs[k].InFlight() {
    }
    forall j, k | j in t.jobs && k in t.jobs && SameAnswer(t.jobs[j], t.jobs[k]) ensures j == k {
      if j == id && k != id {
      } else if k == id && j != id {
      } else if j != id {
        assert SameAnswer(s.jobs[j], s.jobs[k]);
      }
    }
  }

  /** Every database step of every request and every solve keeps the invariant. */
  lemma NextKeeps(s: State, step: Step, t: State)
    requires Inv(s) && Next(s, step, t)
    ensures Inv(t)
  {
    hide Inv, Next;
    match step
    case Tick(now) => TickKeeps(s, now, t);
    case Insert(caller, id) => InsertKeeps(s, caller, id, t);
    case Commit => CommitKeeps(s, t);
    case Begin(id) => BeginKeeps(s, id, t);
    case Finish(id, fingerprint) => FinishKeeps(s, id, fingerprint, t);
    case Fail(id) => EndKeeps(s, step, t);
    case Crash(id) => EndKeeps(s, step, t);
    case _ => WaitingKeeps(s, step, t);
  }

  lemma {:induction false} EveryState(states: seq<State>, steps: seq<Step>, i: nat)
    requires IsRun(states, steps) && i < |states|
    ensures Inv(states[i])
  {
    hide Next;
    if i > 0 {
      hide Inv;
      var p := i - 1;
      EveryState(states, steps, p);
      assert Next(states[p], steps[p], states[i]);
      NextKeeps(states[p], steps[p], states[i]);
    }
  }

  /** In every interleaving, at most one job of the event is in flight. */
  lemma AtMostOneInFlight(states: seq<State>, steps: seq<Step>, i: nat, j: int, k: int)
    requires IsRun(states, steps) && i < |states|
    requires j in states[i].jobs && k in states[i].jobs
    requires states[i].jobs[j].InFlight() && states[i].jobs[k].InFlight()
    ensures j == k
  {
    hide IsRun, Leased, Unanswered, PendingAlone, NoRepeats;
    EveryState(states, steps, i);
  }

  /** In every interleaving, a problem is solved at most once by jobs that keep their enqueue fingerprint. */
  lemma SolvedAtMostOnce(states: seq<State>, steps: seq<Step>, i: nat, j: int, k: int)
    requires IsRun(states, steps) && i < |states|
    requires j in states[i].jobs && k in states[i].jobs
    requires states[i].jobs[j].Kept() && states[i].jobs[k].Kept()
    requires states[i].jobs[j].fingerprint == states[i].jobs[k].fingerprint
    requires states[i].jobs[j].version == states[i].jobs[k].version
    ensures j == k
  {
    hide IsRun, Leased, Unanswered, PendingAlone, OneInFlight;
    EveryState(states, steps, i);
    assert SameAnswer(states[i].jobs[j], states[i].jobs[k]);
  }

  /** Every in-flight job carries a lease, and it runs out within the lease time. */
  lemma InFlightIsLeased(states: seq<State>, steps: seq<Step>, i: nat, k: int)
    requires IsRun(states, steps) && i < |states|
    requires k in states[i].jobs && states[i].jobs[k].InFlight()
    ensures states[i].jobs[k].lease.Some? && states[i].jobs[k].lease.value <= states[i].now + 300
  {
    hide IsRun, OneInFlight, Unanswered, PendingAlone, NoRepeats;
    EveryState(states, steps, i);
    assert Leased(states[i], k);
  }

  /** A job of the same problem, on the same version of the roster, that succeeded. */
  ghost predicate Answers(job: Job, fingerprint: int, version: int) {
    job.status == Succeeded && job.fingerprint == fingerprint && job.version == version
  }

  /** A request is answered from an earlier job exactly when one has solved that problem; otherwise it is to insert. */
  lemma AnsweredExactly(s: State, caller: int, fingerprint: int, version: int, t: State)
    requires Next(s, Ask(caller, fingerprint, version), t)
    ensures caller !in t.asking <==> exists k :: k in s.jobs && Answers(s.jobs[k], fingerprint, version)
    ensures caller in t.asking ==> t.asking[caller] == (fingerprint, version)
    ensures t.jobs == s.jobs && t.pending == s.pending && t.now == s.now
  {
    if k :| k in s.jobs && Answers(s.jobs[k], fingerprint, version) {
      assert AlreadySolved(s.jobs, fingerprint, version);
    }
  }

  /** An insert is taken back exactly when a job has solved its problem meanwhile; otherwise it may commit. */
  lemma TakenBackExactly(s: State, t: State)
    requires Next(s, Recheck, t)
    ensures var p := s.pending.value;
      && (t.pending.None? <==> exists k :: k in s.jobs && Answers(s.jobs[k], p.fingerprint, p.version))
      && (t.pending.Some? ==> t.pending.value == p.(checked := true))
    ensures t.jobs == s.jobs && t.asking == s.asking && t.now == s.now
  {
    var p := s.pending.value;
    if k :| k in s.jobs && Answers(s.jobs[k], p.fingerprint, p.version) {
      assert AlreadySolved(s.jobs, p.fingerprint, p.version);
    }
  }

  /** A request whose turn it is inserts exactly when every job still in flight has outlived its lease. */
  lemma InsertsExactly(s: State, caller: int, id: int)
    requires caller in s.asking && s.pending.None? && id !in s.jobs
    ensures (exists t :: Next(s, Insert(caller, id), t)) <==>
      forall k :: k in s.jobs && s.jobs[k].status in {Queued, Running} ==>
        s.jobs[k].lease.Some? && s.jobs[k].lease.value < s.now
    ensures (exists t :: Next(s, Insert(caller, id), t)) <==> !exists t :: Next(s, Conflict(caller), t)
  {
    var expired := ExpiredIn(s.jobs, s.now);
    var t := s.(asking := s.asking - {caller},
                pending := Some(Pending(id, s.asking[caller].0, s.asking[caller].1, s.now + LEASE_SECONDS, expired,
                                        false)));
    var u := s.(asking := s.asking - {caller});
    if IndexFree(s.jobs, expired) {
      assert Next(s, Insert(caller, id), t);
    } else {
      assert Next(s, Conflict(caller), u);
    }
  }

  /**
    * What a commit leaves: the new job in the queue, the jobs it reclaimed failed, every other job as it was. Only jobs
    * in flight past their lease when the insert was made are ever reclaimed.
    */
  lemma CommitExactly(s: State, t: State)
    requires Next(s, Commit, t)
    ensures var p := s.pending.value;
      && t.jobs.Keys == s.jobs.Keys + {p.id} && t.pending.None?
      && t.jobs[p.id] == Job(Queued, Some(p.lease), p.fingerprint, p.version, p.fingerprint, true)
      && forall k :: k in s.jobs && k != p.id ==>
           && (k !in p.reclaimed ==> t.jobs[k] == s.jobs[k])
           && (k in p.reclaimed ==> t.jobs[k].status == Failed && t.jobs[k].fingerprint == s.jobs[k].fingerprint
                                    && t.jobs[k].version == s.jobs[k].version)
  {
  }

  lemma ReclaimsExactly(s: State, caller: int, id: int, t: State)
    requires Next(s, Insert(caller, id), t)
    ensures t.pending.Some? && t.pending.value.lease == s.now + 300 && t.jobs == s.jobs
    ensures forall k :: k in t.pending.value.reclaimed <==>
      && k in s.jobs && s.jobs[k].status in {Queued, Running}
      && s.jobs[k].lease.Some? && s.jobs[k].lease.value < s.now
  {
  }

  /** Whoever asks for what has just been solved is answered from it; the job that began had the whole lease. */
  lemma SolvedIsAnswered(s: State, id: int, fingerprint: int, t: State, caller: int, u: State)
    requires Next(s, Finish(id, fingerprint), t) && Next(t, Ask(caller, fingerprint, s.jobs[id].version), u)
    ensures caller !in u.asking
  {
    assert Answers(t.jobs[id], fingerprint, s.jobs[id].version);
    AnsweredExactly(t, caller, fingerprint, s.jobs[id].version, u);
  }

  lemma BegunIsLeased(s: State, id: int, t: State)
    requires Next(s, Begin(id), t)
    ensures t.jobs[id].status == Running && t.jobs[id].lease == Some(s.now + 300) && t.jobs[id].alive
    ensures t.jobs[id].fingerprint == s.jobs[id].fingerprint && t.jobs[id].version == s.jobs[id].version
    ensures t.jobs.Keys == s.jobs.Keys && forall k :: k in s.jobs && k != id ==> t.jobs[k] == s.jobs[k]
  {
  }

  /** Once a job has ended, well or not, nothing is in flight and the next request inserts at once. */
  lemma EndMakesRoom(s: State, step: Step, t: State, caller: int, id: int)
    requires Inv(s) && Next(s, step, t) && (step.Finish? || step.Fail?)
    requires caller in t.asking && id !in t.jobs && t.pending.None?
    ensures exists u :: Next(t, Insert(caller, id), u)
  {
    hide Leased, Unanswered, NoRepeats;
    InsertsExactly(t, caller, id);
  }

  /** Everyone who was at work has died and no insert is waiting to commit. */
  ghost predicate Deserted(s: State) {
    s.pending.None? && forall k :: k in s.jobs && s.jobs[k].InFlight() ==> !s.jobs[k].alive
  }

  /** However everyone died, once the lease time has passed the next request's insert goes through. */
  lemma NothingStaysWedged(states: seq<State>, steps: seq<Step>, i: nat, later: int, caller: int, id: int)
    requires IsRun(states, steps) && i < |states| && Deserted(states[i])
    requires later > states[i].now + 300 && caller in states[i].asking && id !in states[i].jobs
    ensures Next(states[i], Tick(later), states[i].(now := later))
    ensures exists t :: Next(states[i].(now := later), Insert(caller, id), t)
  {
    hide IsRun, OneInFlight, Unanswered, PendingAlone, NoRepeats;
    EveryState(states, steps, i);
    var s := states[i].(now := later);
    forall k | k in s.jobs && s.jobs[k].InFlight() ensures k in ExpiredIn(s.jobs, later) {
      assert Leased(states[i], k);
    }
    var t := s.(asking := s.asking - {caller},
                pending := Some(Pending(id, s.asking[caller].0, s.asking[caller].1, s.now + LEASE_SECONDS,
                                        ExpiredIn(s.jobs, s.now), false)));
    assert Next(s, Insert(caller, id), t);
  }

  // ---- Why the problem is looked up again after the insert --------------------------------------------------------

  ghost predicate Reaches(s: State) {
    exists states: seq<State>, steps: seq<Step> :: IsRun(states, steps) && states[|steps|] == s
  }

  lemma OneMoreStep(states: seq<State>, steps: seq<Step>, step: Step, t: State)
    requires IsRun(states, steps) && Next(states[|steps|], step, t)
    ensures IsRun(states + [t], steps + [step])
  {
    hide Next;
    var more, all := states + [t], steps + [step];
    forall i | 0 <= i < |all| ensures var j := i + 1; Next(more[i], all[i], more[j]) {
      if i < |steps| {
        var j := i + 1;
        assert Next(states[i], steps[i], states[j]);
      }
    }
  }

  lemma ReachesNext(s: State, step: Step, t: State)
    requires Reaches(s) && Next(s, step, t)
    ensures Reaches(t)
  {
    hide Next;
    var states: seq<State>, steps: seq<Step> :| IsRun(states, steps) && states[|steps|] == s;
    OneMoreStep(states, steps, step, t);
    assert (states + [t])[|steps + [step]|] == t;
  }

  /** Two requests look before either inserts; one is solved in full. */
  lemma SolvedMeanwhile() returns (s: State)
    ensures Reaches(s)
    ensures s == State(map[0 := Job(Succeeded, Some(LEASE_SECONDS), 1, 1, 1, false)], map[5 := (1, 1)], None, 0)
  {
    hide Reaches;
    var s0 := State(map[], map[], None, 0);
    ReachesFirst(s0);
    var s1 := s0.(asking := map[9 := (1, 1)]);
    ReachesNext(s0, Ask(9, 1, 1), s1);
    var s2 := s1.(asking := map[9 := (1, 1), 5 := (1, 1)]);
    ReachesNext(s1, Ask(5, 1, 1), s2);
    var p := Pending(0, 1, 1, LEASE_SECONDS, {}, false);
    var s3 := s2.(asking := map[5 := (1, 1)], pending := Some(p));
    assert s2.asking - {9} == s3.asking && ExpiredIn(map[], 0) == {};
    ReachesNext(s2, Insert(9, 0), s3);
    s := Solved(s3, p);
  }

  lemma Solved(s3: State, p: Pending) returns (s: State)
    requires Reaches(s3) && p == Pending(0, 1, 1, LEASE_SECONDS, {}, false)
    requires s3 == State(map[], map[5 := (1, 1)], Some(p), 0)
    ensures Reaches(s)
    ensures s == State(map[0 := Job(Succeeded, Some(LEASE_SECONDS), 1, 1, 1, false)], map[5 := (1, 1)], None, 0)
  {
    hide Reaches;
    var s4 := s3.(pending := Some(p.(checked := true)));
    ReachesNext(s3, Recheck, s4);
    var job := Job(Queued, Some(LEASE_SECONDS), 1, 1, 1, true);
    var s5 := s4.(pending := None, jobs := map[0 := job]);
    assert Reclaimed(map[], {})[0 := job] == map[0 := job];
    ReachesNext(s4, Commit, s5);
    var s6 := s5.(jobs := map[0 := job.(status := Running)]);
    assert s5.jobs[0 := job.(status := Running)] == s6.jobs;
    ReachesNext(s5, Begin(0), s6);
    s := s6.(jobs := map[0 := job.(status := Succeeded, alive := false)]);
    assert s6.jobs[0 := job.(status := Succeeded, alive := false)] == s.jobs;
    ReachesNext(s6, Finish(0, 1), s);
  }

  lemma ReachesFirst(s: State)
    requires s == State(map[], map[], None, 0)
    ensures Reaches(s)
  {
    assert IsRun([s], []);
  }

  /** Without the second look, an insert that goes through would repeat a problem solved since the first. */
  lemma FirstLookIsNotEnough()
    ensures exists s, caller, id, t ::
      && Reaches(s) && Next(s, Insert(caller, id), t)
      && AlreadySolved(t.jobs, t.pending.value.fingerprint, t.pending.value.version)
  {
    hide Reaches;
    var s := SolvedMeanwhile();
    assert s.jobs[0].status.Succeeded?;
    var t := State(s.jobs, map[], Some(Pending(1, 1, 1, LEASE_SECONDS, {}, false)), 0);
    assert ExpiredIn(s.jobs, 0) == {};
    assert s.asking - {5} == map[];
    assert Next(s, Insert(5, 1), t);
  }
}
