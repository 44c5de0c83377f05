/** The virtual users of the load-test harness: the asynchronous connect, reconnect and close
    procedures as atomic steps between awaits, over every interleaving. */
module Connections {
  import opened Sums
  import opened Zones

  datatype Config = Config(reconnect: bool, attempts: nat) {
    function Limit(): nat { if reconnect then attempts else 0 }
  }

  datatype Status = Connecting | Connected | Failed | Closed

  datatype Reason = Initial | Reconnect

  /** Where a connect or reconnect procedure is suspended. */
  datatype Stage = Preparing | Sleeping | Joining(reason: Reason) | LeavingStale(reason: Reason) {
    predicate IsReconnect() {
      match this
      case Preparing => false
      case Sleeping => true
      case Joining(reason) => reason == Reconnect
      case LeavingStale(reason) => reason == Reconnect
    }
  }

  datatype Task = Task(id: nat, stage: Stage)

  /** Where the close procedure is suspended: at the reconnect promise it found, or at leaving. */
  datatype Closer = NotClosing | Waiting(promise: Option<nat>) | LeavingRoom | Done

  /** The state of a user. */
  datatype User = User(status: Status, room: Option<nat>, closing: bool, reconnectCount: nat, everConnected: bool, session: bool,
                       tasks: seq<Task>, nextTask: nat, reconnectPromise: Option<nat>, closer: Closer)

  datatype Stats = Stats(successfulJoins: nat, usersEverConnected: nat, totalConnectMs: nat, unexpectedDisconnects: nat,
                         disconnect4002: nat, joinRetries: nat, reconnectAttempts: nat, reconnectSuccesses: nat)

  const FRESH_USER := User(Connecting, None, false, 0, false, false, [Task(0, Preparing)], 1, None, NotClosing)
  const NO_STATS := Stats(0, 0, 0, 0, 0, 0, 0, 0)

  // ---- The steps of one user ----

  datatype Event =
    | Prepared(k: nat)
    | PrepareFailed(k: nat)
    | Joined(k: nat, retries: nat, ms: nat)  // the join took 1 + retries rounds
    | JoinFailed(k: nat)
    | StaleLeft(k: nat)
    | Woke(k: nat)
    | RoomLeft(room: nat, code: nat)
    | RoomError(room: nat)
    | StressFailed(room: nat)
    | Close
    | CloseResumed
    | CloseLeft

  /** Whether the procedure the event resumes is suspended at that point. */
  predicate Enabled(u: User, e: Event) {
    match e
    case Prepared(k) => k < |u.tasks| && u.tasks[k].stage == Preparing
    case PrepareFailed(k) => k < |u.tasks| && u.tasks[k].stage == Preparing
    case Joined(k, retries, _) => k < |u.tasks| && u.tasks[k].stage.Joining? && retries <= 1
    case JoinFailed(k) => k < |u.tasks| && u.tasks[k].stage.Joining?
    case StaleLeft(k) => k < |u.tasks| && u.tasks[k].stage.LeavingStale?
    case Woke(k) => k < |u.tasks| && u.tasks[k].stage == Sleeping
    case CloseResumed => u.closer.Waiting? && (u.closer.promise.Some? ==> forall t :: t in u.tasks ==> t.id != u.closer.promise.value)
    case CloseLeft => u.closer == LeavingRoom
    case _ => true
  }

  function StartClose(u: User): User {
    if u.closing then u else u.(closing := true, closer := Waiting(u.reconnectPromise))
  }

  function FinishClose(u: User): User {
    u.(status := if u.status != Failed then Closed else u.status, closer := Done)
  }

  function Suspend(u: User, k: nat, stage: Stage): User
    requires k < |u.tasks|
  {
    u.(tasks := u.tasks[k := Task(u.tasks[k].id, stage)])
  }

  /** The procedure ends; a reconnect clears its promise if that is still its own. */
  function End(u: User, k: nat): User
    requires k < |u.tasks|
  {
    u.(tasks := u.tasks[..k] + u.tasks[k + 1..],
       reconnectPromise := if u.reconnectPromise == Some(u.tasks[k].id) then None else u.reconnectPromise)
  }

  /** A join failed, or preparing it did: an initial connect then closes the user. */
  function Fail(u: User, k: nat): User
    requires k < |u.tasks|
  {
    var failed := End(u.(status := Failed), k);
    if u.tasks[k].stage.IsReconnect() then failed else StartClose(failed)
  }

  function UnexpectedLeave(cfg: Config, u: User): User {
    if cfg.reconnect && u.session && u.reconnectCount < cfg.attempts then
      u.(reconnectCount := u.reconnectCount + 1, status := Connecting, tasks := u.tasks + [Task(u.nextTask, Sleeping)],
         nextTask := u.nextTask + 1, reconnectPromise := Some(u.nextTask))
    else u.(status := Failed)
  }

  function Next(cfg: Config, u: User, e: Event, newRoom: nat): User
    requires Enabled(u, e)
  {
    match e
    case Prepared(k) => if u.closing then End(u, k) else Suspend(u.(status := Connecting), k, Joining(Initial))
    case PrepareFailed(k) => Fail(u, k)
    case Joined(k, _, _) =>
      if u.closing then Suspend(u, k, LeavingStale(u.tasks[k].stage.reason))
      else End(u.(session := true, room := Some(newRoom), status := Connected, everConnected := true), k)
    case JoinFailed(k) => Fail(u, k)
    case StaleLeft(k) => End(u, k)
    case Woke(k) => if u.closing || !u.session then End(u, k) else Suspend(u.(status := Connecting), k, Joining(Reconnect))
    case RoomLeft(room, code) =>
      if u.room != Some(room) then u
      else if u.closing || code == 1000 then u.(room := None, status := if u.status != Failed then Closed else u.status)
      else UnexpectedLeave(cfg, u.(room := None))
    case RoomError(room) => if u.room == Some(room) && u.status == Connecting then u.(status := Failed) else u
    case StressFailed(room) => if u.room == Some(room) && !u.closing && u.status == Connected then u.(status := Closed) else u
    case Close => StartClose(u)
    case CloseResumed => if u.room.Some? then u.(room := None, closer := LeavingRoom) else FinishClose(u)
    case CloseLeft => FinishClose(u)
  }

  /** The shared counters. */
  function Count(cfg: Config, u: User, s: Stats, e: Event): Stats
    requires Enabled(u, e)
  {
    match e
    case Joined(k, retries, ms) =>
      if u.closing then s
      else s.(joinRetries := s.joinRetries + retries,
              usersEverConnected := s.usersEverConnected + if u.everConnected then 0 else 1,
              successfulJoins := s.successfulJoins + 1, totalConnectMs := s.totalConnectMs + ms,
              reconnectSuccesses := s.reconnectSuccesses + if u.tasks[k].stage.IsReconnect() then 1 else 0)
    case StaleLeft(k) => s.(reconnectSuccesses := s.reconnectSuccesses + if u.tasks[k].stage.IsReconnect() then 1 else 0)
    case RoomLeft(room, code) =>
      if u.room != Some(room) || u.closing || code == 1000 then s
      else s.(unexpectedDisconnects := s.unexpectedDisconnects + 1,
              disconnect4002 := s.disconnect4002 + if code == 4002 then 1 else 0,
              reconnectAttempts := s.reconnectAttempts + UnexpectedLeave(cfg, u).reconnectCount - u.reconnectCount)
    case _ => s
  }

  // ---- The invariant of one user ----

  ghost predicate UserOk(cfg: Config, u: User) {
    // One procedure at a time, and none while a room is held.
    && |u.tasks| <= 1 && (u.tasks != [] ==> u.room.None? && TaskOk(u, u.tasks[0]))
    && (u.tasks == [] ==> u.reconnectPromise.None?)
    // A user that is not being closed holds a room when it says so, and only then.
    && (u.status == Connected && !u.closing ==> u.room.Some?)
    && (u.room.Some? ==> u.session && (u.status == Connected || u.status == Closed))
    && (u.session <==> u.everConnected)
    // Closing.
    && (u.closing <==> u.closer != NotClosing)
    && (u.closer == LeavingRoom || u.closer == Done ==> u.room.None?)
    && (u.closer == Done ==> u.status == Closed || u.status == Failed)
    // Counting.
    && u.reconnectCount <= cfg.Limit()
  }

  /** A reconnect is the one the promise stands for, and close waits for it; a first connect has
      neither a session nor a promise. A room that comes too late means that the user is closing. */
  ghost predicate TaskOk(u: User, t: Task) {
    && (if t.stage.IsReconnect() then u.session && u.reconnectPromise == Some(t.id) && (u.closing ==> u.closer == Waiting(Some(t.id)))
        else !u.everConnected && u.reconnectPromise.None?)
    && (t.stage.LeavingStale? ==> u.closing)
  }

  /** With one procedure in flight, ending it leaves none and suspending it leaves it. */
  lemma OneTask(tasks: seq<Task>)
    requires |tasks| == 1
    ensures tasks[..0] + tasks[1..] == [] && forall t :: tasks[0 := t] == [t]
  {
  }

  predicate Resumes(e: Event) {
    e.Prepared? || e.PrepareFailed? || e.Joined? || e.JoinFailed? || e.StaleLeft? || e.Woke?
  }

  lemma FailKeepsUser(cfg: Config, u: User)
    requires UserOk(cfg, u) && |u.tasks| == 1
    ensures UserOk(cfg, Fail(u, 0))
  {
    OneTask(u.tasks);
  }

  lemma ResumeKeepsUser(cfg: Config, u: User, e: Event, newRoom: nat)
    requires UserOk(cfg, u) && Enabled(u, e) && Resumes(e)
    ensures UserOk(cfg, Next(cfg, u, e, newRoom))
  {
    hide Fail;
    FailKeepsUser(cfg, u);
    OneTask(u.tasks);
  }

  /** Every step keeps the invariant. */
  lemma StepKeepsUser(cfg: Config, u: User, e: Event, newRoom: nat)
    requires UserOk(cfg, u) && Enabled(u, e)
    ensures UserOk(cfg, Next(cfg, u, e, newRoom))
  {
    if Resumes(e) {
      ResumeKeepsUser(cfg, u, e, newRoom);
    } else {
      hide End, Suspend, Fail;
      assert u.tasks == [] ==> u.tasks + [Task(u.nextTask, Sleeping)] == [Task(u.nextTask, Sleeping)];
    }
  }

  /** Closing is for good: a closing user never gets a room again. */
  lemma ClosingIsFinal(cfg: Config, u: User, e: Event, newRoom: nat)
    requires UserOk(cfg, u) && Enabled(u, e) && u.closing
    ensures Next(cfg, u, e, newRoom).closing
    ensures u.room.None? ==> Next(cfg, u, e, newRoom).room.None?
    ensures u.closer == Done ==> Next(cfg, u, e, newRoom).closer == Done
  {
  }

  // ---- What one user contributes to the counters ----

  function Bit(b: bool): nat { if b then 1 else 0 }

  function Ever(u: User): int { Bit(u.everConnected) }

  function Held(u: User): int { Bit(u.room.Some?) }

  /** A procedure that may still join a room. */
  function Hopes(u: User): int { Bit(u.tasks != [] && !u.tasks[0].stage.LeavingStale?) }

  function Reconnecting(u: User): int { Bit(u.tasks != [] && u.tasks[0].stage.IsReconnect()) }

  function Attempts(u: User): int { u.reconnectCount }

  /** A reconnect ends on a user that has left the room it joined too late. */
  predicate EndsLate(u: User, e: Event) {
    e.StaleLeft? && Enabled(u, e) && u.tasks[e.k].stage.IsReconnect()
  }

  /** How a step of one user moves the counters against what the user contributes. */
  ghost predicate Balanced(u: User, s: Stats, u': User, s': Stats, late: nat) {
    && s'.usersEverConnected - s.usersEverConnected == Ever(u') - Ever(u)
    && s'.unexpectedDisconnects - s.unexpectedDisconnects + Held(u') - Held(u) <= s'.successfulJoins - s.successfulJoins
    && s'.reconnectAttempts - s.reconnectAttempts == Attempts(u') - Attempts(u) <= s'.unexpectedDisconnects - s.unexpectedDisconnects
    && s'.successfulJoins - s.successfulJoins + Hopes(u') - Hopes(u) <= s'.reconnectAttempts - s.reconnectAttempts
    && s'.reconnectSuccesses - s.reconnectSuccesses + Reconnecting(u') - Reconnecting(u) <= s'.reconnectAttempts - s.reconnectAttempts
    && s'.disconnect4002 - s.disconnect4002 <= s'.unexpectedDisconnects - s.unexpectedDisconnects
    && s'.joinRetries - s.joinRetries <= s'.successfulJoins - s.successfulJoins
    && s'.successfulJoins - s.successfulJoins + late == s'.usersEverConnected - s.usersEverConnected + s'.reconnectSuccesses - s.reconnectSuccesses
  }

  lemma FailBalance(u: User, s: Stats)
    requires |u.tasks| == 1
    ensures Balanced(u, s, Fail(u, 0), s, 0)
  {
    OneTask(u.tasks);
  }

  lemma ResumeBalance(cfg: Config, u: User, s: Stats, e: Event, newRoom: nat)
    requires UserOk(cfg, u) && Enabled(u, e) && Resumes(e)
    ensures Balanced(u, s, Next(cfg, u, e, newRoom), Count(cfg, u, s, e), Bit(EndsLate(u, e)))
  {
    hide Fail;
    FailBalance(u, s);
    OneTask(u.tasks);
  }

  lemma StepBalance(cfg: Config, u: User, s: Stats, e: Event, newRoom: nat)
    requires UserOk(cfg, u) && Enabled(u, e)
    ensures Balanced(u, s, Next(cfg, u, e, newRoom), Count(cfg, u, s, e), Bit(EndsLate(u, e)))
  {
    if Resumes(e) {
      ResumeBalance(cfg, u, s, e, newRoom);
    } else {
      hide End, Suspend, Fail;
      assert u.tasks == [] ==> u.tasks + [Task(u.nextTask, Sleeping)] == [Task(u.nextTask, Sleeping)];
    }
  }

  // ---- The harness ----

  datatype State = State(users: seq<User>, stats: Stats, rooms: nat)

  datatype Step = Spawn | At(i: nat, e: Event)

  /** A step that cannot happen in the state leaves it alone. */
  function Take(cfg: Config, h: State, step: Step): State {
    match step
    case Spawn => h.(users := h.users + [FRESH_USER])
    case At(i, e) =>
      if i >= |h.users| || !Enabled(h.users[i], e) then h
      else State(h.users[i := Next(cfg, h.users[i], e, h.rooms)], Count(cfg, h.users[i], h.stats, e), h.rooms + Bit(e.Joined?))
  }

  function Run(cfg: Config, steps: seq<Step>): State {
    if steps == [] then State([], NO_STATS, 0) else Take(cfg, Run(cfg, steps[..|steps| - 1]), steps[|steps| - 1])
  }

  /** The counters tell what happened to the users. */
  ghost predicate Conserved(h: State) {
    var s := h.stats;
    && s.usersEverConnected == Sum(h.users, Ever)
    && s.unexpectedDisconnects + Sum(h.users, Held) <= s.successfulJoins
    && s.reconnectAttempts == Sum(h.users, Attempts) <= s.unexpectedDisconnects
    && s.successfulJoins + Sum(h.users, Hopes) <= |h.users| + s.reconnectAttempts
    && s.reconnectSuccesses + Sum(h.users, Reconnecting) <= s.reconnectAttempts
    && s.disconnect4002 <= s.unexpectedDisconnects
    && s.joinRetries <= s.successfulJoins
    && s.successfulJoins <= s.usersEverConnected + s.reconnectSuccesses
  }

  /** No two users hold the same room. */
  ghost predicate RoomsApart(h: State) {
    && (forall i :: 0 <= i < |h.users| && h.users[i].room.Some? ==> h.users[i].room.value < h.rooms)
    && forall i, j :: 0 <= i < j < |h.users| && h.users[i].room.Some? ==> h.users[i].room != h.users[j].room
  }

  ghost predicate Safe(cfg: Config, h: State) {
    Conserved(h) && RoomsApart(h) && forall u :: u in h.users ==> UserOk(cfg, u)
  }

  lemma ConservedAt(cfg: Config, h: State, i: nat, e: Event)
    requires Conserved(h) && i < |h.users| && UserOk(cfg, h.users[i]) && Enabled(h.users[i], e)
    ensures Conserved(Take(cfg, h, At(i, e)))
  {
    var u, u' := h.users[i], Next(cfg, h.users[i], e, h.rooms);
    StepBalance(cfg, u, h.stats, e, h.rooms);
    hide Next, Count, Ever, Held, Hopes, Reconnecting, Attempts;
    SumUpdate(h.users, i, u', Ever);
    SumUpdate(h.users, i, u', Held);
    SumUpdate(h.users, i, u', Attempts);
    SumUpdate(h.users, i, u', Hopes);
    SumUpdate(h.users, i, u', Reconnecting);
  }

  lemma ConservedSpawn(cfg: Config, h: State)
    requires Conserved(h)
    ensures Conserved(Take(cfg, h, Spawn))
  {
    SumAppend(h.users, [FRESH_USER], Ever);
    SumAppend(h.users, [FRESH_USER], Held);
    SumAppend(h.users, [FRESH_USER], Attempts);
    SumAppend(h.users, [FRESH_USER], Hopes);
    SumAppend(h.users, [FRESH_USER], Reconnecting);
  }

  /** A room that a step gives to a user is a new one. */
  lemma NewRoom(cfg: Config, u: User, e: Event, newRoom: nat)
    requires Enabled(u, e)
    ensures var u' := Next(cfg, u, e, newRoom); u'.room.Some? ==> u'.room == u.room || (u'.room == Some(newRoom) && e.Joined?)
  {
  }

  lemma RoomsApartAt(cfg: Config, h: State, i: nat, e: Event)
    requires RoomsApart(h) && i < |h.users| && Enabled(h.users[i], e)
    ensures RoomsApart(Take(cfg, h, At(i, e)))
  {
    hide Next, Count, Enabled;
    NewRoom(cfg, h.users[i], e, h.rooms);
  }

  lemma TakeKeepsSafe(cfg: Config, h: State, step: Step)
    requires Safe(cfg, h)
    ensures Safe(cfg, Take(cfg, h, step))
  {
    hide Conserved, RoomsApart, UserOk, Next, Count, Enabled;
    match step
    case Spawn =>
      ConservedSpawn(cfg, h);
      SpawnOk(cfg, h);
    case At(i, e) =>
      if i < |h.users| && Enabled(h.users[i], e) {
        ConservedAt(cfg, h, i, e);
        RoomsApartAt(cfg, h, i, e);
        StepKeepsUser(cfg, h.users[i], e, h.rooms);
      }
  }

  lemma SpawnOk(cfg: Config, h: State)
    requires RoomsApart(h)
    ensures RoomsApart(Take(cfg, h, Spawn)) && UserOk(cfg, FRESH_USER)
  {
  }

  /** Over every interleaving of every number of users: one procedure per user and none beside a
      room, closed users stay closed, rooms are not shared, and the counters add up. */
  lemma {:induction false} RunIsSafe(cfg: Config, steps: seq<Step>)
    ensures Safe(cfg, Run(cfg, steps))
  {
    if steps != [] {
      RunIsSafe(cfg, steps[..|steps| - 1]);
      TakeKeepsSafe(cfg, Run(cfg, steps[..|steps| - 1]), steps[|steps| - 1]);
    }
  }

  // ---- Consequences ----

  /** What holds of a user once it is being closed, from then on. */
  lemma {:induction false} ClosedForGood(cfg: Config, before: seq<Step>, after: seq<Step>, i: nat)
    requires i < |Run(cfg, before).users| && Run(cfg, before).users[i].closing
    ensures i < |Run(cfg, before + after).users|
    ensures var u, u' := Run(cfg, before).users[i], Run(cfg, before + after).users[i];
            && u'.closing
            && (u.room.None? ==> u'.room.None?)
            && (u.closer == Done ==> u'.closer == Done && (u'.status == Closed || u'.status == Failed) && u'.room.None?)
    decreases |after|
  {
    hide Next, Count, Enabled, Conserved, RoomsApart;
    if after == [] {
      assert before + after == before;
    } else {
      var front, last := after[..|after| - 1], after[|after| - 1];
      ClosedForGood(cfg, before, front, i);
      assert (before + after)[..|before + after| - 1] == before + front;
      var h := Run(cfg, before + front);
      RunIsSafe(cfg, before + front);
      assert h.users[i] in h.users;
      if last.At? && last.i == i && Enabled(h.users[i], last.e) {
        ClosingIsFinal(cfg, h.users[i], last.e, h.rooms);
      }
    }
    RunIsSafe(cfg, before + after);
    assert Run(cfg, before + after).users[i] in Run(cfg, before + after).users;
  }

  /** An error on a live room never turns the user into a failed one: the handler's test for a
      user that is still connecting cannot succeed. */
  lemma RoomErrorIsHarmless(cfg: Config, steps: seq<Step>, i: nat, room: nat)
    requires i < |Run(cfg, steps).users|
    ensures Take(cfg, Run(cfg, steps), At(i, RoomError(room))) == Run(cfg, steps)
  {
    RunIsSafe(cfg, steps);
    var h := Run(cfg, steps);
    assert h.users[i] in h.users;
    assert UserOk(cfg, h.users[i]);
    assert h.users[i := h.users[i]] == h.users;
  }

  // ---- Reported successes without a room ----

  /** How many steps of the run end a reconnect on a user that has left its room. */
  function LateEnds(cfg: Config, steps: seq<Step>): nat {
    if steps == [] then 0
    else
      var h, step := Run(cfg, steps[..|steps| - 1]), steps[|steps| - 1];
      LateEnds(cfg, steps[..|steps| - 1]) + Bit(step.At? && step.i < |h.users| && EndsLate(h.users[step.i], step.e))
  }

  /** Step n: user i's reconnect number id gets its room while the user is being closed. */
  predicate JoinsLate(cfg: Config, steps: seq<Step>, n: nat, i: nat, id: nat) {
    && n < |steps| && steps[n].At? && steps[n].i == i
    && var h, e := Run(cfg, steps[..n]), steps[n].e;
    && i < |h.users| && e.Joined? && Enabled(h.users[i], e) && h.users[i].closing
    && h.users[i].tasks[e.k].stage.IsReconnect() && h.users[i].tasks[e.k].id == id
  }

  /** Step n: that reconnect has left the room again. */
  predicate LeavesLate(cfg: Config, steps: seq<Step>, n: nat, i: nat, id: nat) {
    && n < |steps| && steps[n].At? && steps[n].i == i
    && var h, e := Run(cfg, steps[..n]), steps[n].e;
    && i < |h.users| && EndsLate(h.users[i], e) && h.users[i].tasks[e.k].id == id
  }

  /** A reconnect of a user that was being closed joined a room and left it again. */
  ghost predicate RejoinsLate(cfg: Config, steps: seq<Step>) {
    exists m: nat, n: nat, i: nat, id: nat :: JoinsLate(cfg, steps, m, i, id) && LeavesLate(cfg, steps, n, i, id) && m < n
  }

  lemma {:induction false} JoinsPlusLate(cfg: Config, steps: seq<Step>)
    ensures var s := Run(cfg, steps).stats; s.successfulJoins + LateEnds(cfg, steps) == s.usersEverConnected + s.reconnectSuccesses
  {
    if steps != [] {
      var front, step := steps[..|steps| - 1], steps[|steps| - 1];
      JoinsPlusLate(cfg, front);
      RunIsSafe(cfg, front);
      var h := Run(cfg, front);
      hide Next, Count, Enabled, Conserved, RoomsApart, UserOk;
      if step.At? && step.i < |h.users| {
        var u := h.users[step.i];
        assert u in h.users;
        if Enabled(u, step.e) { StepBalance(cfg, u, h.stats, step.e, h.rooms); } else { NotLate(u, step.e); }
      }
    }
  }

  lemma NotLate(u: User, e: Event)
    requires !Enabled(u, e)
    ensures !EndsLate(u, e)
  {
  }

  lemma FreshIsNotLeaving()
    ensures FRESH_USER.tasks[0].stage != LeavingStale(Reconnect)
  {
  }

  /** A procedure that is leaving its room has joined it. */
  lemma {:induction false} JoinedBefore(cfg: Config, steps: seq<Step>, i: nat) returns (m: nat)
    requires var h := Run(cfg, steps); i < |h.users| && |h.users[i].tasks| == 1 && h.users[i].tasks[0].stage == LeavingStale(Reconnect)
    ensures JoinsLate(cfg, steps, m, i, Run(cfg, steps).users[i].tasks[0].id)
    decreases |steps|
  {
    hide Next, Count, Enabled, Conserved, RoomsApart, UserOk;
    var front, step := steps[..|steps| - 1], steps[|steps| - 1];
    var h := Run(cfg, front);
    RunIsSafe(cfg, front);
    if step == Spawn && i == |h.users| { FreshIsNotLeaving(); }
    assert i < |h.users| && (step == Spawn || step.i != i || !Enabled(h.users[i], step.e)) ==> Run(cfg, steps).users[i] == h.users[i];
    if step.At? && step.i == i && Enabled(h.users[i], step.e) {
      assert h.users[i] in h.users;
      var started := LeavingFrom(cfg, h.users[i], step.e, h.rooms);
      if started {
        m := |front|;
        return;
      }
    }
    m := JoinedBefore(cfg, front, i);
    assert steps[..m] == front[..m] && steps[m] == front[m];
  }

  /** Before the step the procedure was leaving already, or the step is a join that came too late. */
  lemma LeavingFrom(cfg: Config, u: User, e: Event, newRoom: nat) returns (started: bool)
    requires UserOk(cfg, u) && Enabled(u, e)
    requires var u' := Next(cfg, u, e, newRoom); |u'.tasks| == 1 && u'.tasks[0].stage == LeavingStale(Reconnect)
    ensures |u.tasks| == 1 && u.tasks[0].id == Next(cfg, u, e, newRoom).tasks[0].id
    ensures if started then e.Joined? && e.k == 0 && u.closing && u.tasks[0].stage.IsReconnect() else u.tasks[0].stage == LeavingStale(Reconnect)
  {
    if |u.tasks| == 1 { OneTask(u.tasks); }
    started := e.Joined?;
  }

  lemma {:induction false} SomeLateEnd(cfg: Config, steps: seq<Step>) returns (n: nat, i: nat, id: nat)
    requires LateEnds(cfg, steps) > 0
    ensures LeavesLate(cfg, steps, n, i, id)
  {
    var front, step := steps[..|steps| - 1], steps[|steps| - 1];
    var h := Run(cfg, front);
    if step.At? && step.i < |h.users| && EndsLate(h.users[step.i], step.e) {
      n, i, id := |front|, step.i, h.users[step.i].tasks[step.e.k].id;
    } else {
      n, i, id := SomeLateEnd(cfg, front);
      assert steps[..n] == front[..n] && steps[n] == front[n];
    }
  }

  lemma {:induction false} LateEndCounts(cfg: Config, steps: seq<Step>, n: nat, i: nat, id: nat)
    requires LeavesLate(cfg, steps, n, i, id)
    ensures LateEnds(cfg, steps) > 0
  {
    var front := steps[..|steps| - 1];
    if n < |front| {
      assert steps[..n] == front[..n] && steps[n] == front[n];
      LateEndCounts(cfg, front, n, i, id);
    }
  }

  /** Every join is a user's first or a reported reconnect success; the converse holds exactly when
      no reconnect joins its room only after its user began to close, and then leaves it. */
  lemma SuccessesOvercount(cfg: Config, steps: seq<Step>)
    ensures var s := Run(cfg, steps).stats;
            && s.successfulJoins <= s.usersEverConnected + s.reconnectSuccesses
            && (s.successfulJoins == s.usersEverConnected + s.reconnectSuccesses <==> !RejoinsLate(cfg, steps))
  {
    JoinsPlusLate(cfg, steps);
    hide LateEnds, JoinsLate, LeavesLate;
    if LateEnds(cfg, steps) > 0 {
      var n, i, id := SomeLateEnd(cfg, steps);
      var m := JoinOf(cfg, steps, n, i, id);
      assert JoinsLate(cfg, steps, m, i, id) && LeavesLate(cfg, steps, n, i, id) && m < n;
    }
    if RejoinsLate(cfg, steps) {
      var m: nat, n: nat, i: nat, id: nat :| JoinsLate(cfg, steps, m, i, id) && LeavesLate(cfg, steps, n, i, id) && m < n;
      LateEndCounts(cfg, steps, n, i, id);
    }
  }

  lemma {:induction false} JoinOf(cfg: Config, steps: seq<Step>, n: nat, i: nat, id: nat) returns (m: nat)
    requires LeavesLate(cfg, steps, n, i, id)
    ensures m < n && JoinsLate(cfg, steps, m, i, id)
  {
    var h := Run(cfg, steps[..n]);
    RunIsSafe(cfg, steps[..n]);
    assert h.users[i] in h.users;
    assert UserOk(cfg, h.users[i]);
    m := JoinedBefore(cfg, steps[..n], i);
    assert steps[..n][..m] == steps[..m] && steps[..n][m] == steps[m];
  }

  /** A user with a late join is still being closed in the end. */
  lemma LateIsClosing(cfg: Config, steps: seq<Step>, m: nat, i: nat, id: nat) returns (u: User)
    requires JoinsLate(cfg, steps, m, i, id)
    ensures u in Run(cfg, steps).users && u.closing
  {
    ClosedForGood(cfg, steps[..m], steps[m..], i);
    assert steps[..m] + steps[m..] == steps;
    u := Run(cfg, steps).users[i];
  }

  /** While no user is being closed the counters are exact. */
  lemma ExactWhileOpen(cfg: Config, steps: seq<Step>)
    requires forall u :: u in Run(cfg, steps).users ==> !u.closing
    ensures var s := Run(cfg, steps).stats; s.successfulJoins == s.usersEverConnected + s.reconnectSuccesses
  {
    SuccessesOvercount(cfg, steps);
    hide JoinsLate, LeavesLate, Run;
    if RejoinsLate(cfg, steps) {
      var m: nat, n: nat, i: nat, id: nat :| JoinsLate(cfg, steps, m, i, id) && LeavesLate(cfg, steps, n, i, id) && m < n;
      var u := LateIsClosing(cfg, steps, m, i, id);
    }
  }

  const UNTIL_REJOINING := [Spawn, At(0, Prepared(0)), At(0, Joined(0, 0, 0)), At(0, RoomLeft(0, 4002)), At(0, Woke(0))]
  const CLOSED_THEN := [At(0, Close), At(0, Joined(0, 0, 0)), At(0, StaleLeft(0))]

  /** The harness with one user that has been dropped once and is joining again, and before. */
  const REJOINING := State(
    [User(Connecting, None, false, 1, true, true, [Task(1, Joining(Reconnect))], 2, Some(1), NotClosing)],
    Stats(1, 1, 0, 1, 1, 0, 1, 0), 1)
  const DROPPED := REJOINING.(users := [REJOINING.users[0].(tasks := [Task(1, Sleeping)])])
  const LIVE := State([User(Connected, Some(0), false, 0, true, true, [], 1, None, NotClosing)], Stats(1, 1, 0, 0, 0, 0, 0, 0), 1)
  const FIRST_JOIN := State([FRESH_USER.(tasks := [Task(0, Joining(Initial))])], NO_STATS, 0)

  lemma RunNext(cfg: Config, steps: seq<Step>, step: Step)
    ensures Run(cfg, steps + [step]) == Take(cfg, Run(cfg, steps), step)
  {
    assert (steps + [step])[..|steps + [step]| - 1] == steps;
  }

  /** A step of the only user. */
  lemma OnlyUser(cfg: Config, h: State, e: Event, h': State)
    requires |h.users| == 1 && |h'.users| == 1 && Enabled(h.users[0], e)
    requires h'.users[0] == Next(cfg, h.users[0], e, h.rooms) && h'.stats == Count(cfg, h.users[0], h.stats, e) && h'.rooms == h.rooms + Bit(e.Joined?)
    ensures Take(cfg, h, At(0, e)) == h'
  {
    assert h.users[0 := h'.users[0]] == h'.users;
  }

  lemma FirstSteps(cfg: Config)
    ensures Take(cfg, Take(cfg, State([], NO_STATS, 0), Spawn), At(0, Prepared(0))) == FIRST_JOIN
    ensures Take(cfg, FIRST_JOIN, At(0, Joined(0, 0, 0))) == LIVE
  {
    var h := Take(cfg, State([], NO_STATS, 0), Spawn);
    assert h.users == [FRESH_USER];
    OneTask(FRESH_USER.tasks);
    OnlyUser(cfg, h, Prepared(0), FIRST_JOIN);
    OneTask(FIRST_JOIN.users[0].tasks);
    OnlyUser(cfg, FIRST_JOIN, Joined(0, 0, 0), LIVE);
  }

  lemma DropSteps()
    ensures Take(Config(true, 1), LIVE, At(0, RoomLeft(0, 4002))) == DROPPED
    ensures Take(Config(true, 1), DROPPED, At(0, Woke(0))) == REJOINING
  {
    assert [] + [Task(1, Sleeping)] == [Task(1, Sleeping)];
    OnlyUser(Config(true, 1), LIVE, RoomLeft(0, 4002), DROPPED);
    OneTask(DROPPED.users[0].tasks);
    OnlyUser(Config(true, 1), DROPPED, Woke(0), REJOINING);
  }

  lemma ReachesRejoining()
    ensures Run(Config(true, 1), UNTIL_REJOINING) == REJOINING
  {
    hide Take, Run;
    var cfg, s := Config(true, 1), UNTIL_REJOINING;
    EmptyRun(cfg);
    FirstSteps(cfg);
    DropSteps();
    RunNext(cfg, [], s[0]);
    RunNext(cfg, [] + [s[0]], s[1]);
    RunNext(cfg, [] + [s[0]] + [s[1]], s[2]);
    RunNext(cfg, [] + [s[0]] + [s[1]] + [s[2]], s[3]);
    RunNext(cfg, [] + [s[0]] + [s[1]] + [s[2]] + [s[3]], s[4]);
    assert [] + [s[0]] + [s[1]] + [s[2]] + [s[3]] + [s[4]] == s;
  }

  lemma EmptyRun(cfg: Config)
    ensures Run(cfg, []) == State([], NO_STATS, 0)
  {
  }

  /** A run in which a reconnect success is reported although the user never rejoined. */
  lemma SuccessWithoutRoom()
    ensures var s := Run(Config(true, 1), UNTIL_REJOINING + CLOSED_THEN).stats;
            s.reconnectSuccesses == 1 && s.successfulJoins == 1 && s.usersEverConnected == 1
  {
    var cfg := Config(true, 1);
    ReachesRejoining();
    RunNext(cfg, UNTIL_REJOINING, CLOSED_THEN[0]);
    RunNext(cfg, UNTIL_REJOINING + [CLOSED_THEN[0]], CLOSED_THEN[1]);
    RunNext(cfg, UNTIL_REJOINING + [CLOSED_THEN[0]] + [CLOSED_THEN[1]], CLOSED_THEN[2]);
    assert UNTIL_REJOINING + [CLOSED_THEN[0]] + [CLOSED_THEN[1]] + [CLOSED_THEN[2]] == UNTIL_REJOINING + CLOSED_THEN;
    hide Run;
    var u1 := StartClose(REJOINING.users[0]);
    var h1 := REJOINING.(users := [u1]);
    OnlyUser(cfg, REJOINING, Close, h1);
    OneTask(u1.tasks);
    var h2 := h1.(users := [u1.(tasks := [Task(1, LeavingStale(Reconnect))])], rooms := 2);
    OnlyUser(cfg, h1, Joined(0, 0, 0), h2);
    var h3 := State([Next(cfg, h2.users[0], StaleLeft(0), 2)], Count(cfg, h2.users[0], h2.stats, StaleLeft(0)), 2);
    OnlyUser(cfg, h2, StaleLeft(0), h3);
  }
}
