/** The harness as mutable objects: each step updates a user and the shared counters in place. */
module Harness {
  import opened Sums
  import opened Zones
  import opened Connections

  class HarnessStats {
    var successfulJoins: nat
    var usersEverConnected: nat
    var totalConnectMs: nat
    var unexpectedDisconnects: nat
    var disconnect4002: nat
    var joinRetries: nat
    var reconnectAttempts: nat
    var reconnectSuccesses: nat

    function Value(): Stats
      reads this
    {
      Stats(successfulJoins, usersEverConnected, totalConnectMs, unexpectedDisconnects,
            disconnect4002, joinRetries, reconnectAttempts, reconnectSuccesses)
    }

    constructor ()
      ensures Value() == NO_STATS
    {
      successfulJoins, usersEverConnected, totalConnectMs, unexpectedDisconnects := 0, 0, 0, 0;
      disconnect4002, joinRetries, reconnectAttempts, reconnectSuccesses := 0, 0, 0, 0;
    }

    method CountJoin(first: bool, retries: nat, ms: nat)
      modifies this
      ensures Value() == old(Value()).(joinRetries := old(joinRetries) + retries, successfulJoins := old(successfulJoins) + 1,
                                       usersEverConnected := old(usersEverConnected) + Bit(first), totalConnectMs := old(totalConnectMs) + ms)
    {
      joinRetries := joinRetries + retries;
      if first { usersEverConnected := usersEverConnected + 1; }
      successfulJoins := successfulJoins + 1;
      totalConnectMs := totalConnectMs + ms;
    }
  }

  /** The room that was lost does not matter for the reconnect. */
  lemma LeaveCounts(cfg: Config, u: User)
    ensures UnexpectedLeave(cfg, u.(room := None)).reconnectCount == UnexpectedLeave(cfg, u).reconnectCount
  {
  }

  class VirtualUser {
    var status: Status
    var room: Option<nat>
    var closing: bool
    var reconnectCount: nat
    var everConnected: bool
    var session: bool
    var tasks: seq<Task>
    var nextTask: nat
    var reconnectPromise: Option<nat>
    var closer: Closer

    ghost function Value(): User
      reads this
    {
      User(status, room, closing, reconnectCount, everConnected, session, tasks, nextTask, reconnectPromise, closer)
    }

    /** createVirtualUser: the initial connect starts at once. */
    constructor ()
      ensures Value() == FRESH_USER
    {
      status, room, closing, reconnectCount, everConnected, session := Connecting, None, false, 0, false, false;
      tasks, nextTask, reconnectPromise, closer := [Task(0, Preparing)], 1, None, NotClosing;
    }

    /** The part of close before its first await: the user is being closed from now on and keeps its
        room, status and procedures for the time being; a second close changes nothing. */
    method Close()
      modifies this
      ensures closing && room == old(room) && status == old(status) && tasks == old(tasks)
      ensures if old(closing) then Value() == old(Value()) else closer == Waiting(old(reconnectPromise))
      ensures Value() == StartClose(old(Value()))
    {
      if closing { return; }
      closing := true;
      closer := Waiting(reconnectPromise);
    }

    /** close goes on once the reconnect it found is over. */
    method ResumeClose(cfg: Config)
      requires Enabled(Value(), CloseResumed)
      modifies this
      ensures room == None && closer == (if old(room).Some? then LeavingRoom else Done) && tasks == old(tasks)
      ensures status == if old(room).Some? || old(status) == Failed then old(status) else Closed
      ensures forall newRoom :: Value() == Next(cfg, old(Value()), CloseResumed, newRoom)
      ensures UserOk(cfg, old(Value())) ==> UserOk(cfg, Value())
    {
      hide UserOk;
      if UserOk(cfg, Value()) { StepKeepsUser(cfg, Value(), CloseResumed, 0); }
      var held := room;
      room := None;
      if held.Some? {
        closer := LeavingRoom;
      } else {
        FinishClosing();
      }
    }

    method FinishClosing()
      modifies this
      ensures Value() == FinishClose(old(Value()))
    {
      if status != Failed { status := Closed; }
      closer := Done;
    }

    method EndTask(k: nat)
      requires k < |tasks|
      modifies this
      ensures Value() == End(old(Value()), k)
    {
      var id := tasks[k].id;
      tasks := tasks[..k] + tasks[k + 1..];
      if reconnectPromise == Some(id) { reconnectPromise := None; }
    }

    method SuspendTask(k: nat, stage: Stage)
      requires k < |tasks|
      modifies this
      ensures Value() == Suspend(old(Value()), k, stage)
    {
      tasks := tasks[k := Task(tasks[k].id, stage)];
    }

    /** The catch blocks of connectVirtualUser and of the reconnect procedure. */
    method FailTask(k: nat)
      requires k < |tasks|
      modifies this
      ensures status == Failed && room == old(room) && closing == (old(closing) || !old(tasks)[k].stage.IsReconnect())
      ensures Value() == Fail(old(Value()), k)
    {
      var reconnecting := tasks[k].stage.IsReconnect();
      status := Failed;
      EndTask(k);
      if !reconnecting { Close(); }
    }

    /** prepareUserSession has returned. */
    method OnPrepared(cfg: Config, k: nat)
      requires Enabled(Value(), Prepared(k))
      modifies this
      ensures if old(closing) then |tasks| == |old(tasks)| - 1 && status == old(status)
              else tasks == old(tasks)[k := Task(old(tasks)[k].id, Joining(Initial))] && status == Connecting
      ensures forall newRoom :: Value() == Next(cfg, old(Value()), Prepared(k), newRoom)
      ensures UserOk(cfg, old(Value())) ==> UserOk(cfg, Value())
    {
      hide UserOk;
      if UserOk(cfg, Value()) { StepKeepsUser(cfg, Value(), Prepared(k), 0); }
      if closing {
        EndTask(k);
      } else {
        status := Connecting;
        SuspendTask(k, Joining(Initial));
      }
    }

    /** The reconnect delay is over: the user joins again, unless it is being closed. */
    method OnWoke(cfg: Config, k: nat)
      requires Enabled(Value(), Woke(k))
      modifies this
      ensures if old(closing) || !old(session) then |tasks| == |old(tasks)| - 1 && status == old(status)
              else tasks == old(tasks)[k := Task(old(tasks)[k].id, Joining(Reconnect))] && status == Connecting
      ensures forall newRoom :: Value() == Next(cfg, old(Value()), Woke(k), newRoom)
      ensures UserOk(cfg, old(Value())) ==> UserOk(cfg, Value())
    {
      hide UserOk;
      if UserOk(cfg, Value()) { StepKeepsUser(cfg, Value(), Woke(k), 0); }
      if closing || !session {
        EndTask(k);
      } else {
        status := Connecting;
        SuspendTask(k, Joining(Reconnect));
      }
    }

    method HoldRoom(newRoom: nat)
      modifies this
      ensures Value() == old(Value()).(session := true, room := Some(newRoom), status := Connected, everConnected := true)
    {
      session := true;
      room := Some(newRoom);
      status := Connected;
      everConnected := true;
    }

    /** joinZoneRoom has returned: the rest of establishRoomConnection. */
    method OnJoined(cfg: Config, stats: HarnessStats, k: nat, retries: nat, ms: nat, newRoom: nat)
      requires Enabled(Value(), Joined(k, retries, ms))
      modifies this, stats
      ensures Value() == Next(cfg, old(Value()), Joined(k, retries, ms), newRoom)
      ensures stats.Value() == Count(cfg, old(Value()), old(stats.Value()), Joined(k, retries, ms))
      ensures if old(closing) then room == old(room) && status == old(status) && stats.Value() == old(stats.Value())
              else room == Some(newRoom) && status == Connected && session && everConnected && stats.successfulJoins == old(stats.successfulJoins) + 1
                   && stats.joinRetries == old(stats.joinRetries) + retries && stats.totalConnectMs == old(stats.totalConnectMs) + ms
                   && stats.usersEverConnected == old(stats.usersEverConnected) + Bit(!old(everConnected))
                   && stats.reconnectSuccesses == old(stats.reconnectSuccesses) + Bit(old(tasks)[k].stage == Joining(Reconnect))
      ensures UserOk(cfg, old(Value())) ==> UserOk(cfg, Value()) && Balanced(old(Value()), old(stats.Value()), Value(), stats.Value(), 0)
    {
      hide UserOk, Balanced;
      if UserOk(cfg, Value()) {
        StepKeepsUser(cfg, Value(), Joined(k, retries, ms), newRoom);
        StepBalance(cfg, Value(), stats.Value(), Joined(k, retries, ms), newRoom);
      }
      var reason := tasks[k].stage.reason;
      if closing {
        SuspendTask(k, LeavingStale(reason));
        return;
      }
      stats.CountJoin(!everConnected, retries, ms);
      HoldRoom(newRoom);
      EndTask(k);
      if reason == Reconnect { stats.reconnectSuccesses := stats.reconnectSuccesses + 1; }
    }

    /** The room that came too late has been left; a reconnect still counts as a success. */
    method OnStaleLeft(cfg: Config, stats: HarnessStats, k: nat)
      requires Enabled(Value(), StaleLeft(k))
      modifies this, stats
      ensures |tasks| == |old(tasks)| - 1 && room == old(room) && status == old(status)
      ensures stats.reconnectSuccesses == old(stats.reconnectSuccesses) + Bit(old(tasks)[k].stage == LeavingStale(Reconnect))
      ensures forall newRoom :: Value() == Next(cfg, old(Value()), StaleLeft(k), newRoom)
      ensures stats.Value() == Count(cfg, old(Value()), old(stats.Value()), StaleLeft(k))
      ensures UserOk(cfg, old(Value())) ==> UserOk(cfg, Value()) && Balanced(old(Value()), old(stats.Value()), Value(), stats.Value(), Bit(old(tasks)[k].stage.IsReconnect()))
    {
      hide UserOk, Balanced;
      if UserOk(cfg, Value()) {
        StepKeepsUser(cfg, Value(), StaleLeft(k), 0);
        StepBalance(cfg, Value(), stats.Value(), StaleLeft(k), 0);
      }
      var reason := tasks[k].stage.reason;
      EndTask(k);
      if reason == Reconnect { stats.reconnectSuccesses := stats.reconnectSuccesses + 1; }
    }

    /** finalizeUnexpectedDisconnect up to the reconnect delay: one more reconnect is started and
        counted if that is enabled, possible and within the limit, and otherwise the user has failed. */
    method FinalizeUnexpectedDisconnect(cfg: Config, stats: HarnessStats)
      modifies this, stats
      ensures var starts := cfg.reconnect && old(session) && old(reconnectCount) < cfg.attempts;
              && tasks == old(tasks) + (if starts then [Task(old(nextTask), Sleeping)] else [])
              && reconnectPromise == (if starts then Some(old(nextTask)) else old(reconnectPromise))
              && status == (if starts then Connecting else Failed) && room == old(room)
              && reconnectCount - old(reconnectCount) == stats.reconnectAttempts - old(stats.reconnectAttempts) == Bit(starts)
      ensures old(reconnectCount) <= cfg.Limit() ==> reconnectCount <= cfg.Limit()
      ensures Value() == UnexpectedLeave(cfg, old(Value()))
      ensures stats.Value() == old(stats.Value()).(reconnectAttempts :=
        old(stats.reconnectAttempts) + UnexpectedLeave(cfg, old(Value())).reconnectCount - old(reconnectCount))
    {
      if !(cfg.reconnect && session && reconnectCount < cfg.attempts) {
        status := Failed;
        return;
      }
      reconnectCount := reconnectCount + 1;
      stats.reconnectAttempts := stats.reconnectAttempts + 1;
      status := Connecting;
      tasks := tasks + [Task(nextTask, Sleeping)];
      reconnectPromise := Some(nextTask);
      nextTask := nextTask + 1;
    }

    /** The leave handler of a room; it ignores rooms the user no longer holds. */
    method OnLeave(cfg: Config, stats: HarnessStats, left: nat, code: nat)
      modifies this, stats
      ensures forall newRoom :: Value() == Next(cfg, old(Value()), RoomLeft(left, code), newRoom)
      ensures stats.Value() == Count(cfg, old(Value()), old(stats.Value()), RoomLeft(left, code))
      ensures if old(room) != Some(left) then Value() == old(Value()) && stats.Value() == old(stats.Value())
              else room == None && stats.unexpectedDisconnects == old(stats.unexpectedDisconnects) + Bit(!old(closing) && code != 1000)
                   && stats.disconnect4002 == old(stats.disconnect4002) + Bit(!old(closing) && code == 4002)
      ensures UserOk(cfg, old(Value())) ==> UserOk(cfg, Value()) && Balanced(old(Value()), old(stats.Value()), Value(), stats.Value(), 0)
    {
      hide UserOk, Balanced, UnexpectedLeave;
      LeaveCounts(cfg, Value());
      if UserOk(cfg, Value()) {
        StepKeepsUser(cfg, Value(), RoomLeft(left, code), 0);
        StepBalance(cfg, Value(), stats.Value(), RoomLeft(left, code), 0);
      }
      if room != Some(left) { return; }
      room := None;
      if closing || code == 1000 {
        if status != Failed { status := Closed; }
        return;
      }
      stats.unexpectedDisconnects := stats.unexpectedDisconnects + 1;
      if code == 4002 { stats.disconnect4002 := stats.disconnect4002 + 1; }
      FinalizeUnexpectedDisconnect(cfg, stats);
    }

    method OnError(cfg: Config, failing: nat)
      modifies this
      ensures status == (if old(room) == Some(failing) && old(status) == Connecting then Failed else old(status)) && room == old(room)
      ensures forall newRoom :: Value() == Next(cfg, old(Value()), RoomError(failing), newRoom)
      ensures UserOk(cfg, old(Value())) ==> UserOk(cfg, Value())
    {
      hide UserOk;
      if UserOk(cfg, Value()) { StepKeepsUser(cfg, Value(), RoomError(failing), 0); }
      if room != Some(failing) { return; }
      if status == Connecting { status := Failed; }
    }

    method OnStressFailed(cfg: Config, failing: nat)
      modifies this
      ensures status == (if old(room) == Some(failing) && !old(closing) && old(status) == Connected then Closed else old(status)) && room == old(room)
      ensures forall newRoom :: Value() == Next(cfg, old(Value()), StressFailed(failing), newRoom)
      ensures UserOk(cfg, old(Value())) ==> UserOk(cfg, Value())
    {
      hide UserOk;
      if UserOk(cfg, Value()) { StepKeepsUser(cfg, Value(), StressFailed(failing), 0); }
      if closing || room != Some(failing) { return; }
      if status == Connected { status := Closed; }
    }

    /** One step of the event loop. */
    method Handle(cfg: Config, stats: HarnessStats, e: Event, newRoom: nat)
      requires Enabled(Value(), e)
      modifies this, stats
      ensures Value() == Next(cfg, old(Value()), e, newRoom)
      ensures stats.Value() == Count(cfg, old(Value()), old(stats.Value()), e)
      ensures UserOk(cfg, old(Value())) ==> UserOk(cfg, Value()) && Balanced(old(Value()), old(stats.Value()), Value(), stats.Value(), Bit(EndsLate(old(Value()), e)))
    {
      hide UserOk, Balanced;
      if UserOk(cfg, Value()) {
        StepKeepsUser(cfg, Value(), e, newRoom);
        StepBalance(cfg, Value(), stats.Value(), e, newRoom);
      }
      match e
      case Prepared(k) => OnPrepared(cfg, k);
      case PrepareFailed(k) => FailTask(k);
      case Joined(k, retries, ms) => OnJoined(cfg, stats, k, retries, ms, newRoom);
      case JoinFailed(k) => FailTask(k);
      case StaleLeft(k) => OnStaleLeft(cfg, stats, k);
      case Woke(k) => OnWoke(cfg, k);
      case RoomLeft(left, code) => OnLeave(cfg, stats, left, code);
      case RoomError(failing) => OnError(cfg, failing);
      case StressFailed(failing) => OnStressFailed(cfg, failing);
      case Close => Close();
      case CloseResumed => ResumeClose(cfg);
      case CloseLeft => FinishClosing();
    }
  }

  /** All users with the counters they share. Every step keeps the harness safe. */
  class LoadTest {
    const cfg: Config
    const stats: HarnessStats
    var users: seq<VirtualUser>
    var rooms: nat

    ghost function Values(): seq<User>
      reads this, users
    {
      seq(|users|, i requires 0 <= i < |users| reads this, users => users[i].Value())
    }

    ghost function Value(): State
      reads this, users, stats
    {
      State(Values(), stats.Value(), rooms)
    }

    ghost predicate Valid()
      reads this, users, stats
    {
      NoDup(users) && Safe(cfg, Value())
    }

    constructor (cfg: Config)
      ensures Valid() && fresh(stats) && users == [] && this.cfg == cfg && Value() == Run(cfg, [])
    {
      this.cfg := cfg;
      stats := new HarnessStats();
      users := [];
      rooms := 0;
      new;
      RunIsSafe(cfg, []);
      assert Value() == Run(cfg, []);
    }

    method SpawnUser()
      requires Valid()
      modifies this`users
      ensures Valid() && Value() == Take(cfg, old(Value()), Spawn)
      ensures fresh(users[|users| - 1]) && users[..|users| - 1] == old(users)
    {
      hide Safe;
      ghost var before := Value();
      TakeKeepsSafe(cfg, before, Spawn);
      var user := new VirtualUser();
      users := users + [user];
      assert Values() == before.users + [FRESH_USER];
    }

    method Dispatch(i: nat, e: Event)
      requires Valid() && i < |users| && Enabled(users[i].Value(), e)
      modifies this`rooms, users[i], stats
      ensures Valid() && Value() == Take(cfg, old(Value()), At(i, e))
    {
      hide Safe, Next, Count, Enabled;
      ghost var before := Value();
      assert before.users[i] == users[i].Value();
      TakeKeepsSafe(cfg, before, At(i, e));
      users[i].Handle(cfg, stats, e, rooms);
      if e.Joined? { rooms := rooms + 1; }
      assert Values() == before.users[i := Next(cfg, before.users[i], e, before.rooms)];
    }

    /** countUsersEverConnected always agrees with the counter. */
    method CountUsersEverConnected() returns (n: nat)
      requires Valid()
      ensures n == stats.usersEverConnected
    {
      n := 0;
      ghost var values := Values();
      for i := 0 to |users|
        invariant n == Sum(values[..i], Ever)
      {
        TakeStep(values, i);
        SumAppend(values[..i], [values[i]], Ever);
        if users[i].everConnected { n := n + 1; }
      }
      TakeAll(values);
    }
  }
}
