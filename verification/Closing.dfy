/** What a user that is being closed still does: no procedure starts, none begins to join, and at most
    the one join that was in flight still arrives and is left again. */
module Closing {
  import opened Zones
  import opened Connections

  /** The procedures of the second state are procedures of the first, and whoever joins was joining. */
  ghost predicate NothingStarts(u: User, u': User) {
    && (forall t' :: t' in u'.tasks ==> exists t :: t in u.tasks && t.id == t'.id)
    && (forall t' :: t' in u'.tasks && t'.stage.Joining? ==> t' in u.tasks)
    && (forall t' :: t' in u'.tasks && t'.stage.LeavingStale? ==> t' in u.tasks || Task(t'.id, Joining(t'.stage.reason)) in u.tasks)
  }

  /** A step of a closing user starts nothing. */
  lemma StepStartsNothing(cfg: Config, u: User, e: Event, newRoom: nat)
    requires UserOk(cfg, u) && Enabled(u, e) && u.closing
    ensures NothingStarts(u, Next(cfg, u, e, newRoom))
    ensures e.Joined? || e.JoinFailed? ==> forall t :: t in Next(cfg, u, e, newRoom).tasks ==> !t.stage.Joining?
    ensures e.StaleLeft? ==> Next(cfg, u, e, newRoom).tasks == []
  {
    if |u.tasks| == 1 {
      OneTask(u.tasks);
      assert u.tasks == [u.tasks[0]];
    }
  }

  lemma StartsTransitive(u: User, v: User, w: User)
    requires NothingStarts(u, v) && NothingStarts(v, w)
    ensures NothingStarts(u, w)
  {
    forall t | t in w.tasks ensures exists s :: s in u.tasks && s.id == t.id {
      var m :| m in v.tasks && m.id == t.id;
      var s :| s in u.tasks && s.id == m.id;
    }
  }

  /** From the moment a user begins to close, whatever happens: it starts no procedure, and none of its
      procedures goes on to join a room. */
  lemma {:induction false} ClosingStartsNothing(cfg: Config, before: seq<Step>, after: seq<Step>, i: nat)
    requires i < |Run(cfg, before).users| && Run(cfg, before).users[i].closing
    ensures i < |Run(cfg, before + after).users| && Run(cfg, before + after).users[i].closing
    ensures NothingStarts(Run(cfg, before).users[i], Run(cfg, before + after).users[i])
    decreases |after|
  {
    hide Next, Count, Enabled, Conserved, RoomsApart, UserOk, NothingStarts;
    ClosedForGood(cfg, before, after, i);
    if after == [] {
      assert before + after == before;
      Itself(Run(cfg, before).users[i]);
    } else {
      var front, last := after[..|after| - 1], after[|after| - 1];
      ClosingStartsNothing(cfg, before, front, i);
      assert (before + after)[..|before + after| - 1] == before + front;
      var h := Run(cfg, before + front);
      RunIsSafe(cfg, before + front);
      assert h.users[i] in h.users;
      if last.At? && last.i == i && Enabled(h.users[i], last.e) {
        StepStartsNothing(cfg, h.users[i], last.e, h.rooms);
        StartsTransitive(Run(cfg, before).users[i], h.users[i], Next(cfg, h.users[i], last.e, h.rooms));
      }
    }
  }

  lemma Itself(u: User)
    ensures NothingStarts(u, u)
  {
  }

  /** Step n of the run is taken by user i. */
  predicate Steps(cfg: Config, steps: seq<Step>, n: nat, i: nat) {
    && n < |steps| && steps[n].At? && steps[n].i == i
    && i < |Run(cfg, steps[..n]).users| && Enabled(Run(cfg, steps[..n]).users[i], steps[n].e)
  }

  /** User i has a procedure that is joining a room after the first n steps. */
  ghost predicate InFlight(cfg: Config, steps: seq<Step>, n: nat, i: nat) {
    n <= |steps| && i < |Run(cfg, steps[..n]).users| && exists t :: t in Run(cfg, steps[..n]).users[i].tasks && t.stage.Joining?
  }

  ghost predicate IsClosing(cfg: Config, steps: seq<Step>, n: nat, i: nat) {
    n <= |steps| && i < |Run(cfg, steps[..n]).users| && Run(cfg, steps[..n]).users[i].closing
  }

  /** The state of a user that is being closed, some steps later. */
  lemma Later(cfg: Config, steps: seq<Step>, m: nat, n: nat, i: nat)
    requires m <= n <= |steps| && IsClosing(cfg, steps, m, i)
    ensures IsClosing(cfg, steps, n, i) && NothingStarts(Run(cfg, steps[..m]).users[i], Run(cfg, steps[..n]).users[i])
  {
    hide Run, NothingStarts;
    ClosingStartsNothing(cfg, steps[..m], steps[m..n], i);
    assert steps[..m] + steps[m..n] == steps[..n];
  }

  /** The user right after one of its steps. */
  lemma After(cfg: Config, steps: seq<Step>, n: nat, i: nat)
    requires Steps(cfg, steps, n, i)
    ensures i < |Run(cfg, steps[..n + 1]).users| && UserOk(cfg, Run(cfg, steps[..n]).users[i])
    ensures Run(cfg, steps[..n + 1]).users[i] == Next(cfg, Run(cfg, steps[..n]).users[i], steps[n].e, Run(cfg, steps[..n]).rooms)
  {
    hide Next, Count, Enabled, Conserved, RoomsApart, UserOk;
    RunIsSafe(cfg, steps[..n]);
    assert Run(cfg, steps[..n]).users[i] in Run(cfg, steps[..n]).users;
    assert steps[..n + 1] == steps[..n] + [steps[n]];
    RunNext(cfg, steps[..n], steps[n]);
  }

  /** A join that arrives while the user is being closed was in flight when the closing was first
      observed, and the only one; after it none arrives. */
  lemma OnlyJoinInFlight(cfg: Config, steps: seq<Step>, m: nat, n: nat, i: nat)
    requires m <= n && IsClosing(cfg, steps, m, i) && Steps(cfg, steps, n, i) && steps[n].e.Joined?
    ensures InFlight(cfg, steps, m, i)
    ensures forall k :: n < k <= |steps| ==> !InFlight(cfg, steps, k, i)
    ensures forall k :: n < k < |steps| && Steps(cfg, steps, k, i) ==> !steps[k].e.Joined?
  {
    JoinIsInFlight(cfg, steps, n, i);
    Later(cfg, steps, m, n, i);
    After(cfg, steps, n, i);
    StepStartsNothing(cfg, Run(cfg, steps[..n]).users[i], steps[n].e, Run(cfg, steps[..n]).rooms);
    Later(cfg, steps, m, n + 1, i);
    hide Run, Next, Enabled;
    forall k | n < k <= |steps| ensures !InFlight(cfg, steps, k, i) {
      Later(cfg, steps, n + 1, k, i);
    }
    forall k | n < k < |steps| && Steps(cfg, steps, k, i) ensures !steps[k].e.Joined? {
      if steps[k].e.Joined? { JoinIsInFlight(cfg, steps, k, i); }
    }
  }

  lemma JoinIsInFlight(cfg: Config, steps: seq<Step>, n: nat, i: nat)
    requires Steps(cfg, steps, n, i) && steps[n].e.Joined?
    ensures InFlight(cfg, steps, n, i)
  {
    hide Run;
    var u := Run(cfg, steps[..n]).users[i];
    assert u.tasks[steps[n].e.k] in u.tasks;
  }

  /** At most one room that came too late is left, and only by a procedure that was joining or leaving
      when the closing was first observed. */
  lemma OnlyStaleLeave(cfg: Config, steps: seq<Step>, m: nat, n: nat, i: nat)
    requires m <= n && IsClosing(cfg, steps, m, i) && Steps(cfg, steps, n, i) && steps[n].e.StaleLeft?
    ensures exists t :: t in Run(cfg, steps[..m]).users[i].tasks && (t.stage.Joining? || t.stage.LeavingStale?)
    ensures forall k :: n < k < |steps| && Steps(cfg, steps, k, i) ==> !steps[k].e.StaleLeft? && !steps[k].e.Joined?
  {
    hide Run, Next, UserOk, NothingStarts, Enabled;
    Later(cfg, steps, m, n, i);
    LeavesOne(cfg, steps, n, i);
    WasBusy(Run(cfg, steps[..m]).users[i], Run(cfg, steps[..n]).users[i]);
    LeavesNone(cfg, steps, n, i);
    forall k | n < k < |steps| && Steps(cfg, steps, k, i) ensures !steps[k].e.StaleLeft? && !steps[k].e.Joined? {
      StaysIdle(cfg, steps, n + 1, k, i);
    }
  }

  lemma LeavesNone(cfg: Config, steps: seq<Step>, n: nat, i: nat)
    requires IsClosing(cfg, steps, n, i) && Steps(cfg, steps, n, i) && steps[n].e.StaleLeft?
    ensures IsClosing(cfg, steps, n + 1, i) && Run(cfg, steps[..n + 1]).users[i].tasks == []
  {
    Later(cfg, steps, n, n + 1, i);
    After(cfg, steps, n, i);
    StepStartsNothing(cfg, Run(cfg, steps[..n]).users[i], steps[n].e, Run(cfg, steps[..n]).rooms);
    hide Run, Next, UserOk, NothingStarts;
  }

  /** A closing user without a procedure neither joins nor leaves a late room. */
  lemma StaysIdle(cfg: Config, steps: seq<Step>, n: nat, k: nat, i: nat)
    requires n <= k && IsClosing(cfg, steps, n, i) && Run(cfg, steps[..n]).users[i].tasks == [] && Steps(cfg, steps, k, i)
    ensures !steps[k].e.StaleLeft? && !steps[k].e.Joined?
  {
    hide Run, NothingStarts;
    Later(cfg, steps, n, k, i);
    Idle(Run(cfg, steps[..n]).users[i], Run(cfg, steps[..k]).users[i]);
  }

  lemma WasBusy(u: User, u': User)
    requires NothingStarts(u, u') && exists t :: t in u'.tasks && t.stage.LeavingStale?
    ensures exists t :: t in u.tasks && (t.stage.Joining? || t.stage.LeavingStale?)
  {
  }

  lemma LeavesOne(cfg: Config, steps: seq<Step>, n: nat, i: nat)
    requires Steps(cfg, steps, n, i) && steps[n].e.StaleLeft?
    ensures exists t :: t in Run(cfg, steps[..n]).users[i].tasks && t.stage.LeavingStale?
  {
    hide Run;
    var u := Run(cfg, steps[..n]).users[i];
    assert u.tasks[steps[n].e.k] in u.tasks;
  }

  lemma HeadIn<T>(s: seq<T>)
    ensures s != [] ==> s[0] in s
  {
  }

  lemma Idle(u: User, u': User)
    requires NothingStarts(u, u') && u.tasks == []
    ensures u'.tasks == []
  {
    HeadIn(u'.tasks);
  }

  // ---- Closing comes to an end ----

  /** How many steps its procedures and its close still take at most. */
  function Work(u: User): nat {
    (if u.tasks == [] then 0 else if u.tasks[0].stage.Joining? then 2 else 1)
    + match u.closer case NotClosing => 3 case Waiting(_) => 2 case LeavingRoom => 1 case Done => 0
  }

  /** A step of a procedure of the user, or of its close. */
  predicate Progress(e: Event) {
    Resumes(e) || e.CloseResumed? || e.CloseLeft?
  }

  /** While a user is being closed every such step leaves less to do, and no other step leaves more. */
  lemma WorkShrinks(cfg: Config, u: User, e: Event, newRoom: nat)
    requires UserOk(cfg, u) && Enabled(u, e) && u.closing
    ensures Work(Next(cfg, u, e, newRoom)) + Bit(Progress(e)) <= Work(u)
  {
    if Resumes(e) {
      ResumeShrinks(cfg, u, e, newRoom);
    } else {
      hide End, Suspend, Fail, UnexpectedLeave;
    }
  }

  lemma ResumeShrinks(cfg: Config, u: User, e: Event, newRoom: nat)
    requires UserOk(cfg, u) && Enabled(u, e) && u.closing && Resumes(e)
    ensures Work(Next(cfg, u, e, newRoom)) + 1 <= Work(u)
  {
    OneTask(u.tasks);
    FailEnds(u);
    hide Fail;
  }

  lemma FailEnds(u: User)
    requires |u.tasks| == 1 && u.closing
    ensures Fail(u, 0).tasks == [] && Fail(u, 0).closer == u.closer
  {
    OneTask(u.tasks);
  }

  /** And as long as there is something to do, such a step can be taken. */
  lemma WorkGoesOn(cfg: Config, u: User) returns (e: Event)
    requires UserOk(cfg, u) && u.closing && Work(u) > 0
    ensures Progress(e) && Enabled(u, e)
  {
    if u.tasks != [] {
      e := match u.tasks[0].stage
           case Preparing => Prepared(0)
           case Sleeping => Woke(0)
           case Joining(_) => Joined(0, 0, 0)
           case LeavingStale(_) => StaleLeft(0);
    } else {
      e := if u.closer == LeavingRoom then CloseLeft else CloseResumed;
    }
  }

  /** How many of the steps in `after` are such steps of user i. */
  function ProgressIn(cfg: Config, before: seq<Step>, after: seq<Step>, i: nat): nat {
    if after == [] then 0
    else
      var front, last := after[..|after| - 1], after[|after| - 1];
      var h := Run(cfg, before + front);
      ProgressIn(cfg, before, front, i)
      + Bit(last.At? && last.i == i && i < |h.users| && Enabled(h.users[i], last.e) && Progress(last.e))
  }

  /** From the moment a user begins to close it takes at most as many such steps as there is work left,
      and never more than four; once none can be taken it is closed and has no procedure. */
  lemma {:induction false} CloseEnds(cfg: Config, before: seq<Step>, after: seq<Step>, i: nat)
    requires i < |Run(cfg, before).users| && Run(cfg, before).users[i].closing
    ensures i < |Run(cfg, before + after).users|
    ensures var u, u' := Run(cfg, before).users[i], Run(cfg, before + after).users[i];
            && Work(u') + ProgressIn(cfg, before, after, i) <= Work(u) <= 4
            && ((forall e :: Progress(e) ==> !Enabled(u', e)) ==> u'.closer == Done && u'.tasks == [])
    decreases |after|
  {
    WorkBound(cfg, before, i);
    ProgressBound(cfg, before, after, i);
    ClosedForGood(cfg, before, after, i);
    RunIsSafe(cfg, before + after);
    var u' := Run(cfg, before + after).users[i];
    assert u' in Run(cfg, before + after).users;
    hide Run, ProgressIn, UserOk, Enabled, Conserved, RoomsApart;
    if Work(u') > 0 {
      var e := WorkGoesOn(cfg, u');
    }
  }

  lemma WorkBound(cfg: Config, steps: seq<Step>, i: nat)
    requires i < |Run(cfg, steps).users| && Run(cfg, steps).users[i].closing
    ensures Work(Run(cfg, steps).users[i]) <= 4
  {
    RunIsSafe(cfg, steps);
    assert Run(cfg, steps).users[i] in Run(cfg, steps).users;
    assert UserOk(cfg, Run(cfg, steps).users[i]);
  }

  lemma {:induction false} ProgressBound(cfg: Config, before: seq<Step>, after: seq<Step>, i: nat)
    requires i < |Run(cfg, before).users| && Run(cfg, before).users[i].closing
    ensures i < |Run(cfg, before + after).users|
    ensures Work(Run(cfg, before + after).users[i]) + ProgressIn(cfg, before, after, i) <= Work(Run(cfg, before).users[i])
    decreases |after|
  {
    hide Next, Count, Enabled, Conserved, RoomsApart, UserOk, Work, Progress;
    if after == [] {
      assert before + after == before;
    } else {
      var front, last := after[..|after| - 1], after[|after| - 1];
      ProgressBound(cfg, before, front, i);
      ClosedForGood(cfg, before, front, i);
      assert (before + after)[..|before + after| - 1] == before + front;
      var h := Run(cfg, before + front);
      RunIsSafe(cfg, before + front);
      assert h.users[i] in h.users;
      if last.At? && last.i == i && Enabled(h.users[i], last.e) {
        WorkShrinks(cfg, h.users[i], last.e, h.rooms);
      }
    }
  }

  /** A procedure that fails marks the user failed; a first connect that fails closes it, a reconnect
      does not. */
  lemma FailureCloses(cfg: Config, u: User, e: Event, newRoom: nat)
    requires UserOk(cfg, u) && Enabled(u, e) && (e.PrepareFailed? || e.JoinFailed?)
    ensures var u' := Next(cfg, u, e, newRoom);
            && u'.status == Failed && u'.tasks == [] && u'.reconnectPromise == None
            && (u'.closing <==> u.closing || !u.everConnected)
  {
    OneTask(u.tasks);
  }
}
