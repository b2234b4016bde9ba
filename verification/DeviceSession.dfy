/**
 The device session and its recovery (internal/session/supervisor.go, recovery.go): each lock
 section a method that changes the state field, carrying out one step of SessionFsm.
 */
module DeviceSession {
  import opened Wrappers
  import opened SessionFsm

  class Session {
    var state: SessionState
    ghost var sys: System           // the abstract state
    ghost var trace: seq<Event>     // the lock sections so far

    ghost predicate Valid()
      reads this
    {
      state == sys.state && sys == Run(trace)
    }

    constructor ()
      ensures Valid() && trace == []
    {
      state, sys, trace := Idle, INIT, [];
    }

    /** Records a lock section that the field has already taken. */
    ghost method Commit(e: Event)
      requires sys == Run(trace) && state == Step(sys, e).state
      modifies this`sys, this`trace
      ensures Valid() && trace == old(trace) + [e] && sys == Step(old(sys), e)
    {
      RunSnoc(trace, e);
      sys := Step(sys, e);
      trace := trace + [e];
    }

    /** A guarded write. */
    method TransitionLocked(target: SessionState) returns (r: Result<SessionState, TransitionError>)
      modifies this`state
      ensures r == TransitionTo(old(state), target)
      ensures state == if r.Ok? then target else old(state)
    {
      r := TransitionTo(state, target);
      if r.Ok? {
        state := r.value;
      }
    }

    /** Holds the lock from the first write to the last; launched is the launcher's answer. */
    method Start(launched: bool) returns (ok: bool)
      requires Valid()
      modifies this
      ensures Valid() && trace == old(trace) + [Event.Start(launched)]
      ensures ok <==> launched && old(state).Idle?
      ensures state == if !old(state).Idle? then old(state) else if launched then Active else Failed
    {
      var r := TransitionLocked(Starting);
      if r.Err? {
        Commit(Event.Start(launched));
        return false;
      }
      if !launched {
        state := Failed;
        Commit(Event.Start(launched));
        return false;
      }
      state := Active;
      Commit(Event.Start(launched));
      ok := true;
    }

    /** The first lock section of Close. */
    method BeginClose() returns (ok: bool)
      requires Valid()
      modifies this
      ensures Valid() && trace == old(trace) + [CloseBegin]
      ensures ok <==> old(state) in {Starting, Active, Reconnecting}
      ensures if ok then state.Stopping? && sys.closing == 1 else state == old(state)
    {
      EveryWriteIsAnEdge(trace);
      var r := TransitionLocked(Stopping);
      Commit(CloseBegin);
      ok := r.Ok?;
    }

    /** Its second one, after the cleanup: a direct assignment. */
    method EndClose()
      requires Valid() && sys.closing > 0
      modifies this
      ensures Valid() && trace == old(trace) + [CloseEnd] && old(state).Stopping? && state.Idle?
    {
      EveryWriteIsAnEdge(trace);
      state := Idle;
      Commit(CloseEnd);
    }

    /** Close without anything in between. */
    method Close() returns (ok: bool)
      requires Valid()
      modifies this
      ensures Valid() && trace == old(trace) + [CloseBegin] + if ok then [CloseEnd] else []
      ensures state == if ok then Idle else old(state)
    {
      ok := BeginClose();
      if ok {
        EndClose();
      }
    }
  }

  /** What one attempt to relaunch comes to. */
  datatype Attempt = Cancelled | LaunchFailed | Launched

  /** The first of the attempts that does not merely fail, if any, is a launch. */
  ghost predicate Succeeds(attempts: seq<Attempt>) {
    exists i | 0 <= i < |attempts| :: attempts[i].Launched? && forall j | 0 <= j < i :: attempts[j].LaunchFailed?
  }

  class Recovery {
    const maxAttempts: nat

    constructor (maxAttempts: nat)
      ensures this.maxAttempts == if maxAttempts == 0 then 3 else maxAttempts
    {
      this.maxAttempts := if maxAttempts == 0 then 3 else maxAttempts;
    }

    method Enter(sess: Session) returns (ok: bool)
      requires sess.Valid()
      modifies sess
      ensures sess.Valid() && sess.trace == old(sess.trace) + [RecoveryEnter]
      ensures if ok then sess.state.Reconnecting? && sess.sys.recovering > 0 else sess.state == old(sess.state)
      ensures ok <==> old(sess.state).Active?
    {
      var r := sess.TransitionLocked(Reconnecting);
      sess.Commit(RecoveryEnter);
      ok := r.Ok?;
    }

    /** The retry loop, which runs without the lock: it stops at the first success, at a
        cancellation, or after the last attempt. */
    method Retry(attempts: seq<Attempt>) returns (ok: bool)
      requires |attempts| == maxAttempts
      ensures ok <==> Succeeds(attempts)
    {
      for i := 0 to maxAttempts
        invariant forall j | 0 <= j < i :: attempts[j].LaunchFailed?
      {
        match attempts[i] {
          case Launched => return true;
          case Cancelled => return false;
          case LaunchFailed =>
        }
      }
      ok := false;
    }

    /** Commits the outcome unless a stop is under way. */
    method Finish(sess: Session, relaunched: bool) returns (ok: bool)
      requires sess.Valid() && sess.sys.recovering > 0
      modifies sess
      ensures sess.Valid() && sess.trace == old(sess.trace) + [RecoveryCommit(relaunched)]
      ensures sess.state == if old(sess.state).Reconnecting? then if relaunched then Active else Failed
                            else if old(sess.state).Active? && !relaunched then Failed else old(sess.state)
      ensures ok <==> relaunched && (old(sess.state).Stopping? || old(sess.state).Reconnecting?)
    {
      EveryWriteIsAnEdge(sess.trace);
      if sess.state == Stopping {
        sess.Commit(RecoveryCommit(relaunched));
        return relaunched;
      }
      var r := sess.TransitionLocked(if relaunched then Active else Failed);
      sess.Commit(RecoveryCommit(relaunched));
      ok := relaunched && r.Ok?;
    }
  }
}
