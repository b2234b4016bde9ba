/**
 The life of a device session (internal/session/fsm.go, supervisor.go, recovery.go) as a state
 machine over its lock sections. Start holds the lock through the launch; Close and Recovery.Run
 let go of it in the middle, so that anything may come in between.
 */
module SessionFsm {
  import opened Wrappers

  datatype SessionState = Idle | Starting | Active | Stopping | Failed | Reconnecting

  datatype TransitionError = InvalidTransition(from: SessionState, to: SessionState)

  function ValidTransitions(from: SessionState): seq<SessionState> {
    match from
    case Idle => [Starting]
    case Starting => [Active, Failed, Stopping]
    case Active => [Stopping, Failed, Reconnecting]
    case Reconnecting => [Active, Failed, Stopping]
    case Stopping => [Idle, Failed]
    case Failed => [Idle]
  }

  predicate CanTransition(from: SessionState, to: SessionState) {
    to in ValidTransitions(from)
  }

  function TransitionTo(current: SessionState, target: SessionState): Result<SessionState, TransitionError> {
    if CanTransition(current, target) then Ok(target) else Err(InvalidTransition(current, target))
  }

  /** A write to the session's state. */
  datatype Write = Write(from: SessionState, to: SessionState)

  /** The state, the Close calls that are cleaning up, the recoveries that are relaunching, and
      every write so far. */
  datatype System = System(state: SessionState, closing: nat, recovering: nat, writes: seq<Write>)

  datatype Event =
    | Start(launched: bool)
    | CloseBegin
    | CloseEnd
    | RecoveryEnter
    | RecoveryCommit(relaunched: bool)

  const INIT := System(Idle, 0, 0, [])

  /** A direct assignment, which no table guards. */
  function Assign(sys: System, to: SessionState): System {
    sys.(state := to, writes := sys.writes + [Write(sys.state, to)])
  }

  /** A guarded write; a refused one changes nothing. */
  function Transition(sys: System, to: SessionState): System {
    if TransitionTo(sys.state, to).Ok? then Assign(sys, to) else sys
  }

  predicate Enabled(sys: System, e: Event) {
    match e
    case CloseEnd => sys.closing > 0
    case RecoveryCommit(_) => sys.recovering > 0
    case _ => true
  }

  /** One lock section; an event that is not possible leaves the system as it is. */
  function Step(sys: System, e: Event): System {
    if !Enabled(sys, e) then sys else
    match e
    case Start(launched) =>
      if TransitionTo(sys.state, Starting).Err? then sys
      else Assign(Transition(sys, Starting), if launched then Active else Failed)
    case CloseBegin =>
      if TransitionTo(sys.state, Stopping).Err? then sys
      else Transition(sys, Stopping).(closing := sys.closing + 1)
    case CloseEnd => Assign(sys, Idle).(closing := sys.closing - 1)
    case RecoveryEnter =>
      if TransitionTo(sys.state, Reconnecting).Err? then sys
      else Transition(sys, Reconnecting).(recovering := sys.recovering + 1)
    case RecoveryCommit(relaunched) =>
      var done := sys.(recovering := sys.recovering - 1);
      if sys.state.Stopping? then done else Transition(done, if relaunched then Active else Failed)
  }

  function RunFrom(sys: System, es: seq<Event>): System {
    if es == [] then sys else Step(RunFrom(sys, es[..|es| - 1]), es[|es| - 1])
  }

  function Run(es: seq<Event>): System {
    RunFrom(INIT, es)
  }

  lemma RunSnoc(es: seq<Event>, e: Event)
    ensures Run(es + [e]) == Step(Run(es), e)
  {
  }

  // ---------------------------------------------------------------- every write is an edge

  /** The table by its targets: what may lead to each state. */
  lemma EdgesAre(from: SessionState)
    ensures CanTransition(from, Starting) <==> from.Idle?
    ensures CanTransition(from, Active) <==> from.Starting? || from.Reconnecting?
    ensures CanTransition(from, Reconnecting) <==> from.Active?
    ensures CanTransition(from, Stopping) <==> from.Starting? || from.Active? || from.Reconnecting?
    ensures CanTransition(from, Failed) <==> !from.Idle? && !from.Failed?
    ensures CanTransition(from, Idle) <==> from.Stopping? || from.Failed?
  {
  }

  /** Every write is an edge of the table. */
  ghost predicate Edges(writes: seq<Write>) {
    forall i | 0 <= i < |writes| :: CanTransition(writes[i].from, writes[i].to)
  }

  /** Each write starts where the one before it ended, from Idle to the present state. */
  ghost predicate Chained(writes: seq<Write>, state: SessionState) {
    if writes == [] then state == Idle else
    && writes[0].from == Idle && writes[|writes| - 1].to == state
    && forall i | 0 < i < |writes| :: writes[i].from == writes[i - 1].to
  }

  ghost predicate PathTo(writes: seq<Write>, state: SessionState) {
    Edges(writes) && Chained(writes, state)
  }

  /** At most one Close call cleans up, just while the state is Stopping; a session that is
      reconnecting has a recovery at work. */
  ghost predicate Counts(sys: System) {
    && (sys.closing == if sys.state.Stopping? then 1 else 0)
    && (sys.state.Reconnecting? ==> sys.recovering > 0)
    && !sys.state.Starting?
  }

  ghost predicate Consistent(sys: System) {
    PathTo(sys.writes, sys.state) && Counts(sys)
  }

  lemma MoreEdges(writes: seq<Write>, w: Write)
    requires Edges(writes) && CanTransition(w.from, w.to)
    ensures Edges(writes + [w])
  {
  }

  lemma LongerChain(writes: seq<Write>, w: Write)
    requires Chained(writes, w.from)
    ensures Chained(writes + [w], w.to)
  {
  }

  lemma AssignKeepsPath(sys: System, to: SessionState)
    requires PathTo(sys.writes, sys.state) && CanTransition(sys.state, to)
    ensures PathTo(Assign(sys, to).writes, to)
  {
    MoreEdges(sys.writes, Write(sys.state, to));
    LongerChain(sys.writes, Write(sys.state, to));
  }

  lemma StartKeepsPath(sys: System, launched: bool)
    requires PathTo(sys.writes, sys.state)
    ensures PathTo(Step(sys, Start(launched)).writes, Step(sys, Start(launched)).state)
  {
    if CanTransition(sys.state, Starting) {
      AssignKeepsPath(sys, Starting);
      AssignKeepsPath(Assign(sys, Starting), if launched then Active else Failed);
    }
  }

  /** The state that a lock section other than Start writes, or the present one. */
  function Target(sys: System, e: Event): SessionState {
    match e
    case CloseBegin => Stopping
    case CloseEnd => Idle
    case RecoveryEnter => Reconnecting
    case RecoveryCommit(relaunched) => if relaunched then Active else Failed
    case Start(_) => sys.state
  }

  lemma StepWritesTarget(sys: System, e: Event)
    requires !e.Start? && (e.CloseEnd? && sys.closing > 0 ==> sys.state.Stopping?)
    ensures var sys' := Step(sys, e);
            || (sys'.writes == sys.writes && sys'.state == sys.state)
            || (CanTransition(sys.state, Target(sys, e)) && sys'.state == Target(sys, e)
                  && sys'.writes == Assign(sys, Target(sys, e)).writes)
  {
  }

  lemma StepKeepsCounts(sys: System, e: Event)
    requires Counts(sys)
    ensures Counts(Step(sys, e))
  {
  }

  lemma StepKeepsConsistent(sys: System, e: Event)
    requires Consistent(sys)
    ensures Consistent(Step(sys, e))
  {
    StepKeepsCounts(sys, e);
    if e.Start? {
      StartKeepsPath(sys, e.launched);
    } else {
      StepWritesTarget(sys, e);
      if CanTransition(sys.state, Target(sys, e)) {
        AssignKeepsPath(sys, Target(sys, e));
      }
    }
  }

  /** Every write by Start, Close and Recovery.Run, the direct assignments included, is an edge of
      the table, in every interleaving and for any number of Start, Close and recovery calls. */
  lemma {:induction false} EveryWriteIsAnEdge(es: seq<Event>)
    ensures Consistent(Run(es))
    decreases |es|
  {
    if es != [] {
      EveryWriteIsAnEdge(es[..|es| - 1]);
      StepKeepsConsistent(Run(es[..|es| - 1]), es[|es| - 1]);
    }
  }

  // ---------------------------------------------------------------- after Close

  predicate Closed(sys: System) {
    sys.state.Stopping? || sys.state.Idle?
  }

  /** Some Start among the events is accepted. */
  ghost predicate Restarts(sys: System, es: seq<Event>) {
    exists k | 0 <= k < |es| :: es[k].Start? && RunFrom(sys, es[..k]).state.Idle?
  }

  lemma {:induction false} NeverReopens(sys: System, es: seq<Event>)
    requires Closed(sys) && !Restarts(sys, es)
    ensures Closed(RunFrom(sys, es))
    decreases |es|
  {
    if es != [] {
      var n := |es| - 1;
      forall k | 0 <= k < n && es[..n][k].Start? ensures !RunFrom(sys, es[..n][..k]).state.Idle? {
        assert es[..n][..k] == es[..k];
      }
      NeverReopens(sys, es[..n]);
    }
  }

  /** Once Close has moved to Stopping, no recovery in flight can make the session Active or Failed
      again: it stays Stopping or Idle exactly as long as it is not started anew. */
  lemma StaysClosedIff(es: seq<Event>, more: seq<Event>)
    requires Run(es).state.Stopping?
    ensures (forall k | 0 <= k <= |more| :: Closed(RunFrom(Run(es), more[..k]))) <==> !Restarts(Run(es), more)
  {
    var sys := Run(es);
    if Restarts(sys, more) {
      var k :| 0 <= k < |more| && more[k].Start? && RunFrom(sys, more[..k]).state.Idle?;
      assert more[..k + 1][..k] == more[..k];
      assert !Closed(RunFrom(sys, more[..k + 1]));
    } else {
      forall k | 0 <= k <= |more| ensures Closed(RunFrom(sys, more[..k])) {
        assert forall j | 0 <= j < k :: more[..k][..j] == more[..j];
        NeverReopens(sys, more[..k]);
      }
    }
  }

  /** What goes wrong with a second Start: a recovery left over from the first one fails the
      session that the second one made Active. */
  lemma StaleRecoveryFailsRestart()
    ensures var es := [Start(true), RecoveryEnter, CloseBegin, CloseEnd, Start(true)];
            Run(es).state == Active && Run(es + [RecoveryCommit(false)]).state == Failed
  {
    var es := [Start(true), RecoveryEnter, CloseBegin, CloseEnd, Start(true)];
    StoppedDuringRecovery();
    RunSnoc(es[..4], Start(true));
    assert es[..4] == [Start(true), RecoveryEnter, CloseBegin, CloseEnd] && es[..4] + [Start(true)] == es;
    RunSnoc(es, RecoveryCommit(false));
  }

  lemma StoppedDuringRecovery()
    ensures var sys := Run([Start(true), RecoveryEnter, CloseBegin, CloseEnd]);
            sys.state == Idle && sys.recovering == 1 && sys.closing == 0
  {
    var es := [Start(true), RecoveryEnter, CloseBegin, CloseEnd];
    OneMore(es, 0);
    OneMore(es, 1);
    OneMore(es, 2);
    OneMore(es, 3);
    assert es[..0] == [] && es[..4] == es;
  }

  lemma OneMore(es: seq<Event>, k: nat)
    requires k < |es|
    ensures Run(es[..k + 1]) == Step(Run(es[..k]), es[k])
  {
    assert es[..k + 1][..k] == es[..k];
  }

  // ---------------------------------------------------------------- restarts

  /** Nothing happens but commits of recoveries. */
  predicate OnlyCommits(es: seq<Event>) {
    forall i | 0 <= i < |es| :: es[i].RecoveryCommit?
  }

  /** Neither a Close nor a new recovery begins. */
  predicate Undisturbed(es: seq<Event>) {
    forall i | 0 <= i < |es| :: !es[i].CloseBegin? && !es[i].RecoveryEnter?
  }

  lemma {:induction false} StaysActive(sys: System, es: seq<Event>)
    requires sys.state.Active? && sys.recovering == 0 && sys.closing == 0 && Undisturbed(es)
    ensures RunFrom(sys, es) == sys
    decreases |es|
  {
    if es != [] {
      StaysActive(sys, es[..|es| - 1]);
    }
  }

  /** A restart can be failed by recoveries of the time before exactly when one of them was still at
      work; without one, the session stays Active until a Close or a stall. */
  lemma RestartHoldsIff(es: seq<Event>)
    requires Run(es).state.Idle?
    ensures Run(es).recovering == 0 <==>
              forall more: seq<Event> | OnlyCommits(more) :: RunFrom(Step(Run(es), Start(true)), more).state.Active?
    ensures Run(es).recovering == 0 ==>
              forall more: seq<Event> | Undisturbed(more) :: RunFrom(Step(Run(es), Start(true)), more).state.Active?
  {
    var sys := Step(Run(es), Start(true));
    EveryWriteIsAnEdge(es);
    if Run(es).recovering == 0 {
      forall more: seq<Event> | Undisturbed(more) ensures RunFrom(sys, more).state.Active? {
        StaysActive(sys, more);
      }
    } else {
      var more := [RecoveryCommit(false)];
      assert more[..0] == [];
      assert RunFrom(sys, more) == Step(sys, RecoveryCommit(false));
      assert OnlyCommits(more) && !RunFrom(sys, more).state.Active?;
    }
  }

  /** Every accepted Start finds no recovery at work. */
  ghost predicate FreshStarts(es: seq<Event>) {
    forall k | 0 <= k < |es| :: es[k].Start? && Run(es[..k]).state.Idle? ==> Run(es[..k]).recovering == 0
  }

  /** A recovery is alone, and its session is reconnecting unless Close came in between. */
  ghost predicate OneLife(sys: System) {
    sys.recovering <= 1 && (sys.recovering == 1 ==> sys.state.Reconnecting? || Closed(sys))
  }

  lemma StepKeepsOneLife(sys: System, e: Event)
    requires Consistent(sys) && OneLife(sys) && (e.Start? && sys.state.Idle? ==> sys.recovering == 0)
    ensures OneLife(Step(sys, e))
  {
  }

  lemma {:induction false} FreshOneLife(es: seq<Event>)
    requires FreshStarts(es)
    ensures OneLife(Run(es))
    decreases |es|
  {
    if es != [] {
      var n := |es| - 1;
      forall k | 0 <= k < n && es[..n][k].Start? && Run(es[..n][..k]).state.Idle?
        ensures Run(es[..n][..k]).recovering == 0
      {
        assert es[..n][..k] == es[..k];
      }
      FreshOneLife(es[..n]);
      EveryWriteIsAnEdge(es[..n]);
      StepKeepsOneLife(Run(es[..n]), es[n]);
    }
  }

  lemma FreshPrefix(es: seq<Event>, k: nat)
    requires FreshStarts(es) && k <= |es|
    ensures FreshStarts(es[..k])
  {
    assert forall i | 0 <= i < k :: es[..k][..i] == es[..i];
  }

  /** Throughout a run each recovery is alone in a session of its own exactly when no accepted Start,
      of which there may be any number, finds a recovery at work. */
  lemma OneLifeIffFreshStarts(es: seq<Event>)
    ensures (forall k | 0 <= k <= |es| :: OneLife(Run(es[..k]))) <==> FreshStarts(es)
  {
    if FreshStarts(es) {
      forall k | 0 <= k <= |es| ensures OneLife(Run(es[..k])) {
        FreshPrefix(es, k);
        FreshOneLife(es[..k]);
      }
    } else {
      var k :| 0 <= k < |es| && es[k].Start? && Run(es[..k]).state.Idle? && Run(es[..k]).recovering != 0;
      OneMore(es, k);
      assert !OneLife(Run(es[..k + 1]));
    }
  }

  /** In such a run, a recovery's commit decides between Active and Failed when the session is still
      reconnecting, is dropped while Close cleans up, and is refused by the table just when Close
      has finished. */
  lemma CommitOutcome(es: seq<Event>, relaunched: bool)
    requires FreshStarts(es) && Run(es).recovering > 0
    ensures var sys := Run(es);
            var target := if relaunched then Active else Failed;
            && Step(sys, RecoveryCommit(relaunched)).state == (if sys.state.Reconnecting? then target else sys.state)
            && (!sys.state.Stopping? && TransitionTo(sys.state, target).Err? <==> sys.state.Idle?)
  {
    FreshOneLife(es);
  }

  function Starts(es: seq<Event>): nat {
    if es == [] then 0 else Starts(es[..|es| - 1]) + if es[|es| - 1].Start? then 1 else 0
  }

  lemma {:induction false} NothingWithoutStart(es: seq<Event>)
    requires Starts(es) == 0
    ensures Run(es) == INIT
    decreases |es|
  {
    if es != [] {
      NothingWithoutStart(es[..|es| - 1]);
    }
  }

  lemma {:induction false} FewerStarts(es: seq<Event>, k: nat)
    requires k < |es| && es[k].Start?
    ensures Starts(es[..k]) < Starts(es)
    decreases |es|
  {
    var n := |es| - 1;
    if k < n {
      assert es[..n][..k] == es[..k];
      FewerStarts(es[..n], k);
    }
  }

  /** The handlers start each session once; so all their runs are of that kind. */
  lemma OneStartIsFresh(es: seq<Event>)
    requires Starts(es) <= 1
    ensures FreshStarts(es)
  {
    forall k | 0 <= k < |es| && es[k].Start? ensures Run(es[..k]).recovering == 0 {
      FewerStarts(es, k);
      NothingWithoutStart(es[..k]);
    }
  }

  /** The refusal does occur: Close can finish while a recovery relaunches. */
  lemma RefusalReached()
    ensures var sys := Run([Start(true), RecoveryEnter, CloseBegin, CloseEnd]);
            sys.recovering > 0 && !sys.state.Stopping? && TransitionTo(sys.state, Failed).Err?
  {
    StoppedDuringRecovery();
  }
}
