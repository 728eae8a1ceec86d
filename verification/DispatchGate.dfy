/**
 Admission of user-mode dispatches, the session protocol of CREATE and CLEANUP, and the
 order of steps at unload. Every guarded section or atomic operation is one step, and the
 steps of all threads interleave freely. A dispatch keeps the interrupt level it arrived at:
 the spin lock of admission raises it only within that one step.
 */
module DispatchGate {
  import opened Net

  datatype Kind = ReadCall(reader: nat) | CreateCall(file: nat) | CleanupCall(file: nat) | OtherCall

  /** How far a dispatch has come. */
  datatype Stage =
    | Arrived        // holds code lifetime, not yet through the gate
    | Rejected       // found the gate closed, will only complete its request
    | Working        // admitted
    | Served         // READ, has been through the stream
    | InSession      // CREATE or CLEANUP, holding the session
    | Checked        // CREATE, has seen that no unload is going on
    | Accepted       // CREATE, owns the session's file object
    | Closing        // CLEANUP, has closed read admission
    | Drained        // CLEANUP, has seen no admitted read
    | Cleared        // CLEANUP, has been through the discard of the saved fragment
    | Leaving        // no longer counted as read or non-read
    | Left           // no longer counted at all

  datatype Dispatch = Dispatch(kind: Kind, passive: bool, stage: Stage)

  /** A read that went through the stream: whose it was, and whether it left a fragment saved. */
  datatype PastRead = PastRead(reader: nat, left: bool)

  /** Driver lifetime: running, closed, all admitted dispatches gone, rundown closed, nobody left, device freed. */
  datatype Phase = Running | Unloading | AllGone | RundownClosed | Empty | Freed

  datatype State = State(
    calls: map<nat, Dispatch>, next: nat,
    readCount: nat, otherCount: nat, active: nat,
    unloading: bool, readsClosed: bool,
    session: Option<nat>, owner: Option<nat>, handed: set<nat>,
    fragment: bool, since: seq<PastRead>,
    phase: Phase)

  // `since` lists the reads since the saved fragment was last discarded, oldest first.

  /** The gate as a new driver instance opens it. */
  function Reopened(next: nat): State {
    State(map[], next, 0, 0, 0, false, false, None, None, {}, false, [], Running)
  }

  predicate IsAdmitted(d: Dispatch) {
    !d.stage.Arrived? && !d.stage.Rejected? && !d.stage.Leaving? && !d.stage.Left?
  }

  predicate IsActive(d: Dispatch) {
    IsAdmitted(d) || d.stage.Leaving?
  }

  predicate HoldsSession(d: Dispatch) {
    || d.stage.InSession? || d.stage.Checked? || d.stage.Accepted?
    || d.stage.Closing? || d.stage.Drained? || d.stage.Cleared?
  }

  // ---- steps of a dispatch ------------------------------------------------------------------------

  function At(s: State, id: nat, stage: Stage): State
    requires id in s.calls
  {
    s.(calls := s.calls[id := s.calls[id].(stage := stage)])
  }

  /** Acquiring code lifetime; only a file that CREATE has handed out can be read. */
  predicate CanArrive(s: State, kind: Kind) {
    (s.phase.Running? || s.phase.Unloading? || s.phase.AllGone?) && (kind.ReadCall? ==> kind.reader in s.handed)
  }

  function Arrive(s: State, kind: Kind, passive: bool): State {
    s.(calls := s.calls[s.next := Dispatch(kind, passive, Arrived)], next := s.next + 1)
  }

  /** Admission: the flags are tested and the counters raised under one lock. */
  function Admit(s: State, id: nat): State
    requires id in s.calls
  {
    var isRead := s.calls[id].kind.ReadCall?;
    if s.unloading || (isRead && s.readsClosed) then At(s, id, Rejected)
    else At(s, id, Working).(active := s.active + 1,
                             readCount := s.readCount + (if isRead then 1 else 0),
                             otherCount := s.otherCount + (if isRead then 0 else 1))
  }

  /** The guard's drop lowers its own counter first, then the common one, and gives lifetime back last. */
  function Leave(s: State, id: nat): State
    requires id in s.calls
    requires if s.calls[id].kind.ReadCall? then s.readCount > 0 else s.otherCount > 0
  {
    var isRead := s.calls[id].kind.ReadCall?;
    At(s, id, Leaving).(readCount := s.readCount - (if isRead then 1 else 0),
                        otherCount := s.otherCount - (if isRead then 0 else 1))
  }

  function Uncount(s: State, id: nat): State
    requires id in s.calls && s.active > 0
  {
    At(s, id, Left).(active := s.active - 1)
  }

  function Depart(s: State, id: nat): State {
    s.(calls := s.calls - {id})
  }

  /**
   A read takes whatever fragment is saved, and afterwards one may be saved or not. The
   reading file is not compared with the owner.
   */
  function ReadOnce(s: State, id: nat, left: bool): State
    requires id in s.calls && s.calls[id].kind.ReadCall?
  {
    At(s, id, Served).(fragment := left, since := s.since + [PastRead(s.calls[id].kind.reader, left)])
  }

  function TakeSession(s: State, id: nat): State
    requires id in s.calls
  {
    At(s, id, InSession).(session := Some(id))
  }

  function DropSession(s: State, id: nat): State
    requires id in s.calls
  {
    At(s, id, Working).(session := None)
  }

  function CheckUnload(s: State, id: nat): State
    requires id in s.calls
  {
    if s.unloading then DropSession(s, id) else At(s, id, Checked)
  }

  function TakeOwner(s: State, id: nat): State
    requires id in s.calls && s.calls[id].kind.CreateCall?
  {
    if s.owner.Some? then DropSession(s, id)
    else At(s, id, Accepted).(owner := Some(s.calls[id].kind.file))
  }

  function OpenReads(s: State, id: nat): State
    requires id in s.calls && s.calls[id].kind.CreateCall?
  {
    DropSession(s, id).(readsClosed := false, handed := s.handed + {s.calls[id].kind.file})
  }

  function CloseReads(s: State, id: nat): State
    requires id in s.calls && s.calls[id].kind.CleanupCall?
  {
    if s.owner == Some(s.calls[id].kind.file) then At(s, id, Closing).(readsClosed := true) else DropSession(s, id)
  }

  /** The stream's lock is refused above passive level; then the error is logged and cleanup goes on. */
  function ClearFragment(s: State, id: nat): State
    requires id in s.calls
  {
    if s.calls[id].passive then At(s, id, Cleared).(fragment := false, since := []) else At(s, id, Cleared)
  }

  function ReleaseOwner(s: State, id: nat): State
    requires id in s.calls
  {
    DropSession(s, id).(owner := None)
  }

  // ---- the transition system ------------------------------------------------------------------------

  datatype Label =
    | DoArrive(kind: Kind, passive: bool)
    | DoAdmit(id: nat) | DoLeave(id: nat) | DoUncount(id: nat) | DoDepart(id: nat)
    | DoUseDevice(id: nat)
    | DoRead(id: nat, left: bool)
    | DoShutdownReads(id: nat)
    | DoTakeSession(id: nat) | DoCheckUnload(id: nat) | DoTakeOwner(id: nat) | DoOpenReads(id: nat)
    | DoCloseReads(id: nat) | DoSeeNoReads(id: nat) | DoClear(id: nat) | DoReleaseOwner(id: nat)
    | DoClose | DoSeeAllGone | DoCloseRundown | DoSeeEmpty | DoFree | DoReopen

  predicate AtStage(s: State, id: nat, stage: Stage) {
    id in s.calls && s.calls[id].stage == stage
  }

  /** Admitted and, as every routine that goes on to the device has tested, at passive level. */
  predicate AtWork(s: State, id: nat) {
    AtStage(s, id, Working) && s.calls[id].passive
  }

  predicate Enabled(s: State, l: Label) {
    match l
    case DoArrive(kind, _) => CanArrive(s, kind)
    case DoAdmit(id) => AtStage(s, id, Arrived)
    case DoLeave(id) =>
      && (AtStage(s, id, Working) || AtStage(s, id, Served))
      && (if s.calls[id].kind.ReadCall? then s.readCount > 0 else s.otherCount > 0)
    case DoUncount(id) => AtStage(s, id, Leaving) && s.active > 0
    case DoDepart(id) => AtStage(s, id, Left) || AtStage(s, id, Rejected)
    case DoUseDevice(id) => id in s.calls && IsAdmitted(s.calls[id]) && s.calls[id].passive
    case DoRead(id, _) => AtWork(s, id) && s.calls[id].kind.ReadCall?
    case DoShutdownReads(id) => AtWork(s, id) && s.calls[id].kind.OtherCall?
    case DoTakeSession(id) =>
      AtWork(s, id) && s.session.None? && (s.calls[id].kind.CreateCall? || s.calls[id].kind.CleanupCall?)
    case DoCheckUnload(id) => AtStage(s, id, InSession) && s.calls[id].kind.CreateCall?
    case DoTakeOwner(id) => AtStage(s, id, Checked) && s.calls[id].kind.CreateCall?
    case DoOpenReads(id) => AtStage(s, id, Accepted) && s.calls[id].kind.CreateCall?
    case DoCloseReads(id) => AtStage(s, id, InSession) && s.calls[id].kind.CleanupCall?
    case DoSeeNoReads(id) => AtStage(s, id, Closing) && s.readCount == 0
    case DoClear(id) => AtStage(s, id, Drained)
    case DoReleaseOwner(id) => AtStage(s, id, Cleared)
    case DoClose => s.phase.Running?
    case DoSeeAllGone => s.phase.Unloading? && s.active == 0
    case DoCloseRundown => s.phase.AllGone?
    case DoSeeEmpty => s.phase.RundownClosed? && s.calls == map[]
    case DoFree => s.phase.Empty?
    case DoReopen => s.phase.Freed?
  }

  function Step(s: State, l: Label): State
    requires Enabled(s, l)
  {
    match l
    case DoArrive(kind, passive) => Arrive(s, kind, passive)
    case DoAdmit(id) => Admit(s, id)
    case DoLeave(id) => Leave(s, id)
    case DoUncount(id) => Uncount(s, id)
    case DoDepart(id) => Depart(s, id)
    case DoUseDevice(_) => s
    case DoRead(id, left) => ReadOnce(s, id, left)
    case DoShutdownReads(_) => s.(readsClosed := true)
    case DoTakeSession(id) => TakeSession(s, id)
    case DoCheckUnload(id) => CheckUnload(s, id)
    case DoTakeOwner(id) => TakeOwner(s, id)
    case DoOpenReads(id) => OpenReads(s, id)
    case DoCloseReads(id) => CloseReads(s, id)
    case DoSeeNoReads(id) => At(s, id, Drained)
    case DoClear(id) => ClearFragment(s, id)
    case DoReleaseOwner(id) => ReleaseOwner(s, id)
    case DoClose => s.(phase := Unloading, unloading := true, readsClosed := true)
    case DoSeeAllGone => s.(phase := AllGone)
    case DoCloseRundown => s.(phase := RundownClosed)
    case DoSeeEmpty => s.(phase := Empty)
    case DoFree => s.(phase := Freed)
    case DoReopen => Reopened(s.next)
  }

  // ---- the invariant ----------------------------------------------------------------------------------

  function Admitted(calls: map<nat, Dispatch>, isRead: bool): set<nat> {
    set id | id in calls && IsAdmitted(calls[id]) && calls[id].kind.ReadCall? == isRead
  }

  function Active(calls: map<nat, Dispatch>): set<nat> {
    set id | id in calls && IsActive(calls[id])
  }

  /** The counters count. */
  ghost predicate InvCounts(calls: map<nat, Dispatch>, next: nat, readCount: nat, otherCount: nat, active: nat) {
    && readCount == |Admitted(calls, true)| && otherCount == |Admitted(calls, false)| && active == |Active(calls)|
    && (forall id :: id in calls ==> id < next)
  }

  ghost predicate InvPhase(calls: map<nat, Dispatch>, phase: Phase, unloading: bool) {
    && (!phase.Running? ==> unloading)
    && (!phase.Running? && !phase.Unloading? ==> Active(calls) == {})
    && (phase.Empty? || phase.Freed? ==> calls == map[])
  }

  /** One dispatch at a time holds the session. */
  ghost predicate InvSession(calls: map<nat, Dispatch>, session: Option<nat>) {
    forall id :: (id in calls && HoldsSession(calls[id])) <==> session == Some(id)
  }

  /**
   Reads as far as they matter to a session: none inside, none admissible, none since the
   fragment was last discarded.
   */
  predicate Quiet(calls: map<nat, Dispatch>, readsClosed: bool, handed: set<nat>, since: seq<PastRead>) {
    Admitted(calls, true) == {} && (readsClosed || handed == {}) && since == []
  }

  /** What a dispatch in a session has done so far still stands. */
  predicate StageOk(d: Dispatch, calls: map<nat, Dispatch>, owner: Option<nat>, readsClosed: bool, handed: set<nat>,
                    since: seq<PastRead>) {
    && (HoldsSession(d) ==> d.passive)
    && match d.stage
    case Checked => d.kind.CreateCall?
    case Accepted => d.kind.CreateCall? && owner == Some(d.kind.file) && Quiet(calls, readsClosed, handed, since)
    case Closing => d.kind.CleanupCall? && owner == Some(d.kind.file) && readsClosed
    case Drained => d.kind.CleanupCall? && owner == Some(d.kind.file) && readsClosed && Admitted(calls, true) == {}
    case Cleared => d.kind.CleanupCall? && owner == Some(d.kind.file) && readsClosed
                    && Quiet(calls, readsClosed, handed, since)
    case _ => true
  }

  ghost predicate InvStages(calls: map<nat, Dispatch>, owner: Option<nat>, readsClosed: bool, handed: set<nat>,
                            since: seq<PastRead>) {
    && (forall id :: id in calls ==> StageOk(calls[id], calls, owner, readsClosed, handed, since))
    && (owner.None? ==> Quiet(calls, readsClosed, handed, since))
    && (forall id :: id in calls && calls[id].kind.ReadCall? ==> calls[id].kind.reader in handed)
  }

  /** The last read since the discard left a fragment saved. */
  predicate LeftOver(since: seq<PastRead>) {
    since != [] && since[|since| - 1].left
  }

  ghost predicate Inv(s: State) {
    && InvCounts(s.calls, s.next, s.readCount, s.otherCount, s.active)
    && InvPhase(s.calls, s.phase, s.unloading)
    && InvSession(s.calls, s.session)
    && InvStages(s.calls, s.owner, s.readsClosed, s.handed, s.since)
    && s.fragment == LeftOver(s.since)
  }

  // ---- one dispatch changes its stage ---------------------------------------------------------------------

  lemma AdmittedUpdate(calls: map<nat, Dispatch>, id: nat, d: Dispatch, isRead: bool)
    ensures Admitted(calls[id := d], isRead)
            == if IsAdmitted(d) && d.kind.ReadCall? == isRead then Admitted(calls, isRead) + {id}
               else Admitted(calls, isRead) - {id}
  {
  }

  lemma ActiveUpdate(calls: map<nat, Dispatch>, id: nat, d: Dispatch)
    ensures Active(calls[id := d]) == if IsActive(d) then Active(calls) + {id} else Active(calls) - {id}
  {
  }

  function One(b: bool): nat {
    if b then 1 else 0
  }

  predicate Among(calls: map<nat, Dispatch>, id: nat, isRead: bool) {
    id in calls && IsAdmitted(calls[id]) && calls[id].kind.ReadCall? == isRead
  }

  /** Entering or leaving a set by one member changes its size by one. */
  lemma Size(a: set<nat>, id: nat)
    ensures |a + {id}| == |a| + One(id !in a) && |a - {id}| == |a| - One(id in a)
  {
    if id in a { assert a + {id} == a; } else { assert a - {id} == a; }
  }

  /** How one dispatch's change counts. */
  lemma Recount(calls: map<nat, Dispatch>, id: nat, d: Dispatch)
    ensures |Admitted(calls[id := d], true)|
            == |Admitted(calls, true)| - One(Among(calls, id, true)) + One(IsAdmitted(d) && d.kind.ReadCall?)
    ensures |Admitted(calls[id := d], false)|
            == |Admitted(calls, false)| - One(Among(calls, id, false)) + One(IsAdmitted(d) && !d.kind.ReadCall?)
    ensures |Active(calls[id := d])| == |Active(calls)| - One(id in calls && IsActive(calls[id])) + One(IsActive(d))
  {
    AdmittedUpdate(calls, id, d, true);
    AdmittedUpdate(calls, id, d, false);
    ActiveUpdate(calls, id, d);
    Size(Admitted(calls, true), id);
    Size(Admitted(calls, false), id);
    Size(Active(calls), id);
  }

  lemma Unmoved(calls: map<nat, Dispatch>, id: nat, d: Dispatch)
    requires id in calls && d.kind == calls[id].kind
    ensures IsAdmitted(d) == IsAdmitted(calls[id]) ==> Admitted(calls[id := d], true) == Admitted(calls, true)
    ensures !IsAdmitted(d) ==> Admitted(calls[id := d], true) <= Admitted(calls, true)
    ensures IsActive(d) == IsActive(calls[id]) ==> Active(calls[id := d]) == Active(calls)
    ensures !IsActive(d) ==> Active(calls[id := d]) <= Active(calls)
  {
    AdmittedUpdate(calls, id, d, true);
    ActiveUpdate(calls, id, d);
  }

  /** A dispatch that was admitted and stays admitted changes no count. */
  lemma MoveCounts(s: State, id: nat, stage: Stage)
    requires InvCounts(s.calls, s.next, s.readCount, s.otherCount, s.active) && id in s.calls
    requires IsAdmitted(s.calls[id]) && IsAdmitted(s.calls[id].(stage := stage))
    ensures var c := At(s, id, stage).calls;
            && InvCounts(c, s.next, s.readCount, s.otherCount, s.active)
            && Admitted(c, true) == Admitted(s.calls, true) && Active(c) == Active(s.calls)
  {
    Recount(s.calls, id, s.calls[id].(stage := stage));
    Unmoved(s.calls, id, s.calls[id].(stage := stage));
  }

  /** Outside a session nothing is claimed about a dispatch. */
  lemma UnclaimedStage(d: Dispatch, calls: map<nat, Dispatch>, owner: Option<nat>, readsClosed: bool,
                       handed: set<nat>, since: seq<PastRead>)
    requires !HoldsSession(d)
    ensures StageOk(d, calls, owner, readsClosed, handed, since)
  {
  }

  /** A step of the session holder: nobody else has a claim, so only its own must be shown. */
  lemma SessionStep(s: State, id: nat, d: Dispatch, owner: Option<nat>, readsClosed: bool, handed: set<nat>,
                    since: seq<PastRead>)
    requires Inv(s) && id in s.calls && HoldsSession(s.calls[id]) && d.kind == s.calls[id].kind
    requires s.handed <= handed && IsAdmitted(d)
    requires Admitted(s.calls[id := d], true) == Admitted(s.calls, true)
    requires StageOk(d, s.calls[id := d], owner, readsClosed, handed, since)
    requires owner.None? ==> Quiet(s.calls, readsClosed, handed, since)
    ensures InvStages(s.calls[id := d], owner, readsClosed, handed, since)
    ensures InvSession(s.calls[id := d], if HoldsSession(d) then Some(id) else None)
  {
    var c := s.calls[id := d];
    forall k | k in c && k != id ensures !HoldsSession(c[k]) && StageOk(c[k], c, owner, readsClosed, handed, since) {
      UnclaimedStage(c[k], c, owner, readsClosed, handed, since);
    }
  }

  /** A step by a dispatch outside any session leaves every claim as it was. */
  lemma PlainStep(s: State, id: nat, d: Dispatch)
    requires Inv(s) && (id in s.calls ==> !HoldsSession(s.calls[id]) && d.kind == s.calls[id].kind)
    requires !HoldsSession(d) && (d.kind.ReadCall? ==> d.kind.reader in s.handed)
    requires Admitted(s.calls[id := d], true) <= Admitted(s.calls, true)
    ensures InvStages(s.calls[id := d], s.owner, s.readsClosed, s.handed, s.since)
    ensures InvSession(s.calls[id := d], s.session)
  {
    var c := s.calls[id := d];
    forall k | k in c ensures StageOk(c[k], c, s.owner, s.readsClosed, s.handed, s.since) {
      if k == id { UnclaimedStage(d, c, s.owner, s.readsClosed, s.handed, s.since); }
      else { assert StageOk(s.calls[k], s.calls, s.owner, s.readsClosed, s.handed, s.since); }
    }
  }

  lemma ArriveCounts(s: State, d: Dispatch)
    requires InvCounts(s.calls, s.next, s.readCount, s.otherCount, s.active) && d.stage.Arrived?
    ensures var c := s.calls[s.next := d];
            && InvCounts(c, s.next + 1, s.readCount, s.otherCount, s.active)
            && Admitted(c, true) == Admitted(s.calls, true) && Active(c) == Active(s.calls)
  {
    assert s.next !in s.calls;
    Recount(s.calls, s.next, d);
    AdmittedUpdate(s.calls, s.next, d, true);
    ActiveUpdate(s.calls, s.next, d);
  }

  lemma ArriveInv(s: State, kind: Kind, passive: bool)
    requires Inv(s) && CanArrive(s, kind)
    ensures Inv(Arrive(s, kind, passive))
  {
    ArriveCounts(s, Dispatch(kind, passive, Arrived));
    PlainStep(s, s.next, Dispatch(kind, passive, Arrived));
  }

  lemma RejectInv(s: State, id: nat)
    requires Inv(s) && AtStage(s, id, Arrived)
    ensures Inv(At(s, id, Rejected))
  {
    var d := s.calls[id].(stage := Rejected);
    Recount(s.calls, id, d);
    Unmoved(s.calls, id, d);
    PlainStep(s, id, d);
  }

  lemma AdmitCounts(s: State, id: nat)
    requires Inv(s) && AtStage(s, id, Arrived) && !s.unloading
    requires s.calls[id].kind.ReadCall? ==> !s.readsClosed
    ensures var t := Admit(s, id);
            InvCounts(t.calls, t.next, t.readCount, t.otherCount, t.active)
    ensures !s.calls[id].kind.ReadCall? ==> Admitted(Admit(s, id).calls, true) == Admitted(s.calls, true)
  {
    var d := s.calls[id].(stage := Working);
    Recount(s.calls, id, d);
    Unmoved(s.calls, id, d);
  }

  /** A read is only admitted when no session holder and no vacancy relies on there being none. */
  lemma AdmitReadStages(s: State, id: nat)
    requires Inv(s) && AtStage(s, id, Arrived) && s.calls[id].kind.ReadCall? && !s.readsClosed
    ensures InvStages(At(s, id, Working).calls, s.owner, s.readsClosed, s.handed, s.since)
    ensures InvSession(At(s, id, Working).calls, s.session)
  {
    var c := At(s, id, Working).calls;
    assert s.calls[id].kind.reader in s.handed;
    forall k | k in c ensures StageOk(c[k], c, s.owner, s.readsClosed, s.handed, s.since) {
      assert StageOk(s.calls[k], s.calls, s.owner, s.readsClosed, s.handed, s.since);
    }
  }

  lemma AdmitInv(s: State, id: nat)
    requires Inv(s) && AtStage(s, id, Arrived)
    ensures Inv(Admit(s, id))
  {
    if s.unloading || (s.calls[id].kind.ReadCall? && s.readsClosed) {
      RejectInv(s, id);
    } else {
      AdmitCounts(s, id);
      if s.calls[id].kind.ReadCall? {
        AdmitReadStages(s, id);
      } else {
        PlainStep(s, id, s.calls[id].(stage := Working));
      }
    }
  }

  lemma LeaveCounts(s: State, id: nat)
    requires InvCounts(s.calls, s.next, s.readCount, s.otherCount, s.active)
             && (AtStage(s, id, Working) || AtStage(s, id, Served))
    ensures if s.calls[id].kind.ReadCall? then s.readCount > 0 else s.otherCount > 0
    ensures var t := Leave(s, id);
            && InvCounts(t.calls, t.next, t.readCount, t.otherCount, t.active)
            && Active(t.calls) == Active(s.calls) && Admitted(t.calls, true) <= Admitted(s.calls, true)
  {
    var d := s.calls[id].(stage := Leaving);
    assert id in Admitted(s.calls, s.calls[id].kind.ReadCall?);
    Recount(s.calls, id, d);
    Unmoved(s.calls, id, d);
  }

  lemma LeaveInv(s: State, id: nat)
    requires Inv(s) && (AtStage(s, id, Working) || AtStage(s, id, Served))
    ensures if s.calls[id].kind.ReadCall? then s.readCount > 0 else s.otherCount > 0
    ensures Inv(Leave(s, id))
  {
    LeaveCounts(s, id);
    PlainStep(s, id, s.calls[id].(stage := Leaving));
  }

  lemma UncountInv(s: State, id: nat)
    requires Inv(s) && AtStage(s, id, Leaving)
    ensures s.active > 0 && Inv(Uncount(s, id))
  {
    var d := s.calls[id].(stage := Left);
    assert id in Active(s.calls);
    Recount(s.calls, id, d);
    Unmoved(s.calls, id, d);
    PlainStep(s, id, d);
  }

  lemma DepartInv(s: State, id: nat)
    requires Inv(s) && (AtStage(s, id, Left) || AtStage(s, id, Rejected))
    ensures Inv(Depart(s, id))
  {
    var c := s.calls - {id};
    assert Admitted(c, true) == Admitted(s.calls, true);
    assert Admitted(c, false) == Admitted(s.calls, false);
    assert Active(c) == Active(s.calls);
    forall k | k in c ensures StageOk(c[k], c, s.owner, s.readsClosed, s.handed, s.since) {
      assert StageOk(s.calls[k], s.calls, s.owner, s.readsClosed, s.handed, s.since);
    }
  }

  /** While a read is inside, nobody relies on the stream staying as it is. */
  lemma StreamMoves(s: State, id: nat, past: PastRead)
    requires Inv(s) && id in Admitted(s.calls, true)
    ensures Inv(s.(fragment := past.left, since := s.since + [past]))
  {
    var since := s.since + [past];
    forall k | k in s.calls ensures StageOk(s.calls[k], s.calls, s.owner, s.readsClosed, s.handed, since) {
      assert StageOk(s.calls[k], s.calls, s.owner, s.readsClosed, s.handed, s.since);
    }
  }

  lemma ReadInv(s: State, id: nat, left: bool)
    requires Inv(s) && AtStage(s, id, Working) && s.calls[id].kind.ReadCall?
    ensures Inv(ReadOnce(s, id, left))
  {
    var t := At(s, id, Served);
    MoveCounts(s, id, Served);
    PlainStep(s, id, t.calls[id]);
    StreamMoves(t, id, PastRead(s.calls[id].kind.reader, left));
  }

  /** Closing read admission never contradicts a claim. */
  lemma ClosedStages(s: State)
    requires Inv(s)
    ensures InvStages(s.calls, s.owner, true, s.handed, s.since)
  {
    forall k | k in s.calls ensures StageOk(s.calls[k], s.calls, s.owner, true, s.handed, s.since) {
      assert StageOk(s.calls[k], s.calls, s.owner, s.readsClosed, s.handed, s.since);
    }
  }

  // ---- sessions -------------------------------------------------------------------------------------------

  lemma TakeSessionInv(s: State, id: nat)
    requires Inv(s) && AtWork(s, id) && s.session.None?
    ensures Inv(TakeSession(s, id))
  {
    MoveCounts(s, id, InSession);
    var c := At(s, id, InSession).calls;
    forall k | k in c ensures StageOk(c[k], c, s.owner, s.readsClosed, s.handed, s.since) {
      if k != id { UnclaimedStage(c[k], c, s.owner, s.readsClosed, s.handed, s.since); }
    }
  }

  /** The common part of every step inside a session. */
  lemma InSessionInv(s: State, t: State, id: nat, stage: Stage)
    requires Inv(s) && id in s.calls && HoldsSession(s.calls[id]) && IsAdmitted(s.calls[id].(stage := stage))
    requires t.calls == At(s, id, stage).calls && t.next == s.next && t.phase == s.phase && t.unloading == s.unloading
    requires (t.readCount, t.otherCount, t.active) == (s.readCount, s.otherCount, s.active) && s.handed <= t.handed
    requires t.session == if HoldsSession(t.calls[id]) then Some(id) else None
    requires Admitted(t.calls, true) == Admitted(s.calls, true) ==>
               StageOk(t.calls[id], t.calls, t.owner, t.readsClosed, t.handed, t.since)
    requires t.owner.None? ==> Quiet(s.calls, t.readsClosed, t.handed, t.since)
    requires t.fragment == LeftOver(t.since)
    ensures Inv(t)
  {
    MoveCounts(s, id, stage);
    SessionStep(s, id, t.calls[id], t.owner, t.readsClosed, t.handed, t.since);
  }

  lemma DropSessionInv(s: State, id: nat)
    requires Inv(s) && id in s.calls && HoldsSession(s.calls[id])
    ensures Inv(DropSession(s, id))
  {
    InSessionInv(s, DropSession(s, id), id, Working);
  }

  lemma CreateInv(s: State, id: nat)
    requires Inv(s) && id in s.calls && s.calls[id].kind.CreateCall?
    ensures s.calls[id].stage.InSession? ==> Inv(CheckUnload(s, id))
    ensures s.calls[id].stage.Checked? ==> Inv(TakeOwner(s, id))
    ensures s.calls[id].stage.Accepted? ==> Inv(OpenReads(s, id))
  {
    if s.calls[id].stage.InSession? {
      if s.unloading { DropSessionInv(s, id); } else { InSessionInv(s, CheckUnload(s, id), id, Checked); }
    } else if s.calls[id].stage.Checked? {
      if s.owner.Some? { DropSessionInv(s, id); } else { InSessionInv(s, TakeOwner(s, id), id, Accepted); }
    } else if s.calls[id].stage.Accepted? {
      assert StageOk(s.calls[id], s.calls, s.owner, s.readsClosed, s.handed, s.since);
      InSessionInv(s, OpenReads(s, id), id, Working);
    }
  }

  lemma CloseReadsInv(s: State, id: nat)
    requires Inv(s) && AtStage(s, id, InSession) && s.calls[id].kind.CleanupCall?
    ensures Inv(CloseReads(s, id))
  {
    if s.owner == Some(s.calls[id].kind.file) {
      InSessionInv(s, CloseReads(s, id), id, Closing);
    } else {
      DropSessionInv(s, id);
    }
  }

  lemma CleanupInv(s: State, id: nat)
    requires Inv(s) && id in s.calls
    ensures s.calls[id].stage.Closing? && s.readCount == 0 ==> Inv(At(s, id, Drained))
    ensures s.calls[id].stage.Drained? ==> Inv(ClearFragment(s, id))
    ensures s.calls[id].stage.Cleared? ==> Inv(ReleaseOwner(s, id))
  {
    assert StageOk(s.calls[id], s.calls, s.owner, s.readsClosed, s.handed, s.since);
    if s.calls[id].stage.Closing? && s.readCount == 0 {
      InSessionInv(s, At(s, id, Drained), id, Drained);
    } else if s.calls[id].stage.Drained? {
      InSessionInv(s, ClearFragment(s, id), id, Cleared);
    } else if s.calls[id].stage.Cleared? {
      InSessionInv(s, ReleaseOwner(s, id), id, Working);
    }
  }

  // ---- every step -------------------------------------------------------------------------------------------

  lemma UnloadInv(s: State, l: Label)
    requires Inv(s) && Enabled(s, l)
    requires l.DoClose? || l.DoSeeAllGone? || l.DoCloseRundown? || l.DoSeeEmpty? || l.DoFree? || l.DoReopen?
    ensures Inv(Step(s, l))
  {
    ClosedStages(s);
    assert Admitted(map[], true) == {} && Admitted(map[], false) == {} && Active(map[]) == {};
  }

  lemma ClosedInv(s: State)
    requires Inv(s)
    ensures Inv(s.(readsClosed := true))
  {
    ClosedStages(s);
  }

  lemma DispatchInv(s: State, l: Label)
    requires Inv(s) && Enabled(s, l)
    requires l.DoArrive? || l.DoAdmit? || l.DoLeave? || l.DoUncount? || l.DoDepart?
             || l.DoUseDevice? || l.DoRead? || l.DoShutdownReads?
    ensures Inv(Step(s, l))
  {
    hide Inv;
    match l
    case DoArrive(kind, passive) => ArriveInv(s, kind, passive);
    case DoAdmit(id) => AdmitInv(s, id);
    case DoLeave(id) => LeaveInv(s, id);
    case DoUncount(id) => UncountInv(s, id);
    case DoDepart(id) => DepartInv(s, id);
    case DoUseDevice(_) =>
    case DoRead(id, left) => ReadInv(s, id, left);
    case DoShutdownReads(_) => ClosedInv(s);
  }

  lemma StepInv(s: State, l: Label)
    requires Inv(s) && Enabled(s, l)
    ensures Inv(Step(s, l))
  {
    hide Inv;
    match l
    case DoTakeSession(id) => TakeSessionInv(s, id);
    case DoCheckUnload(id) => CreateInv(s, id);
    case DoTakeOwner(id) => CreateInv(s, id);
    case DoOpenReads(id) => CreateInv(s, id);
    case DoCloseReads(id) => CloseReadsInv(s, id);
    case DoSeeNoReads(id) => CleanupInv(s, id);
    case DoClear(id) => CleanupInv(s, id);
    case DoReleaseOwner(id) => CleanupInv(s, id);
    case DoClose => UnloadInv(s, l);
    case DoSeeAllGone => UnloadInv(s, l);
    case DoCloseRundown => UnloadInv(s, l);
    case DoSeeEmpty => UnloadInv(s, l);
    case DoFree => UnloadInv(s, l);
    case DoReopen => UnloadInv(s, l);
    case _ => DispatchInv(s, l);
  }

  ghost predicate ValidRun(s: State, run: seq<Label>)
    decreases |run|
  {
    run == [] || (Enabled(s, run[0]) && ValidRun(Step(s, run[0]), run[1..]))
  }

  ghost function RunAll(s: State, run: seq<Label>): State
    requires ValidRun(s, run)
    decreases |run|
  {
    if run == [] then s else RunAll(Step(s, run[0]), run[1..])
  }

  lemma {:induction false} RunInv(s: State, run: seq<Label>)
    requires Inv(s) && ValidRun(s, run)
    ensures Inv(RunAll(s, run))
    decreases |run|
  {
    if run != [] {
      StepInv(s, run[0]);
      RunInv(Step(s, run[0]), run[1..]);
    }
  }

  ghost predicate Reachable(s: State) {
    exists run :: ValidRun(Reopened(0), run) && s == RunAll(Reopened(0), run)
  }

  lemma ReachableInv(s: State)
    requires Reachable(s)
    ensures Inv(s)
  {
    var run :| ValidRun(Reopened(0), run) && s == RunAll(Reopened(0), run);
    assert Admitted(map[], true) == {} && Admitted(map[], false) == {} && Active(map[]) == {};
    RunInv(Reopened(0), run);
  }

  // ---- what holds of every interleaving -----------------------------------------------------------------------

  predicate DrainSeen(phase: Phase) {
    !phase.Running? && !phase.Unloading?
  }

  /** After the gate is closed and the drain has been seen, no dispatch is admitted and none can become so. */
  lemma DrainIsFinal(s: State, l: Label)
    requires Reachable(s) && DrainSeen(s.phase) && Enabled(s, l) && !l.DoReopen?
    ensures forall id :: id in s.calls ==> !IsAdmitted(s.calls[id])
    ensures DrainSeen(Step(s, l).phase)
    ensures forall id :: id in Step(s, l).calls ==> !IsAdmitted(Step(s, l).calls[id])
  {
    ReachableInv(s);
    StepInv(s, l);
    forall id | id in s.calls ensures !IsAdmitted(s.calls[id]) {
      assert id !in Active(s.calls);
    }
    var t := Step(s, l);
    forall id | id in t.calls ensures !IsAdmitted(t.calls[id]) {
      assert id !in Active(t.calls);
    }
  }

  /** No dispatch ever touches a freed device, and when it is freed no callback is left inside the driver. */
  lemma DeviceFreedUnused(s: State, id: nat)
    requires Reachable(s)
    ensures Enabled(s, DoUseDevice(id)) ==> !s.phase.Freed? && !s.phase.Empty?
    ensures Enabled(s, DoFree) ==> s.calls == map[]
  {
    ReachableInv(s);
  }

  /** The waits mean what they say: the counters are zero exactly when nobody is inside. */
  lemma CountersExact(s: State)
    requires Reachable(s)
    ensures s.readCount == 0 <==> forall id :: id in s.calls && s.calls[id].kind.ReadCall? ==> !IsAdmitted(s.calls[id])
    ensures s.otherCount == 0 <==>
            forall id :: id in s.calls && !s.calls[id].kind.ReadCall? ==> !IsAdmitted(s.calls[id])
    ensures s.active == 0 <==> forall id :: id in s.calls ==> !IsActive(s.calls[id])
  {
    ReachableInv(s);
    EmptyIffNone(s.calls, true);
    EmptyIffNone(s.calls, false);
    assert Active(s.calls) == {} <==> forall id :: id in s.calls ==> !IsActive(s.calls[id]) by {
      forall id | id in s.calls && IsActive(s.calls[id]) ensures Active(s.calls) != {} {
        assert id in Active(s.calls);
      }
    }
  }

  lemma EmptyIffNone(calls: map<nat, Dispatch>, isRead: bool)
    ensures |Admitted(calls, isRead)| == 0 <==>
            forall id :: id in calls && calls[id].kind.ReadCall? == isRead ==> !IsAdmitted(calls[id])
  {
    forall id | id in calls && calls[id].kind.ReadCall? == isRead && IsAdmitted(calls[id])
      ensures Admitted(calls, isRead) != {}
    {
      assert id in Admitted(calls, isRead);
    }
  }

  // ---- where a replacement owner begins ---------------------------------------------------------------------

  /** The discard never fails: whoever gets that far has passed the test of the interrupt level. */
  lemma DiscardSucceeds(s: State, id: nat)
    requires Reachable(s) && Enabled(s, DoClear(id))
    ensures s.readCount == 0 && s.readsClosed
    ensures !Step(s, DoClear(id)).fragment && Step(s, DoClear(id)).since == []
  {
    ReachableInv(s);
    assert StageOk(s.calls[id], s.calls, s.owner, s.readsClosed, s.handed, s.since);
  }

  /** A replacement owner is accepted with no read inside, none since the discard, and no fragment saved. */
  lemma NewOwnerAtBoundary(s: State, id: nat)
    requires Reachable(s) && Enabled(s, DoTakeOwner(id)) && s.owner.None?
    ensures var t := Step(s, DoTakeOwner(id));
            && t.owner == Some(s.calls[id].kind.file)
            && t.readCount == 0 && t.since == [] && !t.fragment
  {
    ReachableInv(s);
  }

  lemma SessionHeld(s: State, id: nat)
    requires Reachable(s) && id in s.calls && HoldsSession(s.calls[id])
    ensures s.session == Some(id)
  {
    ReachableInv(s);
  }

  lemma CheckDecides(s: State, id: nat)
    requires Reachable(s) && Enabled(s, DoCheckUnload(id))
    ensures var t := Step(s, DoCheckUnload(id));
            && t.owner == s.owner && t.readsClosed == s.readsClosed
            && (Enabled(t, DoTakeOwner(id)) <==> !s.unloading) && (t.session.None? <==> s.unloading)
  {
    hide Reachable;
    SessionHeld(s, id);
  }

  /**
   A create becomes the owner exactly when no unload has begun as it looks and nobody owns the
   device as it tries; otherwise it gives the session back and changes no owner.
   */
  lemma CreateDecides(s: State, id: nat)
    requires Reachable(s)
    ensures Enabled(s, DoCheckUnload(id)) ==>
              var t := Step(s, DoCheckUnload(id));
              && t.owner == s.owner && t.readsClosed == s.readsClosed
              && (Enabled(t, DoTakeOwner(id)) <==> !s.unloading) && (t.session.None? <==> s.unloading)
    ensures Enabled(s, DoTakeOwner(id)) ==>
              var t := Step(s, DoTakeOwner(id));
              && t.owner == (if s.owner.Some? then s.owner else Some(s.calls[id].kind.file))
              && (Enabled(t, DoOpenReads(id)) <==> s.owner.None?) && (t.session.None? <==> s.owner.Some?)
  {
    hide Reachable;
    if Enabled(s, DoCheckUnload(id)) {
      CheckDecides(s, id);
    } else if Enabled(s, DoTakeOwner(id)) {
      SessionHeld(s, id);
    }
  }

  predicate ReadsOf(since: seq<PastRead>, file: nat) {
    exists i :: 0 <= i < |since| && since[i].reader == file
  }

  /** The last read since the discard was of another file and left a fragment. */
  predicate LeftByOther(since: seq<PastRead>, file: nat) {
    LeftOver(since) && since[|since| - 1].reader != file
  }

  /** The owner's own first read finds a fragment only when the last read before it was of another file and left one. */
  lemma OwnersFirstRead(s: State, id: nat, left: bool)
    requires Reachable(s) && Enabled(s, DoRead(id, left)) && s.owner == Some(s.calls[id].kind.reader)
    requires !ReadsOf(s.since, s.owner.value)
    ensures !s.fragment <==> !LeftByOther(s.since, s.owner.value)
  {
    ReachableInv(s);
  }

  predicate NoOtherReads(run: seq<Label>, file: nat) {
    forall i :: 0 <= i < |run| && run[i].DoArrive? && run[i].kind.ReadCall? ==> run[i].kind.reader == file
  }

  /** A dispatch that is no read of another file, or one that will never reach the stream. */
  predicate Harmless(d: Dispatch, file: nat, unloading: bool) {
    d.kind.ReadCall? && d.kind.reader != file && d.passive ==>
      d.stage.Rejected? || d.stage.Leaving? || d.stage.Left? || (d.stage.Arrived? && unloading)
  }

  ghost predicate AllHarmless(calls: map<nat, Dispatch>, file: nat, unloading: bool) {
    forall id :: id in calls ==> Harmless(calls[id], file, unloading)
  }

  predicate AllOf(since: seq<PastRead>, file: nat) {
    forall i :: 0 <= i < |since| ==> since[i].reader == file
  }

  lemma HarmlessAt(s: State, id: nat, stage: Stage, file: nat)
    requires id in s.calls && AllHarmless(s.calls, file, s.unloading)
    requires Harmless(s.calls[id].(stage := stage), file, s.unloading)
    ensures AllHarmless(At(s, id, stage).calls, file, s.unloading)
  {
  }

  predicate IsCreateLabel(l: Label) {
    l.DoCheckUnload? || l.DoTakeOwner? || l.DoOpenReads?
  }

  predicate IsCleanupLabel(l: Label) {
    l.DoCloseReads? || l.DoClear? || l.DoReleaseOwner?
  }

  predicate IsStageLabel(l: Label) {
    l.DoAdmit? || l.DoLeave? || l.DoUncount? || l.DoRead? || l.DoTakeSession? || l.DoSeeNoReads?
  }

  lemma HarmlessCreate(s: State, l: Label, file: nat)
    requires Enabled(s, l) && IsCreateLabel(l) && AllHarmless(s.calls, file, s.unloading)
    ensures Step(s, l).unloading == s.unloading && AllHarmless(Step(s, l).calls, file, s.unloading)
  {
    assert Harmless(s.calls[l.id], file, s.unloading);
    hide AllHarmless;
    HarmlessAt(s, l.id, Step(s, l).calls[l.id].stage, file);
  }

  lemma HarmlessCleanup(s: State, l: Label, file: nat)
    requires Enabled(s, l) && IsCleanupLabel(l) && AllHarmless(s.calls, file, s.unloading)
    ensures Step(s, l).unloading == s.unloading && AllHarmless(Step(s, l).calls, file, s.unloading)
  {
    assert Harmless(s.calls[l.id], file, s.unloading);
    hide AllHarmless;
    if l.DoCloseReads? {
      HarmlessAt(s, l.id, CloseReads(s, l.id).calls[l.id].stage, file);
    } else {
      HarmlessAt(s, l.id, if l.DoClear? then Cleared else Working, file);
    }
  }

  lemma HarmlessStage(s: State, l: Label, file: nat)
    requires Enabled(s, l) && IsStageLabel(l) && AllHarmless(s.calls, file, s.unloading)
    ensures Step(s, l).unloading == s.unloading && AllHarmless(Step(s, l).calls, file, s.unloading)
  {
    assert Harmless(s.calls[l.id], file, s.unloading);
    hide AllHarmless;
    HarmlessAt(s, l.id, Step(s, l).calls[l.id].stage, file);
  }

  lemma HarmlessOther(s: State, l: Label, file: nat)
    requires Enabled(s, l) && AllHarmless(s.calls, file, s.unloading)
    requires !IsCreateLabel(l) && !IsCleanupLabel(l) && !IsStageLabel(l)
    requires l.DoArrive? && l.kind.ReadCall? ==> l.kind.reader == file
    ensures AllHarmless(Step(s, l).calls, file, Step(s, l).unloading)
  {
  }

  /** What cannot reach the stream never will, and so only reads of this file do. */
  lemma HarmlessStep(s: State, l: Label, file: nat)
    requires Enabled(s, l) && AllHarmless(s.calls, file, s.unloading) && AllOf(s.since, file)
    requires l.DoArrive? && l.kind.ReadCall? ==> l.kind.reader == file
    ensures AllHarmless(Step(s, l).calls, file, Step(s, l).unloading) && AllOf(Step(s, l).since, file)
  {
    StreamStep(s, l);
    if l.DoRead? {
      assert Harmless(s.calls[l.id], file, s.unloading);
    }
    hide AllHarmless, Step;
    if IsCreateLabel(l) {
      HarmlessCreate(s, l, file);
    } else if IsCleanupLabel(l) {
      HarmlessCleanup(s, l, file);
    } else if IsStageLabel(l) {
      HarmlessStage(s, l, file);
    } else {
      HarmlessOther(s, l, file);
    }
  }

  lemma StreamStep(s: State, l: Label)
    requires Enabled(s, l)
    ensures if l.DoRead? then Step(s, l).since == s.since + [PastRead(s.calls[l.id].kind.reader, l.left)]
            else Step(s, l).since == s.since || Step(s, l).since == []
  {
  }

  lemma {:induction false} HarmlessRun(s: State, run: seq<Label>, file: nat)
    requires ValidRun(s, run) && NoOtherReads(run, file)
    requires AllHarmless(s.calls, file, s.unloading) && AllOf(s.since, file)
    ensures AllOf(RunAll(s, run).since, file)
    decreases |run|
  {
    if run != [] {
      HarmlessStep(s, run[0], file);
      assert forall i :: 0 <= i < |run| - 1 ==> run[1..][i] == run[i + 1];
      HarmlessRun(Step(s, run[0]), run[1..], file);
    }
  }

  /** A read of another file that waits outside the gate, at passive level. */
  predicate Lurks(s: State, k: nat, file: nat) {
    AtStage(s, k, Arrived) && s.calls[k].passive && s.calls[k].kind.ReadCall? && s.calls[k].kind.reader != file
  }

  /** What a handover must look out for: the gate is open to come, and a read of another file waits outside it. */
  predicate AtRisk(s: State, file: nat) {
    !s.unloading && exists k :: k in s.calls && Lurks(s, k, file)
  }

  /**
   After the handover, with no further reads of other files, the new owner's own first read is
   about to find a fragment.
   */
  ghost predicate Splits(s: State, create: nat, run: seq<Label>, id: nat)
    requires Enabled(s, DoTakeOwner(create))
  {
    var file := s.calls[create].kind.file;
    var t := Step(s, DoTakeOwner(create));
    && ValidRun(t, run) && NoOtherReads(run, file)
    && var e := RunAll(t, run);
       && Enabled(e, DoRead(id, false)) && e.calls[id].kind == ReadCall(file) && e.owner == Some(file)
       && !ReadsOf(e.since, file) && e.fragment
  }

  /** At a handover no read is inside, so without a lurking one all reads of other files are harmless. */
  lemma HarmlessHandover(s: State, create: nat)
    requires Reachable(s) && Enabled(s, DoTakeOwner(create)) && s.owner.None?
    requires !AtRisk(s, s.calls[create].kind.file)
    ensures AllHarmless(s.calls, s.calls[create].kind.file, s.unloading)
  {
    ReachableInv(s);
    var file := s.calls[create].kind.file;
    forall id | id in s.calls ensures Harmless(s.calls[id], file, s.unloading) {
      assert id !in Admitted(s.calls, true);
      assert !s.unloading ==> !Lurks(s, id, file);
    }
  }

  /** A handover not at risk is safe in every continuation. */
  lemma HandoverSafe(s: State, create: nat, run: seq<Label>, id: nat)
    requires Reachable(s) && Enabled(s, DoTakeOwner(create)) && s.owner.None?
    requires !AtRisk(s, s.calls[create].kind.file)
    ensures !Splits(s, create, run, id)
  {
    var file := s.calls[create].kind.file;
    var t := Step(s, DoTakeOwner(create));
    if Splits(s, create, run, id) {
      HarmlessHandover(s, create);
      NewOwnerAtBoundary(s, create);
      HarmlessCreate(s, DoTakeOwner(create), file);
      hide Reachable, ValidRun, RunAll, AllHarmless, Step;
      HarmlessRun(t, run, file);
      ReachableStep(s, DoTakeOwner(create));
      ReachableRun(t, run);
      OwnersFirstRead(RunAll(t, run), id, false);
      assert false;
    }
  }

  /** The steps by which a lurking read gets in between. */
  function LateRun(create: nat, k: nat, file: nat, next: nat): seq<Label> {
    [DoOpenReads(create), DoAdmit(k), DoRead(k, true), DoArrive(ReadCall(file), true), DoAdmit(next)]
  }

  /** Right after the gate was opened for the new owner. */
  ghost predicate JustOpened(a: State, k: nat, file: nat) {
    && a.phase.Running? && !a.unloading && !a.readsClosed && a.next !in a.calls
    && Lurks(a, k, file) && file in a.handed && a.owner == Some(file) && a.since == []
  }

  lemma HandoverOpens(s: State, create: nat, k: nat)
    requires Reachable(s) && Enabled(s, DoTakeOwner(create)) && s.owner.None?
    requires !s.unloading && Lurks(s, k, s.calls[create].kind.file)
    ensures var t := Step(s, DoTakeOwner(create));
            && Enabled(t, DoOpenReads(create)) && t.next == s.next
            && JustOpened(Step(t, DoOpenReads(create)), k, s.calls[create].kind.file)
            && Step(t, DoOpenReads(create)).next == s.next
  {
    ReachableInv(s);
    hide Inv, Reachable;
  }

  /** The lurking read passes the gate first and takes part of a record. */
  lemma LurkerReads(a: State, k: nat, file: nat)
    requires JustOpened(a, k, file)
    ensures Enabled(a, DoAdmit(k)) && Enabled(Step(a, DoAdmit(k)), DoRead(k, true))
    ensures var c := Step(Step(a, DoAdmit(k)), DoRead(k, true));
            && c.phase.Running? && !c.unloading && !c.readsClosed && c.next == a.next && c.next !in c.calls
            && file in c.handed && c.owner == Some(file) && c.fragment && !ReadsOf(c.since, file)
  {
  }

  /** Then the owner's own first read comes in. */
  lemma OwnerFollows(c: State, file: nat)
    requires c.phase.Running? && !c.unloading && !c.readsClosed && file in c.handed
    ensures Enabled(c, DoArrive(ReadCall(file), true))
    ensures var d := Step(c, DoArrive(ReadCall(file), true));
            && Enabled(d, DoAdmit(c.next))
            && var e := Step(d, DoAdmit(c.next));
               && Enabled(e, DoRead(c.next, false)) && e.calls[c.next].kind == ReadCall(file)
               && e.owner == c.owner && e.since == c.since && e.fragment == c.fragment
  {
  }

  lemma HandoverSplits(s: State, create: nat, k: nat)
    requires Reachable(s) && Enabled(s, DoTakeOwner(create)) && s.owner.None?
    requires !s.unloading && Lurks(s, k, s.calls[create].kind.file)
    ensures Splits(s, create, LateRun(create, k, s.calls[create].kind.file, s.next), s.next)
  {
    var file := s.calls[create].kind.file;
    hide Reachable, JustOpened, ReadsOf, Step;
    HandoverOpens(s, create, k);
    var t := Step(s, DoTakeOwner(create));
    var a := Step(t, DoOpenReads(create));
    LurkerReads(a, k, file);
    OwnerFollows(Step(Step(a, DoAdmit(k)), DoRead(k, true)), file);
    RunOfFive(t, DoOpenReads(create), DoAdmit(k), DoRead(k, true), DoArrive(ReadCall(file), true), DoAdmit(s.next));
  }

  lemma RunOfFive(s: State, l1: Label, l2: Label, l3: Label, l4: Label, l5: Label)
    requires Enabled(s, l1)
    requires var a := Step(s, l1); Enabled(a, l2)
    requires var b := Step(Step(s, l1), l2); Enabled(b, l3)
    requires var c := Step(Step(Step(s, l1), l2), l3); Enabled(c, l4)
    requires var d := Step(Step(Step(Step(s, l1), l2), l3), l4); Enabled(d, l5)
    ensures ValidRun(s, [l1, l2, l3, l4, l5])
    ensures RunAll(s, [l1, l2, l3, l4, l5]) == Step(Step(Step(Step(Step(s, l1), l2), l3), l4), l5)
  {
    hide Step, Enabled;
    assert ValidRun(s, []) && RunAll(s, []) == s;
    RunSnoc(s, [], l1);
    assert [] + [l1] == [l1];
    hide ValidRun, RunAll;
    RunSnoc(s, [l1], l2);
    assert [l1] + [l2] == [l1, l2];
    RunSnoc(s, [l1, l2], l3);
    assert [l1, l2] + [l3] == [l1, l2, l3];
    RunSnoc(s, [l1, l2, l3], l4);
    assert [l1, l2, l3] + [l4] == [l1, l2, l3, l4];
    RunSnoc(s, [l1, l2, l3, l4], l5);
    assert [l1, l2, l3, l4] + [l5] == [l1, l2, l3, l4, l5];
  }

  /**
   The exact condition, readable at the handover: when no further read of another file arrives,
   the new owner's own first read can find a fragment if and only if the driver is not unloading
   and a read of another file waits outside the gate at passive level.
   */
  lemma HandoverExact(s: State, create: nat)
    requires Reachable(s) && Enabled(s, DoTakeOwner(create)) && s.owner.None?
    ensures (exists run, id :: Splits(s, create, run, id)) <==> AtRisk(s, s.calls[create].kind.file)
  {
    if AtRisk(s, s.calls[create].kind.file) {
      var k :| k in s.calls && Lurks(s, k, s.calls[create].kind.file);
      HandoverSplits(s, create, k);
    } else {
      forall run, id ensures !Splits(s, create, run, id) {
        HandoverSafe(s, create, run, id);
      }
    }
  }

  // ---- a new owner in the middle of a record ----------------------------------------------------------------------

  lemma {:induction false} RunSnoc(s: State, run: seq<Label>, l: Label)
    requires ValidRun(s, run) && Enabled(RunAll(s, run), l)
    ensures ValidRun(s, run + [l]) && RunAll(s, run + [l]) == Step(RunAll(s, run), l)
    decreases |run|
  {
    if run == [] {
      assert run + [l] == [l] && [l][1..] == [];
    } else {
      assert (run + [l])[1..] == run[1..] + [l];
      RunSnoc(Step(s, run[0]), run[1..], l);
    }
  }

  lemma ReachableStep(s: State, l: Label)
    requires Reachable(s) && Enabled(s, l)
    ensures Reachable(Step(s, l))
  {
    var run :| ValidRun(Reopened(0), run) && s == RunAll(Reopened(0), run);
    RunSnoc(Reopened(0), run, l);
  }

  lemma {:induction false} ReachableRun(s: State, run: seq<Label>)
    requires Reachable(s) && ValidRun(s, run)
    ensures Reachable(RunAll(s, run))
    decreases |run|
  {
    hide Reachable;
    if run != [] {
      ReachableStep(s, run[0]);
      ReachableRun(Step(s, run[0]), run[1..]);
    }
  }

  /** A state in which a CREATE or CLEANUP meets no other session. */
  predicate Free(s: State) {
    s.phase.Running? && !s.unloading && s.session.None?
  }

  function Entered(s: State, kind: Kind): State {
    s.(calls := s.calls[s.next := Dispatch(kind, true, Working)], next := s.next + 1, active := s.active + 1,
       otherCount := s.otherCount + 1)
  }

  lemma Enters(s: State, kind: Kind)
    requires Reachable(s) && Free(s) && !kind.ReadCall?
    ensures Reachable(Entered(s, kind))
  {
    hide Reachable;
    ReachableStep(s, DoArrive(kind, true));
    var t := Step(s, DoArrive(kind, true));
    ReachableStep(t, DoAdmit(s.next));
    assert Step(t, DoAdmit(s.next)).calls == Entered(s, kind).calls;
  }

  /** A create that has seen no unload going on. */
  function Examined(s: State, file: nat): State {
    At(Entered(s, CreateCall(file)), s.next, Checked).(session := Some(s.next))
  }

  lemma Checks(s: State, file: nat)
    requires Reachable(s) && Free(s)
    ensures Reachable(Examined(s, file))
  {
    hide Reachable;
    Enters(s, CreateCall(file));
    var id, a := s.next, Entered(s, CreateCall(file));
    ReachableStep(a, DoTakeSession(id));
    var b := Step(a, DoTakeSession(id));
    ReachableStep(b, DoCheckUnload(id));
    assert Step(b, DoCheckUnload(id)).calls == Examined(s, file).calls;
  }

  /** The state after an undisturbed open, whose dispatch is about to return. */
  function Opened(s: State, file: nat): State {
    Entered(s, CreateCall(file)).(owner := Some(file), readsClosed := false, handed := s.handed + {file})
  }

  lemma Opens(s: State, file: nat)
    requires Reachable(s) && Free(s) && s.owner.None?
    ensures Reachable(Opened(s, file))
  {
    hide Reachable;
    Checks(s, file);
    var id, c := s.next, Examined(s, file);
    ReachableStep(c, DoTakeOwner(id));
    var d := Step(c, DoTakeOwner(id));
    ReachableStep(d, DoOpenReads(id));
    assert Step(d, DoOpenReads(id)).calls == Opened(s, file).calls;
  }

  /** The state after an undisturbed cleanup, whose dispatch is about to return. */
  function Closed(s: State, file: nat): State {
    Entered(s, CleanupCall(file)).(owner := None, readsClosed := true, fragment := false, since := [])
  }

  /** A cleanup of the owner's file that has seen no admitted read. */
  function Emptied(s: State, file: nat): State {
    At(Entered(s, CleanupCall(file)), s.next, Drained).(session := Some(s.next), readsClosed := true)
  }

  lemma Empties(s: State, file: nat)
    requires Reachable(s) && Free(s) && s.owner == Some(file) && s.readCount == 0
    ensures Reachable(Emptied(s, file))
  {
    hide Reachable;
    Enters(s, CleanupCall(file));
    var id, a := s.next, Entered(s, CleanupCall(file));
    ReachableStep(a, DoTakeSession(id));
    var b := Step(a, DoTakeSession(id));
    ReachableStep(b, DoCloseReads(id));
    var c := Step(b, DoCloseReads(id));
    ReachableStep(c, DoSeeNoReads(id));
    assert Step(c, DoSeeNoReads(id)).calls == Emptied(s, file).calls;
  }

  lemma Closes(s: State, file: nat)
    requires Reachable(s) && Free(s) && s.owner == Some(file) && s.readCount == 0
    ensures Reachable(Closed(s, file))
  {
    hide Reachable;
    Empties(s, file);
    var id, d := s.next, Emptied(s, file);
    ReachableStep(d, DoClear(id));
    var e := Step(d, DoClear(id));
    ReachableStep(e, DoReleaseOwner(id));
    assert Step(e, DoReleaseOwner(id)).calls == Closed(s, file).calls;
  }

  /** File 1 is open and closed again and file 2 is open, while a read of file 1 waits outside the gate. */
  lemma LateReadWaits() returns (s: State)
    ensures Reachable(s) && Free(s) && s.next == 4 && s.owner == Some(2) && 2 in s.handed && !s.readsClosed
            && s.since == []
    ensures AtStage(s, 1, Arrived) && s.calls[1] == Dispatch(ReadCall(1), true, Arrived)
  {
    assert ValidRun(Reopened(0), []) && RunAll(Reopened(0), []) == Reopened(0);
    assert Reachable(Reopened(0));
    hide Reachable;
    Opens(Reopened(0), 1);
    var a := Opened(Reopened(0), 1);
    ReachableStep(a, DoArrive(ReadCall(1), true));
    var b := Step(a, DoArrive(ReadCall(1), true));
    Closes(b, 1);
    Opens(Closed(b, 1), 2);
    s := Opened(Closed(b, 1), 2);
  }

  /**
   A read of the old file that passes the gate only after the new owner was accepted takes
   part of a record, and the new owner's first read starts in the middle of it.
   */
  lemma LateReadSplitsRecord() returns (s: State, id: nat)
    ensures Reachable(s) && s.owner == Some(2) && s.since == [PastRead(1, true)] && s.fragment
    ensures Enabled(s, DoRead(id, false)) && s.calls[id].kind == ReadCall(2)
  {
    var a := LateReadWaits();
    hide Reachable;
    ReachableStep(a, DoAdmit(1));
    var b := Step(a, DoAdmit(1));
    ReachableStep(b, DoRead(1, true));
    var c := Step(b, DoRead(1, true));
    ReachableStep(c, DoArrive(ReadCall(2), true));
    var d := Step(c, DoArrive(ReadCall(2), true));
    ReachableStep(d, DoAdmit(4));
    s, id := Step(d, DoAdmit(4)), 4;
  }
}
