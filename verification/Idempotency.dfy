/**
 * Idempotent commands as a concurrent protocol over one table: attempts race on the unique
 * constraint of `idempotency_record`, each inside its own transaction, and the domain events of a
 * transaction go out once it has committed. A run is any interleaving of the attempts' steps.
 */
module Idempotency {
  import opened Options

  /** `NULLS NOT DISTINCT`: the anonymous visitors' keys share one scope. */
  datatype Scope = Scope(account: Option<string>, key: string)

  datatype Request = Request(scope: Scope, fingerprint: string, statusCode: int)

  datatype Envelope = Envelope(servedAt: int, version: Option<int>, data: string)

  datatype RowState = InFlight | Completed(statusCode: int, envelope: Envelope)

  datatype Row = Row(fingerprint: string, state: RowState)

  type AttemptId = nat

  type AggregateId = string

  datatype Refusal = StillInFlight | KeyReused | CommandFailed | Lost

  datatype Phase =
    | Opened                                                    // its INSERT not answered yet
    | Claimed(written: seq<AggregateId>)                        // its row inserted, its command running
    | Filled(written: seq<AggregateId>, envelope: Envelope)     // its row completed, not committed
    | Conflicted                                                // the INSERT did nothing
    | Replaying(envelope: Envelope)                             // the stored answer read
    | Over(refusal: Refusal)                                    // rolled back
    | Done(envelope: Envelope, replayed: bool, unpublished: seq<AggregateId>)

  datatype Attempt = Attempt(request: Request, phase: Phase)

  /** What happened, in order: commits of a command, replays read, rows purged, events published. */
  datatype Entry =
    | Ran(id: AttemptId, request: Request, envelope: Envelope, written: seq<AggregateId>)
    | Replayed(id: AttemptId, request: Request, envelope: Envelope)
    | Purged(scope: Scope)
    | Published(id: AttemptId, aggregate: AggregateId)

  datatype State = State(
    rows: map<Scope, Row>,              // committed
    holders: map<Scope, AttemptId>,     // uncommitted inserts, which the constraint makes others wait on
    attempts: map<AttemptId, Attempt>,
    writes: map<AttemptId, seq<AggregateId>>,  // the commands' own committed writes
    log: seq<Entry>)

  function Initial(): State { State(map[], map[], map[], map[], []) }

  datatype Step =
    | Open(id: AttemptId, request: Request)
    | Insert(id: AttemptId)
    | Conflict(id: AttemptId)
    | TimeOut(id: AttemptId)
    | Write(id: AttemptId, aggregate: AggregateId)
    | Finish(id: AttemptId, envelope: Envelope)
    | Read(id: AttemptId)
    | Commit(id: AttemptId)
    | RollBack(id: AttemptId, why: Refusal)  // the command threw, the commit failed, the process died
    | Publish(id: AttemptId)
    | Die(id: AttemptId)                     // the process dies between the commit and the events
    | Purge(scope: Scope)

  predicate In(s: State, id: AttemptId) { id in s.attempts }

  function PhaseOf(s: State, id: AttemptId): Phase
    requires In(s, id)
  {
    s.attempts[id].phase
  }

  function ScopeOf(s: State, id: AttemptId): Scope
    requires In(s, id)
  {
    s.attempts[id].request.scope
  }

  predicate Enabled(s: State, step: Step) {
    match step
    case Open(id, _) => !In(s, id)
    case Insert(id) =>
      In(s, id) && PhaseOf(s, id).Opened? && ScopeOf(s, id) !in s.rows && ScopeOf(s, id) !in s.holders
    case Conflict(id) => In(s, id) && PhaseOf(s, id).Opened? && ScopeOf(s, id) in s.rows
    case TimeOut(id) => In(s, id) && PhaseOf(s, id).Opened? && ScopeOf(s, id) in s.holders
    case Write(id, _) => In(s, id) && PhaseOf(s, id).Claimed?
    case Finish(id, _) => In(s, id) && PhaseOf(s, id).Claimed?
    case Read(id) => In(s, id) && PhaseOf(s, id).Conflicted?
    case Commit(id) => In(s, id) && (PhaseOf(s, id).Filled? || PhaseOf(s, id).Replaying?)
    case RollBack(id, _) => In(s, id) && !PhaseOf(s, id).Over? && !PhaseOf(s, id).Done?
    case Publish(id) => In(s, id) && PhaseOf(s, id).Done? && PhaseOf(s, id).unpublished != []
    case Die(id) => In(s, id) && PhaseOf(s, id).Done?
    case Purge(scope) => scope in s.rows
  }

  function SetPhase(s: State, id: AttemptId, phase: Phase): State
    requires In(s, id)
  {
    s.(attempts := s.attempts[id := s.attempts[id].(phase := phase)])
  }

  /** The `written` set of a transaction: an aggregate saved twice is in it once. */
  function Tracked(written: seq<AggregateId>, aggregate: AggregateId): seq<AggregateId> {
    if aggregate in written then written else written + [aggregate]
  }

  /** `replay`: the stored answer, or why there is none to give. */
  function Replay(s: State, id: AttemptId): Phase
    requires In(s, id)
  {
    var request := s.attempts[id].request;
    if request.scope !in s.rows || !s.rows[request.scope].state.Completed? then Over(StillInFlight)
    else if s.rows[request.scope].fingerprint != request.fingerprint then Over(KeyReused)
    else Replaying(s.rows[request.scope].state.envelope)
  }

  function Take(s: State, step: Step): State
    requires Enabled(s, step)
  {
    match step
    case Open(id, request) => s.(attempts := s.attempts[id := Attempt(request, Opened)])
    case Insert(id) => SetPhase(s, id, Claimed([])).(holders := s.holders[ScopeOf(s, id) := id])
    case Conflict(id) => SetPhase(s, id, Conflicted)
    case TimeOut(id) => SetPhase(s, id, Over(StillInFlight))
    case Write(id, aggregate) => SetPhase(s, id, Claimed(Tracked(PhaseOf(s, id).written, aggregate)))
    case Finish(id, envelope) => SetPhase(s, id, Filled(PhaseOf(s, id).written, envelope))
    case Read(id) =>
      var phase := Replay(s, id);
      var read := if phase.Replaying? then [Replayed(id, s.attempts[id].request, phase.envelope)] else [];
      SetPhase(s, id, phase).(log := s.log + read)
    case Commit(id) =>
      var request, phase := s.attempts[id].request, PhaseOf(s, id);
      if phase.Replaying? then SetPhase(s, id, Done(phase.envelope, true, []))
      else
        SetPhase(s, id, Done(phase.envelope, false, phase.written)).(
          rows := s.rows[request.scope := Row(request.fingerprint, Completed(request.statusCode, phase.envelope))],
          holders := s.holders - {request.scope},
          writes := s.writes[id := phase.written],
          log := s.log + [Ran(id, request, phase.envelope, phase.written)])
    case RollBack(id, why) =>
      var over := SetPhase(s, id, Over(why));
      if PhaseOf(s, id).Claimed? || PhaseOf(s, id).Filled? then over.(holders := s.holders - {ScopeOf(s, id)})
      else over
    case Publish(id) =>
      var phase := PhaseOf(s, id);
      SetPhase(s, id, phase.(unpublished := phase.unpublished[1..])).(
        log := s.log + [Published(id, phase.unpublished[0])])
    case Die(id) => SetPhase(s, id, PhaseOf(s, id).(unpublished := []))
    case Purge(scope) => s.(rows := s.rows - {scope}, log := s.log + [Purged(scope)])
  }

  function After(run: seq<Step>): Option<State> {
    if run == [] then Some(Initial())
    else
      match After(run[..|run| - 1])
      case None => None
      case Some(s) => if Enabled(s, run[|run| - 1]) then Some(Take(s, run[|run| - 1])) else None
  }

  // ---------- what the log says of a scope ----------

  predicate Settles(entry: Entry, scope: Scope) {
    (entry.Ran? && entry.request.scope == scope) || entry == Purged(scope)
  }

  /** The run that still answers for the scope: its last commit, unless it was purged since. */
  function Standing(log: seq<Entry>, scope: Scope): (r: Option<Entry>)
    ensures r.Some? ==> r.value.Ran? && r.value.request.scope == scope && r.value in log
  {
    if log == [] then None
    else
      var last := log[|log| - 1];
      if Settles(last, scope) then (if last.Ran? then Some(last) else None)
      else Standing(log[..|log| - 1], scope)
  }

  lemma StandingOneMore(log: seq<Entry>, entry: Entry, scope: Scope)
    ensures Standing(log + [entry], scope) ==
              if Settles(entry, scope) then (if entry.Ran? then Some(entry) else None) else Standing(log, scope)
  {
    assert (log + [entry])[..|log|] == log;
  }

  /** Each entry is one the state before it allows. */
  ghost predicate Justified(before: seq<Entry>, entry: Entry) {
    match entry
    case Ran(id, request, _, _) => Standing(before, request.scope) == None && (forall e :: e in before ==> e.Ran? ==> e.id != id)
    case Replayed(_, request, envelope) =>
      && Standing(before, request.scope).Some?
      && Standing(before, request.scope).value.request.fingerprint == request.fingerprint
      && Standing(before, request.scope).value.envelope == envelope
    case Purged(_) => true
    case Published(id, aggregate) =>
      && (exists e :: e in before && e.Ran? && e.id == id && aggregate in e.written)
      && entry !in before
  }

  ghost predicate LogJustified(log: seq<Entry>) {
    forall i :: 0 <= i < |log| ==> Justified(log[..i], log[i])
  }

  // ---------- what every run keeps ----------

  /** An attempt holds its scope exactly while its own row is inserted and not committed. */
  ghost predicate HoldsItsScope(s: State, id: AttemptId) {
    In(s, id) ==>
      ((PhaseOf(s, id).Claimed? || PhaseOf(s, id).Filled?) <==>
       (ScopeOf(s, id) in s.holders && s.holders[ScopeOf(s, id)] == id))
  }

  /** The constraint, and that a committed row is the completed one of the scope's standing run. */
  ghost predicate RowStands(s: State, scope: Scope) {
    && (scope in s.holders ==> In(s, s.holders[scope]) && ScopeOf(s, s.holders[scope]) == scope && scope !in s.rows)
    && RowOf(s, scope) == RowFor(Standing(s.log, scope))
  }

  function RowOf(s: State, scope: Scope): Option<Row> {
    if scope in s.rows then Some(s.rows[scope]) else None
  }

  /** The record a run leaves: its fingerprint, and its answer completed. */
  function RowFor(run: Option<Entry>): Option<Row>
    requires run.Some? ==> run.value.Ran?
  {
    match run
    case None => None
    case Some(ran) => Some(Row(ran.request.fingerprint, Completed(ran.request.statusCode, ran.envelope)))
  }

  ghost predicate NoRepeat(ids: seq<AggregateId>) {
    forall i, j :: 0 <= i < j < |ids| ==> ids[i] != ids[j]
  }

  ghost predicate AllIn(some: seq<AggregateId>, others: seq<AggregateId>) {
    forall a :: a in some ==> a in others
  }

  ghost predicate ReplayedWith(log: seq<Entry>, id: AttemptId, request: Request, envelope: Envelope) {
    Replayed(id, request, envelope) in log
  }

  /** What an attempt's phase says of the log: who ran, who replayed, whose events are still to go. */
  ghost predicate PhaseAgrees(s: State, id: AttemptId) {
    if !In(s, id) then
      id !in s.writes && (forall e :: e in s.log ==> !(e.Ran? && e.id == id) && !(e.Published? && e.id == id))
    else
      var request, phase := s.attempts[id].request, PhaseOf(s, id);
      && (!(phase.Done? && !phase.replayed) ==>
            id !in s.writes && (forall e :: e in s.log ==> !(e.Ran? && e.id == id) && !(e.Published? && e.id == id)))
      && (phase.Claimed? || phase.Filled? ==> NoRepeat(phase.written))
      && (phase.Replaying? ==> ReplayedWith(s.log, id, request, phase.envelope))
      && (phase.Done? && phase.replayed ==>
            phase.unpublished == [] && ReplayedWith(s.log, id, request, phase.envelope))
      && (phase.Done? && !phase.replayed ==>
            && id in s.writes
            && Ran(id, request, phase.envelope, s.writes[id]) in s.log
            && AllIn(phase.unpublished, s.writes[id])
            && NoRepeat(phase.unpublished)
            && (forall a :: a in phase.unpublished ==> Published(id, a) !in s.log))
  }

  ghost predicate Consistent(s: State) {
    && (forall id :: HoldsItsScope(s, id))
    && (forall scope :: RowStands(s, scope))
    && (forall id :: PhaseAgrees(s, id))
    && LogJustified(s.log)
  }

  lemma OthersUntouched(s: State, step: Step, id: AttemptId)
    requires Enabled(s, step) && (step.Purge? || step.id != id)
    ensures In(s, id) <==> In(Take(s, step), id)
    ensures In(s, id) ==> Take(s, step).attempts[id] == s.attempts[id]
    ensures id in s.writes <==> id in Take(s, step).writes
    ensures id in s.writes ==> Take(s, step).writes[id] == s.writes[id]
  {
  }

  lemma HolderAfter(s: State, step: Step, scope: Scope)
    requires Enabled(s, step)
    ensures var t := Take(s, step);
      if step.Insert? && ScopeOf(s, step.id) == scope then scope in t.holders && t.holders[scope] == step.id && t.rows == s.rows
      else
        && (scope in t.holders <==> scope in s.holders && !Releases(s, step, scope))
        && (scope in t.holders ==> t.holders[scope] == s.holders[scope])
  {
  }

  /** The step ends the transaction that holds the scope. */
  ghost predicate Releases(s: State, step: Step, scope: Scope)
    requires Enabled(s, step)
  {
    && (step.Commit? || step.RollBack?) && scope == ScopeOf(s, step.id)
    && (PhaseOf(s, step.id).Claimed? || PhaseOf(s, step.id).Filled?)
  }

  lemma StepKeepsHolding(s: State, step: Step, id: AttemptId)
    requires HoldsItsScope(s, id) && Enabled(s, step)
    requires !step.Purge? && !step.Open? ==> HoldsItsScope(s, step.id) && RowStands(s, ScopeOf(s, step.id))
    requires step.Open? ==> RowStands(s, step.request.scope)
    ensures HoldsItsScope(Take(s, step), id)
  {
    if !step.Purge? && step.id == id {
      StepperHolds(s, step);
    } else if In(s, id) {
      OthersUntouched(s, step, id);
      HolderAfter(s, step, ScopeOf(s, id));
    }
  }

  lemma StepperHolds(s: State, step: Step)
    requires Enabled(s, step) && !step.Purge? && HoldsItsScope(s, step.id)
    requires RowStands(s, if step.Open? then step.request.scope else ScopeOf(s, step.id))
    ensures HoldsItsScope(Take(s, step), step.id)
  {
    HolderAfter(s, step, if step.Open? then step.request.scope else ScopeOf(s, step.id));
  }

  /** The step's entry, if it makes one. */
  function EntryOf(s: State, step: Step): Option<Entry>
    requires Enabled(s, step)
  {
    if |Take(s, step).log| == |s.log| then None else Some(Take(s, step).log[|s.log|])
  }

  lemma LogOneMore(s: State, step: Step)
    requires Enabled(s, step)
    ensures EntryOf(s, step).None? ==> Take(s, step).log == s.log
    ensures EntryOf(s, step).Some? ==> Take(s, step).log == s.log + [EntryOf(s, step).value]
    ensures EntryOf(s, step).Some? && EntryOf(s, step).value.Ran? ==> step.Commit? && PhaseOf(s, step.id).Filled?
  {
  }

  /** Only a command's commit and a purge change which run stands for a scope. */
  lemma StandingAfter(s: State, step: Step, scope: Scope)
    requires Enabled(s, step)
    ensures Standing(Take(s, step).log, scope) ==
      if step == Purge(scope) then None
      else if step.Commit? && PhaseOf(s, step.id).Filled? && ScopeOf(s, step.id) == scope then EntryOf(s, step)
      else Standing(s.log, scope)
  {
    LogOneMore(s, step);
    if EntryOf(s, step).Some? {
      StandingOneMore(s.log, EntryOf(s, step).value, scope);
    }
  }

  lemma RowAfter(s: State, step: Step, scope: Scope)
    requires RowStands(s, scope) && Enabled(s, step)
    ensures RowOf(Take(s, step), scope) == RowFor(Standing(Take(s, step).log, scope))
  {
    StandingAfter(s, step, scope);
  }

  lemma StepKeepsRow(s: State, step: Step, scope: Scope)
    requires RowStands(s, scope) && Enabled(s, step)
    requires !step.Purge? && !step.Open? ==> HoldsItsScope(s, step.id) && RowStands(s, ScopeOf(s, step.id))
    ensures RowStands(Take(s, step), scope)
  {
    RowAfter(s, step, scope);
    HolderAfter(s, step, scope);
    if scope in Take(s, step).holders && (step.Purge? || step.id != Take(s, step).holders[scope]) {
      OthersUntouched(s, step, Take(s, step).holders[scope]);
    }
  }

  lemma EntryIsJustified(s: State, step: Step)
    requires Consistent(s) && Enabled(s, step) && EntryOf(s, step).Some?
    ensures Justified(s.log, EntryOf(s, step).value)
  {
    if !step.Purge? {
      assert HoldsItsScope(s, step.id) && RowStands(s, ScopeOf(s, step.id)) && PhaseAgrees(s, step.id);
    }
  }

  lemma StepKeepsLogJustified(s: State, step: Step)
    requires Consistent(s) && Enabled(s, step)
    ensures LogJustified(Take(s, step).log)
  {
    var log := Take(s, step).log;
    LogOneMore(s, step);
    forall i | 0 <= i < |log| ensures Justified(log[..i], log[i]) {
      if i < |s.log| {
        assert log[..i] == s.log[..i];
      } else {
        assert log[..i] == s.log;
        EntryIsJustified(s, step);
      }
    }
  }

  /** Nothing an attempt does changes what another's phase says. */
  lemma OthersAgree(s: State, step: Step, id: AttemptId)
    requires PhaseAgrees(s, id) && Enabled(s, step) && (step.Purge? || step.id != id)
    ensures PhaseAgrees(Take(s, step), id)
  {
    var t := Take(s, step);
    LogOneMore(s, step);
    OthersUntouched(s, step, id);
  }

  lemma StepperAgrees(s: State, step: Step)
    requires !step.Purge? && PhaseAgrees(s, step.id) && Enabled(s, step)
    ensures PhaseAgrees(Take(s, step), step.id)
  {
    var t, id := Take(s, step), step.id;
    LogOneMore(s, step);
    if step.Commit? && PhaseOf(s, id).Filled? {
      assert t.log[|s.log|] in t.log;
    }
  }

  lemma StepKeepsConsistent(s: State, step: Step)
    requires Consistent(s) && Enabled(s, step)
    ensures Consistent(Take(s, step))
  {
    var t := Take(s, step);
    if step.Open? {
      assert RowStands(s, step.request.scope);
    } else if !step.Purge? {
      assert HoldsItsScope(s, step.id) && RowStands(s, ScopeOf(s, step.id));
    }
    forall id ensures HoldsItsScope(t, id) {
      assert HoldsItsScope(s, id);
      StepKeepsHolding(s, step, id);
    }
    forall scope ensures RowStands(t, scope) {
      assert RowStands(s, scope);
      StepKeepsRow(s, step, scope);
    }
    forall id ensures PhaseAgrees(t, id) {
      assert PhaseAgrees(s, id);
      if !step.Purge? && step.id == id { StepperAgrees(s, step); } else { OthersAgree(s, step, id); }
    }
    StepKeepsLogJustified(s, step);
  }

  lemma {:induction false} EveryRunIsConsistent(run: seq<Step>)
    requires After(run).Some?
    ensures Consistent(After(run).value)
  {
    if run != [] {
      EveryRunIsConsistent(run[..|run| - 1]);
      StepKeepsConsistent(After(run[..|run| - 1]).value, run[|run| - 1]);
    }
  }

  // ---------- the statements ----------

  /** A standing run is the last of its scope, with nothing settling the scope after it. */
  lemma {:induction false} StandingIsTheLast(log: seq<Entry>, scope: Scope) returns (i: nat)
    requires Standing(log, scope).Some?
    ensures i < |log| && log[i] == Standing(log, scope).value
    ensures forall j :: i < j < |log| ==> !Settles(log[j], scope)
  {
    var last := |log| - 1;
    if Settles(log[last], scope) {
      i := last;
    } else {
      i := StandingIsTheLast(log[..last], scope);
    }
  }

  lemma {:induction false} UnsettledMeansPurged(log: seq<Entry>, scope: Scope, i: nat) returns (k: nat)
    requires i < |log| && log[i].Ran? && log[i].request.scope == scope && Standing(log, scope).None?
    ensures i < k < |log| && log[k] == Purged(scope)
  {
    var last := |log| - 1;
    if Settles(log[last], scope) {
      k := last;
    } else {
      k := UnsettledMeansPurged(log[..last], scope, i);
    }
  }

  /** In every interleaving, a scope's command commits at most once between two purges of its record. */
  lemma AtMostOneRunBetweenPurges(run: seq<Step>, i: nat, j: nat)
    requires After(run).Some?
    requires i < j < |After(run).value.log|
    requires After(run).value.log[i].Ran? && After(run).value.log[j].Ran?
    requires After(run).value.log[i].request.scope == After(run).value.log[j].request.scope
    ensures exists k :: i < k < j && After(run).value.log[k] == Purged(After(run).value.log[i].request.scope)
  {
    var log := After(run).value.log;
    EveryRunIsConsistent(run);
    assert Justified(log[..j], log[j]);
    var k := UnsettledMeansPurged(log[..j], log[i].request.scope, i);
  }

  /**
   * Every replayed answer is the envelope of the run that stood for its scope when it was read, of a
   * request with the same fingerprint, nothing having run or been purged in between.
   */
  lemma ReplaysAnswerTheStandingRun(run: seq<Step>, id: AttemptId)
    requires After(run).Some? && id in After(run).value.attempts
    ensures var s := After(run).value;
      var Attempt(request, phase) := s.attempts[id];
      phase.Done? && phase.replayed ==>
        exists i, j :: 0 <= i < j < |s.log| && s.log[i].Ran? && s.log[i].request.scope == request.scope
          && s.log[i].request.fingerprint == request.fingerprint && s.log[i].envelope == phase.envelope
          && s.log[j] == Replayed(id, request, phase.envelope)
          && (forall k :: i < k < j ==> !Settles(s.log[k], request.scope))
  {
    var s := After(run).value;
    EveryRunIsConsistent(run);
    var Attempt(request, phase) := s.attempts[id];
    assert PhaseAgrees(s, id);
    if phase.Done? && phase.replayed {
      var j :| 0 <= j < |s.log| && s.log[j] == Replayed(id, request, phase.envelope);
      var i := StandingRunBefore(s.log, j);
    }
  }

  /** The run a replay was read from: the last of its scope before it, of the same fingerprint and answer. */
  lemma StandingRunBefore(log: seq<Entry>, j: nat) returns (i: nat)
    requires LogJustified(log) && j < |log| && log[j].Replayed?
    ensures i < j && log[i].Ran? && log[i].request.scope == log[j].request.scope
    ensures log[i].request.fingerprint == log[j].request.fingerprint && log[i].envelope == log[j].envelope
    ensures forall k :: i < k < j ==> !Settles(log[k], log[j].request.scope)
  {
    assert Justified(log[..j], log[j]);
    i := StandingIsTheLast(log[..j], log[j].request.scope);
    assert log[i] == log[..j][i];
    forall k | i < k < j ensures !Settles(log[k], log[j].request.scope) {
      assert log[k] == log[..j][k];
    }
  }

  /** While a run stands for the scope no other attempt's command runs, whatever its fingerprint. */
  lemma NoCommandRunsBesideAStandingRecord(run: seq<Step>, id: AttemptId)
    requires After(run).Some? && id in After(run).value.attempts
    ensures var s := After(run).value;
      PhaseOf(s, id).Claimed? || PhaseOf(s, id).Filled? ==>
        && Standing(s.log, ScopeOf(s, id)).None?
        && (forall other :: other in s.attempts && other != id && ScopeOf(s, other) == ScopeOf(s, id) ==>
              !PhaseOf(s, other).Claimed? && !PhaseOf(s, other).Filled?)
  {
    var s := After(run).value;
    EveryRunIsConsistent(run);
    assert HoldsItsScope(s, id) && RowStands(s, ScopeOf(s, id));
    forall other | other in s.attempts && other != id && ScopeOf(s, other) == ScopeOf(s, id)
      ensures PhaseOf(s, id).Claimed? || PhaseOf(s, id).Filled? ==> !PhaseOf(s, other).Claimed? && !PhaseOf(s, other).Filled?
    {
      assert HoldsItsScope(s, other);
    }
  }

  /** A read of another fingerprint's record is refused; it neither runs nor answers. */
  lemma AnotherFingerprintIsRefused(run: seq<Step>, id: AttemptId)
    requires After(run).Some? && id in After(run).value.attempts
    requires Enabled(After(run).value, Read(id))
    ensures var s := After(run).value;
      var phase := PhaseOf(Take(s, Read(id)), id);
      match Standing(s.log, ScopeOf(s, id))
      case None => phase == Over(StillInFlight)
      case Some(standing) =>
        if standing.request.fingerprint == s.attempts[id].request.fingerprint then phase == Replaying(standing.envelope)
        else phase == Over(KeyReused)
  {
    var s := After(run).value;
    EveryRunIsConsistent(run);
    assert RowStands(s, ScopeOf(s, id));
  }

  /** A rolled-back claim leaves its key free: any attempt waiting on it may insert at once. */
  lemma RollBackFreesTheKey(run: seq<Step>, id: AttemptId, why: Refusal, waiting: AttemptId)
    requires After(run).Some? && id in After(run).value.attempts && waiting in After(run).value.attempts
    requires PhaseOf(After(run).value, id).Claimed? || PhaseOf(After(run).value, id).Filled?
    requires PhaseOf(After(run).value, waiting).Opened?
    requires ScopeOf(After(run).value, waiting) == ScopeOf(After(run).value, id)
    ensures Enabled(After(run).value, RollBack(id, why))
    ensures Enabled(Take(After(run).value, RollBack(id, why)), Insert(waiting))
    ensures Take(After(run).value, RollBack(id, why)).rows == After(run).value.rows
    ensures Take(After(run).value, RollBack(id, why)).writes == After(run).value.writes
  {
    EveryRunIsConsistent(run);
    assert HoldsItsScope(After(run).value, id) && RowStands(After(run).value, ScopeOf(After(run).value, id));
  }

  lemma AnAttemptRunsOnce(log: seq<Entry>, e: Entry, f: Entry)
    requires LogJustified(log) && e in log && f in log && e.Ran? && f.Ran? && e.id == f.id
    ensures e == f
  {
    var i :| 0 <= i < |log| && log[i] == e;
    var j :| 0 <= j < |log| && log[j] == f;
    assert Justified(log[..i], e) && Justified(log[..j], f);
  }

  /**
   * The command's writes are committed exactly when its record is, and a committed record always
   * holds its answer, so neither is ever found without the other.
   */
  lemma WritesAndRecordCommitTogether(run: seq<Step>)
    requires After(run).Some?
    ensures var s := After(run).value;
      && (forall scope :: scope in s.rows ==>
            && s.rows[scope].state.Completed? && Standing(s.log, scope).Some?
            && s.rows[scope].state.envelope == Standing(s.log, scope).value.envelope
            && Standing(s.log, scope).value.id in s.writes)
      && (forall id :: id in s.writes <==> exists e :: e in s.log && e.Ran? && e.id == id)
      && (forall e :: e in s.log && e.Ran? ==> s.writes[e.id] == e.written)
  {
    var s := After(run).value;
    EveryRunIsConsistent(run);
    forall id ensures id in s.writes <==> exists e :: e in s.log && e.Ran? && e.id == id {
      assert PhaseAgrees(s, id);
    }
    forall e | e in s.log && e.Ran? ensures s.writes[e.id] == e.written {
      assert PhaseAgrees(s, e.id);
      AnAttemptRunsOnce(s.log, e, Ran(e.id, s.attempts[e.id].request, PhaseOf(s, e.id).envelope, s.writes[e.id]));
    }
    forall scope | scope in s.rows
      ensures s.rows[scope].state.Completed? && Standing(s.log, scope).Some?
      ensures s.rows[scope].state.envelope == Standing(s.log, scope).value.envelope
      ensures Standing(s.log, scope).value.id in s.writes
    {
      assert RowStands(s, scope);
    }
  }

  /**
   * Domain events go out after the commit of the transaction that wrote their aggregate, at most once
   * per aggregate, and never for a replay, a refusal or a rollback.
   */
  lemma EventsFollowTheCommitOnce(run: seq<Step>, j: nat)
    requires After(run).Some? && j < |After(run).value.log| && After(run).value.log[j].Published?
    ensures var s := After(run).value;
      var Published(id, aggregate) := s.log[j];
      && (exists i :: 0 <= i < j && s.log[i].Ran? && s.log[i].id == id && aggregate in s.log[i].written)
      && (forall k :: 0 <= k < |s.log| && k != j ==> s.log[k] != s.log[j])
      && id in s.attempts && PhaseOf(s, id).Done? && !PhaseOf(s, id).replayed
  {
    var s := After(run).value;
    var Published(id, aggregate) := s.log[j];
    EveryRunIsConsistent(run);
    assert Justified(s.log[..j], s.log[j]) && PhaseAgrees(s, id);
    var e :| e in s.log[..j] && e.Ran? && e.id == id && aggregate in e.written;
    var i :| 0 <= i < j && s.log[..j][i] == e;
    assert s.log[i] == e;
    forall k | 0 <= k < |s.log| && k != j ensures s.log[k] != s.log[j] {
      assert Justified(s.log[..k], s.log[k]);
      if k < j {
        assert s.log[..j][k] == s.log[k];
      } else {
        assert s.log[..k][j] == s.log[j];
      }
    }
  }

  // ---------- every event goes out ----------

  /** The events of what a committed run wrote are out, or still to go. */
  ghost predicate AllAccountedFor(s: State, id: AttemptId) {
    In(s, id) && PhaseOf(s, id).Done? && !PhaseOf(s, id).replayed && id in s.writes ==>
      forall a :: a in s.writes[id] ==> a in PhaseOf(s, id).unpublished || Published(id, a) in s.log
  }

  lemma StepKeepsAllAccountedFor(s: State, step: Step, id: AttemptId)
    requires AllAccountedFor(s, id) && PhaseAgrees(s, id) && Enabled(s, step) && step != Die(id)
    ensures AllAccountedFor(Take(s, step), id)
  {
    LogOneMore(s, step);
    if step.Purge? || step.id != id {
      OthersUntouched(s, step, id);
    } else if step.Publish? {
      var t, unpublished := Take(s, step), PhaseOf(s, id).unpublished;
      assert unpublished == [unpublished[0]] + unpublished[1..];
      assert t.log[|s.log|] == Published(id, unpublished[0]);
    }
  }

  /** Unless its process dies after the commit, every aggregate a run wrote has its events out or about to go. */
  lemma {:induction false} EveryWrittenAggregateIsPublished(run: seq<Step>, id: AttemptId)
    requires After(run).Some? && Die(id) !in run
    ensures AllAccountedFor(After(run).value, id)
  {
    if run != [] {
      var before := run[..|run| - 1];
      EveryWrittenAggregateIsPublished(before, id);
      EveryRunIsConsistent(before);
      assert PhaseAgrees(After(before).value, id);
      StepKeepsAllAccountedFor(After(before).value, run[|run| - 1], id);
    }
  }

  // ---------- no attempt is stuck ----------

  /** The row an attempt leaves when it commits. */
  function RowLeft(request: Request, envelope: Envelope): Row {
    Row(request.fingerprint, Completed(request.statusCode, envelope))
  }

  /**
   * In every interleaving an attempt can go on: it inserts, meets a committed row or has another to
   * wait on, and exactly one of the three; a running command can finish, and its commit leaves its
   * record and its writes; a conflict is read; a replay is given.
   */
  lemma EveryAttemptCanGoOn(run: seq<Step>, id: AttemptId, envelope: Envelope)
    requires After(run).Some? && id in After(run).value.attempts
    ensures var s := After(run).value;
      var request := s.attempts[id].request;
      match PhaseOf(s, id)
      case Opened =>
        && (Enabled(s, Insert(id)) <==> !Enabled(s, Conflict(id)) && !Enabled(s, TimeOut(id)))
        && !(Enabled(s, Conflict(id)) && Enabled(s, TimeOut(id)))
        && (Enabled(s, Insert(id)) ==> PhaseOf(Take(s, Insert(id)), id) == Claimed([]))
        && (Enabled(s, Conflict(id)) ==> PhaseOf(Take(s, Conflict(id)), id) == Conflicted)
        && (Enabled(s, TimeOut(id)) ==> PhaseOf(Take(s, TimeOut(id)), id) == Over(StillInFlight))
      case Claimed(written) =>
        Enabled(s, Finish(id, envelope)) && PhaseOf(Take(s, Finish(id, envelope)), id) == Filled(written, envelope)
      case Filled(written, filled) =>
        && Enabled(s, Commit(id))
        && var t := Take(s, Commit(id));
           && PhaseOf(t, id) == Done(filled, false, written) && id in t.writes && t.writes[id] == written
           && request.scope in t.rows && t.rows[request.scope] == RowLeft(request, filled)
      case Conflicted => Enabled(s, Read(id))
      case Replaying(stored) =>
        Enabled(s, Commit(id)) && PhaseOf(Take(s, Commit(id)), id) == Done(stored, true, [])
      case Done(_, _, unpublished) =>
        unpublished != [] ==>
          && Enabled(s, Publish(id))
          && Take(s, Publish(id)).log == s.log + [Published(id, unpublished[0])]
          && PhaseOf(Take(s, Publish(id)), id).unpublished == unpublished[1..]
      case Over(_) => true
  {
    EveryRunIsConsistent(run);
    assert RowStands(After(run).value, ScopeOf(After(run).value, id));
  }

  /** Anyone may open an attempt, with any request, and any attempt not over may still be rolled back. */
  lemma AnyoneMayTry(s: State, id: AttemptId, request: Request, why: Refusal)
    ensures id !in s.attempts ==>
      Enabled(s, Open(id, request)) && Take(s, Open(id, request)).attempts == s.attempts[id := Attempt(request, Opened)]
    ensures id in s.attempts && !PhaseOf(s, id).Over? && !PhaseOf(s, id).Done? ==>
      Enabled(s, RollBack(id, why)) && PhaseOf(Take(s, RollBack(id, why)), id) == Over(why)
  {
  }

  /** A purge takes any committed record, and its scope is then free again for whoever opens next. */
  lemma APurgedKeyIsFree(run: seq<Step>, scope: Scope, id: AttemptId)
    requires After(run).Some? && scope in After(run).value.rows && id in After(run).value.attempts
    requires PhaseOf(After(run).value, id).Opened? && ScopeOf(After(run).value, id) == scope
    ensures Enabled(After(run).value, Purge(scope))
    ensures Enabled(Take(After(run).value, Purge(scope)), Insert(id))
  {
    EveryRunIsConsistent(run);
    assert RowStands(After(run).value, scope);
  }

  // ---------- one attempt's own code ----------

  /** What the step `Read` of the protocol answers, of the rows one attempt sees. */
  function ReplayAnswer(rows: map<Scope, Row>, request: Request): Answer {
    match Replay(State(rows, map[], map[0 := Attempt(request, Conflicted)], map[], []), 0)
    case Replaying(envelope) => Memorised(envelope, true)
    case Over(refusal) => Refused(refusal)
    case _ => Refused(Lost)
  }

  /** Every read of every run is answered as the method below answers it from the same rows. */
  lemma ReadsAreAnswered(run: seq<Step>, id: AttemptId)
    requires After(run).Some? && Enabled(After(run).value, Read(id))
    ensures var s := After(run).value;
      match PhaseOf(Take(s, Read(id)), id)
      case Replaying(envelope) => ReplayAnswer(s.rows, s.attempts[id].request) == Memorised(envelope, true)
      case Over(refusal) => ReplayAnswer(s.rows, s.attempts[id].request) == Refused(refusal)
      case _ => false
  {
  }

  /** How the wait on another transaction's uncommitted row ends, if there is one to wait on. */
  datatype WaitEnd = HolderCommits(row: Row) | HolderRollsBack | LockTimeout

  /** What the INSERT comes to: its row goes in, a committed one stands in the way, or it gives up. */
  datatype InsertAnswer = Inserted | Conflicting | TimedOut | Broken

  datatype CommandResult = Returned(envelope: Envelope) | Threw

  datatype Answer = Memorised(envelope: Envelope, replayed: bool) | Refused(refusal: Refusal)

  /** `idempotency_record` as one transaction sees and changes it. */
  class RecordTable {
    var rows: map<Scope, Row>
    /** The scopes other open transactions have inserted a row for. */
    var held: set<Scope>

    constructor (rows: map<Scope, Row>, held: set<Scope>)
      requires forall scope :: scope in held ==> scope !in rows
      ensures this.rows == rows && this.held == held && Constrained()
    {
      this.rows, this.held := rows, held;
    }

    /** One row to a scope, committed or not. */
    ghost predicate Constrained()
      reads this
    {
      forall scope :: scope in held ==> scope !in rows
    }

    /** The committed rows once the INSERT is done waiting: the holder's too, when it committed. */
    ghost function Awaited(scope: Scope, wait: WaitEnd): map<Scope, Row>
      reads this
    {
      if scope in held && wait.HolderCommits? then rows[scope := wait.row] else rows
    }

    /** No committed row has the scope once the wait is over, and whoever held it rolled back. */
    ghost predicate IsFree(scope: Scope, wait: WaitEnd)
      reads this
    {
      scope !in rows && (scope in held ==> wait.HolderRollsBack?)
    }

    /**
     * `claim`: this transaction's own row goes in exactly when the scope is free after the wait;
     * otherwise the table is as the holder left it.
     */
    method Claim(request: Request, wait: WaitEnd, fails: bool) returns (claimed: InsertAnswer)
      requires Constrained()
      modifies this
      ensures Constrained()
      ensures claimed.Broken? <==> fails
      ensures claimed.Inserted? <==> !fails && old(IsFree(request.scope, wait))
      ensures claimed.TimedOut? <==> !fails && request.scope in old(held) && wait.LockTimeout?
      ensures claimed.Broken? || claimed.TimedOut? ==> rows == old(rows) && held == old(held)
      ensures claimed.Inserted? ==> rows == old(rows)[request.scope := Row(request.fingerprint, InFlight)]
      ensures claimed.Conflicting? ==> request.scope in rows && rows == old(Awaited(request.scope, wait))
    {
      if fails {
        return Broken;
      }
      if request.scope in held {
        if wait.LockTimeout? {
          return TimedOut;
        }
        held := held - {request.scope};
        if wait.HolderCommits? {
          rows := rows[request.scope := wait.row];
        }
      }
      if request.scope in rows {
        return Conflicting;
      }
      rows := rows[request.scope := Row(request.fingerprint, InFlight)];
      claimed := Inserted;
    }

    /**
     * `runEnveloped`, decided case by case from the table as the INSERT finds it. The command runs
     * exactly when the scope is free, and its record is completed with its answer. Otherwise the
     * completed record of the same fingerprint is replayed, one of another fingerprint is refused as
     * reused, and everything else as in flight. `purged` says whether a purge came between the
     * conflict and the read.
     */
    method RunEnveloped(request: Request, wait: WaitEnd, fails: bool, purged: bool, command: CommandResult)
      returns (answer: Answer)
      requires Constrained()
      modifies this
      ensures Constrained()
      ensures fails ==> answer == Refused(Lost) && rows == old(rows)
      ensures !fails && request.scope in old(held) && wait.LockTimeout? ==>
                answer == Refused(StillInFlight) && rows == old(rows)
      ensures !fails && old(IsFree(request.scope, wait)) ==>
                match command
                case Returned(envelope) =>
                  && answer == Memorised(envelope, false)
                  && rows == old(rows)[request.scope := Row(request.fingerprint, Completed(request.statusCode, envelope))]
                case Threw =>
                  && answer == Refused(CommandFailed)
                  && rows == old(rows)[request.scope := Row(request.fingerprint, InFlight)]
      ensures var seen := old(Awaited(request.scope, wait));
        !fails && !old(IsFree(request.scope, wait)) && !(request.scope in old(held) && wait.LockTimeout?) ==>
          && request.scope in seen
          && var row := seen[request.scope];
             && rows == (if purged then seen - {request.scope} else seen)
             && (answer == Refused(StillInFlight) <==> purged || !row.state.Completed?)
             && (answer == Refused(KeyReused) <==>
                   !purged && row.state.Completed? && row.fingerprint != request.fingerprint)
             && (answer.Memorised? <==> !purged && row.state.Completed? && row.fingerprint == request.fingerprint)
             && (answer.Memorised? ==> answer == Memorised(row.state.envelope, true))
             && answer == ReplayAnswer(rows, request)
    {
      var claimed := Claim(request, wait, fails);
      match claimed
      case Broken => answer := Refused(Lost);
      case TimedOut => answer := Refused(StillInFlight);
      case Conflicting =>
        if purged {
          rows := rows - {request.scope};
        }
        if request.scope !in rows || !rows[request.scope].state.Completed? {
          answer := Refused(StillInFlight);
        } else if rows[request.scope].fingerprint != request.fingerprint {
          answer := Refused(KeyReused);
        } else {
          answer := Memorised(rows[request.scope].state.envelope, true);
        }
      case Inserted =>
        match command
        case Threw => answer := Refused(CommandFailed);
        case Returned(envelope) =>
          rows := rows[request.scope := rows[request.scope].(state := Completed(request.statusCode, envelope))];
          answer := Memorised(envelope, false);
    }
  }
}
