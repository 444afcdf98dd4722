/**
 * One date's two rows under concurrent transactions: any interleaving of loads, drafts, commands,
 * saves, commits and rollbacks. The row lock `findById` takes makes its two reads one; after that
 * nothing here relies on it, so what holds rests on the version alone.
 */
module DateInterleavings {
  import opened Options
  import opened CoreRules
  import opened Publication
  import opened PerformanceDates
  import DateRepositories

  /** A frozen snapshot object: its identity and what it holds. */
  datatype Snapshot = Snapshot(reference: nat, facts: DateFacts)

  datatype Rows = Rows(facts: DateFacts, publication: PublicationSnapshot)

  /** An aggregate in the hands of a transaction, with what its repository remembers of it. */
  datatype Handle = Handle(
    transaction: nat, loadedVersion: Option<int>, stored: Snapshot, current: Snapshot, publication: PublicationSnapshot)

  /** The open transaction that wrote the publication row, which others' UPDATE waits on. */
  datatype Writer = Writer(transaction: nat, rows: Rows)

  datatype State = State(
    committed: Option<Rows>, writer: Option<Writer>, handles: map<nat, Handle>, nextReference: nat)

  function Initial(): State { State(None, None, map[], 0) }

  datatype Step =
    | Load(handle: nat, transaction: nat)
    | DraftDate(handle: nat, transaction: nat, draft: DateDraft, now: Instant)
    | Perform(handle: nat, act: Act)
    | Save(handle: nat)
    | Commit(transaction: nat)
    | RollBack(transaction: nat)

  /** What a transaction reads: its own writes, or what is committed. */
  function Visible(s: State, transaction: nat): Option<Rows> {
    if s.writer.Some? && s.writer.value.transaction == transaction then Some(s.writer.value.rows) else s.committed
  }

  predicate Enabled(s: State, step: Step) {
    match step
    case Load(h, transaction) => h !in s.handles && Visible(s, transaction).Some?
    case DraftDate(h, _, _, _) => h !in s.handles
    case Perform(h, _) => h in s.handles
    case Save(h) => h in s.handles && (s.writer.Some? ==> s.writer.value.transaction == s.handles[h].transaction)
    case Commit(_) => true
    case RollBack(_) => true
  }

  /** An act replaces the snapshot object when it publishes or declares an outcome. */
  predicate Replaces(rules: Rules, d: DateValue, act: Act) {
    act.DeclareOutcome? ||
    (act.TransitionPublication? && AnswerTo(rules, d, act).Moved? && AnswerTo(rules, d, act).date.facts != d.facts)
  }

  function ValueOf(h: Handle): DateValue { DateValue(h.current.facts, h.publication, []) }

  function Performed(rules: Rules, s: State, h: Handle, act: Act): Handle {
    match AnswerTo(rules, ValueOf(h), act)
    case Moved(date) =>
      var current := if Replaces(rules, ValueOf(h), act) then Snapshot(s.nextReference, date.facts)
                     else h.current;
      h.(current := current, publication := date.publication)
    case _ => h
  }

  function StoredVersion(rows: Option<Rows>): Option<int> {
    if rows.Some? then Some(rows.value.publication.version) else None
  }

  /** Whether the save goes through: an insert where there is nothing, or an UPDATE at the loaded version. */
  predicate Saves(s: State, h: Handle) {
    DateRepositories.GoesThrough(h.loadedVersion, StoredVersion(Visible(s, h.transaction)))
  }

  /** The rows `save` leaves, the date's written only when its reference changed. */
  function SkippingSave(s: State, h: Handle): Rows
    requires Saves(s, h)
  {
    if h.loadedVersion.None? || h.current.reference != h.stored.reference then Rows(h.current.facts, h.publication)
    else Rows(Visible(s, h.transaction).value.facts, h.publication)
  }

  /** The rows a save that always wrote both would leave. */
  function WholeSave(h: Handle): Rows { Rows(h.current.facts, h.publication) }

  function WithoutHandlesOf(s: State, transaction: nat): map<nat, Handle> {
    map h | h in s.handles && s.handles[h].transaction != transaction :: s.handles[h]
  }

  /** One step, with either save. */
  function Take(rules: Rules, s: State, step: Step, skipping: bool): State
    requires Enabled(s, step)
  {
    match step
    case Load(h, transaction) =>
      var rows := Visible(s, transaction).value;
      var read := Snapshot(s.nextReference, rows.facts);
      s.(handles := s.handles[h := Handle(transaction, Some(rows.publication.version), read, read, rows.publication)],
         nextReference := s.nextReference + 1)
    case DraftDate(h, transaction, draft, now) =>
      var date := Drafted(draft, now);
      var made := Snapshot(s.nextReference, date.facts);
      s.(handles := s.handles[h := Handle(transaction, None, made, made, date.publication)],
         nextReference := s.nextReference + 1)
    case Perform(h, act) =>
      s.(handles := s.handles[h := Performed(rules, s, s.handles[h], act)], nextReference := s.nextReference + 1)
    case Save(h) =>
      var handle := s.handles[h];
      if !Saves(s, handle) then s
      else
        s.(writer := Some(Writer(handle.transaction, if skipping then SkippingSave(s, handle) else WholeSave(handle))),
           handles := s.handles[h := handle.(stored := handle.current, loadedVersion := Some(handle.publication.version))])
    case Commit(transaction) =>
      s.(committed := Visible(s, transaction),
         writer := if s.writer.Some? && s.writer.value.transaction == transaction then None else s.writer,
         handles := WithoutHandlesOf(s, transaction))
    case RollBack(transaction) =>
      s.(writer := if s.writer.Some? && s.writer.value.transaction == transaction then None else s.writer,
         handles := WithoutHandlesOf(s, transaction))
  }

  function After(rules: Rules, run: seq<Step>, skipping: bool): Option<State> {
    if run == [] then Some(Initial())
    else
      match After(rules, run[..|run| - 1], skipping)
      case None => None
      case Some(s) =>
        if Enabled(s, run[|run| - 1]) then Some(Take(rules, s, run[|run| - 1], skipping)) else None
  }

  // ---------- what every interleaving keeps ----------

  /** Later rows have a later version, or are the same rows. */
  ghost predicate NotBefore(earlier: Rows, later: Rows) {
    && earlier.publication.version <= later.publication.version
    && (earlier.publication.version == later.publication.version ==> earlier == later)
  }

  /** The handle's own memory: one reference, one content; one version, one publication. */
  ghost predicate Remembers(s: State, h: Handle) {
    && (h.stored.reference == h.current.reference ==> h.stored.facts == h.current.facts)
    && h.stored.reference < s.nextReference && h.current.reference < s.nextReference
    && (h.loadedVersion.Some? ==>
          && h.loadedVersion.value <= h.publication.version
          && (h.loadedVersion.value == h.publication.version ==> h.current.reference == h.stored.reference))
  }

  /** At the version it was loaded at, what the transaction sees is what the handle remembers. */
  ghost predicate CoherentWith(h: Handle, rows: Rows) {
    h.loadedVersion.Some? ==>
      && h.loadedVersion.value <= rows.publication.version
      && (h.loadedVersion.value == rows.publication.version ==>
            && h.stored.facts == rows.facts
            && (h.publication.version == rows.publication.version ==> h.publication == rows.publication))
  }

  ghost predicate HandleCoherent(s: State, h: Handle) {
    && Remembers(s, h)
    && (h.loadedVersion.Some? ==> Visible(s, h.transaction).Some? && CoherentWith(h, Visible(s, h.transaction).value))
  }

  ghost predicate Coherent(s: State) {
    && (forall h :: h in s.handles ==> HandleCoherent(s, s.handles[h]))
    && (s.writer.Some? && s.committed.Some? ==> NotBefore(s.committed.value, s.writer.value.rows))
  }

  /** Every act that moves the date moves its version on by one. */
  lemma ActAdvancesTheVersion(rules: Rules, d: DateValue, act: Act)
    requires AnswerTo(rules, d, act).Moved?
    ensures AnswerTo(rules, d, act).date.publication.version == d.publication.version + 1
    ensures !Replaces(rules, d, act) ==> AnswerTo(rules, d, act).date.facts == d.facts
  {
  }

  /** The skip is harmless: in a coherent state the rows left are the aggregate's own. */
  lemma SkippingSaveIsWhole(s: State, h: nat)
    requires Coherent(s) && h in s.handles && Saves(s, s.handles[h])
    ensures SkippingSave(s, s.handles[h]) == WholeSave(s.handles[h])
  {
    assert HandleCoherent(s, s.handles[h]);
  }

  lemma LaterRowsKeepCoherence(h: Handle, earlier: Rows, later: Rows)
    requires CoherentWith(h, earlier) && NotBefore(earlier, later)
    ensures CoherentWith(h, later)
  {
  }

  lemma SaveKeepsOrder(s: State, h: nat)
    requires Coherent(s) && h in s.handles && Saves(s, s.handles[h]) && s.handles[h].loadedVersion.Some?
    ensures NotBefore(Visible(s, s.handles[h].transaction).value, WholeSave(s.handles[h]))
  {
    assert HandleCoherent(s, s.handles[h]);
  }

  lemma StepKeepsHandle(rules: Rules, s: State, step: Step, skipping: bool, h: nat)
    requires Coherent(s) && Enabled(s, step) && h in Take(rules, s, step, skipping).handles
    ensures HandleCoherent(Take(rules, s, step, skipping), Take(rules, s, step, skipping).handles[h])
  {
    var t := Take(rules, s, step, skipping);
    if h in s.handles {
      assert HandleCoherent(s, s.handles[h]);
    }
    match step
    case Perform(p, act) =>
      if p == h && AnswerTo(rules, ValueOf(s.handles[h]), act).Moved? {
        ActAdvancesTheVersion(rules, ValueOf(s.handles[h]), act);
      }
    case Save(p) => SaveKeepsHandle(rules, s, p, skipping, h);
    case Commit(transaction) => CommitKeepsHandle(s, transaction, h);
    case _ =>
  }

  lemma SaveKeepsHandle(rules: Rules, s: State, p: nat, skipping: bool, h: nat)
    requires Coherent(s) && Enabled(s, Save(p)) && h in s.handles
    ensures var t := Take(rules, s, Save(p), skipping); HandleCoherent(t, t.handles[h])
  {
    assert HandleCoherent(s, s.handles[h]);
    var saver := s.handles[p];
    if Saves(s, saver) {
      SkippingSaveIsWhole(s, p);
      if h != p && s.handles[h].transaction == saver.transaction && s.handles[h].loadedVersion.Some? {
        if saver.loadedVersion.Some? {
          SaveKeepsOrder(s, p);
        }
        LaterRowsKeepCoherence(s.handles[h], Visible(s, saver.transaction).value, WholeSave(saver));
      }
    }
  }

  lemma CommitKeepsHandle(s: State, transaction: nat, h: nat)
    requires Coherent(s) && h in s.handles && s.handles[h].transaction != transaction
    ensures HandleCoherent(s.(committed := Visible(s, transaction),
                              writer := if s.writer.Some? && s.writer.value.transaction == transaction then None else s.writer,
                              handles := WithoutHandlesOf(s, transaction)), s.handles[h])
  {
    var handle := s.handles[h];
    assert HandleCoherent(s, handle);
    if handle.loadedVersion.Some? && s.writer.Some? && s.writer.value.transaction == transaction {
      LaterRowsKeepCoherence(handle, s.committed.value, s.writer.value.rows);
    }
  }

  lemma StepKeepsCoherent(rules: Rules, s: State, step: Step, skipping: bool)
    requires Coherent(s) && Enabled(s, step)
    ensures Coherent(Take(rules, s, step, skipping))
  {
    var t := Take(rules, s, step, skipping);
    forall h | h in t.handles ensures HandleCoherent(t, t.handles[h]) {
      StepKeepsHandle(rules, s, step, skipping, h);
    }
    if step.Save? && Saves(s, s.handles[step.handle]) {
      SkippingSaveIsWhole(s, step.handle);
      if s.handles[step.handle].loadedVersion.Some? {
        SaveKeepsOrder(s, step.handle);
      }
    }
  }

  lemma {:induction false} EveryInterleavingIsCoherent(rules: Rules, run: seq<Step>, skipping: bool)
    requires After(rules, run, skipping).Some?
    ensures Coherent(After(rules, run, skipping).value)
  {
    if run != [] {
      EveryInterleavingIsCoherent(rules, run[..|run| - 1], skipping);
      StepKeepsCoherent(rules, After(rules, run[..|run| - 1], skipping).value, run[|run| - 1], skipping);
    }
  }

  // ---------- the statements ----------

  /** Every interleaving ends in the same state whether the save skips the date row or always writes it. */
  lemma {:induction false} SkippingRefinesWritingBoth(rules: Rules, run: seq<Step>)
    ensures After(rules, run, true) == After(rules, run, false)
  {
    if run != [] {
      var before, step := run[..|run| - 1], run[|run| - 1];
      SkippingRefinesWritingBoth(rules, before);
      var reached := After(rules, before, true);
      if reached.Some? && Enabled(reached.value, step) && step.Save? {
        EveryInterleavingIsCoherent(rules, before, true);
        if Saves(reached.value, reached.value.handles[step.handle]) {
          SkippingSaveIsWhole(reached.value, step.handle);
        }
      }
    }
  }

  /**
   * A save that goes through leaves the saver's own facts and publication, at a strictly later
   * version when a command moved the date since; any other save changes nothing at all.
   */
  lemma SavedRowsAreTheSavers(rules: Rules, run: seq<Step>, h: nat)
    requires After(rules, run, true).Some? && Enabled(After(rules, run, true).value, Save(h))
    ensures var s := After(rules, run, true).value;
      var t, handle := Take(rules, s, Save(h), true), s.handles[h];
      && (Saves(s, handle) ==>
            && t.writer == Some(Writer(handle.transaction, Rows(handle.current.facts, handle.publication)))
            && (handle.loadedVersion.Some? && handle.loadedVersion.value < handle.publication.version ==>
                  Visible(s, handle.transaction).value.publication.version < handle.publication.version))
      && (!Saves(s, handle) ==> t == s)
  {
    var s := After(rules, run, true).value;
    EveryInterleavingIsCoherent(rules, run, true);
    if Saves(s, s.handles[h]) {
      SkippingSaveIsWhole(s, h);
    }
  }

  /** Committed versions only move forward, and rows committed at one version are the same rows. */
  lemma CommittedVersionsNeverGoBack(rules: Rules, run: seq<Step>, step: Step)
    requires After(rules, run, true).Some? && Enabled(After(rules, run, true).value, step)
    ensures var s := After(rules, run, true).value;
      var t := Take(rules, s, step, true);
      s.committed.Some? ==> t.committed.Some? && NotBefore(s.committed.value, t.committed.value)
  {
    EveryInterleavingIsCoherent(rules, run, true);
  }

  /**
   * Along any run: once committed the rows stay committed, at a strictly later version whenever they
   * are other rows.
   */
  lemma {:induction false} CommittedRowsOnlyMoveForward(rules: Rules, run: seq<Step>, n: nat)
    requires n <= |run| && After(rules, run, true).Some?
    ensures After(rules, run[..n], true).Some?
    ensures var earlier, later := After(rules, run[..n], true).value.committed, After(rules, run, true).value.committed;
      earlier.Some? ==>
        && later.Some? && NotBefore(earlier.value, later.value)
        && (earlier != later ==> earlier.value.publication.version < later.value.publication.version)
    decreases |run|
  {
    if n == |run| {
      assert run[..n] == run;
    } else {
      var before := run[..|run| - 1];
      assert before[..n] == run[..n];
      CommittedRowsOnlyMoveForward(rules, before, n);
      CommittedVersionsNeverGoBack(rules, before, run[|run| - 1]);
    }
  }

  /** A transaction whose date another committed since it read it saves nothing. */
  lemma StaleSavesChangeNothing(rules: Rules, run: seq<Step>, h: nat)
    requires After(rules, run, true).Some? && h in After(rules, run, true).value.handles
    requires Enabled(After(rules, run, true).value, Save(h))
    ensures var s := After(rules, run, true).value;
      var handle := s.handles[h];
      handle.loadedVersion.Some? && Visible(s, handle.transaction).Some? &&
      Visible(s, handle.transaction).value.publication.version != handle.loadedVersion.value ==>
        && handle.loadedVersion.value < Visible(s, handle.transaction).value.publication.version
        && Take(rules, s, Save(h), true) == s
  {
    EveryInterleavingIsCoherent(rules, run, true);
    assert HandleCoherent(After(rules, run, true).value, After(rules, run, true).value.handles[h]);
  }

  // ---------- a transaction alone ----------

  lemma AfterOneMore(rules: Rules, run: seq<Step>, step: Step, skipping: bool)
    requires After(rules, run, skipping).Some?
    ensures After(rules, run + [step], skipping) ==
              if Enabled(After(rules, run, skipping).value, step)
              then Some(Take(rules, After(rules, run, skipping).value, step, skipping)) else None
  {
    assert (run + [step])[..|run|] == run;
  }

  /** The rows an act leaves of the rows it found. */
  function ActedOn(rules: Rules, rows: Rows, act: Act): Rows {
    match AnswerTo(rules, DateValue(rows.facts, rows.publication, []), act)
    case Moved(date) => Rows(date.facts, date.publication)
    case _ => rows
  }

  lemma LoadedAndActed(rules: Rules, run: seq<Step>, h: nat, transaction: nat, act: Act) returns (s: State)
    requires After(rules, run, true).Some?
    requires var s := After(rules, run, true).value; s.writer.None? && s.committed.Some? && h !in s.handles
    ensures After(rules, run + [Load(h, transaction)] + [Perform(h, act)], true) == Some(s)
    ensures var was := After(rules, run, true).value;
      && s.writer.None? && s.committed == was.committed && h in s.handles && s.handles[h].transaction == transaction
      && s.handles[h].loadedVersion == Some(was.committed.value.publication.version)
      && Rows(s.handles[h].current.facts, s.handles[h].publication) == ActedOn(rules, was.committed.value, act)
  {
    var was := After(rules, run, true).value;
    AfterOneMore(rules, run, Load(h, transaction), true);
    AfterOneMore(rules, run + [Load(h, transaction)], Perform(h, act), true);
    s := After(rules, run + [Load(h, transaction)] + [Perform(h, act)], true).value;
    var rows := was.committed.value;
    if AnswerTo(rules, DateValue(rows.facts, rows.publication, []), act).Moved? {
      ActAdvancesTheVersion(rules, DateValue(rows.facts, rows.publication, []), act);
    }
  }

  /** From any reachable state no open transaction has written in, one that loads, acts, saves and commits has its way. */
  lemma ATransactionAloneSucceeds(rules: Rules, run: seq<Step>, h: nat, transaction: nat, act: Act)
    requires After(rules, run, true).Some?
    requires var s := After(rules, run, true).value; s.writer.None? && s.committed.Some? && h !in s.handles
    ensures var t := After(rules, run + [Load(h, transaction)] + [Perform(h, act)] + [Save(h)] + [Commit(transaction)], true);
      && t.Some? && t.value.writer.None?
      && t.value.committed == Some(ActedOn(rules, After(rules, run, true).value.committed.value, act))
  {
    var acted := run + [Load(h, transaction)] + [Perform(h, act)];
    var s := LoadedAndActed(rules, run, h, transaction, act);
    SavedRowsAreTheSavers(rules, acted, h);
    AfterOneMore(rules, acted, Save(h), true);
    AfterOneMore(rules, acted + [Save(h)], Commit(transaction), true);
  }

  /** And while there are no rows, a draft saved and committed leaves its own. */
  lemma ADraftIsCommitted(rules: Rules, run: seq<Step>, h: nat, transaction: nat, draft: DateDraft, now: Instant)
    requires After(rules, run, true).Some?
    requires var s := After(rules, run, true).value; s.writer.None? && s.committed.None? && h !in s.handles
    ensures var t := After(rules, run + [DraftDate(h, transaction, draft, now)] + [Save(h)] + [Commit(transaction)], true);
      t.Some? && t.value.committed == Some(Rows(Drafted(draft, now).facts, Drafted(draft, now).publication))
  {
    var drafted := run + [DraftDate(h, transaction, draft, now)];
    AfterOneMore(rules, run, DraftDate(h, transaction, draft, now), true);
    AfterOneMore(rules, drafted, Save(h), true);
    AfterOneMore(rules, drafted + [Save(h)], Commit(transaction), true);
  }

  /** A handle that saved may act and save again in its transaction: the second save follows its own first. */
  lemma ASecondSaveFollowsTheFirst(rules: Rules, run: seq<Step>, h: nat, act: Act)
    requires After(rules, run, true).Some? && Enabled(After(rules, run, true).value, Save(h))
    requires Saves(After(rules, run, true).value, After(rules, run, true).value.handles[h])
    ensures var s := After(rules, run, true).value;
      var first := Take(rules, s, Save(h), true);
      && Enabled(first, Perform(h, act))
      && var acted := Take(rules, first, Perform(h, act), true);
         && Enabled(acted, Save(h)) && Saves(acted, acted.handles[h])
         && Take(rules, acted, Save(h), true).writer ==
              Some(Writer(s.handles[h].transaction, ActedOn(rules, Rows(s.handles[h].current.facts, s.handles[h].publication), act)))
  {
    var s := After(rules, run, true).value;
    SavedRowsAreTheSavers(rules, run, h);
    AfterOneMore(rules, run, Save(h), true);
    AfterOneMore(rules, run + [Save(h)], Perform(h, act), true);
    SavedRowsAreTheSavers(rules, run + [Save(h)] + [Perform(h, act)], h);
    var rows := Rows(s.handles[h].current.facts, s.handles[h].publication);
    if AnswerTo(rules, DateValue(rows.facts, rows.publication, []), act).Moved? {
      ActAdvancesTheVersion(rules, DateValue(rows.facts, rows.publication, []), act);
    }
  }

  /** A transaction rolled back leaves the committed rows, and none of its own. */
  lemma ARollBackLeavesNothing(rules: Rules, run: seq<Step>, transaction: nat)
    requires After(rules, run, true).Some?
    ensures var s := After(rules, run, true).value;
      var t := Take(rules, s, RollBack(transaction), true);
      && t.committed == s.committed && Visible(t, transaction) == s.committed
      && (forall h :: h in t.handles ==> t.handles[h].transaction != transaction)
      && (forall h :: h in s.handles && s.handles[h].transaction != transaction ==> h in t.handles && t.handles[h] == s.handles[h])
      && (forall other :: other != transaction ==> Visible(t, other) == Visible(s, other))
  {
  }
}
