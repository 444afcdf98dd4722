/** The checklist facts other contexts report: a timestamped last-writer-wins table. */
module ChecklistFacts {
  datatype Key = Key(dateId: string, item: string)

  datatype Report = Report(id: string, key: Key, satisfied: bool, occurredAt: int)

  datatype Fact = Fact(satisfied: bool, occurredAt: int)

  datatype Outcome = Applied | Superseded | Duplicate | NotFound

  datatype State = State(dates: set<string>, ledger: set<string>, facts: map<Key, Fact>)

  /** The upsert's WHERE: a stored fact gives way to one at least as recent. */
  predicate Writes(facts: map<Key, Fact>, report: Report) {
    report.key in facts ==> facts[report.key].occurredAt <= report.occurredAt
  }

  /** One transaction of `RecordChecklistFact`; an unknown date rolls it back. */
  function Recorded(s: State, report: Report): (State, Outcome) {
    if report.id in s.ledger then (s, Duplicate)
    else if report.key.dateId !in s.dates then (s, NotFound)
    else
      var claimed := s.(ledger := s.ledger + {report.id});
      if Writes(s.facts, report) then
        (claimed.(facts := s.facts[report.key := Fact(report.satisfied, report.occurredAt)]), Applied)
      else (claimed, Superseded)
  }

  /** The table and its ledger, changed in place as the handler does. */
  class Checklist {
    var state: State

    constructor (dates: set<string>)
      ensures state == State(dates, {}, map[])
    {
      state := State(dates, {}, map[]);
    }

    method Record(report: Report) returns (outcome: Outcome)
      modifies this
      ensures (state, outcome) == Recorded(old(state), report)
    {
      if report.id in state.ledger {
        return Duplicate;
      }
      if report.key.dateId !in state.dates {
        return NotFound;
      }
      state := state.(ledger := state.ledger + {report.id});
      outcome := Superseded;
      if report.key !in state.facts {
        state := state.(facts := state.facts[report.key := Fact(report.satisfied, report.occurredAt)]);
        outcome := Applied;
      } else if report.occurredAt >= state.facts[report.key].occurredAt {
        state := state.(facts := state.facts[report.key := Fact(report.satisfied, report.occurredAt)]);
        outcome := Applied;
      }
    }
  }

  function After(dates: set<string>, reports: seq<Report>): State {
    if reports == [] then State(dates, {}, map[])
    else Recorded(After(dates, reports[..|reports| - 1]), reports[|reports| - 1]).0
  }

  // ---------- what the table holds ----------

  /** No report of the set is more recent, for the same item. */
  ghost predicate Latest(reports: set<Report>, report: Report) {
    report in reports && forall r :: r in reports && r.key == report.key ==> r.occurredAt <= report.occurredAt
  }

  /** The table holds, for each item reported, a report that none is more recent than. */
  ghost predicate Describes(facts: map<Key, Fact>, reports: set<Report>) {
    && (forall r :: r in reports ==> r.key in facts)
    && (forall key :: key in facts ==>
          exists r :: Latest(reports, r) && r.key == key && facts[key] == Fact(r.satisfied, r.occurredAt))
  }

  /** An id names one report. */
  ghost predicate Identified(reports: set<Report>) {
    forall r, q :: r in reports && q in reports && r.id == q.id ==> r == q
  }

  /** Two reports of one item at its latest instant say the same. */
  ghost predicate NoConflictAtTheTop(reports: set<Report>) {
    forall r, q :: Latest(reports, r) && Latest(reports, q) && r.key == q.key ==> r.satisfied == q.satisfied
  }

  function Delivered(reports: seq<Report>): set<Report> { set r | r in reports }

  /** The reports of dates that are known here; the others are refused and leave nothing. */
  function KnownOf(dates: set<string>, reports: set<Report>): set<Report> {
    set r | r in reports && r.key.dateId in dates
  }

  /** What each outcome says of the report and of the table. */
  lemma OutcomesAreDecided(s: State, report: Report)
    ensures var (t, outcome) := Recorded(s, report);
      && (outcome == Duplicate <==> report.id in s.ledger)
      && (outcome == NotFound <==> report.id !in s.ledger && report.key.dateId !in s.dates)
      && (outcome == Duplicate || outcome == NotFound <==> t == s)
      && (outcome == Superseded <==>
            && report.id !in s.ledger && report.key.dateId in s.dates
            && report.key in s.facts && report.occurredAt < s.facts[report.key].occurredAt)
      && (outcome == Applied ==> t.facts == s.facts[report.key := Fact(report.satisfied, report.occurredAt)])
      && (outcome != Applied ==> t.facts == s.facts)
  {
  }

  lemma DeliveredOneMore(reports: seq<Report>, report: Report)
    ensures Delivered(reports + [report]) == Delivered(reports) + {report}
  {
  }

  function Ids(reports: set<Report>): set<string> { set r | r in reports :: r.id }

  /** The state a set of reports may leave: the dates known, the ids claimed, the table a description. */
  ghost predicate Holds(s: State, dates: set<string>, reports: set<Report>) {
    s.dates == dates && s.ledger == Ids(reports) && Describes(s.facts, reports)
  }

  /** One more report keeps the table a description of what was reported. */
  lemma UpsertDescribes(facts: map<Key, Fact>, reports: set<Report>, report: Report)
    requires Describes(facts, reports)
    ensures Describes(if Writes(facts, report) then facts[report.key := Fact(report.satisfied, report.occurredAt)] else facts,
                      reports + {report})
  {
    var all := reports + {report};
    var after := if Writes(facts, report) then facts[report.key := Fact(report.satisfied, report.occurredAt)] else facts;
    forall key | key in after
      ensures exists r :: Latest(all, r) && r.key == key && after[key] == Fact(r.satisfied, r.occurredAt)
    {
      if key == report.key && Writes(facts, report) {
        if key in facts {
          var top :| Latest(reports, top) && top.key == key && facts[key] == Fact(top.satisfied, top.occurredAt);
        }
        assert Latest(all, report);
      } else {
        var top :| Latest(reports, top) && top.key == key && facts[key] == Fact(top.satisfied, top.occurredAt);
        assert Latest(all, top);
      }
    }
  }

  lemma RecordingHolds(s: State, dates: set<string>, reports: set<Report>, report: Report)
    requires Holds(s, dates, KnownOf(dates, reports)) && Identified(reports + {report})
    ensures Holds(Recorded(s, report).0, dates, KnownOf(dates, reports + {report}))
  {
    var known := KnownOf(dates, reports);
    if report.key.dateId !in dates {
      assert KnownOf(dates, reports + {report}) == known;
    } else {
      assert KnownOf(dates, reports + {report}) == known + {report};
      KnownRecordingHolds(s, dates, known, report);
    }
  }

  lemma KnownRecordingHolds(s: State, dates: set<string>, reports: set<Report>, report: Report)
    requires Holds(s, dates, reports) && Identified(reports + {report}) && report.key.dateId in dates
    ensures Holds(Recorded(s, report).0, dates, reports + {report})
  {
    if report.id in s.ledger {
      var r :| r in reports && r.id == report.id;
      assert reports + {report} == reports;
    } else {
      UpsertDescribes(s.facts, reports, report);
      assert Ids(reports + {report}) == Ids(reports) + {report.id};
    }
  }

  /** After any deliveries, repeated or not, the table describes the set of those about known dates. */
  lemma {:induction false} TheTableDescribesTheReports(dates: set<string>, reports: seq<Report>)
    requires Identified(Delivered(reports))
    ensures Holds(After(dates, reports), dates, KnownOf(dates, Delivered(reports)))
  {
    if reports != [] {
      var before, last := reports[..|reports| - 1], reports[|reports| - 1];
      assert reports == before + [last];
      DeliveredOneMore(before, last);
      TheTableDescribesTheReports(dates, before);
      RecordingHolds(After(dates, before), dates, Delivered(before), last);
    }
  }

  lemma DescriptionsAgreeOn(first: map<Key, Fact>, second: map<Key, Fact>, reports: set<Report>, key: Key)
    requires Describes(first, reports) && Describes(second, reports) && NoConflictAtTheTop(reports)
    requires key in first
    ensures key in second && first[key] == second[key]
  {
    var r :| Latest(reports, r) && r.key == key && first[key] == Fact(r.satisfied, r.occurredAt);
    var q :| Latest(reports, q) && q.key == key && second[key] == Fact(q.satisfied, q.occurredAt);
  }

  lemma DescriptionsAgree(first: map<Key, Fact>, second: map<Key, Fact>, reports: set<Report>)
    requires Describes(first, reports) && Describes(second, reports) && NoConflictAtTheTop(reports)
    ensures first == second
  {
    forall key | key in first ensures key in second && first[key] == second[key] {
      DescriptionsAgreeOn(first, second, reports, key);
    }
    forall key | key in second ensures key in first {
      DescriptionsAgreeOn(second, first, reports, key);
    }
  }

  /** Reports with distinct instants per item never conflict: the case the contexts promise. */
  ghost predicate DistinctInstants(reports: set<Report>) {
    forall r, q :: r in reports && q in reports && r.key == q.key && r.occurredAt == q.occurredAt ==> r == q
  }

  /** Whatever the order and the repetitions, the same set of reports leaves the same table. */
  lemma ChecklistFactsConverge(dates: set<string>, first: seq<Report>, second: seq<Report>)
    requires Delivered(first) == Delivered(second)
    requires Identified(Delivered(first)) && NoConflictAtTheTop(KnownOf(dates, Delivered(first)))
    ensures After(dates, first).facts == After(dates, second).facts
  {
    TheTableDescribesTheReports(dates, first);
    TheTableDescribesTheReports(dates, second);
    DescriptionsAgree(After(dates, first).facts, After(dates, second).facts, KnownOf(dates, Delivered(first)));
  }

  lemma DistinctInstantsNeverConflict(reports: set<Report>)
    requires DistinctInstants(reports)
    ensures NoConflictAtTheTop(reports)
  {
  }

  // ---------- and only then ----------

  ghost function Listed(reports: set<Report>): (s: seq<Report>)
    ensures Delivered(s) == reports
  {
    if reports == {} then []
    else
      var r :| r in reports;
      DeliveredOneMore(Listed(reports - {r}), r);
      Listed(reports - {r}) + [r]
  }

  /** The order that delivers one report last. */
  ghost function ThenLast(reports: set<Report>, report: Report): (run: seq<Report>)
    requires report in reports
    ensures Delivered(run) == reports
  {
    DeliveredOneMore(Listed(reports - {report}), report);
    Listed(reports - {report}) + [report]
  }

  /** A report none is more recent than wins by coming last. */
  lemma LatestWinsByComingLast(dates: set<string>, reports: set<Report>, report: Report)
    requires Identified(reports) && Latest(KnownOf(dates, reports), report)
    ensures var facts := After(dates, ThenLast(reports, report)).facts;
      report.key in facts && facts[report.key] == Fact(report.satisfied, report.occurredAt)
  {
    var before, run := Listed(reports - {report}), ThenLast(reports, report);
    var others := KnownOf(dates, reports - {report});
    assert run[..|run| - 1] == before;
    TheTableDescribesTheReports(dates, before);
    var s := After(dates, before);
    assert report.id !in s.ledger;
    if report.key in s.facts {
      var top :| Latest(others, top) && top.key == report.key && s.facts[report.key] == Fact(top.satisfied, top.occurredAt);
    }
  }

  /** The same reports in two orders leave the same table. */
  ghost predicate OrderIsIrrelevant(dates: set<string>, reports: set<Report>) {
    forall first, second :: Delivered(first) == reports && Delivered(second) == reports ==>
      After(dates, first).facts == After(dates, second).facts
  }

  /**
   * The condition is exact: when two reports of one item at its latest instant disagree, two orders
   * of the same reports leave different tables.
   */
  lemma OrderMattersExactlyForConflicts(dates: set<string>, reports: set<Report>)
    requires Identified(reports)
    ensures NoConflictAtTheTop(KnownOf(dates, reports)) <==> OrderIsIrrelevant(dates, reports)
  {
    var known := KnownOf(dates, reports);
    if NoConflictAtTheTop(known) {
      forall first, second | Delivered(first) == reports && Delivered(second) == reports
        ensures After(dates, first).facts == After(dates, second).facts
      {
        ChecklistFactsConverge(dates, first, second);
      }
    } else {
      var r, q :| Latest(known, r) && Latest(known, q) && r.key == q.key && r.satisfied != q.satisfied;
      LatestWinsByComingLast(dates, reports, r);
      LatestWinsByComingLast(dates, reports, q);
      var first, second := ThenLast(reports, r), ThenLast(reports, q);
      assert After(dates, first).facts[r.key] != After(dates, second).facts[r.key];
    }
  }
}
