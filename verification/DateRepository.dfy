/** The aggregate's repository: two rows, one version, and a date row skipped when its snapshot is the one read. */
module DateRepositories {
  import opened Options
  import opened CoreRules
  import opened Publication
  import opened PerformanceDates

  /** The `date` table's columns, beside the row's id. */
  datatype DateColumns = DateColumns(
    showId: string, venueId: string, channelId: string, startsAt: Instant, runtimeMin: int, replayPolicy: ReplayPolicy,
    replayWindowHours: Option<int>, rights: string, slug: Option<string>, postponements: nat,
    outcome: Option<DateOutcome>, rescheduledTo: Option<Instant>, outcomeDeclaredAt: Option<Instant>,
    outcomeMessage: Option<Message>)

  /** The `publication` table's columns, beside the date's id. */
  datatype PublicationColumns = PublicationColumns(
    channelId: string, state: PublicationState, version: int,
    publishedAt: Option<Instant>, pricesLockedAt: Option<Instant>, replayOnlineAt: Option<Instant>)

  function DateColumnsOf(d: DateFacts): DateColumns {
    DateColumns(d.showId, d.venueId, d.channelId, d.startsAt, d.runtimeMin, d.replayPolicy, d.replayWindowHours, d.rights,
                d.slug, d.postponements, d.outcome, d.rescheduledTo, d.outcomeDeclaredAt, d.outcomeMessage)
  }

  function FactsOf(id: string, row: DateColumns): DateFacts {
    DateFacts(id, row.showId, row.venueId, row.channelId, row.startsAt, row.runtimeMin, row.replayPolicy,
              row.replayWindowHours, row.rights, row.slug, row.postponements, row.outcome, row.rescheduledTo,
              row.outcomeDeclaredAt, row.outcomeMessage)
  }

  function PublicationColumnsOf(p: PublicationSnapshot): PublicationColumns {
    PublicationColumns(p.channelId, p.state, p.version, p.publishedAt, p.pricesLockedAt, p.replayOnlineAt)
  }

  function PublicationOf(id: string, row: PublicationColumns): PublicationSnapshot {
    PublicationSnapshot(id, row.channelId, row.state, row.version, row.publishedAt, row.pricesLockedAt, row.replayOnlineAt)
  }

  /** A date written and read back is the date. */
  lemma RowsRoundTrip(d: DateFacts, p: PublicationSnapshot, date: DateColumns, publication: PublicationColumns, id: string)
    ensures FactsOf(d.id, DateColumnsOf(d)) == d
    ensures PublicationOf(p.dateId, PublicationColumnsOf(p)) == p
    ensures DateColumnsOf(FactsOf(id, date)) == date
    ensures PublicationColumnsOf(PublicationOf(id, publication)) == publication
  {
  }

  /** The two tables, as one transaction sees them. */
  class Tables {
    var dates: map<string, DateColumns>
    var publications: map<string, PublicationColumns>

    constructor ()
      ensures dates == map[] && publications == map[]
    {
      dates, publications := map[], map[];
    }

    /** Overwrites a publication row only at the version given; a conflict carries what the row says instead. */
    method SaveVersioned(id: string, loadedVersion: int, columns: PublicationColumns) returns (result: SaveResult)
      modifies this`publications
      ensures result.Saved? <==> id in old(publications) && old(publications)[id].version == loadedVersion
      ensures result.Failed? <==> id !in old(publications)
      ensures result.Conflict? ==> result == Conflict(old(publications)[id].version, old(publications)[id].state)
      ensures publications == if result.Saved? then old(publications)[id := columns] else old(publications)
    {
      if id in publications && publications[id].version == loadedVersion {
        publications := publications[id := columns];
        return Saved;
      }
      if id !in publications {
        return Failed;
      }
      result := Conflict(publications[id].version, publications[id].state);
    }
  }

  /**
   * Whether a save goes through: a date never loaded, where there are no rows; a loaded one, where the
   * version stored is the one it was loaded at.
   */
  predicate GoesThrough(loaded: Option<int>, stored: Option<int>) { loaded == stored }

  datatype SaveResult = Saved | Conflict(currentVersion: int, state: PublicationState) | Failed

  class Repository {
    const tables: Tables
    const rules: Rules
    /** What the next UPDATE of an aggregate compares with; an aggregate without an entry is inserted. */
    var versions: map<PerformanceDate, int>
    /** The snapshot object the date row is known to hold, by aggregate. */
    var stored: map<PerformanceDate, DateSnapshot>

    constructor (tables: Tables, rules: Rules)
      ensures this.tables == tables && this.rules == rules && versions == map[] && stored == map[]
    {
      this.tables := tables;
      this.rules := rules;
      versions, stored := map[], map[];
    }

    /** The date row still says what this aggregate read, as long as the version does. */
    ghost predicate Coherent(date: PerformanceDate)
      reads this, tables, date
    {
      var id := date.current.facts.id;
      date in versions && id in tables.publications && tables.publications[id].version == versions[date] ==>
        date in stored && id in tables.dates && tables.dates[id] == DateColumnsOf(stored[date].facts)
    }

    ghost function LoadedVersion(date: PerformanceDate): Option<int>
      reads this
    {
      if date in versions then Some(versions[date]) else None
    }

    ghost function StoredVersion(id: string): Option<int>
      reads tables
    {
      if id in tables.publications then Some(tables.publications[id].version) else None
    }

    /** The rows are exactly the aggregate's. */
    ghost predicate Holds(date: PerformanceDate)
      reads this, tables, date
    {
      var id := date.current.facts.id;
      && id in tables.dates && tables.dates[id] == DateColumnsOf(date.current.facts)
      && id in tables.publications && tables.publications[id] == PublicationColumnsOf(date.publication)
    }

    /** A loaded date is its two rows, tracked at the version read, and coherent with them. */
    method FindById(id: string) returns (found: Option<PerformanceDate>, failed: bool)
      modifies this`versions, this`stored
      ensures !failed ==> (found.None? <==> id !in tables.publications)
      ensures failed <==> id in tables.publications && id !in tables.dates
      ensures found.Some? ==>
                && !failed && fresh(found.value) && found.value.rules == rules
                && found.value.Value() ==
                     DateValue(FactsOf(id, tables.dates[id]), PublicationOf(id, tables.publications[id]), [])
                && found.value in versions && versions[found.value] == found.value.publication.version
                && Coherent(found.value) && Holds(found.value)
      ensures forall d :: d in old(versions) ==> d in versions && versions[d] == old(versions)[d]
      ensures forall d :: d in old(stored) ==> d in stored && stored[d] == old(stored)[d]
    {
      if id !in tables.publications {
        return None, false;
      }
      if id !in tables.dates {
        return None, true;
      }
      var date := new PerformanceDate.Restore(rules, FactsOf(id, tables.dates[id]), PublicationOf(id, tables.publications[id]));
      stored := stored[date := date.current];
      versions := versions[date := date.publication.version];
      found, failed := Some(date), false;
    }

    /**
     * A save that succeeds leaves both rows the aggregate's own, although it writes the date row only
     * when the snapshot reference changed; one from a stale version changes neither row.
     */
    method Save(date: PerformanceDate) returns (result: SaveResult)
      modifies this`versions, this`stored, tables
      ensures result.Saved? && old(Coherent(date)) ==> Holds(date) && Coherent(date)
      ensures result.Saved? && date !in old(versions) ==> Holds(date) && Coherent(date)
      ensures result.Saved? ==> date in versions && versions[date] == date.publication.version
      ensures result.Saved? ==> stored == old(stored)[date := date.current]
      ensures !result.Saved? ==>
                && tables.dates == old(tables.dates) && tables.publications == old(tables.publications)
                && versions == old(versions) && stored == old(stored)
      ensures var id := date.current.facts.id;
        date in old(versions) ==>
          && (result.Saved? <==> id in old(tables.publications) && old(tables.publications)[id].version == old(versions)[date])
          && (result.Failed? <==> id !in old(tables.publications))
      ensures var id := date.current.facts.id;
        date !in old(versions) ==>
          && (result.Saved? <==> id !in old(tables.dates) && id !in old(tables.publications))
          && (result.Failed? <==> id in old(tables.dates) || id in old(tables.publications))
      ensures var id := date.current.facts.id;
        (id in old(tables.dates) <==> id in old(tables.publications)) ==>
          (result.Saved? <==> GoesThrough(old(LoadedVersion(date)), old(StoredVersion(id))))
      ensures var id := date.current.facts.id;
        result.Conflict? ==> id in tables.publications && result == Conflict(tables.publications[id].version, tables.publications[id].state)
      ensures forall other :: other != date.current.facts.id ==>
                && (other in tables.dates <==> other in old(tables.dates))
                && (other in tables.dates ==> tables.dates[other] == old(tables.dates)[other])
                && (other in tables.publications <==> other in old(tables.publications))
                && (other in tables.publications ==> tables.publications[other] == old(tables.publications)[other])
    {
      var id := date.current.facts.id;
      if date !in versions {
        if id in tables.dates || id in tables.publications {
          return Failed;
        }
        tables.dates := tables.dates[id := DateColumnsOf(date.current.facts)];
        tables.publications := tables.publications[id := PublicationColumnsOf(date.publication)];
      } else {
        result := tables.SaveVersioned(id, versions[date], PublicationColumnsOf(date.publication));
        if !result.Saved? {
          return;
        }
        if date !in stored || date.current != stored[date] {
          if id in tables.dates {
            tables.dates := tables.dates[id := DateColumnsOf(date.current.facts)];
          }
        }
      }
      stored := stored[date := date.current];
      versions := versions[date := date.publication.version];
      result := Saved;
    }

    /** A saved date is found again as it was saved, its events with the transaction that applied them. */
    method SaveAndFind(date: PerformanceDate) returns (result: SaveResult, found: Option<PerformanceDate>)
      requires date !in versions || Coherent(date)
      requires date.publication.dateId == date.current.facts.id
      modifies this`versions, this`stored, tables
      ensures var id := date.current.facts.id;
        date !in old(versions) ==> (result.Saved? <==> id !in old(tables.dates) && id !in old(tables.publications))
      ensures result.Saved? ==>
                && found.Some? && fresh(found.value) && found.value != date
                && found.value.Value() == DateValue(date.current.facts, date.publication, [])
                && found.value in versions && versions[found.value] == date.publication.version
      ensures !result.Saved? ==> found.None? && tables.dates == old(tables.dates) && tables.publications == old(tables.publications)
    {
      result := Save(date);
      found := None;
      if result.Saved? {
        var failed;
        found, failed := FindById(date.current.facts.id);
        RowsRoundTrip(date.current.facts, date.publication, DateColumnsOf(date.current.facts),
                      PublicationColumnsOf(date.publication), date.current.facts.id);
      }
    }

    /** A draft of an id no row has is stored, and found. */
    method SaveDraft(draft: DateDraft, now: Instant) returns (found: Option<PerformanceDate>)
      modifies this`versions, this`stored, tables
      ensures found.Some? <==> draft.id !in old(tables.dates) && draft.id !in old(tables.publications)
      ensures found.Some? ==> found.value.Value() == Drafted(draft, now).(events := [])
    {
      var date := new PerformanceDate.NewDraft(rules, draft, now);
      assert date !in versions;
      var result;
      result, found := SaveAndFind(date);
    }
  }
}
