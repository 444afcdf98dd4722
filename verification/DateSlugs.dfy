/** The slugs of one show's dates: candidates, the first free one, and every run of publications and postponements. */
module DateSlugs {
  import opened Options
  import opened Decimal

  /** An instant on the venue's wall clock. */
  datatype Wall = Wall(year: nat, month: nat, day: nat, hour: nat, minute: nat)

  predicate OnTheClock(w: Wall) { w.month < 100 && w.day < 100 && w.hour < 100 && w.minute < 100 }

  function Pad(n: nat): string { if n < 10 then "0" + Spelled(n) else Spelled(n) }

  /** `slice(-8)`. */
  function Tail(id: string): string { if |id| <= 8 then id else id[|id| - 8..] }

  predicate Unhyphenated(s: string) { forall i :: 0 <= i < |s| ==> s[i] != '-' }

  /** A UUID ends in twelve hexadecimal digits, so its last eight characters hold no hyphen. */
  predicate IsDateId(id: string) { |Tail(id)| == 8 && Unhyphenated(Tail(id)) }

  function Day(w: Wall): string { (Spelled(w.year) + "-" + Pad(w.month)) + "-" + Pad(w.day) }

  function DaySlug(w: Wall): string { Day(w) }

  function TimeSlug(w: Wall): string { Day(w) + "-" + (Pad(w.hour) + Pad(w.minute)) }

  function IdSlug(w: Wall, id: string): string { Day(w) + "-" + Tail(id) }

  /** Most readable first: the day, the day and time, the day and the date's own id. */
  function Candidates(w: Wall, id: string): seq<string> { [DaySlug(w), TimeSlug(w), IdSlug(w, id)] }

  // ---------- the three shapes ----------

  lemma PadIsTwoDigits(n: nat)
    requires n < 100
    ensures |Pad(n)| == 2 && Unhyphenated(Pad(n))
  {
    if n >= 10 {
      assert Spelled(n) == Spelled(n / 10) + [DigitChar(n % 10)];
    }
  }

  /** What follows the last hyphen is determined by the whole. */
  lemma LastSegmentIsUnique(a: string, b: string, x: string, y: string)
    requires Unhyphenated(b) && Unhyphenated(y) && a + "-" + b == x + "-" + y
    ensures a == x && b == y
  {
    var s := a + "-" + b;
    assert s[|a|] == '-' && (x + "-" + y)[|x|] == '-';
    assert |a| == |x|;
    assert s[..|a|] == a && (x + "-" + y)[..|x|] == x;
    assert s[|a| + 1..] == b && (x + "-" + y)[|x| + 1..] == y;
  }

  /** A day, a day with a time and a day with an id never coincide, whatever the days and the ids. */
  lemma ShapesAreDisjoint(w: Wall, v: Wall, id: string)
    requires OnTheClock(w) && OnTheClock(v) && IsDateId(id)
    ensures DaySlug(w) != TimeSlug(v) && DaySlug(w) != IdSlug(v, id) && TimeSlug(w) != IdSlug(v, id)
  {
    PadIsTwoDigits(w.day);
    PadIsTwoDigits(w.hour);
    PadIsTwoDigits(w.minute);
    PadIsTwoDigits(v.hour);
    PadIsTwoDigits(v.minute);
    var monthOfW := Spelled(w.year) + "-" + Pad(w.month);
    if DaySlug(w) == TimeSlug(v) {
      LastSegmentIsUnique(monthOfW, Pad(w.day), Day(v), Pad(v.hour) + Pad(v.minute));
    }
    if DaySlug(w) == IdSlug(v, id) {
      LastSegmentIsUnique(monthOfW, Pad(w.day), Day(v), Tail(id));
    }
    if TimeSlug(w) == IdSlug(v, id) {
      LastSegmentIsUnique(Day(w), Pad(w.hour) + Pad(w.minute), Day(v), Tail(id));
    }
  }

  lemma IdSlugNamesItsTail(w: Wall, v: Wall, a: string, b: string)
    requires IsDateId(a) && IsDateId(b) && IdSlug(w, a) == IdSlug(v, b)
    ensures Tail(a) == Tail(b)
  {
    LastSegmentIsUnique(Day(w), Tail(a), Day(v), Tail(b));
  }

  // ---------- the first free one ----------

  /** A retired slug goes on leading to its date until it expires. */
  datatype Alias = Alias(target: string, expiresAt: int)

  /**
   * The show's dates that hold a slug, its retired slugs, the clock of the last command, and how long
   * a retired slug goes on leading to its date.
   */
  datatype Show = Show(slugs: map<string, string>, aliases: map<string, Alias>, now: int, redirectMs: int)

  predicate HeldByAnother(show: Show, slug: string, id: string) {
    exists other :: other in show.slugs && other != id && show.slugs[other] == slug
  }

  predicate ReservedForAnother(show: Show, slug: string, id: string, now: int) {
    slug in show.aliases && now < show.aliases[slug].expiresAt && show.aliases[slug].target != id
  }

  predicate IsFree(show: Show, slug: string, id: string, now: int) {
    !HeldByAnother(show, slug, id) && !ReservedForAnother(show, slug, id, now)
  }

  function FreeSlug(show: Show, id: string, w: Wall, now: int): string {
    if IsFree(show, DaySlug(w), id, now) then DaySlug(w)
    else if IsFree(show, TimeSlug(w), id, now) then TimeSlug(w)
    else IdSlug(w, id)
  }

  /** `freeDateSlug`: the candidates in order, the last one when none is free. */
  method FreeDateSlug(show: Show, id: string, w: Wall, now: int) returns (slug: string)
    ensures slug == FreeSlug(show, id, w, now)
    ensures slug in Candidates(w, id)
    ensures (exists c :: c in Candidates(w, id) && IsFree(show, c, id, now)) ==> IsFree(show, slug, id, now)
  {
    var candidates := Candidates(w, id);
    for i := 0 to |candidates|
      invariant forall k :: 0 <= k < i ==> !IsFree(show, candidates[k], id, now)
    {
      if IsFree(show, candidates[i], id, now) {
        assert 0 < i ==> !IsFree(show, candidates[0], id, now);
        assert 1 < i ==> !IsFree(show, candidates[1], id, now);
        return candidates[i];
      }
    }
    assert !IsFree(show, candidates[0], id, now) && !IsFree(show, candidates[1], id, now);
    slug := candidates[|candidates| - 1];
  }

  /** A slug is free for a date when no other holds it and it leads nowhere else, or no longer does. */
  lemma FreeExactly(show: Show, slug: string, id: string, now: int)
    ensures IsFree(show, slug, id, now) <==>
      && (forall other :: other in show.slugs && show.slugs[other] == slug ==> other == id)
      && (slug in show.aliases ==> show.aliases[slug].expiresAt <= now || show.aliases[slug].target == id)
  {
  }

  /** The day when it is free; the day and time when that is and the day is not; the id when neither is. */
  lemma TheMostReadableFreeOne(show: Show, id: string, w: Wall, now: int)
    ensures var slug := FreeSlug(show, id, w, now);
      && (IsFree(show, DaySlug(w), id, now) ==> slug == DaySlug(w))
      && (!IsFree(show, DaySlug(w), id, now) && IsFree(show, TimeSlug(w), id, now) ==> slug == TimeSlug(w))
      && (!IsFree(show, DaySlug(w), id, now) && !IsFree(show, TimeSlug(w), id, now) ==> slug == IdSlug(w, id))
  {
  }

  lemma OneDigitMore(tens: nat, digit: nat)
    requires tens > 0 && digit < 10
    ensures Spelled(10 * tens + digit) == Spelled(tens) + [DigitChar(digit)]
  {
    var n := 10 * tens + digit;
    assert n / 10 == tens && n % 10 == digit;
  }

  /** The shapes on one evening: year, month and day; hour and minute; the last eight characters of a UUID. */
  lemma AnEveningsSlugs()
    ensures var w, id := Wall(2026, 3, 7, 20, 5), "018f3b2a-7c1d-7e4f-9a0b-1c2d3e4f5a6b";
      && OnTheClock(w) && IsDateId(id)
      && DaySlug(w) == "2026-03-07" && TimeSlug(w) == "2026-03-07" + "-2005" && IdSlug(w, id) == "2026-03-07" + "-3e4f5a6b"
  {
    var id := "018f3b2a-7c1d-7e4f-9a0b-1c2d3e4f5a6b";
    assert |id| == 36 && id[28..] == "3e4f5a6b";
    OneDigitMore(2, 0);
    OneDigitMore(20, 2);
    OneDigitMore(202, 6);
  }

  // ---------- every run of one show's commands ----------

  /** The lock on the show puts its commands one after the other. */
  datatype Step =
    | Publish(id: string, wall: Wall, now: int)
    | Postpone(id: string, wall: Wall, now: int)

  predicate Enabled(show: Show, step: Step) {
    && IsDateId(step.id) && OnTheClock(step.wall)
    && (step.Publish? ==> step.id !in show.slugs)
    && (step.Postpone? ==> step.id in show.slugs)
  }

  function Take(show: Show, step: Step): Show
    requires Enabled(show, step)
  {
    Given(show, step.id, FreeSlug(show, step.id, step.wall, step.now), step.now)
  }

  /** A date given a slug: the one it held before, if it is another, goes on leading to it. */
  function Given(show: Show, id: string, slug: string, now: int): Show {
    var given := show.(slugs := show.slugs[id := slug], now := now);
    if id in show.slugs && show.slugs[id] != slug then
      given.(aliases := show.aliases[show.slugs[id] := Alias(id, now + show.redirectMs)])
    else given
  }

  function After(start: Show, run: seq<Step>): Option<Show> {
    if run == [] then Some(start)
    else
      match After(start, run[..|run| - 1])
      case None => None
      case Some(show) => if Enabled(show, run[|run| - 1]) then Some(Take(show, run[|run| - 1])) else None
  }

  /** A show none of whose dates is public yet. */
  predicate NoSlugYet(show: Show) { show.slugs == map[] && show.aliases == map[] }

  /** A slug its date could have been given. */
  ghost predicate OwnSlug(slug: string, id: string) {
    IsDateId(id) && exists w :: OnTheClock(w) && slug in Candidates(w, id)
  }

  ghost predicate TailsDistinct(ids: set<string>) {
    forall a, b :: a in ids && b in ids && Tail(a) == Tail(b) ==> a == b
  }

  ghost predicate Unique(show: Show) {
    forall a, b :: a in show.slugs && b in show.slugs && show.slugs[a] == show.slugs[b] ==> a == b
  }

  /** A retired slug still leads to one of the ids, which could have been given it. */
  ghost predicate AliasStands(show: Show, ids: set<string>, retired: string) {
    retired in show.aliases ==>
      show.aliases[retired].target in ids && OwnSlug(retired, show.aliases[retired].target)
  }

  ghost predicate WellSlugged(show: Show, ids: set<string>) {
    && show.slugs.Keys <= ids
    && (forall id :: id in show.slugs ==> OwnSlug(show.slugs[id], id))
    && (forall slug :: AliasStands(show, ids, slug))
    && Unique(show)
  }

  /** No date could have been given another's last candidate. */
  lemma LastCandidateIsOnesOwn(w: Wall, id: string, other: string)
    requires OnTheClock(w) && IsDateId(id) && Tail(id) != Tail(other)
    ensures !OwnSlug(IdSlug(w, id), other)
  {
    forall v | OnTheClock(v) && IsDateId(other) ensures IdSlug(w, id) !in Candidates(v, other) {
      ShapesAreDisjoint(v, w, id);
      if IdSlug(w, id) == IdSlug(v, other) {
        IdSlugNamesItsTail(w, v, id, other);
      }
    }
  }

  lemma TheLastCandidateIsFree(show: Show, ids: set<string>, id: string, w: Wall, now: int)
    requires WellSlugged(show, ids) && id in ids && TailsDistinct(ids) && OnTheClock(w) && IsDateId(id)
    ensures IsFree(show, IdSlug(w, id), id, now)
  {
    var last := IdSlug(w, id);
    forall other | other in ids && other != id ensures !OwnSlug(last, other) {
      LastCandidateIsOnesOwn(w, id, other);
    }
    assert AliasStands(show, ids, last);
  }

  /** What `freeDateSlug` answers is always free: the last candidate never needs the fall-through. */
  lemma TheAnswerIsFree(show: Show, ids: set<string>, id: string, w: Wall, now: int)
    requires WellSlugged(show, ids) && id in ids && TailsDistinct(ids) && OnTheClock(w) && IsDateId(id)
    ensures IsFree(show, FreeSlug(show, id, w, now), id, now)
  {
    TheLastCandidateIsFree(show, ids, id, w, now);
  }

  lemma TheAnswerIsOnesOwn(show: Show, id: string, w: Wall, now: int)
    requires OnTheClock(w) && IsDateId(id)
    ensures OwnSlug(FreeSlug(show, id, w, now), id)
  {
    assert FreeSlug(show, id, w, now) in Candidates(w, id);
  }

  lemma GivenKeepsUnique(show: Show, id: string, slug: string, now: int)
    requires Unique(show) && !HeldByAnother(show, slug, id)
    ensures Unique(Given(show, id, slug, now))
  {
  }

  lemma GivenKeepsOwnSlug(show: Show, id: string, slug: string, now: int, other: string)
    requires OwnSlug(slug, id) && other in Given(show, id, slug, now).slugs
    requires other in show.slugs ==> OwnSlug(show.slugs[other], other)
    ensures OwnSlug(Given(show, id, slug, now).slugs[other], other)
  {
  }

  lemma GivenKeepsAlias(show: Show, ids: set<string>, id: string, slug: string, now: int, retired: string)
    requires id in ids && AliasStands(show, ids, retired)
    requires id in show.slugs ==> OwnSlug(show.slugs[id], id)
    ensures AliasStands(Given(show, id, slug, now), ids, retired)
  {
    var t := Given(show, id, slug, now);
    if id in show.slugs && show.slugs[id] == retired && retired != slug {
      assert t.aliases[retired].target == id;
    } else {
      assert retired in t.aliases <==> retired in show.aliases;
      assert retired in t.aliases ==> t.aliases[retired] == show.aliases[retired];
    }
  }

  /** Giving a date a free slug of its own keeps every slug in place. */
  lemma GivenKeepsWellSlugged(show: Show, ids: set<string>, id: string, slug: string, now: int)
    requires WellSlugged(show, ids) && id in ids && OwnSlug(slug, id) && !HeldByAnother(show, slug, id)
    ensures WellSlugged(Given(show, id, slug, now), ids)
  {
    var t := Given(show, id, slug, now);
    GivenKeepsUnique(show, id, slug, now);
    forall other | other in t.slugs ensures OwnSlug(t.slugs[other], other) {
      GivenKeepsOwnSlug(show, id, slug, now, other);
    }
    forall retired ensures AliasStands(t, ids, retired) {
      assert AliasStands(show, ids, retired);
      GivenKeepsAlias(show, ids, id, slug, now, retired);
    }
  }

  lemma StepKeepsWellSlugged(show: Show, ids: set<string>, step: Step)
    requires WellSlugged(show, ids) && Enabled(show, step) && step.id in ids && TailsDistinct(ids)
    ensures WellSlugged(Take(show, step), ids)
  {
    TheAnswerIsFree(show, ids, step.id, step.wall, step.now);
    TheAnswerIsOnesOwn(show, step.id, step.wall, step.now);
    GivenKeepsWellSlugged(show, ids, step.id, FreeSlug(show, step.id, step.wall, step.now), step.now);
  }

  /** Every id a run names, and the clock of a run that never goes back. */
  predicate Names(run: seq<Step>, ids: set<string>) { forall i :: 0 <= i < |run| ==> run[i].id in ids }

  /** No two dates of one show ever hold the same slug, in any run, given ids that differ in their tails. */
  lemma {:induction false} SlugsStayUnique(start: Show, run: seq<Step>, ids: set<string>)
    requires NoSlugYet(start) && TailsDistinct(ids) && Names(run, ids) && After(start, run).Some?
    ensures WellSlugged(After(start, run).value, ids)
  {
    if run != [] {
      SlugsStayUnique(start, run[..|run| - 1], ids);
      StepKeepsWellSlugged(After(start, run[..|run| - 1]).value, ids, run[|run| - 1]);
    }
  }

  // ---------- retired links ----------

  predicate Chronological(start: int, run: seq<Step>) {
    && (run != [] ==> start <= run[0].now)
    && (forall i :: 0 < i < |run| ==> run[i - 1].now <= run[i].now)
  }

  /** If the slug is a retired one not yet expired, it leads to this date. */
  ghost predicate LeadsTo(show: Show, slug: string, id: string) {
    slug in show.aliases && show.now < show.aliases[slug].expiresAt ==> show.aliases[slug].target == id
  }

  /** The slug a date holds is no unexpired alias, unless the alias is its own. */
  ghost predicate LinksHold(show: Show) {
    forall id :: id in show.slugs ==> LeadsTo(show, show.slugs[id], id)
  }

  lemma GivenKeepsLink(show: Show, id: string, slug: string, now: int, other: string)
    requires Unique(show) && LinksHold(show) && IsFree(show, slug, id, now) && show.now <= now
    requires other in Given(show, id, slug, now).slugs
    ensures LeadsTo(Given(show, id, slug, now), Given(show, id, slug, now).slugs[other], other)
  {
    if other != id {
      assert LeadsTo(show, show.slugs[other], other);
    }
  }

  lemma GivenKeepsLinks(show: Show, id: string, slug: string, now: int)
    requires Unique(show) && LinksHold(show) && IsFree(show, slug, id, now) && show.now <= now
    ensures LinksHold(Given(show, id, slug, now))
  {
    forall other | other in Given(show, id, slug, now).slugs
      ensures LeadsTo(Given(show, id, slug, now), Given(show, id, slug, now).slugs[other], other)
    {
      GivenKeepsLink(show, id, slug, now, other);
    }
  }

  lemma StepKeepsLinks(show: Show, ids: set<string>, step: Step)
    requires WellSlugged(show, ids) && LinksHold(show) && Enabled(show, step)
    requires step.id in ids && TailsDistinct(ids) && show.now <= step.now
    ensures LinksHold(Take(show, step))
  {
    TheAnswerIsFree(show, ids, step.id, step.wall, step.now);
    GivenKeepsLinks(show, step.id, FreeSlug(show, step.id, step.wall, step.now), step.now);
  }

  /** While the clock never goes back, no run sends a retired link anywhere but to its own date. */
  lemma {:induction false} RetiredLinksStayWithTheirDate(start: Show, run: seq<Step>, ids: set<string>)
    requires NoSlugYet(start) && TailsDistinct(ids) && Names(run, ids) && After(start, run).Some?
    requires Chronological(start.now, run)
    ensures LinksHold(After(start, run).value)
    ensures After(start, run).value.now == if run == [] then start.now else run[|run| - 1].now
  {
    if run != [] {
      var before := run[..|run| - 1];
      RetiredLinksStayWithTheirDate(start, before, ids);
      SlugsStayUnique(start, before, ids);
      StepKeepsLinks(After(start, before).value, ids, run[|run| - 1]);
    }
  }

  /** A slug a date leaves is kept from every other for as long as the redirect lasts, and no longer. */
  lemma ALeftSlugIsKept(show: Show, id: string, slug: string, now: int, other: string, later: int)
    requires id in show.slugs && show.slugs[id] != slug && other != id && Unique(show)
    requires slug != show.slugs[id] && !HeldByAnother(show, show.slugs[id], id)
    ensures var left, after := show.slugs[id], Given(show, id, slug, now);
      && (later < now + show.redirectMs ==> !IsFree(after, left, other, later))
      && (now + show.redirectMs <= later ==> IsFree(after, left, other, later))
      && IsFree(after, left, id, later)
  {
  }

  // ---------- without distinct tails ----------

  /** Once the day and the time are held by others, a date publishing then is given its last candidate. */
  lemma OnlyTheLastIsLeft(show: Show, id: string, w: Wall, now: int)
    requires HeldByAnother(show, DaySlug(w), id) && HeldByAnother(show, TimeSlug(w), id)
    ensures FreeSlug(show, id, w, now) == IdSlug(w, id)
  {
  }

  /** The first two dates published at an hour hold the day and the time. */
  lemma TwoAtOneHour(start: Show, now: int, w: Wall, a: string, b: string) returns (s: Show)
    requires NoSlugYet(start) && OnTheClock(w) && IsDateId(a) && IsDateId(b) && a != b
    ensures After(start, [Publish(a, w, now), Publish(b, w, now)]) == Some(s)
    ensures s.slugs == map[a := DaySlug(w), b := TimeSlug(w)] && s.aliases == map[]
  {
    var first, second := Publish(a, w, now), Publish(b, w, now);
    ShapesAreDisjoint(w, w, a);
    var s1 := Take(start, first);
    assert FreeSlug(start, a, w, now) == DaySlug(w) && s1.slugs[a] == DaySlug(w);
    AfterOneMore(start, [], first);
    AfterOneMore(start, [first], second);
    assert [] + [first] == [first] && [first] + [second] == [first, second];
    s := Take(s1, second);
    assert HeldByAnother(s1, DaySlug(w), b) && !HeldByAnother(s1, TimeSlug(w), b);
  }

  lemma AfterOneMore(start: Show, run: seq<Step>, step: Step)
    requires After(start, run).Some?
    ensures After(start, run + [step]) ==
              if Enabled(After(start, run).value, step) then Some(Take(After(start, run).value, step)) else None
  {
    assert (run + [step])[..|run|] == run;
  }

  lemma AloneIsFree(show: Show, id: string, w: Wall, now: int)
    requires show.aliases == map[] && forall other :: other in show.slugs ==> other == id
    ensures FreeSlug(show, id, w, now) == DaySlug(w)
  {
    FreeExactly(show, DaySlug(w), id, now);
  }

  /** A date alone in its show is published under its day, and postponed under its new one, the old one leading to it. */
  lemma PublishedThenPostponed(start: Show, id: string, w: Wall, v: Wall, now: int)
    requires NoSlugYet(start) && OnTheClock(w) && OnTheClock(v) && IsDateId(id) && DaySlug(w) != DaySlug(v)
    ensures var t := After(start, [Publish(id, w, now), Postpone(id, v, now)]);
      && t.Some? && t.value.slugs == map[id := DaySlug(v)]
      && t.value.aliases == map[DaySlug(w) := Alias(id, now + start.redirectMs)]
  {
    var first, second := Publish(id, w, now), Postpone(id, v, now);
    AfterOneMore(start, [], first);
    AfterOneMore(start, [first], second);
    assert [] + [first] == [first] && [first] + [second] == [first, second];
    AloneIsFree(start, id, w, now);
    var s := Take(start, first);
    assert s.slugs == map[id := DaySlug(w)];
    AloneIsFree(s, id, v, now);
  }

  /** With the day and the time held by others, two more dates alike in their tails are given one slug. */
  lemma TheNextTwoCollide(s: Show, now: int, w: Wall, a: string, b: string, c: string, d: string)
    requires OnTheClock(w) && IsDateId(c) && IsDateId(d) && c != d && Tail(c) == Tail(d)
    requires a != c && a != d && b != c && b != d && s.slugs == map[a := DaySlug(w), b := TimeSlug(w)] && a != b
    ensures Enabled(s, Publish(c, w, now))
    ensures var t := Take(s, Publish(c, w, now)); Enabled(t, Publish(d, w, now)) && !Unique(Take(t, Publish(d, w, now)))
  {
    assert s.slugs[a] == DaySlug(w) && s.slugs[b] == TimeSlug(w);
    OnlyTheLastIsLeft(s, c, w, now);
    var t := Take(s, Publish(c, w, now));
    assert t.slugs == s.slugs[c := IdSlug(w, c)];
    assert t.slugs[a] == DaySlug(w) && t.slugs[b] == TimeSlug(w);
    OnlyTheLastIsLeft(t, d, w, now);
    var u := Take(t, Publish(d, w, now));
    assert u.slugs[c] == u.slugs[d];
  }

  /** Four dates at one hour, two of them alike in their last eight characters: the last two share a slug. */
  lemma SharedTailsCollide(start: Show, now: int, w: Wall, a: string, b: string, c: string, d: string)
    requires NoSlugYet(start) && OnTheClock(w) && IsDateId(a) && IsDateId(b) && IsDateId(c) && IsDateId(d)
    requires a != b && a != c && a != d && b != c && b != d && c != d && Tail(c) == Tail(d)
    ensures var run := [Publish(a, w, now), Publish(b, w, now), Publish(c, w, now), Publish(d, w, now)];
      After(start, run).Some? && !Unique(After(start, run).value)
  {
    var run := [Publish(a, w, now), Publish(b, w, now)];
    var s := TwoAtOneHour(start, now, w, a, b);
    TheNextTwoCollide(s, now, w, a, b, c, d);
    AfterOneMore(start, run, Publish(c, w, now));
    AfterOneMore(start, run + [Publish(c, w, now)], Publish(d, w, now));
    assert run + [Publish(c, w, now)] + [Publish(d, w, now)] ==
           [Publish(a, w, now), Publish(b, w, now), Publish(c, w, now), Publish(d, w, now)];
  }
}
