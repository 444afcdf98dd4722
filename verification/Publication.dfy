/** The `Publication` entity: an immutable snapshot, every decision giving the next one and its events. */
module Publication {
  import opened Options
  import opened CoreRules

  datatype PublicationSnapshot = PublicationSnapshot(
    dateId: string, channelId: string, state: PublicationState, version: int,
    publishedAt: Option<Instant>, pricesLockedAt: Option<Instant>, replayOnlineAt: Option<Instant>)

  /** `PublicationStateChanged`, as the decision that causes it builds it. */
  datatype StateChange = StateChange(
    dateId: string, channelId: string, from: PublicationState, to: PublicationState, version: int,
    irreversible: bool, occurredAt: Instant)

  datatype Decision =
    | Decided(publication: PublicationSnapshot, changed: StateChange, engaged: bool)
    | Refused(refusal: Refusal)

  datatype Advance = Advanced(publication: PublicationSnapshot) | Stale(refusal: Refusal)

  function DraftOf(dateId: string, channelId: string): PublicationSnapshot {
    PublicationSnapshot(dateId, channelId, Draft, 1, None, None, None)
  }

  /** The next version of the same publication, given only to who names the current one. */
  function AdvancedFrom(p: PublicationSnapshot, expectedVersion: int): (a: Advance)
    ensures a.Advanced? <==> p.version == expectedVersion
    ensures a.Advanced? ==> a.publication.version == p.version + 1 && a.publication.(version := p.version) == p
    ensures a.Stale? ==> a.refusal == StateConflict(p.version, p.state)
  {
    if p.version != expectedVersion then Stale(StateConflict(p.version, p.state))
    else Advanced(p.(version := p.version + 1))
  }

  /** A move the event-driven table allows: no expected version is compared and no prices engaged. */
  function Learned(rules: Rules, p: PublicationSnapshot, to: PublicationState, now: Instant): Decision {
    if !rules.eventDriven(p.state, to) then Refused(TransitionForbidden(p.state, to))
    else Decided(p.(state := to, version := p.version + 1),
                 StateChange(p.dateId, p.channelId, p.state, to, p.version + 1, false, now), false)
  }

  function Or(value: Option<Instant>, otherwise: Instant): Option<Instant> {
    if value.Some? then value else Some(otherwise)
  }

  /** A commanded transition; publishing is the one whose promise engages the prices. */
  function Transitioned(rules: Rules, p: PublicationSnapshot, command: Command, satisfied: set<string>, now: Instant): Decision {
    match rules.commanded(p.state, p.version, command)
    case Forbidden(refusal) => Refused(refusal)
    case Allowed(promise) =>
      var publishing := promise == Some(PricesEngaged);
      if publishing && !rules.ready(satisfied) then Refused(ChecklistIncomplete(rules.missing(satisfied)))
      else
        Decided(
          p.(state := command.to, version := p.version + 1,
             publishedAt := if publishing then Or(p.publishedAt, now) else p.publishedAt,
             pricesLockedAt := if publishing then Or(p.pricesLockedAt, now) else p.pricesLockedAt,
             replayOnlineAt := if command.to == ReplayOnline then Some(now) else p.replayOnlineAt),
          StateChange(p.dateId, p.channelId, p.state, command.to, p.version + 1, promise.Some?, now),
          publishing)
  }
}
