/**
 * The vocabulary of `@arthome/core` the date aggregate uses. Its decision tables are not part of
 * this model: they are function-valued parameters, so what is proved holds for any tables.
 */
module CoreRules {
  import opened Options

  type Instant = int

  datatype PublicationState = Draft | Reserve | Scheduled | Technical | Live | Ended | ReplayOnline

  datatype Promise = PricesEngaged | OtherPromise(code: string)

  datatype Command = Command(to: PublicationState, expectedVersion: int, acknowledgedPromise: Option<Promise>)

  datatype DateOutcome = Cancelled | Postponed | Interrupted

  datatype Declaration = Declaration(outcome: DateOutcome, rescheduledTo: Option<Instant>)

  datatype ReplayPolicy = ReplayIncluded | ReplayPaid | NoReplay

  datatype Refusal =
    | StateConflict(currentVersion: int, state: PublicationState)
    | TransitionForbidden(from: PublicationState, to: PublicationState)
    | ChecklistIncomplete(missing: set<string>)
    | OtherRefusal(code: string)
    | EndedBeforeStarted(dateId: string)
    | Defect(text: string)

  datatype Transition = Allowed(promise: Option<Promise>) | Forbidden(refusal: Refusal)

  /** What the outcome rule looks at. */
  datatype OutcomeFacts = OutcomeFacts(
    outcome: Option<DateOutcome>, postponements: nat, state: PublicationState,
    startsAt: Instant, runtimeMin: int, replayPolicy: ReplayPolicy, replayWindowHours: int)

  datatype Rules = Rules(
    commanded: (PublicationState, int, Command) -> Transition,                   // assertCommandedTransition
    eventDriven: (PublicationState, PublicationState) -> bool,                   // isEventDriven
    ready: set<string> -> bool,                                                  // publicationReadiness
    missing: set<string> -> set<string>,
    outcomeRefused: (OutcomeFacts, Declaration, Instant) -> Option<Refusal>,     // assertOutcomeDeclarable
    createsReplay: (ReplayPolicy, int, Option<DateOutcome>) -> bool)             // createsReplayOnLiveEnd
}
