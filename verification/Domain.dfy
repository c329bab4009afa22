/// Entities of the appraisal lifecycle (internal/domain/appraisal.go, internal/domain/events.go,
/// internal/service/service.go). Identifiers and time stamps are opaque numbers: the code only
/// compares them for equality, and fresh ones enter the model as parameters.

module Domain {
  import opened Apartment

  datatype Option<+T> = None | Some(value: T)

  type Uuid = nat
  const NIL: Uuid := 0

  type Stamp = int

  datatype Status = InProgress | Completed

  datatype Appraisal = Appraisal(
    id: Uuid,
    requestId: Uuid,
    appraiserId: Option<Uuid>,
    status: Status,
    notes: Option<string>,
    marketValue: Option<string>,
    reportKey: Option<string>,
    calculationData: Option<CalculationResult>,
    completedAt: Option<Stamp>,
    createdAt: Stamp,
    updatedAt: Stamp)

  /// Comparable data is free-form JSON from a caller, or the entry that applying a calculation writes.
  datatype ComparableData =
    | FreeForm(json: string)
    | AnalogEntry(analogNo: int, analog: Analog, adjustedPrice: real, weight: real)

  datatype Comparable = Comparable(id: Uuid, appraisalId: Uuid, data: ComparableData, createdAt: Stamp)

  datatype UpdateInput = UpdateInput(appraiserId: Option<Uuid>, notes: Option<string>, marketValue: Option<string>)

  /// What a caller asks of one appraisal.
  datatype Operation =
    | Update(input: UpdateInput)
    | UploadReport(key: string)
    | ApplyCalculation(marketValue: string, calculation: CalculationResult, entries: seq<ComparableData>)
    | Complete
    | AddComparable(data: ComparableData)
    | DeleteComparable(comparableId: Uuid)
  {
    /// Operations that save the row through the optimistic lock.
    predicate Saves() {
      Update? || UploadReport? || ApplyCalculation?
    }
  }

  /// The appraisal after an operation edits it at time `now`: the fields the service assigns on the copy it read.
  function Edited(op: Operation, a: Appraisal, now: Stamp): Appraisal {
    match op
    case Update(input) =>
      a.(appraiserId := if input.appraiserId.Some? then input.appraiserId else a.appraiserId,
         notes := if input.notes.Some? then input.notes else a.notes,
         marketValue := if input.marketValue.Some? then input.marketValue else a.marketValue,
         updatedAt := now)
    case UploadReport(key) => a.(reportKey := Some(key), updatedAt := now)
    case ApplyCalculation(value, calculation, _) =>
      a.(marketValue := Some(value), calculationData := Some(calculation), updatedAt := now)
    case Complete => a.(status := Completed, completedAt := Some(now), updatedAt := now)
    case AddComparable(_) => a
    case DeleteComparable(_) => a
  }

  datatype ReportReady = ReportReady(
    appraisalId: Uuid,
    appraiserId: Option<Uuid>,
    reportKey: Option<string>,
    completedAt: Stamp)

  datatype Event = Event(
    eventId: Uuid,
    eventType: string,
    version: int,
    occurredAt: Stamp,
    requestId: Uuid,
    data: ReportReady)

  const TOPIC_REVIEW_EVENTS := "review.events"
  const EVENT_TYPE_REPORT_READY := "report.ready"
  const EVENT_VERSION := 1

  /// The envelope announcing a completed appraisal.
  function NewReportReadyEvent(a: Appraisal, eventId: Uuid, occurredAt: Stamp): Event {
    Event(eventId, EVENT_TYPE_REPORT_READY, EVENT_VERSION, occurredAt, a.requestId,
          ReportReady(a.id, a.appraiserId, a.reportKey,
                      if a.completedAt.Some? then a.completedAt.value else a.updatedAt))
  }

  /// A record of the request.events topic, after the consumer's attempts to decode it.
  datatype Message =
    | Malformed
    | Envelope(eventId: Uuid, eventType: string, requestId: Uuid, data: MessageData)

  datatype MessageData = Unreadable | StatusChanged(newStatus: string)

  const EVENT_TYPE_STATUS_CHANGED := "request.status_changed"
  const STATUS_APPRAISAL := "appraisal"

  /// The messages the consumer acts on: a request entering the appraisal status, with an event id.
  predicate Relevant(m: Message) {
    && m.Envelope?
    && m.eventType == EVENT_TYPE_STATUS_CHANGED
    && m.eventId != NIL
    && m.data.StatusChanged?
    && m.data.newStatus == STATUS_APPRAISAL
  }

  /// BadInput: a calculation rejected its input. Storage: a call into the database or another store failed.
  datatype Error = NotFound | InvalidStatus | Conflict | BadInput | Storage

  /// How a call into Postgres, Redis or Kafka ends: it works, it fails without effect,
  /// or it fails after taking effect (the acknowledgement was lost).
  datatype Fault = NoFault | Lost | Late
}
