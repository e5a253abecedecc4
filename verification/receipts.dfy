/**
 The receipt recorder: one document per (orgId, jobId). `write_receipt`
 replaces the whole document; `write_receipt_status` merges seven fields
 into whatever is already stored.
 */
module Receipts {
  import opened Outcomes
  import opened Config

  /** A stored document field. The error field holds the fault whose
      message `write_receipt_status` stores as text. */
  datatype Field =
    | Text(s: string)
    | Stamp(t: Instant)
    | Number(n: int)
    | Nothing
    | ErrorText(fault: Fault)

  /** The field names of a receipt document. `Other` stands for a field
      some other writer stored, named outside the eleven below. */
  datatype FieldName =
    | JobIdField | ExportIdField | VerticalKeyField | TemplateKeyField | StatusField
    | StartedAtField | FinishedAtField | DeployedAtField | ErrorField | DurationMsField
    | ResultField
    | Other(name: string)
  {
    /** The name as stored. */
    function Name(): string {
      match this
      case JobIdField => "jobId"
      case ExportIdField => "exportId"
      case VerticalKeyField => "verticalKey"
      case TemplateKeyField => "templateKey"
      case StatusField => "status"
      case StartedAtField => "startedAt"
      case FinishedAtField => "finishedAt"
      case DeployedAtField => "deployedAt"
      case ErrorField => "error"
      case DurationMsField => "durationMs"
      case ResultField => "result"
      case Other(n) => n
    }
  }

  type Doc = map<FieldName, Field>

  type ReceiptKey = (string, string)

  type ReceiptStore = map<ReceiptKey, Doc>

  datatype Status = Queued | Building | Deployed | Failed {
    function Name(): string {
      match this
      case Queued => "queued"
      case Building => "building"
      case Deployed => "deployed"
      case Failed => "failed"
    }
  }

  function ReceiptKeyOf(job: Job): ReceiptKey {
    (job.orgId, job.jobId)
  }

  /** The seven fields a status write merges. */
  const StatusFields: set<FieldName> :=
    {JobIdField, ExportIdField, VerticalKeyField, TemplateKeyField, StatusField, StartedAtField, ErrorField}

  /** The four fields only a final write sets. */
  const ClosingFields: set<FieldName> := {FinishedAtField, DeployedAtField, DurationMsField, ResultField}

  /** The eleven fields of a final receipt. */
  const FinalFields: set<FieldName> := StatusFields + ClosingFields

  function StampOrNothing(t: Option<Instant>): Field {
    match t
    case Some(v) => Stamp(v)
    case None => Nothing
  }

  function ErrorOrNothing(e: Option<Fault>): Field {
    match e
    case Some(f) => ErrorText(f)
    case None => Nothing
  }

  /** `int((finished - started).total_seconds() * 1000)`: whole milliseconds,
      truncated toward zero. */
  function DurationMs(started: Instant, finished: Instant): (ms: int)
    ensures finished >= started ==> ms >= 0 && ms * MicrosPerMilli <= finished - started < (ms + 1) * MicrosPerMilli
    ensures finished < started ==> ms <= 0 && (ms - 1) * MicrosPerMilli < finished - started <= ms * MicrosPerMilli
  {
    var delta := finished - started;
    if delta >= 0 then delta / MicrosPerMilli else -((-delta) / MicrosPerMilli)
  }

  /** The document `write_receipt` stores. */
  function FinalDoc(job: Job, status: Status, started: Instant, finished: Instant,
                    deployed: Option<Instant>, error: Option<Fault>): (d: Doc)
    ensures d.Keys == FinalFields
    ensures d[ResultField] == d[StatusField] == Text(status.Name())
    ensures d[JobIdField] == Text(job.jobId) && d[ExportIdField] == Text(job.exportId)
    ensures d[VerticalKeyField] == Text(job.verticalKey) && d[TemplateKeyField] == Text(job.templateKey)
    ensures d[StartedAtField] == Stamp(started) && d[FinishedAtField] == Stamp(finished)
    ensures d[DeployedAtField] == StampOrNothing(deployed)
    ensures d[ErrorField] == ErrorOrNothing(error)
    ensures d[DurationMsField] == Number(DurationMs(started, finished))
  {
    map[
      JobIdField := Text(job.jobId),
      ExportIdField := Text(job.exportId),
      VerticalKeyField := Text(job.verticalKey),
      TemplateKeyField := Text(job.templateKey),
      StatusField := Text(status.Name()),
      StartedAtField := Stamp(started),
      FinishedAtField := Stamp(finished),
      DeployedAtField := StampOrNothing(deployed),
      ErrorField := ErrorOrNothing(error),
      DurationMsField := Number(DurationMs(started, finished)),
      ResultField := Text(status.Name())
    ]
  }

  /** `write_receipt`: full replace of the document at (orgId, jobId). */
  function WriteReceipt(store: ReceiptStore, job: Job, status: Status, started: Instant,
                        finished: Instant, deployed: Option<Instant>, error: Option<Fault>): (r: ReceiptStore)
    ensures r.Keys == store.Keys + {ReceiptKeyOf(job)}
    ensures r[ReceiptKeyOf(job)].Keys == FinalFields
    ensures r[ReceiptKeyOf(job)] == FinalDoc(job, status, started, finished, deployed, error)
    ensures forall k :: k in store && k != ReceiptKeyOf(job) ==> r[k] == store[k]
  {
    store[ReceiptKeyOf(job) := FinalDoc(job, status, started, finished, deployed, error)]
  }

  /** The fields `write_receipt_status` sends. */
  function StatusDoc(job: Job, status: Status, started: Instant, error: Option<Fault>): (d: Doc)
    ensures d.Keys == StatusFields
  {
    map[
      JobIdField := Text(job.jobId),
      ExportIdField := Text(job.exportId),
      VerticalKeyField := Text(job.verticalKey),
      TemplateKeyField := Text(job.templateKey),
      StatusField := Text(status.Name()),
      StartedAtField := Stamp(started),
      ErrorField := ErrorOrNothing(error)
    ]
  }

  /** `write_receipt_status`: merge of the seven status fields into the stored
      document (an absent document is created). */
  function WriteReceiptStatus(store: ReceiptStore, job: Job, status: Status, started: Instant,
                              error: Option<Fault>): (r: ReceiptStore)
    ensures r.Keys == store.Keys + {ReceiptKeyOf(job)}
    ensures forall k :: k in store && k != ReceiptKeyOf(job) ==> r[k] == store[k]
    ensures var d := r[ReceiptKeyOf(job)];
      && d.Keys == StatusFields + (if ReceiptKeyOf(job) in store then store[ReceiptKeyOf(job)].Keys else {})
      && d[StatusField] == Text(status.Name())
      && d[StartedAtField] == Stamp(started)
      && d[ErrorField] == ErrorOrNothing(error)
      && d[JobIdField] == Text(job.jobId) && d[ExportIdField] == Text(job.exportId)
      && d[VerticalKeyField] == Text(job.verticalKey) && d[TemplateKeyField] == Text(job.templateKey)
    ensures ReceiptKeyOf(job) in store ==>
      forall f :: f in store[ReceiptKeyOf(job)] && f !in StatusFields ==>
        r[ReceiptKeyOf(job)][f] == store[ReceiptKeyOf(job)][f]
  {
    var key := ReceiptKeyOf(job);
    var prior := if key in store then store[key] else map[];
    store[key := prior + StatusDoc(job, status, started, error)]
  }

  /** The default error argument of a status write clears any earlier error. */
  lemma StatusWriteClearsError(store: ReceiptStore, job: Job, status: Status, started: Instant)
    requires ReceiptKeyOf(job) in store
    requires ErrorField in store[ReceiptKeyOf(job)] && store[ReceiptKeyOf(job)][ErrorField] != Nothing
    ensures WriteReceiptStatus(store, job, status, started, None)[ReceiptKeyOf(job)][ErrorField] == Nothing
  {
  }

  /** A status write over a final receipt keeps its finish time, deploy time,
      duration and result: the merge only touches the seven status fields. */
  lemma StatusWriteKeepsFinalFields(store: ReceiptStore, job: Job, status: Status, started: Instant,
                                    finished: Instant, deployed: Option<Instant>, error: Option<Fault>,
                                    newStatus: Status, newStarted: Instant)
    ensures
      var s1 := WriteReceipt(store, job, status, started, finished, deployed, error);
      var d := WriteReceiptStatus(s1, job, newStatus, newStarted, None)[ReceiptKeyOf(job)];
      && d.Keys == FinalFields
      && d[FinishedAtField] == Stamp(finished)
      && d[DeployedAtField] == StampOrNothing(deployed)
      && d[DurationMsField] == Number(DurationMs(started, finished))
      && d[ResultField] == Text(status.Name())
      && d[StatusField] == Text(newStatus.Name())
  {
    var s1 := WriteReceipt(store, job, status, started, finished, deployed, error);
    var final := s1[ReceiptKeyOf(job)];
    assert final.Keys == StatusFields + ClosingFields;
    forall f | f in ClosingFields
      ensures f in final && f !in StatusFields
    {
    }
  }

  /** A final write leaves nothing of the earlier status writes behind. */
  lemma FinalWriteReplacesStatus(store: ReceiptStore, job: Job, s1: Status, s2: Status, status: Status,
                                 started: Instant, finished: Instant,
                                 deployed: Option<Instant>, error: Option<Fault>)
    ensures
      var mid := WriteReceiptStatus(WriteReceiptStatus(store, job, s1, started, None), job, s2, started, None);
      WriteReceipt(mid, job, status, started, finished, deployed, error)[ReceiptKeyOf(job)]
        == WriteReceipt(store, job, status, started, finished, deployed, error)[ReceiptKeyOf(job)]
  {
  }
}
