/**
 * The task status machine as functions on a task's lifecycle state
 * (status, completion instant, stored report): the explicit status update,
 * the "start" shortcut and the "close task" step, with the summary of
 * what the generated report shows.
 */
module Lifecycle {
  import opened Wrappers
  import opened PyStr
  import opened Models
  import opened Checklist

  /** One entry of the report's checklist section: question, rendered answer, linked asset. */
  datatype ReportEntry = ReportEntry(question: string, answer: string, asset: Option<Id>)

  /**
   * The stored report: its file, and the facts the document prints that
   * the lifecycle decides: the status label, the completion instant, the
   * generation instant and one entry per checklist item (none: the
   * document prints its "no checklist entries" line instead).
   */
  datatype Report = Report(
    file: FileRef,
    statusShown: TaskStatus,
    completedShown: Option<Time>,
    generatedAt: Time,
    entries: seq<ReportEntry>)

  /** The lifecycle part of a task. */
  datatype State = State(status: TaskStatus, completedAt: Option<Time>, report: Option<Report>)

  /** The stamping rule: not yet done, or done without a completion instant. */
  function NeedsStamp(status: TaskStatus, completedAt: Option<Time>): (r: bool)
    ensures status != Done ==> r
    ensures completedAt.None? ==> r
    ensures status == Done && completedAt.Some? ==> !r
  {
    status != Done || completedAt.None?
  }

  /** A done task that carries its completion instant. */
  predicate Stamped(st: State) {
    st.status == Done ==> st.completedAt.Some?
  }

  /**
   * `update_task` once the submitted code has been checked (`next` is
   * `ParseTaskStatus` of the stripped field): an invalid code changes
   * nothing; a valid one becomes the status, and entering `done` stamps
   * `now` under the stamping rule. The completion instant is never cleared.
   */
  function StatusUpdated(st: State, next: Option<TaskStatus>, now: Time): (r: State)
    ensures next.None? ==> r == st
    ensures next.Some? ==> r.status == next.value
    ensures r.report == st.report
    ensures next == Some(Done) && NeedsStamp(st.status, st.completedAt) ==> r.completedAt == Some(now)
    ensures !(next == Some(Done) && NeedsStamp(st.status, st.completedAt)) ==> r.completedAt == st.completedAt
    ensures st.completedAt.Some? ==> r.completedAt.Some?
  {
    match next
    case None => st
    case Some(status) =>
      var wasDone := st.status == Done;
      var stamp := status == Done && (!wasDone || st.completedAt.None?);
      State(status, if stamp then Some(now) else st.completedAt, st.report)
  }

  /** The status a new task starts in: the submitted code when valid, otherwise `scheduled`. */
  function InitialStatus(raw: string): (r: TaskStatus)
    ensures ParseTaskStatus(Strip(raw)).Some? ==> r.Code() == Strip(raw)
    ensures ParseTaskStatus(Strip(raw)).None? ==> r == DefaultTaskStatus
  {
    match ParseTaskStatus(Strip(raw))
    case Some(st) => st
    case None => DefaultTaskStatus
  }

  /** The dashboard's "start": `in_progress` from `scheduled` or `in_progress`, otherwise nothing. */
  function Started(st: State): (r: State)
    ensures r.status == InProgress <==> st.status in {Scheduled, InProgress}
    ensures r.completedAt == st.completedAt && r.report == st.report
    ensures st.status !in {Scheduled, InProgress} ==> r == st
  {
    if st.status in {Scheduled, InProgress} then st.(status := InProgress) else st
  }

  /** The report's checklist section: one entry per item, in the items' order. */
  function Entries(items: seq<ChecklistItem>, showDecimal: Decimal -> string): (r: seq<ReportEntry>)
    ensures |r| == |items|
    ensures forall k :: 0 <= k < |items| ==>
              r[k] == ReportEntry(items[k].labelSnapshot, FormatAnswer(items[k], showDecimal), items[k].asset)
  {
    if items == [] then []
    else [ReportEntry(items[0].labelSnapshot, FormatAnswer(items[0], showDecimal), items[0].asset)]
         + Entries(items[1..], showDecimal)
  }

  /**
   * "Close task" after the answers are saved: the completion instant is
   * stamped under the stamping rule, the report is built from the task as
   * it is at that point (so it shows the status before closing), then the
   * status becomes `done`.
   */
  function Closed(st: State, items: seq<ChecklistItem>, now: Time, generatedAt: Time,
                  file: FileRef, showDecimal: Decimal -> string): (r: State)
    ensures r.status == Done && r.completedAt.Some? && r.report.Some?
    ensures NeedsStamp(st.status, st.completedAt) ==> r.completedAt == Some(now)
    ensures !NeedsStamp(st.status, st.completedAt) ==> r.completedAt == st.completedAt
    ensures r.report.value.file == file && r.report.value.generatedAt == generatedAt
    ensures r.report.value.statusShown == st.status
    ensures r.report.value.completedShown == r.completedAt
    ensures r.report.value.entries == Entries(items, showDecimal)
  {
    var completedAt := if st.status != Done || st.completedAt.None? then Some(now) else st.completedAt;
    var report := Report(file, st.status, completedAt, generatedAt, Entries(items, showDecimal));
    State(Done, completedAt, Some(report))
  }

  /** Repeating a status update changes nothing more: in particular a second `done` keeps the stamp. */
  lemma StatusUpdateIdempotent(st: State, next: Option<TaskStatus>, t1: Time, t2: Time)
    ensures StatusUpdated(StatusUpdated(st, next, t1), next, t2) == StatusUpdated(st, next, t1)
  {
  }

  /** Starting twice is starting once. */
  lemma StartIdempotent(st: State)
    ensures Started(Started(st)) == Started(st)
  {
  }

  /** Closing an already closed task replaces the report but keeps the completion instant. */
  lemma CloseTwiceKeepsCompletion(st: State, items1: seq<ChecklistItem>, items2: seq<ChecklistItem>,
                                  t1: Time, t2: Time, g1: Time, g2: Time,
                                  f1: FileRef, f2: FileRef, showDecimal: Decimal -> string)
    ensures var once := Closed(st, items1, t1, g1, f1, showDecimal);
            var twice := Closed(once, items2, t2, g2, f2, showDecimal);
            twice.completedAt == once.completedAt && twice.report.value.statusShown == Done
  {
  }

  /** Every lifecycle step keeps "a done task has its completion instant". */
  lemma StepsKeepStamped(st: State, next: Option<TaskStatus>, now: Time, items: seq<ChecklistItem>,
                         generatedAt: Time, file: FileRef, showDecimal: Decimal -> string)
    requires Stamped(st)
    ensures Stamped(StatusUpdated(st, next, now))
    ensures Stamped(Started(st))
    ensures Stamped(Closed(st, items, now, generatedAt, file, showDecimal))
  {
  }

  /** Leaving `done` by an explicit update keeps the completion instant. */
  lemma LeavingDoneKeepsCompletion(st: State, next: Option<TaskStatus>, now: Time)
    requires st.status == Done && next.Some? && next.value != Done
    ensures StatusUpdated(st, next, now).completedAt == st.completedAt
  {
  }
}
