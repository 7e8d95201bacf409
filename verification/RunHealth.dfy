/** Recovery of a stranded run (services/run_health.py): re-issue exactly the missing messages. */
module RunHealth {
  import opened Applications
  import opened RunModel

  predicate Active(status: Status) {
    status != Complete && status != Failed
  }

  /** The deep-pending applications that have not reached Stage 5. */
  function Undone(w: World): set<AppId> {
    Pending(w) - DeepDone(w)
  }

  /** The messages `recover` enqueues in a state. */
  function Reissued(w: World): set<Message> {
    match w.status
    case Queued => {RunStart}
    case Screening =>
      (match w.funnel.light
       case Some(entry) => {PollBatch(LightBatch, entry.id)}
       case None => Screens(Missing(w)))
    case Selecting => {FinalizeRun}
    case DeepAnalysis =>
      (match w.funnel.deep
       case Some(entry) => {PollBatch(DeepBatch, entry.id)}
       case None => Deeps(Undone(w)))
    case Scoring => {ScoreRun}
    case Complete => {}
    case Failed => {}
  }

  /** Enqueue, then check a phase that has nothing left to enqueue. */
  function AfterRecover(w: World): (v: World)
    ensures SameRun(v, w) && v.evaluations == w.evaluations
  {
    var enqueued := Send(w, Reissued(w));
    if w.status == Screening && w.funnel.light.None? && Missing(w) == {}
    then MaybeFinishLight(enqueued)
    else if w.status == DeepAnalysis && w.funnel.deep.None? && Undone(w) == {}
    then MaybeFinishDeep(enqueued)
    else enqueued
  }
}
