/**
 The tasks themselves, as they update a run in place (workers/tasks/screen.py and
 services/run_health.py). Every method is tied to the transition it performs.
 */
module ScreeningTasks {
  import opened Applications
  import opened Wrappers
  import opened RunModel
  import opened RunHealth
  import opened Sorting

  function SetOf<T>(xs: seq<T>): set<T> {
    set x | x in xs
  }

  lemma SetOfSnoc<T>(xs: seq<T>, i: nat)
    requires i < |xs|
    ensures SetOf(xs[..i + 1]) == SetOf(xs[..i]) + {xs[i]}
  {
    assert xs[..i + 1] == xs[..i] + [xs[i]];
  }

  lemma SetOfAppend<T>(xs: seq<T>, x: T)
    ensures SetOf(xs + [x]) == SetOf(xs) + {x}
  {
  }

  // ----- one row at a time -----

  function Copied(memo: map<AppId, Evaluation>, seen: set<AppId>): map<AppId, Evaluation> {
    map a | a in memo && a in seen :: memo[a]
  }

  lemma CopiedNext(rows: map<AppId, Evaluation>, memo: map<AppId, Evaluation>, seen: set<AppId>, app: AppId)
    ensures app in memo ==> rows + Copied(memo, seen + {app}) == (rows + Copied(memo, seen))[app := memo[app]]
    ensures app !in memo ==> Copied(memo, seen + {app}) == Copied(memo, seen)
  {
  }

  lemma LeftNext(seen: set<AppId>, keys: set<AppId>, app: AppId)
    ensures app in keys ==> (seen + {app}) - keys == seen - keys
    ensures app !in keys ==> (seen + {app}) - keys == seen - keys + {app}
  {
  }

  lemma CopiedAll(memo: map<AppId, Evaluation>, seen: set<AppId>)
    requires memo.Keys <= seen
    ensures Copied(memo, seen) == memo && Copied(memo, {}) == map[]
  {
  }

  lemma RowsNext(rows: map<AppId, Evaluation>, chosen: set<AppId>, seen: set<AppId>, app: AppId, row: Evaluation)
    ensures app in chosen ==> rows + Rows(chosen * (seen + {app}), row) == (rows + Rows(chosen * seen, row))[app := row]
    ensures app !in chosen ==> Rows(chosen * (seen + {app}), row) == Rows(chosen * seen, row)
  {
    if app !in chosen {
      assert chosen * (seen + {app}) == chosen * seen;
    }
  }

  lemma NoRows(row: Evaluation)
    ensures Rows({}, row) == map[]
  {
  }

  lemma DrainNext(rows: map<AppId, Evaluation>, results: set<AppId>, app: AppId)
    ensures app in DrainLight(rows, results) ==> DrainLight(rows, results + {app}) == DrainLight(rows, results)
    ensures app !in DrainLight(rows, results) ==>
              DrainLight(rows, results + {app}) == DrainLight(rows, results)[app := LIGHT_ROW]
  {
  }

  /** One result of a finished batch; results come back in any order. */
  datatype Outcome = Outcome(app: AppId, failed: bool)

  ghost predicate AnswersBatch(outcomes: seq<Outcome>, requests: set<AppId>, failures: set<AppId>) {
    && (forall a :: a in requests <==> exists k :: 0 <= k < |outcomes| && outcomes[k].app == a)
    && (forall k :: 0 <= k < |outcomes| ==> (outcomes[k].failed <==> outcomes[k].app in failures))
  }

  function Answered(outcomes: seq<Outcome>): set<AppId> {
    set k | 0 <= k < |outcomes| :: outcomes[k].app
  }

  lemma AnsweredSnoc(outcomes: seq<Outcome>, i: nat)
    requires i < |outcomes|
    ensures Answered(outcomes[..i + 1]) == Answered(outcomes[..i]) + {outcomes[i].app}
  {
    var app := outcomes[i].app;
    forall a | a in Answered(outcomes[..i + 1])
      ensures a in Answered(outcomes[..i]) + {app}
    {
      var k :| 0 <= k < i + 1 && outcomes[..i + 1][k].app == a;
      assert k < i ==> outcomes[..i][k].app == a;
    }
    forall a | a in Answered(outcomes[..i]) + {app}
      ensures a in Answered(outcomes[..i + 1])
    {
      if a == app {
        assert outcomes[..i + 1][i].app == a;
      } else {
        var k :| 0 <= k < i && outcomes[..i][k].app == a;
        assert outcomes[..i + 1][k].app == a;
      }
    }
  }

  lemma AnsweredAll(outcomes: seq<Outcome>, requests: set<AppId>, failures: set<AppId>)
    requires AnswersBatch(outcomes, requests, failures)
    ensures Answered(outcomes) == requests
  {
  }

  class ScreeningRun {
    /** The eligible applications that have a profile, in the order the query returns them. */
    const apps: seq<AppId>
    const mode: Mode
    const config: Config
    var status: Status
    var funnel: Funnel
    var evaluations: map<AppId, Evaluation>
    var batches: map<nat, set<AppId>>
    var sent: set<Message>

    ghost function State(): World
      reads this
    {
      World(SetOf(apps), mode, config, status, funnel, evaluations, batches, sent)
    }

    constructor (apps: seq<AppId>, mode: Mode, config: Config)
      ensures this.apps == apps && this.mode == mode && this.config == config
      ensures State() == World(SetOf(apps), mode, config, Queued, Funnel(0, [], None, None), map[], map[], {RunStart})
    {
      this.apps, this.mode, this.config := apps, mode, config;
      status := Queued;
      funnel := Funnel(0, [], None, None);
      evaluations, batches := map[], map[];
      sent := {RunStart};
    }

    method Claim(source: Status, target: Status, message: Message) returns (won: bool)
      modifies this`status, this`sent
      ensures State() == TryAdvance(old(State()), source, target, message)
      ensures won <==> old(status) == source
    {
      won := status == source;
      if won {
        status := target;
        sent := sent + {message};
      }
    }

    // ----- run_start -----

    method StartRun(memo: map<AppId, Evaluation>, knockedOut: set<AppId>, batchId: nat, dies: bool)
      requires Distinct(apps) && memo.Keys <= SetOf(apps) && knockedOut <= SetOf(apps) - memo.Keys
      modifies this
      ensures State() == AfterRunStart(old(State()), memo, knockedOut, batchId, dies)
    {
      if status != Queued { return; }
      var pending := OpenScreening(memo);
      if mode == Batch {
        StartLightBatch(pending, knockedOut, batchId, dies);
      } else if !dies {
        Dispatch(pending);
      }
    }

    method OpenScreening(memo: map<AppId, Evaluation>) returns (pending: seq<AppId>)
      requires Distinct(apps) && memo.Keys <= SetOf(apps)
      modifies this
      ensures State() == Started(old(State()), memo)
      ensures SetOf(pending) == SetOf(apps) - memo.Keys
    {
      hide SetOf, FunnelTotal;
      var memoized;
      pending, memoized := CopyForward(memo);
      CountsEveryone(apps, memo);
      funnel := funnel.(total := |pending| + memoized, deepPending := []);
      status := Screening;
    }

    /** Evaluations of the same profile, spec and pipeline are copied; the rest are still to do. */
    method CopyForward(memo: map<AppId, Evaluation>) returns (pending: seq<AppId>, memoized: nat)
      requires memo.Keys <= SetOf(apps)
      modifies this`evaluations
      ensures evaluations == old(evaluations) + memo
      ensures SetOf(pending) == SetOf(apps) - memo.Keys
      ensures |pending| + memoized == |apps|
    {
      pending, memoized := [], 0;
      CopiedAll(memo, SetOf(apps));
      assert SetOf(apps[..0]) == {};
      hide SetOf, Copied;
      for i := 0 to |apps|
        invariant evaluations == old(evaluations) + Copied(memo, SetOf(apps[..i]))
        invariant SetOf(pending) == SetOf(apps[..i]) - memo.Keys
        invariant |pending| + memoized == i
      {
        SetOfSnoc(apps, i);
        CopiedNext(old(evaluations), memo, SetOf(apps[..i]), apps[i]);
        LeftNext(SetOf(apps[..i]), memo.Keys, apps[i]);
        if apps[i] in memo {
          evaluations := evaluations[apps[i] := memo[apps[i]]];
          memoized := memoized + 1;
        } else {
          SetOfAppend(pending, apps[i]);
          pending := pending + [apps[i]];
        }
      }
      assert apps[..|apps|] == apps;
    }

    method Dispatch(pending: seq<AppId>)
      modifies this
      ensures State() ==
              if SetOf(pending) == {} then TryAdvance(old(State()), Screening, Selecting, FinalizeRun)
              else Send(old(State()), Screens(SetOf(pending)))
    {
      for i := 0 to |pending|
        invariant State() == Send(old(State()), Screens(SetOf(pending[..i])))
      {
        SetOfSnoc(pending, i);
        assert Screens(SetOf(pending[..i + 1])) == Screens(SetOf(pending[..i])) + {ScreenApplication(pending[i])};
        sent := sent + {ScreenApplication(pending[i])};
      }
      assert pending[..|pending|] == pending;
      if pending == [] {
        assert SetOf(pending) == {};
        var _ := Claim(Screening, Selecting, FinalizeRun);
      } else {
        assert pending[0] in SetOf(pending);
      }
    }

    static lemma CountsEveryone(apps: seq<AppId>, memo: map<AppId, Evaluation>)
      requires Distinct(apps) && memo.Keys <= SetOf(apps)
      ensures FunnelTotal(SetOf(apps), memo) == |apps|
    {
      DistinctSetSize(apps);
      assert |memo| == |memo.Keys|;
      assert SetOf(apps) == (SetOf(apps) - memo.Keys) + memo.Keys;
    }

    method StartLightBatch(pending: seq<AppId>, knockedOut: set<AppId>, batchId: nat, dies: bool)
      requires knockedOut <= SetOf(pending)
      modifies this
      ensures State() == AfterLightBatch(old(State()), SetOf(pending), knockedOut, batchId, dies)
    {
      var requests: seq<AppId> := [];
      NoRows(KNOCKOUT_ROW);
      assert SetOf(pending[..0]) == {} && knockedOut * {} == {};
      for i := 0 to |pending|
        invariant State() == old(State()).(evaluations := evaluations)
        invariant evaluations == old(evaluations) + Rows(knockedOut * SetOf(pending[..i]), KNOCKOUT_ROW)
        invariant SetOf(requests) == SetOf(pending[..i]) - knockedOut
      {
        hide Rows, SetOf;
        SetOfSnoc(pending, i);
        RowsNext(old(evaluations), knockedOut, SetOf(pending[..i]), pending[i], KNOCKOUT_ROW);
        if pending[i] in knockedOut {
          evaluations := evaluations[pending[i] := KNOCKOUT_ROW];
        } else {
          SetOfAppend(requests, pending[i]);
          requests := requests + [pending[i]];
        }
      }
      assert pending[..|pending|] == pending;
      assert knockedOut * SetOf(pending) == knockedOut;
      if dies { return; }
      if requests == [] {
        assert SetOf(requests) == {};
        var _ := Claim(Screening, Selecting, FinalizeRun);
        return;
      }
      assert requests[0] in SetOf(requests);
      batches := batches[batchId := SetOf(requests)];
      funnel := funnel.(light := Some(BatchEntry(batchId, 0)));
      sent := sent + {PollBatch(LightBatch, batchId)};
    }

    // ----- screen_application, in its two halves -----

    method CheckApplication(app: AppId)
      modifies this
      ensures State() == AfterCheckExisting(old(State()), app)
    {
      if status != Screening && status != Selecting { return; }
      if app in evaluations { return; }
      sent := sent + {CommitLight(app)};
    }

    method CommitApplication(app: AppId, stage: StageReached, dies: bool)
      modifies this
      ensures State() == AfterCommitInsert(old(State()), app, stage, dies)
    {
      if app !in evaluations {
        evaluations := evaluations[app := Evaluation(stage, NoDeep)];
      }
      if !dies {
        FinishLightPhase();
      }
    }

    method FinishLightPhase()
      modifies this
      ensures State() == MaybeFinishLight(old(State()))
    {
      var done := |evaluations|;
      if done >= funnel.total {
        var _ := Claim(Screening, Selecting, FinalizeRun);
      }
    }

    // ----- finalize_run -----

    method Finalize(selected: seq<AppId>, batchId: nat, death: FinalizeDeath)
      modifies this
      ensures State() == AfterFinalize(old(State()), selected, batchId, death)
    {
      if status != Selecting { return; }
      funnel := funnel.(deepPending := selected);
      if death == BeforeAdvance { return; }
      if selected == [] {
        var _ := Claim(Selecting, Scoring, ScoreRun);
        return;
      }
      var _ := Claim(Selecting, DeepAnalysis, Noop);
      if death == AfterAdvance { return; }
      if mode == Batch {
        StartDeepBatch(selected, batchId);
        return;
      }
      label dispatch:
      for i := 0 to |selected|
        invariant State() == Send(old@dispatch(State()), Deeps(SetOf(selected[..i])))
      {
        SetOfSnoc(selected, i);
        assert Deeps(SetOf(selected[..i + 1])) == Deeps(SetOf(selected[..i])) + {DeepApplication(selected[i])};
        sent := sent + {DeepApplication(selected[i])};
      }
      assert selected[..|selected|] == selected;
    }

    method StartDeepBatch(selected: seq<AppId>, batchId: nat)
      requires selected == funnel.deepPending
      modifies this
      ensures State() == AfterDeepBatch(old(State()), batchId)
    {
      var requests: seq<AppId> := [];
      for i := 0 to |selected|
        invariant State() == old(State())
        invariant SetOf(requests) == SetOf(selected[..i]) * evaluations.Keys - DeepDone(State())
      {
        SetOfSnoc(selected, i);
        if selected[i] in evaluations && evaluations[selected[i]].stage != Deep {
          SetOfAppend(requests, selected[i]);
          requests := requests + [selected[i]];
        }
      }
      assert selected[..|selected|] == selected;
      assert SetOf(selected) == Pending(State());
      if requests == [] {
        assert SetOf(requests) == {};
        var _ := Claim(DeepAnalysis, Scoring, ScoreRun);
        return;
      }
      assert requests[0] in SetOf(requests);
      batches := batches[batchId := SetOf(requests)];
      funnel := funnel.(deep := Some(BatchEntry(batchId, 0)));
      sent := sent + {PollBatch(DeepBatch, batchId)};
    }

    // ----- deep_application -----

    method DeepenApplication(app: AppId, failed: bool, dies: bool)
      modifies this
      ensures State() == AfterDeep(old(State()), app, failed, dies)
    {
      if status != DeepAnalysis { return; }
      if app !in evaluations || evaluations[app].stage == Deep {
        FinishDeepPhase();
        return;
      }
      evaluations := evaluations[app := Deepened(evaluations[app], failed)];
      if !dies {
        FinishDeepPhase();
      }
    }

    method FinishDeepPhase()
      modifies this
      ensures State() == MaybeFinishDeep(old(State()))
    {
      var pending := SetOf(funnel.deepPending);
      var done := set a | a in evaluations && evaluations[a].stage == Deep;
      assert pending == Pending(State()) && done == DeepDone(State());
      if pending <= done {
        var _ := Claim(DeepAnalysis, Scoring, ScoreRun);
      }
    }

    // ----- poll_batch -----

    method Poll(stage: BatchStage, id: nat, ended: bool, outcomes: seq<Outcome>, ghost failures: set<AppId>, dies: bool)
      requires id in batches && AnswersBatch(outcomes, batches[id], failures)
      modifies this
      ensures State() == AfterPoll(old(State()), stage, id, ended, failures, dies)
    {
      if status != WaitStatus(stage) { return; }
      if !ended {
        var entry := Polled(EntryOf(funnel, stage), id);
        funnel := WithEntry(funnel, stage, entry);
        var waited := entry.polls * config.pollInterval;
        if waited >= config.maxWait {
          status := Failed;
        } else {
          sent := sent + {PollBatch(stage, id)};
        }
        return;
      }
      if stage == LightBatch {
        DrainLightBatch(outcomes, batches[id], failures);
        if !dies {
          var _ := Claim(Screening, Selecting, FinalizeRun);
        }
      } else {
        DrainDeepBatch(outcomes, batches[id], failures);
        if !dies {
          var _ := Claim(DeepAnalysis, Scoring, ScoreRun);
        }
      }
    }

    method DrainLightBatch(outcomes: seq<Outcome>, ghost requests: set<AppId>, ghost failures: set<AppId>)
      requires AnswersBatch(outcomes, requests, failures)
      modifies this`evaluations
      ensures evaluations == DrainLight(old(evaluations), requests)
    {
      for i := 0 to |outcomes|
        invariant evaluations == DrainLight(old(evaluations), Answered(outcomes[..i]))
      {
        var app := outcomes[i].app;
        AnsweredSnoc(outcomes, i);
        DrainNext(old(evaluations), Answered(outcomes[..i]), app);
        hide DrainLight, Answered;
        if app !in evaluations {
          evaluations := evaluations[app := LIGHT_ROW];
        }
      }
      assert outcomes[..|outcomes|] == outcomes;
      AnsweredAll(outcomes, requests, failures);
    }

    method DrainDeepBatch(outcomes: seq<Outcome>, ghost requests: set<AppId>, ghost failures: set<AppId>)
      requires AnswersBatch(outcomes, requests, failures)
      modifies this`evaluations
      ensures evaluations == DrainDeep(old(evaluations), requests, failures)
    {
      for i := 0 to |outcomes|
        invariant evaluations == DrainDeep(old(evaluations), Answered(outcomes[..i]), failures)
      {
        var app := outcomes[i].app;
        AnsweredSnoc(outcomes, i);
        if app in evaluations && evaluations[app].stage != Deep {
          evaluations := evaluations[app := Deepened(evaluations[app], outcomes[i].failed)];
        }
      }
      assert outcomes[..|outcomes|] == outcomes;
      AnsweredAll(outcomes, requests, failures);
    }

    // ----- recover -----

    method RecoverRun()
      modifies this
      ensures State() == AfterRecover(old(State()))
    {
      var enqueue: seq<Message> := [];
      var lightCheck, deepCheck := false, false;
      match status {
        case Queued => enqueue := [RunStart];
        case Screening =>
          if funnel.light.Some? {
            enqueue := [PollBatch(LightBatch, funnel.light.value.id)];
          } else {
            enqueue := MissingScreens();
            lightCheck := enqueue == [];
          }
        case Selecting => enqueue := [FinalizeRun];
        case DeepAnalysis =>
          if funnel.deep.Some? {
            enqueue := [PollBatch(DeepBatch, funnel.deep.value.id)];
          } else {
            enqueue := UndoneDeeps();
            deepCheck := enqueue == [];
          }
        case Scoring => enqueue := [ScoreRun];
        case Complete => return;
        case Failed => return;
      }
      assert SetOf(enqueue) == Reissued(State());
      for i := 0 to |enqueue|
        invariant State() == Send(old(State()), SetOf(enqueue[..i]))
      {
        SetOfSnoc(enqueue, i);
        sent := sent + {enqueue[i]};
      }
      assert enqueue[..|enqueue|] == enqueue;
      if lightCheck {
        FinishLightPhase();
      }
      if deepCheck {
        FinishDeepPhase();
      }
    }

    method MissingScreens() returns (enqueue: seq<Message>)
      ensures SetOf(enqueue) == Screens(Missing(State()))
      ensures enqueue == [] <==> Missing(State()) == {}
    {
      enqueue := [];
      for i := 0 to |apps|
        invariant SetOf(enqueue) == Screens(SetOf(apps[..i]) - evaluations.Keys)
        invariant enqueue == [] <==> SetOf(apps[..i]) - evaluations.Keys == {}
      {
        SetOfSnoc(apps, i);
        if apps[i] !in evaluations {
          SetOfAppend(enqueue, ScreenApplication(apps[i]));
          enqueue := enqueue + [ScreenApplication(apps[i])];
          assert apps[i] in SetOf(apps[..i + 1]) - evaluations.Keys;
        } else {
          assert SetOf(apps[..i + 1]) - evaluations.Keys == SetOf(apps[..i]) - evaluations.Keys;
        }
      }
      assert apps[..|apps|] == apps;
    }

    method UndoneDeeps() returns (enqueue: seq<Message>)
      ensures SetOf(enqueue) == Deeps(Undone(State()))
      ensures enqueue == [] <==> Undone(State()) == {}
    {
      var done := set a | a in evaluations && evaluations[a].stage == Deep;
      assert done == DeepDone(State());
      enqueue := [];
      for i := 0 to |funnel.deepPending|
        invariant SetOf(enqueue) == Deeps(SetOf(funnel.deepPending[..i]) - done)
        invariant enqueue == [] <==> SetOf(funnel.deepPending[..i]) - done == {}
      {
        var app := funnel.deepPending[i];
        SetOfSnoc(funnel.deepPending, i);
        if app !in done {
          SetOfAppend(enqueue, DeepApplication(app));
          enqueue := enqueue + [DeepApplication(app)];
          assert app in SetOf(funnel.deepPending[..i + 1]) - done;
        } else {
          assert SetOf(funnel.deepPending[..i + 1]) - done == SetOf(funnel.deepPending[..i]) - done;
        }
      }
      assert funnel.deepPending[..|funnel.deepPending|] == funnel.deepPending;
    }

    // ----- score_run, as far as the run itself is concerned -----

    method Score()
      modifies this
      ensures State() == AfterScore(old(State()))
    {
      if status != Scoring { return; }
      status := Complete;
    }
  }
}
