// PATCHes of one metric that overlap. Each loads the row without a lock, decides on what it loaded, and commits the
// columns it changed together with its tickets.

module MetricRaces {

  import opened Calendar
  import opened Metrics
  import opened Results

  /** The columns in which `next` differs from what was loaded are written; the others stay as the row has them. */
  function Overlaid(row: Metric, seen: Metric, next: Metric): Metric {
    Metric(
      row.shape + map k | k in next.shape && (k !in seen.shape || seen.shape[k] != next.shape[k]) :: next.shape[k],
      if next.status != seen.status then next.status else row.status,
      if next.rollupsFrom != seen.rollupsFrom then next.rollupsFrom else row.rollupsFrom,
      if next.description != seen.description then next.description else row.description)
  }

  datatype InFlight = InFlight(seen: Metric, call: Call)

  datatype State = State(life: Life, loaded: map<nat, InFlight>)

  datatype Step =
    | Load(request: nat, call: Call)
    | Finish(request: nat)

  predicate Enabled(s: State, step: Step) {
    match step
    case Load(request, _) => request !in s.loaded
    case Finish(request) => request in s.loaded
  }

  function Landed(life: Life, f: InFlight): Life {
    if Refusal(f.seen, f.call).Some? then life
    else Life(Overlaid(life.row, f.seen, Patched(f.seen, f.call)), life.published + Published(f.seen, f.call))
  }

  function Apply(s: State, step: Step): State
    requires Enabled(s, step)
  {
    match step
    case Load(request, call) => s.(loaded := s.loaded[request := InFlight(s.life.row, call)])
    case Finish(request) => State(Landed(s.life, s.loaded[request]), s.loaded - {request})
  }

  ghost predicate IsRun(states: seq<State>, steps: seq<Step>) {
    && |states| == |steps| + 1
    && forall i | 0 <= i < |steps| :: Enabled(states[i], steps[i]) && states[i + 1] == Apply(states[i], steps[i])
  }

  // ---------------------------------------------------------------- what a late commit does

  predicate Has(shape: Shape, k: Key, value: string) {
    k in shape && shape[k] == value
  }

  /** Each column the call edits has, as the call would store it, the value that was loaded, so that it is not written,
      or the value the row holds by now; and so has the start. */
  predicate SetsNothingNew(row: Metric, seen: Metric, call: Call) {
    && (match call.rules.parse(seen.shape + call.patch.edits)
        case None => true
        case Some(definition) =>
          forall k | k in call.patch.edits ::
            Has(seen.shape, k, definition.column(k)) || Has(row.shape, k, definition.column(k)))
    && (Start(seen, call) == seen.rollupsFrom || Start(seen, call) == row.rollupsFrom)
  }

  lemma OverlaidShape(row: Metric, seen: Metric, next: Metric)
    ensures Overlaid(row, seen, next).shape == row.shape
       <==> forall k | k in next.shape :: Has(seen.shape, k, next.shape[k]) || Has(row.shape, k, next.shape[k])
  {
    var shape := Overlaid(row, seen, next).shape;
    if shape == row.shape {
      forall k | k in next.shape ensures Has(seen.shape, k, next.shape[k]) || Has(row.shape, k, next.shape[k]) {
        assert Has(seen.shape, k, next.shape[k]) || Has(shape, k, next.shape[k]);
      }
    }
    if forall k | k in next.shape :: Has(seen.shape, k, next.shape[k]) || Has(row.shape, k, next.shape[k]) {
      assert shape == row.shape;
    }
  }

  lemma ReshapedColumn(seen: Metric, call: Call, definition: Definition, k: Key)
    requires call.rules.parse(seen.shape + call.patch.edits) == Some(definition)
    ensures k in call.patch.edits ==> Has(Reshaped(seen, call), k, definition.column(k))
    ensures k !in call.patch.edits && k in Reshaped(seen, call) ==> Has(seen.shape, k, Reshaped(seen, call)[k])
  {
  }

  lemma ShapeStaysIff(row: Metric, seen: Metric, call: Call, definition: Definition)
    requires call.rules.parse(seen.shape + call.patch.edits) == Some(definition)
    ensures Overlaid(row, seen, Patched(seen, call)).shape == row.shape
       <==> forall k | k in call.patch.edits ::
              Has(seen.shape, k, definition.column(k)) || Has(row.shape, k, definition.column(k))
  {
    OverlaidShape(row, seen, Patched(seen, call));
    var next := Reshaped(seen, call);
    forall k
      ensures k in call.patch.edits ==> Has(next, k, definition.column(k))
      ensures k !in call.patch.edits && k in next ==> Has(seen.shape, k, next[k])
    {
      ReshapedColumn(seen, call, definition, k);
    }
    EveryKeyIff(next, call.patch.edits.Keys, seen.shape, row.shape, definition.column);
  }

  lemma EveryKeyIff(next: Shape, edits: set<Key>, seen: Shape, row: Shape, column: Key -> string)
    requires forall k | k in edits :: Has(next, k, column(k))
    requires forall k | k in next && k !in edits :: Has(seen, k, next[k])
    ensures (forall k | k in next :: Has(seen, k, next[k]) || Has(row, k, next[k]))
       <==> (forall k | k in edits :: Has(seen, k, column(k)) || Has(row, k, column(k)))
  {
    if forall k | k in next :: Has(seen, k, next[k]) || Has(row, k, next[k]) {
      forall k | k in edits ensures Has(seen, k, column(k)) || Has(row, k, column(k)) {
        assert Has(next, k, column(k));
      }
    }
  }

  lemma NeverBackToDraft(row: Metric, seen: Metric, call: Call)
    requires Refusal(seen, call).None? && row.status != Draft
    ensures Overlaid(row, seen, Patched(seen, call)).status != Draft
  {
  }

  /** A metric that has been live by now keeps its shape and its start under a commit decided on an earlier row exactly
      when the commit sets nothing of them that the row does not hold already. */
  lemma LateCommitSettlesIff(row: Metric, seen: Metric, call: Call)
    requires Refusal(seen, call).None? && row.status != Draft
    ensures Settled(row, Overlaid(row, seen, Patched(seen, call))) <==> SetsNothingNew(row, seen, call)
  {
    ShapeStaysIff(row, seen, call, call.rules.parse(seen.shape + call.patch.edits).value);
    NeverBackToDraft(row, seen, call);
  }

  // ---------------------------------------------------------------- who goes live

  /** A metric just created as a draft, that nobody has loaded. */
  predicate FreshDraft(s: State) {
    s.life.row.status == Draft && s.life.published == [] && s.loaded == map[]
  }

  /** Step `k` commits a call that takes the row it had loaded live. */
  predicate Goes(states: seq<State>, steps: seq<Step>, k: int) {
    && 0 <= k < |steps| && k < |states| && steps[k].Finish? && steps[k].request in states[k].loaded
    && GoesLive(states[k].loaded[steps[k].request].seen, states[k].loaded[steps[k].request].call)
  }

  ghost predicate NoneGoes(states: seq<State>, steps: seq<Step>, n: int) {
    forall k | 0 <= k < n :: !Goes(states, steps, k)
  }

  /** The row, and every row in flight. */
  predicate AllDraft(s: State) {
    s.life.row.status == Draft && forall r | r in s.loaded :: s.loaded[r].seen.status == Draft
  }

  lemma CommitOnDrafts(life: Life, f: InFlight)
    requires life.row.status == Draft && f.seen.status == Draft
    ensures Landed(life, f).row.status == Draft <==> !GoesLive(f.seen, f.call)
    ensures !GoesLive(f.seen, f.call) ==> Landed(life, f).published == life.published
  {
  }

  lemma LiveStaysLive(life: Life, f: InFlight)
    requires life.row.status != Draft
    ensures Landed(life, f).row.status != Draft
  {
    if Refusal(f.seen, f.call).None? {
      NeverBackToDraft(life.row, f.seen, f.call);
    }
  }

  /** The row is a draft for just as long as no request has gone live on what it had loaded. */
  lemma {:induction false} DraftUntilOneGoes(states: seq<State>, steps: seq<Step>, n: nat)
    requires IsRun(states, steps) && FreshDraft(states[0]) && n <= |steps|
    ensures states[n].life.row.status == Draft <==> NoneGoes(states, steps, n)
    ensures NoneGoes(states, steps, n) ==> AllDraft(states[n]) && states[n].life.published == []
    decreases n
  {
    if n > 0 {
      var s, step := states[n - 1], steps[n - 1];
      DraftUntilOneGoes(states, steps, n - 1);
      assert Enabled(s, step) && states[n] == Apply(s, step);
      assert NoneGoes(states, steps, n) <==> NoneGoes(states, steps, n - 1) && !Goes(states, steps, n - 1);
      if step.Finish? {
        if NoneGoes(states, steps, n - 1) {
          CommitOnDrafts(s.life, s.loaded[step.request]);
        } else {
          LiveStaysLive(s.life, s.loaded[step.request]);
        }
      }
    }
  }

  ghost predicate AtMostOneGoes(states: seq<State>, steps: seq<Step>, n: int) {
    forall j, k | 0 <= j < n && 0 <= k < n && Goes(states, steps, j) && Goes(states, steps, k) :: j == k
  }

  /** Whoever goes live finds a draft: what a lock, or a check of the status in the UPDATE, would see to. */
  ghost predicate EachFindsADraft(states: seq<State>, steps: seq<Step>, n: int)
    requires n <= |states|
  {
    forall k | 0 <= k < n && Goes(states, steps, k) :: states[k].life.row.status == Draft
  }

  /** Over every run, exactly: a metric goes live at most once if and only if every request that goes live, on the row
      it had loaded, still finds the metric a draft when it commits. */
  lemma GoesLiveOnceIff(states: seq<State>, steps: seq<Step>, n: nat)
    requires IsRun(states, steps) && FreshDraft(states[0]) && n <= |steps|
    ensures AtMostOneGoes(states, steps, n) <==> EachFindsADraft(states, steps, n)
  {
    forall k | 0 <= k < n ensures states[k].life.row.status == Draft <==> NoneGoes(states, steps, k) {
      DraftUntilOneGoes(states, steps, k);
    }
    if AtMostOneGoes(states, steps, n) {
      forall k | 0 <= k < n && Goes(states, steps, k) ensures states[k].life.row.status == Draft {
        assert NoneGoes(states, steps, k);
      }
    }
    if EachFindsADraft(states, steps, n) {
      forall j, k | 0 <= j < n && 0 <= k < n && Goes(states, steps, j) && Goes(states, steps, k) ensures j == k {
        assert NoneGoes(states, steps, j) && NoneGoes(states, steps, k);
      }
    }
  }

  // ---------------------------------------------------------------- what stays settled

  ghost predicate SettledThroughout(states: seq<State>, n: int)
    requires n < |states|
  {
    forall i, j | 0 <= i <= j <= n :: Settled(states[i].life.row, states[j].life.row)
  }

  /** An accepted commit that meets a live metric neither takes it live again nor sets anything new. */
  predicate LateIsHarmless(s: State, step: Step) {
    step.Finish? && step.request in s.loaded && s.life.row.status != Draft ==>
      var f := s.loaded[step.request];
      Refusal(f.seen, f.call).None? ==> !GoesLive(f.seen, f.call) && SetsNothingNew(s.life.row, f.seen, f.call)
  }

  ghost predicate LateOnesAreHarmless(states: seq<State>, steps: seq<Step>, n: int)
    requires n <= |steps| && n <= |states|
  {
    forall k | 0 <= k < n :: LateIsHarmless(states[k], steps[k])
  }

  lemma StepSettlesIff(s: State, step: Step)
    requires Enabled(s, step)
    ensures s.life.row.status == Draft || !step.Finish? ==> Settled(s.life.row, Apply(s, step).life.row)
    ensures s.life.row.status != Draft && step.Finish? ==>
      var f := s.loaded[step.request];
      (Settled(s.life.row, Apply(s, step).life.row) <==>
       (Refusal(f.seen, f.call).None? ==> SetsNothingNew(s.life.row, f.seen, f.call)))
  {
    if s.life.row.status != Draft && step.Finish? {
      var f := s.loaded[step.request];
      if Refusal(f.seen, f.call).None? {
        LateCommitSettlesIff(s.life.row, f.seen, f.call);
      }
    }
  }

  ghost predicate StepsSettle(states: seq<State>, n: int)
    requires n < |states|
  {
    forall k | 0 <= k < n :: Settled(states[k].life.row, states[k + 1].life.row)
  }

  lemma {:induction false} SettledStepByStep(states: seq<State>, n: nat)
    requires n < |states|
    ensures SettledThroughout(states, n) <==> StepsSettle(states, n)
    decreases n
  {
    if n > 0 {
      SettledStepByStep(states, n - 1);
      assert StepsSettle(states, n)
        <==> StepsSettle(states, n - 1) && Settled(states[n - 1].life.row, states[n].life.row);
      if SettledThroughout(states, n) {
        assert SettledThroughout(states, n - 1);
      }
      if StepsSettle(states, n) {
        forall i | 0 <= i <= n ensures Settled(states[i].life.row, states[n].life.row) {
          assert i < n ==> Settled(states[i].life.row, states[n - 1].life.row);
        }
      }
    }
  }

  /** Over every run, exactly: a metric goes live at most once, and from then on keeps its shape and its start, if and
      only if every accepted commit that meets it live neither goes live again nor sets anything new. */
  lemma LifecycleHoldsIff(states: seq<State>, steps: seq<Step>, n: nat)
    requires IsRun(states, steps) && FreshDraft(states[0]) && n <= |steps|
    ensures AtMostOneGoes(states, steps, n) && SettledThroughout(states, n)
       <==> LateOnesAreHarmless(states, steps, n)
  {
    GoesLiveOnceIff(states, steps, n);
    SettledStepByStep(states, n);
    forall k | 0 <= k < n
      ensures LateIsHarmless(states[k], steps[k])
         <==> && (Goes(states, steps, k) ==> states[k].life.row.status == Draft)
              && Settled(states[k].life.row, states[k + 1].life.row)
    {
      assert Enabled(states[k], steps[k]) && states[k + 1] == Apply(states[k], steps[k]);
      StepSettlesIff(states[k], steps[k]);
    }
    if LateOnesAreHarmless(states, steps, n) {
      forall k | 0 <= k < n
        ensures Goes(states, steps, k) ==> states[k].life.row.status == Draft
        ensures Settled(states[k].life.row, states[k + 1].life.row)
      {
        assert LateIsHarmless(states[k], steps[k]);
      }
    }
    if EachFindsADraft(states, steps, n) && StepsSettle(states, n) {
      forall k | 0 <= k < n ensures LateIsHarmless(states[k], steps[k]) {
        assert Settled(states[k].life.row, states[k + 1].life.row);
      }
    }
  }

  // ---------------------------------------------------------------- what is published

  lemma LandedPublishes(life: Life, f: InFlight)
    ensures Landed(life, f).published == life.published
      + if GoesLive(f.seen, f.call) then HistoryBefore(Start(f.seen, f.call).value, f.call.watermark) else []
    ensures GoesLive(f.seen, f.call) ==> Start(f.seen, f.call).Some?
  {
  }

  /** Whatever is published over a run in which at most one request goes live is the history before that request's own
      start; and nothing while none has. */
  lemma {:induction false} PublishedIsThatHistory(states: seq<State>, steps: seq<Step>, n: nat, k: nat)
    requires IsRun(states, steps) && FreshDraft(states[0]) && n <= |steps| && AtMostOneGoes(states, steps, n)
    ensures NoneGoes(states, steps, n) ==> states[n].life.published == []
    ensures k < n && Goes(states, steps, k) ==>
      var f := states[k].loaded[steps[k].request];
      Start(f.seen, f.call).Some?
        && states[n].life.published == HistoryBefore(Start(f.seen, f.call).value, f.call.watermark)
    decreases n
  {
    DraftUntilOneGoes(states, steps, n);
    if k < n && Goes(states, steps, k) {
      var s, step := states[n - 1], steps[n - 1];
      assert Enabled(s, step) && states[n] == Apply(s, step);
      if k == n - 1 {
        DraftUntilOneGoes(states, steps, k);
        assert NoneGoes(states, steps, k);
        LandedPublishes(s.life, s.loaded[step.request]);
      } else {
        PublishedIsThatHistory(states, steps, n - 1, k);
        assert !Goes(states, steps, n - 1);
        if step.Finish? {
          LandedPublishes(s.life, s.loaded[step.request]);
        }
      }
    }
  }

  /** The start the row has after the commit: the call's own if it is written, else what the row has by then. */
  function LandedStart(row: Metric, f: InFlight): Option<Instant> {
    if Start(f.seen, f.call) != f.seen.rollupsFrom then Start(f.seen, f.call) else row.rollupsFrom
  }

  predicate BeforeWatermark(from: Instant, watermark: Option<Instant>) {
    watermark.Some? && from < watermark.value
  }

  /** What was published is the history of the metric, from its stored start to the watermark. */
  predicate PublishedItsHistory(life: Life, watermark: Option<Instant>) {
    life.row.rollupsFrom.Some? && life.published == HistoryBefore(life.row.rollupsFrom.value, watermark)
  }

  /** The same start, or two that both leave nothing to build. */
  predicate SameHistory(x: Instant, y: Instant, watermark: Option<Instant>) {
    x == y || (!BeforeWatermark(x, watermark) && !BeforeWatermark(y, watermark))
  }

  lemma SameHistoryIff(x: Instant, y: Instant, watermark: Option<Instant>)
    ensures HistoryBefore(x, watermark) == HistoryBefore(y, watermark) <==> SameHistory(x, y, watermark)
  {
    if HistoryBefore(x, watermark) == HistoryBefore(y, watermark) && BeforeWatermark(x, watermark) {
      assert HistoryBefore(x, watermark)[0] == HistoryBefore(y, watermark)[0];
    }
  }

  lemma GoingLiveSetsStart(life: Life, f: InFlight)
    requires GoesLive(f.seen, f.call)
    ensures Landed(life, f).row.status != Draft && Landed(life, f).row.rollupsFrom == LandedStart(life.row, f)
  {
  }

  /** Over every run whose lifecycle holds, the metric having gone live at step `k`: what was published is exactly the
      history from its stored start to that call's watermark if and only if the start the call went by is the one the
      row then has, or neither start is before the watermark. A draft's start edited between load and commit breaks it. */
  lemma PublishedItsHistoryIff(states: seq<State>, steps: seq<Step>, n: nat, k: nat)
    requires IsRun(states, steps) && FreshDraft(states[0]) && n <= |steps|
    requires LateOnesAreHarmless(states, steps, n) && k < n && Goes(states, steps, k)
    ensures var f := states[k].loaded[steps[k].request];
      var start := LandedStart(states[k].life.row, f);
      && Start(f.seen, f.call).Some?
      && (PublishedItsHistory(states[n].life, f.call.watermark) <==>
          start.Some? && SameHistory(start.value, Start(f.seen, f.call).value, f.call.watermark))
  {
    var f := states[k].loaded[steps[k].request];
    LifecycleHoldsIff(states, steps, n);
    PublishedIsThatHistory(states, steps, n, k);
    assert Enabled(states[k], steps[k]) && states[k + 1] == Apply(states[k], steps[k]);
    GoingLiveSetsStart(states[k].life, f);
    assert Settled(states[k + 1].life.row, states[n].life.row);
    var start := LandedStart(states[k].life.row, f);
    if start.Some? {
      SameHistoryIff(start.value, Start(f.seen, f.call).value, f.call.watermark);
    }
  }

  // ---------------------------------------------------------------- at an input

  lemma OneMoreStep(states: seq<State>, steps: seq<Step>, step: Step) returns (longer: seq<State>, done: seq<Step>)
    requires IsRun(states, steps) && Enabled(states[|steps|], step)
    ensures IsRun(longer, done) && longer == states + [Apply(states[|steps|], step)] && done == steps + [step]
  {
    longer, done := states + [Apply(states[|steps|], step)], steps + [step];
  }

  /** Two requests load a draft, one after the other, and commit in turn. */
  lemma TwoLoadsTwoCommits(row: Metric, first: Call, second: Call) returns (states: seq<State>, steps: seq<Step>)
    requires row.status == Draft
    ensures IsRun(states, steps) && FreshDraft(states[0]) && states[0].life.row == row
    ensures steps == [Load(0, first), Load(1, second), Finish(0), Finish(1)]
    ensures states[2] == State(Life(row, []), map[0 := InFlight(row, first), 1 := InFlight(row, second)])
    ensures states[3] == State(Landed(Life(row, []), InFlight(row, first)), map[1 := InFlight(row, second)])
    ensures states[4].life == Landed(states[3].life, InFlight(row, second))
  {
    states, steps := [State(Life(row, []), map[])], [];
    states, steps := OneMoreStep(states, steps, Load(0, first));
    states, steps := OneMoreStep(states, steps, Load(1, second));
    states, steps := OneMoreStep(states, steps, Finish(0));
    assert map[0 := InFlight(row, first), 1 := InFlight(row, second)] - {0} == map[1 := InFlight(row, second)];
    states, steps := OneMoreStep(states, steps, Finish(1));
  }

  function AnyRules(): Rules {
    Rules(shape => Some(Definition(k => "", true, true)), (d, choosing) => true, text => Some(2))
  }

  /** Goes live when the fold has reached 3. */
  function Activate(): Call {
    Call(Patch(map[], None, Some(Some("active")), None), AnyRules(), 4, Some(3))
  }

  /** Moves the start to 2. */
  function MoveStart(): Call {
    Call(Patch(map[], None, None, Some(Some("2"))), AnyRules(), 4, Some(3))
  }

  /** A draft whose history is to start at 0. */
  const DRAFT: Metric := Metric(map[], Draft, Some(0), None)

  lemma ActivateGoesLive()
    ensures GoesLive(DRAFT, Activate()) && Start(DRAFT, Activate()) == Some(0)
    ensures Published(DRAFT, Activate()) == [Range(0, 3)]
    ensures Patched(DRAFT, Activate()) == DRAFT.(status := Active)
  {
    assert Reshaped(DRAFT, Activate()) == map[];
  }

  lemma MoveStartMoves()
    ensures Refusal(DRAFT, MoveStart()).None? && !GoesLive(DRAFT, MoveStart()) && Published(DRAFT, MoveStart()) == []
    ensures Patched(DRAFT, MoveStart()) == DRAFT.(rollupsFrom := Some(2))
  {
    assert Reshaped(DRAFT, MoveStart()) == map[];
  }

  /** Two activations of one draft at once: both go live, and its history is asked for twice. */
  lemma OverlappingActivationsPublishTwice() returns (states: seq<State>, steps: seq<Step>)
    ensures IsRun(states, steps) && FreshDraft(states[0]) && |steps| == 4
    ensures Goes(states, steps, 2) && Goes(states, steps, 3)
    ensures states[4].life.published == [Range(0, 3), Range(0, 3)]
  {
    ActivateGoesLive();
    states, steps := TwoLoadsTwoCommits(DRAFT, Activate(), Activate());
    assert states[3].life.published == [] + [Range(0, 3)];
  }

  /** The start of a draft is moved under its activation: the history published is not that of the metric. */
  lemma StartMovedUnderActivation() returns (states: seq<State>, steps: seq<Step>)
    ensures IsRun(states, steps) && FreshDraft(states[0]) && |steps| == 4
    ensures AtMostOneGoes(states, steps, 4) && Goes(states, steps, 3)
    ensures states[4].life.published == [Range(0, 3)] && states[4].life.row.rollupsFrom == Some(2)
  {
    ActivateGoesLive();
    MoveStartMoves();
    states, steps := TwoLoadsTwoCommits(DRAFT, MoveStart(), Activate());
    assert states[3].life == Life(DRAFT.(rollupsFrom := Some(2)), [] + []);
    assert states[4].life.published == [] + [Range(0, 3)];
    assert !Goes(states, steps, 0) && !Goes(states, steps, 1) && !Goes(states, steps, 2);
  }

  // ---------------------------------------------------------------- runs that might as well not overlap

  /** Every request commits on the very row it loaded. */
  ghost predicate NoneOverlaps(states: seq<State>, steps: seq<Step>, n: nat)
    requires IsRun(states, steps) && n <= |steps|
  {
    forall k | 0 <= k < n :: Enabled(states[k], steps[k]) && CommitsOnLoaded(states[k], steps[k])
  }

  predicate CommitsOnLoaded(s: State, step: Step) {
    step.Finish? && step.request in s.loaded ==> s.loaded[step.request].seen == s.life.row
  }

  /** The calls in the order of their commits. */
  function Committing(states: seq<State>, steps: seq<Step>, n: nat): seq<Call>
    requires n <= |steps| < |states|
  {
    if n == 0 then []
    else
      var s, step := states[n - 1], steps[n - 1];
      var last := if step.Finish? && step.request in s.loaded then [s.loaded[step.request].call] else [];
      Committing(states, steps, n - 1) + last
  }

  lemma OverlaidOnItself(row: Metric, call: Call)
    ensures Overlaid(row, row, Patched(row, call)) == Patched(row, call)
  {
    var next := Patched(row, call);
    assert row.shape.Keys <= next.shape.Keys;
    assert Overlaid(row, row, next).shape == next.shape;
  }

  /** Such a run is the run of its calls one after the other, of which LifecycleOnlyMovesForward and
      HistoryIsPublishedOnce speak. */
  lemma {:induction false} RunsWithoutOverlapAreSerial(states: seq<State>, steps: seq<Step>, n: nat)
    requires IsRun(states, steps) && n <= |steps| && NoneOverlaps(states, steps, n)
    requires states[0].life.published == []
    ensures states[n].life == Run(states[0].life.row, Committing(states, steps, n))
    decreases n
  {
    if n > 0 {
      var s, step := states[n - 1], steps[n - 1];
      assert NoneOverlaps(states, steps, n - 1);
      RunsWithoutOverlapAreSerial(states, steps, n - 1);
      assert Enabled(s, step) && states[n] == Apply(s, step) && CommitsOnLoaded(s, step);
      var before := Committing(states, steps, n - 1);
      if step.Finish? {
        var call := s.loaded[step.request].call;
        OverlaidOnItself(s.life.row, call);
        assert (before + [call])[..|before + [call]| - 1] == before;
      } else {
        assert before + [] == before;
      }
    }
  }
}
