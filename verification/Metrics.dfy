// The metric lifecycle: draft -> active <-> inactive, with the shape and the start of history fixed at
// the first activation, and the history before the watermark asked for exactly then.

module Metrics {

  import opened Calendar
  import opened Results
  import opened Tickets

  datatype Status = Draft | Active | Inactive

  predicate Permitted(from: Status, to: Status) {
    (from, to) in {(Draft, Active), (Active, Inactive), (Inactive, Active)}
  }

  function ReadStatus(text: string): Option<Status> {
    if text == "draft" then Some(Draft)
    else if text == "active" then Some(Active)
    else if text == "inactive" then Some(Inactive)
    else None
  }

  datatype Key = Name | Dimensions | Measures | RowFilter | Grains | Source
  type Shape = map<Key, string>

  datatype Metric = Metric(
    shape: Shape,
    status: Status,
    rollupsFrom: Option<Instant>,
    description: Option<string>)

  /** A parsed definition: the column values it is stored as, and whether it has a name and a measure. */
  datatype Definition = Definition(column: Key -> string, named: bool, measured: bool)

  /** What lies outside this module: reading a definition, judging it (more strictly while the measure is
      being chosen), and reading an instant. The judgement may differ from call to call. */
  datatype Rules = Rules(
    parse: Shape -> Option<Definition>,
    acceptable: (Definition, bool) -> bool,
    instant: string -> Option<Instant>)

  /** A PATCH body; the inner None is a JSON null. */
  datatype Patch = Patch(
    edits: map<Key, string>,
    description: Option<Option<string>>,
    status: Option<Option<string>>,
    rollupsFrom: Option<Option<string>>)

  datatype Call = Call(patch: Patch, rules: Rules, now: Instant, watermark: Option<Instant>)

  datatype MetricError =
    | NoSuchMetric                                                    // 404
    | NothingAsked | Malformed | NameRequired | MeasuresRequired      // 400
    | BadStatus | Unacceptable | BadInstant                           // 400
    | ShapeLocked | BadTransition | RollupsLocked                     // 409

  // ---------------------------------------------------------------- one call

  predicate AsksNothing(p: Patch) {
    p.edits == map[] && p.description.None? && p.status.None? && p.rollupsFrom.None?
  }

  predicate BadTarget(p: Patch) {
    p.status.Some? && p.status.value.Some? && ReadStatus(p.status.value.value).None?
  }

  /** The status asked for, if it is one; a null asks for nothing. */
  function Target(p: Patch): Option<Status> {
    if p.status.Some? && p.status.value.Some? then ReadStatus(p.status.value.value) else None
  }

  predicate Activating(row: Metric, p: Patch) {
    Target(p) == Some(Active) && row.status != Active
  }

  predicate Choosing(row: Metric, p: Patch) {
    p.edits != map[] || row.status == Draft
  }

  /** What is wrong with the definition a call would make, or with the move it asks for. */
  function DefinitionRefusal(row: Metric, p: Patch, rules: Rules): Option<MetricError> {
    var editing := p.edits != map[];
    match rules.parse(row.shape + p.edits)
    case None => Some(Malformed)
    case Some(definition) =>
      if editing && !definition.named then Some(NameRequired)
      else if editing && !definition.measured then Some(MeasuresRequired)
      else if BadTarget(p) then Some(BadStatus)
      else if Target(p).Some? && Target(p).value != row.status && !Permitted(row.status, Target(p).value)
      then Some(BadTransition)
      else if (editing || Activating(row, p)) && !rules.acceptable(definition, Choosing(row, p))
      then Some(Unacceptable)
      else None
  }

  /** What is wrong with the start of history a call gives. */
  function StartRefusal(row: Metric, p: Patch, rules: Rules): Option<MetricError> {
    if p.rollupsFrom.Some? && row.status != Draft then Some(RollupsLocked)
    else if p.rollupsFrom.Some? && p.rollupsFrom.value.Some? && rules.instant(p.rollupsFrom.value.value).None?
    then Some(BadInstant)
    else None
  }

  /** Why a call is refused, in the order the checks are made. */
  function Refusal(row: Metric, call: Call): Option<MetricError> {
    if AsksNothing(call.patch) then Some(NothingAsked)
    else if call.patch.edits != map[] && row.status != Draft then Some(ShapeLocked)
    else if DefinitionRefusal(row, call.patch, call.rules).Some?
    then DefinitionRefusal(row, call.patch, call.rules)
    else StartRefusal(row, call.patch, call.rules)
  }

  /** The row's shape with the edited columns as the parsed definition stores them. */
  function Reshaped(row: Metric, call: Call): Shape {
    match call.rules.parse(row.shape + call.patch.edits)
    case None => row.shape
    case Some(definition) => row.shape + map k | k in call.patch.edits :: definition.column(k)
  }

  function GivenStart(row: Metric, p: Patch, rules: Rules): Option<Instant> {
    match p.rollupsFrom
    case None => row.rollupsFrom
    case Some(None) => None
    case Some(Some(text)) => rules.instant(text)
  }

  /** The first activation fixes the start of history: the instant given, or now. */
  function Start(row: Metric, call: Call): Option<Instant> {
    var given := GivenStart(row, call.patch, call.rules);
    if Activating(row, call.patch) && row.status == Draft && given.None? then Some(call.now) else given
  }

  function Patched(row: Metric, call: Call): Metric {
    Metric(Reshaped(row, call),
           if Target(call.patch).Some? then Target(call.patch).value else row.status,
           Start(row, call),
           if call.patch.description.Some? then call.patch.description.value else row.description)
  }

  datatype Range = Range(from: Instant, to: Instant)

  /** What of a history starting at `from` has been folded already and must be folded again. */
  function HistoryBefore(from: Instant, watermark: Option<Instant>): seq<Range> {
    if watermark.Some? && from < watermark.value then [Range(from, watermark.value)] else []
  }

  function Published(row: Metric, call: Call): seq<Range> {
    if Activating(row, call.patch) && row.status == Draft && Start(row, call).Some?
    then HistoryBefore(Start(row, call).value, call.watermark)
    else []
  }

  function PiecesOf(customer: string, ranges: seq<Range>, pad: nat): seq<Ticket> {
    if ranges == [] then []
    else Pieces(customer, ranges[0].from - pad, ranges[0].to + pad, true) + PiecesOf(customer, ranges[1..], pad)
  }

  /** A metric of this status may be told to be what `text` spells: draft to active, pause, resume, or stay. */
  predicate MayBecome(status: Status, text: string) {
    match status
    case Draft => text == "active" || text == "draft"
    case Active => text == "inactive" || text == "active"
    case Inactive => text == "active" || text == "inactive"
  }

  /** What an accepted call can be. Of a metric that has been live it asks for no other shape and no other start; any move
      it asks for is one of the lifecycle's; and a definition is judged when it changes or goes live, by the stricter
      rules unless it only resumes. */
  lemma AcceptedIff(row: Metric, call: Call)
    ensures var p := call.patch;
      var parsed := call.rules.parse(row.shape + p.edits);
      Refusal(row, call).None? <==>
        && (p.edits != map[] || p.description.Some? || p.status.Some? || p.rollupsFrom.Some?)
        && parsed.Some?
        && (row.status != Draft ==> p.edits == map[] && p.rollupsFrom.None?)
        && (p.status.Some? && p.status.value.Some? ==> MayBecome(row.status, p.status.value.value))
        && (p.edits != map[] ==> parsed.value.named && parsed.value.measured)
        && (p.edits != map[] || (p.status == Some(Some("active")) && row.status == Draft) ==>
              call.rules.acceptable(parsed.value, true))
        && (p.status == Some(Some("active")) && row.status == Inactive ==> call.rules.acceptable(parsed.value, false))
        && (p.rollupsFrom.Some? && p.rollupsFrom.value.Some? ==> call.rules.instant(p.rollupsFrom.value.value).Some?)
  {
  }

  /** What an accepted call writes, column by column: the status it spells, the start it gives or, going live without
      one, now; the description it gives; and of the shape the edited columns alone. */
  lemma AcceptedWrites(row: Metric, call: Call, k: Key)
    requires Refusal(row, call).None?
    ensures var p, next := call.patch, Patched(row, call);
      && next.status == (if p.status == Some(Some("draft")) then Draft
                         else if p.status == Some(Some("active")) then Active
                         else if p.status == Some(Some("inactive")) then Inactive else row.status)
      && (p.rollupsFrom.Some? && p.rollupsFrom.value.Some? ==>
            next.rollupsFrom == call.rules.instant(p.rollupsFrom.value.value))
      && (p.rollupsFrom.None? && row.rollupsFrom.Some? ==> next.rollupsFrom == row.rollupsFrom)
      && (p.rollupsFrom == Some(None) || (p.rollupsFrom.None? && row.rollupsFrom.None?) ==>
            next.rollupsFrom == if p.status == Some(Some("active")) && row.status == Draft then Some(call.now) else None)
      && next.description == (if p.description.Some? then p.description.value else row.description)
      && (k in next.shape <==> k in row.shape || k in p.edits)
      && (k in p.edits ==> next.shape[k] == call.rules.parse(row.shape + p.edits).value.column(k))
      && (k !in p.edits && k in row.shape ==> next.shape[k] == row.shape[k])
  {
  }

  /** The tickets of an activation cover exactly the range they are said to exactly when there is no padding. */
  lemma TicketsAreTheRangeIff(customer: string, range: Range, pad: nat)
    requires range.from <= range.to
    ensures PiecesOf(customer, [range], pad) == Pieces(customer, range.from, range.to, true) <==> pad == 0
  {
    PiecesTileTheRange(customer, range.from, range.to, true);
    PiecesTileTheRange(customer, range.from - pad, range.to + pad, true);
    var padded := Pieces(customer, range.from - pad, range.to + pad, true);
    assert PiecesOf(customer, [], pad) == [];
    assert PiecesOf(customer, [range], pad) == padded;
  }

  // ---------------------------------------------------------------- the route

  class Registry {
    const pad: nat
    const queue: Queue
    var metrics: map<(string, string), Metric>      // by customer and id

    constructor (pad: nat, queue: Queue)
      ensures this.pad == pad && this.queue == queue && metrics == map[]
    {
      this.pad := pad;
      this.queue := queue;
      metrics := map[];
    }

    method Examine(row: Metric, p: Patch, rules: Rules) returns (r: Result<Definition, MetricError>)
      ensures match DefinitionRefusal(row, p, rules)
        case Some(e) => r == Err(e)
        case None => r.Ok? && rules.parse(row.shape + p.edits) == Some(r.value)
    {
      var editing := p.edits != map[];
      var parsed := rules.parse(row.shape + p.edits);
      if parsed.None? {
        return Err(Malformed);
      }
      var definition := parsed.value;
      if editing && !definition.named {
        return Err(NameRequired);
      }
      if editing && !definition.measured {
        return Err(MeasuresRequired);
      }
      if BadTarget(p) {
        return Err(BadStatus);
      }
      var target := Target(p);
      if target.Some? && target.value != row.status && !Permitted(row.status, target.value) {
        return Err(BadTransition);
      }
      if (editing || Activating(row, p)) && !rules.acceptable(definition, Choosing(row, p)) {
        return Err(Unacceptable);
      }
      return Ok(definition);
    }

    method ReadStart(row: Metric, p: Patch, rules: Rules) returns (r: Result<Option<Instant>, MetricError>)
      ensures match StartRefusal(row, p, rules)
        case Some(e) => r == Err(e)
        case None => r == Ok(GivenStart(row, p, rules))
    {
      if p.rollupsFrom.None? {
        return Ok(row.rollupsFrom);
      }
      if row.status != Draft {
        return Err(RollupsLocked);
      }
      if p.rollupsFrom.value.None? {
        return Ok(None);
      }
      var given := rules.instant(p.rollupsFrom.value.value);
      if given.None? {
        return Err(BadInstant);
      }
      return Ok(given);
    }

    /** The side effect of going live for the first time. */
    method BeginHistory(customer: string, given: Option<Instant>, now: Instant, watermark: Option<Instant>)
      returns (start: Instant)
      modifies queue
      ensures start == (if given.Some? then given.value else now)
      ensures queue.tickets == old(queue.tickets) + PiecesOf(customer, HistoryBefore(start, watermark), pad)
    {
      start := if given.Some? then given.value else now;
      if watermark.Some? && start < watermark.value {
        var written := queue.Publish(customer, start, watermark.value, true, pad);
        assert PiecesOf(customer, [], pad) == [];
      }
    }

    /** A refused call writes nothing; an accepted one writes the row and its tickets together. */
    method UpdateMetric(customer: string, id: string, call: Call) returns (r: Result<Metric, MetricError>)
      modifies this, queue
      ensures (customer, id) !in old(metrics) ==> r == Err(NoSuchMetric)
      ensures (customer, id) in old(metrics) ==>
        var row := old(metrics)[(customer, id)];
        match Refusal(row, call)
        case Some(e) => r == Err(e)
        case None =>
          && r == Ok(Patched(row, call))
          && metrics == old(metrics)[(customer, id) := Patched(row, call)]
          && queue.tickets == old(queue.tickets) + PiecesOf(customer, Published(row, call), pad)
      ensures r.Err? ==> metrics == old(metrics) && queue.tickets == old(queue.tickets)
    {
      if (customer, id) !in metrics {
        return Err(NoSuchMetric);
      }
      var row := metrics[(customer, id)];
      ghost var was := row;
      var p := call.patch;
      if AsksNothing(p) {
        return Err(NothingAsked);
      }
      if p.edits != map[] && row.status != Draft {
        return Err(ShapeLocked);
      }
      var examined := Examine(row, p, call.rules);
      if examined.Err? {
        return Err(examined.error);
      }
      var given := ReadStart(row, p, call.rules);
      if given.Err? {
        return Err(given.error);
      }
      if p.description.Some? {
        row := row.(description := p.description.value);
      }
      row := row.(shape := row.shape + map k | k in p.edits :: examined.value.column(k));
      row := row.(rollupsFrom := given.value);
      if Activating(row, p) && row.status == Draft {
        var start := BeginHistory(customer, given.value, call.now, call.watermark);
        row := row.(rollupsFrom := Some(start));
      }
      var target := Target(p);
      if target.Some? && target.value != row.status {
        row := row.(status := target.value);
      }
      assert row == Patched(was, call);
      metrics := metrics[(customer, id) := row];
      return Ok(row);
    }
  }

  // ---------------------------------------------------------------- runs

  /** A metric and everything published for it so far. */
  datatype Life = Life(row: Metric, published: seq<Range>)

  function Lived(life: Life, call: Call): Life {
    if Refusal(life.row, call).Some? then life
    else Life(Patched(life.row, call), life.published + Published(life.row, call))
  }

  function Run(row: Metric, calls: seq<Call>): Life {
    if calls == [] then Life(row, [])
    else Lived(Run(row, calls[..|calls| - 1]), calls[|calls| - 1])
  }

  /** Once live, for good: not a draft again, and neither shape nor start of history moves. */
  predicate Settled(earlier: Metric, later: Metric) {
    earlier.status != Draft ==>
      later.status != Draft && later.shape == earlier.shape && later.rollupsFrom == earlier.rollupsFrom
  }

  lemma CallSettles(life: Life, call: Call)
    ensures Settled(life.row, Lived(life, call).row)
    ensures life.row.status == Draft ==> Lived(life, call).row.status != Inactive
    ensures life.row.status != Draft ==> Lived(life, call).row.status != Draft
    ensures life.row.status != Draft ==> Lived(life, call).published == life.published
  {
    NoEditsNoReshape(life.row, call);
  }

  lemma NoEditsNoReshape(row: Metric, call: Call)
    ensures call.patch.edits == map[] ==> Reshaped(row, call) == row.shape
  {
  }

  /** A body that only says what status the metric is to have. */
  function Say(text: string): Patch {
    Patch(map[], None, Some(Some(text)), None)
  }

  /** Said of a metric whose definition is read and good enough, it is accepted exactly if it starts a draft, pauses,
      resumes, or names the status there is; then the metric has that status, and nothing else of it changes but that a
      draft without a start gets one. */
  lemma StatusCallIff(life: Life, call: Call, text: string)
    requires call.patch == Say(text) && call.rules.parse(life.row.shape).Some?
    requires forall choosing: bool :: call.rules.acceptable(call.rules.parse(life.row.shape).value, choosing)
    ensures var row, after := life.row, Lived(life, call);
      && (Refusal(row, call).None? <==>
            || (row.status == Draft && text == "active") || (row.status == Active && text == "inactive")
            || (row.status == Inactive && text == "active") || (row.status == Draft && text == "draft")
            || (row.status == Active && text == "active") || (row.status == Inactive && text == "inactive"))
      && (Refusal(row, call).Some? ==> after == life)
      && (Refusal(row, call) == Some(BadStatus) <==> text != "draft" && text != "active" && text != "inactive")
      && (Refusal(row, call).Some? ==> Refusal(row, call).value in {BadStatus, BadTransition})
      && (Refusal(row, call).None? ==>
            && (after.row.status == Draft <==> text == "draft") && (after.row.status == Active <==> text == "active")
            && after.row == row.(status := after.row.status, rollupsFrom := after.row.rollupsFrom)
            && (after.row.rollupsFrom == row.rollupsFrom
                || (row.rollupsFrom.None? && row.status == Draft && after.row.rollupsFrom == Some(call.now))))
  {
    assert life.row.shape + map[] == life.row.shape;
    AcceptedIff(life.row, call);
    NoEditsNoReshape(life.row, call);
  }

  /** Pausing a live metric and resuming it leaves the metric as it was, and publishes nothing. */
  lemma PauseThenResume(life: Life, pause: Call, resume: Call)
    requires life.row.status == Active && pause.patch == Say("inactive") && resume.patch == Say("active")
    requires pause.rules.parse(life.row.shape).Some? && resume.rules.parse(life.row.shape).Some?
    requires resume.rules.acceptable(resume.rules.parse(life.row.shape).value, false)
    ensures Lived(life, pause).row == life.row.(status := Inactive)
    ensures Lived(Lived(life, pause), resume) == life
  {
    assert life.row.shape + map[] == life.row.shape;
    NoEditsNoReshape(life.row, pause);
    NoEditsNoReshape(life.row, resume);
    AcceptedIff(life.row, pause);
    AcceptedIff(Lived(life, pause).row, resume);
  }

  /** Over every run of calls, whatever was refused in between. */
  lemma {:induction false} LifecycleOnlyMovesForward(row: Metric, calls: seq<Call>, k: nat)
    requires k <= |calls|
    ensures Settled(Run(row, calls[..k]).row, Run(row, calls).row)
    ensures Run(row, calls[..k]).row.status != Draft ==> Run(row, calls).published == Run(row, calls[..k]).published
    decreases |calls|
  {
    if k == |calls| {
      assert calls[..k] == calls;
    } else {
      var before := calls[..|calls| - 1];
      assert before[..k] == calls[..k];
      LifecycleOnlyMovesForward(row, before, k);
      CallSettles(Run(row, before), calls[|calls| - 1]);
    }
  }

  /** The call that takes a draft live. */
  predicate GoesLive(row: Metric, call: Call) {
    row.status == Draft && Refusal(row, call).None? && Activating(row, call.patch)
  }

  lemma DraftStaysOrGoesLive(life: Life, call: Call)
    requires life.row.status == Draft && life.published == []
    ensures var after := Lived(life, call);
      if GoesLive(life.row, call) then
        && after.row.status == Active && after.row.rollupsFrom.Some?
        && after.published == HistoryBefore(after.row.rollupsFrom.value, call.watermark)
      else after.row.status == Draft && after.published == []
  {
  }

  ghost predicate WentLiveAt(row: Metric, calls: seq<Call>, k: int) {
    0 <= k < |calls| && GoesLive(Run(row, calls[..k]).row, calls[k])
  }

  /** Call `k` is the one call of the run that took the metric live, and `published` is what it asked for. */
  ghost predicate OneHistory(row: Metric, calls: seq<Call>, k: int, start: Option<Instant>, published: seq<Range>) {
    && WentLiveAt(row, calls, k)
    && (forall j :: WentLiveAt(row, calls, j) ==> j == k)
    && start.Some? && published == HistoryBefore(start.value, calls[k].watermark)
  }

  ghost predicate NeverLive(row: Metric, calls: seq<Call>) {
    forall k :: !WentLiveAt(row, calls, k)
  }

  lemma LiveStaysTold(row: Metric, calls: seq<Call>, k: int)
    requires calls != [] && Run(row, calls[..|calls| - 1]).row.status != Draft
    requires var life := Run(row, calls[..|calls| - 1]);
      OneHistory(row, calls[..|calls| - 1], k, life.row.rollupsFrom, life.published)
    ensures OneHistory(row, calls, k, Run(row, calls).row.rollupsFrom, Run(row, calls).published)
  {
    WentLiveEarlier(row, calls);
    CallSettles(Run(row, calls[..|calls| - 1]), calls[|calls| - 1]);
  }

  lemma DraftGoesLiveOrNot(row: Metric, calls: seq<Call>)
    requires calls != [] && NeverLive(row, calls[..|calls| - 1])
    requires Run(row, calls[..|calls| - 1]).row.status == Draft && Run(row, calls[..|calls| - 1]).published == []
    ensures var end := Run(row, calls);
      if end.row.status == Draft then end.published == [] && NeverLive(row, calls)
      else OneHistory(row, calls, |calls| - 1, end.row.rollupsFrom, end.published)
  {
    WentLiveEarlier(row, calls);
    DraftStaysOrGoesLive(Run(row, calls[..|calls| - 1]), calls[|calls| - 1]);
  }

  /** A metric created as a draft has published nothing while it is one; and otherwise there was exactly one
      call that took it live, and what was published, over the whole run, is the range from its start to the
      watermark of that call, if that range is not empty. */
  lemma {:induction false} HistoryIsPublishedOnce(row: Metric, calls: seq<Call>)
    requires row.status == Draft
    ensures var end := Run(row, calls);
      if end.row.status == Draft then end.published == [] && NeverLive(row, calls)
      else exists k :: OneHistory(row, calls, k, end.row.rollupsFrom, end.published)
    decreases |calls|
  {
    if calls != [] {
      var before := calls[..|calls| - 1];
      var life := Run(row, before);
      HistoryIsPublishedOnce(row, before);
      if life.row.status == Draft {
        DraftGoesLiveOrNot(row, calls);
      } else {
        var k :| OneHistory(row, before, k, life.row.rollupsFrom, life.published);
        LiveStaysTold(row, calls, k);
        CallSettles(life, calls[|calls| - 1]);
      }
    }
  }

  lemma WentLiveEarlier(row: Metric, calls: seq<Call>)
    requires calls != []
    ensures forall k | 0 <= k < |calls| - 1 :: WentLiveAt(row, calls, k) <==> WentLiveAt(row, calls[..|calls| - 1], k)
    ensures WentLiveAt(row, calls, |calls| - 1)
       <==> GoesLive(Run(row, calls[..|calls| - 1]).row, calls[|calls| - 1])
  {
    forall k | 0 <= k < |calls| - 1
      ensures WentLiveAt(row, calls, k) <==> WentLiveAt(row, calls[..|calls| - 1], k)
    {
      assert calls[..|calls| - 1][..k] == calls[..k];
    }
  }
}
