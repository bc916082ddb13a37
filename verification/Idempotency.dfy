// The Idempotency-Key protocol: separate committed steps of any number of requests, interleaved in
// any order. Handlers may die and leave their claim; a 5xx or non-JSON response releases it.

module Idempotency {

  import opened Results

  type Key = (string, string)        // customer code, Idempotency-Key
  type HttpStatus = s: int | 100 <= s <= 599 witness 200

  datatype Json = Null | Value(text: string)

  datatype Status = InProgress | Completed

  datatype Row = Row(fingerprint: string, status: Status, responseStatus: Option<HttpStatus>, responseBody: Json)

  /** What a handler answers; `json` is None when the body is not JSON. */
  datatype Response = Response(status: HttpStatus, json: Option<Json>)

  datatype Reply =
    | Direct(response: Response)                    // the handler's own answer
    | Replayed(status: HttpStatus, body: Json)      // the stored answer
    | InUse                                         // 409
    | Mismatch                                      // 422

  type Rows = map<Key, Row>

  // ---------------------------------------------------------------- one step at a time

  predicate Cacheable(r: Response) {
    r.status < 500 && r.json.Some?
  }

  function AfterClaim(rows: Rows, key: Key, fingerprint: string): Rows {
    if key in rows then rows else rows[key := Row(fingerprint, InProgress, None, Null)]
  }

  function Decide(row: Row, fingerprint: string): Reply {
    if row.fingerprint != fingerprint then Mismatch
    else if row.status == Completed && row.responseStatus.Some?
      then Replayed(row.responseStatus.value, row.responseBody)
    else InUse
  }

  function AfterFinish(rows: Rows, key: Key, response: Response): Rows {
    if key !in rows then rows
    else if Cacheable(response) then
      rows[key := rows[key].(status := Completed, responseStatus := Some(response.status),
                             responseBody := response.json.value)]
    else rows - {key}
  }

  /** The key table; each method is one committed transaction of the middleware. */
  class KeyStore {
    var rows: Rows

    method TryClaim(key: Key, fingerprint: string) returns (claimed: bool)
      modifies this
      ensures claimed <==> key !in old(rows)
      ensures rows == AfterClaim(old(rows), key, fingerprint)
      ensures rows == if claimed then old(rows)[key := Row(fingerprint, InProgress, None, Null)] else old(rows)
    {
      claimed := key !in rows;
      if claimed {
        rows := rows[key := Row(fingerprint, InProgress, None, Null)];
      }
    }

    method Load(key: Key) returns (row: Option<Row>)
      ensures row == if key in rows then Some(rows[key]) else None
    {
      if key in rows {
        row := Some(rows[key]);
      } else {
        row := None;
      }
    }

    method Finish(key: Key, response: Response)
      modifies this
      ensures rows == AfterFinish(old(rows), key, response)
      ensures key !in old(rows) ==> rows == old(rows)
      ensures key in old(rows) && response.status < 500 && response.json.Some? ==>
        rows == old(rows)[key :=
          Row(old(rows)[key].fingerprint, Completed, Some(response.status), response.json.value)]
      ensures key in old(rows) && (response.status >= 500 || response.json.None?) ==> rows == old(rows) - {key}
    {
      var row := Load(key);
      if row.Some? {
        if Cacheable(response) {
          var done := row.value.(status := Completed, responseStatus := Some(response.status));
          rows := rows[key := done.(responseBody := response.json.value)];
        } else {
          rows := rows - {key};
        }
      }
    }

    /** A request nobody interleaves with: `answer` is what its handler would say. */
    method Dispatch(keyed: Option<Key>, fingerprint: string, answer: Response) returns (reply: Reply, ran: bool)
      modifies this
      ensures ran <==> keyed.None? || keyed.value !in old(rows)
      ensures reply == if ran then Direct(answer) else Decide(old(rows)[keyed.value], fingerprint)
      ensures rows == if keyed.Some? && ran
                      then AfterFinish(AfterClaim(old(rows), keyed.value, fingerprint), keyed.value, answer)
                      else old(rows)
      ensures keyed.Some? && ran ==> (keyed.value in rows <==> answer.status < 500 && answer.json.Some?)
    {
      if keyed.None? {
        return Direct(answer), true;
      }
      var claimed := TryClaim(keyed.value, fingerprint);
      if !claimed {
        var existing := Load(keyed.value);
        return Decide(existing.value, fingerprint), false;
      }
      Finish(keyed.value, answer);
      return Direct(answer), true;
    }
  }

  /** What a retry of an undisturbed request finds: the stored answer if that was below 500 and JSON, 422 with another
      fingerprint then, and otherwise no row, so that its handler runs again. */
  lemma RetryFinds(rows: Rows, key: Key, fingerprint: string, answer: Response, retry: string)
    requires key !in rows
    ensures var after := AfterFinish(AfterClaim(rows, key, fingerprint), key, answer);
      && (key in after <==> answer.status < 500 && answer.json.Some?)
      && (key in after && retry == fingerprint ==>
            Decide(after[key], retry) == Replayed(answer.status, answer.json.value))
      && (key in after && retry != fingerprint ==> Decide(after[key], retry) == Mismatch)
      && after - {key} == rows
  {
  }

  // ---------------------------------------------------------------- interleaved requests

  datatype Phase =
    | Arrived
    | Refused                           // its insert failed; it is about to load the row
    | Handling(claimed: bool)
    | Finishing(response: Response)     // claimed, and the handler has answered
    | Answered(reply: Reply)
    | Died(claimed: bool)

  datatype Request = Request(key: Key, fingerprint: string, phase: Phase)

  datatype Event =
    | Started(id: nat, key: Key, fingerprint: string, claimed: bool)   // the handler began to run
    | InsertFailed(id: nat, key: Key)
    | Released(key: Key)
    | Replied(id: nat, key: Key, fingerprint: string, reply: Reply)

  datatype State = State(rows: Rows, requests: map<nat, Request>, log: seq<Event>)

  datatype Step =
    | Arrive(id: nat, key: Key, fingerprint: string)
    | Claim(id: nat)
    | Load(id: nat)
    | Respond(id: nat, response: Response)
    | Die(id: nat)
    | Finish(id: nat)

  predicate Holding(phase: Phase) {
    phase == Handling(true) || phase.Finishing? || phase == Died(true)
  }

  predicate Enabled(s: State, step: Step) {
    match step
    case Arrive(id, _, _) => id !in s.requests
    case Claim(id) => id in s.requests && s.requests[id].phase == Arrived
    case Load(id) => id in s.requests && s.requests[id].phase == Refused
    case Respond(id, _) => id in s.requests && s.requests[id].phase.Handling?
    case Die(id) => id in s.requests && !s.requests[id].phase.Answered? && !s.requests[id].phase.Died?
    case Finish(id) => id in s.requests && s.requests[id].phase.Finishing?
  }

  function Moved(s: State, id: nat, phase: Phase): map<nat, Request>
    requires id in s.requests
  {
    s.requests[id := s.requests[id].(phase := phase)]
  }

  function Apply(s: State, step: Step): State
    requires Enabled(s, step)
  {
    match step
    case Arrive(id, key, fingerprint) =>
      s.(requests := s.requests[id := Request(key, fingerprint, Arrived)])
    case Claim(id) =>
      var r := s.requests[id];
      if r.key in s.rows then
        s.(requests := Moved(s, id, Refused), log := s.log + [InsertFailed(id, r.key)])
      else
        State(AfterClaim(s.rows, r.key, r.fingerprint), Moved(s, id, Handling(true)),
              s.log + [Started(id, r.key, r.fingerprint, true)])
    case Load(id) =>
      var r := s.requests[id];
      if r.key !in s.rows then
        s.(requests := Moved(s, id, Handling(false)), log := s.log + [Started(id, r.key, r.fingerprint, false)])
      else
        var reply := Decide(s.rows[r.key], r.fingerprint);
        s.(requests := Moved(s, id, Answered(reply)), log := s.log + [Replied(id, r.key, r.fingerprint, reply)])
    case Respond(id, response) =>
      var r := s.requests[id];
      if r.phase.claimed then s.(requests := Moved(s, id, Finishing(response)))
      else s.(requests := Moved(s, id, Answered(Direct(response))),
              log := s.log + [Replied(id, r.key, r.fingerprint, Direct(response))])
    case Die(id) =>
      s.(requests := Moved(s, id, Died(Holding(s.requests[id].phase))))
    case Finish(id) =>
      var r := s.requests[id];
      var response := r.phase.response;
      var release := if r.key in s.rows && !Cacheable(response) then [Released(r.key)] else [];
      State(AfterFinish(s.rows, r.key, response), Moved(s, id, Answered(Direct(response))),
            s.log + release + [Replied(id, r.key, r.fingerprint, Direct(response))])
  }

  // ---------------------------------------------------------------- claims and rows

  predicate Holds(s: State, id: nat, key: Key) {
    id in s.requests && s.requests[id].key == key && Holding(s.requests[id].phase)
  }

  /** Claims and in-progress rows correspond one to one; a completed row carries its answer. */
  ghost predicate Owned(s: State) {
    && (forall id, key :: Holds(s, id, key) ==>
          key in s.rows && s.rows[key].status == InProgress && s.rows[key].fingerprint == s.requests[id].fingerprint)
    && (forall a, b, key :: Holds(s, a, key) && Holds(s, b, key) ==> a == b)
    && (forall key | key in s.rows :: s.rows[key].status == InProgress ==> exists id :: Holds(s, id, key))
    && (forall key | key in s.rows :: s.rows[key].status == Completed ==> s.rows[key].responseStatus.Some?)
  }

  lemma SameHoldersKeepOwned(s: State, t: State)
    requires Owned(s) && t.rows == s.rows
    requires forall id, key :: Holds(t, id, key) <==> Holds(s, id, key)
    requires forall id | id in s.requests :: id in t.requests && t.requests[id].fingerprint == s.requests[id].fingerprint
    ensures Owned(t)
  {
    forall key | key in t.rows && t.rows[key].status == InProgress ensures exists id :: Holds(t, id, key) {
      var id :| Holds(s, id, key);
      assert Holds(t, id, key);
    }
  }

  lemma ClaimKeepsOwned(s: State, id: nat)
    requires Owned(s) && Enabled(s, Claim(id)) && s.requests[id].key !in s.rows
    ensures Owned(Apply(s, Claim(id)))
  {
    var t := Apply(s, Claim(id));
    var mine := s.requests[id].key;
    forall other, key ensures Holds(t, other, key) <==> Holds(s, other, key) || (other == id && key == mine) {
    }
    forall key | key in t.rows && t.rows[key].status == InProgress ensures exists r :: Holds(t, r, key) {
      if key == mine {
        assert Holds(t, id, key);
      } else {
        var r :| Holds(s, r, key);
        assert Holds(t, r, key);
      }
    }
  }

  lemma FinishKeepsOwned(s: State, id: nat)
    requires Owned(s) && Enabled(s, Finish(id))
    ensures Owned(Apply(s, Finish(id)))
  {
    var t := Apply(s, Finish(id));
    var mine := s.requests[id].key;
    assert Holds(s, id, mine);
    forall other, key ensures Holds(t, other, key) <==> Holds(s, other, key) && key != mine {
    }
    forall key | key in t.rows && t.rows[key].status == InProgress ensures exists r :: Holds(t, r, key) {
      var r :| Holds(s, r, key);
      assert Holds(t, r, key);
    }
  }

  lemma StepKeepsOwned(s: State, step: Step)
    requires Owned(s) && Enabled(s, step)
    ensures Owned(Apply(s, step))
  {
    if step.Claim? && s.requests[step.id].key !in s.rows {
      ClaimKeepsOwned(s, step.id);
    } else if step.Finish? {
      FinishKeepsOwned(s, step.id);
    } else {
      SameHoldersKeepOwned(s, Apply(s, step));
    }
  }

  /** A completed row never changes. */
  lemma CompletedRowIsFinal(s: State, step: Step, key: Key)
    requires Owned(s) && Enabled(s, step)
    requires key in s.rows && s.rows[key].status == Completed
    ensures key in Apply(s, step).rows && Apply(s, step).rows[key] == s.rows[key]
  {
    if step.Finish? {
      assert Holds(s, step.id, s.requests[step.id].key);
    }
  }

  /** A claimant that died keeps its key in progress. */
  lemma OrphanKeepsItsClaim(s: State, step: Step, id: nat)
    requires Owned(s) && Enabled(s, step)
    requires id in s.requests && s.requests[id].phase == Died(true)
    ensures id in Apply(s, step).requests && Apply(s, step).requests[id] == s.requests[id]
    ensures var key := s.requests[id].key;
      key in Apply(s, step).rows && Apply(s, step).rows[key] == s.rows[key] && s.rows[key].status == InProgress
  {
    assert Holds(s, id, s.requests[id].key);
    if step.Finish? {
      assert Holds(s, step.id, s.requests[step.id].key);
    }
  }

  /** What a loser is told: 422 for another fingerprint, the stored answer once there is one, else 409. */
  lemma DecideIsExact(s: State, key: Key, fingerprint: string)
    requires Owned(s) && key in s.rows
    ensures var row := s.rows[key]; var reply := Decide(row, fingerprint);
      && (reply == Mismatch <==> row.fingerprint != fingerprint)
      && (reply == InUse <==> row.fingerprint == fingerprint && row.status == InProgress)
      && (reply.Replayed? <==> row.fingerprint == fingerprint && row.status == Completed)
      && (reply.Replayed? ==> row.responseStatus == Some(reply.status) && row.responseBody == reply.body)
      && !reply.Direct?
  {
  }

  // ---------------------------------------------------------------- what the log says

  ghost predicate ReleasedBetween(log: seq<Event>, lo: int, hi: int, key: Key) {
    exists m | lo < m < hi && 0 <= m < |log| :: log[m] == Released(key)
  }

  lemma ReleaseStaysBetween(log: seq<Event>, more: seq<Event>, lo: int, hi: int, hi': int, key: Key)
    requires ReleasedBetween(log, lo, hi, key) && hi <= hi'
    ensures ReleasedBetween(log + more, lo, hi', key)
  {
    var m :| lo < m < hi && 0 <= m < |log| && log[m] == Released(key);
    assert (log + more)[m] == Released(key);
  }

  ghost predicate ClaimedStart(e: Event) {
    e.Started? && e.claimed
  }

  /** Between two claimed starts of one key lies a release; after the last, the row or a release. */
  ghost predicate ClaimsAreSeparated(s: State) {
    && (forall i | 0 <= i < |s.log| && ClaimedStart(s.log[i]) ::
          s.log[i].key in s.rows || ReleasedBetween(s.log, i, |s.log|, s.log[i].key))
    && (forall i, j | 0 <= i < j < |s.log| && ClaimedStart(s.log[i]) && ClaimedStart(s.log[j])
                      && s.log[i].key == s.log[j].key ::
          ReleasedBetween(s.log, i, j, s.log[i].key))
  }

  /** What a step appends, and how it changes one row. */
  lemma StepAppends(s: State, step: Step)
    requires Enabled(s, step)
    ensures s.log <= Apply(s, step).log
    ensures forall key | key in s.rows && key !in Apply(s, step).rows ::
      && |s.log| < |Apply(s, step).log| && Apply(s, step).log[|s.log|] == Released(key)
      && Released(key) in Apply(s, step).log
    ensures forall j | |s.log| <= j < |Apply(s, step).log| && ClaimedStart(Apply(s, step).log[j]) ::
      j == |s.log| && Apply(s, step).log[j].key !in s.rows && Apply(s, step).log[j].key in Apply(s, step).rows
  {
  }

  lemma StepKeepsClaimsSeparated(s: State, step: Step)
    requires Enabled(s, step) && ClaimsAreSeparated(s)
    ensures ClaimsAreSeparated(Apply(s, step))
  {
    var t := Apply(s, step);
    StepAppends(s, step);
    var more := t.log[|s.log|..];
    assert t.log == s.log + more;
    forall i | 0 <= i < |t.log| && ClaimedStart(t.log[i])
      ensures t.log[i].key in t.rows || ReleasedBetween(t.log, i, |t.log|, t.log[i].key)
    {
      if i < |s.log| {
        var key := s.log[i].key;
        assert ClaimedStart(s.log[i]);
        if key !in s.rows {
          ReleaseStaysBetween(s.log, more, i, |s.log|, |t.log|, key);
        } else if key !in t.rows {
          assert t.log[|s.log|] == Released(key);
        }
      }
    }
    forall i, j | 0 <= i < j < |t.log| && ClaimedStart(t.log[i]) && ClaimedStart(t.log[j])
                  && t.log[i].key == t.log[j].key
      ensures ReleasedBetween(t.log, i, j, t.log[i].key)
    {
      assert i < |s.log| && ClaimedStart(s.log[i]);
      ReleaseStaysBetween(s.log, more, i, if j < |s.log| then j else |s.log|, j, t.log[i].key);
    }
  }

  /** The insert of `id` failed, and since then, before `upTo`, its key was released. */
  ghost predicate Excused(log: seq<Event>, upTo: int, id: nat, key: Key) {
    exists i | 0 <= i < upTo && i < |log| :: log[i] == InsertFailed(id, key) && ReleasedBetween(log, i, upTo, key)
  }

  lemma StaysExcused(log: seq<Event>, more: seq<Event>, upTo: int, later: int, id: nat, key: Key)
    requires Excused(log, upTo, id, key) && upTo <= later
    ensures Excused(log + more, later, id, key)
  {
    var i :| 0 <= i < upTo && i < |log| && log[i] == InsertFailed(id, key) && ReleasedBetween(log, i, upTo, key);
    ReleaseStaysBetween(log, more, i, upTo, later, key);
    assert (log + more)[i] == InsertFailed(id, key);
  }

  /** A handler run without a claim has a release of its key between its failed insert and its load. */
  ghost predicate BypassesAreExcused(s: State) {
    && (forall id | id in s.requests && s.requests[id].phase == Refused ::
          && InsertFailed(id, s.requests[id].key) in s.log
          && (s.requests[id].key in s.rows || Excused(s.log, |s.log|, id, s.requests[id].key)))
    && (forall j | 0 <= j < |s.log| && s.log[j].Started? && !s.log[j].claimed ::
          Excused(s.log, j, s.log[j].id, s.log[j].key))
  }

  lemma RefusedStaysExcused(s: State, step: Step, id: nat)
    requires Enabled(s, step) && BypassesAreExcused(s)
    requires id in Apply(s, step).requests && Apply(s, step).requests[id].phase == Refused
    ensures var key := Apply(s, step).requests[id].key;
      && InsertFailed(id, key) in Apply(s, step).log
      && (key in Apply(s, step).rows || Excused(Apply(s, step).log, |Apply(s, step).log|, id, key))
  {
    var t := Apply(s, step);
    StepAppends(s, step);
    var more := t.log[|s.log|..];
    assert t.log == s.log + more;
    var key := t.requests[id].key;
    if id in s.requests && s.requests[id].phase == Refused {
      assert InsertFailed(id, key) in s.log;
      if key !in s.rows {
        StaysExcused(s.log, more, |s.log|, |t.log|, id, key);
      } else if key !in t.rows {
        var i :| 0 <= i < |s.log| && s.log[i] == InsertFailed(id, key);
        assert t.log[i] == InsertFailed(id, key);
        assert t.log[|s.log|] == Released(key);
        assert ReleasedBetween(t.log, i, |t.log|, key);
      }
    } else {
      assert t.log[|s.log|] == InsertFailed(id, key);
    }
  }

  lemma StepKeepsBypassesExcused(s: State, step: Step)
    requires Enabled(s, step) && BypassesAreExcused(s)
    ensures BypassesAreExcused(Apply(s, step))
  {
    var t := Apply(s, step);
    StepAppends(s, step);
    var more := t.log[|s.log|..];
    assert t.log == s.log + more;
    forall id | id in t.requests && t.requests[id].phase == Refused
      ensures InsertFailed(id, t.requests[id].key) in t.log
      ensures t.requests[id].key in t.rows || Excused(t.log, |t.log|, id, t.requests[id].key)
    {
      RefusedStaysExcused(s, step, id);
    }
    forall j | 0 <= j < |t.log| && t.log[j].Started? && !t.log[j].claimed
      ensures Excused(t.log, j, t.log[j].id, t.log[j].key)
    {
      if j < |s.log| {
        assert s.log[j] == t.log[j];
        StaysExcused(s.log, more, j, j, t.log[j].id, t.log[j].key);
      } else {
        StaysExcused(s.log, more, |s.log|, j, t.log[j].id, t.log[j].key);
      }
    }
  }

  ghost predicate StartIsLogged(r: Request, id: nat, log: seq<Event>) {
    && (Holding(r.phase) ==> Started(id, r.key, r.fingerprint, true) in log)
    && (r.phase == Handling(false) ==> Started(id, r.key, r.fingerprint, false) in log)
  }

  /** Requests under way have their start in the log. */
  ghost predicate StartsAreLogged(s: State) {
    forall id | id in s.requests :: StartIsLogged(s.requests[id], id, s.log)
  }

  lemma StartStaysLogged(r: Request, id: nat, log: seq<Event>, longer: seq<Event>)
    requires StartIsLogged(r, id, log) && log <= longer
    ensures StartIsLogged(r, id, longer)
  {
    assert longer == log + longer[|log|..];
  }

  lemma OwnStartIsLogged(s: State, step: Step)
    requires Enabled(s, step) && StartsAreLogged(s) && !step.Arrive?
    ensures StartIsLogged(Apply(s, step).requests[step.id], step.id, Apply(s, step).log)
  {
    var t := Apply(s, step);
    StepAppends(s, step);
    StartStaysLogged(s.requests[step.id], step.id, s.log, t.log);
    assert t.log != s.log ==> t.log[|s.log|] in t.log;
  }

  lemma StepKeepsStartsLogged(s: State, step: Step)
    requires Enabled(s, step) && StartsAreLogged(s)
    ensures StartsAreLogged(Apply(s, step))
  {
    var t := Apply(s, step);
    StepAppends(s, step);
    if !step.Arrive? {
      OwnStartIsLogged(s, step);
    }
    forall id | id in t.requests && id != step.id ensures StartIsLogged(t.requests[id], id, t.log) {
      StartStaysLogged(s.requests[id], id, s.log, t.log);
    }
  }

  // ---------------------------------------------------------------- keys that are never released

  /** A reply says what the key's row says now. */
  ghost predicate Agrees(s: State, e: Event)
    requires e.Replied?
  {
    && e.key in s.rows
    && var row := s.rows[e.key];
       match e.reply
       case Mismatch => row.fingerprint != e.fingerprint
       case InUse => row.fingerprint == e.fingerprint
       case Replayed(status, body) =>
         && row.fingerprint == e.fingerprint
         && row.status == Completed && row.responseStatus == Some(status) && row.responseBody == body
       case Direct(response) =>
         && row.fingerprint == e.fingerprint && Started(e.id, e.key, e.fingerprint, true) in s.log
         && row.status == Completed && row.responseStatus == Some(response.status)
         && response.json == Some(row.responseBody)
  }

  ghost predicate EverReleased(s: State, key: Key) {
    Released(key) in s.log
  }

  ghost predicate StartAgrees(s: State, e: Event)
    requires e.Started?
  {
    e.claimed && e.key in s.rows && s.rows[e.key].fingerprint == e.fingerprint
  }

  ghost predicate AnswersAgree(s: State) {
    && (forall e | e in s.log && e.Started? && !EverReleased(s, e.key) :: StartAgrees(s, e))
    && (forall e | e in s.log && e.Replied? && !EverReleased(s, e.key) :: Agrees(s, e))
  }

  ghost predicate Inv(s: State) {
    Owned(s) && ClaimsAreSeparated(s) && BypassesAreExcused(s) && StartsAreLogged(s) && AnswersAgree(s)
  }

  /** Without a release, the row a step leaves only moves forward: same fingerprint, final once completed. */
  lemma RowMovesForward(s: State, step: Step, key: Key)
    requires Enabled(s, step) && Owned(s)
    requires key in s.rows && !EverReleased(Apply(s, step), key)
    ensures key in Apply(s, step).rows && Apply(s, step).rows[key].fingerprint == s.rows[key].fingerprint
    ensures s.rows[key].status == Completed ==> Apply(s, step).rows[key] == s.rows[key]
  {
    StepAppends(s, step);
    if s.rows[key].status == Completed {
      CompletedRowIsFinal(s, step, key);
    }
  }

  /** A refused request that finds no row, and a handler running unclaimed, both point at a release. */
  lemma UnclaimedMeansReleased(s: State, id: nat)
    requires Inv(s) && id in s.requests
    ensures s.requests[id].phase == Refused && s.requests[id].key !in s.rows ==> EverReleased(s, s.requests[id].key)
    ensures s.requests[id].phase == Handling(false) ==> EverReleased(s, s.requests[id].key)
  {
    var r := s.requests[id];
    if r.phase == Refused && r.key !in s.rows {
      assert Excused(s.log, |s.log|, id, r.key);
    }
    if r.phase == Handling(false) {
      assert Started(id, r.key, r.fingerprint, false) in s.log;
      assert !StartAgrees(s, Started(id, r.key, r.fingerprint, false));
    }
  }

  lemma OldEventStillAgrees(s: State, step: Step, e: Event)
    requires Enabled(s, step) && Inv(s) && e in s.log && (e.Started? || e.Replied?)
    requires !EverReleased(Apply(s, step), e.key)
    ensures e.Started? ==> StartAgrees(Apply(s, step), e)
    ensures e.Replied? ==> Agrees(Apply(s, step), e)
  {
    var t := Apply(s, step);
    StepAppends(s, step);
    assert t.log == s.log + t.log[|s.log|..];
    assert !EverReleased(s, e.key);
    assert e.Started? ==> StartAgrees(s, e);
    assert e.Replied? ==> Agrees(s, e);
    RowMovesForward(s, step, e.key);
  }

  lemma FinalReplyAgrees(s: State, id: nat, e: Event)
    requires Enabled(s, Finish(id)) && Inv(s) && e in Apply(s, Finish(id)).log[|s.log|..] && e.Replied?
    requires !EverReleased(Apply(s, Finish(id)), e.key)
    ensures Agrees(Apply(s, Finish(id)), e)
  {
    var t, r := Apply(s, Finish(id)), s.requests[id];
    assert t.log == s.log + t.log[|s.log|..];
    assert Holds(s, id, r.key);
    assert e == Replied(id, r.key, r.fingerprint, Direct(r.phase.response));
    assert Started(id, r.key, r.fingerprint, true) in s.log by {
      assert StartIsLogged(r, id, s.log);
    }
    StepAppends(s, Finish(id));
  }

  lemma NewEventAgrees(s: State, step: Step, e: Event)
    requires Enabled(s, step) && Inv(s) && e in Apply(s, step).log[|s.log|..] && (e.Started? || e.Replied?)
    requires !EverReleased(Apply(s, step), e.key)
    ensures e.Started? ==> StartAgrees(Apply(s, step), e)
    ensures e.Replied? ==> Agrees(Apply(s, step), e)
  {
    var t := Apply(s, step);
    assert t.log == s.log + t.log[|s.log|..];
    assert !EverReleased(s, e.key);
    if step.Finish? {
      FinalReplyAgrees(s, step.id, e);
    } else if !step.Arrive? {
      UnclaimedMeansReleased(s, step.id);
      StepAppends(s, step);
    }
  }

  lemma StepKeepsInv(s: State, step: Step)
    requires Inv(s) && Enabled(s, step)
    ensures Inv(Apply(s, step))
  {
    var t := Apply(s, step);
    StepKeepsOwned(s, step);
    StepKeepsClaimsSeparated(s, step);
    StepKeepsBypassesExcused(s, step);
    StepKeepsStartsLogged(s, step);
    StepAppends(s, step);
    assert t.log == s.log + t.log[|s.log|..];
    forall e | e in t.log && (e.Started? || e.Replied?) && !EverReleased(t, e.key)
      ensures e.Started? ==> StartAgrees(t, e)
      ensures e.Replied? ==> Agrees(t, e)
    {
      if e in s.log {
        OldEventStillAgrees(s, step, e);
      } else {
        NewEventAgrees(s, step, e);
      }
    }
  }

  // ---------------------------------------------------------------- whole runs

  const INITIAL := State(map[], map[], [])

  ghost predicate IsRun(states: seq<State>, steps: seq<Step>) {
    && |states| == |steps| + 1 && states[0] == INITIAL
    && forall i | 0 <= i < |steps| :: Enabled(states[i], steps[i]) && states[i + 1] == Apply(states[i], steps[i])
  }

  lemma {:induction false} RunsKeepInv(states: seq<State>, steps: seq<Step>, i: nat)
    requires IsRun(states, steps) && i < |states|
    ensures Inv(states[i])
    decreases i
  {
    if i > 0 {
      RunsKeepInv(states, steps, i - 1);
      assert Enabled(states[i - 1], steps[i - 1]);
      StepKeepsInv(states[i - 1], steps[i - 1]);
    }
  }

  lemma TwoStartsMeanRelease(s: State, i: nat, j: nat)
    requires Inv(s) && i < j < |s.log|
    ensures s.log[i].Started? && s.log[j].Started? && s.log[i].key == s.log[j].key ==> EverReleased(s, s.log[i].key)
  {
    if s.log[i].Started? && s.log[j].Started? && s.log[i].key == s.log[j].key {
      assert s.log[i] in s.log && s.log[j] in s.log;
      if ClaimedStart(s.log[i]) && ClaimedStart(s.log[j]) {
        assert ReleasedBetween(s.log, i, j, s.log[i].key);
      }
    }
  }

  /** However requests interleave, a key that is never released has its handler run at most once. */
  lemma HandlerRunsAtMostOnce(states: seq<State>, steps: seq<Step>, n: nat, key: Key, i: nat, j: nat)
    requires IsRun(states, steps) && n < |states| && !EverReleased(states[n], key)
    requires i < |states[n].log| && j < |states[n].log|
    requires states[n].log[i].Started? && states[n].log[i].key == key
    requires states[n].log[j].Started? && states[n].log[j].key == key
    ensures i == j && states[n].log[i].claimed
  {
    RunsKeepInv(states, steps, n);
    if i < j {
      TwoStartsMeanRelease(states[n], i, j);
    } else if j < i {
      TwoStartsMeanRelease(states[n], j, i);
    }
    assert StartAgrees(states[n], states[n].log[i]);
  }

  /** And every other request with that key is told 422 exactly when its fingerprint differs from the
      claimant's; else 409, or the very status and JSON body the claimant's handler answered. */
  lemma EveryOtherReplyIsTheClaimants(states: seq<State>, steps: seq<Step>, n: nat, start: Event, reply: Event)
    requires IsRun(states, steps) && n < |states|
    requires start in states[n].log && start.Started?
    requires reply in states[n].log && reply.Replied? && reply.key == start.key
    requires !EverReleased(states[n], start.key)
    ensures start.key in states[n].rows && states[n].rows[start.key].fingerprint == start.fingerprint
    ensures reply.reply == Mismatch <==> reply.fingerprint != start.fingerprint
    ensures reply.reply.Direct? ==> Started(reply.id, reply.key, reply.fingerprint, true) in states[n].log
    ensures var row := states[n].rows[start.key];
      && (reply.reply.Replayed? ==>
            row.status == Completed && row.responseStatus == Some(reply.reply.status) && row.responseBody == reply.reply.body)
      && (reply.reply.Direct? ==>
            && row.status == Completed && row.responseStatus == Some(reply.reply.response.status)
            && Some(row.responseBody) == reply.reply.response.json)
  {
    RunsKeepInv(states, steps, n);
    assert StartAgrees(states[n], start) && Agrees(states[n], reply);
  }

  /** With releases allowed: a handler that runs without a claim saw its insert fail and then, before its
      load, the key released. */
  lemma UnclaimedRunsFollowARelease(states: seq<State>, steps: seq<Step>, n: nat, j: nat) returns (failed: nat, released: nat)
    requires IsRun(states, steps) && n < |states| && j < |states[n].log|
    requires states[n].log[j].Started? && !states[n].log[j].claimed
    ensures failed < released < j
    ensures states[n].log[failed] == InsertFailed(states[n].log[j].id, states[n].log[j].key)
    ensures states[n].log[released] == Released(states[n].log[j].key)
  {
    RunsKeepInv(states, steps, n);
    var log, id, key := states[n].log, states[n].log[j].id, states[n].log[j].key;
    assert Excused(log, j, id, key);
    failed :| 0 <= failed < j && failed < |log| && log[failed] == InsertFailed(id, key)
              && ReleasedBetween(log, failed, j, key);
    released :| failed < released < j && 0 <= released < |log| && log[released] == Released(key);
  }

  /** A completed row is final over the rest of any run. */
  lemma {:induction false} CompletedStaysFinal(states: seq<State>, steps: seq<Step>, i: nat, j: nat, key: Key)
    requires IsRun(states, steps) && i <= j < |states|
    requires key in states[i].rows && states[i].rows[key].status == Completed
    ensures key in states[j].rows && states[j].rows[key] == states[i].rows[key]
    decreases j
  {
    if i < j {
      CompletedStaysFinal(states, steps, i, j - 1, key);
      RunsKeepInv(states, steps, j - 1);
      assert Enabled(states[j - 1], steps[j - 1]);
      CompletedRowIsFinal(states[j - 1], steps[j - 1], key);
    }
  }

  // ---------------------------------------------------------------- what is stored and replayed

  /** A claim comes to a completed row exactly when its handler's answer is below 500 and JSON, and the row then holds
      that answer; any other answer takes the row away and the log says so. No other row changes. */
  lemma ClaimComesTo(s: State, id: nat)
    requires Owned(s) && Enabled(s, Finish(id))
    ensures var r, t := s.requests[id], Apply(s, Finish(id)); var answer := r.phase.response;
      && (r.key in t.rows <==> answer.status < 500 && answer.json.Some?)
      && (r.key in t.rows ==>
            && t.rows == s.rows[r.key := Row(r.fingerprint, Completed, Some(answer.status), answer.json.value)]
            && t.log == s.log + [Replied(id, r.key, r.fingerprint, Direct(answer))])
      && (r.key !in t.rows ==>
            && t.rows == s.rows - {r.key}
            && t.log == s.log + [Released(r.key)] + [Replied(id, r.key, r.fingerprint, Direct(answer))])
  {
    assert Holds(s, id, s.requests[id].key);
  }

  /** Before `upTo` a claimant of the key with this fingerprint had been given this answer by its handler. */
  ghost predicate WasAnswered(log: seq<Event>, upTo: int, key: Key, fingerprint: string, status: HttpStatus, body: Json) {
    exists i | 0 <= i < upTo && i < |log| :: IsAnswer(log, i, key, fingerprint, status, body)
  }

  predicate IsAnswer(log: seq<Event>, i: int, key: Key, fingerprint: string, status: HttpStatus, body: Json)
    requires 0 <= i < |log|
  {
    && log[i].Replied? && log[i] == Replied(log[i].id, key, fingerprint, Direct(Response(status, Some(body))))
    && Started(log[i].id, key, fingerprint, true) in log[..i]
  }

  lemma StaysAnswered(log: seq<Event>, more: seq<Event>, upTo: int, later: int, key: Key, fingerprint: string,
                      status: HttpStatus, body: Json)
    requires WasAnswered(log, upTo, key, fingerprint, status, body) && upTo <= later
    ensures WasAnswered(log + more, later, key, fingerprint, status, body)
  {
    var i :| 0 <= i < upTo && i < |log| && IsAnswer(log, i, key, fingerprint, status, body);
    assert (log + more)[..i] == log[..i];
    assert IsAnswer(log + more, i, key, fingerprint, status, body);
  }

  ghost predicate RowIsAnswer(s: State, key: Key)
    requires key in s.rows
  {
    var row := s.rows[key];
    row.status == Completed ==>
      && row.responseStatus.Some? && row.responseStatus.value < 500
      && WasAnswered(s.log, |s.log|, key, row.fingerprint, row.responseStatus.value, row.responseBody)
  }

  ghost predicate ReplayIsAnswer(log: seq<Event>, j: int)
    requires 0 <= j < |log|
  {
    log[j].Replied? && log[j].reply.Replayed? ==>
      && log[j].reply.status < 500
      && WasAnswered(log, j, log[j].key, log[j].fingerprint, log[j].reply.status, log[j].reply.body)
  }

  ghost predicate OnlyAnswersAreReplayed(s: State) {
    && (forall key | key in s.rows :: RowIsAnswer(s, key))
    && (forall j | 0 <= j < |s.log| :: ReplayIsAnswer(s.log, j))
  }

  lemma AnswerIsThere(s: State, id: nat)
    requires Inv(s) && Enabled(s, Finish(id)) && s.requests[id].phase.response.json.Some?
    ensures var r, log := s.requests[id], Apply(s, Finish(id)).log; var answer := r.phase.response;
      WasAnswered(log, |log|, r.key, r.fingerprint, answer.status, answer.json.value)
  {
    var r, log := s.requests[id], Apply(s, Finish(id)).log;
    ClaimComesTo(s, id);
    assert StartIsLogged(r, id, s.log);
    var last := |log| - 1;
    assert log[..last] == s.log + log[|s.log|..last];
    assert IsAnswer(log, last, r.key, r.fingerprint, r.phase.response.status, r.phase.response.json.value);
  }

  lemma CompletedRowIsOld(s: State, step: Step, key: Key)
    requires Enabled(s, step) && key in Apply(s, step).rows && Apply(s, step).rows[key].status == Completed
    requires step.Finish? ==> s.requests[step.id].key != key
    ensures key in s.rows && s.rows[key] == Apply(s, step).rows[key]
  {
  }

  lemma FinishedRowIsAnswer(s: State, id: nat)
    requires Inv(s) && Enabled(s, Finish(id)) && s.requests[id].key in Apply(s, Finish(id)).rows
    ensures RowIsAnswer(Apply(s, Finish(id)), s.requests[id].key)
  {
    ClaimComesTo(s, id);
    AnswerIsThere(s, id);
  }

  lemma RowStaysAnswer(s: State, step: Step, key: Key)
    requires Inv(s) && OnlyAnswersAreReplayed(s) && Enabled(s, step) && key in Apply(s, step).rows
    ensures RowIsAnswer(Apply(s, step), key)
  {
    var t := Apply(s, step);
    if step.Finish? && s.requests[step.id].key == key {
      FinishedRowIsAnswer(s, step.id);
    } else if t.rows[key].status == Completed {
      CompletedRowIsOld(s, step, key);
      OldRowStaysAnswer(s, t, step, key);
    }
  }

  lemma OldRowStaysAnswer(s: State, t: State, step: Step, key: Key)
    requires Enabled(s, step) && t == Apply(s, step) && key in s.rows && key in t.rows && s.rows[key] == t.rows[key]
    requires RowIsAnswer(s, key)
    ensures RowIsAnswer(t, key)
  {
    StepAppends(s, step);
    var row, more := s.rows[key], t.log[|s.log|..];
    assert t.log == s.log + more;
    if row.status == Completed {
      StaysAnswered(s.log, more, |s.log|, |t.log|, key, row.fingerprint, row.responseStatus.value, row.responseBody);
    }
  }

  /** Only a load replays, and it replays the row it finds. */
  lemma ReplaysARow(s: State, step: Step, j: nat)
    requires Enabled(s, step) && |s.log| <= j < |Apply(s, step).log|
    requires Apply(s, step).log[j].Replied? && Apply(s, step).log[j].reply.Replayed?
    ensures var e := Apply(s, step).log[j];
      && e.key in s.rows && s.rows[e.key].status == Completed && s.rows[e.key].fingerprint == e.fingerprint
      && s.rows[e.key].responseStatus == Some(e.reply.status) && s.rows[e.key].responseBody == e.reply.body
  {
  }

  lemma OldReplayStaysAnswer(log: seq<Event>, more: seq<Event>, j: nat)
    requires j < |log| && ReplayIsAnswer(log, j)
    ensures ReplayIsAnswer(log + more, j)
  {
    var e := log[j];
    assert (log + more)[j] == e;
    if e.Replied? && e.reply.Replayed? {
      StaysAnswered(log, more, j, j, e.key, e.fingerprint, e.reply.status, e.reply.body);
    }
  }

  lemma NewReplayIsAnswer(s: State, step: Step, j: nat)
    requires OnlyAnswersAreReplayed(s) && Enabled(s, step) && |s.log| <= j < |Apply(s, step).log|
    ensures ReplayIsAnswer(Apply(s, step).log, j)
  {
    var log := Apply(s, step).log;
    StepAppends(s, step);
    if log[j].Replied? && log[j].reply.Replayed? {
      var e := log[j];
      ReplaysARow(s, step, j);
      assert RowIsAnswer(s, e.key);
      StaysAnswered(s.log, log[|s.log|..], |s.log|, j, e.key, e.fingerprint, e.reply.status, e.reply.body);
      assert log == s.log + log[|s.log|..];
    }
  }

  lemma ReplayStaysAnswer(s: State, step: Step, j: nat)
    requires OnlyAnswersAreReplayed(s) && Enabled(s, step) && j < |Apply(s, step).log|
    ensures ReplayIsAnswer(Apply(s, step).log, j)
  {
    StepAppends(s, step);
    if j < |s.log| {
      var more := Apply(s, step).log[|s.log|..];
      assert Apply(s, step).log == s.log + more;
      OldReplayStaysAnswer(s.log, more, j);
    } else {
      NewReplayIsAnswer(s, step, j);
    }
  }

  lemma {:induction false} RunsReplayOnlyAnswers(states: seq<State>, steps: seq<Step>, n: nat)
    requires IsRun(states, steps) && n < |states|
    ensures OnlyAnswersAreReplayed(states[n])
    decreases n
  {
    if n > 0 {
      var s, step := states[n - 1], steps[n - 1];
      RunsReplayOnlyAnswers(states, steps, n - 1);
      RunsKeepInv(states, steps, n - 1);
      assert Enabled(s, step) && states[n] == Apply(s, step);
      forall key | key in states[n].rows ensures RowIsAnswer(states[n], key) {
        RowStaysAnswer(s, step, key);
      }
      forall j | 0 <= j < |states[n].log| ensures ReplayIsAnswer(states[n].log, j) {
        ReplayStaysAnswer(s, step, j);
      }
    }
  }

  /** Over every run, releases and deaths included: whatever is replayed is below 500, and is the status and JSON that the
      handler of an earlier request with the same key and fingerprint, which held the claim, had answered. */
  lemma EveryReplayIsAnEarlierAnswer(states: seq<State>, steps: seq<Step>, n: nat, j: nat) returns (i: nat)
    requires IsRun(states, steps) && n < |states| && j < |states[n].log|
    requires states[n].log[j].Replied? && states[n].log[j].reply.Replayed?
    ensures var e := states[n].log[j];
      && e.reply.status < 500
      && i < j && states[n].log[i].Replied?
      && states[n].log[i] == Replied(states[n].log[i].id, e.key, e.fingerprint,
                                     Direct(Response(e.reply.status, Some(e.reply.body))))
      && Started(states[n].log[i].id, e.key, e.fingerprint, true) in states[n].log[..i]
  {
    var log, e := states[n].log, states[n].log[j];
    RunsReplayOnlyAnswers(states, steps, n);
    assert ReplayIsAnswer(log, j);
    i :| 0 <= i < j && i < |log| && IsAnswer(log, i, e.key, e.fingerprint, e.reply.status, e.reply.body);
  }

  lemma StepLogsAnswers(s: State, step: Step, id: nat)
    requires Enabled(s, step) && id in Apply(s, step).requests && Apply(s, step).requests[id].phase.Answered?
    ensures var r, t := Apply(s, step).requests[id], Apply(s, step);
      || Replied(id, r.key, r.fingerprint, r.phase.reply) in t.log
      || (id in s.requests && s.requests[id] == r)
  {
  }

  /** Nothing is answered off the record: over every run, what a request was told is in the log. */
  lemma {:induction false} EveryAnswerIsLogged(states: seq<State>, steps: seq<Step>, n: nat, id: nat)
    requires IsRun(states, steps) && n < |states|
    requires id in states[n].requests && states[n].requests[id].phase.Answered?
    ensures var r := states[n].requests[id]; Replied(id, r.key, r.fingerprint, r.phase.reply) in states[n].log
    decreases n
  {
    if n > 0 {
      var s, step := states[n - 1], steps[n - 1];
      assert Enabled(s, step) && states[n] == Apply(s, step);
      StepLogsAnswers(s, step, id);
      StepAppends(s, step);
      if id in s.requests && s.requests[id] == states[n].requests[id] {
        EveryAnswerIsLogged(states, steps, n - 1, id);
        assert states[n].log == s.log + states[n].log[|s.log|..];
      }
    }
  }

  lemma RunsKeepOwned(states: seq<State>, steps: seq<Step>, i: nat)
    requires IsRun(states, steps) && i < |states|
    ensures Owned(states[i])
  {
    RunsKeepInv(states, steps, i);
  }

  lemma OrphanIsInUse(s: State, id: nat)
    requires Owned(s) && id in s.requests && s.requests[id].phase == Died(true)
    ensures var r := s.requests[id]; r.key in s.rows && Decide(s.rows[r.key], r.fingerprint) == InUse
  {
    assert Holds(s, id, s.requests[id].key);
  }

  /** A handler that died with its claim leaves every later same-fingerprint request a 409, for ever:
      no step of the middleware removes the row. */
  lemma {:induction false} OrphanedKeyStaysInUse(states: seq<State>, steps: seq<Step>, i: nat, j: nat, id: nat)
    requires IsRun(states, steps) && i <= j < |states|
    requires id in states[i].requests && states[i].requests[id].phase == Died(true)
    ensures id in states[j].requests && states[j].requests[id] == states[i].requests[id]
    ensures var r := states[i].requests[id];
      r.key in states[j].rows && Decide(states[j].rows[r.key], r.fingerprint) == InUse
    decreases j
  {
    if i < j {
      OrphanedKeyStaysInUse(states, steps, i, j - 1, id);
      RunsKeepOwned(states, steps, j - 1);
      assert Enabled(states[j - 1], steps[j - 1]);
      OrphanKeepsItsClaim(states[j - 1], steps[j - 1], id);
    }
    RunsKeepOwned(states, steps, j);
    OrphanIsInUse(states[j], id);
  }
}
