// The guard that refuses a timezone change once entries exist, the ingest that derives instants from
// the zone, and what the pair promises over whole runs: one derivation zone per tenant.

module TimezoneGuard {

  import opened Calendar
  import opened Results
  import opened Sorting

  type Zone = string
  type Raw = string

  /** How a raw line and a zone give an instant, the content hash, and the global default zone. */
  datatype World = World(derive: (Raw, Zone) -> Option<Instant>, hash: Raw -> string, defaultZone: Zone)

  ghost predicate CollisionFree(w: World) {
    forall x, y :: w.hash(x) == w.hash(y) ==> x == y
  }

  // ---------------------------------------------------------------- the guard

  function EffectiveZone(w: World, stored: Option<Zone>): Zone {
    if stored.Some? && stored.value != "" then stored.value else w.defaultZone
  }

  predicate ChangesMeaning(w: World, stored: Option<Zone>, wanted: Option<Zone>) {
    EffectiveZone(w, stored) != EffectiveZone(w, wanted)
  }

  datatype Reason = WouldSplitTimeline(from: Zone, to: Zone)

  function BlockingReason(w: World, stored: Option<Zone>, wanted: Option<Zone>, hasEntries: bool): Option<Reason> {
    if !ChangesMeaning(w, stored, wanted) then None
    else if !hasEntries then None
    else Some(WouldSplitTimeline(EffectiveZone(w, stored), EffectiveZone(w, wanted)))
  }

  // ---------------------------------------------------------------- entries and dedup

  datatype Entry = Entry(customer: string, hash: string, timestamp: Option<Instant>, raw: Raw)

  predicate SameKey3(a: Entry, b: Entry) {
    a.customer == b.customer && a.hash == b.hash && a.timestamp == b.timestamp
  }

  predicate Stored(rows: seq<Entry>, e: Entry) {
    exists i | 0 <= i < |rows| :: SameKey3(rows[i], e)
  }

  /** `ON CONFLICT (customer_code, entry_hash, timestamp) DO NOTHING`, NULLS NOT DISTINCT. */
  function InsertOne(rows: seq<Entry>, e: Entry): seq<Entry> {
    if Stored(rows, e) then rows else rows + [e]
  }

  function InsertAll(rows: seq<Entry>, batch: seq<Entry>): seq<Entry>
    decreases |batch|
  {
    if batch == [] then rows else InsertAll(InsertOne(rows, batch[0]), batch[1..])
  }

  ghost predicate UniqueByThree(rows: seq<Entry>) {
    forall i, j | 0 <= i < j < |rows| :: !SameKey3(rows[i], rows[j])
  }

  ghost predicate UniqueByTwo(rows: seq<Entry>) {
    forall i, j | 0 <= i < j < |rows| :: rows[i].customer != rows[j].customer || rows[i].hash != rows[j].hash
  }

  function Parsed(w: World, customer: string, zone: Zone, line: Raw): Entry {
    Entry(customer, w.hash(line), w.derive(line, zone), line)
  }

  function ParsedAll(w: World, customer: string, zone: Zone, lines: seq<Raw>): (r: seq<Entry>)
    ensures |r| == |lines| && forall i | 0 <= i < |lines| :: r[i] == Parsed(w, customer, zone, lines[i])
  {
    seq(|lines|, i requires 0 <= i < |lines| => Parsed(w, customer, zone, lines[i]))
  }

  lemma {:induction false} InsertAllAppend(rows: seq<Entry>, a: seq<Entry>, b: seq<Entry>)
    ensures InsertAll(rows, a + b) == InsertAll(InsertAll(rows, a), b)
    decreases |a|
  {
    if a == [] {
      assert a + b == b;
    } else {
      assert (a + b)[1..] == a[1..] + b;
      InsertAllAppend(InsertOne(rows, a[0]), a[1..], b);
    }
  }

  /** Insertion only appends, and only rows of the batch whose key was not there. */
  lemma {:induction false} InsertAllExtends(rows: seq<Entry>, batch: seq<Entry>)
    requires UniqueByThree(rows)
    ensures rows <= InsertAll(rows, batch) && UniqueByThree(InsertAll(rows, batch))
    ensures forall e | e in InsertAll(rows, batch) :: e in rows || (e in batch && !Stored(rows, e))
    ensures forall e | e in batch :: Stored(InsertAll(rows, batch), e)
    decreases |batch|
  {
    if batch != [] {
      var next := InsertOne(rows, batch[0]);
      InsertAllExtends(next, batch[1..]);
      var done := InsertAll(rows, batch);
      assert batch == [batch[0]] + batch[1..];
      forall e | e in done ensures e in rows || (e in batch && !Stored(rows, e)) {
        if e !in next {
          assert !Stored(next, e);
          assert forall i | 0 <= i < |rows| :: next[i] == rows[i];
        }
      }
      assert Stored(done, batch[0]) by {
        var i :| 0 <= i < |next| && SameKey3(next[i], batch[0]);
        assert done[i] == next[i];
      }
    }
  }

  // ---------------------------------------------------------------- the parse-and-insert loop

  const INSERT_BATCH := 200

  /** A line already seen since the last flush parses to an entry the batch holds already. */
  ghost predicate SeenMatches(w: World, customer: string, zone: Zone, seen: set<string>, batch: seq<Entry>) {
    && (forall e | e in batch :: e == Parsed(w, customer, zone, e.raw))
    && (forall h :: h in seen <==> exists e | e in batch :: e.hash == h)
  }

  lemma StoredStays(rows: seq<Entry>, batch: seq<Entry>, e: Entry)
    requires UniqueByThree(rows) && e in batch
    ensures InsertOne(InsertAll(rows, batch), e) == InsertAll(rows, batch)
  {
    InsertAllExtends(rows, batch);
  }

  /** One line more, whether it joins the batch or is a repeat of a line in it. */
  lemma OneLineFurther(rows: seq<Entry>, all: seq<Entry>, i: nat, after: seq<Entry>, batch: seq<Entry>)
    requires i < |all| && InsertAll(after, batch) == InsertAll(rows, all[..i])
    ensures InsertAll(after, batch + [all[i]]) == InsertAll(rows, all[..i + 1])
    ensures UniqueByThree(after) && all[i] in batch ==> InsertAll(after, batch) == InsertAll(rows, all[..i + 1])
  {
    assert all[..i + 1] == all[..i] + [all[i]];
    InsertAllAppend(rows, all[..i], [all[i]]);
    InsertAllAppend(after, batch, [all[i]]);
    if UniqueByThree(after) && all[i] in batch {
      StoredStays(after, batch, all[i]);
    }
  }

  /** Parse every line, collapse repeats inside a batch, flush batch by batch: the table ends up as if
      each line had been inserted on its own. */
  method ParseInsert(w: World, rows: seq<Entry>, customer: string, zone: Zone, lines: seq<Raw>)
    returns (after: seq<Entry>)
    requires CollisionFree(w) && UniqueByThree(rows)
    ensures after == InsertAll(rows, ParsedAll(w, customer, zone, lines))
  {
    after := rows;
    var batch: seq<Entry>, seen: set<string> := [], {};
    ghost var all := ParsedAll(w, customer, zone, lines);
    for i := 0 to |lines|
      invariant UniqueByThree(after)
      invariant SeenMatches(w, customer, zone, seen, batch)
      invariant InsertAll(after, batch) == InsertAll(rows, all[..i])
    {
      OneLineFurther(rows, all, i, after, batch);
      var h := w.hash(lines[i]);
      if h in seen {
        ghost var e :| e in batch && e.hash == h;
        assert e.raw == lines[i] && e == all[i];
      } else {
        batch := batch + [Parsed(w, customer, zone, lines[i])];
        seen := seen + {h};
        if |batch| >= INSERT_BATCH {
          InsertAllExtends(after, batch);
          after := InsertAll(after, batch);
          batch, seen := [], {};
        }
      }
    }
    assert all[..|lines|] == all;
    after := InsertAll(after, batch);
  }

  // ---------------------------------------------------------------- the state machine

  /** A job reads its tenant's zone when it starts and inserts its lines in one commit at the end. */
  datatype Job = Job(customer: string, zone: Zone)

  /** A PATCH of a tenant's zone: it reads the stored zone, then asks whether entries exist, and only then
      writes. Each is a transaction of its own and nothing is locked in between. */
  datatype Change =
    | Reading(customer: string, zone: Zone, allowMixed: bool, stored: Option<Zone>)
    | Granted(customer: string, zone: Zone)

  datatype State = State(
    zones: map<string, Option<Zone>>,
    rows: seq<Entry>,
    jobs: map<nat, Job>,
    changes: map<nat, Change>)

  datatype Step =
    | Register(customer: string, initial: Option<Zone>)
    | Begin(id: nat, customer: string)
    | Commit(id: nat, lines: seq<Raw>)
    | Fail(id: nat)
    | Open(id: nat, customer: string, zone: Zone, allowMixed: bool)
    | Ask(id: nat)
    | Write(id: nat)
    | Abandon(id: nat)
    | PurgeData(customer: string)
    | Expire(before: Instant)

  predicate HasEntries(rows: seq<Entry>, customer: string) {
    exists i | 0 <= i < |rows| :: rows[i].customer == customer
  }

  predicate InFlight(s: State, customer: string) {
    exists id | id in s.jobs :: s.jobs[id].customer == customer
  }

  function ZoneOf(w: World, s: State, customer: string): Zone {
    EffectiveZone(w, if customer in s.zones then s.zones[customer] else None)
  }

  predicate Enabled(s: State, step: Step) {
    match step
    case Register(customer, _) => customer !in s.zones
    case Begin(id, customer) => id !in s.jobs && customer in s.zones
    case Commit(id, _) => id in s.jobs
    case Fail(id) => id in s.jobs
    case Open(id, customer, _, _) => id !in s.changes && customer in s.zones
    case Ask(id) => id in s.changes && s.changes[id].Reading?
    case Write(id) => id in s.changes && s.changes[id].Granted?
    case Abandon(id) => id in s.changes
    case PurgeData(_) => true
    case Expire(_) => true
  }

  function Kept(rows: seq<Entry>, before: Instant): seq<Entry> {
    Filter((e: Entry) => e.timestamp.None? || before <= e.timestamp.value, rows)
  }

  function Others(rows: seq<Entry>, customer: string): seq<Entry> {
    Filter((e: Entry) => e.customer != customer, rows)
  }

  function Apply(w: World, s: State, step: Step): State
    requires Enabled(s, step)
  {
    match step
    case Register(customer, zone) => s.(zones := s.zones[customer := zone])
    case Begin(id, customer) => s.(jobs := s.jobs[id := Job(customer, ZoneOf(w, s, customer))])
    case Commit(id, lines) =>
      var job := s.jobs[id];
      s.(rows := InsertAll(s.rows, ParsedAll(w, job.customer, job.zone, lines)), jobs := s.jobs - {id})
    case Fail(id) => s.(jobs := s.jobs - {id})
    case Open(id, customer, zone, allowMixed) =>
      s.(changes := s.changes[id := Reading(customer, zone, allowMixed, s.zones[customer])])
    case Ask(id) =>
      var c := s.changes[id];
      if BlockingReason(w, c.stored, Some(c.zone), HasEntries(s.rows, c.customer)).Some? && !c.allowMixed
      then s.(changes := s.changes - {id})
      else s.(changes := s.changes[id := Granted(c.customer, c.zone)])
    case Write(id) =>
      var c := s.changes[id];
      s.(zones := s.zones[c.customer := Some(c.zone)], changes := s.changes - {id})
    case Abandon(id) => s.(changes := s.changes - {id})
    case PurgeData(customer) => s.(rows := Others(s.rows, customer))
    case Expire(before) => s.(rows := Kept(s.rows, before))
  }

  // ---------------------------------------------------------------- the property, and what each step needs

  /** Every stored entry was derived under its tenant's current effective zone. */
  ghost predicate OneZone(w: World, s: State) {
    forall e | e in s.rows :: e == Parsed(w, e.customer, ZoneOf(w, s, e.customer), e.raw)
  }

  /** What holds of every run: one row per key, and nothing of an unregistered tenant. */
  ghost predicate Base(s: State) {
    && UniqueByThree(s.rows)
    && (forall e | e in s.rows :: e.customer in s.zones)
    && (forall id | id in s.jobs :: s.jobs[id].customer in s.zones)
    && (forall id | id in s.changes :: s.changes[id].customer in s.zones)
  }

  lemma {:induction false} FilterKeepsUnique(p: Entry -> bool, rows: seq<Entry>)
    requires UniqueByThree(rows)
    ensures UniqueByThree(Filter(p, rows))
  {
    if rows != [] {
      assert UniqueByThree(rows[1..]);
      FilterKeepsUnique(p, rows[1..]);
      FilterMembers(p, rows[1..]);
      if p(rows[0]) {
        var rest := Filter(p, rows[1..]);
        forall j | 0 <= j < |rest| ensures !SameKey3(rows[0], rest[j]) {
          assert rest[j] in rows[1..];
        }
      }
    }
  }

  lemma FewerRowsKeepBase(s: State, p: Entry -> bool)
    requires Base(s)
    ensures Base(s.(rows := Filter(p, s.rows)))
    ensures forall e | e in Filter(p, s.rows) :: e in s.rows
  {
    FilterKeepsUnique(p, s.rows);
    FilterMembers(p, s.rows);
  }

  lemma CommitKeepsBase(w: World, s: State, id: nat, lines: seq<Raw>)
    requires Base(s) && id in s.jobs
    ensures Base(Apply(w, s, Commit(id, lines)))
  {
    var job := s.jobs[id];
    var batch := ParsedAll(w, job.customer, job.zone, lines);
    InsertAllExtends(s.rows, batch);
    forall e | e in InsertAll(s.rows, batch) ensures e.customer in s.zones {
      assert e in s.rows || e in batch;
    }
  }

  lemma StepKeepsBase(w: World, s: State, step: Step)
    requires Base(s) && Enabled(s, step)
    ensures Base(Apply(w, s, step))
  {
    match step
    case Commit(id, lines) => CommitKeepsBase(w, s, id, lines);
    case PurgeData(customer) => FewerRowsKeepBase(s, (e: Entry) => e.customer != customer);
    case Expire(before) => FewerRowsKeepBase(s, (e: Entry) => e.timestamp.None? || before <= e.timestamp.value);
    case _ =>
  }

  /** What a step must find so as not to split a timeline; all of it can be looked up before the step. A commit:
      every line is stored already as the job derives it, or derives alike under the job's zone and the zone now in
      effect. A write: every entry of the tenant derives alike under the zone in effect and the zone to come. */
  ghost predicate StepSafe(w: World, s: State, step: Step)
    requires Enabled(s, step)
  {
    match step
    case Commit(id, lines) => CommitSafe(w, s, s.jobs[id], lines)
    case Write(id) => WriteSafe(w, s, s.changes[id])
    case _ => true
  }

  ghost predicate CommitSafe(w: World, s: State, job: Job, lines: seq<Raw>) {
    forall line | line in lines ::
      || Stored(s.rows, Parsed(w, job.customer, job.zone, line))
      || w.derive(line, job.zone) == w.derive(line, ZoneOf(w, s, job.customer))
  }

  ghost predicate WriteSafe(w: World, s: State, c: Change) {
    forall e | e in s.rows && e.customer == c.customer ::
      w.derive(e.raw, EffectiveZone(w, Some(c.zone))) == w.derive(e.raw, ZoneOf(w, s, c.customer))
  }

  lemma WriteKeepsOneZoneIff(w: World, s: State, id: nat)
    requires OneZone(w, s) && Enabled(s, Write(id))
    ensures OneZone(w, Apply(w, s, Write(id))) <==> WriteSafe(w, s, s.changes[id])
  {
    var c := s.changes[id];
    var after := Apply(w, s, Write(id));
    if OneZone(w, after) {
      forall e | e in s.rows && e.customer == c.customer
        ensures w.derive(e.raw, EffectiveZone(w, Some(c.zone))) == w.derive(e.raw, ZoneOf(w, s, c.customer))
      {
        assert e in after.rows;
      }
    }
  }

  lemma MemberIsStored(rows: seq<Entry>, e: Entry, mine: Entry)
    requires SameKey3(e, mine)
    ensures e in rows ==> Stored(rows, mine)
  {
    if e in rows {
      var j :| 0 <= j < |rows| && rows[j] == e;
    }
  }

  lemma NewRowOf(w: World, rows: seq<Entry>, job: Job, lines: seq<Raw>, line: Raw)
    requires CollisionFree(w) && UniqueByThree(rows) && line in lines
    requires !Stored(rows, Parsed(w, job.customer, job.zone, line))
    ensures Parsed(w, job.customer, job.zone, line) in InsertAll(rows, ParsedAll(w, job.customer, job.zone, lines))
  {
    var batch := ParsedAll(w, job.customer, job.zone, lines);
    var mine := Parsed(w, job.customer, job.zone, line);
    var after := InsertAll(rows, batch);
    InsertAllExtends(rows, batch);
    var i :| 0 <= i < |lines| && lines[i] == line;
    assert batch[i] == mine && mine in batch;
    var k :| 0 <= k < |after| && SameKey3(after[k], mine);
    assert after[k] in after;
    MemberIsStored(rows, after[k], mine);
    assert after[k] in batch;
  }

  lemma AddedRows(w: World, rows: seq<Entry>, job: Job, lines: seq<Raw>, e: Entry)
    requires UniqueByThree(rows) && e in InsertAll(rows, ParsedAll(w, job.customer, job.zone, lines)) && e !in rows
    ensures e.raw in lines && e == Parsed(w, job.customer, job.zone, e.raw) && !Stored(rows, e)
  {
    InsertAllExtends(rows, ParsedAll(w, job.customer, job.zone, lines));
  }

  lemma CommitKeepsOneZoneIff(w: World, s: State, id: nat, lines: seq<Raw>)
    requires CollisionFree(w) && Base(s) && OneZone(w, s) && id in s.jobs
    ensures OneZone(w, Apply(w, s, Commit(id, lines))) <==> CommitSafe(w, s, s.jobs[id], lines)
  {
    var job := s.jobs[id];
    var after := Apply(w, s, Commit(id, lines));
    if OneZone(w, after) {
      forall line | line in lines && !Stored(s.rows, Parsed(w, job.customer, job.zone, line))
        ensures w.derive(line, job.zone) == w.derive(line, ZoneOf(w, s, job.customer))
      {
        NewRowOf(w, s.rows, job, lines, line);
        assert Parsed(w, job.customer, job.zone, line) in after.rows;
      }
    }
    if CommitSafe(w, s, job, lines) {
      forall e | e in after.rows ensures e == Parsed(w, e.customer, ZoneOf(w, after, e.customer), e.raw) {
        if e !in s.rows {
          AddedRows(w, s.rows, job, lines, e);
        }
      }
    }
  }

  /** Exactly when one step of any kind keeps the property. */
  lemma StepKeepsOneZoneIff(w: World, s: State, step: Step)
    requires CollisionFree(w) && Base(s) && OneZone(w, s) && Enabled(s, step)
    ensures OneZone(w, Apply(w, s, step)) <==> StepSafe(w, s, step)
  {
    match step
    case Commit(id, lines) => CommitKeepsOneZoneIff(w, s, id, lines);
    case Write(id) => WriteKeepsOneZoneIff(w, s, id);
    case PurgeData(customer) => FewerRowsKeepBase(s, (e: Entry) => e.customer != customer);
    case Expire(before) => FewerRowsKeepBase(s, (e: Entry) => e.timestamp.None? || before <= e.timestamp.value);
    case _ =>
  }

  // ---------------------------------------------------------------- whole runs

  ghost predicate IsRun(w: World, states: seq<State>, steps: seq<Step>) {
    && |states| == |steps| + 1 && states[0] == State(map[], [], map[], map[])
    && forall i | 0 <= i < |steps| :: Enabled(states[i], steps[i]) && states[i + 1] == Apply(w, states[i], steps[i])
  }

  lemma {:induction false} RunsKeepBase(w: World, states: seq<State>, steps: seq<Step>, i: nat)
    requires IsRun(w, states, steps) && i < |states|
    ensures Base(states[i])
    decreases i
  {
    if i > 0 {
      RunsKeepBase(w, states, steps, i - 1);
      assert Enabled(states[i - 1], steps[i - 1]);
      StepKeepsBase(w, states[i - 1], steps[i - 1]);
    }
  }

  ghost predicate SafeUpTo(w: World, states: seq<State>, steps: seq<Step>, n: nat)
    requires IsRun(w, states, steps) && n <= |steps|
  {
    forall i | 0 <= i < n :: Enabled(states[i], steps[i]) && StepSafe(w, states[i], steps[i])
  }

  ghost predicate OneZoneUpTo(w: World, states: seq<State>, n: nat)
    requires n < |states|
  {
    forall i | 0 <= i <= n :: OneZone(w, states[i])
  }

  lemma OneStateFurther(w: World, states: seq<State>, n: nat)
    requires 0 < n < |states|
    ensures OneZoneUpTo(w, states, n) <==> OneZoneUpTo(w, states, n - 1) && OneZone(w, states[n])
    ensures OneZoneUpTo(w, states, n - 1) ==> OneZone(w, states[n - 1])
  {
  }

  lemma OneStepFurther(w: World, states: seq<State>, steps: seq<Step>, n: nat)
    requires IsRun(w, states, steps) && 0 < n <= |steps|
    ensures Enabled(states[n - 1], steps[n - 1]) && states[n] == Apply(w, states[n - 1], steps[n - 1])
    ensures SafeUpTo(w, states, steps, n)
       <==> SafeUpTo(w, states, steps, n - 1) && StepSafe(w, states[n - 1], steps[n - 1])
  {
    assert Enabled(states[n - 1], steps[n - 1]) && states[n - 1 + 1] == Apply(w, states[n - 1], steps[n - 1]);
  }

  /** Over a whole run, exactly: each tenant has one derivation zone in every state if and only if every commit
      and every write of the run found what it needs. */
  lemma {:induction false} RunKeepsOneZoneIff(w: World, states: seq<State>, steps: seq<Step>, n: nat)
    requires CollisionFree(w) && IsRun(w, states, steps) && n < |states|
    ensures OneZoneUpTo(w, states, n) <==> SafeUpTo(w, states, steps, n)
    decreases n
  {
    if n > 0 {
      RunKeepsOneZoneIff(w, states, steps, n - 1);
      RunsKeepBase(w, states, steps, n - 1);
      OneStateFurther(w, states, n);
      OneStepFurther(w, states, steps, n);
      if OneZoneUpTo(w, states, n - 1) {
        StepKeepsOneZoneIff(w, states[n - 1], steps[n - 1]);
      }
    }
  }

  // ---------------------------------------------------------------- what is enough

  /** Every job in flight read the zone that is still in effect. */
  ghost predicate JobsAreCurrent(w: World, s: State) {
    forall id | id in s.jobs :: s.jobs[id].zone == ZoneOf(w, s, s.jobs[id].customer)
  }

  /** Writing the change would change how lines are derived. */
  predicate Meaningful(w: World, s: State, c: Change) {
    EffectiveZone(w, Some(c.zone)) != ZoneOf(w, s, c.customer)
  }

  /** A tenant has one change under way at most; it read the zone still stored; and a granted one that means
      something finds neither entries nor jobs. */
  ghost predicate ChangesAreSafe(w: World, s: State) {
    && (forall a, b | a in s.changes && b in s.changes && s.changes[a].customer == s.changes[b].customer :: a == b)
    && (forall id | id in s.changes && s.changes[id].Reading? ::
          s.changes[id].customer in s.zones && s.changes[id].stored == s.zones[s.changes[id].customer])
    && (forall id | id in s.changes && s.changes[id].Granted? && Meaningful(w, s, s.changes[id]) ::
          !HasEntries(s.rows, s.changes[id].customer) && !InFlight(s, s.changes[id].customer))
  }

  ghost predicate Inv(w: World, s: State) {
    Base(s) && OneZone(w, s) && JobsAreCurrent(w, s) && ChangesAreSafe(w, s)
  }

  /** One change per tenant at a time; where it means something, the guard refuses it or no job of the tenant is in
      flight when it asks; and no job of the tenant begins between the grant and the write. */
  ghost predicate Careful(w: World, s: State, step: Step)
    requires Enabled(s, step)
  {
    match step
    case Open(_, customer, _, _) => forall id | id in s.changes :: s.changes[id].customer != customer
    case Ask(id) =>
      var c := s.changes[id];
      Meaningful(w, s, c) ==>
        if HasEntries(s.rows, c.customer) then !c.allowMixed else !InFlight(s, c.customer)
    case Begin(_, customer) =>
      forall id | id in s.changes && s.changes[id].customer == customer ::
        !(s.changes[id].Granted? && Meaningful(w, s, s.changes[id]))
    case _ => true
  }

  lemma SameZonesKeepChangesSafe(w: World, s: State, t: State)
    requires ChangesAreSafe(w, s) && t.zones == s.zones && t.changes == s.changes
    requires forall customer :: HasEntries(t.rows, customer) ==> HasEntries(s.rows, customer) || InFlight(s, customer)
    requires forall customer :: InFlight(t, customer) ==> InFlight(s, customer)
    ensures ChangesAreSafe(w, t)
  {
    forall id | id in t.changes && t.changes[id].Granted? && Meaningful(w, t, t.changes[id])
      ensures !HasEntries(t.rows, t.changes[id].customer) && !InFlight(t, t.changes[id].customer)
    {
      assert Meaningful(w, s, s.changes[id]);
    }
  }

  lemma EntriesAmong(rows: seq<Entry>, all: seq<Entry>, customer: string)
    requires forall e | e in rows :: e in all
    ensures HasEntries(rows, customer) ==> HasEntries(all, customer)
  {
    if HasEntries(rows, customer) {
      var i :| 0 <= i < |rows| && rows[i].customer == customer;
      assert rows[i] in all;
    }
  }

  lemma CommitKeepsInv(w: World, s: State, id: nat, lines: seq<Raw>)
    requires CollisionFree(w) && Inv(w, s) && id in s.jobs
    ensures Inv(w, Apply(w, s, Commit(id, lines)))
  {
    var t := Apply(w, s, Commit(id, lines));
    var job := s.jobs[id];
    CommitKeepsBase(w, s, id, lines);
    CommitKeepsOneZoneIff(w, s, id, lines);
    forall customer ensures HasEntries(t.rows, customer) ==> HasEntries(s.rows, customer) || InFlight(s, customer) {
      if HasEntries(t.rows, customer) {
        var i :| 0 <= i < |t.rows| && t.rows[i].customer == customer;
        if t.rows[i] !in s.rows {
          AddedRows(w, s.rows, job, lines, t.rows[i]);
        }
      }
    }
    SameZonesKeepChangesSafe(w, s, t);
  }

  lemma FewerRowsKeepInv(w: World, s: State, p: Entry -> bool)
    requires Inv(w, s)
    ensures Inv(w, s.(rows := Filter(p, s.rows)))
  {
    var t := s.(rows := Filter(p, s.rows));
    FewerRowsKeepBase(s, p);
    forall customer ensures HasEntries(t.rows, customer) ==> HasEntries(s.rows, customer) {
      EntriesAmong(t.rows, s.rows, customer);
    }
    forall customer ensures InFlight(t, customer) ==> InFlight(s, customer) {
    }
    SameZonesKeepChangesSafe(w, s, t);
  }

  lemma AskKeepsInv(w: World, s: State, id: nat)
    requires Inv(w, s) && Enabled(s, Ask(id)) && Careful(w, s, Ask(id))
    ensures Inv(w, Apply(w, s, Ask(id)))
  {
    var c := s.changes[id];
    var t := Apply(w, s, Ask(id));
    assert c.stored == s.zones[c.customer];
    forall k | k in t.changes && t.changes[k].Granted? && Meaningful(w, t, t.changes[k])
      ensures !HasEntries(t.rows, t.changes[k].customer) && !InFlight(t, t.changes[k].customer)
    {
      if k != id {
        assert Meaningful(w, s, s.changes[k]);
      } else {
        assert Meaningful(w, s, c);
      }
    }
  }

  lemma WriteKeepsInv(w: World, s: State, id: nat)
    requires Inv(w, s) && Enabled(s, Write(id))
    ensures Inv(w, Apply(w, s, Write(id)))
  {
    var c := s.changes[id];
    var t := Apply(w, s, Write(id));
    if Meaningful(w, s, c) {
      forall e | e in s.rows ensures e.customer != c.customer {
        var i :| 0 <= i < |s.rows| && s.rows[i] == e;
      }
    }
    forall k | k in t.changes && t.changes[k].Granted? && Meaningful(w, t, t.changes[k])
      ensures !HasEntries(t.rows, t.changes[k].customer) && !InFlight(t, t.changes[k].customer)
    {
      assert Meaningful(w, s, s.changes[k]);
    }
  }

  lemma BeginKeepsInv(w: World, s: State, step: Step)
    requires Inv(w, s) && step.Begin? && Enabled(s, step) && Careful(w, s, step)
    ensures Inv(w, Apply(w, s, step))
  {
    var t := Apply(w, s, step);
    forall k | k in t.changes && t.changes[k].Granted? && Meaningful(w, t, t.changes[k])
      ensures !HasEntries(t.rows, t.changes[k].customer) && !InFlight(t, t.changes[k].customer)
    {
      assert Meaningful(w, s, s.changes[k]);
    }
  }

  lemma RegisterKeepsInv(w: World, s: State, step: Step)
    requires Inv(w, s) && step.Register? && Enabled(s, step)
    ensures Inv(w, Apply(w, s, step))
  {
    var t := Apply(w, s, step);
    forall k | k in t.changes && t.changes[k].Granted? && Meaningful(w, t, t.changes[k])
      ensures !HasEntries(t.rows, t.changes[k].customer) && !InFlight(t, t.changes[k].customer)
    {
      assert Meaningful(w, s, s.changes[k]);
    }
  }

  lemma FewerKeepInv(w: World, s: State, t: State)
    requires Inv(w, s) && t.zones == s.zones && t.rows == s.rows
    requires forall id | id in t.jobs :: id in s.jobs && t.jobs[id] == s.jobs[id]
    requires forall id | id in t.changes :: id in s.changes && t.changes[id] == s.changes[id]
    ensures Inv(w, t)
  {
    forall k | k in t.changes && t.changes[k].Granted? && Meaningful(w, t, t.changes[k])
      ensures !HasEntries(t.rows, t.changes[k].customer) && !InFlight(t, t.changes[k].customer)
    {
      assert Meaningful(w, s, s.changes[k]);
    }
  }

  lemma OpenKeepsInv(w: World, s: State, step: Step)
    requires Inv(w, s) && step.Open? && Enabled(s, step) && Careful(w, s, step)
    ensures Inv(w, Apply(w, s, step))
  {
    var t := Apply(w, s, step);
    forall k | k in t.changes && t.changes[k].Granted? && Meaningful(w, t, t.changes[k])
      ensures !HasEntries(t.rows, t.changes[k].customer) && !InFlight(t, t.changes[k].customer)
    {
      assert Meaningful(w, s, s.changes[k]);
    }
  }

  lemma StepKeepsInv(w: World, s: State, step: Step)
    requires CollisionFree(w) && Inv(w, s) && Enabled(s, step) && Careful(w, s, step)
    ensures Inv(w, Apply(w, s, step))
  {
    match step
    case Register(_, _) => RegisterKeepsInv(w, s, step);
    case Begin(_, _) => BeginKeepsInv(w, s, step);
    case Commit(id, lines) => CommitKeepsInv(w, s, id, lines);
    case Fail(_) => FewerKeepInv(w, s, Apply(w, s, step));
    case Open(_, _, _, _) => OpenKeepsInv(w, s, step);
    case Ask(id) => AskKeepsInv(w, s, id);
    case Write(id) => WriteKeepsInv(w, s, id);
    case Abandon(_) => FewerKeepInv(w, s, Apply(w, s, step));
    case PurgeData(customer) => FewerRowsKeepInv(w, s, (e: Entry) => e.customer != customer);
    case Expire(before) => FewerRowsKeepInv(w, s, (e: Entry) => e.timestamp.None? || before <= e.timestamp.value);
  }

  /** The three-column key is then as strong as the two-column one. */
  lemma OneZoneMakesThreeColumnsEnough(w: World, s: State)
    requires CollisionFree(w) && OneZone(w, s) && UniqueByThree(s.rows)
    ensures UniqueByTwo(s.rows)
  {
    forall i, j | 0 <= i < j < |s.rows|
      ensures s.rows[i].customer != s.rows[j].customer || s.rows[i].hash != s.rows[j].hash
    {
      assert s.rows[i] in s.rows && s.rows[j] in s.rows;
      assert !SameKey3(s.rows[i], s.rows[j]);
    }
  }

  ghost predicate CarefulRun(w: World, states: seq<State>, steps: seq<Step>)
    requires IsRun(w, states, steps)
  {
    forall i | 0 <= i < |steps| :: Enabled(states[i], steps[i]) && Careful(w, states[i], steps[i])
  }

  /** One derivation zone per tenant, and no duplicate content, in every state of a careful run. */
  lemma {:induction false} CarefulRunsKeepOneZone(w: World, states: seq<State>, steps: seq<Step>, i: nat)
    requires CollisionFree(w) && IsRun(w, states, steps) && CarefulRun(w, states, steps) && i < |states|
    ensures Inv(w, states[i]) && UniqueByTwo(states[i].rows)
    decreases i
  {
    if i > 0 {
      CarefulRunsKeepOneZone(w, states, steps, i - 1);
      assert Enabled(states[i - 1], steps[i - 1]) && Careful(w, states[i - 1], steps[i - 1]);
      StepKeepsInv(w, states[i - 1], steps[i - 1]);
    }
    OneZoneMakesThreeColumnsEnough(w, states[i]);
  }

  /** The PATCH when nothing comes between its question and its write. */
  function AskAndWrite(w: World, s: State, id: nat): State
    requires Enabled(s, Ask(id))
  {
    var asked := Apply(w, s, Ask(id));
    if id in asked.changes then Apply(w, asked, Write(id)) else asked
  }

  /** The two zones give every line the same instant. */
  ghost predicate Alike(w: World, a: Zone, b: Zone) {
    forall raw: Raw :: w.derive(raw, a) == w.derive(raw, b)
  }

  /** Whatever the jobs in flight come to commit next, one zone is kept. */
  ghost predicate SafeForJobs(w: World, s: State) {
    forall id, lines: seq<Raw> | id in s.jobs :: OneZone(w, Apply(w, s, Commit(id, lines)))
  }

  /** A zone written for a tenant without entries concerns no row. */
  lemma ZoneOfNoRows(w: World, s: State, after: State, customer: string, zone: Option<Zone>)
    requires OneZone(w, s) && !HasEntries(s.rows, customer)
    requires after.rows == s.rows && after.zones == s.zones[customer := zone]
    ensures OneZone(w, after)
  {
    forall e | e in after.rows ensures e == Parsed(w, e.customer, ZoneOf(w, after, e.customer), e.raw) {
      var i :| 0 <= i < |s.rows| && s.rows[i] == e;
      assert e.customer != customer;
    }
  }

  lemma AskAndWriteKeepsOneZone(w: World, s: State, id: nat)
    requires Inv(w, s) && Enabled(s, Ask(id)) && !s.changes[id].allowMixed && Meaningful(w, s, s.changes[id])
    ensures var after := AskAndWrite(w, s, id); var c := s.changes[id];
      && Base(after) && OneZone(w, after) && after.rows == s.rows && after.jobs == s.jobs
      && (HasEntries(s.rows, c.customer) ==> after.zones == s.zones)
      && (!HasEntries(s.rows, c.customer) ==> after.zones == s.zones[c.customer := Some(c.zone)])
  {
    var c := s.changes[id];
    assert c.stored == s.zones[c.customer];
    if !HasEntries(s.rows, c.customer) {
      ZoneOfNoRows(w, s, AskAndWrite(w, s, id), c.customer, Some(c.zone));
    }
  }

  lemma NothingStoredOf(rows: seq<Entry>, e: Entry)
    requires !HasEntries(rows, e.customer)
    ensures !Stored(rows, e)
  {
  }

  lemma CurrentJobsAreSafe(w: World, s: State)
    requires CollisionFree(w) && Base(s) && OneZone(w, s)
    requires forall id | id in s.jobs :: Alike(w, s.jobs[id].zone, ZoneOf(w, s, s.jobs[id].customer))
    ensures SafeForJobs(w, s)
  {
    forall id, lines: seq<Raw> | id in s.jobs ensures OneZone(w, Apply(w, s, Commit(id, lines))) {
      CommitKeepsOneZoneIff(w, s, id, lines);
    }
  }

  lemma OvertakenJobIsUnsafe(w: World, s: State, id: nat, raw: Raw)
    requires CollisionFree(w) && Base(s) && OneZone(w, s) && id in s.jobs
    requires !HasEntries(s.rows, s.jobs[id].customer)
    requires w.derive(raw, s.jobs[id].zone) != w.derive(raw, ZoneOf(w, s, s.jobs[id].customer))
    ensures !SafeForJobs(w, s)
  {
    CommitKeepsOneZoneIff(w, s, id, [raw]);
    NothingStoredOf(s.rows, Parsed(w, s.jobs[id].customer, s.jobs[id].zone, raw));
    assert raw in [raw];
    assert !OneZone(w, Apply(w, s, Commit(id, [raw])));
  }

  /** Even then the guard alone is enough exactly when it refuses, or no job of the tenant is in flight, or the two zones
      derive alike on every line: asking for entries does not see the ones still on their way. */
  lemma GuardIsEnoughIff(w: World, s: State, id: nat)
    requires CollisionFree(w) && Inv(w, s)
    requires Enabled(s, Ask(id)) && !s.changes[id].allowMixed && Meaningful(w, s, s.changes[id])
    ensures var c := s.changes[id];
      SafeForJobs(w, AskAndWrite(w, s, id)) <==>
        || HasEntries(s.rows, c.customer) || !InFlight(s, c.customer)
        || Alike(w, ZoneOf(w, s, c.customer), EffectiveZone(w, Some(c.zone)))
  {
    var c := s.changes[id];
    var after := AskAndWrite(w, s, id);
    var was, now := ZoneOf(w, s, c.customer), EffectiveZone(w, Some(c.zone));
    AskAndWriteKeepsOneZone(w, s, id);
    if HasEntries(s.rows, c.customer) || !InFlight(s, c.customer) || Alike(w, was, now) {
      forall k | k in after.jobs ensures Alike(w, after.jobs[k].zone, ZoneOf(w, after, after.jobs[k].customer)) {
      }
      CurrentJobsAreSafe(w, after);
    } else {
      var k :| k in s.jobs && s.jobs[k].customer == c.customer;
      var raw: Raw :| w.derive(raw, was) != w.derive(raw, now);
      OvertakenJobIsUnsafe(w, after, k, raw);
    }
  }

  /** And so, by name of the zone: every job still has the zone in effect. */
  lemma JobsStayCurrentIff(w: World, s: State, id: nat)
    requires Inv(w, s) && Enabled(s, Ask(id)) && !s.changes[id].allowMixed && Meaningful(w, s, s.changes[id])
    ensures OneZone(w, AskAndWrite(w, s, id))
    ensures JobsAreCurrent(w, AskAndWrite(w, s, id))
       <==> HasEntries(s.rows, s.changes[id].customer) || !InFlight(s, s.changes[id].customer)
  {
    var c := s.changes[id];
    AskAndWriteKeepsOneZone(w, s, id);
    var after := AskAndWrite(w, s, id);
    if !HasEntries(s.rows, c.customer) && InFlight(s, c.customer) {
      var k :| k in s.jobs && s.jobs[k].customer == c.customer;
      assert after.jobs[k].zone == ZoneOf(w, s, c.customer) != ZoneOf(w, after, c.customer);
    }
  }

  lemma {:induction false} StoredBatchAddsNothing(rows: seq<Entry>, batch: seq<Entry>)
    requires forall e | e in batch :: Stored(rows, e)
    ensures InsertAll(rows, batch) == rows
  {
    if batch != [] {
      assert batch[0] in batch;
      StoredBatchAddsNothing(rows, batch[1..]);
    }
  }

  /** Ingesting lines the tenant already has adds no row. */
  lemma ReingestAddsNothing(w: World, s: State, id: nat, lines: seq<Raw>)
    requires Inv(w, s) && id in s.jobs
    requires forall line | line in lines :: exists e | e in s.rows :: e.customer == s.jobs[id].customer && e.raw == line
    ensures Apply(w, s, Commit(id, lines)).rows == s.rows
  {
    var job := s.jobs[id];
    var batch := ParsedAll(w, job.customer, job.zone, lines);
    forall e | e in batch ensures Stored(s.rows, e) {
      var i :| 0 <= i < |batch| && batch[i] == e;
      assert lines[i] in lines;
      var kept :| kept in s.rows && kept.customer == job.customer && kept.raw == lines[i];
      assert kept == Parsed(w, kept.customer, ZoneOf(w, s, kept.customer), kept.raw);
      var k :| 0 <= k < |s.rows| && s.rows[k] == kept;
      assert SameKey3(s.rows[k], e);
    }
    StoredBatchAddsNothing(s.rows, batch);
  }

  // ---------------------------------------------------------------- two runs the guard lets through

  const LONDON: Zone := "Europe/London"
  const UNSET: map<string, Option<Zone>> := map["acme" := None]
  const CHANGED: map<string, Option<Zone>> := map["acme" := Some(LONDON)]
  const OLD_JOB: Job := Job("acme", "UTC")
  const NEW_JOB: Job := Job("acme", LONDON)
  const ASKED: Change := Reading("acme", LONDON, false, None)
  const GRANTED: Change := Granted("acme", LONDON)

  function SplitWorld(): World {
    World((raw: Raw, zone: Zone) => if zone == "UTC" then Some(0) else Some(1), (raw: Raw) => raw, "UTC")
  }

  function RowAt(t: Instant): Entry {
    Entry("acme", "line", Some(t), "line")
  }

  ghost predicate Follows(states: seq<State>, steps: seq<Step>, i: nat)
    requires i < |steps| && i + 1 < |states|
  {
    Enabled(states[i], steps[i]) && states[i + 1] == Apply(SplitWorld(), states[i], steps[i])
  }

  lemma FirstCommit(zones: map<string, Option<Zone>>, changes: map<nat, Change>)
    ensures Apply(SplitWorld(), State(zones, [], map[0 := OLD_JOB], changes), Commit(0, ["line"]))
         == State(zones, [RowAt(0)], map[], changes)
  {
    assert ParsedAll(SplitWorld(), "acme", "UTC", ["line"]) == [RowAt(0)];
    assert map[0 := OLD_JOB] - {0} == map[];
  }

  lemma SecondCommit(zones: map<string, Option<Zone>>, changes: map<nat, Change>)
    ensures Apply(SplitWorld(), State(zones, [RowAt(0)], map[1 := NEW_JOB], changes), Commit(1, ["line"]))
         == State(zones, [RowAt(0), RowAt(1)], map[], changes)
  {
    assert LONDON != "UTC";
    assert ParsedAll(SplitWorld(), "acme", LONDON, ["line"]) == [RowAt(1)];
    assert InsertOne([RowAt(0)], RowAt(1)) == [RowAt(0), RowAt(1)];
    assert InsertAll([RowAt(0)], [RowAt(1)]) == [RowAt(0), RowAt(1)];
    assert map[1 := NEW_JOB] - {1} == map[];
  }

  lemma WriteLondon(rows: seq<Entry>, jobs: map<nat, Job>)
    ensures Apply(SplitWorld(), State(UNSET, rows, jobs, map[0 := GRANTED]), Write(0)) == State(CHANGED, rows, jobs, map[])
  {
    assert map[0 := GRANTED] - {0} == map[];
    assert UNSET["acme" := Some(LONDON)] == CHANGED;
  }

  /** A first ingest starts, the zone is changed, the ingest commits; then the same line comes again. */
  function OvertakenSteps(): seq<Step> {
    [Register("acme", None), Begin(0, "acme"), Open(0, "acme", LONDON, false), Ask(0), Write(0),
     Commit(0, ["line"]), Begin(1, "acme"), Commit(1, ["line"])]
  }

  function OvertakenStates(): seq<State> {
    [State(map[], [], map[], map[]),
     State(UNSET, [], map[], map[]),
     State(UNSET, [], map[0 := OLD_JOB], map[]),
     State(UNSET, [], map[0 := OLD_JOB], map[0 := ASKED]),
     State(UNSET, [], map[0 := OLD_JOB], map[0 := GRANTED]),
     State(CHANGED, [], map[0 := OLD_JOB], map[]),
     State(CHANGED, [RowAt(0)], map[], map[]),
     State(CHANGED, [RowAt(0)], map[1 := NEW_JOB], map[]),
     State(CHANGED, [RowAt(0), RowAt(1)], map[], map[])]
  }

  lemma OvertakenStart()
    ensures forall i | 0 <= i < 4 :: Follows(OvertakenStates(), OvertakenSteps(), i)
  {
    assert Follows(OvertakenStates(), OvertakenSteps(), 0);
    assert Follows(OvertakenStates(), OvertakenSteps(), 1);
    assert Follows(OvertakenStates(), OvertakenSteps(), 2);
    assert Follows(OvertakenStates(), OvertakenSteps(), 3);
  }

  lemma OvertakenEnd()
    ensures forall i | 4 <= i < 8 :: Follows(OvertakenStates(), OvertakenSteps(), i)
  {
    WriteLondon([], map[0 := OLD_JOB]);
    FirstCommit(CHANGED, map[]);
    SecondCommit(CHANGED, map[]);
    assert Follows(OvertakenStates(), OvertakenSteps(), 4);
    assert Follows(OvertakenStates(), OvertakenSteps(), 5);
    assert Follows(OvertakenStates(), OvertakenSteps(), 6);
    assert Follows(OvertakenStates(), OvertakenSteps(), 7);
  }

  /** The guard alone is not enough: a zone changed while a first ingest is in flight is not refused, and the entries
      land under the old zone. Ingesting the same line again then stores it twice. */
  lemma ChangeDuringIngestSplitsTimeline()
    ensures CollisionFree(SplitWorld()) && IsRun(SplitWorld(), OvertakenStates(), OvertakenSteps())
    ensures forall step | step in OvertakenSteps() && step.Open? :: !step.allowMixed
    ensures var last := OvertakenStates()[8]; !OneZone(SplitWorld(), last) && !UniqueByTwo(last.rows)
  {
    OvertakenStart();
    OvertakenEnd();
    forall i | 0 <= i < |OvertakenSteps()|
      ensures Enabled(OvertakenStates()[i], OvertakenSteps()[i])
      ensures OvertakenStates()[i + 1] == Apply(SplitWorld(), OvertakenStates()[i], OvertakenSteps()[i])
    {
      assert Follows(OvertakenStates(), OvertakenSteps(), i);
    }
    var last := OvertakenStates()[8];
    assert RowAt(0) in last.rows && ZoneOf(SplitWorld(), last, "acme") == LONDON != "UTC";
    assert last.rows[0].hash == last.rows[1].hash;
  }

  /** The change asks, a first ingest comes and goes, the change is written: no job is in flight at either end. */
  function BetweenSteps(): seq<Step> {
    [Register("acme", None), Open(0, "acme", LONDON, false), Ask(0), Begin(0, "acme"), Commit(0, ["line"]), Write(0)]
  }

  function BetweenStates(): seq<State> {
    [State(map[], [], map[], map[]),
     State(UNSET, [], map[], map[]),
     State(UNSET, [], map[], map[0 := ASKED]),
     State(UNSET, [], map[], map[0 := GRANTED]),
     State(UNSET, [], map[0 := OLD_JOB], map[0 := GRANTED]),
     State(UNSET, [RowAt(0)], map[], map[0 := GRANTED]),
     State(CHANGED, [RowAt(0)], map[], map[])]
  }

  lemma BetweenStart()
    ensures forall i | 0 <= i < 4 :: Follows(BetweenStates(), BetweenSteps(), i)
  {
    assert Follows(BetweenStates(), BetweenSteps(), 0);
    assert Follows(BetweenStates(), BetweenSteps(), 1);
    assert Follows(BetweenStates(), BetweenSteps(), 2);
    assert Follows(BetweenStates(), BetweenSteps(), 3);
  }

  lemma BetweenEnd()
    ensures forall i | 4 <= i < 6 :: Follows(BetweenStates(), BetweenSteps(), i)
  {
    FirstCommit(UNSET, map[0 := GRANTED]);
    WriteLondon([RowAt(0)], map[]);
    assert Follows(BetweenStates(), BetweenSteps(), 4);
    assert Follows(BetweenStates(), BetweenSteps(), 5);
  }

  /** An ingest that fits between the question and the write splits the timeline with no job in flight at either. */
  lemma IngestBetweenAskAndWriteSplitsTimeline()
    ensures CollisionFree(SplitWorld()) && IsRun(SplitWorld(), BetweenStates(), BetweenSteps())
    ensures BetweenSteps()[2] == Ask(0) && !InFlight(BetweenStates()[2], "acme")
    ensures BetweenSteps()[5] == Write(0) && !InFlight(BetweenStates()[5], "acme")
    ensures !OneZone(SplitWorld(), BetweenStates()[6])
  {
    BetweenStart();
    BetweenEnd();
    forall i | 0 <= i < |BetweenSteps()|
      ensures Enabled(BetweenStates()[i], BetweenSteps()[i])
      ensures BetweenStates()[i + 1] == Apply(SplitWorld(), BetweenStates()[i], BetweenSteps()[i])
    {
      assert Follows(BetweenStates(), BetweenSteps(), i);
    }
    var last := BetweenStates()[6];
    assert RowAt(0) in last.rows && ZoneOf(SplitWorld(), last, "acme") == LONDON != "UTC";
  }
}
