// Thread requests on one view that overlap. Each loads the row, works out the whole new comment list from
// what it loaded, and commits that list: no lock is held and no version is compared in between.

module SavedViewRaces {

  import opened Results
  import opened SavedViewRuns
  import opened SavedViews

  // ---------------------------------------------------------------- one request

  /** What a thread request decides on the row it loaded. */
  function Decided(seen: View, call: Call): Result<Option<View>, HttpError> {
    Changed(map[call.id := seen], call)
  }

  /** The row after an accepted request's commit: the two columns it set, whatever the row has become meanwhile. */
  function Committed(row: View, seen: View, call: Call): View
    requires OnThread(call) && Decided(seen, call).Ok?
  {
    var v := Decided(seen, call).value.value;
    row.(comments := v.comments, updatedAt := v.updatedAt)
  }

  /** The row after the request, refused or committed. */
  function Landed(row: View, seen: View, call: Call): View
    requires OnThread(call)
  {
    if Decided(seen, call).Ok? then Committed(row, seen, call) else row
  }

  predicate Readable(call: Call) {
    match call
    case AddComment(_, _, body, _, _) => body.Some?
    case AddReply(_, _, body, _, _, _) => body.Some?
    case UpdateComment(_, _, body, _, _) => body.Some?
    case _ => false
  }

  predicate GoodBody(call: Call) {
    match call
    case AddComment(_, _, body, cid, now) => body.Some? && NewComment(body.value, cid, now).Ok?
    case AddReply(_, _, body, _, rid, now) => body.Some? && NewReply(body.value, rid, now).Ok?
    case UpdateComment(_, _, body, _, _) => body.Some? && (body.value.Absent? || body.value.Given?)
    case _ => false
  }

  predicate HasTarget(comments: seq<Comment>, call: Call)
    requires OnThread(call)
  {
    call.AddComment? || exists i | 0 <= i < |comments| :: comments[i].id == call.cid
  }

  /** Everything a thread request checks, on whichever version of the row it looks at. */
  predicate Accepts(v: View, call: Call)
    requires OnThread(call)
  {
    v.tenant == call.tenant && v.status != Completed && GoodBody(call) && HasTarget(v.comments, call)
  }

  lemma DecidedOkIff(v: View, call: Call)
    requires OnThread(call)
    ensures Decided(v, call).Ok? <==> Accepts(v, call)
    ensures Decided(v, call).Ok? ==> Decided(v, call).value.Some?
  {
    if !call.AddComment? {
      var found := FindComment(v.comments, call.cid);
      if HasTarget(v.comments, call) {
        var i :| 0 <= i < |v.comments| && v.comments[i].id == call.cid;
        assert v.comments[i] in v.comments;
      }
    }
  }

  // ---------------------------------------------------------------- as if alone

  /** What a reply or a resolve makes of one comment. */
  function EditOf(c: Comment, call: Call): Comment
    requires OnThread(call) && !call.AddComment? && GoodBody(call)
  {
    if c.id != call.cid then c
    else match call
      case AddReply(_, _, body, _, rid, now) => c.(replies := c.replies + [NewReply(body.value, rid, now).value])
      case UpdateComment(_, _, body, _, now) =>
        if body.value.Given? then c.(resolved := body.value.value, updatedAt := now) else c
  }

  lemma DecidedIsPointwise(v: View, call: Call)
    requires OnThread(call) && !call.AddComment? && DistinctIds(v.comments) && Decided(v, call).Ok?
    ensures GoodBody(call) && Decided(v, call).value.Some?
    ensures var now := Decided(v, call).value.value.comments;
      |now| == |v.comments| && forall i | 0 <= i < |now| :: now[i] == EditOf(v.comments[i], call)
  {
    DecidedOkIff(v, call);
    var c := FindComment(v.comments, call.cid).value;
    OnlyThatComment(v.comments, c, EditOf(c, call));
    forall i | 0 <= i < |v.comments| ensures v.comments[i].id == call.cid ==> v.comments[i] == c {
      var k :| 0 <= k < |v.comments| && v.comments[k] == c;
    }
  }

  /** A resolve replaces the flag and its time stamp, so it does not matter what they were. */
  predicate Overwritten(call: Call, a: Comment, b: Comment) {
    && call.UpdateComment? && call.resolved.Some? && call.resolved.value.Given?
    && a.id == call.cid && b == a.(resolved := b.resolved, updatedAt := b.updatedAt)
  }

  /** The loaded comment list is still the row's, but for what the call itself overwrites. */
  predicate StillThere(call: Call, seen: seq<Comment>, row: seq<Comment>) {
    |seen| == |row| && forall i | 0 <= i < |seen| :: seen[i] == row[i] || Overwritten(call, seen[i], row[i])
  }

  lemma SameEditIff(a: Comment, b: Comment, call: Call)
    requires OnThread(call) && !call.AddComment? && GoodBody(call)
    ensures EditOf(a, call) == EditOf(b, call) <==> a == b || Overwritten(call, a, b)
  {
    if a.id == call.cid == b.id && call.AddReply? {
      var r := NewReply(call.reply.value, call.rid, call.now).value;
      SameFront(a.replies, b.replies, r);
      assert EditOf(a, call) == EditOf(b, call) ==> a == b by {
        if EditOf(a, call) == EditOf(b, call) {
          assert EditOf(a, call).replies == EditOf(b, call).replies;
        }
      }
    }
  }

  lemma SameFront<T>(a: seq<T>, b: seq<T>, x: T)
    ensures a + [x] == b + [x] <==> a == b
  {
    assert (a + [x])[..|a + [x]| - 1] == a && (b + [x])[..|b + [x]| - 1] == b;
  }

  lemma TargetStays(call: Call, seen: seq<Comment>, row: seq<Comment>)
    requires OnThread(call) && StillThere(call, seen, row)
    ensures HasTarget(seen, call) <==> HasTarget(row, call)
  {
    assert forall i | 0 <= i < |seen| :: seen[i].id == row[i].id;
  }

  lemma SameEditsIff(row: View, seen: View, call: Call)
    requires OnThread(call) && DistinctIds(seen.comments) && DistinctIds(row.comments)
    requires Decided(seen, call).Ok? && Decided(row, call).Ok?
    ensures Decided(row, call).value.Some? && Decided(seen, call).value.Some?
    ensures Decided(row, call).value.value.comments == Decided(seen, call).value.value.comments
       <==> StillThere(call, seen.comments, row.comments)
  {
    DecidedOkIff(seen, call);
    DecidedOkIff(row, call);
    if call.AddComment? {
      SameFront(seen.comments, row.comments, NewComment(call.comment.value, call.cid, call.now).value);
    } else {
      DecidedIsPointwise(seen, call);
      DecidedIsPointwise(row, call);
      forall i | 0 <= i < |seen.comments| && i < |row.comments|
        ensures EditOf(row.comments[i], call) == EditOf(seen.comments[i], call)
           <==> seen.comments[i] == row.comments[i] || Overwritten(call, seen.comments[i], row.comments[i])
      {
        SameEditIff(seen.comments[i], row.comments[i], call);
      }
    }
  }

  lemma CommitIsAlone(row: View, seen: View, call: Call)
    requires OnThread(call) && Decided(seen, call).Ok? && Decided(row, call).Ok?
    requires Decided(seen, call).value.Some? && Decided(row, call).value.Some?
    ensures Decided(row, call).value.value == Committed(row, seen, call)
       <==> Decided(row, call).value.value.comments == Decided(seen, call).value.value.comments
  {
  }

  /** The request ends as if it had run alone on the row it meets: refused there too, or leaving the same row. */
  predicate AsIfAlone(row: View, seen: View, call: Call)
    requires OnThread(call)
  {
    if Decided(seen, call).Ok? then Decided(row, call) == Ok(Some(Committed(row, seen, call)))
    else Decided(row, call).Err?
  }

  /** And that is so exactly when, for an accepted request, the view has not been completed since the load and the
      loaded comments are still the row's, and, for a refused one, the row gives a reason to refuse it too. */
  lemma AsIfAloneIff(row: View, seen: View, call: Call)
    requires OnThread(call) && row.tenant == seen.tenant
    requires DistinctIds(seen.comments) && DistinctIds(row.comments)
    ensures AsIfAlone(row, seen, call)
       <==> if Accepts(seen, call) then row.status != Completed && StillThere(call, seen.comments, row.comments)
            else !Accepts(row, call)
  {
    DecidedOkIff(seen, call);
    DecidedOkIff(row, call);
    if Decided(seen, call).Ok? && Decided(row, call).Ok? {
      SameEditsIff(row, seen, call);
      CommitIsAlone(row, seen, call);
    }
    if Decided(seen, call).Ok? && StillThere(call, seen.comments, row.comments) {
      TargetStays(call, seen.comments, row.comments);
    }
  }

  // ---------------------------------------------------------------- what a commit keeps

  /** `now` is `seen` with new ids only: at most one comment at the end, or one reply somewhere. */
  ghost predicate OneAddition(seen: seq<Comment>, now: seq<Comment>, more: set<string>) {
    && Grows(seen, now) && |now| <= |seen| + 1
    && (|now| == |seen| + 1 ==> now[|seen|].id in more)
    && forall i | 0 <= i < |seen| ::
         && |now[i].replies| <= |seen[i].replies| + 1
         && (|now[i].replies| == |seen[i].replies| + 1 ==> now[i].replies[|seen[i].replies|].id in more)
  }

  lemma OnlyThatComment(comments: seq<Comment>, was: Comment, updated: Comment)
    requires DistinctIds(comments) && was in comments
    ensures forall i | 0 <= i < |comments| ::
      ReplaceComment(comments, was.id, updated)[i] == if comments[i] == was then updated else comments[i]
  {
    var k :| 0 <= k < |comments| && comments[k] == was;
    forall i | 0 <= i < |comments|
      ensures ReplaceComment(comments, was.id, updated)[i] == if comments[i] == was then updated else comments[i]
    {
      assert comments[i].id == was.id ==> i == k;
    }
  }

  lemma AppendIsOneAddition(comments: seq<Comment>, c: Comment)
    ensures OneAddition(comments, comments + [c], {c.id})
  {
  }

  lemma ReplacementIsOneAddition(comments: seq<Comment>, c: Comment, updated: Comment, more: set<string>)
    requires DistinctIds(comments) && c in comments && SameComment(c, updated)
    requires |updated.replies| <= |c.replies| + 1
    requires |updated.replies| == |c.replies| + 1 ==> updated.replies[|c.replies|].id in more
    ensures OneAddition(comments, ReplaceComment(comments, c.id, updated), more)
  {
    ReplacingGrows(comments, c.id, c, updated);
    OnlyThatComment(comments, c, updated);
  }

  lemma ReplyIsOneAddition(seen: View, used: set<string>, call: Call)
    requires call.AddReply? && ThreadInv(seen.comments, used) && Decided(seen, call).Ok?
    ensures OneAddition(seen.comments, Decided(seen, call).value.value.comments, NewIds(call))
  {
    var c := FindComment(seen.comments, call.cid).value;
    var reply := NewReply(call.reply.value, call.rid, call.now).value;
    ReplacementIsOneAddition(seen.comments, c, c.(replies := c.replies + [reply]), {call.rid});
  }

  lemma ResolveIsOneAddition(seen: View, used: set<string>, call: Call)
    requires call.UpdateComment? && ThreadInv(seen.comments, used) && Decided(seen, call).Ok?
    ensures OneAddition(seen.comments, Decided(seen, call).value.value.comments, NewIds(call))
  {
    var c := FindComment(seen.comments, call.cid).value;
    ReplacementIsOneAddition(seen.comments, c, Resolved(c, call.resolved.value, call.now).value, {});
  }

  lemma DecisionIsOneAddition(seen: View, used: set<string>, call: Call)
    requires OnThread(call) && ThreadInv(seen.comments, used) && Decided(seen, call).Ok?
    ensures OneAddition(seen.comments, Decided(seen, call).value.value.comments, NewIds(call))
  {
    if call.AddComment? {
      AppendIsOneAddition(seen.comments, NewComment(call.comment.value, call.cid, call.now).value);
    } else if call.AddReply? {
      ReplyIsOneAddition(seen, used, call);
    } else {
      ResolveIsOneAddition(seen, used, call);
    }
  }

  lemma IdsAreUsed(row: seq<Comment>, used: set<string>)
    requires ThreadInv(row, used)
    ensures forall i | 0 <= i < |row| :: row[i].id in used
    ensures forall i, j | 0 <= i < |row| && 0 <= j < |row[i].replies| :: row[i].replies[j].id in used
  {
    forall i | 0 <= i < |row| ensures row[i].id in used {
      assert row[i] in row;
    }
    forall i, j | 0 <= i < |row| && 0 <= j < |row[i].replies| ensures row[i].replies[j].id in used {
      assert row[i] in row && row[i].replies[j] in row[i].replies;
    }
  }

  lemma FreshReplyIsLast(row: seq<Reply>, seen: seq<Reply>, now: seq<Reply>, used: set<string>, more: set<string>)
    requires more !! used && seen <= now && |now| <= |seen| + 1
    requires |now| == |seen| + 1 ==> now[|seen|].id in more
    requires forall j | 0 <= j < |row| :: row[j].id in used
    ensures row <= now <==> row <= seen
  {
    if row <= now {
      assert forall j | 0 <= j < |row| :: row[j] == now[j];
    }
  }

  lemma FreshCommentIsLast(row: seq<Comment>, seen: seq<Comment>, now: seq<Comment>, used: set<string>, more: set<string>)
    requires more !! used && OneAddition(seen, now, more) && Grows(row, now)
    requires forall i | 0 <= i < |row| :: row[i].id in used
    ensures |row| <= |seen|
  {
    assert forall i | 0 <= i < |row| :: SameComment(row[i], now[i]) && row[i].id == now[i].id;
  }

  lemma GrowsThroughAddition(row: seq<Comment>, seen: seq<Comment>, now: seq<Comment>, used: set<string>, more: set<string>)
    requires ThreadInv(row, used) && more !! used && OneAddition(seen, now, more)
    ensures Grows(row, now) <==> Grows(row, seen)
  {
    IdsAreUsed(row, used);
    if Grows(row, now) {
      FreshCommentIsLast(row, seen, now, used, more);
      forall i | 0 <= i < |row| ensures SameComment(row[i], seen[i]) {
        assert SameComment(seen[i], now[i]) && SameComment(row[i], now[i]);
        FreshReplyIsLast(row[i].replies, seen[i].replies, now[i].replies, used, more);
      }
    }
    if Grows(row, seen) {
      GrowsTransitive(row, seen, now);
    }
  }

  /** A commit keeps every comment and reply the thread has by then exactly when the request had loaded them all. */
  lemma CommitKeepsThreadIff(row: View, seen: View, used: set<string>, call: Call)
    requires OnThread(call) && NewIds(call) !! used && Decided(seen, call).Ok?
    requires ThreadInv(row.comments, used) && ThreadInv(seen.comments, used)
    ensures Grows(row.comments, Committed(row, seen, call).comments) <==> Grows(row.comments, seen.comments)
  {
    DecisionIsOneAddition(seen, used, call);
    GrowsThroughAddition(row.comments, seen.comments, Committed(row, seen, call).comments, used, NewIds(call));
  }

  // ---------------------------------------------------------------- the completed lock

  /** Refused for the lock exactly when the view was completed as loaded, and is the tenant's own. */
  lemma LockIsReadAtLoad(seen: View, call: Call)
    requires OnThread(call)
    ensures Decided(seen, call) == Err(Conflict)
       <==> seen.status == Completed && seen.tenant == call.tenant && Readable(call)
  {
  }

  /** A resolve that finds its own outcome there already, at the very clock reading of the row's last write. */
  predicate WritesItself(row: View, seen: View, call: Call) {
    && call.UpdateComment? && GoodBody(call) && call.now == row.updatedAt
    && |seen.comments| == |row.comments|
    && forall i | 0 <= i < |row.comments| :: row.comments[i] == EditOf(seen.comments[i], call)
  }

  lemma AdditionIsSeen(row: View, seen: View, used: set<string>, call: Call)
    requires OnThread(call) && !call.UpdateComment? && NewIds(call) !! used && Decided(seen, call).Ok?
    requires ThreadInv(row.comments, used) && ThreadInv(seen.comments, used)
    ensures Committed(row, seen, call).comments != row.comments
  {
    DecidedOkIff(seen, call);
    IdsAreUsed(row.comments, used);
    var now := Committed(row, seen, call).comments;
    if call.AddComment? {
      assert now[|seen.comments|].id == call.cid;
    } else {
      DecidedIsPointwise(seen, call);
      var i :| 0 <= i < |seen.comments| && seen.comments[i].id == call.cid;
      assert now[i] == EditOf(seen.comments[i], call);
      assert now[i].replies[|seen.comments[i].replies|].id == call.rid;
    }
  }

  /** A row, completed by now, is untouched by an overlapping thread request exactly when the request was refused on
      what it had loaded (or writes what is there, to the same microsecond): completing a view does not stop it. */
  lemma CompletedRowIsUntouchedIff(row: View, seen: View, used: set<string>, call: Call)
    requires OnThread(call) && NewIds(call) !! used && row.status == Completed
    requires ThreadInv(row.comments, used) && ThreadInv(seen.comments, used)
    ensures Landed(row, seen, call) == row <==> !Accepts(seen, call) || WritesItself(row, seen, call)
  {
    DecidedOkIff(seen, call);
    if Decided(seen, call).Ok? {
      if call.UpdateComment? {
        DecidedIsPointwise(seen, call);
        LandsOnItself(row, seen, call);
      } else {
        AdditionIsSeen(row, seen, used, call);
      }
    }
  }

  lemma LandsOnItself(row: View, seen: View, call: Call)
    requires OnThread(call) && call.UpdateComment? && GoodBody(call)
    requires Decided(seen, call).Ok? && Decided(seen, call).value.Some?
    requires var now := Decided(seen, call).value.value.comments;
      |now| == |seen.comments| && forall i | 0 <= i < |now| :: now[i] == EditOf(seen.comments[i], call)
    ensures Committed(row, seen, call) == row <==> WritesItself(row, seen, call)
  {
    var now := Decided(seen, call).value.value.comments;
    assert Committed(row, seen, call) == row <==> now == row.comments && call.now == row.updatedAt;
  }

  // ---------------------------------------------------------------- at an input

  function Remark(text: string): CommentBody {
    CommentBody(Absent, Given(text), Absent, Absent, Absent, Absent)
  }

  function Remarks(seen: View, text: string, cid: string, now: string): Call {
    AddComment(seen.tenant, "v", Some(Remark(text)), cid, now)
  }

  lemma RemarkIsAccepted(seen: View, text: string, cid: string, now: string)
    requires seen.status != Completed && !Blank(text)
    ensures Decided(seen, Remarks(seen, text, cid, now))
         == Ok(Some(WithThread(seen, seen.comments + [NewComment(Remark(text), cid, now).value], now)))
    ensures NewComment(Remark(text), cid, now).Ok?
  {
    assert NewComment(Remark(text), cid, now).Ok?;
  }

  lemma Letters()
    ensures !Blank("a") && !Blank("b")
  {
    assert !IsSpace("a"[0]) && !IsSpace("b"[0]);
  }

  /** Two people comment at once: the second commit drops the first comment. */
  lemma FirstOfTwoCommentsIsLost(seen: View)
    requires seen.status != Completed && seen.comments == []
    ensures var between := Landed(seen, seen, Remarks(seen, "a", "c1", "t1"));
      var end := Landed(between, seen, Remarks(seen, "b", "c2", "t2"));
      |between.comments| == 1 && |end.comments| == 1 && between.comments[0] !in end.comments
  {
    Letters();
    RemarkIsAccepted(seen, "a", "c1", "t1");
    RemarkIsAccepted(seen, "b", "c2", "t2");
    assert "c1"[1] != "c2"[1];
  }

  /** One resolves a comment while another comments: the second commit reopens it. */
  lemma ResolveIsReverted(seen: View, c: Comment)
    requires seen.status != Completed && seen.comments == [c] && !c.resolved && c.id == "c1"
    ensures var between := Landed(seen, seen, UpdateComment(seen.tenant, "v", Some(Given(true)), "c1", "t1"));
      var end := Landed(between, seen, Remarks(seen, "b", "c2", "t2"));
      between.comments[0].resolved && |end.comments| == 2 && !end.comments[0].resolved
  {
    Letters();
    var resolve := UpdateComment(seen.tenant, "v", Some(Given(true)), "c1", "t1");
    assert seen.comments[0].id == resolve.cid;
    DecidedOkIff(seen, resolve);
    DecidedIsPointwise(seen, resolve);
    RemarkIsAccepted(seen, "b", "c2", "t2");
  }

  /** A view completed between a request's load and its commit takes the comment all the same. */
  lemma CompletedViewTakesAComment(seen: View)
    requires seen.status != Completed && seen.comments == []
    ensures var end := Landed(seen.(status := Completed), seen, Remarks(seen, "a", "c1", "t1"));
      end.status == Completed && |end.comments| == 1
  {
    Letters();
    RemarkIsAccepted(seen, "a", "c1", "t1");
  }

  // ---------------------------------------------------------------- runs of loads and commits

  datatype InFlight = InFlight(seen: View, call: Call)

  /** One view, the thread requests that have loaded it, and the ids handed out. */
  datatype State = State(row: View, loaded: map<nat, InFlight>, used: set<string>)

  datatype Step =
    | Load(request: nat, call: Call)
    | Finish(request: nat)
    | Alter(call: Call)

  predicate Enabled(id: string, s: State, step: Step) {
    match step
    case Load(request, call) => request !in s.loaded && OnThread(call) && call.id == id
    case Finish(request) =>
      request in s.loaded && OnThread(s.loaded[request].call) && NewIds(s.loaded[request].call) !! s.used
    case Alter(call) => call.Patch? && call.id == id
  }

  function Altered(row: View, call: Call): View
    requires call.Patch?
  {
    if Decided(row, call).Ok? && Decided(row, call).value.Some? then Decided(row, call).value.value else row
  }

  function Apply(id: string, s: State, step: Step): State
    requires Enabled(id, s, step)
  {
    match step
    case Load(request, call) => s.(loaded := s.loaded[request := InFlight(s.row, call)])
    case Finish(request) =>
      var r := s.loaded[request];
      State(Landed(s.row, r.seen, r.call), s.loaded - {request}, s.used + NewIds(r.call))
    case Alter(call) => s.(row := Altered(s.row, call))
  }

  ghost predicate Inv(id: string, s: State) {
    && id in s.used && ThreadInv(s.row.comments, s.used)
    && forall r | r in s.loaded ::
         && OnThread(s.loaded[r].call) && s.loaded[r].call.id == id
         && ThreadInv(s.loaded[r].seen.comments, s.used) && s.loaded[r].seen.tenant == s.row.tenant
  }

  lemma DecisionKeepsThreadInv(seen: View, used: set<string>, call: Call)
    requires OnThread(call) && call.id in used && NewIds(call) !! used
    requires ThreadInv(seen.comments, used) && Decided(seen, call).Ok?
    ensures Decided(seen, call).value.Some?
    ensures ThreadInv(Decided(seen, call).value.value.comments, used + NewIds(call))
  {
    ChangeGrowsThread(map[call.id := seen], used, call);
  }

  lemma AlterKeepsThread(row: View, call: Call)
    requires call.Patch?
    ensures Altered(row, call).comments == row.comments && Altered(row, call).tenant == row.tenant
  {
    if call.view.Some? {
      PatchKeepsThread(row, call.view.value, call.now);
    }
  }

  lemma StepKeepsInv(id: string, s: State, step: Step)
    requires Inv(id, s) && Enabled(id, s, step)
    ensures Inv(id, Apply(id, s, step))
  {
    match step
    case Load(_, _) =>
    case Alter(call) => AlterKeepsThread(s.row, call);
    case Finish(request) =>
      var f := s.loaded[request];
      if Decided(f.seen, f.call).Ok? {
        DecisionKeepsThreadInv(f.seen, s.used, f.call);
      } else {
        MoreUsed(s.row.comments, s.used, NewIds(f.call));
      }
      forall r | r in s.loaded ensures ThreadInv(s.loaded[r].seen.comments, s.used + NewIds(f.call)) {
        MoreUsed(s.loaded[r].seen.comments, s.used, NewIds(f.call));
      }
  }

  ghost predicate IsRun(id: string, states: seq<State>, steps: seq<Step>) {
    && |states| == |steps| + 1 && Inv(id, states[0])
    && forall i | 0 <= i < |steps| :: Enabled(id, states[i], steps[i]) && states[i + 1] == Apply(id, states[i], steps[i])
  }

  lemma {:induction false} RunsKeepInv(id: string, states: seq<State>, steps: seq<Step>, i: nat)
    requires IsRun(id, states, steps) && i < |states|
    ensures Inv(id, states[i])
    decreases i
  {
    if i > 0 {
      RunsKeepInv(id, states, steps, i - 1);
      assert Enabled(id, states[i - 1], steps[i - 1]);
      StepKeepsInv(id, states[i - 1], steps[i - 1]);
    }
  }

  /** What the `k`th step must find for the thread to lose nothing: a commit has loaded all that is there. */
  predicate LoadedAll(id: string, s: State, step: Step)
    requires Enabled(id, s, step)
  {
    step.Finish? && Accepts(s.loaded[step.request].seen, s.loaded[step.request].call) ==>
      Grows(s.row.comments, s.loaded[step.request].seen.comments)
  }

  lemma StepKeepsThreadIff(id: string, s: State, step: Step)
    requires Inv(id, s) && Enabled(id, s, step)
    ensures Grows(s.row.comments, Apply(id, s, step).row.comments) <==> LoadedAll(id, s, step)
  {
    GrowsReflexive(s.row.comments);
    match step
    case Load(_, _) =>
    case Alter(call) => AlterKeepsThread(s.row, call);
    case Finish(request) =>
      var f := s.loaded[request];
      DecidedOkIff(f.seen, f.call);
      if Decided(f.seen, f.call).Ok? {
        CommitKeepsThreadIff(s.row, f.seen, s.used, f.call);
      }
  }

  ghost predicate OnlyGrowsUpTo(states: seq<State>, n: nat)
    requires n < |states|
  {
    forall i, j | 0 <= i <= j <= n :: Grows(states[i].row.comments, states[j].row.comments)
  }

  ghost predicate AllLoadedAll(id: string, states: seq<State>, steps: seq<Step>, n: nat)
    requires IsRun(id, states, steps) && n <= |steps|
  {
    forall k | 0 <= k < n :: Enabled(id, states[k], steps[k]) && LoadedAll(id, states[k], steps[k])
  }

  /** Over every run of overlapping requests, exactly: the thread only grows if and only if every commit had loaded
      all the comments and replies that it met. */
  lemma {:induction false} ThreadOnlyGrowsIff(id: string, states: seq<State>, steps: seq<Step>, n: nat)
    requires IsRun(id, states, steps) && n <= |steps|
    ensures OnlyGrowsUpTo(states, n) <==> AllLoadedAll(id, states, steps, n)
    decreases n
  {
    GrowsReflexive(states[n].row.comments);
    if n > 0 {
      ThreadOnlyGrowsIff(id, states, steps, n - 1);
      RunsKeepInv(id, states, steps, n - 1);
      assert Enabled(id, states[n - 1], steps[n - 1]) && states[n] == Apply(id, states[n - 1], steps[n - 1]);
      StepKeepsThreadIff(id, states[n - 1], steps[n - 1]);
      assert AllLoadedAll(id, states, steps, n)
        <==> AllLoadedAll(id, states, steps, n - 1) && LoadedAll(id, states[n - 1], steps[n - 1]);
      if OnlyGrowsUpTo(states, n) {
        assert Grows(states[n - 1].row.comments, states[n].row.comments);
      }
      if OnlyGrowsUpTo(states, n - 1) && Grows(states[n - 1].row.comments, states[n].row.comments) {
        forall i | 0 <= i < n ensures Grows(states[i].row.comments, states[n].row.comments) {
          GrowsTransitive(states[i].row.comments, states[n - 1].row.comments, states[n].row.comments);
        }
      }
    } else {
      assert OnlyGrowsUpTo(states, 0);
    }
  }

  // ---------------------------------------------------------------- runs that might as well not overlap

  /** Every request of the run ends as if it had run alone on the row it meets; AsIfAloneIff says when. */
  ghost predicate AllAlone(id: string, states: seq<State>, steps: seq<Step>, n: nat)
    requires IsRun(id, states, steps) && n <= |steps|
  {
    forall k | 0 <= k < n :: Enabled(id, states[k], steps[k]) && Alone(states[k], steps[k])
  }

  predicate Alone(s: State, step: Step) {
    step.Finish? && step.request in s.loaded && OnThread(s.loaded[step.request].call) ==>
      AsIfAlone(s.row, s.loaded[step.request].seen, s.loaded[step.request].call)
  }

  /** The calls in the order of their commits. */
  function Committing(states: seq<State>, steps: seq<Step>, n: nat): seq<Call>
    requires n <= |steps| < |states|
  {
    if n == 0 then []
    else Committing(states, steps, n - 1) + match steps[n - 1]
      case Load(_, _) => []
      case Finish(r) => if r in states[n - 1].loaded then [states[n - 1].loaded[r].call] else []
      case Alter(call) => [call]
  }

  lemma AloneIsAfter(id: string, s: State, step: Step)
    requires Inv(id, s) && Enabled(id, s, step) && Alone(s, step)
    ensures match step
      case Load(_, _) => Apply(id, s, step).row == s.row
      case Finish(r) => map[id := Apply(id, s, step).row] == After(map[id := s.row], s.loaded[r].call)
      case Alter(call) => map[id := Apply(id, s, step).row] == After(map[id := s.row], call)
  {
  }

  lemma {:induction false} RunThenOne(views: Views, calls: seq<Call>, call: Call)
    ensures Run(views, calls + [call]) == After(Run(views, calls), call)
    decreases |calls|
  {
    if calls == [] {
      assert Run(views, [call]) == Run(After(views, call), []);
    } else {
      assert (calls + [call])[1..] == calls[1..] + [call];
      RunThenOne(After(views, calls[0]), calls[1..], call);
    }
  }

  /** Such a run leaves the view as the same calls do one after the other, in the order of their commits; so all that
      holds of calls that do not overlap holds of it. */
  lemma {:induction false} AloneRunsAreSerial(id: string, states: seq<State>, steps: seq<Step>, n: nat)
    requires IsRun(id, states, steps) && n <= |steps| && AllAlone(id, states, steps, n)
    ensures map[id := states[n].row] == Run(map[id := states[0].row], Committing(states, steps, n))
    decreases n
  {
    if n > 0 {
      var s, step := states[n - 1], steps[n - 1];
      assert AllAlone(id, states, steps, n - 1);
      AloneRunsAreSerial(id, states, steps, n - 1);
      RunsKeepInv(id, states, steps, n - 1);
      assert Enabled(id, s, step) && states[n] == Apply(id, s, step) && Alone(s, step);
      AloneIsAfter(id, s, step);
      var before := Committing(states, steps, n - 1);
      match step
      case Load(_, _) => assert before + [] == before;
      case Finish(r) => RunThenOne(map[id := states[0].row], before, s.loaded[r].call);
      case Alter(call) => RunThenOne(map[id := states[0].row], before, call);
    }
  }
}
