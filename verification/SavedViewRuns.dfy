// What every run of calls on the saved views keeps: threads that only grow, tenants that cannot touch each
// other, and a completed view's thread that does not move.

module SavedViewRuns {

  import opened Results
  import opened SavedViews
  import opened Sorting

  // ---------------------------------------------------------------- growth

  /** The same comment, but for its resolved flag (with its own time stamp) and replies added at the end. */
  predicate SameComment(a: Comment, b: Comment) {
    && b == a.(updatedAt := b.updatedAt, resolved := b.resolved, replies := b.replies)
    && a.replies <= b.replies
  }

  predicate Grows(a: seq<Comment>, b: seq<Comment>) {
    |a| <= |b| && forall i | 0 <= i < |a| :: SameComment(a[i], b[i])
  }

  ghost predicate DistinctIds(comments: seq<Comment>) {
    forall i, j | 0 <= i < j < |comments| :: comments[i].id != comments[j].id
  }

  ghost predicate DistinctReplies(replies: seq<Reply>) {
    forall i, j | 0 <= i < j < |replies| :: replies[i].id != replies[j].id
  }

  /** Every id in the thread has been handed out, and none stands for two things. */
  ghost predicate ThreadInv(comments: seq<Comment>, used: set<string>) {
    && DistinctIds(comments)
    && (forall c | c in comments :: c.id in used && DistinctReplies(c.replies) && forall r | r in c.replies :: r.id in used)
  }

  /** `used` are the ids handed out so far. */
  ghost predicate Inv(views: Views, used: set<string>) {
    forall id | id in views :: id in used && ThreadInv(views[id].comments, used)
  }

  /** The ids a call asks the generator for. */
  function NewIds(call: Call): set<string> {
    match call
    case Create(_, id, _, _) => {id}
    case AddComment(_, _, _, cid, _) => {cid}
    case AddReply(_, _, _, _, rid, _) => {rid}
    case _ => {}
  }

  lemma ReplacingGrows(comments: seq<Comment>, cid: string, was: Comment, updated: Comment)
    requires DistinctIds(comments) && was in comments && was.id == cid && SameComment(was, updated)
    ensures Grows(comments, ReplaceComment(comments, cid, updated))
    ensures |ReplaceComment(comments, cid, updated)| == |comments|
    ensures DistinctIds(ReplaceComment(comments, cid, updated))
  {
    var now := ReplaceComment(comments, cid, updated);
    forall i | 0 <= i < |comments| ensures SameComment(comments[i], now[i]) {
      if comments[i].id == cid {
        var k :| 0 <= k < |comments| && comments[k] == was;
        assert i == k;
      }
    }
  }

  lemma ReplacedMembers(comments: seq<Comment>, cid: string, updated: Comment, c: Comment)
    requires c in ReplaceComment(comments, cid, updated)
    ensures c == updated || c in comments
  {
  }

  lemma ReplacingKeepsThread(comments: seq<Comment>, cid: string, was: Comment, updated: Comment,
                             used: set<string>, more: set<string>)
    requires ThreadInv(comments, used) && was in comments && was.id == cid && SameComment(was, updated)
    requires DistinctReplies(updated.replies) && forall r | r in updated.replies :: r.id in used + more
    ensures ThreadInv(ReplaceComment(comments, cid, updated), used + more)
  {
    ReplacingGrows(comments, cid, was, updated);
    forall c | c in ReplaceComment(comments, cid, updated)
      ensures c.id in used + more && DistinctReplies(c.replies) && forall r | r in c.replies :: r.id in used + more
    {
      ReplacedMembers(comments, cid, updated, c);
    }
  }

  /** `v` is the view `was` with its thread as it was, or added to. */
  ghost predicate Evolves(was: View, v: View) {
    was.tenant == v.tenant && was.createdAt == v.createdAt && Grows(was.comments, v.comments)
  }

  lemma CommentGrows(was: View, v: View, p: CommentBody, used: set<string>, cid: string, now: string)
    requires ThreadInv(was.comments, used) && cid !in used
    requires NewComment(p, cid, now).Ok?
    requires v == WithThread(was, was.comments + [NewComment(p, cid, now).value], now)
    ensures Evolves(was, v) && ThreadInv(v.comments, used + {cid})
  {
    forall c | c in v.comments
      ensures c.id in used + {cid} && DistinctReplies(c.replies) && forall r | r in c.replies :: r.id in used + {cid}
    {
      assert c in was.comments || c == NewComment(p, cid, now).value;
    }
    forall i | 0 <= i < |was.comments| ensures was.comments[i].id != cid {
      assert was.comments[i] in was.comments;
    }
  }

  lemma ReplyGrows(was: View, v: View, c: Comment, reply: Reply, used: set<string>, now: string)
    requires ThreadInv(was.comments, used) && reply.id !in used && c in was.comments
    requires v == WithThread(was, ReplaceComment(was.comments, c.id, c.(replies := c.replies + [reply])), now)
    ensures Evolves(was, v) && ThreadInv(v.comments, used + {reply.id})
  {
    var updated := c.(replies := c.replies + [reply]);
    ReplacingGrows(was.comments, c.id, c, updated);
    ReplacingKeepsThread(was.comments, c.id, c, updated, used, {reply.id});
  }

  lemma ResolveGrows(was: View, v: View, c: Comment, updated: Comment, used: set<string>, now: string)
    requires ThreadInv(was.comments, used) && c in was.comments
    requires updated == c.(resolved := updated.resolved, updatedAt := updated.updatedAt)
    requires v == WithThread(was, ReplaceComment(was.comments, c.id, updated), now)
    ensures Evolves(was, v) && ThreadInv(v.comments, used)
  {
    ReplacingGrows(was.comments, c.id, c, updated);
    ReplacingKeepsThread(was.comments, c.id, c, updated, used, {});
    assert used + {} == used;
  }

  lemma PatchKeepsThread(was: View, p: ViewBody, now: string)
    ensures Patched(was, p, now).Ok? ==>
      var v := Patched(was, p, now).value;
      v.comments == was.comments && v.tenant == was.tenant && v.createdAt == was.createdAt
  {
  }

  lemma MoreUsed(comments: seq<Comment>, used: set<string>, more: set<string>)
    requires ThreadInv(comments, used)
    ensures ThreadInv(comments, used + more)
  {
  }

  lemma PatchGrows(views: Views, used: set<string>, call: Call)
    requires Inv(views, used) && call.Patch? && Changed(views, call).Ok?
    ensures Grew(views, used, call)
  {
    PatchKeepsThread(views[call.id], call.view.value, call.now);
    assert used + {} == used;
  }

  lemma AddCommentGrows(views: Views, used: set<string>, call: Call)
    requires Inv(views, used) && NewIds(call) !! used && call.AddComment? && Changed(views, call).Ok?
    ensures Grew(views, used, call)
  {
    CommentGrows(views[call.id], Changed(views, call).value.value, call.comment.value, used, call.cid, call.now);
  }

  lemma AddReplyGrows(views: Views, used: set<string>, call: Call)
    requires Inv(views, used) && NewIds(call) !! used && call.AddReply? && Changed(views, call).Ok?
    ensures Grew(views, used, call)
  {
    var was := views[call.id];
    ReplyGrows(was, Changed(views, call).value.value, FindComment(was.comments, call.cid).value,
               NewReply(call.reply.value, call.rid, call.now).value, used, call.now);
  }

  lemma UpdateCommentGrows(views: Views, used: set<string>, call: Call)
    requires Inv(views, used) && call.UpdateComment? && Changed(views, call).Ok?
    ensures Grew(views, used, call)
  {
    var was := views[call.id];
    var c := FindComment(was.comments, call.cid).value;
    ResolveGrows(was, Changed(views, call).value.value, c, Resolved(c, call.resolved.value, call.now).value, used, call.now);
    assert used + {} == used;
  }

  /** The call's view is the tenant's own, has its thread as it was or added to, and its ids distinct. */
  ghost predicate Grew(views: Views, used: set<string>, call: Call) {
    && call.id in views && views[call.id].tenant == call.tenant
    && Changed(views, call).Ok? && Changed(views, call).value.Some?
    && var v := Changed(views, call).value.value;
       Evolves(views[call.id], v) && ThreadInv(v.comments, used + NewIds(call))
  }

  /** One accepted call leaves its view's thread as it was, or adds to it, and keeps its ids distinct. */
  lemma ChangeGrowsThread(views: Views, used: set<string>, call: Call)
    requires Inv(views, used) && NewIds(call) !! used
    requires Changed(views, call).Ok? && !call.Create? && !call.Delete?
    ensures Grew(views, used, call)
  {
    match call
    case Patch(_, _, _, _) => PatchGrows(views, used, call);
    case AddComment(_, _, _, _, _) => AddCommentGrows(views, used, call);
    case AddReply(_, _, _, _, _, _) => AddReplyGrows(views, used, call);
    case UpdateComment(_, _, _, _, _) => UpdateCommentGrows(views, used, call);
  }

  lemma DeleteIsOwn(views: Views, call: Call)
    requires Changed(views, call).Ok? && Changed(views, call).value.None?
    ensures call.id in views && views[call.id].tenant == call.tenant
  {
  }

  lemma CreatedIsEmpty(views: Views, call: Call)
    requires call.Create? && Changed(views, call).Ok?
    ensures Changed(views, call).value.Some?
    ensures var v := Changed(views, call).value.value; v.comments == [] && v.tenant == call.tenant
  {
  }

  lemma ChangedStaysOwn(views: Views, used: set<string>, call: Call)
    requires Inv(views, used) && NewIds(call) !! used
    requires Changed(views, call).Ok? && Changed(views, call).value.Some?
    ensures var v := Changed(views, call).value.value;
      && v.tenant == call.tenant && ThreadInv(v.comments, used + NewIds(call))
      && (call.id in views ==> Evolves(views[call.id], v))
      && (call.id !in views ==> call.id in NewIds(call))
  {
    if call.Create? {
      CreatedIsEmpty(views, call);
    } else {
      ChangeGrowsThread(views, used, call);
    }
  }

  lemma StepKeepsInv(views: Views, used: set<string>, call: Call)
    requires Inv(views, used) && NewIds(call) !! used
    ensures Inv(After(views, call), used + NewIds(call))
    ensures forall id | id in views && id in After(views, call) :: Evolves(views[id], After(views, call)[id])
    ensures forall id | id in After(views, call) && id !in views :: id in NewIds(call)
  {
    forall id | id in views ensures Evolves(views[id], views[id]) {
      GrowsReflexive(views[id].comments);
    }
    var changed := Changed(views, call);
    if changed.Ok? && changed.value.Some? {
      ChangedStaysOwn(views, used, call);
    }
    forall id | id in After(views, call)
      ensures id in used + NewIds(call) && ThreadInv(After(views, call)[id].comments, used + NewIds(call))
    {
      if id in views && After(views, call)[id] == views[id] {
        MoreUsed(views[id].comments, used, NewIds(call));
      }
    }
  }

  lemma GrowsReflexive(a: seq<Comment>)
    ensures Grows(a, a)
  {
  }

  lemma GrowsTransitive(a: seq<Comment>, b: seq<Comment>, c: seq<Comment>)
    requires Grows(a, b) && Grows(b, c)
    ensures Grows(a, c)
  {
    forall i | 0 <= i < |a| ensures SameComment(a[i], c[i]) {
      assert SameComment(a[i], b[i]) && SameComment(b[i], c[i]);
    }
  }

  // ---------------------------------------------------------------- runs

  function Run(views: Views, calls: seq<Call>): Views
    decreases |calls|
  {
    if calls == [] then views else Run(After(views, calls[0]), calls[1..])
  }

  function AllNewIds(calls: seq<Call>): set<string> {
    if calls == [] then {} else NewIds(calls[0]) + AllNewIds(calls[1..])
  }

  /** The generator never hands out an id twice. */
  predicate FreshIds(used: set<string>, calls: seq<Call>)
    decreases |calls|
  {
    calls == [] || (NewIds(calls[0]) !! used && FreshIds(used + NewIds(calls[0]), calls[1..]))
  }

  lemma {:induction false} GoneStaysGone(views: Views, used: set<string>, calls: seq<Call>, id: string)
    requires Inv(views, used) && FreshIds(used, calls) && id in used && id !in views
    ensures id !in Run(views, calls)
    decreases |calls|
  {
    if calls != [] {
      StepKeepsInv(views, used, calls[0]);
      GoneStaysGone(After(views, calls[0]), used + NewIds(calls[0]), calls[1..], id);
    }
  }

  /** Over every run: ids stay distinct, and a view that is still there has every comment it had, in the same
      place, with the same id, author, body, anchor, refs, quote and source, and every reply it had. */
  lemma {:induction false} ThreadsOnlyGrow(views: Views, used: set<string>, calls: seq<Call>)
    requires Inv(views, used) && FreshIds(used, calls)
    ensures Inv(Run(views, calls), used + AllNewIds(calls))
    ensures forall id | id in views && id in Run(views, calls) :: Evolves(views[id], Run(views, calls)[id])
    decreases |calls|
  {
    if calls == [] {
      assert used + {} == used;
      forall id | id in views ensures Evolves(views[id], views[id]) {
        GrowsReflexive(views[id].comments);
      }
    } else {
      var call, rest := calls[0], calls[1..];
      var next, used' := After(views, call), used + NewIds(call);
      StepKeepsInv(views, used, call);
      ThreadsOnlyGrow(next, used', rest);
      assert used' + AllNewIds(rest) == used + AllNewIds(calls);
      forall id | id in views && id in Run(views, calls) ensures Evolves(views[id], Run(views, calls)[id]) {
        if id !in next {
          GoneStaysGone(next, used', rest, id);
        } else {
          GrowsTransitive(views[id].comments, next[id].comments, Run(next, rest)[id].comments);
        }
      }
    }
  }

  // ---------------------------------------------------------------- the completed lock

  /** On a completed view of one's own, a thread operation with a readable body is a conflict and changes
      nothing; whatever the body, nothing changes. */
  lemma CompletedThreadIsFrozen(views: Views, call: Call)
    requires OnThread(call) && call.id in views && views[call.id].status == Completed
    ensures After(views, call) == views
    ensures Changed(views, call) == Err(Conflict) <==>
      && views[call.id].tenant == call.tenant
      && (match call
          case AddComment(_, _, body, _, _) => body.Some?
          case AddReply(_, _, body, _, _, _) => body.Some?
          case UpdateComment(_, _, body, _, _) => body.Some?
          case _ => false)
  {
  }

  /** The lock is not for good: a PATCH may move a completed view on. After a PATCH that leaves the view
      completed it has a closure, unless that PATCH itself said null. */
  lemma CompletedHasClosureUnlessNulled(was: View, p: ViewBody, now: string)
    requires Patched(was, p, now).Ok? && Patched(was, p, now).value.status == Completed
    ensures Patched(was, p, now).value.closure.None? <==> p.closure.Null?
  {
  }

  function Nothing(): ViewBody {
    ViewBody(Absent, Absent, Absent, Absent, Absent, Absent, Absent, Absent, None)
  }

  /** A view created as completed has no closure: only PATCH stamps one. */
  lemma CompletedOnCreationHasNoClosure(tenant: string, now: string)
    ensures var body := Nothing().(name := Given("v"), state := Some(Some("{}")), status := Given("completed"));
      var v := Created(tenant, Some(body), now);
      v.Ok? && v.value.status == Completed && v.value.closure.None?
  {
    assert !IsSpace("v"[0]);
    assert !Blank("v");
  }

  /** A PATCH can take a completed view back, and its thread is open again. */
  lemma CompletedCanBeReopened(v: View, now: string)
    requires v.status == Completed
    ensures var w := Patched(v, Nothing().(status := Given("open")), now);
      w.Ok? && Unlocked(w.value).Ok? && Unlocked(v).Err?
  {
    assert ReadStatus("open") == Ok(Open);
  }

  // ---------------------------------------------------------------- tenants

  function Own(views: Views, tenant: string): Views {
    map id | id in views && views[id].tenant == tenant :: views[id]
  }

  function By(tenant: string): Call -> bool {
    (c: Call) => c.tenant == tenant
  }

  lemma OwnOfUpdate(views: Views, id: string, v: View, tenant: string)
    requires id in views ==> views[id].tenant == v.tenant
    ensures Own(views[id := v], tenant) == if v.tenant == tenant then Own(views, tenant)[id := v] else Own(views, tenant)
  {
  }

  lemma OwnOfRemoval(views: Views, id: string, tenant: string)
    requires id in views
    ensures Own(views - {id}, tenant) == if views[id].tenant == tenant then Own(views, tenant) - {id} else Own(views, tenant)
  {
  }

  lemma OwnOfAfter(views: Views, used: set<string>, call: Call, tenant: string)
    requires Inv(views, used) && NewIds(call) !! used && Changed(views, call).Ok?
    ensures Own(After(views, call), tenant) == if call.tenant != tenant then Own(views, tenant)
      else match Changed(views, call).value
        case None => Own(views, tenant) - {call.id}
        case Some(v) => Own(views, tenant)[call.id := v]
  {
    if Changed(views, call).value.Some? {
      ChangedStaysOwn(views, used, call);
      OwnOfUpdate(views, call.id, Changed(views, call).value.value, tenant);
    } else {
      DeleteIsOwn(views, call);
      OwnOfRemoval(views, call.id, tenant);
    }
  }

  lemma OthersChangeNothing(views: Views, used: set<string>, call: Call, tenant: string)
    requires Inv(views, used) && NewIds(call) !! used && call.tenant != tenant
    ensures Own(After(views, call), tenant) == Own(views, tenant)
  {
    if Changed(views, call).Ok? {
      OwnOfAfter(views, used, call, tenant);
    }
  }

  /** The answer to a call depends on nothing but the tenant's own views. */
  lemma OwnSuffices(views: Views, call: Call)
    ensures Changed(Own(views, call.tenant), call) == Changed(views, call)
  {
    assert Scoped(Own(views, call.tenant), call.tenant, call.id) == Scoped(views, call.tenant, call.id);
  }

  lemma OwnCallsStayOwn(views: Views, used: set<string>, call: Call)
    requires Inv(views, used) && NewIds(call) !! used
    ensures Own(After(views, call), call.tenant) == After(Own(views, call.tenant), call)
  {
    OwnSuffices(views, call);
    if Changed(views, call).Ok? {
      OwnOfAfter(views, used, call, call.tenant);
    }
  }

  /** What a tenant has after any run is what its own calls alone would have left it. */
  lemma {:induction false} TenantsDoNotInterfere(views: Views, used: set<string>, calls: seq<Call>, tenant: string)
    requires Inv(views, used) && FreshIds(used, calls)
    ensures Own(Run(views, calls), tenant) == Run(Own(views, tenant), Filter(By(tenant), calls))
    decreases |calls|
  {
    if calls != [] {
      var call, rest := calls[0], calls[1..];
      StepKeepsInv(views, used, call);
      TenantsDoNotInterfere(After(views, call), used + NewIds(call), rest, tenant);
      if call.tenant == tenant {
        OwnCallsStayOwn(views, used, call);
        assert Filter(By(tenant), calls)[1..] == Filter(By(tenant), rest);
      } else {
        OthersChangeNothing(views, used, call, tenant);
      }
    }
  }
}
