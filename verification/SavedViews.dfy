// Saved views: a tenant's snapshots with their review threads. One call is one committed transaction;
// ids and the clock come from outside.

module SavedViews {

  import opened Results
  import opened Sorting

  // ---------------------------------------------------------------- the rows

  datatype Quote = Quote(text: string, lineId: string)

  datatype Reply = Reply(id: string, author: string, body: string, createdAt: string)

  datatype Comment = Comment(
    id: string,
    author: string,
    body: string,
    createdAt: string,
    updatedAt: string,
    anchor: Option<string>,
    refs: seq<string>,
    quote: Option<Quote>,
    resolved: bool,
    replies: seq<Reply>,
    source: string)

  datatype Status = Open | InProgress | Due | Completed

  datatype Closure =
    | Supplied(json: string)                                  // kept as it came
    | Stamped(closedBy: Option<string>, closedAt: string)     // put there on completion

  datatype View = View(
    tenant: string,
    name: string,
    title: Option<string>,
    notes: Option<string>,
    savedBy: Option<string>,
    assignee: Option<string>,
    status: Status,
    dueDate: Option<string>,
    comments: seq<Comment>,
    closure: Option<Closure>,
    createdAt: string,
    updatedAt: string,
    state: string)

  type Views = map<string, View>

  // ---------------------------------------------------------------- reading a body

  /** A key of a JSON object: missing, null, of another type, or as expected. */
  datatype Field<+T> = Absent | Null | WrongType | Given(value: T)

  datatype HttpError = BadRequest | NotFound | Conflict     // 400, 404, 409

  datatype CommentBody = CommentBody(
    author: Field<string>,
    body: Field<string>,
    anchor: Field<string>,
    refs: Field<seq<string>>,
    quote: Field<Quote>,
    source: Field<string>)

  datatype ReplyBody = ReplyBody(author: Field<string>, body: Field<string>)

  datatype ViewBody = ViewBody(
    name: Field<string>,
    title: Field<string>,
    notes: Field<string>,
    savedBy: Field<string>,
    assignee: Field<string>,
    status: Field<string>,
    dueDate: Field<string>,
    closure: Field<string>,
    state: Option<Option<string>>)     // any JSON will do; the inner None is null

  /** `str.isspace`. */
  predicate IsSpace(c: char) {
    || '\t' <= c <= '\r' || '\U{1C}' <= c <= ' ' || c == '\U{85}' || c == '\U{A0}' || c == '\U{1680}'
    || '\U{2000}' <= c <= '\U{200A}' || c in {'\U{2028}', '\U{2029}', '\U{202F}', '\U{205F}', '\U{3000}'}
  }

  /** `s.strip() == ""`. */
  predicate Blank(s: string) {
    forall i | 0 <= i < |s| :: IsSpace(s[i])
  }

  function RequiredText(f: Field<string>): Result<string, HttpError> {
    if f.Given? && !Blank(f.value) then Ok(f.value) else Err(BadRequest)
  }

  function OptionalText(f: Field<string>): Result<Option<string>, HttpError> {
    match f
    case WrongType => Err(BadRequest)
    case Given(text) => Ok(Some(text))
    case _ => Ok(None)
  }

  function Or<T>(f: Field<T>, default_: T): Result<T, HttpError> {
    match f
    case WrongType => Err(BadRequest)
    case Given(value) => Ok(value)
    case _ => Ok(default_)
  }

  function Author(f: Field<string>): Result<string, HttpError> {
    var author :- Or(f, "");
    Ok(if Blank(author) then "anonymous" else author)
  }

  function Anchor(f: Field<string>): Result<Option<string>, HttpError> {
    var anchor :- Or(f, "");
    Ok(if anchor == "" then None else Some(anchor))
  }

  function QuoteOf(f: Field<Quote>): Result<Option<Quote>, HttpError> {
    match f
    case WrongType => Err(BadRequest)
    case Given(quote) => Ok(Some(quote))
    case _ => Ok(None)
  }

  function Source(f: Field<string>): Result<string, HttpError> {
    var source :- Or(f, "user");
    if source == "user" || source == "matrix" then Ok(source) else Err(BadRequest)
  }

  function ReadStatus(text: string): Result<Status, HttpError> {
    if text == "open" then Ok(Open)
    else if text == "in_progress" then Ok(InProgress)
    else if text == "due" then Ok(Due)
    else if text == "completed" then Ok(Completed)
    else Err(BadRequest)
  }

  function StatusOf(f: Field<string>): Result<Status, HttpError> {
    if f.Given? then ReadStatus(f.value) else Err(BadRequest)
  }

  // ---------------------------------------------------------------- the thread

  function NewComment(p: CommentBody, cid: string, now: string): Result<Comment, HttpError> {
    var author :- Author(p.author);
    var body :- Or(p.body, "");
    var anchor :- Anchor(p.anchor);
    var refs :- Or(p.refs, []);
    var quote :- QuoteOf(p.quote);
    var source :- Source(p.source);
    if Blank(body) && anchor.None? && refs == [] && quote.None? then Err(BadRequest)
    else Ok(Comment(cid, author, body, now, now, anchor, refs, quote, false, [], source))
  }

  /** The characters `str.isspace` knows, by code point. */
  lemma SpacesAre(c: char)
    ensures IsSpace(c) <==>
      || c as int in {9, 10, 11, 12, 13, 28, 29, 30, 31, 32, 133, 160, 5760}
      || c as int in {8192, 8193, 8194, 8195, 8196, 8197, 8198, 8199, 8200, 8201, 8202}
      || c as int in {8232, 8233, 8239, 8287, 12288}
  {
  }

  /** Some character of it is no space. */
  predicate SaysSomething(s: string) {
    exists i | 0 <= i < |s| :: !IsSpace(s[i])
  }

  /** No key has the wrong type, the source is a known one, and there is a text, an anchor, a reference or a quote. */
  predicate Acceptable(p: CommentBody) {
    && !p.author.WrongType? && !p.body.WrongType? && !p.anchor.WrongType?
    && !p.refs.WrongType? && !p.quote.WrongType? && !p.source.WrongType?
    && (p.source.Given? ==> p.source.value == "user" || p.source.value == "matrix")
    && (|| (p.body.Given? && SaysSomething(p.body.value)) || (p.anchor.Given? && p.anchor.value != "")
        || (p.refs.Given? && p.refs.value != []) || p.quote.Given?)
  }

  /** The author as given if that says anything. */
  predicate Signs(author: string, f: Field<string>) {
    author == if f.Given? && SaysSomething(f.value) then f.value else "anonymous"
  }

  /** The comment is what was sent, key by key, with the stated defaults, new and unresolved. */
  predicate IsAsSent(c: Comment, p: CommentBody, cid: string, now: string) {
    && c.id == cid && c.createdAt == now && c.updatedAt == now && !c.resolved && c.replies == []
    && Signs(c.author, p.author)
    && c.body == (if p.body.Given? then p.body.value else "")
    && c.anchor == (if p.anchor.Given? && p.anchor.value != "" then Some(p.anchor.value) else None)
    && c.refs == (if p.refs.Given? then p.refs.value else [])
    && c.quote == (if p.quote.Given? then Some(p.quote.value) else None)
    && c.source == (if p.source.Given? then p.source.value else "user")
  }

  lemma BlankIff(s: string)
    ensures Blank(s) <==> !SaysSomething(s)
  {
  }

  lemma AuthorSigns(f: Field<string>)
    ensures Author(f).Ok? <==> !f.WrongType?
    ensures Author(f).Ok? ==> Signs(Author(f).value, f)
  {
    BlankIff(if f.Given? then f.value else "");
  }

  /** What makes a comment acceptable, and what an accepted one holds. */
  lemma CommentIsAcceptedIff(p: CommentBody, cid: string, now: string)
    ensures NewComment(p, cid, now).Ok? <==> Acceptable(p)
    ensures NewComment(p, cid, now).Ok? ==> IsAsSent(NewComment(p, cid, now).value, p, cid, now)
    ensures NewComment(p, cid, now).Err? ==> NewComment(p, cid, now) == Err(BadRequest)
  {
    AuthorSigns(p.author);
    BlankIff(if p.body.Given? then p.body.value else "");
  }

  function NewReply(p: ReplyBody, rid: string, now: string): Result<Reply, HttpError> {
    var author :- Author(p.author);
    var body :- RequiredText(p.body);
    Ok(Reply(rid, author, body, now))
  }

  predicate AcceptableReply(p: ReplyBody) {
    !p.author.WrongType? && p.body.Given? && SaysSomething(p.body.value)
  }

  predicate IsReplyAsSent(reply: Reply, p: ReplyBody, rid: string, now: string) {
    reply.id == rid && p.body == Given(reply.body) && reply.createdAt == now && Signs(reply.author, p.author)
  }

  /** A reply needs a text that says something, and is that text. */
  lemma ReplyIsAcceptedIff(p: ReplyBody, rid: string, now: string)
    ensures NewReply(p, rid, now).Ok? <==> AcceptableReply(p)
    ensures NewReply(p, rid, now).Ok? ==> IsReplyAsSent(NewReply(p, rid, now).value, p, rid, now)
    ensures NewReply(p, rid, now).Err? ==> NewReply(p, rid, now) == Err(BadRequest)
  {
    AuthorSigns(p.author);
    if p.body.Given? {
      BlankIff(p.body.value);
    }
  }

  function Resolved(c: Comment, resolved: Field<bool>, now: string): Result<Comment, HttpError> {
    match resolved
    case Absent => Ok(c)
    case Given(value) => Ok(c.(resolved := value, updatedAt := now))
    case _ => Err(BadRequest)
  }

  /** The first comment with the id. */
  function FindComment(comments: seq<Comment>, cid: string): (r: Result<Comment, HttpError>)
    ensures r.Ok? ==> r.value in comments && r.value.id == cid
    ensures r.Err? ==> r == Err(NotFound) && forall c | c in comments :: c.id != cid
  {
    if comments == [] then Err(NotFound)
    else if comments[0].id == cid then Ok(comments[0])
    else FindComment(comments[1..], cid)
  }

  function ReplaceComment(comments: seq<Comment>, cid: string, updated: Comment): seq<Comment> {
    Map((c: Comment) => if c.id == cid then updated else c, comments)
  }

  /** Comment `k` is the first one of `before` with the id; `after` has `updated` there, and every comment with another
      id where and as it was. */
  predicate OnlyRewrites(before: seq<Comment>, after: seq<Comment>, k: int, cid: string, updated: Comment) {
    && 0 <= k < |before| == |after| && before[k].id == cid && after[k] == updated
    && (forall i | 0 <= i < k :: before[i].id != cid)
    && (forall i | 0 <= i < |before| && before[i].id != cid :: after[i] == before[i])
  }

  lemma {:induction false} FindsTheFirst(comments: seq<Comment>, cid: string) returns (k: nat)
    requires FindComment(comments, cid).Ok?
    ensures k < |comments| && comments[k] == FindComment(comments, cid).value && comments[k].id == cid
    ensures forall i | 0 <= i < k :: comments[i].id != cid
  {
    if comments[0].id == cid {
      k := 0;
    } else {
      k := FindsTheFirst(comments[1..], cid);
      k := k + 1;
    }
  }

  lemma ReplaceRewrites(comments: seq<Comment>, cid: string, updated: Comment) returns (k: nat)
    requires FindComment(comments, cid).Ok?
    ensures k < |comments| && comments[k] == FindComment(comments, cid).value
    ensures OnlyRewrites(comments, ReplaceComment(comments, cid, updated), k, cid, updated)
  {
    k := FindsTheFirst(comments, cid);
  }

  /** The view is there and is the tenant's own. */
  predicate Owns(views: Views, tenant: string, id: string) {
    id in views && views[id].tenant == tenant
  }

  predicate HasComment(v: View, cid: string) {
    exists c | c in v.comments :: c.id == cid
  }

  /** A view the tenant may write. */
  function Scoped(views: Views, tenant: string, id: string): Result<View, HttpError> {
    if id in views && views[id].tenant == tenant then Ok(views[id]) else Err(NotFound)
  }

  function Unlocked(v: View): Result<View, HttpError> {
    if v.status == Completed then Err(Conflict) else Ok(v)
  }

  function Parsed<T>(body: Option<T>): Result<T, HttpError> {
    if body.Some? then Ok(body.value) else Err(BadRequest)
  }

  // ---------------------------------------------------------------- the calls

  datatype Call =
    | Create(tenant: string, id: string, view: Option<ViewBody>, now: string)
    | Patch(tenant: string, id: string, view: Option<ViewBody>, now: string)
    | Delete(tenant: string, id: string)
    | AddComment(tenant: string, id: string, comment: Option<CommentBody>, cid: string, now: string)
    | AddReply(tenant: string, id: string, reply: Option<ReplyBody>, cid: string, rid: string, now: string)
    | UpdateComment(tenant: string, id: string, resolved: Option<Field<bool>>, cid: string, now: string)

  predicate OnThread(call: Call) {
    call.AddComment? || call.AddReply? || call.UpdateComment?
  }

  function WithThread(v: View, comments: seq<Comment>, now: string): View {
    v.(comments := comments, updatedAt := now)
  }

  function Created(tenant: string, body: Option<ViewBody>, now: string): Result<View, HttpError> {
    var p :- Parsed(body);
    var name :- RequiredText(p.name);
    var state :- Parsed(if p.state.Some? then p.state.value else None);
    var status :- if p.status.Absent? || p.status.Null? then Ok(Open) else StatusOf(p.status);
    var title :- OptionalText(p.title);
    var notes :- OptionalText(p.notes);
    var savedBy :- OptionalText(p.savedBy);
    var assignee :- OptionalText(p.assignee);
    var dueDate :- OptionalText(p.dueDate);
    Ok(View(tenant, name, title, notes, savedBy, assignee, status, dueDate, [], None, now, now, state))
  }

  /** A present key is written, null included; an absent one is left alone. */
  function Rewritten(f: Field<string>, current: Option<string>): Result<Option<string>, HttpError> {
    if f.Absent? then Ok(current) else OptionalText(f)
  }

  function RewrittenClosure(f: Field<string>, current: Option<Closure>): Result<Option<Closure>, HttpError> {
    match f
    case Absent => Ok(current)
    case Null => Ok(None)
    case WrongType => Err(BadRequest)
    case Given(json) => Ok(Some(Supplied(json)))
  }

  /** Completing a view without saying how closes it in the assignee's name. */
  function WithClosure(v: View, f: Field<string>, now: string): View {
    if v.status == Completed && f.Absent? && v.closure.None?
    then v.(closure := Some(Stamped(v.assignee, now))) else v
  }

  function Patched(v: View, p: ViewBody, now: string): Result<View, HttpError> {
    var name :- if p.name.Absent? then Ok(v.name) else RequiredText(p.name);
    var title :- Rewritten(p.title, v.title);
    var notes :- Rewritten(p.notes, v.notes);
    var savedBy :- Rewritten(p.savedBy, v.savedBy);
    var assignee :- Rewritten(p.assignee, v.assignee);
    var dueDate :- Rewritten(p.dueDate, v.dueDate);
    var status :- if p.status.Absent? then Ok(v.status) else StatusOf(p.status);
    var closure :- RewrittenClosure(p.closure, v.closure);
    var state :- Parsed(if p.state.Some? then p.state.value else Some(v.state));
    Ok(WithClosure(v.(name := name, title := title, notes := notes, savedBy := savedBy, assignee := assignee,
                      dueDate := dueDate, status := status, closure := closure, state := state, updatedAt := now),
                   p.closure, now))
  }

  predicate SpellsStatus(text: string, status: Status) {
    match status
    case Open => text == "open"
    case InProgress => text == "in_progress"
    case Due => text == "due"
    case Completed => text == "completed"
  }

  predicate AcceptableStatus(f: Field<string>) {
    f.Given? && f.value in {"open", "in_progress", "due", "completed"}
  }

  /** The five texts that may be null are texts or null if they are there at all. */
  predicate AcceptableTexts(p: ViewBody) {
    && !p.title.WrongType? && !p.notes.WrongType? && !p.savedBy.WrongType?
    && !p.assignee.WrongType? && !p.dueDate.WrongType?
  }

  /** What may be asked of a view there is: nothing required, but no null for the name, the status or the state. */
  predicate AcceptablePatch(p: ViewBody) {
    && (p.name.Absent? || (p.name.Given? && SaysSomething(p.name.value)))
    && (p.status.Absent? || AcceptableStatus(p.status))
    && (p.state.Some? ==> p.state.value.Some?)
    && AcceptableTexts(p) && !p.closure.WrongType?
  }

  /** A new view needs a name and a state. */
  predicate AcceptableView(p: ViewBody) {
    && p.name.Given? && SaysSomething(p.name.value)
    && p.state.Some? && p.state.value.Some?
    && (p.status.Absent? || p.status.Null? || AcceptableStatus(p.status))
    && AcceptableTexts(p)
  }

  /** An absent key leaves the column, null empties it, a text replaces it. */
  predicate Writes(f: Field<string>, current: Option<string>, next: Option<string>) {
    && (f.Absent? ==> next == current)
    && (f.Null? ==> next == None)
    && (f.Given? ==> next == Some(f.value))
  }

  predicate TextsArePatched(next: View, v: View, p: ViewBody) {
    && next.name == (if p.name.Given? then p.name.value else v.name)
    && Writes(p.title, v.title, next.title) && Writes(p.notes, v.notes, next.notes)
    && Writes(p.savedBy, v.savedBy, next.savedBy) && Writes(p.assignee, v.assignee, next.assignee)
    && Writes(p.dueDate, v.dueDate, next.dueDate)
  }

  /** `next` is `v` with what was sent, key by key; a view completed without a word on its closure is closed by its
      assignee, now. */
  predicate IsPatchOf(next: View, v: View, p: ViewBody, now: string) {
    && next.tenant == v.tenant && next.createdAt == v.createdAt && next.comments == v.comments && next.updatedAt == now
    && TextsArePatched(next, v, p)
    && (if p.status.Given? then SpellsStatus(p.status.value, next.status) else next.status == v.status)
    && (p.state.Some? ==> p.state.value == Some(next.state)) && (p.state.None? ==> next.state == v.state)
    && (p.closure.Given? ==> next.closure == Some(Supplied(p.closure.value))) && (p.closure.Null? ==> next.closure == None)
    && (p.closure.Absent? ==>
          next.closure == if next.status == Completed && v.closure == None
                          then Some(Stamped(next.assignee, now)) else v.closure)
  }

  /** A new view: what was sent, open unless said otherwise, with an empty thread and no closure. */
  predicate IsNewView(v: View, tenant: string, p: ViewBody, now: string) {
    && v.tenant == tenant && v.createdAt == now && v.updatedAt == now && v.comments == [] && v.closure == None
    && p.name == Given(v.name) && p.state == Some(Some(v.state))
    && Writes(p.title, None, v.title) && Writes(p.notes, None, v.notes) && Writes(p.savedBy, None, v.savedBy)
    && Writes(p.assignee, None, v.assignee) && Writes(p.dueDate, None, v.dueDate)
    && (if p.status.Given? then SpellsStatus(p.status.value, v.status) else v.status == Open)
  }

  lemma StatusIsSpelled(f: Field<string>)
    ensures StatusOf(f).Ok? <==> AcceptableStatus(f)
    ensures StatusOf(f).Ok? ==> SpellsStatus(f.value, StatusOf(f).value)
  {
  }

  lemma PatchIsAcceptedIff(v: View, p: ViewBody, now: string)
    ensures Patched(v, p, now).Ok? <==> AcceptablePatch(p)
    ensures Patched(v, p, now).Err? ==> Patched(v, p, now) == Err(BadRequest)
  {
    BlankIff(if p.name.Given? then p.name.value else "");
    StatusIsSpelled(p.status);
  }

  lemma PatchWritesTexts(v: View, p: ViewBody, now: string)
    requires Patched(v, p, now).Ok?
    ensures TextsArePatched(Patched(v, p, now).value, v, p)
  {
  }

  lemma PatchWritesWhatWasSent(v: View, p: ViewBody, now: string)
    requires Patched(v, p, now).Ok?
    ensures IsPatchOf(Patched(v, p, now).value, v, p, now)
  {
    StatusIsSpelled(p.status);
    PatchWritesTexts(v, p, now);
  }

  /** So is a new view. */
  lemma CreatedIff(tenant: string, p: ViewBody, now: string)
    ensures Created(tenant, Some(p), now).Ok? <==> AcceptableView(p)
    ensures Created(tenant, Some(p), now).Ok? ==> IsNewView(Created(tenant, Some(p), now).value, tenant, p, now)
    ensures Created(tenant, Some(p), now).Err? ==> Created(tenant, Some(p), now) == Err(BadRequest)
  {
    BlankIff(if p.name.Given? then p.name.value else "");
    StatusIsSpelled(p.status);
  }

  /** The call's view as the call leaves it, None if it is deleted; or why the call is refused. */
  function Changed(views: Views, call: Call): Result<Option<View>, HttpError> {
    match call
    case Create(tenant, id, body, now) =>
      var v :- Created(tenant, body, now);
      Ok(Some(v))
    case Patch(tenant, id, body, now) =>
      var p :- Parsed(body);
      var v :- Scoped(views, tenant, id);
      var patched :- Patched(v, p, now);
      Ok(Some(patched))
    case Delete(tenant, id) =>
      var v :- Scoped(views, tenant, id);
      Ok(None)
    case AddComment(tenant, id, body, cid, now) =>
      var p :- Parsed(body);
      var scoped :- Scoped(views, tenant, id);
      var v :- Unlocked(scoped);
      var c :- NewComment(p, cid, now);
      Ok(Some(WithThread(v, v.comments + [c], now)))
    case AddReply(tenant, id, body, cid, rid, now) =>
      var p :- Parsed(body);
      var scoped :- Scoped(views, tenant, id);
      var v :- Unlocked(scoped);
      var c :- FindComment(v.comments, cid);
      var reply :- NewReply(p, rid, now);
      Ok(Some(WithThread(v, ReplaceComment(v.comments, cid, c.(replies := c.replies + [reply])), now)))
    case UpdateComment(tenant, id, body, cid, now) =>
      var resolved :- Parsed(body);
      var scoped :- Scoped(views, tenant, id);
      var v :- Unlocked(scoped);
      var c :- FindComment(v.comments, cid);
      var updated :- Resolved(c, resolved, now);
      Ok(Some(WithThread(v, ReplaceComment(v.comments, cid, updated), now)))
  }

  /** A PATCH is answered 404 for a view that is not the tenant's own, is accepted exactly when it is acceptable, and
      then writes exactly what was sent. */
  lemma PatchedIff(views: Views, tenant: string, id: string, body: Option<ViewBody>, now: string)
    ensures var r := Changed(views, Patch(tenant, id, body, now));
      && (r == Err(NotFound) <==> body.Some? && !Owns(views, tenant, id))
      && (r.Ok? <==> body.Some? && Owns(views, tenant, id) && AcceptablePatch(body.value))
      && (r.Ok? ==> r.value.Some? && IsPatchOf(r.value.value, views[id], body.value, now))
  {
    if body.Some? && Owns(views, tenant, id) {
      PatchIsAcceptedIff(views[id], body.value, now);
      if Patched(views[id], body.value, now).Ok? {
        PatchWritesWhatWasSent(views[id], body.value, now);
      }
    }
  }

  function After(views: Views, call: Call): Views {
    match Changed(views, call)
    case Err(_) => views
    case Ok(None) => views - {call.id}
    case Ok(Some(v)) => views[call.id := v]
  }

  // ---------------------------------------------------------------- the routes

  class Store {
    var views: Views

    method GetTenantScoped(id: string, tenant: string) returns (r: Result<View, HttpError>)
      ensures r == Scoped(views, tenant, id)
      ensures r == if Owns(views, tenant, id) then Ok(views[id]) else Err(NotFound)
    {
      if id !in views || views[id].tenant != tenant {
        return Err(NotFound);
      }
      return Ok(views[id]);
    }

    method CreateSavedView(tenant: string, body: Option<ViewBody>, id: string, now: string)
      returns (r: Result<View, HttpError>)
      modifies this
      ensures views == After(old(views), Create(tenant, id, body, now))
      ensures match Changed(old(views), Create(tenant, id, body, now))
        case Err(e) => r == Err(e)
        case Ok(v) => r == Ok(v.value) && r.value.comments == [] && r.value.closure.None?
      ensures r.Ok? <==> body.Some? && AcceptableView(body.value)
      ensures r.Ok? ==> IsNewView(r.value, tenant, body.value, now) && views == old(views)[id := r.value]
      ensures r.Err? ==> r == Err(BadRequest) && views == old(views)
    {
      if body.Some? {
        CreatedIff(tenant, body.value, now);
      }
      var v :- Created(tenant, body, now);
      views := views[id := v];
      return Ok(v);
    }

    method UpdateSavedView(tenant: string, id: string, body: Option<ViewBody>, now: string)
      returns (r: Result<View, HttpError>)
      modifies this
      ensures views == After(old(views), Patch(tenant, id, body, now))
      ensures match Changed(old(views), Patch(tenant, id, body, now))
        case Err(e) => r == Err(e)
        case Ok(v) => r == Ok(v.value) && r.value.comments == old(views)[id].comments
    {
      var p :- Parsed(body);
      var found := GetTenantScoped(id, tenant);
      var v :- found;
      ghost var was := v;
      if !p.name.Absent? {
        var name :- RequiredText(p.name);
        v := v.(name := name);
      }
      var title :- Rewritten(p.title, v.title);
      v := v.(title := title);
      var notes :- Rewritten(p.notes, v.notes);
      v := v.(notes := notes);
      var savedBy :- Rewritten(p.savedBy, v.savedBy);
      v := v.(savedBy := savedBy);
      var assignee :- Rewritten(p.assignee, v.assignee);
      v := v.(assignee := assignee);
      var dueDate :- Rewritten(p.dueDate, v.dueDate);
      v := v.(dueDate := dueDate);
      if !p.status.Absent? {
        var status :- StatusOf(p.status);
        v := v.(status := status);
      }
      var closure :- RewrittenClosure(p.closure, v.closure);
      v := v.(closure := closure);
      if p.state.Some? {
        var state :- Parsed(p.state.value);
        v := v.(state := state);
      }
      if v.status == Completed && p.closure.Absent? && v.closure.None? {
        v := v.(closure := Some(Stamped(v.assignee, now)));
      }
      v := v.(updatedAt := now);
      assert Patched(was, p, now) == Ok(v);
      views := views[id := v];
      return Ok(v);
    }

    method DeleteSavedView(tenant: string, id: string) returns (r: Result<(), HttpError>)
      modifies this
      ensures views == After(old(views), Delete(tenant, id))
      ensures r == if Changed(old(views), Delete(tenant, id)).Ok? then Ok(()) else Err(NotFound)
      ensures r.Ok? <==> Owns(old(views), tenant, id)
      ensures views == if Owns(old(views), tenant, id) then old(views) - {id} else old(views)
    {
      var found := GetTenantScoped(id, tenant);
      var _ :- found;
      views := views - {id};
      return Ok(());
    }

    method AddComment(tenant: string, id: string, body: Option<CommentBody>, cid: string, now: string)
      returns (r: Result<Comment, HttpError>)
      modifies this
      ensures views == After(old(views), Call.AddComment(tenant, id, body, cid, now))
      ensures match Changed(old(views), Call.AddComment(tenant, id, body, cid, now))
        case Err(e) => r == Err(e)
        case Ok(v) => r.Ok? && v.value.comments == old(views)[id].comments + [r.value] && r.value.id == cid
      ensures r == Err(NotFound) <==> body.Some? && !Owns(old(views), tenant, id)
      ensures r == Err(Conflict) <==> body.Some? && Owns(old(views), tenant, id) && old(views)[id].status == Completed
      ensures r.Ok? <==> body.Some? && Owns(old(views), tenant, id) && old(views)[id].status != Completed
                         && Acceptable(body.value)
      ensures r.Ok? ==>
        && IsAsSent(r.value, body.value, cid, now)
        && views == old(views)[id :=
             old(views)[id].(comments := old(views)[id].comments + [r.value], updatedAt := now)]
      ensures r.Err? ==> views == old(views)
    {
      var p :- Parsed(body);
      var found := GetTenantScoped(id, tenant);
      var v :- found;
      if v.status == Completed {
        return Err(Conflict);
      }
      CommentIsAcceptedIff(p, cid, now);
      var comment :- NewComment(p, cid, now);
      v := v.(comments := v.comments + [comment]);
      v := v.(updatedAt := now);
      views := views[id := v];
      return Ok(comment);
    }

    method AddReply(tenant: string, id: string, body: Option<ReplyBody>, cid: string, rid: string, now: string)
      returns (r: Result<Reply, HttpError>)
      modifies this
      ensures views == After(old(views), Call.AddReply(tenant, id, body, cid, rid, now))
      ensures match Changed(old(views), Call.AddReply(tenant, id, body, cid, rid, now))
        case Err(e) => r == Err(e)
        case Ok(_) => r.Ok? && r.value.id == rid
      ensures r == Err(NotFound) <==>
        && body.Some?
        && (!Owns(old(views), tenant, id) || (old(views)[id].status != Completed && !HasComment(old(views)[id], cid)))
      ensures r == Err(Conflict) <==> body.Some? && Owns(old(views), tenant, id) && old(views)[id].status == Completed
      ensures r.Ok? <==> body.Some? && Owns(old(views), tenant, id) && old(views)[id].status != Completed
                         && HasComment(old(views)[id], cid) && AcceptableReply(body.value)
      ensures r.Ok? ==>
        && IsReplyAsSent(r.value, body.value, rid, now)
        && id in views && views == old(views)[id := old(views)[id].(comments := views[id].comments, updatedAt := now)]
        && exists k | 0 <= k < |old(views)[id].comments| ::
             var c := old(views)[id].comments[k];
             OnlyRewrites(old(views)[id].comments, views[id].comments, k, cid, c.(replies := c.replies + [r.value]))
      ensures r.Err? ==> views == old(views)
    {
      var p :- Parsed(body);
      var found := GetTenantScoped(id, tenant);
      var v :- found;
      if v.status == Completed {
        return Err(Conflict);
      }
      var comment :- FindComment(v.comments, cid);
      ReplyIsAcceptedIff(p, rid, now);
      var reply :- NewReply(p, rid, now);
      var updated := comment.(replies := comment.replies + [reply]);
      ghost var k := ReplaceRewrites(v.comments, cid, updated);
      v := v.(comments := ReplaceComment(v.comments, cid, updated));
      v := v.(updatedAt := now);
      views := views[id := v];
      return Ok(reply);
    }

    method UpdateComment(tenant: string, id: string, body: Option<Field<bool>>, cid: string, now: string)
      returns (r: Result<Comment, HttpError>)
      modifies this
      ensures views == After(old(views), Call.UpdateComment(tenant, id, body, cid, now))
      ensures match Changed(old(views), Call.UpdateComment(tenant, id, body, cid, now))
        case Err(e) => r == Err(e)
        case Ok(_) => r.Ok? && r.value.id == cid && (body.value.Given? ==> r.value.resolved == body.value.value)
      ensures r == Err(NotFound) <==>
        && body.Some?
        && (!Owns(old(views), tenant, id) || (old(views)[id].status != Completed && !HasComment(old(views)[id], cid)))
      ensures r == Err(Conflict) <==> body.Some? && Owns(old(views), tenant, id) && old(views)[id].status == Completed
      ensures r.Ok? <==> body.Some? && Owns(old(views), tenant, id) && old(views)[id].status != Completed
                         && HasComment(old(views)[id], cid) && (body.value.Absent? || body.value.Given?)
      ensures r.Ok? ==>
        && id in views && views == old(views)[id := old(views)[id].(comments := views[id].comments, updatedAt := now)]
        && exists k | 0 <= k < |old(views)[id].comments| ::
             var c := old(views)[id].comments[k];
             && r.value == (if body.value.Given? then c.(resolved := body.value.value, updatedAt := now) else c)
             && OnlyRewrites(old(views)[id].comments, views[id].comments, k, cid, r.value)
      ensures r.Err? ==> views == old(views)
    {
      var resolved :- Parsed(body);
      var found := GetTenantScoped(id, tenant);
      var v :- found;
      if v.status == Completed {
        return Err(Conflict);
      }
      var comment :- FindComment(v.comments, cid);
      var updated := comment;
      if !resolved.Absent? {
        if !resolved.Given? {
          return Err(BadRequest);
        }
        updated := updated.(resolved := resolved.value, updatedAt := now);
      }
      ghost var k := ReplaceRewrites(v.comments, cid, updated);
      v := v.(comments := ReplaceComment(v.comments, cid, updated));
      v := v.(updatedAt := now);
      views := views[id := v];
      return Ok(updated);
    }
  }
}
