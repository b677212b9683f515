/** That the session gets there: what makes it offer, answer, tell its waiters and start again, and the run that completes. */
module ViewerNegotiation {
  import opened Basics
  import opened ViewerModel
  import opened ViewerProofs
  import opened ViewerOwnership

  // ================================================================ sockets and sessions

  // A socket of the current session has a peer connection beside it.
  ghost predicate Linked(token: nat, pc: Option<nat>, sockets: seq<Socket>, tasks: map<nat, Task>) {
    && (forall k :: 0 <= k < |sockets| ==> sockets[k].token <= token && (sockets[k].token == token ==> pc.Some?))
    && (forall i <- tasks :: tasks[i].token <= token)
  }

  ghost predicate LinkedState(s: State) {
    Linked(s.o.token, s.o.pc, s.b.sockets, s.b.tasks)
  }

  lemma StopLinked(s: State)
    requires LinkedState(s) && Handles(s)
    ensures LinkedState(Stop(s)) && forall k :: 0 <= k < |Stop(s).b.sockets| ==> Stop(s).b.sockets[k].token < Stop(s).o.token
  {
  }

  lemma StartLinked(s: State, isRetry: bool, online: bool)
    requires LinkedState(s) && Handles(s)
    ensures LinkedState(Start(s, isRetry, online))
  {
    StopLinked(s);
    var s1 := Begin(s, isRetry);
    assert LinkedState(s1);
  }

  lemma FetchLinked(s: State, start: nat, token: nat, outcome: FetchOutcome)
    requires LinkedState(s) && token <= s.o.token
    ensures LinkedState(AfterFetch(s, start, token, outcome))
  {
  }

  lemma MessageLinked(s: State, token: nat, kind: MessageKind)
    requires LinkedState(s) && Handles(s)
    ensures LinkedState(OnMessage(s, token, kind))
  {
  }

  lemma ContinueLinked(s: State, t: Task, how: Settlement)
    requires LinkedState(s) && !t.Fetch? && t.peer < |s.b.peers| && t.token <= s.o.token
    ensures LinkedState(Continue(s, t, how))
  {
  }

  lemma StepLinked(s: State, e: Event)
    requires LinkedState(s) && Enabled(s, e)
    ensures LinkedState(Step(s, e))
  {
    match e
    case UserStart(online) => StartLinked(s, false, online);
    case UserStop => StopLinked(s);
    case RetryTimer(token, online) => StartLinked(s.(b := s.b.(timers := s.b.timers - multiset{token})), true, online);
    case FetchDone(i, outcome) => FetchLinked(DropTask(s, i), s.b.tasks[i].start, s.b.tasks[i].token, outcome);
    case SocketMessage(k, kind) => MessageLinked(s, s.b.sockets[k].token, kind);
    case Settle(i, how) => ContinueLinked(DropTask(s, i), s.b.tasks[i], how);
    case _ =>
  }

  lemma {:induction false} RunLinked(es: seq<Event>, s: State)
    requires Run(es, s)
    ensures LinkedState(s)
    decreases |es|
  {
    if es != [] {
      var r := LastStep(es, s);
      RunLinked(es[..|es| - 1], r);
      StepLinked(r, es[|es| - 1]);
    }
  }

  // ================================================================ what each event brings about

  /** In every run, a socket that opens leaves an offer in the making on the session's peer, unless it is an old one. */
  lemma {:induction false} OpenMakesOffer(es: seq<Event>, s: State, k: nat)
    requires Run(es, s) && k < |s.b.sockets| && Enabled(s, SocketOpen(k))
    ensures var s' := Step(s, SocketOpen(k));
            if s.b.sockets[k].token == s.o.token then
              && s.o.pc.Some? && s.b.nextTask !in s.b.tasks
              && s'.b.tasks == s.b.tasks[s.b.nextTask := CreateOffer(s.o.pc.value, s.o.token)]
            else s' == s
  {
    RunLinked(es, s);
    RunSound(es, s);
  }

  /** An answer starts a setRemoteDescription exactly when it is the current session's first and answers its offer. */
  lemma {:induction false} AnswerStartsExactly(es: seq<Event>, s: State, k: nat, wellFormed: bool)
    requires Run(es, s) && Enabled(s, SocketMessage(k, Answer(wellFormed)))
    ensures var s' := Step(s, SocketMessage(k, Answer(wellFormed)));
            (exists i :: i in s'.b.tasks && i !in s.b.tasks && s'.b.tasks[i].SetRemote?) <==>
            && wellFormed && s.b.sockets[k].token == s.o.token && !s.o.hasRemote && !s.o.applying
            && s.o.pc.Some? && s.b.peers[s.o.pc.value].offered
  {
    RunSound(es, s);
    var s' := Step(s, SocketMessage(k, Answer(wellFormed)));
    if s'.b.tasks != s.b.tasks {
      assert s'.b.tasks == s.b.tasks[s.b.nextTask := SetRemote(s.o.pc.value, s.o.token)];
      assert s'.b.tasks[s.b.nextTask].SetRemote?;
    }
  }

  // A rejection that the session renegotiates after.
  predicate Renegotiates(s: State, e: Event) {
    && e.Settle? && e.how == Rejected(true) && e.task in s.b.tasks
    && ForAnswer(s.b.tasks[e.task]) && s.o.retries == 0
  }

  /** A renegotiation is scheduled exactly when an answer is rejected as incompatible for the first time since a user start. */
  lemma {:induction false} RenegotiatesExactly(es: seq<Event>, s: State, e: Event)
    requires Run(es, s) && Enabled(s, e)
    ensures var s' := Step(s, e);
            if Renegotiates(s, e) then
              s'.b.timers == s.b.timers + multiset{s.b.tasks[e.task].token} && s'.o.retries == 1
            else
              s'.b.timers == (if e.RetryTimer? then s.b.timers - multiset{e.token} else s.b.timers)
              && s'.o.retries == (if e.UserStart? then 0 else s.o.retries)
  {
    match e
    case UserStart(online) => StartTimers(s, false, online);
    case UserStop => StopFacts(s);
    case RetryTimer(token, online) =>
      StartTimers(s.(b := s.b.(timers := s.b.timers - multiset{token})), true, online);
    case FetchDone(i, outcome) => FetchTimers(DropTask(s, i), s.b.tasks[i].start, s.b.tasks[i].token, outcome);
    case SocketMessage(k, kind) => MessageTimers(s, s.b.sockets[k].token, kind);
    case Settle(i, how) => SettleTimers(DropTask(s, i), s.b.tasks[i], how);
    case _ =>
  }

  lemma StartTimers(s: State, isRetry: bool, online: bool)
    requires Handles(s)
    ensures var s' := Start(s, isRetry, online);
            s'.b.timers == s.b.timers && s'.o.retries == if isRetry then s.o.retries else 0
  {
    StopFacts(s);
  }

  lemma FetchTimers(s: State, start: nat, token: nat, outcome: FetchOutcome)
    ensures var s' := AfterFetch(s, start, token, outcome); s'.b.timers == s.b.timers && s'.o.retries == s.o.retries
  {
  }

  lemma MessageTimers(s: State, token: nat, kind: MessageKind)
    requires Handles(s)
    ensures var s' := OnMessage(s, token, kind); s'.b.timers == s.b.timers && s'.o.retries == s.o.retries
  {
  }

  lemma SettleTimers(s: State, t: Task, how: Settlement)
    requires !t.Fetch? && t.peer < |s.b.peers|
    ensures var s' := Continue(s, t, how);
            if how == Rejected(true) && ForAnswer(t) && s.o.retries == 0 then
              s'.b.timers == s.b.timers + multiset{t.token} && s'.o.retries == 1
            else s'.b.timers == s.b.timers && s'.o.retries == s.o.retries
  {
  }

  /** A start, by the user or by the timer of the current session, fetches the parameters under a new token. */
  lemma {:induction false} StartFetches(es: seq<Event>, s: State, e: Event)
    requires Run(es, s) && Enabled(s, e) && (e.UserStart? || (e.RetryTimer? && e.token == s.o.token))
    ensures var s' := Step(s, e);
            && s'.o.token == s.o.token + 2 && s'.o.pc.None? && s'.o.ws.None?
            && (e.online ==> s'.b.nextTask == s.b.nextTask + 1 && s.b.nextTask in s'.b.tasks
                             && s'.b.tasks[s.b.nextTask] == Fetch(|s.g.starts|, s'.o.token)
                             && s'.g.starts == s.g.starts + [s'.o.token])
            && (!e.online ==> s'.g.starts == s.g.starts && forall i <- s'.b.tasks :: i in s.b.tasks)
            && s'.g.userStarts == s.g.userStarts + (if e.UserStart? then 1 else 0)
            && s'.g.autoStarts == s.g.autoStarts + (if e.UserStart? then 0 else 1)
  {
    RunSound(es, s);
    var s0 := if e.UserStart? then s else s.(b := s.b.(timers := s.b.timers - multiset{e.token}));
    StopFacts(s0);
  }

  lemma StopFacts(s: State)
    requires Handles(s)
    ensures var s' := Stop(s);
            && s'.o.token == s.o.token + 1 && s'.o.pc.None? && s'.o.ws.None? && s'.o.retries == s.o.retries
            && s'.b.nextTask == s.b.nextTask && s'.b.timers == s.b.timers && (forall i <- s'.b.tasks :: i in s.b.tasks)
            && s'.g.starts == s.g.starts && s'.g.userStarts == s.g.userStarts && s'.g.autoStarts == s.g.autoStarts
  {
  }

  /** A candidate for the current session is buffered before the answer and handed to addIceCandidate after it. */
  lemma {:induction false} CandidateTaken(es: seq<Event>, s: State, k: nat, c: Candidate)
    requires SeparateRun(es, s) && Enabled(s, SocketMessage(k, IceCandidate(c))) && s.b.sockets[k].token == s.o.token
    ensures var s' := Step(s, SocketMessage(k, IceCandidate(c)));
            if s.o.hasRemote then
              && s'.o.pending == s.o.pending && s'.g.handed == s.g.handed + multiset{c}
              && s.o.pc.Some? && s'.b.tasks == s.b.tasks[s.b.nextTask := AddOne(s.o.pc.value, s.o.token)]
            else s'.o.pending == s.o.pending + [c] && s'.b.tasks == s.b.tasks
  {
    SeparateRunInv(es, s);
    RunLinked(es, s);
  }

  // ---------------------------------------------------------------- the waiters

  // What this event tells the waiting starts, if anything.
  ghost function Told(s: State, e: Event): Option<bool>
    requires Enabled(s, e)
  {
    match e
    case UserStart(_) => Some(false)
    case UserStop => Some(false)
    case RetryTimer(token, _) => if token == s.o.token then Some(false) else None
    case StartTimeout(_) => None
    case FetchDone(_, outcome) => if outcome.Connected? then None else Some(false)
    case SocketOpen(_) => None
    case SocketMessage(k, kind) =>
      if s.b.sockets[k].token != s.o.token || s.o.pc.None? then None
      else if kind.Malformed? then Some(false)
      else if kind == Answer(false) && !s.o.hasRemote && !s.o.applying && s.b.peers[s.o.pc.value].offered then Some(false)
      else None
    case SocketClose(k) => if s.b.sockets[k].token == s.o.token then Some(false) else None
    case Track(p) => if s.b.peers[p].token == s.o.token then Some(true) else None
    case ConnectionState(p, broken) => if broken && s.b.peers[p].token == s.o.token then Some(false) else None
    case Settle(i, how) =>
      var t := s.b.tasks[i];
      if how.Rejected? then (if t.AddOne? || ForAnswer(t) then Some(false) else None)
      else if s.o.pc.None? && ((t.SetRemote? && s.o.pending != []) || (t.Flush? && t.index + 1 < |t.queue|)) then Some(false)
      else None
  }

  // The results once every waiting start is told v.
  function AllTold(s: State, v: bool): map<nat, bool> {
    s.g.results + map w | w in s.o.waiters && w !in s.g.results :: v
  }

  ghost function ResultsAfter(s: State, e: Event): map<nat, bool>
    requires Enabled(s, e)
  {
    var told := if Told(s, e).Some? then AllTold(s, Told(s, e).value) else s.g.results;
    if e.StartTimeout? then told[e.start := false]
    else if e.FetchDone? && !e.outcome.Connected? then told[s.b.tasks[e.task].start := false]
    else told
  }

  /**
   Which events settle starts, and with what: a track event of the current session with true, its
   failures, a stop and a new start with false. Only the start's own timer and its own failed fetch
   settle besides.
   */
  lemma {:induction false} WaitersToldExactly(es: seq<Event>, s: State, e: Event)
    requires Run(es, s) && Enabled(s, e)
    ensures Step(s, e).g.results == ResultsAfter(s, e)
    ensures Told(s, e).Some? ==> forall w <- s.g.registered :: w !in s.g.results ==>
              w in Step(s, e).g.results && Step(s, e).g.results[w] == Told(s, e).value
  {
    RunSound(es, s);
    ToldResults(s, e);
  }

  lemma ToldResults(s: State, e: Event)
    requires Sound(s) && Enabled(s, e)
    ensures Step(s, e).g.results == ResultsAfter(s, e)
  {
    match e
    case UserStart(online) => StartTold(s, online);
    case UserStop => StopResults(s);
    case RetryTimer(token, online) => RetryTold(s, token, online);
    case FetchDone(_, _) => FetchTold(s, e);
    case SocketMessage(k, kind) => MessageResults(s, s.b.sockets[k].token, kind);
    case Settle(i, how) => SettleTold(s, i, how);
    case _ => CallbackTold(s, e);
  }

  lemma StartTold(s: State, online: bool)
    requires Enabled(s, UserStart(online))
    ensures Step(s, UserStart(online)).g.results == ResultsAfter(s, UserStart(online))
  {
    StartResults(s, false, online);
  }

  lemma RetryTold(s: State, token: nat, online: bool)
    requires Enabled(s, RetryTimer(token, online))
    ensures Step(s, RetryTimer(token, online)).g.results == ResultsAfter(s, RetryTimer(token, online))
  {
    var s1 := s.(b := s.b.(timers := s.b.timers - multiset{token}));
    StartResults(s1, true, online);
    assert AllTold(s1, false) == AllTold(s, false);
  }

  lemma FetchTold(s: State, e: Event)
    requires Enabled(s, e) && e.FetchDone?
    ensures Step(s, e).g.results == ResultsAfter(s, e)
  {
    var t := s.b.tasks[e.task];
    FetchResults(DropTask(s, e.task), t.start, t.token, e.outcome);
  }

  lemma SettleTold(s: State, i: nat, how: Settlement)
    requires Enabled(s, Settle(i, how))
    ensures Step(s, Settle(i, how)).g.results == ResultsAfter(s, Settle(i, how))
  {
    SettleResults(DropTask(s, i), s.b.tasks[i], how);
  }

  lemma CallbackTold(s: State, e: Event)
    requires Enabled(s, e) && (e.StartTimeout? || e.SocketOpen? || e.SocketClose? || e.Track? || e.ConnectionState?)
    ensures Step(s, e).g.results == ResultsAfter(s, e)
  {
  }

  lemma StopResults(s: State)
    requires Handles(s)
    ensures Stop(s).g.results == AllTold(s, false) && Stop(s).o.waiters == []
  {
  }

  lemma FetchResults(s: State, start: nat, token: nat, outcome: FetchOutcome)
    ensures AfterFetch(s, start, token, outcome).g.results ==
            if outcome.Connected? then s.g.results else AllTold(s, false)[start := false]
  {
  }

  lemma MessageResults(s: State, token: nat, kind: MessageKind)
    requires Handles(s)
    ensures OnMessage(s, token, kind).g.results ==
            if token != s.o.token || s.o.pc.None? then s.g.results
            else if kind.Malformed? then AllTold(s, false)
            else if kind == Answer(false) && !s.o.hasRemote && !s.o.applying && s.b.peers[s.o.pc.value].offered
            then AllTold(s, false)
            else s.g.results
  {
  }

  lemma StartResults(s: State, isRetry: bool, online: bool)
    requires Handles(s)
    ensures Start(s, isRetry, online).g.results == AllTold(s, false)
  {
    StopResults(s);
    var s1 := Begin(s, isRetry);
    assert ResolveStartWaiters(s1, false).g.results == s1.g.results;
  }

  lemma SettleResults(s: State, t: Task, how: Settlement)
    requires !t.Fetch? && t.peer < |s.b.peers|
    ensures Continue(s, t, how).g.results ==
            if how.Rejected? then (if t.AddOne? || ForAnswer(t) then AllTold(s, false) else s.g.results)
            else if s.o.pc.None? && ((t.SetRemote? && s.o.pending != []) || (t.Flush? && t.index + 1 < |t.queue|))
            then AllTold(s, false)
            else s.g.results
  {
    match t
    case SetRemote(p, token) =>
      if how.Fulfilled? {
        FlushResults(RemoteSet(s, p, token), token, s.o.pending, 0);
      } else {
        FailedResults(s, token, how.incompatible);
      }
    case Flush(_, token, queue, index) =>
      if how.Fulfilled? {
        FlushResults(s, token, queue, index + 1);
      } else {
        FailedResults(s.(g := s.g.(flushFailed := true)), token, how.incompatible);
      }
    case _ =>
  }

  lemma FailedResults(s: State, token: nat, incompatible: bool)
    ensures AnswerFailed(s, token, incompatible).g.results == AllTold(s, false)
  {
  }

  lemma FlushResults(s: State, token: nat, queue: seq<Candidate>, index: nat)
    ensures FlushFrom(s, token, queue, index).g.results ==
            if s.o.pc.None? && index < |queue| then AllTold(s, false) else s.g.results
  {
  }

  // ================================================================ a negotiation that completes

  // The event is no start or stop, can happen in s, and leads to s'.
  ghost predicate Leads(s: State, e: Event, s': State) {
    Enabled(s, e) && !e.UserStart? && !e.UserStop? && !e.RetryTimer? && s' == Step(s, e)
  }

  type RunProperty = (seq<Event>, State) -> bool

  // What holds of runs that go on with such events.
  ghost predicate Closed(R: RunProperty) {
    forall es, s, e, s' :: R(es, s) && Leads(s, e, s') ==> R(es + [e], s')
  }

  lemma SeparateRunsClosed()
    ensures Closed((es: seq<Event>, s: State) => SeparateRun(es, s))
  {
    forall es, s, e, s' | SeparateRun(es, s) && Leads(s, e, s')
      ensures SeparateRun(es + [e], s')
    {
      SeparateSnoc(es, s, e, s');
    }
  }

  lemma SeparateSnoc(es: seq<Event>, s: State, e: Event, s': State)
    requires SeparateRun(es, s) && Leads(s, e, s')
    ensures SeparateRun(es + [e], s')
  {
    assert (es + [e])[..|es|] == es;
  }

  // The events es lead on from s to t, whatever led to s.
  ghost predicate Trail(R: RunProperty, s: State, es: seq<Event>, t: State) {
    forall before :: R(before, s) ==> R(before + es, t)
  }

  lemma TrailOf(R: RunProperty, s: State, e: Event, s': State)
    requires Closed(R) && Leads(s, e, s')
    ensures Trail(R, s, [e], s')
  {
  }

  lemma TrailEmpty(R: RunProperty, s: State)
    ensures Trail(R, s, [], s)
  {
    assert forall before: seq<Event> :: before + [] == before;
  }

  lemma TrailJoin(R: RunProperty, s: State, es: seq<Event>, t: State, es': seq<Event>, u: State)
    requires Trail(R, s, es, t) && Trail(R, t, es', u)
    ensures Trail(R, s, es + es', u)
  {
    forall before | R(before, s)
      ensures R(before + (es + es'), u)
    {
      Associative(before, es, es');
    }
  }

  // The current session has peer p and socket k, awaits no promise, and a start waits for its result.
  ghost predicate Connected(s: State, p: nat, k: nat, start: nat) {
    && s.o.pc == Some(p) && p < |s.b.peers| && s.b.peers[p].token == s.o.token
    && k < |s.b.sockets| && s.b.sockets[k].token == s.o.token && Handles(s)
    && start in s.o.waiters && start !in s.g.results
    && s.b.tasks == map[]
  }

  // No answer yet.
  ghost predicate Unanswered(s: State) {
    !s.o.hasRemote && !s.o.applying && s.g.answers[s.o.token] == 0
  }

  lemma JustConnected(es: seq<Event>, s: State, i: nat)
    requires SeparateRun(es, s) && i in s.b.tasks && s.b.tasks[i].Fetch?
    ensures var s' := Joined(s, i);
            && SeparateRun(es + [FetchDone(i, FetchOutcome.Connected)], s')
            && Connected(s', |s.b.peers|, |s.b.sockets|, s.b.tasks[i].start) && Unanswered(s')
            && s'.o.token == s.o.token
  {
    SeparateRunInv(es, s);
    FetchJoins(s, i);
    SeparateSnoc(es, s, FetchDone(i, FetchOutcome.Connected), Joined(s, i));
  }

  // The state once the fetch of task i has connected.
  function Joined(s: State, i: nat): State
    requires i in s.b.tasks && s.b.tasks[i].Fetch?
  {
    AfterFetch(DropTask(s, i), s.b.tasks[i].start, s.b.tasks[i].token, FetchOutcome.Connected)
  }

  lemma FetchJoins(s: State, i: nat)
    requires Sound(s) && Inv(s) && i in s.b.tasks && s.b.tasks[i].Fetch?
    ensures var s' := Joined(s, i);
            && Leads(s, FetchDone(i, FetchOutcome.Connected), s')
            && Connected(s', |s.b.peers|, |s.b.sockets|, s.b.tasks[i].start) && Unanswered(s')
            && s'.o.token == s.o.token
  {
    FetchStands(s, i);
  }

  // ---------------------------------------------------------------- offer

  // The peer once the local description is set.
  function Offered(s: State, p: nat, n: nat): State
    requires p < |s.b.peers|
  {
    s.(b := s.b.(peers := s.b.peers[p := s.b.peers[p].(offered := true)], nextTask := n + 2))
  }

  // The session while its offer is made, and while its local description is set.
  function Offering(s: State, p: nat): State {
    AddTask(s, CreateOffer(p, s.o.token))
  }

  function Describing(s: State, p: nat): State {
    s.(b := s.b.(tasks := map[s.b.nextTask + 1 := SetLocal(p, s.o.token)], nextTask := s.b.nextTask + 2))
  }

  lemma OpenTrail(R: RunProperty, s: State, p: nat, k: nat, start: nat)
    requires Closed(R) && Connected(s, p, k, start)
    ensures Trail(R, s, [SocketOpen(k)], Offering(s, p))
  {
    OpenStep(s, p, k, start);
    TrailOf(R, s, SocketOpen(k), Offering(s, p));
  }

  lemma OpenStep(s: State, p: nat, k: nat, start: nat)
    requires Connected(s, p, k, start)
    ensures Leads(s, SocketOpen(k), Offering(s, p))
  {
  }

  lemma OfferTrail(R: RunProperty, s: State, p: nat, k: nat, start: nat)
    requires Closed(R) && Connected(s, p, k, start)
    ensures Trail(R, Offering(s, p), [Settle(s.b.nextTask, Fulfilled)], Describing(s, p))
  {
    OfferStep(s, p, k, start);
    TrailOf(R, Offering(s, p), Settle(s.b.nextTask, Fulfilled), Describing(s, p));
  }

  lemma OfferStep(s: State, p: nat, k: nat, start: nat)
    requires Connected(s, p, k, start)
    ensures Leads(Offering(s, p), Settle(s.b.nextTask, Fulfilled), Describing(s, p))
  {
    assert Offering(s, p).b.tasks - {s.b.nextTask} == map[];
  }

  lemma LocalTrail(R: RunProperty, s: State, p: nat, k: nat, start: nat)
    requires Closed(R) && Connected(s, p, k, start)
    ensures Trail(R, Describing(s, p), [Settle(s.b.nextTask + 1, Fulfilled)], Offered(s, p, s.b.nextTask))
  {
    LocalStep(s, p, k, start);
    TrailOf(R, Describing(s, p), Settle(s.b.nextTask + 1, Fulfilled), Offered(s, p, s.b.nextTask));
  }

  lemma LocalStep(s: State, p: nat, k: nat, start: nat)
    requires Connected(s, p, k, start)
    ensures Leads(Describing(s, p), Settle(s.b.nextTask + 1, Fulfilled), Offered(s, p, s.b.nextTask))
  {
    assert Describing(s, p).b.tasks - {s.b.nextTask + 1} == map[];
  }

  function OfferEvents(k: nat, n: nat): seq<Event> {
    [SocketOpen(k)] + [Settle(n, Fulfilled)] + [Settle(n + 1, Fulfilled)]
  }

  lemma OfferMade(R: RunProperty, s: State, p: nat, k: nat, start: nat)
    requires Closed(R) && Connected(s, p, k, start)
    ensures Trail(R, s, OfferEvents(k, s.b.nextTask), Offered(s, p, s.b.nextTask))
  {
    OpenTrail(R, s, p, k, start);
    OfferTrail(R, s, p, k, start);
    LocalTrail(R, s, p, k, start);
    OfferJoin(R, s, Offering(s, p), Describing(s, p), Offered(s, p, s.b.nextTask), k, s.b.nextTask);
  }

  lemma OfferJoin(R: RunProperty, s: State, t: State, u: State, v: State, k: nat, n: nat)
    requires Trail(R, s, [SocketOpen(k)], t) && Trail(R, t, [Settle(n, Fulfilled)], u) && Trail(R, u, [Settle(n + 1, Fulfilled)], v)
    ensures Trail(R, s, OfferEvents(k, n), v)
  {
    TrailJoin(R, s, [SocketOpen(k)], t, [Settle(n, Fulfilled)], u);
    TrailJoin(R, s, [SocketOpen(k)] + [Settle(n, Fulfilled)], u, [Settle(n + 1, Fulfilled)], v);
  }

  lemma StillConnected(s: State, p: nat, k: nat, start: nat)
    requires Connected(s, p, k, start)
    ensures Connected(Offered(s, p, s.b.nextTask), p, k, start)
  {
  }

  // ---------------------------------------------------------------- candidates

  function ArrivalEvents(k: nat, cs: seq<Candidate>): seq<Event> {
    if cs == [] then [] else ArrivalEvents(k, cs[..|cs| - 1]) + [SocketMessage(k, IceCandidate(cs[|cs| - 1]))]
  }

  function Buffered(s: State, cs: seq<Candidate>): State {
    s.(o := s.o.(pending := s.o.pending + cs), g := s.g.(seen := s.g.seen + multiset(cs)))
  }

  lemma ArrivalStep(s: State, p: nat, k: nat, start: nat, cs: seq<Candidate>, c: Candidate)
    requires Connected(s, p, k, start) && !s.o.hasRemote
    ensures Connected(Buffered(s, cs + [c]), p, k, start)
    ensures Leads(Buffered(s, cs), SocketMessage(k, IceCandidate(c)), Buffered(s, cs + [c]))
  {
    assert s.o.pending + (cs + [c]) == s.o.pending + cs + [c];
    assert s.g.seen + multiset(cs + [c]) == s.g.seen + multiset(cs) + multiset{c};
  }

  lemma {:induction false} CandidatesArrive(R: RunProperty, s: State, p: nat, k: nat, start: nat, cs: seq<Candidate>)
    requires Closed(R) && Connected(s, p, k, start) && !s.o.hasRemote
    ensures Trail(R, s, ArrivalEvents(k, cs), Buffered(s, cs)) && Connected(Buffered(s, cs), p, k, start)
    decreases |cs|
  {
    if cs == [] {
      NoneBuffered(s);
      TrailEmpty(R, s);
    } else {
      var m := |cs| - 1;
      var e := SocketMessage(k, IceCandidate(cs[m]));
      CandidatesArrive(R, s, p, k, start, cs[..m]);
      ArrivalStep(s, p, k, start, cs[..m], cs[m]);
      assert cs[..m] + [cs[m]] == cs;
      TrailOf(R, Buffered(s, cs[..m]), e, Buffered(s, cs));
      TrailJoin(R, s, ArrivalEvents(k, cs[..m]), Buffered(s, cs[..m]), [e], Buffered(s, cs));
    }
  }

  lemma NoneBuffered(s: State)
    ensures Buffered(s, []) == s
  {
    assert s.o.pending + [] == s.o.pending && s.g.seen + multiset([]) == s.g.seen;
  }

  // ---------------------------------------------------------------- answer and flush

  // The answer is applied and the first j + 1 of the buffered candidates are handed over.
  ghost predicate Flushing(s: State, p: nat, start: nat, handed: multiset<Candidate>, n: nat, j: nat) {
    && s.o.pc == Some(p) && p < |s.b.peers| && s.b.peers[p].token == s.o.token && Handles(s)
    && start in s.o.waiters && start !in s.g.results
    && s.o.hasRemote && s.o.applying && s.g.answers[s.o.token] == 1
    && j < |s.o.pending| && s.b.nextTask == n + j + 1
    && s.b.tasks == map[n + j := Flush(p, s.o.token, s.o.pending, j)]
    && s.g.handed == handed + multiset(s.o.pending[..j + 1])
  }

  // All of them are.
  ghost predicate Flushed(s: State, p: nat, start: nat, token: nat, handed: multiset<Candidate>) {
    && s.o.token == token && s.o.pc == Some(p) && p < |s.b.peers| && s.b.peers[p].token == token && Handles(s)
    && start in s.o.waiters && start !in s.g.results
    && s.o.hasRemote && !s.o.applying && s.o.pending == [] && s.g.answers[token] == 1
    && s.g.handed == handed
  }

  // The session while the answer is being applied, and once it is.
  function Applying(s: State, p: nat): State {
    AddTask(s.(o := s.o.(applying := true)), SetRemote(p, s.o.token))
  }

  function Applied(s: State, p: nat): State
    requires p < |s.b.peers|
  {
    AfterRemote(s.(o := s.o.(applying := true), b := s.b.(nextTask := s.b.nextTask + 1)), p, s.o.token)
  }

  lemma AnswerStep(s: State, p: nat, k: nat, start: nat)
    requires Connected(s, p, k, start) && Unanswered(s) && s.b.peers[p].offered
    ensures Leads(s, SocketMessage(k, Answer(true)), Applying(s, p))
    ensures Leads(Applying(s, p), Settle(s.b.nextTask, Fulfilled), Applied(s, p))
  {
    assert Applying(s, p).b.tasks - {s.b.nextTask} == map[];
  }

  lemma RemoteStep(s: State, p: nat, k: nat, start: nat)
    requires Connected(s, p, k, start) && Unanswered(s)
    ensures var s' := Applied(s, p);
            if s.o.pending == [] then Flushed(s', p, start, s.o.token, s.g.handed)
            else s'.o.pending == s.o.pending && s'.o.token == s.o.token
                 && Flushing(s', p, start, s.g.handed, s.b.nextTask + 1, 0)
  {
    if s.o.pending != [] { assert s.o.pending[..1] == [s.o.pending[0]]; }
  }

  // The flush goes on after promise i.
  function Onward(s: State, i: nat): State
    requires i in s.b.tasks && s.b.tasks[i].Flush?
  {
    FlushFrom(DropTask(s, i), s.b.tasks[i].token, s.b.tasks[i].queue, s.b.tasks[i].index + 1)
  }

  lemma FlushLeads(s: State, p: nat, start: nat, handed: multiset<Candidate>, n: nat, j: nat)
    requires Flushing(s, p, start, handed, n, j)
    ensures Leads(s, Settle(n + j, Fulfilled), Onward(s, n + j))
  {
    var t := s.b.tasks[n + j];
    FlushContinues(DropTask(s, n + j), t);
    assert Enabled(s, Settle(n + j, Fulfilled));
  }

  lemma FlushContinues(s: State, t: Task)
    requires t.Flush? && t.peer < |s.b.peers|
    ensures Continue(s, t, Fulfilled) == FlushFrom(s, t.token, t.queue, t.index + 1)
  {
  }

  lemma FlushStep(s: State, p: nat, start: nat, handed: multiset<Candidate>, n: nat, j: nat)
    requires Flushing(s, p, start, handed, n, j)
    ensures var s' := Onward(s, n + j);
            if j + 1 < |s.o.pending| then
              s'.o.pending == s.o.pending && s'.o.token == s.o.token && Flushing(s', p, start, handed, n, j + 1)
            else Flushed(s', p, start, s.o.token, handed + multiset(s.o.pending))
  {
    assert s.b.tasks - {n + j} == map[];
    if j + 1 < |s.o.pending| {
      assert s.o.pending[..j + 2] == s.o.pending[..j + 1] + [s.o.pending[j + 1]];
    } else {
      assert s.o.pending[..j + 1] == s.o.pending;
    }
  }

  function FlushEvents(n: nat, count: nat): seq<Event>
    decreases count
  {
    if count == 0 then [] else [Settle(n, Fulfilled)] + FlushEvents(n + 1, count - 1)
  }

  lemma FlushTrail(R: RunProperty, s: State, p: nat, start: nat, handed: multiset<Candidate>, n: nat, j: nat)
    requires Closed(R) && Flushing(s, p, start, handed, n, j)
    ensures Trail(R, s, [Settle(n + j, Fulfilled)], Onward(s, n + j))
  {
    FlushLeads(s, p, start, handed, n, j);
    TrailOf(R, s, Settle(n + j, Fulfilled), Onward(s, n + j));
  }

  lemma FlushJoin(R: RunProperty, s: State, t: State, u: State, n: nat, count: nat)
    requires count > 0 && Trail(R, s, [Settle(n, Fulfilled)], t) && Trail(R, t, FlushEvents(n + 1, count - 1), u)
    ensures Trail(R, s, FlushEvents(n, count), u)
  {
    TrailJoin(R, s, [Settle(n, Fulfilled)], t, FlushEvents(n + 1, count - 1), u);
  }

  lemma {:induction false} FlushRuns(R: RunProperty, s: State, p: nat, start: nat, handed: multiset<Candidate>, n: nat, j: nat) returns (s': State)
    requires Closed(R) && Flushing(s, p, start, handed, n, j)
    ensures Trail(R, s, FlushEvents(n + j, |s.o.pending| - j), s')
    ensures Flushed(s', p, start, s.o.token, handed + multiset(s.o.pending))
    decreases |s.o.pending| - j
  {
    var t := Onward(s, n + j);
    FlushTrail(R, s, p, start, handed, n, j);
    FlushStep(s, p, start, handed, n, j);
    if j + 1 < |s.o.pending| {
      s' := FlushRuns(R, t, p, start, handed, n, j + 1);
    } else {
      s' := t;
      TrailEmpty(R, t);
    }
    FlushJoin(R, s, t, s', n + j, |s.o.pending| - j);
  }

  function AnswerEvents(k: nat, n: nat, count: nat): seq<Event> {
    [SocketMessage(k, Answer(true))] + [Settle(n, Fulfilled)] + FlushEvents(n + 1, count)
  }

  lemma AnswerRuns(R: RunProperty, s: State, p: nat, k: nat, start: nat) returns (s': State)
    requires Closed(R) && Connected(s, p, k, start) && Unanswered(s) && s.b.peers[p].offered
    ensures Trail(R, s, AnswerEvents(k, s.b.nextTask, |s.o.pending|), s')
    ensures Flushed(s', p, start, s.o.token, s.g.handed + multiset(s.o.pending))
  {
    AnswerApplied(R, s, p, k, start);
    s' := AppliedFlushes(R, s, p, k, start);
    AnswerJoin(R, s, Applied(s, p), s', k, s.b.nextTask, |s.o.pending|);
  }

  lemma AppliedFlushes(R: RunProperty, s: State, p: nat, k: nat, start: nat) returns (s': State)
    requires Closed(R) && Connected(s, p, k, start) && Unanswered(s)
    ensures Trail(R, Applied(s, p), FlushEvents(s.b.nextTask + 1, |s.o.pending|), s')
    ensures Flushed(s', p, start, s.o.token, s.g.handed + multiset(s.o.pending))
  {
    RemoteStep(s, p, k, start);
    if s.o.pending == [] {
      s' := Applied(s, p);
      TrailEmpty(R, s');
      assert s.g.handed + multiset(s.o.pending) == s.g.handed;
    } else {
      s' := FlushRuns(R, Applied(s, p), p, start, s.g.handed, s.b.nextTask + 1, 0);
    }
  }

  lemma AnswerJoin(R: RunProperty, s: State, t: State, u: State, k: nat, n: nat, count: nat)
    requires Trail(R, s, [SocketMessage(k, Answer(true))] + [Settle(n, Fulfilled)], t)
    requires Trail(R, t, FlushEvents(n + 1, count), u)
    ensures Trail(R, s, AnswerEvents(k, n, count), u)
  {
    TrailJoin(R, s, [SocketMessage(k, Answer(true))] + [Settle(n, Fulfilled)], t, FlushEvents(n + 1, count), u);
  }

  lemma AnswerApplied(R: RunProperty, s: State, p: nat, k: nat, start: nat)
    requires Closed(R) && Connected(s, p, k, start) && Unanswered(s) && s.b.peers[p].offered
    ensures Trail(R, s, [SocketMessage(k, Answer(true))] + [Settle(s.b.nextTask, Fulfilled)], Applied(s, p))
  {
    var e1, e2 := SocketMessage(k, Answer(true)), Settle(s.b.nextTask, Fulfilled);
    AnswerStep(s, p, k, start);
    TrailOf(R, s, e1, Applying(s, p));
    TrailOf(R, Applying(s, p), e2, Applied(s, p));
    TrailJoin(R, s, [e1], Applying(s, p), [e2], Applied(s, p));
  }

  // ---------------------------------------------------------------- the whole run

  // From the fetch of a start to its picture: the socket opens, the offer is made and set, the
  // candidates cs arrive, the answer is applied, every buffered candidate is handed over, and the
  // track event fires. n is the first promise number, buffered how many candidates wait in the end.
  function Negotiation(p: nat, k: nat, n: nat, cs: seq<Candidate>, buffered: nat): seq<Event> {
    OfferEvents(k, n) + ArrivalEvents(k, cs) + AnswerEvents(k, n + 2, buffered) + [Track(p)]
  }

  lemma TrackStep(s: State, p: nat, start: nat, token: nat, handed: multiset<Candidate>)
    requires Flushed(s, p, start, token, handed)
    ensures Leads(s, Track(p), OnTrack(s, token)) && Complete(OnTrack(s, token), start, token, handed)
  {
  }

  // What a completed negotiation leaves behind.
  ghost predicate Complete(s: State, start: nat, token: nat, handed: multiset<Candidate>) {
    && s.o.token == token && s.o.hasRemote && !s.o.applying && s.o.pending == []
    && s.g.answers[token] == 1 && s.g.handed == handed
    && start in s.g.results && s.g.results[start]
  }

  lemma NegotiationJoin(R: RunProperty, s: State, t: State, u: State, v: State, w: State, p: nat, k: nat, n: nat, cs: seq<Candidate>, count: nat)
    requires Trail(R, s, OfferEvents(k, n), t) && Trail(R, t, ArrivalEvents(k, cs), u)
    requires Trail(R, u, AnswerEvents(k, n + 2, count), v) && Trail(R, v, [Track(p)], w)
    ensures Trail(R, s, Negotiation(p, k, n, cs, count), w)
  {
    TrailJoin(R, s, OfferEvents(k, n), t, ArrivalEvents(k, cs), u);
    TrailJoin(R, s, OfferEvents(k, n) + ArrivalEvents(k, cs), u, AnswerEvents(k, n + 2, count), v);
    TrailJoin(R, s, OfferEvents(k, n) + ArrivalEvents(k, cs) + AnswerEvents(k, n + 2, count), v, [Track(p)], w);
  }

  lemma TrackTrail(R: RunProperty, s: State, p: nat, start: nat, token: nat, handed: multiset<Candidate>)
    requires Closed(R) && Flushed(s, p, start, token, handed)
    ensures Trail(R, s, [Track(p)], OnTrack(s, token))
  {
    TrackStep(s, p, start, token, handed);
    TrailOf(R, s, Track(p), OnTrack(s, token));
  }

  // The state in which the answer finds the session.
  function Ready(s: State, p: nat, cs: seq<Candidate>): State
    requires p < |s.b.peers|
  {
    Buffered(Offered(s, p, s.b.nextTask), cs)
  }

  lemma ReadyFacts(s: State, p: nat, k: nat, start: nat, cs: seq<Candidate>)
    requires Connected(s, p, k, start) && Unanswered(s)
    ensures var r := Ready(s, p, cs);
            && Connected(r, p, k, start) && Unanswered(r) && r.b.peers[p].offered && r.b.nextTask == s.b.nextTask + 2
            && r.o.pending == s.o.pending + cs && r.g.handed == s.g.handed && r.o.token == s.o.token
  {
  }

  lemma ConnectedCompletes(R: RunProperty, s: State, p: nat, k: nat, start: nat, cs: seq<Candidate>) returns (s': State)
    requires Closed(R) && Connected(s, p, k, start) && Unanswered(s)
    ensures Trail(R, s, Negotiation(p, k, s.b.nextTask, cs, |s.o.pending + cs|), s')
    ensures Complete(s', start, s.o.token, s.g.handed + multiset(s.o.pending + cs))
  {
    var n, handed := s.b.nextTask, s.g.handed + multiset(s.o.pending + cs);
    OfferMade(R, s, p, k, start);
    StillConnected(s, p, k, start);
    CandidatesArrive(R, Offered(s, p, n), p, k, start, cs);
    ReadyFacts(s, p, k, start, cs);
    var r := AnswerRuns(R, Ready(s, p, cs), p, k, start);
    TrackStep(r, p, start, s.o.token, handed);
    TrackTrail(R, r, p, start, s.o.token, handed);
    s' := OnTrack(r, s.o.token);
    NegotiationJoin(R, s, Offered(s, p, n), Ready(s, p, cs), r, s', p, k, n, cs, |s.o.pending + cs|);
  }

  /**
   From every start whose fetch is outstanding in a run without overlaps, and for all candidates:
   once the fetch connects, the negotiation ends with the answer applied exactly once, every
   candidate handed over, and the start told true.
   */
  lemma {:induction false} NegotiationCompletes(es: seq<Event>, s: State, i: nat, cs: seq<Candidate>)
    requires SeparateRun(es, s) && i in s.b.tasks && s.b.tasks[i].Fetch?
    ensures var c := Joined(s, i);
            var all := Negotiation(|s.b.peers|, |s.b.sockets|, c.b.nextTask, cs, |c.o.pending + cs|);
            exists s' :: SeparateRun(es + [FetchDone(i, FetchOutcome.Connected)] + all, s')
                         && Complete(s', s.b.tasks[i].start, s.o.token, c.g.handed + multiset(c.o.pending + cs))
  {
    JustConnected(es, s, i);
    SeparateRunsClosed();
    var s' := ConnectedCompletes((es: seq<Event>, s: State) => SeparateRun(es, s), Joined(s, i), |s.b.peers|, |s.b.sockets|, s.b.tasks[i].start, cs);
  }
}
