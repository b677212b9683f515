/** What every run of the viewer's session protocol keeps, overlapping or not. */
module ViewerProofs {
  import opened Basics
  import opened ViewerModel

  // Every unsettled promise belongs to an open peer, and this.pc is open.
  ghost predicate Live(peers: seq<Peer>, tasks: map<nat, Task>, nextTask: nat, pc: Option<nat>) {
    && (pc.Some? ==> pc.value < |peers| && peers[pc.value].open)
    && (forall i <- tasks :: i < nextTask)
    && (forall i <- tasks :: !tasks[i].Fetch? ==> tasks[i].peer < |peers| && peers[tasks[i].peer].open)
  }

  // A start whose fetch is outstanding is known, has no waiter and no result yet.
  ghost predicate Fetching(tasks: map<nat, Task>, starts: seq<nat>, registered: set<nat>, results: map<nat, bool>) {
    && (forall i <- tasks :: tasks[i].Fetch? ==>
          && tasks[i].start < |starts| && starts[tasks[i].start] == tasks[i].token
          && tasks[i].start !in registered && tasks[i].start !in results)
    && (forall i <- tasks, j <- tasks ::
          tasks[i].Fetch? && tasks[j].Fetch? && tasks[i].start == tasks[j].start ==> i == j)
  }

  // A registered start without a result is still on the waiter list.
  ghost predicate Waiting(waiters: seq<nat>, starts: seq<nat>, registered: set<nat>, results: map<nat, bool>) {
    && (forall w <- registered :: w < |starts|)
    && (forall w <- results :: w < |starts|)
    && (forall w <- waiters :: w in registered)
    && (forall w <- registered :: w !in results ==> w in waiters)
  }

  ghost predicate Sound(s: State) {
    && Live(s.b.peers, s.b.tasks, s.b.nextTask, s.o.pc)
    && (s.o.ws.Some? ==> s.o.ws.value < |s.b.sockets|)
    && Fetching(s.b.tasks, s.g.starts, s.g.registered, s.g.results)
    && Waiting(s.o.waiters, s.g.starts, s.g.registered, s.g.results)
    && Budget(s.o.retries, s.o.pc, s.b.tasks, s.b.sockets, s.g.autoStarts + |s.b.timers|, s.g.scheduled, s.g.userStarts)
  }

  // The automatic renegotiation is paid for by the user start that reset the counter.
  ghost predicate Budget(retries: nat, pc: Option<nat>, tasks: map<nat, Task>, sockets: seq<Socket>,
                         spent: nat, scheduled: nat, userStarts: nat)
  {
    && retries <= 1
    && spent <= scheduled
    && if userStarts == 0 then
         scheduled == 0 && tasks == map[] && sockets == [] && pc.None? && retries == 0
       else scheduled + 1 - retries <= userStarts
  }

  // Results only grow: a promise settles once.
  ghost predicate Extends(r: map<nat, bool>, r': map<nat, bool>) {
    forall w <- r :: w in r' && r'[w] == r[w]
  }

  ghost predicate Keeps(s: State, s': State) {
    Sound(s') && Extends(s.g.results, s'.g.results)
  }

  // ---------------------------------------------------------------- building blocks

  lemma ResolveKeeps(s: State, value: bool)
    requires Sound(s)
    ensures Keeps(s, ResolveStartWaiters(s, value))
    ensures forall w <- s.g.registered :: w in ResolveStartWaiters(s, value).g.results
  {
  }

  lemma DropTaskKeeps(s: State, i: nat)
    requires Sound(s)
    ensures Sound(DropTask(s, i))
  {
  }

  lemma AddTaskKeeps(s: State, t: Task)
    requires Sound(s) && s.o.pc.Some? && !t.Fetch? && t.peer == s.o.pc.value
    ensures Sound(AddTask(s, t))
  {
  }

  lemma StopKeeps(s: State)
    requires Sound(s)
    ensures Keeps(s, Stop(s))
    ensures forall w <- s.g.registered :: w in Stop(s).g.results
  {
    var b1 := if s.o.ws.Some? then CloseSocket(s.b, s.o.ws.value) else s.b;
    var b2 := if s.o.pc.Some? then ClosePeer(b1, s.o.pc.value) else b1;
    var s1 := State(s.o.(token := s.o.token + 1, pending := [], hasRemote := false, applying := false, ws := None, pc := None),
                    b2,
                    s.g.(seen := multiset{}, handed := multiset{}, drained := 0, flushFailed := false));
    assert Sound(s1);
    ResolveKeeps(s1, false);
  }

  lemma StartKeeps(s: State, isRetry: bool, online: bool)
    requires Sound(s)
    requires isRetry ==> s.g.userStarts > 0 && s.g.autoStarts + |s.b.timers| < s.g.scheduled
    ensures Keeps(s, Start(s, isRetry, online))
    ensures forall w <- s.g.registered :: w in Start(s, isRetry, online).g.results
  {
    StopKeeps(s);
    var s1 := Stop(s);
    assert s1.b.timers == s.b.timers;
    assert Sound(Begin(s, isRetry));
    if online {
      SendFetchKeeps(Begin(s, isRetry));
    } else {
      ResolveKeeps(Begin(s, isRetry), false);
    }
  }

  lemma SendFetchKeeps(s: State)
    requires Sound(s) && s.g.userStarts > 0
    ensures Sound(SendFetch(s))
  {
  }

  lemma FetchDoneKeeps(s: State, i: nat, outcome: FetchOutcome)
    requires Sound(s) && i in s.b.tasks && s.b.tasks[i].Fetch?
    ensures Keeps(s, AfterFetch(DropTask(s, i), s.b.tasks[i].start, s.b.tasks[i].token, outcome))
  {
    var s0, start := DropTask(s, i), s.b.tasks[i].start;
    DropTaskKeeps(s, i);
    assert s.g.userStarts > 0;
    match outcome
    case Failed => StartFailedKeeps(s0, start);
    case SocketThrows =>
      StartFailedKeeps(s0.(o := s.o.(pc := Some(|s.b.peers|)),
                           b := s0.b.(peers := s.b.peers + [Peer(s.b.tasks[i].token, true, false, false)])), start);
    case Connected =>
  }

  lemma StartFailedKeeps(s: State, start: nat)
    requires Sound(s) && start < |s.g.starts| && start !in s.g.registered && start !in s.g.results
    requires forall i <- s.b.tasks :: s.b.tasks[i].Fetch? ==> s.b.tasks[i].start != start
    ensures Keeps(s, StartFailed(s, start))
  {
    ResolveKeeps(s, false);
  }

  lemma AnswerFailedKeeps(s: State, token: nat, incompatible: bool)
    requires Sound(s) && s.g.userStarts > 0
    ensures Keeps(s, AnswerFailed(s, token, incompatible))
  {
    ResolveKeeps(s, false);
  }

  lemma FlushKeeps(s: State, token: nat, queue: seq<Candidate>, index: nat)
    requires Sound(s) && s.g.userStarts > 0
    ensures Keeps(s, FlushFrom(s, token, queue, index))
  {
    if index < |queue| {
      if s.o.pc.None? {
        AnswerFailedKeeps(s.(g := s.g.(flushFailed := true)), token, false);
      } else {
        AddTaskKeeps(s.(g := s.g.(handed := s.g.handed + multiset{queue[index]}, drained := index + 1)),
                     Flush(s.o.pc.value, token, queue, index));
      }
    }
  }

  lemma RemoteKeeps(s: State, p: nat, token: nat)
    requires Sound(s) && p < |s.b.peers| && s.g.userStarts > 0
    ensures Keeps(s, AfterRemote(s, p, token))
  {
    var s1 := State(s.o.(hasRemote := true),
                    s.b.(peers := s.b.peers[p := s.b.peers[p].(offered := false, remote := true)]),
                    s.g.(answers := s.g.answers + multiset{token}));
    assert Live(s1.b.peers, s.b.tasks, s.b.nextTask, s.o.pc);
    FlushKeeps(s1, token, s.o.pending, 0);
  }

  lemma ContinueKeeps(s: State, t: Task, how: Settlement)
    requires Sound(s) && !t.Fetch? && t.peer < |s.b.peers| && s.g.userStarts > 0
    ensures Keeps(s, Continue(s, t, how))
  {
    match t
    case CreateOffer(_, token) =>
      if s.o.pc.Some? { AddTaskKeeps(s, SetLocal(s.o.pc.value, token)); }
    case SetLocal(p, _) =>
    case AddOne(_, _) => ResolveKeeps(s, false);
    case SetRemote(p, token) => RemoteSettledKeeps(s, t, how);
    case Flush(_, token, queue, index) => FlushSettledKeeps(s, t, how);
  }

  lemma RemoteSettledKeeps(s: State, t: Task, how: Settlement)
    requires Sound(s) && t.SetRemote? && t.peer < |s.b.peers| && s.g.userStarts > 0
    ensures Keeps(s, Continue(s, t, how))
  {
    if how.Fulfilled? { RemoteKeeps(s, t.peer, t.token); } else { AnswerFailedKeeps(s, t.token, how.incompatible); }
  }

  lemma FlushSettledKeeps(s: State, t: Task, how: Settlement)
    requires Sound(s) && t.Flush? && t.peer < |s.b.peers| && s.g.userStarts > 0
    ensures Keeps(s, Continue(s, t, how))
  {
    var token, queue, index := t.token, t.queue, t.index;
    if how.Fulfilled? {
      FlushKeeps(s, token, queue, index + 1);
    } else {
      AnswerFailedKeeps(s.(g := s.g.(flushFailed := true)), token, how.incompatible);
    }
  }

  lemma MessageKeeps(s: State, token: nat, kind: MessageKind)
    requires Sound(s) && s.g.userStarts > 0
    ensures Keeps(s, OnMessage(s, token, kind))
  {
    if s.o.pc.Some? {
      match kind
      case Ignored =>
      case Malformed => ResolveKeeps(s, false);
      case Answer(_) =>
        AnswerFailedKeeps(s, token, false);
        AddTaskKeeps(s.(o := s.o.(applying := true)), SetRemote(s.o.pc.value, token));
      case IceCandidate(c) =>
        AddTaskKeeps(s.(g := s.g.(seen := s.g.seen + multiset{c}, handed := s.g.handed + multiset{c})),
                     AddOne(s.o.pc.value, token));
    }
  }

  lemma StepKeeps(s: State, e: Event)
    requires Sound(s) && Enabled(s, e)
    ensures Keeps(s, Step(s, e))
  {
    match e
    case UserStart(online) => StartKeeps(s, false, online);
    case UserStop => StopKeeps(s);
    case RetryTimer(token, online) => RetryTimerKeeps(s, token, online);
    case StartTimeout(w) => TimeoutKeeps(s, w);
    case FetchDone(i, outcome) => FetchDoneKeeps(s, i, outcome);
    case SocketOpen(k) => SocketOpenKeeps(s, s.b.sockets[k].token);
    case SocketMessage(k, kind) => MessageKeeps(s, s.b.sockets[k].token, kind);
    case SocketClose(k) => SocketCloseKeeps(s, k);
    case Track(p) => TrackKeeps(s, s.b.peers[p].token);
    case ConnectionState(p, _) => ResolveKeeps(s, false);
    case Settle(i, how) => SettleKeeps(s, i, how);
  }

  lemma TimeoutKeeps(s: State, w: nat)
    requires Sound(s) && Enabled(s, StartTimeout(w))
    ensures Keeps(s, Step(s, StartTimeout(w)))
  {
  }

  lemma SocketOpenKeeps(s: State, token: nat)
    requires Sound(s)
    ensures Keeps(s, OnSocketOpen(s, token))
  {
    if s.o.pc.Some? { AddTaskKeeps(s, CreateOffer(s.o.pc.value, token)); }
  }

  lemma SocketCloseKeeps(s: State, k: nat)
    requires Sound(s) && k < |s.b.sockets|
    ensures Keeps(s, Step(s, SocketClose(k)))
  {
    ResolveKeeps(s.(b := CloseSocket(s.b, k)), false);
  }

  lemma TrackKeeps(s: State, token: nat)
    requires Sound(s)
    ensures Keeps(s, OnTrack(s, token))
  {
    ResolveKeeps(s.(g := s.g.(tracked := s.g.tracked + {token})), true);
  }

  lemma SettleKeeps(s: State, i: nat, how: Settlement)
    requires Sound(s) && Enabled(s, Settle(i, how))
    ensures Keeps(s, Step(s, Settle(i, how)))
  {
    DropTaskKeeps(s, i);
    ContinueKeeps(DropTask(s, i), s.b.tasks[i], how);
  }

  lemma RetryTimerKeeps(s: State, token: nat, online: bool)
    requires Sound(s) && token in s.b.timers
    ensures Keeps(s, OnRetryTimer(s, token, online))
  {
    var s1 := s.(b := s.b.(timers := s.b.timers - multiset{token}));
    assert |s1.b.timers| == |s.b.timers| - 1;
    assert Sound(s1);
    StartKeeps(s1, true, online);
  }

  lemma {:induction false} RunSound(es: seq<Event>, s: State)
    requires Run(es, s)
    ensures Sound(s)
    decreases |es|
  {
    if es != [] {
      var n := |es| - 1;
      var r :| Run(es[..n], r) && Enabled(r, es[n]) && s == Step(r, es[n]);
      RunSound(es[..n], r);
      StepKeeps(r, es[n]);
    }
  }

  // ---------------------------------------------------------------- theorems

  /** Overlapping or not: automatic renegotiations never outnumber user starts. */
  lemma {:induction false} RenegotiationsBounded(es: seq<Event>, s: State)
    requires Run(es, s)
    ensures s.g.autoStarts <= s.g.userStarts
  {
    RunSound(es, s);
  }

  /**
   In every run a start's promise settles at most once, a registered start that
   has no result is still reachable both by its timer and by the waiter list,
   and a stop or another start leaves none without a result.
   */
  lemma {:induction false} WaitersSettleOnce(es: seq<Event>, s: State, e: Event)
    requires Run(es, s) && Enabled(s, e)
    ensures forall w <- s.g.results :: w in Step(s, e).g.results && Step(s, e).g.results[w] == s.g.results[w]
    ensures forall w <- s.g.registered :: w !in s.g.results ==> w in s.o.waiters && Enabled(s, StartTimeout(w))
    ensures e.UserStop? || e.UserStart? ==> forall w <- s.g.registered :: w in Step(s, e).g.results
  {
    RunSound(es, s);
    StepKeeps(s, e);
    match e
    case UserStop => StopKeeps(s);
    case UserStart(online) => StartKeeps(s, false, online);
    case _ =>
  }

  // ---------------------------------------------------------------- runs one event at a time

  lemma LastStep(es: seq<Event>, s: State) returns (r: State)
    requires Run(es, s) && es != []
    ensures Run(es[..|es| - 1], r) && Enabled(r, es[|es| - 1]) && s == Step(r, es[|es| - 1])
  {
    var n := |es| - 1;
    r :| Run(es[..n], r) && Enabled(r, es[n]) && s == Step(r, es[n]);
  }

  lemma {:induction false} RunDeterministic(es: seq<Event>, s: State, s': State)
    requires Run(es, s) && Run(es, s')
    ensures s == s'
    decreases |es|
  {
    if es != [] {
      var n := |es| - 1;
      var r := LastStep(es, s);
      var r' := LastStep(es, s');
      RunDeterministic(es[..n], r, r');
    }
  }

  lemma {:induction false} RunPrefix(es: seq<Event>, s: State, i: nat) returns (r: State)
    requires Run(es, s) && i <= |es|
    ensures Run(es[..i], r)
    decreases |es|
  {
    if i == |es| {
      r := s;
      assert es[..i] == es;
    } else {
      var n := |es| - 1;
      var q := LastStep(es, s);
      r := RunPrefix(es[..n], q, i);
      assert es[..n][..i] == es[..i];
    }
  }

  // Where a run has got to, its next event can happen.
  lemma RunContinues(es: seq<Event>, i: nat, s: State)
    requires (exists end :: Run(es, end)) && i < |es| && Run(es[..i], s)
    ensures Enabled(s, es[i]) && Run(es[..i + 1], Step(s, es[i]))
  {
    var end :| Run(es, end);
    var next := RunPrefix(es, end, i + 1);
    var r := LastStep(es[..i + 1], next);
    assert es[..i + 1][..i] == es[..i];
    RunDeterministic(es[..i], r, s);
  }
}
