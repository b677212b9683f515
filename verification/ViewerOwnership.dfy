/**
 What the session protocol keeps in every run in which no start or stop happens
 while the fetch of a start is outstanding, and how each claim fails without that.
 */
module ViewerOwnership {
  import opened Basics
  import opened ViewerModel
  import opened ViewerProofs

  // Only the object's own peer and socket are open, and they carry its token.
  ghost predicate Owned(peers: seq<Peer>, sockets: seq<Socket>, pc: Option<nat>, ws: Option<nat>, token: nat) {
    && (forall p :: 0 <= p < |peers| ==> peers[p].token <= token && (peers[p].open ==> pc == Some(p)))
    && (forall k :: 0 <= k < |sockets| ==> sockets[k].token <= token && (sockets[k].open ==> ws == Some(k)))
    && (pc.Some? ==> pc.value < |peers| && peers[pc.value].token == token)
    && (ws.Some? ==> ws.value < |sockets| && sockets[ws.value].token == token)
  }

  // Every unsettled promise belongs to the current session.
  ghost predicate Current(tasks: map<nat, Task>, pc: Option<nat>, ws: Option<nat>, token: nat, waiters: seq<nat>) {
    && (forall i <- tasks :: tasks[i].token == token)
    && (forall i <- tasks :: !tasks[i].Fetch? ==> pc == Some(tasks[i].peer))
    && (forall i <- tasks :: tasks[i].Fetch? ==> pc.None? && ws.None? && waiters == [])
    && (forall i <- tasks, j <- tasks :: tasks[i].Fetch? && tasks[j].Fetch? ==> i == j)
  }

  predicate ForAnswer(t: Task) {
    t.SetRemote? || t.Flush?
  }

  // The answer in progress, if any, and how far its flush has come.
  ghost predicate Answering(tasks: map<nat, Task>, applying: bool, hasRemote: bool,
                            pending: seq<Candidate>, drained: nat, flushFailed: bool)
  {
    && (applying <==> exists i :: i in tasks && ForAnswer(tasks[i]))
    && (forall i <- tasks, j <- tasks :: ForAnswer(tasks[i]) && ForAnswer(tasks[j]) ==> i == j)
    && (forall i <- tasks :: tasks[i].SetRemote? ==> !hasRemote)
    && (forall i <- tasks :: tasks[i].Flush? ==>
          hasRemote && tasks[i].queue == pending && tasks[i].index < |pending| && drained == tasks[i].index + 1)
    && drained <= |pending|
    && (!hasRemote ==> drained == 0)
    && (hasRemote && !applying && !flushFailed ==> pending == [])
  }

  ghost predicate Described(peers: seq<Peer>, pc: Option<nat>, hasRemote: bool) {
    if pc.None? then !hasRemote else pc.value < |peers| && peers[pc.value].remote == hasRemote
  }

  // Each candidate is either still to be handed over or was handed over once.
  ghost predicate Conserved(seen: multiset<Candidate>, handed: multiset<Candidate>,
                            pending: seq<Candidate>, drained: nat)
  {
    drained <= |pending| && seen == handed + multiset(pending[drained..])
  }

  ghost predicate Answered(answers: multiset<nat>, token: nat, hasRemote: bool) {
    && answers[token] == (if hasRemote then 1 else 0)
    && (forall t :: answers[t] <= 1)
    && (forall t :: t > token ==> answers[t] == 0)
  }

  // Waiters belong to the current session; true is only ever said after its track event.
  ghost predicate Truthful(waiters: seq<nat>, starts: seq<nat>, results: map<nat, bool>, tracked: set<nat>, token: nat) {
    && (forall w <- waiters :: w < |starts| && starts[w] == token)
    && (forall w <- results :: w < |starts| && (results[w] ==> starts[w] in tracked))
  }

  ghost predicate Fresh(s: State) {
    s.b.nextTask !in s.b.tasks
  }

  ghost predicate Inv(s: State) {
    && Owned(s.b.peers, s.b.sockets, s.o.pc, s.o.ws, s.o.token)
    && Current(s.b.tasks, s.o.pc, s.o.ws, s.o.token, s.o.waiters)
    && Answering(s.b.tasks, s.o.applying, s.o.hasRemote, s.o.pending, s.g.drained, s.g.flushFailed)
    && Described(s.b.peers, s.o.pc, s.o.hasRemote)
    && Conserved(s.g.seen, s.g.handed, s.o.pending, s.g.drained)
    && Answered(s.g.answers, s.o.token, s.o.hasRemote)
    && Truthful(s.o.waiters, s.g.starts, s.g.results, s.g.tracked, s.o.token)
  }

  // ---------------------------------------------------------------- one stretch at a time

  lemma ResolveInv(s: State, value: bool)
    requires Fresh(s) && Inv(s)
    requires value ==> s.o.token in s.g.tracked
    ensures Inv(ResolveStartWaiters(s, value))
  {
  }

  lemma StopInv(s: State)
    requires Fresh(s) && Inv(s) && NoFetch(s)
    ensures Inv(Stop(s)) && Stop(s).b.tasks == map[] && Stop(s).o.waiters == []
    ensures forall t :: t > s.o.token ==> Stop(s).g.answers[t] == 0
  {
    assert Stop(s).b.tasks == map[];
  }

  lemma StartInv(s: State, isRetry: bool, online: bool)
    requires Fresh(s) && Inv(s) && NoFetch(s)
    ensures Inv(Start(s, isRetry, online))
  {
    BeginInv(s, isRetry);
    if online {
      SendFetchInv(Begin(s, isRetry));
    } else {
      ResolveInv(Begin(s, isRetry), false);
    }
  }

  lemma BeginInv(s: State, isRetry: bool)
    requires Fresh(s) && Inv(s) && NoFetch(s)
    ensures Inv(Begin(s, isRetry)) && Begin(s, isRetry).b.tasks == map[] && Begin(s, isRetry).o.waiters == []
  {
    StopInv(s);
  }

  lemma SendFetchInv(s: State)
    requires Inv(s) && s.b.tasks == map[] && s.o.waiters == [] && s.o.pc.None? && s.o.ws.None?
    ensures Inv(SendFetch(s))
  {
  }

  lemma FetchInv(s: State, i: nat, outcome: FetchOutcome)
    requires Sound(s) && Inv(s) && i in s.b.tasks && s.b.tasks[i].Fetch?
    ensures Inv(AfterFetch(DropTask(s, i), s.b.tasks[i].start, s.b.tasks[i].token, outcome))
  {
    var s0, start := DropTask(s, i), s.b.tasks[i].start;
    FetchStands(s, i);
    match outcome
    case Failed => StartFailedInv(s0, start);
    case SocketThrows =>
      WithPeerInv(s0);
      StartFailedInv(WithPeer(s0, s.o.token), start);
    case Connected => ConnectedInv(s0, start);
  }

  // While a start's fetch is outstanding nothing else is.
  lemma FetchStands(s: State, i: nat)
    requires Sound(s) && Inv(s) && i in s.b.tasks && s.b.tasks[i].Fetch?
    ensures Inv(DropTask(s, i)) && DropTask(s, i).b.tasks == map[]
    ensures !s.o.applying && !s.o.hasRemote && s.o.pc.None? && s.o.ws.None? && s.o.waiters == []
    ensures s.b.tasks[i].start < |s.g.starts| && s.g.starts[s.b.tasks[i].start] == s.b.tasks[i].token == s.o.token
  {
    assert DropTask(s, i).b.tasks == map[];
  }

  lemma WithPeerInv(s: State)
    requires Inv(s) && s.b.tasks == map[] && s.o.pc.None? && s.o.waiters == []
    ensures Inv(WithPeer(s, s.o.token))
  {
    var s' := WithPeer(s, s.o.token);
    assert Owned(s'.b.peers, s'.b.sockets, s'.o.pc, s'.o.ws, s'.o.token);
  }

  lemma StartFailedInv(s: State, start: nat)
    requires Inv(s) && s.b.tasks == map[] && s.o.waiters == [] && start < |s.g.starts|
    ensures Inv(StartFailed(s, start))
  {
  }

  lemma ConnectedInv(s: State, start: nat)
    requires Inv(s) && s.b.tasks == map[] && s.o.pc.None? && s.o.ws.None? && s.o.waiters == []
    requires start < |s.g.starts| && s.g.starts[start] == s.o.token
    ensures Inv(AfterFetch(s, start, s.o.token, Connected))
  {
    WithPeerInv(s);
    var s' := AfterFetch(s, start, s.o.token, Connected);
    assert Owned(s'.b.peers, s'.b.sockets, s'.o.pc, s'.o.ws, s'.o.token);
  }

  lemma AddTaskInv(s: State, t: Task)
    requires Fresh(s) && Inv(s) && s.o.pc.Some? && !t.Fetch? && !ForAnswer(t) && t.peer == s.o.pc.value && t.token == s.o.token
    ensures Inv(AddTask(s, t))
  {
    var tasks := AddTask(s, t).b.tasks;
    assert forall i <- s.b.tasks :: tasks[i] == s.b.tasks[i];
  }

  lemma DropTaskInv(s: State, i: nat)
    requires Fresh(s) && Inv(s) && i in s.b.tasks && !ForAnswer(s.b.tasks[i])
    ensures Inv(DropTask(s, i))
  {
    var tasks := DropTask(s, i).b.tasks;
    assert forall j <- tasks :: tasks[j] == s.b.tasks[j];
    if s.o.applying {
      var j :| j in s.b.tasks && ForAnswer(s.b.tasks[j]);
      assert j in tasks;
    }
  }

  lemma MessageInv(s: State, token: nat, kind: MessageKind)
    requires Fresh(s) && Inv(s)
    ensures Inv(OnMessage(s, token, kind))
  {
    if token == s.o.token && s.o.pc.Some? {
      match kind
      case Ignored =>
      case Malformed => ResolveInv(s, false);
      case Answer(wellFormed) => AnswerInv(s, token, wellFormed);
      case IceCandidate(c) => CandidateInv(s, token, c);
    }
  }

  lemma AnswerInv(s: State, token: nat, wellFormed: bool)
    requires Fresh(s) && Inv(s) && s.o.pc.Some? && token == s.o.token
    ensures Inv(OnAnswer(s, token, wellFormed))
  {
    ResolveInv(s, false);
    if !s.o.hasRemote && !s.o.applying && s.b.peers[s.o.pc.value].offered && wellFormed {
      var n := s.b.nextTask;
      var tasks := s.b.tasks[n := SetRemote(s.o.pc.value, token)];
      assert tasks[n].SetRemote? && forall i <- s.b.tasks :: tasks[i] == s.b.tasks[i];
    }
  }

  lemma CandidateInv(s: State, token: nat, c: Candidate)
    requires Fresh(s) && Inv(s) && s.o.pc.Some? && token == s.o.token
    ensures Inv(OnCandidate(s, token, c))
  {
    var o := s.o;
    if o.hasRemote {
      var s1 := s.(g := s.g.(seen := s.g.seen + multiset{c}, handed := s.g.handed + multiset{c}));
      AddTaskInv(s1, AddOne(o.pc.value, token));
    } else {
      assert (o.pending + [c])[0..] == o.pending[0..] + [c];
    }
  }

  // An answer's promise settled: it was the only one, so none is left.
  lemma AnswerDropped(s: State, i: nat)
    requires Fresh(s) && Inv(s) && i in s.b.tasks && ForAnswer(s.b.tasks[i])
    ensures forall j <- DropTask(s, i).b.tasks :: !ForAnswer(DropTask(s, i).b.tasks[j])
    ensures Fresh(DropTask(s, i)) && s.o.applying && s.o.pc.Some?
    ensures Current(DropTask(s, i).b.tasks, s.o.pc, s.o.ws, s.o.token, s.o.waiters)
  {
  }

  lemma FlushStands(s: State, i: nat)
    requires Inv(s) && i in s.b.tasks && s.b.tasks[i].Flush?
    ensures s.b.tasks[i].queue == s.o.pending && s.b.tasks[i].index + 1 == s.g.drained && s.o.hasRemote
  {
  }

  lemma AnswerFailedInv(s: State, i: nat, incompatible: bool)
    requires Fresh(s) && Inv(s) && i in s.b.tasks && ForAnswer(s.b.tasks[i])
    ensures var s0 := DropTask(s, i);
            var s1 := if s.b.tasks[i].Flush? then s0.(g := s0.g.(flushFailed := true)) else s0;
            Inv(AnswerFailed(s1, s.o.token, incompatible))
  {
    AnswerDropped(s, i);
    var s0 := DropTask(s, i);
    var s1 := if s.b.tasks[i].Flush? then s0.(g := s0.g.(flushFailed := true)) else s0;
  }

  lemma RemoteInv(s: State, i: nat)
    requires Fresh(s) && Inv(s) && i in s.b.tasks && s.b.tasks[i].SetRemote?
    ensures Inv(AfterRemote(DropTask(s, i), s.b.tasks[i].peer, s.o.token))
  {
    AnswerDropped(s, i);
    var s0, p := DropTask(s, i), s.b.tasks[i].peer;
    var s1 := State(s.o.(hasRemote := true),
                    s0.b.(peers := s.b.peers[p := s.b.peers[p].(offered := false, remote := true)]),
                    s.g.(answers := s.g.answers + multiset{s.o.token}));
    assert Owned(s1.b.peers, s1.b.sockets, s1.o.pc, s1.o.ws, s1.o.token);
    FlushInv(s1, s.o.pending, 0);
  }

  // The flush hands over the candidate at `index`, or finishes.
  lemma FlushInv(s: State, queue: seq<Candidate>, index: nat)
    requires Fresh(s) && s.o.pc.Some? && s.o.applying && forall j <- s.b.tasks :: !ForAnswer(s.b.tasks[j])
    requires queue == s.o.pending && index == s.g.drained && s.o.hasRemote
    requires Owned(s.b.peers, s.b.sockets, s.o.pc, s.o.ws, s.o.token)
    requires Current(s.b.tasks, s.o.pc, s.o.ws, s.o.token, s.o.waiters)
    requires Described(s.b.peers, s.o.pc, s.o.hasRemote)
    requires Conserved(s.g.seen, s.g.handed, s.o.pending, s.g.drained)
    requires Answered(s.g.answers, s.o.token, s.o.hasRemote)
    requires Truthful(s.o.waiters, s.g.starts, s.g.results, s.g.tracked, s.o.token)
    ensures Inv(FlushFrom(s, s.o.token, queue, index))
  {
    if index < |queue| {
      HandOver(s.g.seen, s.g.handed, queue, index);
      FlushTask(s.b.tasks, s.b.nextTask, Flush(s.o.pc.value, s.o.token, queue, index), s.o.pc, s.o.ws, s.o.waiters);
      assert Answering(s.b.tasks[s.b.nextTask := Flush(s.o.pc.value, s.o.token, queue, index)],
                       true, true, queue, index + 1, s.g.flushFailed);
    }
  }

  lemma HandOver(seen: multiset<Candidate>, handed: multiset<Candidate>, queue: seq<Candidate>, index: nat)
    requires index < |queue| && Conserved(seen, handed, queue, index)
    ensures Conserved(seen, handed + multiset{queue[index]}, queue, index + 1)
  {
    assert queue[index..] == [queue[index]] + queue[index + 1..];
  }

  lemma FlushTask(tasks: map<nat, Task>, n: nat, t: Task, pc: Option<nat>, ws: Option<nat>, waiters: seq<nat>)
    requires n !in tasks && t.Flush? && pc == Some(t.peer) && Current(tasks, pc, ws, t.token, waiters)
    requires forall j <- tasks :: !ForAnswer(tasks[j])
    ensures Current(tasks[n := t], pc, ws, t.token, waiters)
    ensures tasks[n := t][n].Flush? && forall i <- tasks :: tasks[n := t][i] == tasks[i]
  {
  }

  lemma FlushedOneInv(s: State, i: nat)
    requires Fresh(s) && Inv(s) && i in s.b.tasks && s.b.tasks[i].Flush?
    ensures Inv(FlushFrom(DropTask(s, i), s.o.token, s.b.tasks[i].queue, s.b.tasks[i].index + 1))
  {
    AnswerDropped(s, i);
    FlushStands(s, i);
    FlushInv(DropTask(s, i), s.o.pending, s.g.drained);
  }

  lemma SettleInv(s: State, i: nat, how: Settlement)
    requires Fresh(s) && Inv(s) && i in s.b.tasks && !s.b.tasks[i].Fetch?
    ensures Inv(Continue(DropTask(s, i), s.b.tasks[i], how))
  {
    if !ForAnswer(s.b.tasks[i]) {
      DropTaskInv(s, i);
      OtherSettledInv(DropTask(s, i), s.b.tasks[i], how);
    } else {
      AnswerSettledInv(s, i, how);
    }
  }

  lemma AnswerSettledInv(s: State, i: nat, how: Settlement)
    requires Fresh(s) && Inv(s) && i in s.b.tasks && ForAnswer(s.b.tasks[i])
    ensures Inv(Continue(DropTask(s, i), s.b.tasks[i], how))
  {
    assert s.b.tasks[i].token == s.o.token;
    if how.Rejected? {
      AnswerFailedInv(s, i, how.incompatible);
    } else if s.b.tasks[i].SetRemote? {
      RemoteInv(s, i);
    } else {
      FlushedOneInv(s, i);
    }
  }

  lemma OtherSettledInv(s: State, t: Task, how: Settlement)
    requires Fresh(s) && Inv(s) && !t.Fetch? && !ForAnswer(t) && s.o.pc == Some(t.peer) && t.token == s.o.token
    ensures Inv(Continue(s, t, how))
  {
    match t
    case CreateOffer(_, token) => AddTaskInv(s, SetLocal(s.o.pc.value, token));
    case SetLocal(p, _) => LocalInv(s, p);
    case AddOne(_, _) => ResolveInv(s, false);
  }

  lemma LocalInv(s: State, p: nat)
    requires Fresh(s) && Inv(s) && p < |s.b.peers|
    ensures Inv(s.(b := s.b.(peers := s.b.peers[p := s.b.peers[p].(offered := true)])))
  {
    var peers := s.b.peers[p := s.b.peers[p].(offered := true)];
    assert Owned(peers, s.b.sockets, s.o.pc, s.o.ws, s.o.token);
  }

  lemma StepInv(s: State, e: Event)
    requires Sound(s) && Inv(s) && Enabled(s, e) && Separate(s, e)
    ensures Inv(Step(s, e))
  {
    match e
    case UserStart(online) =>
      StartInv(s, false, online);
    case UserStop => StopInv(s);
    case FetchDone(i, outcome) => FetchInv(s, i, outcome);
    case SocketMessage(k, kind) => MessageInv(s, s.b.sockets[k].token, kind);
    case Settle(i, how) => SettleInv(s, i, how);
    case RetryTimer(token, online) =>
      if token == s.o.token { StartInv(s.(b := s.b.(timers := s.b.timers - multiset{token})), true, online); }
    case _ => CallbackInv(s, e);
  }

  lemma CallbackInv(s: State, e: Event)
    requires Sound(s) && Inv(s) && Enabled(s, e) && Separate(s, e)
    requires e.StartTimeout? || e.SocketOpen? || e.SocketClose? || e.Track? || e.ConnectionState?
    ensures Inv(Step(s, e))
  {
    match e
    case StartTimeout(w) => TimeoutInv(s, w);
    case SocketOpen(k) =>
      if s.b.sockets[k].token == s.o.token && s.o.pc.Some? { AddTaskInv(s, CreateOffer(s.o.pc.value, s.o.token)); }
    case SocketClose(k) => SocketCloseInv(s, k);
    case Track(p) => TrackInv(s, s.b.peers[p].token);
    case ConnectionState(p, _) => ResolveInv(s, false);
  }

  lemma TimeoutInv(s: State, w: nat)
    requires Sound(s) && Inv(s) && Enabled(s, StartTimeout(w))
    ensures Inv(Step(s, StartTimeout(w)))
  {
  }

  lemma SocketCloseInv(s: State, k: nat)
    requires Fresh(s) && Inv(s) && k < |s.b.sockets|
    ensures Inv(OnLost(s.(b := CloseSocket(s.b, k)), s.b.sockets[k].token))
  {
    ResolveInv(s.(b := CloseSocket(s.b, k)), false);
  }

  lemma TrackInv(s: State, token: nat)
    requires Fresh(s) && Inv(s)
    ensures Inv(OnTrack(s, token))
  {
    if token == s.o.token { ResolveInv(s.(g := s.g.(tracked := s.g.tracked + {token})), true); }
  }

  lemma {:induction false} SeparateRunInv(es: seq<Event>, s: State)
    requires SeparateRun(es, s)
    ensures Run(es, s) && Sound(s) && Inv(s)
    decreases |es|
  {
    if es != [] {
      var n := |es| - 1;
      var r :| SeparateRun(es[..n], r) && Enabled(r, es[n]) && Separate(r, es[n]) && s == Step(r, es[n]);
      SeparateRunInv(es[..n], r);
      StepKeeps(r, es[n]);
      StepInv(r, es[n]);
    }
  }

  // ---------------------------------------------------------------- theorems

  /**
   ICE candidate conservation.  The candidates handled since the last stop are,
   occurrence by occurrence, those handed to addIceCandidate and those the list
   still holds for a flush (all of it before the answer, the rest of it during the
   flush); and once an answer is applied with no flush cut short, none is waiting.
   */
  lemma {:induction false} CandidatesConserved(es: seq<Event>, s: State)
    requires SeparateRun(es, s)
    ensures s.g.drained <= |s.o.pending|
    ensures s.g.seen == s.g.handed + multiset(s.o.pending[s.g.drained..])
    ensures !s.o.hasRemote ==> s.g.drained == 0
    ensures s.o.hasRemote && !s.o.applying && !s.g.flushFailed ==> s.g.seen == s.g.handed
  {
    SeparateRunInv(es, s);
    assert s.o.pending == [] ==> s.o.pending[s.g.drained..] == [];
  }

  predicate SettingRemote(s: State, i: nat) {
    i in s.b.tasks && s.b.tasks[i].SetRemote?
  }

  /** At most one setRemoteDescription is in flight, and at most one succeeds per session token. */
  lemma {:induction false} AnswerExclusive(es: seq<Event>, s: State)
    requires SeparateRun(es, s)
    ensures forall i, j :: SettingRemote(s, i) && SettingRemote(s, j) ==> i == j
    ensures forall i :: SettingRemote(s, i) ==> s.o.applying && s.b.tasks[i].token == s.o.token && s.g.answers[s.o.token] == 0
    ensures forall t :: s.g.answers[t] <= 1
  {
    SeparateRunInv(es, s);
  }

  // The session token captured by the callback that an event runs.
  ghost function TokenOf(s: State, e: Event): Option<nat>
    requires Enabled(s, e)
  {
    match e
    case RetryTimer(token, _) => Some(token)
    case FetchDone(i, _) => Some(s.b.tasks[i].token)
    case SocketOpen(k) => Some(s.b.sockets[k].token)
    case SocketMessage(k, _) => Some(s.b.sockets[k].token)
    case SocketClose(k) => Some(s.b.sockets[k].token)
    case Track(p) => Some(s.b.peers[p].token)
    case ConnectionState(p, _) => Some(s.b.peers[p].token)
    case Settle(i, _) => Some(s.b.tasks[i].token)
    case _ => None
  }

  /** A callback of an older session changes no field of the object. */
  lemma {:induction false} OldCallbacksInert(es: seq<Event>, s: State, e: Event)
    requires SeparateRun(es, s) && Enabled(s, e)
    requires TokenOf(s, e).Some? && TokenOf(s, e).value != s.o.token
    ensures Step(s, e).o == s.o
  {
    SeparateRunInv(es, s);
  }

  /**
   At most one peer connection and one socket are open, both of the current
   session, and a start that was told true saw the track event of its own session.
   */
  lemma {:induction false} SessionOwnsItsConnections(es: seq<Event>, s: State)
    requires SeparateRun(es, s)
    ensures forall p :: 0 <= p < |s.b.peers| && s.b.peers[p].open ==> s.o.pc == Some(p) && s.b.peers[p].token == s.o.token
    ensures forall k :: 0 <= k < |s.b.sockets| && s.b.sockets[k].open ==> s.o.ws == Some(k) && s.b.sockets[k].token == s.o.token
    ensures forall w <- s.g.results :: w < |s.g.starts| && (s.g.results[w] ==> s.g.starts[w] in s.g.tracked)
  {
    SeparateRunInv(es, s);
  }

  // ---------------------------------------------------------------- overlapping starts

  /**
   Connecting after the fetch does not look at the token again.  From a state whose
   open connections are the object's own, it leaves them so exactly when nothing is
   connected yet and no start or stop has come in between.
   */
  lemma ConnectKeepsOwnershipExactly(s: State, i: nat)
    requires Sound(s) && i in s.b.tasks && s.b.tasks[i].Fetch?
    requires Owned(s.b.peers, s.b.sockets, s.o.pc, s.o.ws, s.o.token) && s.b.tasks[i].token <= s.o.token
    ensures var s' := Step(s, FetchDone(i, Connected));
            Owned(s'.b.peers, s'.b.sockets, s'.o.pc, s'.o.ws, s'.o.token) <==>
            && s.o.pc.None?
            && (s.o.ws.Some? ==> !s.b.sockets[s.o.ws.value].open)
            && s.b.tasks[i].token == s.o.token
  {
    var s' := Step(s, FetchDone(i, Connected));
    var np, nk := |s.b.peers|, |s.b.sockets|;
    assert s'.b.peers[np].open && s'.b.sockets[nk].open;
    assert forall p :: 0 <= p < np ==> s'.b.peers[p] == s.b.peers[p];
    assert forall k :: 0 <= k < nk ==> s'.b.sockets[k] == s.b.sockets[k];
    if s.o.pc.Some? { assert s'.b.peers[s.o.pc.value].open; }
    if s.o.ws.Some? { assert s'.b.sockets[s.o.ws.value] == s.b.sockets[s.o.ws.value]; }
  }

  lemma RunSnoc(es: seq<Event>, s: State, e: Event)
    requires Run(es, s) && Enabled(s, e)
    ensures Run(es + [e], Step(s, e))
  {
    assert (es + [e])[..|es|] == es;
  }

  // Two overlapping starts, the second answered first.
  const TWO_STARTS: seq<Event> := [UserStart(true)] + [UserStart(true)]
  const OVERLAP: seq<Event> := TWO_STARTS + [FetchDone(1, Connected)] + [FetchDone(0, Connected)] + [Track(0)]

  lemma TwoStarts() returns (s: State)
    ensures Run(TWO_STARTS, s) && Handles(s)
    ensures s.b.tasks == map[0 := Fetch(0, 2), 1 := Fetch(1, 4)] && s.b.peers == []
    ensures s.o.token == 4 && s.o.waiters == [] && s.g.starts == [2, 4] && s.g.results == map[] && s.g.tracked == {}
  {
    RunSnoc([], INIT, UserStart(true));
    var s1 := Step(INIT, UserStart(true));
    RunSnoc([UserStart(true)], s1, UserStart(true));
    s := Step(s1, UserStart(true));
  }

  lemma OneConnect() returns (s: State)
    ensures Run(TWO_STARTS + [FetchDone(1, Connected)], s) && Handles(s)
    ensures s.b.tasks == map[0 := Fetch(0, 2)] && s.b.peers == [Peer(4, true, false, false)]
    ensures s.o.token == 4 && s.o.waiters == [1] && s.g.starts == [2, 4] && s.g.results == map[] && s.g.tracked == {}
  {
    var s2 := TwoStarts();
    RunSnoc(TWO_STARTS, s2, FetchDone(1, Connected));
    SecondConnects(s2);
    s := Step(s2, FetchDone(1, Connected));
  }

  lemma SecondConnects(s: State)
    requires Handles(s) && s.b.tasks == map[0 := Fetch(0, 2), 1 := Fetch(1, 4)] && s.b.peers == [] && s.o.waiters == []
    ensures var s' := Step(s, FetchDone(1, Connected));
            && Handles(s') && s'.b.tasks == map[0 := Fetch(0, 2)] && s'.b.peers == [Peer(4, true, false, false)]
            && s'.o.token == s.o.token && s'.o.waiters == [1]
            && s'.g.starts == s.g.starts && s'.g.results == s.g.results && s'.g.tracked == s.g.tracked
  {
  }

  lemma TwoConnects() returns (s: State)
    ensures Run(TWO_STARTS + [FetchDone(1, Connected)] + [FetchDone(0, Connected)], s) && Handles(s)
    ensures s.b.peers == [Peer(4, true, false, false), Peer(2, true, false, false)]
    ensures s.o.token == 4 && s.o.waiters == [1, 0] && s.g.starts == [2, 4] && s.g.results == map[] && s.g.tracked == {}
  {
    var s3 := OneConnect();
    RunSnoc(TWO_STARTS + [FetchDone(1, Connected)], s3, FetchDone(0, Connected));
    s := Step(s3, FetchDone(0, Connected));
  }

  /**
   Without separation the claims above fail: this run ends with two open peer
   connections, and its first start is told true although only the second one's
   track event fired.
   */
  lemma OverlapBreaksOwnership() returns (s: State)
    ensures Run(OVERLAP, s)
    ensures |s.b.peers| == 2 && s.b.peers[0].open && s.b.peers[1].open
    ensures 0 in s.g.results && s.g.results[0] && |s.g.starts| == 2 && s.g.starts[0] !in s.g.tracked
  {
    var s4 := TwoConnects();
    RunSnoc(TWO_STARTS + [FetchDone(1, Connected)] + [FetchDone(0, Connected)], s4, Track(0));
    s := Step(s4, Track(0));
  }
}
