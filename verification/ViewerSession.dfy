/** The session object itself: its methods update fields, and each refines a transition. */
module ViewerSession {
  import opened Basics
  import M = ViewerModel
  import P = ViewerProofs
  import O = ViewerOwnership

  class StreamSession {
    var sessionToken: nat
    var pc: Option<nat>
    var ws: Option<nat>
    var pendingCandidates: seq<M.Candidate>
    var hasRemoteDesc: bool
    var isApplyingRemoteAnswer: bool
    var startWaiters: seq<nat>
    var incompatibleRetryCount: nat
    var browser: M.Browser
    var log: M.Log

    function View(): M.State
      reads this
    {
      M.State(
        M.Session(sessionToken, pc, ws, pendingCandidates, hasRemoteDesc, isApplyingRemoteAnswer,
                  startWaiters, incompatibleRetryCount),
        browser, log)
    }

    constructor ()
      ensures View() == M.INIT
    {
      sessionToken, pc, ws := 0, None, None;
      pendingCandidates, hasRemoteDesc, isApplyingRemoteAnswer := [], false, false;
      startWaiters, incompatibleRetryCount := [], 0;
      browser, log := M.INIT.b, M.INIT.g;
    }

    // The list is taken off the object before any waiter is called.
    method ResolveStartWaiters(value: bool)
      modifies this
      ensures View() == M.ResolveStartWaiters(old(View()), value)
    {
      var waiters := startWaiters;
      startWaiters := [];
      var before, results := log.results, log.results;
      for i := 0 to |waiters|
        invariant results == before + map w | w in waiters[..i] && w !in before :: value
      {
        assert waiters[..i + 1] == waiters[..i] + [waiters[i]];
        if waiters[i] !in results {
          results := results[waiters[i] := value];
        }
      }
      assert waiters[..|waiters|] == waiters;
      log := log.(results := results);
    }

    method Await(t: M.Task)
      modifies this`browser
      ensures View() == M.AddTask(old(View()), t)
    {
      browser := browser.(tasks := browser.tasks[browser.nextTask := t], nextTask := browser.nextTask + 1);
    }

    method Stop()
      requires M.Handles(View())
      modifies this
      ensures View() == M.Stop(old(View()))
    {
      sessionToken := sessionToken + 1;
      pendingCandidates := [];
      hasRemoteDesc := false;
      isApplyingRemoteAnswer := false;
      if ws.Some? {
        browser := M.CloseSocket(browser, ws.value);
        ws := None;
      }
      if pc.Some? {
        browser := M.ClosePeer(browser, pc.value);
        pc := None;
      }
      log := log.(seen := multiset{}, handed := multiset{}, drained := 0, flushFailed := false);
      ResolveStartWaiters(false);
    }

    method Start(isRetry: bool, online: bool)
      requires M.Handles(View())
      modifies this
      ensures View() == M.Start(old(View()), isRetry, online)
    {
      Stop();
      if !isRetry {
        incompatibleRetryCount := 0;
        log := log.(userStarts := log.userStarts + 1);
      } else {
        log := log.(autoStarts := log.autoStarts + 1);
      }
      sessionToken := sessionToken + 1;
      if !online {
        ResolveStartWaiters(false);
        return;
      }
      log := log.(starts := log.starts + [sessionToken]);
      Await(M.Fetch(|log.starts| - 1, sessionToken));
    }

    // The continuation of start: connect and register a waiter, or give up.
    method AfterFetch(start: nat, token: nat, outcome: M.FetchOutcome)
      modifies this
      ensures View() == M.AfterFetch(old(View()), start, token, outcome)
    {
      if !outcome.Failed? {
        pc := Some(|browser.peers|);
        browser := browser.(peers := browser.peers + [M.Peer(token, true, false, false)]);
      }
      if outcome.Connected? {
        ws := Some(|browser.sockets|);
        browser := browser.(sockets := browser.sockets + [M.Socket(token, true)]);
        startWaiters := startWaiters + [start];
        log := log.(registered := log.registered + {start});
      } else {
        ResolveStartWaiters(false);
        log := log.(results := log.results[start := false]);
      }
    }

    method OnTrack(token: nat)
      modifies this
      ensures View() == M.OnTrack(old(View()), token)
    {
      if token != sessionToken { return; }
      log := log.(tracked := log.tracked + {token});
      ResolveStartWaiters(true);
    }

    // The connection failed or dropped, or the socket closed.
    method OnLost(token: nat)
      modifies this
      ensures View() == M.OnLost(old(View()), token)
    {
      if token != sessionToken { return; }
      ResolveStartWaiters(false);
    }

    method OnSocketOpen(token: nat)
      modifies this
      ensures View() == M.OnSocketOpen(old(View()), token)
    {
      if token != sessionToken || pc.None? { return; }
      Await(M.CreateOffer(pc.value, token));
    }

    method OnMessage(token: nat, kind: M.MessageKind)
      requires M.Handles(View())
      modifies this
      ensures View() == M.OnMessage(old(View()), token, kind)
    {
      if token != sessionToken || pc.None? { return; }
      match kind
      case Ignored =>
      case Malformed =>
        ResolveStartWaiters(false);
      case Answer(wellFormed) =>
        if hasRemoteDesc || isApplyingRemoteAnswer || !browser.peers[pc.value].offered { return; }
        isApplyingRemoteAnswer := true;
        if wellFormed {
          Await(M.SetRemote(pc.value, token));
        } else {
          AnswerFailed(token, false);
        }
      case IceCandidate(c) =>
        log := log.(seen := log.seen + multiset{c});
        if !hasRemoteDesc {
          pendingCandidates := pendingCandidates + [c];
        } else if browser.peers[pc.value].remote {
          log := log.(handed := log.handed + multiset{c});
          Await(M.AddOne(pc.value, token));
        }
    }

    // setRemoteDescription fulfilled: the browser updated the peer, then the flush begins.
    method AfterRemote(peer: nat, token: nat)
      requires peer < |browser.peers|
      modifies this
      ensures View() == M.AfterRemote(old(View()), peer, token)
    {
      browser := browser.(peers := browser.peers[peer := browser.peers[peer].(offered := false, remote := true)]);
      log := log.(answers := log.answers + multiset{token});
      hasRemoteDesc := true;
      FlushFrom(token, pendingCandidates, 0);
    }

    // One turn of the loop over the buffered candidates.
    method FlushFrom(token: nat, queue: seq<M.Candidate>, index: nat)
      modifies this
      ensures View() == M.FlushFrom(old(View()), token, queue, index)
    {
      if index >= |queue| {
        pendingCandidates := [];
        log := log.(drained := 0);
        isApplyingRemoteAnswer := false;
      } else if pc.None? {
        log := log.(flushFailed := true);
        AnswerFailed(token, false);
      } else {
        log := log.(handed := log.handed + multiset{queue[index]}, drained := index + 1);
        Await(M.Flush(pc.value, token, queue, index));
      }
    }

    method AnswerFailed(token: nat, incompatible: bool)
      modifies this
      ensures View() == M.AnswerFailed(old(View()), token, incompatible)
    {
      ResolveStartWaiters(false);
      if incompatible && incompatibleRetryCount < 1 {
        incompatibleRetryCount := incompatibleRetryCount + 1;
        browser := browser.(timers := browser.timers + multiset{token});
        log := log.(scheduled := log.scheduled + 1);
      }
      isApplyingRemoteAnswer := false;
    }

    // A promise of a peer connection settled: its continuation.
    method Continue(t: M.Task, how: M.Settlement)
      requires !t.Fetch? && t.peer < |browser.peers|
      modifies this
      ensures View() == M.Continue(old(View()), t, how)
    {
      match t
      case CreateOffer(_, token) =>
        if how.Fulfilled? && pc.Some? { Await(M.SetLocal(pc.value, token)); }
      case SetLocal(p, _) =>
        if how.Fulfilled? {
          browser := browser.(peers := browser.peers[p := browser.peers[p].(offered := true)]);
        }
      case AddOne(_, _) =>
        if how.Rejected? { ResolveStartWaiters(false); }
      case SetRemote(p, token) =>
        if how.Fulfilled? { AfterRemote(p, token); } else { AnswerFailed(token, how.incompatible); }
      case Flush(_, token, queue, index) =>
        if how.Fulfilled? {
          FlushFrom(token, queue, index + 1);
        } else {
          log := log.(flushFailed := true);
          AnswerFailed(token, how.incompatible);
        }
    }

    method OnRetryTimer(token: nat, online: bool)
      requires M.Handles(View())
      modifies this
      ensures View() == M.OnRetryTimer(old(View()), token, online)
    {
      browser := browser.(timers := browser.timers - multiset{token});
      if token != sessionToken { return; }
      Start(true, online);
    }

    // A promise has settled: nobody awaits it any more.
    method Settled(i: nat)
      modifies this`browser
      ensures View() == M.DropTask(old(View()), i)
    {
      browser := browser.(tasks := browser.tasks - {i});
    }

    // One event of the page or the browser.
    method Handle(e: M.Event)
      requires M.Enabled(View(), e)
      modifies this
      ensures View() == M.Step(old(View()), e)
    {
      match e
      case UserStart(online) => Start(false, online);
      case UserStop => Stop();
      case RetryTimer(token, online) => OnRetryTimer(token, online);
      case StartTimeout(w) => log := log.(results := log.results[w := false]);
      case FetchDone(i, outcome) =>
        var t := browser.tasks[i];
        Settled(i);
        AfterFetch(t.start, t.token, outcome);
      case SocketOpen(k) => OnSocketOpen(browser.sockets[k].token);
      case SocketMessage(k, kind) => OnMessage(browser.sockets[k].token, kind);
      case SocketClose(k) =>
        browser := M.CloseSocket(browser, k);
        OnLost(browser.sockets[k].token);
      case Track(p) => OnTrack(browser.peers[p].token);
      case ConnectionState(p, broken) =>
        if broken { OnLost(browser.peers[p].token); }
      case Settle(i, how) =>
        var t := browser.tasks[i];
        Settled(i);
        Continue(t, how);
    }

    /**
     The object through a whole run. Automatic renegotiations never outnumber user starts, and a
     start still waiting is on the list. If no start or stop ran while a fetch was outstanding,
     every candidate seen was handed over or waits in pendingCandidates, pc and ws are the only
     open connections, and at most one answer was applied per session.
     */
    method Drive(es: seq<M.Event>)
      requires View() == M.INIT && exists s :: M.Run(es, s)
      modifies this
      ensures M.Run(es, View())
      ensures log.autoStarts <= log.userStarts
      ensures forall w <- log.registered :: w in log.results || w in startWaiters
      ensures (exists s :: M.SeparateRun(es, s)) ==>
                && log.drained <= |pendingCandidates|
                && log.seen == log.handed + multiset(pendingCandidates[log.drained..])
                && (hasRemoteDesc && !isApplyingRemoteAnswer && !log.flushFailed ==> log.seen == log.handed)
      ensures (exists s :: M.SeparateRun(es, s)) ==>
                && (forall p :: 0 <= p < |browser.peers| && browser.peers[p].open ==> pc == Some(p))
                && (forall k :: 0 <= k < |browser.sockets| && browser.sockets[k].open ==> ws == Some(k))
                && (forall t :: log.answers[t] <= 1)
    {
      for i := 0 to |es|
        invariant M.Run(es[..i], View())
      {
        P.RunContinues(es, i, View());
        Handle(es[i]);
      }
      assert es[..|es|] == es;
      RunFacts(es, View());
    }
  }

  lemma RunFacts(es: seq<M.Event>, s: M.State)
    requires M.Run(es, s)
    ensures s.g.autoStarts <= s.g.userStarts
    ensures forall w <- s.g.registered :: w in s.g.results || w in s.o.waiters
    ensures (exists s' :: M.SeparateRun(es, s')) ==> SeparateFacts(s)
  {
    P.RunSound(es, s);
    forall s' | M.SeparateRun(es, s')
      ensures SeparateFacts(s)
    {
      SeparateRunFacts(es, s');
      P.RunDeterministic(es, s, s');
    }
  }

  lemma SeparateRunFacts(es: seq<M.Event>, s: M.State)
    requires M.SeparateRun(es, s)
    ensures M.Run(es, s) && SeparateFacts(s)
  {
    O.SeparateRunInv(es, s);
    O.CandidatesConserved(es, s);
    O.SessionOwnsItsConnections(es, s);
    O.AnswerExclusive(es, s);
  }

  ghost predicate SeparateFacts(s: M.State) {
    && s.g.drained <= |s.o.pending|
    && s.g.seen == s.g.handed + multiset(s.o.pending[s.g.drained..])
    && (s.o.hasRemote && !s.o.applying && !s.g.flushFailed ==> s.g.seen == s.g.handed)
    && (forall p :: 0 <= p < |s.b.peers| && s.b.peers[p].open ==> s.o.pc == Some(p))
    && (forall k :: 0 <= k < |s.b.sockets| && s.b.sockets[k].open ==> s.o.ws == Some(k))
    && (forall t :: s.g.answers[t] <= 1)
  }
}
