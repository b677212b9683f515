/**
 The API client as the object the source has: fields updated in place by its methods. Each
 method is one stretch of code between two awaits of the outside, proved equal to a function
 of ClientModel, whose runs ClientProofs, ClientBudget and ClientLogins reason about.
 */
module WyzeClient {
  import opened Basics
  import M = ClientModel
  import P = ClientProofs
  import B = ClientBudget
  import L = ClientLogins

  // How a stretch ends: with a result for whoever awaits it, or awaiting the outside.
  datatype Outcome = Passed(sig: M.Signal, floats: bool) | Held(fs: M.Stack)

  function AsNext(c: M.Client, o: Outcome): M.Next {
    match o
    case Passed(sig, floats) => M.Pass(c, sig, floats)
    case Held(fs) => M.Hold(c, fs)
  }

  class Client {
    var accessToken: string
    var refreshToken: string
    var lastLoginAttempt: int
    var loginAttemptDebounceMilliseconds: int
    const hasKeys: bool
    var tokenFile: Option<M.Pair>
    var clock: int
    var calls: seq<M.Call>   // the asynchronous calls under way or over
    ghost var logins: seq<M.LoginStart>
    ghost var known: set<M.Pair>

    ghost function View(): M.Client
      reads this
    {
      M.Client(accessToken, refreshToken, lastLoginAttempt, loginAttemptDebounceMilliseconds, tokenFile, clock,
               hasKeys, logins, known)
    }

    ghost function System(): M.System
      reads this
    {
      M.System(View(), calls)
    }

    constructor (file: Option<M.Pair>, configured: bool)
      ensures System() == M.Initial(file, configured)
    {
      calls := [];
      accessToken, refreshToken, lastLoginAttempt, loginAttemptDebounceMilliseconds := "", "", 0, 1000;
      hasKeys, tokenFile, clock := configured, file, 0;
      logins, known := [], if file.Some? then {file.value} else {};
    }

    // ---------------------------------------------------------------- tokens

    method LoadPersistedTokens(content: Option<M.Pair>, readable: bool)
      modifies this
      ensures calls == old(calls)
      ensures View() == if readable then M.Load(old(View()), content) else old(View())
    {
      if readable && content.Some? && content.value.access != "" && content.value.refresh != "" {
        accessToken := content.value.access;
        refreshToken := content.value.refresh;
      }
    }

    method UpdateTokens(p: M.Pair, waiting: M.Frame) returns (o: Outcome)
      modifies this
      ensures calls == old(calls)
      ensures AsNext(View(), o) == M.Update(old(View()), p, waiting)
    {
      accessToken, refreshToken := p.access, p.refresh;
      o := Held([M.Write(M.Pair(accessToken, refreshToken), 0), waiting]);
    }

    // After a write of _persistTokens succeeded or failed.
    method AfterWrite(data: M.Pair, attempt: nat, ok: bool, id: nat) returns (o: Outcome)
      modifies this
      ensures calls == old(calls)
      ensures AsNext(View(), o) == M.Stretch(old(View()), M.Write(data, attempt), M.WriteDone(id, ok))
    {
      if ok {
        tokenFile := Some(data);
        return Passed(M.DONE, false);
      }
      var tried := attempt + 1;
      if tried < 2 {
        o := Held([M.WriteNap(data, tried)]);
      } else {
        o := Passed(M.Throw, false);
      }
    }

    // ---------------------------------------------------------------- maybeLogin

    method IsDebounceCleared(now: int) returns (cleared: bool)
      ensures cleared <==> lastLoginAttempt + loginAttemptDebounceMilliseconds < now
    {
      cleared := lastLoginAttempt + loginAttemptDebounceMilliseconds < now;
    }

    method ResetDebounceIfNeeded(now: int)
      modifies this`loginAttemptDebounceMilliseconds
      ensures loginAttemptDebounceMilliseconds ==
              if now - lastLoginAttempt > M.TWELVE_HOURS then 1000 else old(loginAttemptDebounceMilliseconds)
    {
      if now - lastLoginAttempt > 12 * 60 * 60 * 1000 {
        loginAttemptDebounceMilliseconds := 1000;
      }
    }

    method Login() returns (o: Outcome)
      ensures AsNext(View(), o) == M.StartLogin(View())
    {
      if hasKeys {
        o := Held([M.Post(M.Login), M.LoginPost]);
      } else {
        o := Passed(M.Throw, false);
      }
    }

    method UpdateDebounceAndLogin(now: int) returns (o: Outcome)
      modifies this
      ensures calls == old(calls)
      ensures AsNext(View(), o) == M.UpdateDebounceAndLogin(old(View()), now)
    {
      logins := logins + [M.LoginStart(clock, now, loginAttemptDebounceMilliseconds, true)];
      lastLoginAttempt := now;
      loginAttemptDebounceMilliseconds :=
        if loginAttemptDebounceMilliseconds * 2 < 5 * 60 * 1000 then loginAttemptDebounceMilliseconds * 2 else 5 * 60 * 1000;
      o := Passed(M.DONE, hasKeys);
    }

    // maybeLogin once the token file was read.
    method MaybeLogin(content: Option<M.Pair>, readable: bool) returns (o: Outcome)
      modifies this
      ensures calls == old(calls)
      ensures AsNext(View(), o) == M.AfterLoad(if readable then M.Load(old(View()), content) else old(View()))
    {
      LoadPersistedTokens(content, readable);
      if accessToken != "" {
        return Passed(M.DONE, false);
      }
      var now := clock;
      var cleared := IsDebounceCleared(now);
      if cleared {
        logins := logins + [M.LoginStart(now, now, loginAttemptDebounceMilliseconds, false)];
        ResetDebounceIfNeeded(now);
        lastLoginAttempt := now;
        o := Login();
      } else if 0 < loginAttemptDebounceMilliseconds {
        o := Held([M.DebounceNap(now, 0, clock + 2000)]);
      } else {
        o := UpdateDebounceAndLogin(now);
      }
    }

    // One turn of the wait loop, after its sleep.
    method AfterDebounceNap(now: int, waited: int) returns (o: Outcome)
      modifies this
      ensures calls == old(calls)
      ensures AsNext(View(), o) == M.AfterDebounceNap(old(View()), now, waited)
    {
      var waitTime := waited + 2000;
      if accessToken != "" {
        o := Passed(M.DONE, false);
      } else if waitTime < loginAttemptDebounceMilliseconds {
        o := Held([M.DebounceNap(now, waitTime, clock + 2000)]);
      } else {
        o := UpdateDebounceAndLogin(now);
      }
    }

    // ---------------------------------------------------------------- responses

    method HandleApiResponse(a: M.Answer) returns (o: Outcome)
      modifies this
      ensures calls == old(calls)
      ensures AsNext(View(), o) == M.Handle(old(View()), a)
    {
      if !a.code.Absent? && a.code.n != 1 {
        if a.badCredentials {
          accessToken := "";
          return Passed(M.Throw, false);
        }
        if a.code == M.Number(3044) || (a.code == M.Number(1000) && a.tooManyAttempts) {
          return Passed(M.Return(Some(M.Response(false, a, clock + 600000))), false);
        }
        if a.code == M.Number(2001) || a.tokenMessage {
          accessToken := "";
          return Held([M.Post(M.Refresh), M.RefreshPost(0), M.RecoverAccess(a)]);
        }
        return Passed(M.Throw, false);
      }
      o := Passed(M.Return(Some(M.Response(true, a, 0))), false);
    }

    // The catch block of refreshToken's loop.
    method RefreshFailed(attempt: nat) returns (o: Outcome)
      ensures AsNext(View(), o) == M.RefreshFailed(View(), attempt)
    {
      var tried := attempt + 1;
      if tried < 2 {
        o := Held([M.RefreshNap(tried)]);
      } else {
        o := Passed(M.Throw, false);
      }
    }

    // _handleRetry up to its first await after the pause.
    method Retry() returns (o: Outcome)
      ensures AsNext(View(), o) == M.Retry(View())
    {
      if accessToken == "" {
        o := Held([M.Reading(None), M.RetryLogin]);
      } else {
        o := Held([M.Post(M.Data), M.RetryPost]);
      }
    }

    // A continuation of this client receives what its callee returned or threw.
    method Deliver(f: M.Frame, sig: M.Signal) returns (o: Outcome)
      modifies this
      ensures calls == old(calls)
      ensures AsNext(View(), o) == M.Deliver(old(View()), f, sig)
    {
      match f
      case RecoverAccess(answer) =>
        if sig.Throw? { return Passed(M.Throw, false); }
        o := Passed(M.Return(Some(M.Response(false, answer, if accessToken != "" then clock else 0))), false);
      case LoginPost =>
        if sig.Throw? || sig.r.None? || !sig.r.value.ok || sig.r.value.answer.tokens.None? ||
           sig.r.value.answer.tokens.value.access == "" {
          return Passed(M.Throw, false);
        }
        o := UpdateTokens(sig.r.value.answer.tokens.value, M.LoginSave);
      case LoginSave =>
        o := Passed(sig, false);
      case RefreshPost(attempt) =>
        if sig.Return? && sig.r.Some? && sig.r.value.ok && sig.r.value.answer.tokens.Some? {
          o := UpdateTokens(sig.r.value.answer.tokens.value, M.RefreshSave(attempt));
        } else {
          o := RefreshFailed(attempt);
        }
      case RefreshSave(attempt) =>
        if sig.Throw? { o := RefreshFailed(attempt); } else { o := Passed(M.DONE, false); }
      case FirstLogin =>
        o := if sig.Throw? then Passed(M.Throw, false) else Held([M.Post(M.Data), M.FirstPost]);
      case FirstPost =>
        if sig.Throw? || sig.r.None? { return Passed(M.Throw, false); }
        if sig.r.value.ok { return Passed(sig, false); }
        if sig.r.value.retryAfter == 0 { return Passed(M.Throw, false); }
        if sig.r.value.retryAfter - clock > 0 { return Held([M.RetryNap(sig.r.value.retryAfter)]); }
        o := Retry();
      case RetryLogin =>
        o := if sig.Throw? then Passed(M.Throw, false) else Held([M.Post(M.Data), M.RetryPost]);
      case RetryPost =>
        o := if sig.Throw? || sig.r.None? || !sig.r.value.ok then Passed(M.Throw, false) else Passed(sig, false);
      case _ =>
        o := Held([f]);
    }

    // The frame on top goes on after its sleep.
    method Wake(f: M.Frame) returns (o: Outcome)
      modifies this
      ensures calls == old(calls)
      ensures AsNext(View(), o) == M.Wake(old(View()), f)
    {
      match f
      case RateWait(a) => o := HandleApiResponse(a);
      case WriteNap(data, attempt) => o := Held([M.Write(data, attempt)]);
      case RefreshNap(attempt) => o := Held([M.Post(M.Refresh), M.RefreshPost(attempt)]);
      case RetryNap(_) => o := Retry();
      case DebounceNap(now, waited, _) => o := AfterDebounceNap(now, waited);
      case _ => o := Held([f]);
    }

    // The frame on top goes on with what the outside answered.
    method Respond(f: M.Frame, e: M.Event) returns (o: Outcome)
      modifies this
      ensures calls == old(calls)
      ensures AsNext(View(), o) == M.Stretch(old(View()), f, e)
    {
      match e
      case ReadDone(_, readable) =>
        var known := f.Reading? && f.content.Some?;
        o := MaybeLogin(if known then f.content.value else None, readable && known);
      case Answered(_, a) =>
        if a.nearRateLimit { o := Held([M.RateWait(a)]); } else { o := HandleApiResponse(a); }
      case NetworkFailed(_) =>
        o := Passed(M.Throw, false);
      case WriteDone(id, ok) =>
        if f.Write? { o := AfterWrite(f.data, f.attempt, ok, id); } else { o := Held([f]); }
      case Woken(_) =>
        o := Wake(f);
      case _ =>
        o := Held([f]);
    }

    /** Runs one call on until it awaits the outside again or is over. */
    method Resume(k: M.Stack, e: M.Event) returns (k': M.Stack, result: Option<M.Signal>, floats: bool)
      requires k != []
      modifies this
      ensures calls == old(calls)
      ensures M.Out(View(), k', result) == M.Unwind(M.Stretch(old(View()), k[0], e), k[1..])
      ensures var next := M.Stretch(old(View()), k[0], e); floats <==> next.Pass? && next.floats
    {
      var o := Respond(k[0], e);
      floats := o.Passed? && o.floats;
      ghost var all := M.Unwind(AsNext(View(), o), k[1..]);
      var below := k[1..];
      while o.Passed? && below != []
        invariant M.Unwind(AsNext(View(), o), below) == all && calls == old(calls)
        decreases |below|
      {
        o := Deliver(below[0], o.sig);
        below := below[1..];
      }
      if o.Held? {
        return o.fs + below, None, floats;
      }
      return [], Some(o.sig), floats;
    }

    // ---------------------------------------------------------------- events

    method Enter(entry: M.Entry) returns (o: Outcome)
      ensures AsNext(View(), o) == M.Entered(View(), entry)
    {
      match entry
      case Request =>
        o := Held(if accessToken == "" then [M.Reading(None), M.FirstLogin] else [M.Post(M.Data), M.FirstPost]);
      case MaybeLogin =>
        o := if accessToken == "" then Held([M.Reading(None)]) else Passed(M.DONE, false);
      case RefreshToken =>
        o := Held([M.Post(M.Refresh), M.RefreshPost(0)]);
      case LoginDirect =>
        o := Login();
    }

    // One event of the caller, the clock, the network, the file or a timer.
    method Handle(e: M.Event)
      requires M.Enabled(System(), e)
      modifies this
      ensures System() == M.Step(old(System()), e)
    {
      match e
      case Tick(ms) =>
        clock := clock + ms;
      case Begin(entry) =>
        var o := Enter(entry);
        calls := calls + [if o.Held? then M.NewCall(entry, o.fs + [], None) else M.NewCall(entry, [], Some(o.sig))];
      case ReadFile(id) =>
        calls := calls[id := calls[id].(k := [M.Reading(Some(tokenFile))] + calls[id].k[1..])];
      case _ =>
        Notice(e);
        Advance(e.id, e);
    }

    method Notice(e: M.Event)
      modifies this`known
      ensures View() == M.Noticed(old(View()), e)
    {
      if e.Answered? && e.a.tokens.Some? {
        known := known + {e.a.tokens.value};
      }
    }

    // Call id runs on with what the outside responded.
    method Advance(id: nat, e: M.Event)
      requires id < |calls| && calls[id].k != []
      modifies this
      ensures System() == M.Install(old(calls), id, M.Stretch(old(View()), old(calls)[id].k[0], e),
                                    M.ErrorsOf(old(calls)[id].k[0], e))
    {
      var call := calls[id];
      var k, result, floats := Resume(call.k, e);
      calls := calls[id := M.Resumed(call, k, result, M.ErrorsOf(call.k[0], e))] +
               if floats then [M.NewCall(M.LoginDirect, [M.Post(M.Login), M.LoginPost], None)] else [];
    }

    /**
     The client through a whole run, with any number of calls interleaved. The token in use with
     the refresh token beside it, and the pair in the file, each came in one piece; the debounce is
     a doubling of a second or the cap and the last attempt is not in the future; every request
     has made at most two data posts and has returned only a response without an error; and if
     maybeLogin calls did not overlap, any three logins span the debounce in force at the last.
     */
    method Drive(es: seq<M.Event>, ghost file: Option<M.Pair>)
      requires System() == M.Initial(file, hasKeys) && exists s :: M.Run(M.Initial(file, hasKeys), es, s)
      modifies this
      ensures M.Run(M.Initial(file, hasKeys), es, System())
      ensures accessToken != "" ==> P.Came(file, es, M.Pair(accessToken, refreshToken))
      ensures tokenFile.Some? ==> P.Came(file, es, tokenFile.value)
      ensures P.Doubling(loginAttemptDebounceMilliseconds) && lastLoginAttempt <= clock
      ensures forall call <- calls :: call.entry == M.Request ==>
                && call.dataPosts <= 2 && call.refreshPosts <= 2 * call.tokenErrors
                && (call.result.Some? && call.result.value.Return? ==> call.result.value.r.Some? && call.result.value.r.value.ok)
      ensures (exists s :: L.SequentialRun(M.Initial(file, hasKeys), es, s)) ==> SpreadOverThree(logins)
    {
      ghost var s0 := M.Initial(file, hasKeys);
      for i := 0 to |es|
        invariant M.Run(s0, es[..i], System())
      {
        P.RunContinues(s0, es, i, System());
        Handle(es[i]);
      }
      assert es[..|es|] == es;
      RunFacts(file, hasKeys, es, System());
      SequentialRunFacts(file, hasKeys, es, System());
    }
  }

  lemma RunFacts(file: Option<M.Pair>, configured: bool, es: seq<M.Event>, s: M.System)
    requires M.Run(M.Initial(file, configured), es, s)
    ensures s.c.access != "" ==> P.Came(file, es, M.Pair(s.c.access, s.c.refresh))
    ensures s.c.file.Some? ==> P.Came(file, es, s.c.file.value)
    ensures P.Doubling(s.c.debounce) && s.c.last <= s.c.clock
    ensures forall call <- s.calls :: call.entry == M.Request ==>
              && call.dataPosts <= 2 && call.refreshPosts <= 2 * call.tokenErrors
              && (call.result.Some? && call.result.value.Return? ==> call.result.value.r.Some? && call.result.value.r.value.ok)
  {
    P.TokenPairsCoherent(file, configured, es, s);
    P.DebounceBounded(file, configured, es, s, |s.calls|);
    forall call <- s.calls | call.entry == M.Request
      ensures call.dataPosts <= 2 && call.refreshPosts <= 2 * call.tokenErrors
      ensures call.result.Some? && call.result.value.Return? ==> call.result.value.r.Some? && call.result.value.r.value.ok
    {
      var id :| 0 <= id < |s.calls| && s.calls[id] == call;
      B.RequestBounded(file, configured, es, s, id);
    }
  }

  ghost predicate SpreadOverThree(ls: seq<M.LoginStart>) {
    forall i, j :: 0 <= i && i + 2 <= j < |ls| ==> ls[j].time - ls[i].time >= ls[j].inForce >= 1000
  }

  lemma SequentialRunFacts(file: Option<M.Pair>, configured: bool, es: seq<M.Event>, s: M.System)
    requires M.Run(M.Initial(file, configured), es, s)
    ensures (exists s' :: L.SequentialRun(M.Initial(file, configured), es, s')) ==> SpreadOverThree(s.c.logins)
  {
    var s0 := M.Initial(file, configured);
    forall s' | L.SequentialRun(s0, es, s')
      ensures s' == s
    {
      L.SequentialRunSpaced(s0, es, s');
      P.RunDeterministic(s0, es, s, s');
    }
    if L.SequentialRun(s0, es, s) { L.LoginsSpaced(file, configured, es, s); }
  }

  /**
   waitForDebounceClearance as one loop: the bound is bounds(n) when it is read after the n-th
   sleep, and tokens(n) says whether a token is there by then. It stops at the first turn at
   which one or the other says so, after at most 150 sleeps.
   */
  method WaitForDebounceClearance(bounds: nat -> int, tokens: nat -> bool) returns (sleeps: nat, found: bool)
    requires forall n: nat :: bounds(n) <= M.CAP
    ensures sleeps <= 150
    ensures found <==> sleeps > 0 && tokens(sleeps)
    ensures !found ==> 2000 * sleeps >= bounds(sleeps)
    ensures forall n: nat :: n < sleeps ==> 2000 * n < bounds(n) && (n > 0 ==> !tokens(n))
  {
    sleeps := 0;
    while 2000 * sleeps < bounds(sleeps)
      invariant sleeps <= 150
      invariant sleeps > 0 ==> !tokens(sleeps)
      invariant forall n: nat :: n < sleeps ==> 2000 * n < bounds(n) && (n > 0 ==> !tokens(n))
      decreases 150 - sleeps
    {
      assert bounds(sleeps) <= M.CAP;
      sleeps := sleeps + 1;
      if tokens(sleeps) {
        return sleeps, true;
      }
    }
    found := false;
  }
}
