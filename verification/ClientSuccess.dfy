/** That the client gets there: from every state, the runs in which the outside answers as it should. */
module ClientSuccess {
  import opened Basics
  import opened ClientModel
  import opened ClientProofs
  import opened ClientBudget
  import opened ClientOutcome

  // What one stretch makes of the client and of the call that runs it.
  function Advanced(c: Client, k: Stack, e: Event): Out
    requires k != []
  {
    Unwind(Stretch(Noticed(c, e), k[0], e), k[1..])
  }

  predicate Resumes(e: Event, id: nat) {
    !e.Tick? && !e.Begin? && !e.ReadFile? && e.id == id
  }

  // The client is c, and call id has stack k and result r.
  ghost predicate At(s: System, id: nat, c: Client, k: Stack, r: Option<Signal>) {
    id < |s.calls| && s.c == c && s.calls[id].k == k && s.calls[id].result == r
  }

  type RunProperty = (seq<Event>, System) -> bool

  // What holds of runs that go on.
  ghost predicate Closed(R: RunProperty) {
    forall es, s, e :: R(es, s) && Enabled(s, e) ==> R(es + [e], Step(s, e))
  }

  lemma RunsClosed(s0: System)
    ensures Closed((es: seq<Event>, s: System) => Run(s0, es, s))
  {
    forall es, s, e | Run(s0, es, s) && Enabled(s, e)
      ensures Run(s0, es + [e], Step(s, e))
    {
      RunSnoc(s0, es, s, e);
    }
  }

  predicate Awaited(f: Frame, e: Event, clock: int) {
    match e
    case ReadDone(_, _) => f.Reading? && f.content.Some?
    case Answered(_, _) => f.Post?
    case WriteDone(_, _) => f.Write?
    case Woken(_) => f.RetryNap? && f.wake <= clock
    case _ => false
  }

  lemma RunOn(R: RunProperty, es: seq<Event>, s: System, id: nat, e: Event, out: Out) returns (s': System)
    requires Closed(R) && R(es, s) && Waiting(s, id) && Resumes(e, id) && Awaited(Top(s, id), e, s.c.clock)
    requires out == Advanced(s.c, s.calls[id].k, e)
    ensures R(es + [e], s') && At(s', id, out.c, out.k, out.result)
  {
    assert Enabled(s, e);
    s' := Step(s, e);
  }

  lemma BeginRuns(R: RunProperty, s: System) returns (s': System)
    requires Closed(R) && R([], s)
    ensures var k := if s.c.access == "" then [Reading(None), FirstLogin] else [Post(Data), FirstPost];
            R([Begin(Request)], s') && At(s', |s.calls|, s.c, k, None)
  {
    s' := Step(s, Begin(Request));
    assert [] + [Begin(Request)] == [Begin(Request)];
    var k := if s.c.access == "" then [Reading(None), FirstLogin] else [Post(Data), FirstPost];
    assert k + [] == k;
  }

  lemma TickRuns(R: RunProperty, es: seq<Event>, s: System, id: nat, ms: nat) returns (s': System)
    requires Closed(R) && R(es, s) && id < |s.calls|
    ensures R(es + [Tick(ms)], s') && At(s', id, s.c.(clock := s.c.clock + ms), s.calls[id].k, s.calls[id].result)
  {
    s' := Step(s, Tick(ms));
  }

  lemma ReadRuns(R: RunProperty, es: seq<Event>, s: System, id: nat) returns (s': System)
    requires Closed(R) && R(es, s) && id < |s.calls| && s.calls[id].k == [Reading(None), FirstLogin]
    ensures R(es + [ReadFile(id)], s') && At(s', id, s.c, [Reading(Some(s.c.file)), FirstLogin], s.calls[id].result)
  {
    assert [Reading(None), FirstLogin][1..] == [FirstLogin];
    s' := Step(s, ReadFile(id));
  }

  // ---------------------------------------------------------------- single stretches

  predicate Plain(a: Answer) {
    Good(a) && !a.nearRateLimit
  }

  lemma DataAnswered(c: Client, k: Stack, id: nat, a: Answer)
    requires Plain(a) && (k == [Post(Data), FirstPost] || k == [Post(Data), RetryPost])
    ensures Advanced(c, k, Answered(id, a)) ==
            Out(Noticed(c, Answered(id, a)), [], Some(Return(Some(Response(true, a, 0)))))
  {
    var c', r := Noticed(c, Answered(id, a)), Return(Some(Response(true, a, 0)));
    assert k[1..] == [k[1]] && [k[1]][1..] == [];
    assert Unwind(Pass(c', r, false), [k[1]]) == Unwind(Deliver(c', k[1], r), []);
  }

  lemma LoginAnswered(c: Client, id: nat, a: Answer)
    requires Plain(a) && a.tokens.Some? && a.tokens.value.access != ""
    ensures var p := a.tokens.value;
            Advanced(c, [Post(Login), LoginPost, FirstLogin], Answered(id, a)) ==
            Out(Noticed(c, Answered(id, a)).(access := p.access, refresh := p.refresh), [Write(p, 0), LoginSave, FirstLogin], None)
  {
    var c', r, p := Noticed(c, Answered(id, a)), Return(Some(Response(true, a, 0))), a.tokens.value;
    assert [Post(Login), LoginPost, FirstLogin][1..] == [LoginPost, FirstLogin] && [LoginPost, FirstLogin][1..] == [FirstLogin];
    assert Unwind(Pass(c', r, false), [LoginPost, FirstLogin]) == Unwind(Deliver(c', LoginPost, r), [FirstLogin]);
    assert [Write(p, 0), LoginSave] + [FirstLogin] == [Write(p, 0), LoginSave, FirstLogin];
  }

  lemma LoginSaved(c: Client, id: nat, p: Pair)
    ensures Advanced(c, [Write(p, 0), LoginSave, FirstLogin], WriteDone(id, true)) ==
            Out(c.(file := Some(p)), [Post(Data), FirstPost], None)
  {
    var c' := c.(file := Some(p));
    assert [Write(p, 0), LoginSave, FirstLogin][1..] == [LoginSave, FirstLogin];
    assert [LoginSave, FirstLogin][1..] == [FirstLogin] && [FirstLogin][1..] == [];
    assert Unwind(Pass(c', DONE, false), [LoginSave, FirstLogin]) == Unwind(Pass(c', DONE, false), [FirstLogin]);
    assert Unwind(Pass(c', DONE, false), [FirstLogin]) == Unwind(Deliver(c', FirstLogin, DONE), []);
    assert [Post(Data), FirstPost] + [] == [Post(Data), FirstPost];
  }

  lemma TokenRefused(c: Client, id: nat, a: Answer)
    requires TokenRejected(a) && !a.nearRateLimit
    ensures Advanced(c, [Post(Data), FirstPost], Answered(id, a)) ==
            Out(Noticed(c, Answered(id, a)).(access := ""), [Post(Refresh), RefreshPost(0), RecoverAccess(a), FirstPost], None)
  {
    assert [Post(Data), FirstPost][1..] == [FirstPost];
    assert [Post(Refresh), RefreshPost(0), RecoverAccess(a)] + [FirstPost] ==
           [Post(Refresh), RefreshPost(0), RecoverAccess(a), FirstPost];
  }

  lemma RefreshAnswered(c: Client, id: nat, rejected: Answer, a: Answer)
    requires Plain(a) && a.tokens.Some?
    ensures var p := a.tokens.value;
            Advanced(c, [Post(Refresh), RefreshPost(0), RecoverAccess(rejected), FirstPost], Answered(id, a)) ==
            Out(Noticed(c, Answered(id, a)).(access := p.access, refresh := p.refresh),
                [Write(p, 0), RefreshSave(0), RecoverAccess(rejected), FirstPost], None)
  {
    var c', r, p := Noticed(c, Answered(id, a)), Return(Some(Response(true, a, 0))), a.tokens.value;
    var k := [RecoverAccess(rejected), FirstPost];
    assert [Post(Refresh), RefreshPost(0), RecoverAccess(rejected), FirstPost][1..] == [RefreshPost(0)] + k;
    assert ([RefreshPost(0)] + k)[1..] == k;
    assert Unwind(Pass(c', r, false), [RefreshPost(0)] + k) == Unwind(Deliver(c', RefreshPost(0), r), k);
    assert [Write(p, 0), RefreshSave(0)] + k == [Write(p, 0), RefreshSave(0), RecoverAccess(rejected), FirstPost];
  }

  lemma RefreshSaved(c: Client, id: nat, rejected: Answer, p: Pair)
    requires c.access != "" && c.clock > 0
    ensures Advanced(c, [Write(p, 0), RefreshSave(0), RecoverAccess(rejected), FirstPost], WriteDone(id, true)) ==
            Out(c.(file := Some(p)), [Post(Data), RetryPost], None)
  {
    var c' := c.(file := Some(p));
    var u, b := RecoverAccess(rejected), FirstPost;
    assert [Write(p, 0), RefreshSave(0), u, b][1..] == [RefreshSave(0), u, b];
    assert [RefreshSave(0), u, b][1..] == [u, b] && [u, b][1..] == [b] && [b][1..] == [];
    var r := Return(Some(Response(false, rejected, c.clock)));
    assert Unwind(Pass(c', DONE, false), [RefreshSave(0), u, b]) == Unwind(Pass(c', DONE, false), [u, b]);
    assert Unwind(Pass(c', DONE, false), [u, b]) == Unwind(Pass(c', r, false), [b]);
    assert Unwind(Pass(c', r, false), [b]) == Unwind(Deliver(c', b, r), []);
    assert [Post(Data), RetryPost] + [] == [Post(Data), RetryPost];
  }

  lemma Limited(c: Client, id: nat, a: Answer)
    requires c.clock >= 0 && RateLimit(a) && !a.nearRateLimit
    ensures Advanced(c, [Post(Data), FirstPost], Answered(id, a)) ==
            Out(Noticed(c, Answered(id, a)), [RetryNap(c.clock + 600000)], None)
  {
    var c' := Noticed(c, Answered(id, a));
    var r := Return(Some(Response(false, a, c.clock + 600000)));
    assert [Post(Data), FirstPost][1..] == [FirstPost] && [FirstPost][1..] == [];
    assert Unwind(Pass(c', r, false), [FirstPost]) == Unwind(Deliver(c', FirstPost, r), []);
    assert [RetryNap(c.clock + 600000)] + [] == [RetryNap(c.clock + 600000)];
  }

  lemma Woke(c: Client, id: nat, wake: int)
    requires c.access != ""
    ensures Advanced(c, [RetryNap(wake)], Woken(id)) == Out(c, [Post(Data), RetryPost], None)
  {
    assert [RetryNap(wake)][1..] == [];
    assert [Post(Data), RetryPost] + [] == [Post(Data), RetryPost];
  }

  lemma ClearedLogin(c: Client, id: nat, file: Option<Pair>)
    requires c.access == "" && c.configured && c.last + c.debounce < c.clock
    ensures var out := Advanced(c, [Reading(Some(file)), FirstLogin], ReadDone(id, false));
            out.k == [Post(Login), LoginPost, FirstLogin] && out.result == None
  {
    assert [Reading(Some(file)), FirstLogin][1..] == [FirstLogin];
    assert [Post(Login), LoginPost] + [FirstLogin] == [Post(Login), LoginPost, FirstLogin];
  }

  // ---------------------------------------------------------------- whole requests

  ghost predicate Returns(s: System, es: seq<Event>, id: nat, a: Answer) {
    exists s' :: Run(s, es, s') && id < |s'.calls| && s'.calls[id].result == Some(Return(Some(Response(true, a, 0))))
  }

  // The second half of each run below: the data post is answered.
  lemma AnsweredRuns(R: RunProperty, es: seq<Event>, s: System, n: nat, k: Stack, a: Answer) returns (s': System)
    requires Closed(R) && R(es, s) && At(s, n, s.c, k, None) && Plain(a)
    requires k == [Post(Data), FirstPost] || k == [Post(Data), RetryPost]
    ensures R(es + [Answered(n, a)], s') && n < |s'.calls| && s'.calls[n].result == Some(Return(Some(Response(true, a, 0))))
  {
    DataAnswered(s.c, k, n, a);
    s' := RunOn(R, es, s, n, Answered(n, a), Advanced(s.c, k, Answered(n, a)));
  }

  /** With a token, a request posts its data at once and returns a response without an error. */
  lemma RequestSucceeds(s: System, a: Answer)
    requires s.c.access != "" && (a.code.Absent? || a.code.n == 1) && !a.nearRateLimit
    ensures Returns(s, [Begin(Request)] + [Answered(|s.calls|, a)], |s.calls|, a)
  {
    var R := (es: seq<Event>, s': System) => Run(s, es, s');
    RunsClosed(s);
    var s1 := BeginRuns(R, s);
    var s2 := AnsweredRuns(R, [Begin(Request)], s1, |s.calls|, [Post(Data), FirstPost], a);
    assert Run(s, [Begin(Request)] + [Answered(|s.calls|, a)], s2);
  }

  /** So does one whose access token is rejected, once the refresh is answered with tokens and saved. */
  lemma RequestSucceedsAfterRefresh(s: System, rejected: Answer, refreshed: Answer, a: Answer)
    requires s.c.access != "" && s.c.clock > 0 && TokenRejected(rejected) && !rejected.nearRateLimit
    requires Plain(refreshed) && refreshed.tokens.Some? && refreshed.tokens.value.access != "" && Plain(a)
    ensures Returns(s, RefreshEvents(|s.calls|, rejected, refreshed, a), |s.calls|, a)
  {
    RunsClosed(s);
    var s' := RefreshRuns((es: seq<Event>, s': System) => Run(s, es, s'), s, rejected, refreshed, a);
    assert Run(s, RefreshEvents(|s.calls|, rejected, refreshed, a), s');
  }

  function RefreshEvents(n: nat, rejected: Answer, refreshed: Answer, a: Answer): seq<Event> {
    [Begin(Request)] + [Answered(n, rejected)] + [Answered(n, refreshed)] + [WriteDone(n, true)] + [Answered(n, a)]
  }

  lemma RefreshRuns(R: RunProperty, s: System, rejected: Answer, refreshed: Answer, a: Answer) returns (s': System)
    requires Closed(R) && R([], s)
    requires s.c.access != "" && s.c.clock > 0 && TokenRejected(rejected) && !rejected.nearRateLimit
    requires Plain(refreshed) && refreshed.tokens.Some? && refreshed.tokens.value.access != "" && Plain(a)
    ensures R(RefreshEvents(|s.calls|, rejected, refreshed, a), s')
    ensures |s.calls| < |s'.calls| && s'.calls[|s.calls|].result == Some(Return(Some(Response(true, a, 0))))
  {
    var n, es1 := |s.calls|, [Begin(Request)];
    var s1 := BeginRuns(R, s);
    TokenRefused(s1.c, n, rejected);
    var s2 := RunOn(R, es1, s1, n, Answered(n, rejected), Advanced(s1.c, [Post(Data), FirstPost], Answered(n, rejected)));
    var es2, k2 := es1 + [Answered(n, rejected)], [Post(Refresh), RefreshPost(0), RecoverAccess(rejected), FirstPost];
    RefreshAnswered(s2.c, n, rejected, refreshed);
    var s3 := RunOn(R, es2, s2, n, Answered(n, refreshed), Advanced(s2.c, k2, Answered(n, refreshed)));
    var es3, p := es2 + [Answered(n, refreshed)], refreshed.tokens.value;
    var k3 := [Write(p, 0), RefreshSave(0), RecoverAccess(rejected), FirstPost];
    RefreshSaved(s3.c, n, rejected, p);
    var s4 := RunOn(R, es3, s3, n, WriteDone(n, true), Advanced(s3.c, k3, WriteDone(n, true)));
    s' := AnsweredRuns(R, es3 + [WriteDone(n, true)], s4, n, [Post(Data), RetryPost], a);
  }

  /** One that is rate limited waits ten minutes, posts again and returns. */
  lemma RequestSucceedsAfterRateLimit(s: System, limited: Answer, a: Answer)
    requires s.c.access != "" && s.c.clock >= 0 && RateLimit(limited) && !limited.nearRateLimit && Plain(a)
    ensures Returns(s, LimitEvents(|s.calls|, limited, a), |s.calls|, a)
  {
    RunsClosed(s);
    var s' := LimitRuns((es: seq<Event>, s': System) => Run(s, es, s'), s, limited, a);
    assert Run(s, LimitEvents(|s.calls|, limited, a), s');
  }

  function LimitEvents(n: nat, limited: Answer, a: Answer): seq<Event> {
    [Begin(Request)] + [Answered(n, limited)] + [Tick(600000)] + [Woken(n)] + [Answered(n, a)]
  }

  lemma LimitRuns(R: RunProperty, s: System, limited: Answer, a: Answer) returns (s': System)
    requires Closed(R) && R([], s)
    requires s.c.access != "" && s.c.clock >= 0 && RateLimit(limited) && !limited.nearRateLimit && Plain(a)
    ensures R(LimitEvents(|s.calls|, limited, a), s')
    ensures |s.calls| < |s'.calls| && s'.calls[|s.calls|].result == Some(Return(Some(Response(true, a, 0))))
  {
    var n, es1 := |s.calls|, [Begin(Request)];
    var s1 := BeginRuns(R, s);
    Limited(s1.c, n, limited);
    var s2 := RunOn(R, es1, s1, n, Answered(n, limited), Advanced(s1.c, [Post(Data), FirstPost], Answered(n, limited)));
    var es2 := es1 + [Answered(n, limited)];
    var s3 := TickRuns(R, es2, s2, n, 600000);
    Woke(s3.c, n, s1.c.clock + 600000);
    var s4 := RunOn(R, es2 + [Tick(600000)], s3, n, Woken(n), Advanced(s3.c, [RetryNap(s1.c.clock + 600000)], Woken(n)));
    s' := AnsweredRuns(R, es2 + [Tick(600000)] + [Woken(n)], s4, n, [Post(Data), RetryPost], a);
  }

  /** And one without a token or a token file: it logs in once the debounce has cleared, saves the tokens, and posts. */
  lemma RequestSucceedsAfterLogin(s: System, login: Answer, a: Answer)
    requires s.c.access == "" && s.c.configured && s.c.last + s.c.debounce < s.c.clock
    requires Plain(login) && login.tokens.Some? && login.tokens.value.access != "" && Plain(a)
    ensures Returns(s, LoginEvents(|s.calls|, login, a), |s.calls|, a)
  {
    RunsClosed(s);
    var s' := LoginRuns((es: seq<Event>, s': System) => Run(s, es, s'), s, login, a);
    assert Run(s, LoginEvents(|s.calls|, login, a), s');
  }

  function LoginEvents(n: nat, login: Answer, a: Answer): seq<Event> {
    [Begin(Request)] + [ReadFile(n)] + [ReadDone(n, false)] + [Answered(n, login)] + [WriteDone(n, true)] + [Answered(n, a)]
  }

  lemma LoginRuns(R: RunProperty, s: System, login: Answer, a: Answer) returns (s': System)
    requires Closed(R) && R([], s)
    requires s.c.access == "" && s.c.configured && s.c.last + s.c.debounce < s.c.clock
    requires Plain(login) && login.tokens.Some? && login.tokens.value.access != "" && Plain(a)
    ensures R(LoginEvents(|s.calls|, login, a), s')
    ensures |s.calls| < |s'.calls| && s'.calls[|s.calls|].result == Some(Return(Some(Response(true, a, 0))))
  {
    var n, es1 := |s.calls|, [Begin(Request)];
    var s1 := BeginRuns(R, s);
    var s2 := ReadRuns(R, es1, s1, n);
    ClearedLogin(s2.c, n, s1.c.file);
    var es2 := es1 + [ReadFile(n)];
    var s3 := RunOn(R, es2, s2, n, ReadDone(n, false), Advanced(s2.c, [Reading(Some(s1.c.file)), FirstLogin], ReadDone(n, false)));
    var es3 := es2 + [ReadDone(n, false)];
    LoginAnswered(s3.c, n, login);
    var s4 := RunOn(R, es3, s3, n, Answered(n, login), Advanced(s3.c, [Post(Login), LoginPost, FirstLogin], Answered(n, login)));
    var es4, p := es3 + [Answered(n, login)], login.tokens.value;
    LoginSaved(s4.c, n, p);
    var s5 := RunOn(R, es4, s4, n, WriteDone(n, true), Advanced(s4.c, [Write(p, 0), LoginSave, FirstLogin], WriteDone(n, true)));
    s' := AnsweredRuns(R, es4 + [WriteDone(n, true)], s5, n, [Post(Data), FirstPost], a);
  }

  // ---------------------------------------------------------------- second attempts

  /** A first write that fails is written again, the same pair, after a sleep. */
  lemma WriteTriedTwice(s: System, id: nat)
    requires Waiting(s, id) && Top(s, id).Write? && Top(s, id).attempt == 0
    ensures var p, k := Top(s, id).data, s.calls[id].k[1..];
            var s1 := Step(s, WriteDone(id, false));
            && s1.c == s.c && s1.calls[id].k == [WriteNap(p, 1)] + k
            && Step(s1, Woken(id)).c == s.c && Step(s1, Woken(id)).calls[id].k == [Write(p, 1)] + k
  {
    var p, k := Top(s, id).data, s.calls[id].k[1..];
    var s1 := Step(s, WriteDone(id, false));
    assert s1.calls[id].k == [WriteNap(p, 1)] + k;
    assert ([WriteNap(p, 1)] + k)[1..] == k;
  }

  // The bottom frame of a refreshToken call says how many posts it has made at least.
  predicate Tries(k: Stack, posts: int) {
    && k != []
    && match k[|k| - 1]
       case RefreshPost(n) => n <= 1 && posts >= n + 1
       case RefreshSave(n) => n <= 1 && posts >= n + 1
       case RefreshNap(n) => n == 1 && posts >= 1
       case _ => false
  }

  predicate OutTries(out: Out, posts: int) {
    if out.k == [] then out.result.Some? && (out.result.value.Throw? ==> posts >= 2)
    else Tries(out.k, posts + CountPosts(out.k, Refresh))
  }

  lemma {:induction false} UnwindTries(next: Next, k: Stack, posts: nat)
    requires Callees(k) && Tries(k, posts)
    ensures OutTries(Unwind(next, k), posts)
    decreases |k|
  {
    if next.Hold? {
      assert (next.fs + k)[|next.fs + k| - 1] == k[|k| - 1];
    } else {
      var next' := Deliver(next.c, k[0], next.sig);
      if |k| == 1 {
        assert k[1..] == [];
        if next'.Hold? { assert next'.fs + [] == next'.fs; }
      } else {
        UnwindTries(next', k[1..], posts);
      }
    }
  }

  lemma StretchTries(c: Client, k: Stack, e: Event, posts: nat)
    requires Tries(k, posts) && Outside(k[0]) && Callees(k[1..]) && Fits(k[0], e)
    ensures OutTries(Unwind(Stretch(c, k[0], e), k[1..]), posts)
  {
    if |k| == 1 {
      var fs := [Post(Refresh), RefreshPost(k[0].attempt)];
      assert k[1..] == [] && fs + [] == fs;
    } else {
      UnwindTries(Stretch(c, k[0], e), k[1..], posts);
    }
  }

  ghost predicate CallTries(call: Call) {
    call.entry == RefreshToken ==>
      if call.k == [] then call.result.Some? && (call.result.value.Throw? ==> call.refreshPosts >= 2)
      else Tries(call.k, call.refreshPosts)
  }

  ghost predicate AllTry(calls: seq<Call>) {
    forall id :: 0 <= id < |calls| ==> CallTries(calls[id])
  }

  lemma EnteredTries(c: Client, entry: Entry)
    ensures var out := Unwind(Entered(c, entry), []); CallTries(NewCall(entry, out.k, out.result))
  {
    var next := Entered(c, entry);
    if next.Hold? { assert next.fs + [] == next.fs; }
  }

  lemma StepTries(s: System, e: Event)
    requires Enabled(s, e) && AllTry(s.calls) && Budgeted(s.calls)
    ensures AllTry(Step(s, e).calls)
  {
    match e
    case Tick(_) =>
    case Begin(entry) => EnteredTries(s.c, entry);
    case ReadFile(id) => ReadFileTries(s.calls[id], s.c.file);
    case _ => InstallTries(Noticed(s.c, e), s.calls, e.id, e);
  }

  lemma ReadFileTries(call: Call, file: Option<Pair>)
    requires CallTries(call) && call.k != [] && call.k[0].Reading?
    ensures CallTries(call.(k := [Reading(Some(file))] + call.k[1..]))
  {
    var k := call.k;
    assert |k| > 1 ==> ([Reading(Some(file))] + k[1..])[|k| - 1] == k[|k| - 1];
  }

  lemma InstallTries(c: Client, calls: seq<Call>, id: nat, e: Event)
    requires AllTry(calls) && id < |calls| && CallWithin(calls[id]) && calls[id].k != [] && Fits(calls[id].k[0], e)
    ensures AllTry(Install(calls, id, Stretch(c, calls[id].k[0], e), ErrorsOf(calls[id].k[0], e)).calls)
  {
    assert CallTries(calls[id]);
    if calls[id].entry == RefreshToken { StretchTries(c, calls[id].k, e, calls[id].refreshPosts); }
  }

  /** refreshToken gives up only after a second post of its own. */
  lemma {:induction false} RefreshTriedTwice(s0: System, es: seq<Event>, s: System)
    requires Run(s0, es, s) && s0.calls == [] && TimelySystem(s0.c, [])
    ensures forall call <- s.calls :: call.entry == RefreshToken && call.result == Some(Throw) ==> call.refreshPosts >= 2
    ensures AllTry(s.calls)
    decreases |es|
  {
    if es != [] {
      var r := LastStep(s0, es, s);
      RefreshTriedTwice(s0, es[..|es| - 1], r);
      RunWithin(s0, es[..|es| - 1], r);
      StepTries(r, es[|es| - 1]);
    }
    RunWithin(s0, es, s);
    forall call <- s.calls | call.entry == RefreshToken && call.result == Some(Throw)
      ensures call.refreshPosts >= 2
    {
      var id :| 0 <= id < |s.calls| && s.calls[id] == call;
      assert CallTries(s.calls[id]) && CallWithin(s.calls[id]);
    }
  }
}
