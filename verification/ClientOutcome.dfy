/**
 How a request ends and when it is retried, in every interleaving: the answers to its data
 posts decide.
 */
module ClientOutcome {
  import opened Basics
  import opened ClientModel
  import opened ClientProofs
  import opened ClientBudget

  // ================================================================ answers

  predicate Good(a: Answer) {
    a.code.Absent? || a.code.n == 1
  }

  predicate RateLimit(a: Answer) {
    && !Good(a) && !a.badCredentials
    && (a.code == Number(3044) || (a.code == Number(1000) && a.tooManyAttempts))
  }

  predicate TokenRejected(a: Answer) {
    !Good(a) && !a.badCredentials && !RateLimit(a) && (a.code == Number(2001) || a.tokenMessage)
  }

  // The answer that a call takes in at this event: at once, or after the pause near the rate limit.
  function TakenIn(f: Frame, e: Event): Option<Answer> {
    if e.Answered? && f.Post? && !e.a.nearRateLimit then Some(e.a)
    else if e.Woken? && f.RateWait? then Some(f.answer)
    else None
  }

  // ================================================================ shapes of stacks

  predicate Poster(f: Frame) {
    f.FirstPost? || f.RetryPost? || f.LoginPost? || f.RefreshPost?
  }

  predicate AwaitsLogin(f: Frame) {
    f.FirstLogin? || f.RetryLogin?
  }

  // What may stand directly on what.
  predicate On(f: Frame, k: Stack) {
    match f
    case Post(Data) => k != [] && (k[0].FirstPost? || k[0].RetryPost?)
    case Post(Login) => k != [] && k[0].LoginPost?
    case Post(Refresh) => k != [] && k[0].RefreshPost?
    case RateWait(_) => k != [] && Poster(k[0])
    case RecoverAccess(a) => k != [] && Poster(k[0]) && TokenRejected(a)
    case Write(_, _) => k != [] && (k[0].LoginSave? || k[0].RefreshSave?)
    case WriteNap(_, _) => k != [] && (k[0].LoginSave? || k[0].RefreshSave?)
    case RefreshNap(_) => k == [] || k[0].RecoverAccess?
    case RefreshPost(_) => k == [] || k[0].RecoverAccess?
    case RefreshSave(_) => k == [] || k[0].RecoverAccess?
    case Reading(_) => k == [] || AwaitsLogin(k[0])
    case DebounceNap(_, _, _) => k == [] || AwaitsLogin(k[0])
    case LoginPost => k == [] || AwaitsLogin(k[0])
    case LoginSave => k == [] || AwaitsLogin(k[0])
    case _ => k == []
  }

  predicate Shaped(k: Stack) {
    k != [] ==> On(k[0], k[1..]) && Shaped(k[1..])
  }

  predicate NextShaped(next: Next, k: Stack) {
    next.Hold? ==> Shaped(next.fs + k)
  }

  lemma Push1(f: Frame, k: Stack)
    requires On(f, k) && Shaped(k)
    ensures Shaped([f] + k)
  {
    assert ([f] + k)[1..] == k;
  }

  lemma Push2(f: Frame, g: Frame, k: Stack)
    requires On(f, [g] + k) && On(g, k) && Shaped(k)
    ensures Shaped([f, g] + k)
  {
    Push1(g, k);
    Push1(f, [g] + k);
    assert [f, g] + k == [f] + ([g] + k);
  }

  lemma Push3(f: Frame, g: Frame, h: Frame, k: Stack)
    requires On(f, [g] + ([h] + k)) && On(g, [h] + k) && On(h, k) && Shaped(k)
    ensures Shaped([f, g, h] + k)
  {
    Push2(g, h, k);
    assert [g, h] + k == [g] + ([h] + k);
    Push1(f, [g, h] + k);
    assert [f, g, h] + k == [f] + ([g, h] + k);
  }

  // Frames held by one stretch, on top of k.
  lemma PushAll(fs: Stack, k: Stack)
    requires 1 <= |fs| <= 3 && Shaped(k)
    requires On(fs[|fs| - 1], k)
    requires |fs| == 2 ==> On(fs[0], [fs[1]] + k)
    requires |fs| == 3 ==> On(fs[0], [fs[1]] + ([fs[2]] + k)) && On(fs[1], [fs[2]] + k)
    ensures Shaped(fs + k)
  {
    if |fs| == 1 {
      Push1(fs[0], k);
      assert fs == [fs[0]];
    } else if |fs| == 2 {
      Push2(fs[0], fs[1], k);
      assert fs == [fs[0], fs[1]];
    } else {
      Push3(fs[0], fs[1], fs[2], k);
      assert fs == [fs[0], fs[1], fs[2]];
    }
  }

  lemma HandleShaped(c: Client, a: Answer, k: Stack)
    requires Shaped(k) && k != [] && Poster(k[0])
    ensures NextShaped(Handle(c, a), k)
  {
    var next := Handle(c, a);
    if next.Hold? { PushAll(next.fs, k); }
  }

  lemma AfterLoadShaped(c: Client, k: Stack)
    requires Shaped(k) && (k == [] || AwaitsLogin(k[0]))
    ensures NextShaped(AfterLoad(c), k)
  {
    var next := AfterLoad(c);
    if next.Hold? { PushAll(next.fs, k); }
  }

  lemma WakeShaped(c: Client, f: Frame, k: Stack)
    requires Shaped([f] + k) && Shaped(k) && On(f, k)
    ensures NextShaped(Wake(c, f), k)
  {
    match f
    case RateWait(a) => HandleShaped(c, a, k);
    case WriteNap(data, attempt) => PushAll([Write(data, attempt)], k);
    case RefreshNap(attempt) => PushAll([Post(Refresh), RefreshPost(attempt)], k);
    case RetryNap(_) =>
      var next := Retry(c);
      PushAll(next.fs, k);
    case DebounceNap(now, waited, _) =>
      var next := AfterDebounceNap(c, now, waited);
      if next.Hold? { PushAll(next.fs, k); }
    case _ =>
  }

  lemma StretchShaped(c: Client, f: Frame, k: Stack, e: Event)
    requires On(f, k) && Shaped(k) && Fits(f, e)
    ensures NextShaped(Stretch(c, f, e), k)
  {
    Push1(f, k);
    match e
    case ReadDone(_, readable) =>
      AfterLoadShaped(if readable && f.content.Some? then Load(c, f.content.value) else c, k);
    case Answered(_, a) => if a.nearRateLimit { PushAll([RateWait(a)], k); } else { HandleShaped(c, a, k); }
    case NetworkFailed(_) =>
    case WriteDone(_, _) => PushAll([WriteNap(f.data, f.attempt + 1)], k);
    case Woken(_) => WakeShaped(c, f, k);
  }

  lemma DeliverShaped(c: Client, f: Frame, k: Stack, sig: Signal)
    requires On(f, k) && Shaped(k) && !Outside(f)
    ensures NextShaped(Deliver(c, f, sig), k)
  {
    var next := Deliver(c, f, sig);
    if next.Hold? { PushAll(next.fs, k); }
  }

  lemma {:induction false} UnwindShaped(next: Next, k: Stack)
    requires NextShaped(next, k) && Shaped(k) && Callees(k)
    ensures Shaped(Unwind(next, k).k)
    decreases |k|
  {
    if next.Pass? && k != [] {
      DeliverShaped(next.c, k[0], k[1..], next.sig);
      UnwindShaped(Deliver(next.c, k[0], next.sig), k[1..]);
    }
  }

  ghost predicate AllShaped(calls: seq<Call>) {
    forall id :: 0 <= id < |calls| ==> Shaped(calls[id].k)
  }

  lemma EnteredShaped(c: Client, entry: Entry)
    ensures Shaped(Unwind(Entered(c, entry), []).k)
  {
    var next := Entered(c, entry);
    if next.Hold? { PushAll(next.fs, []); }
  }

  lemma InstallShaped(c: Client, calls: seq<Call>, id: nat, e: Event)
    requires AllShaped(calls) && id < |calls| && CallWithin(calls[id]) && calls[id].k != [] && Fits(calls[id].k[0], e)
    ensures AllShaped(Install(calls, id, Stretch(c, calls[id].k[0], e), ErrorsOf(calls[id].k[0], e)).calls)
  {
    var f, k := calls[id].k[0], calls[id].k[1..];
    assert Shaped(calls[id].k);
    StretchShaped(c, f, k, e);
    UnwindShaped(Stretch(c, f, e), k);
    PushAll([Post(Login), LoginPost], []);
    assert [Post(Login), LoginPost] + [] == [Post(Login), LoginPost];
  }

  lemma StepShaped(s: System, e: Event)
    requires AllShaped(s.calls) && Budgeted(s.calls) && Enabled(s, e)
    ensures AllShaped(Step(s, e).calls)
  {
    match e
    case Tick(_) =>
    case Begin(entry) => EnteredShaped(s.c, entry);
    case ReadFile(id) =>
      assert Shaped(s.calls[id].k);
      Push1(Reading(Some(s.c.file)), s.calls[id].k[1..]);
    case _ => InstallShaped(Noticed(s.c, e), s.calls, e.id, e);
  }

  lemma {:induction false} RunShaped(s0: System, es: seq<Event>, s: System)
    requires Run(s0, es, s) && s0.calls == [] && TimelySystem(s0.c, []) && s0.c.clock >= 0
    ensures AllShaped(s.calls) && Budgeted(s.calls) && s.c.clock >= 0
    decreases |es|
  {
    RunWithin(s0, es, s);
    if es != [] {
      var r := LastStep(s0, es, s);
      RunShaped(s0, es[..|es| - 1], r);
      StepShaped(r, es[|es| - 1]);
      RunTimely(s0, es[..|es| - 1], r);
      StepClock(r, es[|es| - 1]);
    }
  }

  lemma StepClock(s: System, e: Event)
    requires Enabled(s, e) && Budgeted(s.calls) && TimelySystem(s.c, s.calls)
    ensures Step(s, e).c.clock >= s.c.clock
  {
    match e
    case Tick(_) =>
    case Begin(_) =>
    case ReadFile(_) =>
    case _ =>
      var c, k := Noticed(s.c, e), s.calls[e.id].k;
      StretchClock(c, k[0], e);
      UnwindClock(Stretch(c, k[0], e), k[1..]);
  }

  lemma StretchClock(c: Client, f: Frame, e: Event)
    ensures Stretch(c, f, e).c.clock == c.clock
  {
  }

  lemma {:induction false} UnwindClock(next: Next, k: Stack)
    ensures Unwind(next, k).c.clock == next.c.clock
    decreases |k|
  {
    if next.Pass? && k != [] { UnwindClock(Deliver(next.c, k[0], next.sig), k[1..]); }
  }

  // ================================================================ how a request ends

  predicate Refused(last: Option<Answer>) {
    last.Some? && !Good(last.value)
  }

  // What the bottom frame of a request's stack, and the one on it, say of the latest data answer.
  predicate Bottom(b: Frame, last: Option<Answer>) {
    match b
    case FirstLogin => last.None?
    case FirstPost => true
    case RetryNap(_) => Refused(last)
    case RetryLogin => Refused(last)
    case RetryPost => true
    case _ => false
  }

  predicate OnBottom(u: Frame, b: Frame, last: Option<Answer>) {
    match b
    case FirstLogin => last.None?
    case RetryLogin => Refused(last)
    case FirstPost => if u.Post? then last.None? else Told(u, last)
    case RetryPost => if u.Post? then Refused(last) else Told(u, last)
    case _ => false
  }

  predicate Told(u: Frame, last: Option<Answer>) {
    (u.RateWait? || u.RecoverAccess?) && last == Some(u.answer) && (u.RecoverAccess? ==> !Good(u.answer))
  }

  predicate Consistent(k: Stack, last: Option<Answer>) {
    if |k| == 0 then false
    else if |k| == 1 then Bottom(k[0], last)
    else if |k| == 2 then OnBottom(k[0], k[1], last)
    else Consistent(k[1..], last)
  }

  lemma {:induction false} ConsistentDeep(fs: Stack, k: Stack, last: Option<Answer>)
    requires |k| >= 2
    ensures Consistent(fs + k, last) <==> Consistent(k, last)
  {
    if fs == [] {
      assert fs + k == k;
    } else {
      assert (fs + k)[1..] == fs[1..] + k;
      ConsistentDeep(fs[1..], k, last);
    }
  }

  // What a signal to the bottom frame must say.
  predicate Reports(sig: Signal, b: Frame, last: Option<Answer>) {
    match b
    case FirstLogin => last.None?
    case RetryLogin => Refused(last)
    case _ =>
      if sig.Throw? then last.None? || !Good(last.value)
      else sig.r.Some? && last == Some(sig.r.value.answer) && (sig.r.value.ok <==> Good(sig.r.value.answer))
           && (sig.r.value.ok ==> sig.r.value.retryAfter == 0)
  }

  predicate Ended(sig: Signal, last: Option<Answer>) {
    if last.Some? && Good(last.value) then sig == Return(Some(Response(true, last.value, 0))) else sig.Throw?
  }

  predicate OutConsistent(out: Out, last: Option<Answer>) {
    if out.k == [] then out.result.Some? && Ended(out.result.value, last) else Consistent(out.k, last)
  }

  lemma BottomDelivers(c: Client, b: Frame, sig: Signal, last: Option<Answer>)
    requires OfRequest(b) && !Outside(b) && Reports(sig, b, last)
    ensures OutConsistent(Unwind(Deliver(c, b, sig), []), last)
  {
    var next := Deliver(c, b, sig);
    if next.Hold? { assert next.fs + [] == next.fs; }
  }

  lemma SecondDelivers(c: Client, u: Frame, b: Frame, sig: Signal, last: Option<Answer>)
    requires On(u, [b]) && OfRequest(b) && !Outside(u) && OnBottom(u, b, last)
    ensures var next := Deliver(c, u, sig);
            if next.Hold? then Consistent(next.fs + [b], last) else Reports(next.sig, b, last)
  {
    var next := Deliver(c, u, sig);
    if next.Hold? {
      assert next.fs + [b] == [next.fs[0]] + [next.fs[1], b];
      ConsistentDeep([next.fs[0]], [next.fs[1], b], last);
    }
  }

  lemma {:induction false} UnwindConsistent(next: Next, k: Stack, last: Option<Answer>)
    requires Shaped(k) && Callees(k) && k != [] && OfRequest(k[|k| - 1])
    requires if next.Hold? then Consistent(next.fs + k, last) && next.fs != []
             else if |k| == 1 then Reports(next.sig, k[0], last) else Consistent(k, last)
    ensures OutConsistent(Unwind(next, k), last)
    decreases |k|
  {
    if next.Pass? {
      var next' := Deliver(next.c, k[0], next.sig);
      if |k| == 1 {
        assert k[1..] == [];
        BottomDelivers(next.c, k[0], next.sig, last);
      } else if |k| == 2 {
        assert k[1..] == [k[1]];
        SecondDelivers(next.c, k[0], k[1], next.sig, last);
        UnwindConsistent(next', k[1..], last);
      } else {
        if next'.Hold? { ConsistentDeep(next'.fs, k[1..], last); }
        UnwindConsistent(next', k[1..], last);
      }
    }
  }

  // The latest data answer after an event.
  function LastAfter(f: Frame, e: Event, last: Option<Answer>): Option<Answer> {
    if e.Answered? && f == Post(Data) then Some(e.a) else last
  }

  // A stretch whose frame stands directly on the bottom one.
  lemma ShallowStretch(c: Client, f: Frame, b: Frame, e: Event, last: Option<Answer>)
    requires On(f, [b]) && OfRequest(b) && Outside(f) && Fits(f, e) && OnBottom(f, b, last)
    ensures var next, last' := Stretch(c, f, e), LastAfter(f, e, last);
            if next.Hold? then next.fs != [] && Consistent(next.fs + [b], last') else Reports(next.sig, b, last')
  {
    var next, last' := Stretch(c, f, e), LastAfter(f, e, last);
    if next.Hold? {
      if |next.fs| == 1 {
        assert next.fs + [b] == [next.fs[0], b];
      } else if |next.fs| == 2 {
        assert next.fs + [b] == [next.fs[0]] + [next.fs[1], b];
        ConsistentDeep([next.fs[0]], [next.fs[1], b], last');
      } else {
        assert next.fs + [b] == [next.fs[0], next.fs[1]] + [next.fs[2], b];
        ConsistentDeep([next.fs[0], next.fs[1]], [next.fs[2], b], last');
      }
    }
  }

  lemma StretchConsistent(c: Client, k: Stack, e: Event, last: Option<Answer>)
    requires Shaped(k) && k != [] && Outside(k[0]) && Callees(k[1..]) && Fits(k[0], e) && OfRequest(k[|k| - 1])
    requires Consistent(k, last)
    ensures OutConsistent(Unwind(Stretch(c, k[0], e), k[1..]), LastAfter(k[0], e, last))
  {
    var next, last' := Stretch(c, k[0], e), LastAfter(k[0], e, last);
    if |k| == 1 {
      LoneStretch(c, k[0], e, last);
      assert k[1..] == [];
    } else if |k| == 2 {
      assert k[1..] == [k[1]];
      ShallowStretch(c, k[0], k[1], e, last);
      UnwindConsistent(next, k[1..], last');
    } else {
      DeepStretch(c, k, e, last);
    }
  }

  lemma LoneStretch(c: Client, f: Frame, e: Event, last: Option<Answer>)
    requires OfRequest(f) && Outside(f) && Fits(f, e) && Bottom(f, last)
    ensures OutConsistent(Unwind(Stretch(c, f, e), []), LastAfter(f, e, last))
  {
    var next := Stretch(c, f, e);
    assert next.fs + [] == next.fs;
  }

  lemma DeepStretch(c: Client, k: Stack, e: Event, last: Option<Answer>)
    requires Shaped(k) && |k| > 2 && Callees(k[1..]) && Fits(k[0], e) && OfRequest(k[|k| - 1]) && Consistent(k, last)
    ensures OutConsistent(Unwind(Stretch(c, k[0], e), k[1..]), LastAfter(k[0], e, last))
  {
    var next := Stretch(c, k[0], e);
    assert On(k[1], k[1..][1..]);
    StretchHolds(c, k[0], e);
    if next.Hold? { ConsistentDeep(next.fs, k[1..], last); }
    UnwindConsistent(next, k[1..], last);
  }

  lemma StretchHolds(c: Client, f: Frame, e: Event)
    requires Fits(f, e)
    ensures Stretch(c, f, e).Hold? ==> Stretch(c, f, e).fs != []
  {
  }

  // ---------------------------------------------------------------- over runs

  // The answer to a data post of call id that this event brings, if it does.
  function DataAnswer(s: System, e: Event, id: nat): seq<Answer>
    requires Enabled(s, e)
  {
    if e.Answered? && e.id == id && Top(s, id) == Post(Data) then [e.a] else []
  }

  // A run, and the answers to the data posts of call id in it.
  ghost predicate RunAnswers(s0: System, es: seq<Event>, s: System, id: nat, answers: seq<Answer>)
    decreases |es|
  {
    if es == [] then s == s0 && answers == []
    else
      var n := |es| - 1;
      exists r, before ::
        && RunAnswers(s0, es[..n], r, id, before)
        && Enabled(r, es[n]) && s == Step(r, es[n])
        && answers == before + DataAnswer(r, es[n], id)
  }

  lemma {:induction false} RunHasAnswers(s0: System, es: seq<Event>, s: System, id: nat) returns (answers: seq<Answer>)
    requires Run(s0, es, s)
    ensures RunAnswers(s0, es, s, id, answers)
    decreases |es|
  {
    if es == [] {
      answers := [];
    } else {
      var n := |es| - 1;
      var r := LastStep(s0, es, s);
      var before := RunHasAnswers(s0, es[..n], r, id);
      answers := before + DataAnswer(r, es[n], id);
    }
  }

  function Last(answers: seq<Answer>): Option<Answer> {
    if answers == [] then None else Some(answers[|answers| - 1])
  }

  ghost predicate CallConsistent(calls: seq<Call>, id: nat, last: Option<Answer>) {
    if id >= |calls| then last.None?
    else calls[id].entry == Request ==>
      if calls[id].k == [] then calls[id].result.Some? && Ended(calls[id].result.value, last)
      else Consistent(calls[id].k, last)
  }

  lemma InstallConsistent(s: System, e: Event, id: nat, answers: seq<Answer>)
    requires Enabled(s, e) && !e.Tick? && !e.Begin? && !e.ReadFile?
    requires AllShaped(s.calls) && Budgeted(s.calls) && AllProper(s.calls) && CallConsistent(s.calls, id, Last(answers))
    ensures CallConsistent(Step(s, e).calls, id, Last(answers + DataAnswer(s, e, id)))
  {
    assert answers + [] == answers;
    assert CallWithin(s.calls[e.id]) && Shaped(s.calls[e.id].k) && CallProper(s.calls[e.id]);
    if e.id == id && s.calls[id].entry == Request {
      StretchConsistent(Noticed(s.c, e), s.calls[id].k, e, Last(answers));
    }
  }

  lemma StepConsistent(s: System, e: Event, id: nat, answers: seq<Answer>)
    requires Enabled(s, e)
    requires AllShaped(s.calls) && Budgeted(s.calls) && AllProper(s.calls) && CallConsistent(s.calls, id, Last(answers))
    ensures CallConsistent(Step(s, e).calls, id, Last(answers + DataAnswer(s, e, id)))
  {
    match e
    case Tick(_) => assert answers + [] == answers;
    case Begin(entry) =>
      assert answers + [] == answers;
      BeginConsistent(s.c, entry);
    case ReadFile(i) =>
      assert answers + [] == answers;
      if i == id && s.calls[id].entry == Request {
        assert Shaped(s.calls[id].k) && CallProper(s.calls[id]);
        ReadFileConsistent(s.calls[id].k, s.c.file, Last(answers));
      }
    case _ => InstallConsistent(s, e, id, answers);
  }

  lemma BeginConsistent(c: Client, entry: Entry)
    ensures var out := Unwind(Entered(c, entry), []);
            entry == Request ==> out.k != [] && Consistent(out.k, None)
  {
    var next := Entered(c, entry);
    if next.Hold? { assert next.fs + [] == next.fs; }
  }

  lemma ReadFileConsistent(k: Stack, file: Option<Pair>, last: Option<Answer>)
    requires Shaped(k) && k != [] && k[0].Reading? && OfRequest(k[|k| - 1]) && Consistent(k, last)
    ensures Consistent([Reading(Some(file))] + k[1..], last)
  {
    assert k == [k[0], k[1]];
    assert [Reading(Some(file))] + k[1..] == [Reading(Some(file)), k[1]];
  }

  lemma {:induction false} RunConsistent(s0: System, es: seq<Event>, s: System, id: nat, answers: seq<Answer>)
    requires RunAnswers(s0, es, s, id, answers) && s0.calls == [] && TimelySystem(s0.c, []) && s0.c.clock >= 0
    ensures Run(s0, es, s) && CallConsistent(s.calls, id, Last(answers))
    decreases |es|
  {
    if es != [] {
      var n := |es| - 1;
      var r, before :| RunAnswers(s0, es[..n], r, id, before) && Enabled(r, es[n]) && s == Step(r, es[n])
                       && answers == before + DataAnswer(r, es[n], id);
      RunConsistent(s0, es[..n], r, id, before);
      RunShaped(s0, es[..n], r);
      RunProper(s0, es[..n], r);
      StepConsistent(r, es[n], id, before);
    }
  }

  /**
   A request that is over returned normally if and only if the last answer to one of its data
   posts has code absent or 1, and then it returned that answer; while it is not over, such an
   answer can only be waiting for the pause near the rate limit.
   */
  lemma {:induction false} RequestReturnsExactly(file: Option<Pair>, configured: bool, es: seq<Event>, s: System,
                                                id: nat, answers: seq<Answer>)
    requires RunAnswers(Initial(file, configured), es, s, id, answers)
    requires id < |s.calls| && s.calls[id].entry == Request
    ensures var last, result := Last(answers), s.calls[id].result;
            && (result.Some? ==>
                  (result.value.Return? <==> last.Some? && (last.value.code.Absent? || last.value.code.n == 1)))
            && (result.Some? && result.value.Return? ==> result.value.r == Some(Response(true, last.value, 0)))
            && (result.None? && last.Some? && (last.value.code.Absent? || last.value.code.n == 1) ==>
                  s.calls[id].k != [] && s.calls[id].k[0] == RateWait(last.value))
  {
    var s0 := Initial(file, configured);
    RunConsistent(s0, es, s, id, answers);
    RunShaped(s0, es, s);
    RunProper(s0, es, s);
    assert CallWithin(s.calls[id]) && Shaped(s.calls[id].k) && CallProper(s.calls[id]);
    if s.calls[id].result.None? { ConsistentGood(s.calls[id].k, Last(answers)); }
  }

  lemma {:induction false} ConsistentGood(k: Stack, last: Option<Answer>)
    requires Consistent(k, last) && Shaped(k) && Callees(k[1..]) && OfRequest(k[|k| - 1])
    requires Outside(k[0]) || |k| > 1
    ensures last.Some? && Good(last.value) ==> |k| == 2 && k[0] == RateWait(last.value)
  {
    if |k| > 2 {
      ConsistentGood(k[1..], last);
      assert !Outside(k[1]);
    }
  }

  // ================================================================ when a request is retried

  predicate FirstTry(k: Stack) {
    k != [] && k[|k| - 1].FirstPost?
  }

  predicate Retrying(k: Stack) {
    k != [] && (k[|k| - 1].RetryNap? || k[|k| - 1].RetryLogin? || k[|k| - 1].RetryPost?)
  }

  // The refresh for the first data post's rejected token has saved its tokens.
  predicate Refreshed(k: Stack, e: Event) {
    |k| == 4 && k[0].Write? && k[1].RefreshSave? && e.WriteDone? && e.ok
  }

  predicate LimitedNow(k: Stack, e: Event) {
    |k| == 2 && TakenIn(k[0], e).Some? && RateLimit(TakenIn(k[0], e).value)
  }

  lemma {:induction false} BottomKept(next: Next, k: Stack)
    requires Shaped(k) && Callees(k) && |k| >= 3 && FirstTry(k) && k[|k| - 3].RefreshPost?
    ensures !Retrying(Unwind(next, k).k)
    decreases |k|
  {
    if next.Hold? {
      assert (next.fs + k)[|next.fs + k| - 1] == k[|k| - 1];
    } else if |k| == 3 {
      RefreshThrows(next.c, k, next.sig);
    } else {
      BottomKept(Deliver(next.c, k[0], next.sig), k[1..]);
    }
  }

  // A refresh that fails makes the request fail.
  lemma RefreshThrows(c: Client, k: Stack, sig: Signal)
    requires Shaped(k) && |k| == 3 && k[0].RefreshPost? && k[2].FirstPost?
    ensures !Retrying(Unwind(Deliver(c, k[0], sig), k[1..]).k)
  {
    assert k[1..] == [k[1], k[2]];
    ThrowsToBottom(c, k[1], k[2]);
    var next := Deliver(c, k[0], sig);
    if next.Hold? { assert (next.fs + k[1..])[|next.fs + k[1..]| - 1] == k[2]; }
  }

  lemma ThrowsToBottom(c: Client, u: Frame, b: Frame)
    requires u.RecoverAccess? && b.FirstPost?
    ensures Unwind(Pass(c, Throw, false), [u, b]) == Out(c, [], Some(Throw))
  {
    assert [u, b][1..] == [b] && [b][1..] == [];
    assert Unwind(Pass(c, Throw, false), [b]) == Unwind(Deliver(c, b, Throw), []);
  }

  // The signal of a saved refresh reaches the request.
  lemma SavedRefresh(c: Client, f: Frame, u: Frame, b: Frame, sig: Signal)
    requires f.RefreshSave? && u.RecoverAccess? && b.FirstPost? && (sig == DONE || sig.Throw?)
    ensures var k := Unwind(Pass(c, sig, false), [f, u, b]).k;
            if sig == DONE && c.access != "" && c.clock != 0 then k == [Post(Data), RetryPost] else !Retrying(k)
  {
    assert [f, u, b][1..] == [u, b] && [u, b][1..] == [b] && [b][1..] == [];
    if sig == DONE {
      var r := Return(Some(Response(false, u.answer, if c.access != "" then c.clock else 0)));
      assert Unwind(Pass(c, DONE, false), [u, b]) == Unwind(Pass(c, r, false), [b]);
      assert Unwind(Pass(c, r, false), [b]) == Unwind(Deliver(c, b, r), []);
      assert [Post(Data), RetryPost] + [] == [Post(Data), RetryPost];
    } else {
      ThrowsToBottom(c, u, b);
      var next := RefreshFailed(c, f.attempt);
      if next.Hold? { assert (next.fs + [u, b])[|next.fs + [u, b]| - 1] == b; }
    }
  }

  // An answer to the first data post itself.
  lemma AnswerToFirst(c: Client, b: Frame, a: Answer)
    requires b.FirstPost? && c.clock >= 0
    ensures var k := Unwind(Handle(c, a), [b]).k;
            if RateLimit(a) then k == [RetryNap(c.clock + 600000)] else !Retrying(k)
  {
    assert [b][1..] == [];
    var next := Handle(c, a);
    if next.Hold? {
      assert (next.fs + [b])[|next.fs + [b]| - 1] == b;
    } else {
      var next' := Deliver(next.c, b, next.sig);
      assert Unwind(next, [b]) == Unwind(next', []);
      if next'.Hold? { assert next'.fs + [] == next'.fs; }
    }
  }

  lemma ShallowRetry(c: Client, k: Stack, e: Event)
    requires Shaped(k) && |k| == 2 && Outside(k[0]) && Fits(k[0], e) && FirstTry(k) && c.clock >= 0
    ensures var k' := Unwind(Stretch(c, k[0], e), k[1..]).k;
            if LimitedNow(k, e) then k' == [RetryNap(c.clock + 600000)] else !Retrying(k')
  {
    assert k[1..] == [k[1]] && [k[1]][1..] == [];
    if TakenIn(k[0], e).Some? {
      AnswerToFirst(c, k[1], TakenIn(k[0], e).value);
    } else {
      var next := Stretch(c, k[0], e);
      if next.Hold? {
        assert (next.fs + [k[1]])[|next.fs + [k[1]]| - 1] == k[1];
      } else {
        assert Unwind(next, [k[1]]) == Unwind(Deliver(c, k[1], Throw), []);
      }
    }
  }

  lemma SaveRetry(c: Client, k: Stack, e: Event)
    requires Shaped(k) && |k| == 4 && k[1].RefreshSave? && Outside(k[0]) && Fits(k[0], e) && FirstTry(k)
    ensures var k' := Unwind(Stretch(c, k[0], e), k[1..]).k;
            if Refreshed(k, e) && c.access != "" && c.clock != 0 then k' == [Post(Data), RetryPost] else !Retrying(k')
  {
    assert k[1..] == [k[1], k[2], k[3]];
    assert On(k[1], k[1..][1..]);
    var next := Stretch(c, k[0], e);
    if next.Hold? {
      assert (next.fs + k[1..])[|next.fs + k[1..]| - 1] == k[3];
    } else {
      SavedRefresh(next.c, k[1], k[2], k[3], next.sig);
    }
  }

  // What stands three from the bottom of a first try that awaits a refresh.
  lemma {:induction false} RefreshBelow(k: Stack)
    requires Shaped(k) && FirstTry(k) && |k| >= 3 && Callees(k[1..])
    ensures k[|k| - 2].RecoverAccess?
    ensures k[|k| - 3].RefreshNap? || k[|k| - 3].RefreshPost? || k[|k| - 3].RefreshSave?
    ensures k[|k| - 3].RefreshNap? ==> |k| == 3
    ensures k[|k| - 3].RefreshSave? ==> |k| <= 4
  {
    if |k| == 3 {
      assert On(k[1], k[1..][1..]);
      assert !Outside(k[1]);
    } else {
      RefreshBelow(k[1..]);
      assert !Outside(k[1]);
      if |k| == 5 {
        assert On(k[1], k[1..][1..]) && On(k[0], k[1..]);
      }
    }
  }

  lemma StretchRetries(c: Client, k: Stack, e: Event)
    requires Shaped(k) && FirstTry(k) && Outside(k[0]) && Callees(k[1..]) && Fits(k[0], e) && c.clock >= 0
    ensures var k' := Unwind(Stretch(c, k[0], e), k[1..]).k;
            if LimitedNow(k, e) then k' == [RetryNap(c.clock + 600000)]
            else if Refreshed(k, e) && c.access != "" && c.clock != 0 then k' == [Post(Data), RetryPost]
            else !Retrying(k')
  {
    if |k| == 2 {
      ShallowRetry(c, k, e);
    } else if |k| >= 3 {
      RefreshBelow(k);
      if k[|k| - 3].RefreshNap? {
        var next := Stretch(c, k[0], e);
        assert (next.fs + k[1..])[|next.fs + k[1..]| - 1] == k[2];
      } else if k[|k| - 3].RefreshSave? {
        SaveRetry(c, k, e);
      } else {
        assert |k| >= 4;
        BottomKept(Stretch(c, k[0], e), k[1..]);
      }
    }
  }

  /**
   A request leaves its first try for a retry exactly when it takes in a rate-limit answer to its
   data post, and then waits ten minutes, or when the refresh for its rejected token has been
   saved and an access token is there, and then posts again at once.
   */
  lemma {:induction false} RetriedExactly(file: Option<Pair>, configured: bool, es: seq<Event>, s: System, id: nat, e: Event)
    requires Run(Initial(file, configured), es, s) && Enabled(s, e)
    requires !e.Tick? && !e.Begin? && !e.ReadFile? && e.id == id
    requires s.calls[id].entry == Request && FirstTry(s.calls[id].k)
    ensures var k, k' := s.calls[id].k, Step(s, e).calls[id].k;
            && (Retrying(k') <==> LimitedNow(k, e) || (Refreshed(k, e) && s.c.access != "" && s.c.clock != 0))
            && (LimitedNow(k, e) ==> k' == [RetryNap(s.c.clock + 600000)])
            && (Refreshed(k, e) && Retrying(k') ==> k' == [Post(Data), RetryPost])
  {
    RunShaped(Initial(file, configured), es, s);
    assert CallWithin(s.calls[id]) && Shaped(s.calls[id].k);
    StretchRetries(Noticed(s.c, e), s.calls[id].k, e);
  }
}
