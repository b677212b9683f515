/**
 How much one call can do, in every interleaving: posts, refreshes and stretches
 are bounded by the number of access-token errors the server answers it with.
 */
module ClientBudget {
  import opened Basics
  import opened ClientModel
  import opened ClientProofs

  // ---------------------------------------------------------------- potentials

  // Stretches a frame may still cost, apart from those that token errors bring in.
  function Stretches(f: Frame): nat {
    match f
    case Post(_) => 2
    case RateWait(_) => 1
    case Write(_, attempt) => if attempt == 0 then 3 else 1
    case WriteNap(_, attempt) => if attempt == 0 then 4 else 2
    case Reading(_) => 151
    case DebounceNap(_, waited, _) => if 0 <= waited < CAP then (CAP - waited) / 2000 else 0
    case RefreshNap(attempt) => if attempt == 0 then 12 else 6
    case RefreshPost(attempt) => if attempt == 0 then 9 else 3
    case RefreshSave(attempt) => if attempt == 0 then 6 else 0
    case RecoverAccess(_) => 0
    case LoginPost => 3
    case LoginSave => 0
    case FirstLogin => 156
    case FirstPost => 154
    case RetryNap(_) => 154
    case RetryLogin => 2
    case RetryPost => 0
  }

  // Posts to the refresh endpoint a frame may still make.
  function Refreshes(f: Frame): nat {
    match f
    case RefreshPost(attempt) => if attempt == 0 then 1 else 0
    case RefreshSave(attempt) => if attempt == 0 then 1 else 0
    case RefreshNap(attempt) => if attempt == 0 then 2 else 1
    case _ => 0
  }

  // Data posts a frame may still make.
  function DataPosts(f: Frame): nat {
    match f
    case FirstLogin => 2
    case FirstPost => 1
    case RetryNap(_) => 1
    case RetryLogin => 1
    case _ => 0
  }

  function AllStretches(k: Stack): nat {
    if k == [] then 0 else Stretches(k[0]) + AllStretches(k[1..])
  }

  function AllRefreshes(k: Stack): nat {
    if k == [] then 0 else Refreshes(k[0]) + AllRefreshes(k[1..])
  }

  function AllDataPosts(k: Stack): nat {
    if k == [] then 0 else DataPosts(k[0]) + AllDataPosts(k[1..])
  }

  lemma {:induction false} Concat(j: Stack, k: Stack)
    ensures AllStretches(j + k) == AllStretches(j) + AllStretches(k)
    ensures AllRefreshes(j + k) == AllRefreshes(j) + AllRefreshes(k)
    ensures AllDataPosts(j + k) == AllDataPosts(j) + AllDataPosts(k)
  {
    if j == [] {
      assert j + k == k;
    } else {
      assert (j + k)[1..] == j[1..] + k;
      Concat(j[1..], k);
    }
  }

  // A post on top of the stack has been made.
  ghost predicate StackWithin(k: Stack, stretches: int, refreshes: int, data: int) {
    && AllStretches(k) <= stretches
    && AllRefreshes(k) + CountPosts(k, Refresh) <= refreshes
    && AllDataPosts(k) + CountPosts(k, Data) <= data
  }

  ghost predicate NextWithin(next: Next, stretches: int, refreshes: int, data: int) {
    if next.Hold? then
      next.fs != [] && Outside(next.fs[0]) && Callees(next.fs[1..]) && StackWithin(next.fs, stretches, refreshes, data)
    else 0 <= stretches && 0 <= refreshes && 0 <= data
  }

  lemma Single(f: Frame)
    ensures AllStretches([f]) == Stretches(f) && AllRefreshes([f]) == Refreshes(f) && AllDataPosts([f]) == DataPosts(f)
  {
    assert [f][1..] == [];
  }

  lemma NextShort(next: Next)
    requires next.Hold? && 1 <= |next.fs| <= 3 && Outside(next.fs[0])
    requires forall i :: 1 <= i < |next.fs| ==> !Outside(next.fs[i])
    ensures Callees(next.fs[1..])
    ensures StackWithin(next.fs,
      Stretches(next.fs[0]) + (if |next.fs| > 1 then Stretches(next.fs[1]) else 0) + (if |next.fs| > 2 then Stretches(next.fs[2]) else 0),
      Refreshes(next.fs[0]) + (if |next.fs| > 1 then Refreshes(next.fs[1]) else 0) + (if |next.fs| > 2 then Refreshes(next.fs[2]) else 0)
        + CountPosts(next.fs, Refresh),
      DataPosts(next.fs[0]) + (if |next.fs| > 1 then DataPosts(next.fs[1]) else 0) + (if |next.fs| > 2 then DataPosts(next.fs[2]) else 0)
        + CountPosts(next.fs, Data))
  {
    var fs := next.fs;
    Single(fs[0]);
    if |fs| == 1 {
      assert fs == [fs[0]];
    } else if |fs| == 2 {
      assert fs == [fs[0]] + [fs[1]];
      Concat([fs[0]], [fs[1]]);
      Single(fs[1]);
    } else {
      assert fs == [fs[0]] + ([fs[1]] + [fs[2]]);
      Concat([fs[0]], [fs[1]] + [fs[2]]);
      Concat([fs[1]], [fs[2]]);
      Single(fs[1]);
      Single(fs[2]);
    }
  }

  // Handing a signal to a frame costs no more than the frame was worth.
  lemma DeliverWithin(c: Client, f: Frame, sig: Signal)
    requires !Outside(f)
    ensures NextWithin(Deliver(c, f, sig), Stretches(f), Refreshes(f), DataPosts(f))
  {
    var next := Deliver(c, f, sig);
    if next.Hold? { NextShort(next); }
  }

  // A stretch pays for itself, except that a token error brings in a new refresh.
  lemma StretchWithin(c: Client, f: Frame, e: Event)
    requires Fits(f, e) && Doubling(c.debounce) && NapTimely(f, c.clock)
    ensures var n := ErrorsOf(f, e);
            NextWithin(Stretch(c, f, e), Stretches(f) - 1 + 12 * n, Refreshes(f) + 2 * n, DataPosts(f))
  {
    match e
    case ReadDone(_, readable) =>
      AfterLoadWithin(if readable && f.content.Some? then Load(c, f.content.value) else c);
    case Answered(_, a) => if a.nearRateLimit { Single(RateWait(a)); } else { HandleWithin(c, a); }
    case NetworkFailed(_) =>
    case WriteDone(_, _) => Single(WriteNap(f.data, f.attempt + 1));
    case Woken(_) => WakeWithin(c, f);
  }

  lemma AfterLoadWithin(c: Client)
    requires Doubling(c.debounce)
    ensures NextWithin(AfterLoad(c), 150, 0, 0)
  {
    var next := AfterLoad(c);
    if next.Hold? { NextShort(next); }
  }

  lemma HandleWithin(c: Client, a: Answer)
    ensures NextWithin(Handle(c, a), 12 * IsTokenError(a), 2 * IsTokenError(a), 0)
  {
    var next := Handle(c, a);
    if next.Hold? { NextShort(next); }
  }

  lemma WakeWithin(c: Client, f: Frame)
    requires f.RateWait? || f.WriteNap? || f.RefreshNap? || f.RetryNap? || f.DebounceNap?
    requires Doubling(c.debounce) && NapTimely(f, c.clock)
    ensures var n := if f.RateWait? then IsTokenError(f.answer) else 0;
            NextWithin(Wake(c, f), Stretches(f) - 1 + 12 * n, Refreshes(f) + 2 * n, DataPosts(f))
  {
    var next := Wake(c, f);
    if f.RateWait? {
      HandleWithin(c, f.answer);
    } else if next.Hold? {
      NextShort(next);
    }
  }

  // The event is the one the frame waits for.
  predicate Fits(f: Frame, e: Event) {
    match e
    case ReadDone(_, _) => f.Reading?
    case Answered(_, _) => f.Post?
    case NetworkFailed(_) => f.Post?
    case WriteDone(_, _) => f.Write?
    case Woken(_) => f.RateWait? || f.WriteNap? || f.RefreshNap? || f.RetryNap? || f.DebounceNap?
    case _ => false
  }

  predicate Callees(k: Stack) {
    forall i :: 0 <= i < |k| ==> !Outside(k[i])
  }

  lemma {:induction false} UnwindWithin(next: Next, k: Stack, stretches: int, refreshes: int, data: int)
    requires NextWithin(next, stretches, refreshes, data) && Callees(k)
    ensures var out := Unwind(next, k);
            && StackWithin(out.k, stretches + AllStretches(k), refreshes + AllRefreshes(k), data + AllDataPosts(k))
            && (out.k != [] ==> Outside(out.k[0]) && Callees(out.k[1..]))
            && (out.k == [] <==> out.result.Some?)
    decreases |k|
  {
    if next.Hold? {
      Concat(next.fs, k);
      assert (next.fs + k)[1..] == next.fs[1..] + k;
    } else if k != [] {
      var f := k[0];
      DeliverWithin(next.c, f, next.sig);
      UnwindWithin(Deliver(next.c, f, next.sig), k[1..], Stretches(f), Refreshes(f), DataPosts(f));
    }
  }

  // ---------------------------------------------------------------- calls

  // The refreshes a call was begun with, and the data posts of its entry point.
  function Roots(entry: Entry): nat {
    if entry == RefreshToken then 1 else 0
  }

  function Allowance(entry: Entry): nat {
    if entry == Request then 2 else 0
  }

  // Stretches of a call that meets no token error.
  function Base(entry: Entry): nat {
    match entry
    case Request => 307
    case MaybeLogin => 151
    case RefreshToken => 11
    case LoginDirect => 5
  }

  ghost predicate CallWithin(call: Call) {
    && (call.k != [] ==> Outside(call.k[0]) && Callees(call.k[1..]))
    && (call.k == [] <==> call.result.Some?)
    && call.stretches + AllStretches(call.k) <= Base(call.entry) + 12 * call.tokenErrors
    && call.refreshPosts + AllRefreshes(call.k) <= 2 * (call.tokenErrors + Roots(call.entry))
    && call.dataPosts + AllDataPosts(call.k) <= Allowance(call.entry)
  }

  lemma EnteredWithin(c: Client, entry: Entry)
    ensures var out := Unwind(Entered(c, entry), []); CallWithin(NewCall(entry, out.k, out.result))
  {
    var next := Entered(c, entry);
    if next.Hold? { NextShort(next); }
    UnwindWithin(next, [], Base(entry), 2 * Roots(entry), Allowance(entry));
  }

  lemma FloatingWithin(next: Next)
    ensures forall call <- Floating(next) :: CallWithin(call)
  {
    if Floating(next) != [] { NextShort(Hold(next.c, [Post(Login), LoginPost])); }
  }

  ghost predicate Budgeted(calls: seq<Call>) {
    forall id :: 0 <= id < |calls| ==> CallWithin(calls[id])
  }

  lemma InstallWithin(c: Client, calls: seq<Call>, id: nat, e: Event)
    requires Budgeted(calls) && Doubling(c.debounce) && id < |calls| && calls[id].k != []
    requires Fits(calls[id].k[0], e) && NapTimely(calls[id].k[0], c.clock)
    ensures Budgeted(Install(calls, id, Stretch(c, calls[id].k[0], e), ErrorsOf(calls[id].k[0], e)).calls)
  {
    var f, k, n := calls[id].k[0], calls[id].k[1..], ErrorsOf(calls[id].k[0], e);
    assert CallWithin(calls[id]);
    StretchWithin(c, f, e);
    UnwindWithin(Stretch(c, f, e), k, Stretches(f) - 1 + 12 * n, Refreshes(f) + 2 * n, DataPosts(f));
    FloatingWithin(Stretch(c, f, e));
  }

  lemma StepWithin(s: System, e: Event)
    requires Budgeted(s.calls) && TimelySystem(s.c, s.calls) && Enabled(s, e)
    ensures Budgeted(Step(s, e).calls)
  {
    match e
    case Tick(_) =>
    case Begin(entry) => EnteredWithin(s.c, entry);
    case ReadFile(id) => ReadFileWithin(s.calls[id], s.c.file);
    case _ =>
      assert NapTimely(s.calls[e.id].k[0], s.c.clock);
      InstallWithin(Noticed(s.c, e), s.calls, e.id, e);
  }

  lemma ReadFileWithin(call: Call, file: Option<Pair>)
    requires CallWithin(call) && call.k != [] && call.k[0].Reading?
    ensures CallWithin(call.(k := [Reading(Some(file))] + call.k[1..]))
  {
    assert ([Reading(Some(file))] + call.k[1..])[1..] == call.k[1..];
  }

  lemma {:induction false} RunWithin(s0: System, es: seq<Event>, s: System)
    requires Run(s0, es, s) && TimelySystem(s0.c, s0.calls) && Budgeted(s0.calls)
    ensures Budgeted(s.calls)
    decreases |es|
  {
    if es != [] {
      var n := |es| - 1;
      var r :| Run(s0, es[..n], r) && Enabled(r, es[n]) && s == Step(r, es[n]);
      RunTimely(s0, es[..n], r);
      RunWithin(s0, es[..n], r);
      StepWithin(r, es[n]);
    }
  }

  // ---------------------------------------------------------------- results

  predicate OfRequest(f: Frame) {
    f.FirstLogin? || f.FirstPost? || f.RetryNap? || f.RetryLogin? || f.RetryPost?
  }

  // request() throws, or returns a response whose code is absent or 1.
  predicate Honest(sig: Signal) {
    sig.Return? && sig.r.Some? && sig.r.value.ok ==> Classify(sig.r.value.answer) == Fine
  }

  predicate Proper(sig: Signal) {
    sig.Throw? || (sig.r.Some? && sig.r.value.ok && Classify(sig.r.value.answer) == Fine)
  }

  ghost predicate NextHonest(next: Next) {
    next.Pass? ==> Honest(next.sig)
  }

  lemma {:induction false} UnwindProper(next: Next, k: Stack)
    requires NextHonest(next) && k != [] && OfRequest(k[|k| - 1])
    ensures var out := Unwind(next, k);
            if out.k == [] then out.result.Some? && Proper(out.result.value) else OfRequest(out.k[|out.k| - 1])
    decreases |k|
  {
    if next.Pass? {
      var next' := Deliver(next.c, k[0], next.sig);
      assert NextHonest(next');
      if |k| == 1 {
        assert k[1..] == [];
        assert next'.Pass? ==> Proper(next'.sig);
        assert next'.Hold? ==> next'.fs != [] && OfRequest(next'.fs[|next'.fs| - 1]);
        assert next'.Hold? ==> next'.fs + [] == next'.fs;
      } else {
        UnwindProper(next', k[1..]);
      }
    }
  }

  // A retry nap can be the only frame; any other stack of a request ends in one of its frames.
  lemma InstallProper(c: Client, k: Stack, e: Event)
    requires k != [] && OfRequest(k[|k| - 1]) && Outside(k[0]) && Fits(k[0], e)
    ensures var out := Unwind(Stretch(c, k[0], e), k[1..]);
            if out.k == [] then out.result.Some? && Proper(out.result.value) else OfRequest(out.k[|out.k| - 1])
  {
    if |k| == 1 {
      assert k[1..] == [];
      var next := Stretch(c, k[0], e);
      assert next.fs + [] == next.fs;
    } else {
      UnwindProper(Stretch(c, k[0], e), k[1..]);
    }
  }

  ghost predicate CallProper(call: Call) {
    call.entry == Request ==>
      if call.k == [] then call.result.Some? && Proper(call.result.value) else OfRequest(call.k[|call.k| - 1])
  }

  ghost predicate AllProper(calls: seq<Call>) {
    forall id :: 0 <= id < |calls| ==> CallProper(calls[id])
  }

  lemma InstallAllProper(c: Client, calls: seq<Call>, id: nat, e: Event)
    requires AllProper(calls) && id < |calls| && calls[id].k != [] && Outside(calls[id].k[0]) && Fits(calls[id].k[0], e)
    ensures AllProper(Install(calls, id, Stretch(c, calls[id].k[0], e), ErrorsOf(calls[id].k[0], e)).calls)
  {
    assert CallProper(calls[id]);
    if calls[id].entry == Request {
      InstallProper(c, calls[id].k, e);
    }
  }

  lemma ReadFileProper(call: Call, file: Option<Pair>)
    requires CallProper(call) && call.k != [] && call.k[0].Reading?
    ensures CallProper(call.(k := [Reading(Some(file))] + call.k[1..]))
  {
    var k := call.k;
    assert |k| > 1 ==> ([Reading(Some(file))] + k[1..])[|k| - 1] == k[|k| - 1];
  }

  lemma StepProper(s: System, e: Event)
    requires Enabled(s, e) && AllProper(s.calls) && Budgeted(s.calls)
    ensures AllProper(Step(s, e).calls)
  {
    match e
    case Tick(_) =>
    case Begin(entry) =>
      var next := Entered(s.c, entry);
      if entry == Request { assert next.fs + [] == next.fs; }
    case ReadFile(id) => ReadFileProper(s.calls[id], s.c.file);
    case _ =>
      assert CallWithin(s.calls[e.id]);
      InstallAllProper(Noticed(s.c, e), s.calls, e.id, e);
  }

  lemma {:induction false} RunProper(s0: System, es: seq<Event>, s: System)
    requires Run(s0, es, s) && s0.calls == [] && TimelySystem(s0.c, [])
    ensures AllProper(s.calls)
    decreases |es|
  {
    if es != [] {
      var n := |es| - 1;
      var r :| Run(s0, es[..n], r) && Enabled(r, es[n]) && s == Step(r, es[n]);
      RunProper(s0, es[..n], r);
      RunWithin(s0, es[..n], r);
      StepProper(r, es[n]);
    }
  }

  // ---------------------------------------------------------------- theorems

  lemma UnfinishedCosts(call: Call, clock: int)
    requires CallWithin(call) && call.result.None? && StackTimely(call.k, clock)
    ensures AllStretches(call.k) > 0
  {
    assert NapTimely(call.k[0], clock);
  }

  // Some continuation runs the call's next stretch.
  ghost predicate Resumable(s: System, id: nat)
    requires id < |s.calls|
  {
    exists es, s' :: Run(s, es, s') && id < |s'.calls| && s'.calls[id].stretches == s.calls[id].stretches + 1
  }

  lemma RunSnoc(s0: System, es: seq<Event>, s: System, e: Event)
    requires Run(s0, es, s) && Enabled(s, e)
    ensures Run(s0, es + [e], Step(s, e))
  {
    assert (es + [e])[..|es|] == es;
  }

  lemma ResumeAfter(s: System, es: seq<Event>, r: System, id: nat, e: Event)
    requires id < |s.calls| && Run(s, es, r) && Waiting(r, id) && r.calls[id].stretches == s.calls[id].stretches
    requires Enabled(r, e) && !e.Tick? && !e.Begin? && !e.ReadFile? && e.id == id
    ensures Resumable(s, id)
  {
    RunSnoc(s, es, r, e);
    StretchCounts(r, id, e);
  }

  lemma StretchCounts(r: System, id: nat, e: Event)
    requires Enabled(r, e) && !e.Tick? && !e.Begin? && !e.ReadFile? && e.id == id
    ensures id < |Step(r, e).calls| && Step(r, e).calls[id].stretches == r.calls[id].stretches + 1
  {
  }

  lemma UnfinishedResumable(s: System, id: nat)
    requires id < |s.calls| && CallWithin(s.calls[id]) && s.calls[id].result.None?
    ensures Resumable(s, id)
  {
    var f := s.calls[id].k[0];
    match f
    case Post(_) => ResumeAfter(s, [], s, id, NetworkFailed(id));
    case Write(_, _) => ResumeAfter(s, [], s, id, WriteDone(id, true));
    case Reading(_) =>
      RunSnoc(s, [], s, ReadFile(id));
      ResumeAfter(s, [] + [ReadFile(id)], Step(s, ReadFile(id)), id, ReadDone(id, false));
    case DebounceNap(_, _, _) => SleeperResumable(s, id);
    case RetryNap(_) => SleeperResumable(s, id);
    case _ => ResumeAfter(s, [], s, id, Woken(id));
  }

  lemma SleeperResumable(s: System, id: nat)
    requires Waiting(s, id) && (Top(s, id).DebounceNap? || Top(s, id).RetryNap?)
    ensures Resumable(s, id)
  {
    var wake := Top(s, id).wake;
    var ms: nat := if wake <= s.c.clock then 0 else wake - s.c.clock;
    RunSnoc(s, [], s, Tick(ms));
    ResumeAfter(s, [] + [Tick(ms)], Step(s, Tick(ms)), id, Woken(id));
  }

  /**
   One refreshToken call that the server answers with n access-token errors makes
   at most 2(n + 1) refresh posts through the recursion, and is over after at most
   11 + 12n stretches, whatever the other calls do meanwhile; until then it is never stuck.
   */
  lemma {:induction false} RefreshEnds(file: Option<Pair>, configured: bool, es: seq<Event>, s: System, id: nat)
    requires Run(Initial(file, configured), es, s) && id < |s.calls| && s.calls[id].entry == RefreshToken
    ensures s.calls[id].refreshPosts <= 2 * (s.calls[id].tokenErrors + 1)
    ensures s.calls[id].stretches <= 11 + 12 * s.calls[id].tokenErrors
    ensures s.calls[id].result.None? ==>
              s.calls[id].stretches < 11 + 12 * s.calls[id].tokenErrors && Resumable(s, id)
  {
    RunWithin(Initial(file, configured), es, s);
    RunTimely(Initial(file, configured), es, s);
    assert CallWithin(s.calls[id]);
    if s.calls[id].result.None? {
      UnfinishedCosts(s.calls[id], s.c.clock);
      UnfinishedResumable(s, id);
    }
  }

  /**
   One request makes at most two data posts and, with n access-token errors, at
   most 2n refresh posts; it is over after at most 307 + 12n stretches and never stuck
   until then, and returns normally only with a response whose code is absent or 1.
   */
  lemma {:induction false} RequestBounded(file: Option<Pair>, configured: bool, es: seq<Event>, s: System, id: nat)
    requires Run(Initial(file, configured), es, s) && id < |s.calls| && s.calls[id].entry == Request
    ensures s.calls[id].dataPosts <= 2
    ensures s.calls[id].refreshPosts <= 2 * s.calls[id].tokenErrors
    ensures s.calls[id].stretches <= 307 + 12 * s.calls[id].tokenErrors
    ensures s.calls[id].result.None? ==>
              s.calls[id].stretches < 307 + 12 * s.calls[id].tokenErrors && Resumable(s, id)
    ensures s.calls[id].result.Some? && s.calls[id].result.value.Return? ==>
              var r := s.calls[id].result.value.r;
              r.Some? && r.value.ok && (r.value.answer.code.Absent? || r.value.answer.code.n == 1)
  {
    RunWithin(Initial(file, configured), es, s);
    RunTimely(Initial(file, configured), es, s);
    RunProper(Initial(file, configured), es, s);
    assert CallWithin(s.calls[id]) && CallProper(s.calls[id]);
    if s.calls[id].result.None? {
      UnfinishedCosts(s.calls[id], s.c.clock);
      UnfinishedResumable(s, id);
    }
  }
}
