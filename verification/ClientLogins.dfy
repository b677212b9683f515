/** When maybeLogin starts a login: never with a saved pair, and never three times in a second. */
module ClientLogins {
  import opened Basics
  import opened ClientModel
  import opened ClientProofs
  import opened ClientBudget

  // ================================================================ a saved pair

  predicate CompleteAnswer(a: Answer) {
    a.tokens.Some? ==> Complete(a.tokens.value)
  }

  predicate FrameSaved(f: Frame) {
    match f
    case Write(data, _) => Complete(data)
    case WriteNap(data, _) => Complete(data)
    case RateWait(a) => CompleteAnswer(a)
    case RecoverAccess(a) => CompleteAnswer(a)
    case Reading(content) => content.Some? ==> content.value.Some? && Complete(content.value.value)
    case DebounceNap(_, _, _) => false
    case _ => true
  }

  ghost predicate StackSaved(k: Stack) {
    forall i :: 0 <= i < |k| ==> FrameSaved(k[i])
  }

  // The file holds a complete pair, and no call is about to write or load anything less.
  ghost predicate Saved(c: Client, calls: seq<Call>) {
    && c.file.Some? && Complete(c.file.value)
    && forall id :: 0 <= id < |calls| ==> StackSaved(calls[id].k)
  }

  // The file stays readable, and answers that carry tokens carry both.
  predicate Polite(e: Event) {
    (e.ReadDone? ==> e.readable) && (e.Answered? ==> CompleteAnswer(e.a))
  }

  ghost predicate NextSaved(next: Next, logins: seq<LoginStart>) {
    && next.c.logins == logins && next.c.file.Some? && Complete(next.c.file.value)
    && match next
       case Hold(_, fs) => StackSaved(fs)
       case Pass(_, sig, floats) => !floats && (sig.Return? && sig.r.Some? ==> CompleteAnswer(sig.r.value.answer))
  }

  lemma StretchSaved(c: Client, f: Frame, e: Event)
    requires c.file.Some? && Complete(c.file.value) && FrameSaved(f) && Polite(e) && Fits(f, e)
    requires e.ReadDone? ==> f.content.Some?
    ensures NextSaved(Stretch(c, f, e), c.logins)
  {
  }

  lemma {:induction false} UnwindSaved(next: Next, k: Stack)
    requires NextSaved(next, next.c.logins) && StackSaved(k)
    ensures var out := Unwind(next, k);
            out.c.logins == next.c.logins && out.c.file.Some? && Complete(out.c.file.value) && StackSaved(out.k)
    decreases |k|
  {
    if next.Pass? && k != [] {
      UnwindSaved(Deliver(next.c, k[0], next.sig), k[1..]);
    }
  }

  lemma InstallSaved(c: Client, calls: seq<Call>, id: nat, e: Event)
    requires Saved(c, calls) && Polite(e) && id < |calls| && calls[id].k != [] && Fits(calls[id].k[0], e)
    requires e.ReadDone? ==> calls[id].k[0].content.Some?
    ensures var s' := Install(calls, id, Stretch(c, calls[id].k[0], e), ErrorsOf(calls[id].k[0], e));
            Saved(s'.c, s'.calls) && s'.c.logins == c.logins
  {
    StretchSaved(c, calls[id].k[0], e);
    UnwindSaved(Stretch(c, calls[id].k[0], e), calls[id].k[1..]);
  }

  lemma StepSaved(s: System, e: Event)
    requires Saved(s.c, s.calls) && Enabled(s, e) && Polite(e)
    ensures Saved(Step(s, e).c, Step(s, e).calls) && Step(s, e).c.logins == s.c.logins
  {
    match e
    case Tick(_) =>
    case Begin(entry) => UnwindSaved(Entered(s.c, entry), []);
    case ReadFile(_) =>
    case _ => InstallSaved(Noticed(s.c, e), s.calls, e.id, e);
  }

  /**
   Once the token file holds a complete pair no interleaving of calls makes
   maybeLogin start a login, whatever the server answers, while the file stays
   readable and answers that carry tokens carry both.
   */
  lemma {:induction false} NoLoginWithSavedPair(s0: System, es: seq<Event>, s: System)
    requires Run(s0, es, s) && Saved(s0.c, s0.calls) && forall e <- es :: Polite(e)
    ensures s.c.logins == s0.c.logins
    ensures s.c.file.Some? && Complete(s.c.file.value)
    ensures Saved(s.c, s.calls)
    decreases |es|
  {
    if es != [] {
      var n := |es| - 1;
      var r :| Run(s0, es[..n], r) && Enabled(r, es[n]) && s == Step(r, es[n]);
      NoLoginWithSavedPair(s0, es[..n], r);
      StepSaved(r, es[n]);
    }
  }

  // ================================================================ spacing

  predicate InMaybeLogin(call: Call) {
    call.k != [] && (call.k[0].Reading? || call.k[0].DebounceNap?)
  }

  // At most one maybeLogin is between its load and its decision.
  ghost predicate OneAtATime(calls: seq<Call>) {
    forall i, j :: 0 <= i < |calls| && 0 <= j < |calls| && InMaybeLogin(calls[i]) && InMaybeLogin(calls[j]) ==> i == j
  }

  // A run in which maybeLogin calls do not overlap; everything else may.
  ghost predicate SequentialRun(s0: System, es: seq<Event>, s: System)
    decreases |es|
  {
    && OneAtATime(s.calls)
    && if es == [] then s == s0
       else
         var n := |es| - 1;
         exists r :: SequentialRun(s0, es[..n], r) && Enabled(r, es[n]) && s == Step(r, es[n])
  }

  predicate WellRecorded(l: LoginStart) {
    l.inForce >= 1000 && if l.waited then l.recorded + l.inForce <= l.time else l.recorded == l.time
  }

  // b is the next login start after a.
  predicate Follows(a: LoginStart, b: LoginStart) {
    a.time <= b.recorded && (b.waited || !a.waited ==> b.time - a.time >= b.inForce)
  }

  ghost predicate Spaced(ls: seq<LoginStart>) {
    && (forall i :: 0 <= i < |ls| ==> WellRecorded(ls[i]))
    && (forall i, j :: 0 <= i && j == i + 1 < |ls| ==> Follows(ls[i], ls[j]))
    && (forall i, j :: 0 <= i && i + 2 <= j < |ls| ==> ls[j].time - ls[i].time >= ls[j].inForce)
  }

  lemma {:induction false} TimesGrow(ls: seq<LoginStart>, i: nat, j: nat)
    requires Spaced(ls) && i <= j < |ls|
    ensures ls[i].time <= ls[j].time
    decreases j - i
  {
    if i < j {
      assert Follows(ls[j - 1], ls[j]) && WellRecorded(ls[j]);
      TimesGrow(ls, i, j - 1);
    }
  }

  ghost predicate Recorded(ls: seq<LoginStart>, last: int, clock: int) {
    ls != [] ==> last == ls[|ls| - 1].recorded && ls[|ls| - 1].time <= clock
  }

  // A sleeper read its clock after the last login, and sleeps long enough.
  ghost predicate NapSpaced(f: Frame, ls: seq<LoginStart>) {
    f.DebounceNap? ==> f.wake >= f.now + f.waited + 2000 && (ls != [] ==> ls[|ls| - 1].time <= f.now)
  }

  ghost predicate SpacedSystem(c: Client, calls: seq<Call>) {
    && Doubling(c.debounce) && Spaced(c.logins) && Recorded(c.logins, c.last, c.clock)
    && forall id :: 0 <= id < |calls| && calls[id].k != [] ==> NapSpaced(calls[id].k[0], c.logins)
  }

  // A stretch starts at most one login, and only out of maybeLogin.
  ghost predicate NextSpaced(next: Next, c: Client, f: Frame) {
    && next.c.clock == c.clock && Spaced(next.c.logins) && Recorded(next.c.logins, next.c.last, next.c.clock) && Doubling(next.c.debounce)
    && (next.Hold? ==> next.fs != [] && NapSpaced(next.fs[0], next.c.logins))
    && (next.c.logins != c.logins ==> f.Reading? || f.DebounceNap?)
  }

  lemma NewLoginSpaced(ls: seq<LoginStart>, l: LoginStart)
    requires Spaced(ls) && WellRecorded(l)
    requires ls != [] ==> ls[|ls| - 1].time <= l.recorded
    requires if l.waited then l.recorded + l.inForce <= l.time
             else ls != [] ==> ls[|ls| - 1].recorded + l.inForce < l.time
    ensures Spaced(ls + [l])
  {
    var n := |ls|;
    forall i | 0 <= i && i + 2 <= n
      ensures l.time - ls[i].time >= l.inForce
    {
      TimesGrow(ls, i, n - 2);
      assert Follows(ls[n - 2], ls[n - 1]) && WellRecorded(ls[n - 1]);
    }
    if n > 0 {
      assert WellRecorded(ls[n - 1]);
      assert Follows(ls[n - 1], l);
    }
  }

  lemma ClearedSpaced(c: Client)
    requires Doubling(c.debounce) && Spaced(c.logins) && Recorded(c.logins, c.last, c.clock) && DebounceCleared(c)
    ensures Spaced(c.logins + [LoginStart(c.clock, c.clock, c.debounce, false)])
  {
    NewLoginSpaced(c.logins, LoginStart(c.clock, c.clock, c.debounce, false));
  }

  lemma WaitedSpaced(c: Client, f: Frame)
    requires Doubling(c.debounce) && Spaced(c.logins) && Recorded(c.logins, c.last, c.clock) && NapSpaced(f, c.logins)
    requires f.DebounceNap? && f.wake <= c.clock && f.waited + 2000 >= c.debounce
    ensures Spaced(c.logins + [LoginStart(c.clock, f.now, c.debounce, true)])
  {
    NewLoginSpaced(c.logins, LoginStart(c.clock, f.now, c.debounce, true));
  }

  lemma AfterLoadSpaced(c: Client, f: Frame)
    requires Doubling(c.debounce) && Spaced(c.logins) && Recorded(c.logins, c.last, c.clock) && f.Reading?
    ensures NextSpaced(AfterLoad(c), c, f)
  {
    if DebounceCleared(c) { ClearedSpaced(c); }
  }

  lemma AfterNapSpaced(c: Client, f: Frame)
    requires Doubling(c.debounce) && Spaced(c.logins) && Recorded(c.logins, c.last, c.clock) && NapSpaced(f, c.logins)
    requires f.DebounceNap? && f.wake <= c.clock
    ensures NextSpaced(AfterDebounceNap(c, f.now, f.waited), c, f)
  {
    if f.waited + 2000 >= c.debounce { WaitedSpaced(c, f); }
  }

  lemma StretchSpaced(c: Client, f: Frame, e: Event)
    requires Doubling(c.debounce) && Spaced(c.logins) && Recorded(c.logins, c.last, c.clock) && NapSpaced(f, c.logins) && NapTimely(f, c.clock)
    requires Fits(f, e) && (f.DebounceNap? ==> f.wake <= c.clock)
    ensures NextSpaced(Stretch(c, f, e), c, f)
  {
    if f.Reading? {
      AfterLoadSpaced(if e.readable && f.content.Some? then Load(c, f.content.value) else c, f);
    } else if f.DebounceNap? {
      AfterNapSpaced(c, f);
    } else {
      OtherStretchQuiet(c, f, e);
    }
  }

  // Only maybeLogin touches the login record.
  lemma OtherStretchQuiet(c: Client, f: Frame, e: Event)
    requires Fits(f, e) && !f.Reading? && !f.DebounceNap?
    ensures var next := Stretch(c, f, e);
            && next.c.logins == c.logins && next.c.last == c.last && next.c.debounce == c.debounce
            && next.c.clock == c.clock && (next.Hold? ==> next.fs != [] && !next.fs[0].DebounceNap?)
  {
  }

  lemma {:induction false} UnwindSpaced(next: Next, k: Stack)
    requires Callees(k)
    ensures var out := Unwind(next, k);
            && out.c.logins == next.c.logins && out.c.last == next.c.last
            && out.c.debounce == next.c.debounce && out.c.clock == next.c.clock
            && (next.Hold? && next.fs != [] ==> out.k != [] && out.k[0] == next.fs[0])
            && (next.Pass? && out.k != [] ==> !out.k[0].DebounceNap?)
    decreases |k|
  {
    if next.Pass? && k != [] {
      var next' := Deliver(next.c, k[0], next.sig);
      assert next'.Hold? ==> next'.fs != [] && !next'.fs[0].DebounceNap?;
      UnwindSpaced(next', k[1..]);
    }
  }

  lemma InstallSpaced(c: Client, calls: seq<Call>, id: nat, e: Event)
    requires SpacedSystem(c, calls) && OneAtATime(calls) && id < |calls| && calls[id].k != [] && Callees(calls[id].k[1..])
    requires Fits(calls[id].k[0], e) && NapTimely(calls[id].k[0], c.clock)
    requires calls[id].k[0].DebounceNap? ==> calls[id].k[0].wake <= c.clock
    ensures var s' := Install(calls, id, Stretch(c, calls[id].k[0], e), ErrorsOf(calls[id].k[0], e));
            SpacedSystem(s'.c, s'.calls)
  {
    var f, k := calls[id].k[0], calls[id].k[1..];
    var next := Stretch(c, f, e);
    StretchSpaced(c, f, e);
    UnwindSpaced(next, k);
    var s' := Install(calls, id, next, ErrorsOf(f, e));
    forall j | 0 <= j < |s'.calls| && s'.calls[j].k != []
      ensures NapSpaced(s'.calls[j].k[0], s'.c.logins)
    {
      if j < |calls| && j != id {
        assert s'.calls[j] == calls[j];
        if calls[j].k[0].DebounceNap? {
          assert InMaybeLogin(calls[j]);
          assert !InMaybeLogin(calls[id]);
        }
      }
    }
  }

  lemma StepSpaced(s: System, e: Event)
    requires SpacedSystem(s.c, s.calls) && OneAtATime(s.calls) && Budgeted(s.calls) && TimelySystem(s.c, s.calls)
    requires Enabled(s, e)
    ensures SpacedSystem(Step(s, e).c, Step(s, e).calls)
  {
    match e
    case Tick(_) =>
    case Begin(entry) => UnwindSpaced(Entered(s.c, entry), []);
    case ReadFile(_) =>
    case _ =>
      assert CallWithin(s.calls[e.id]) && NapTimely(s.calls[e.id].k[0], s.c.clock);
      InstallSpaced(Noticed(s.c, e), s.calls, e.id, e);
  }

  lemma {:induction false} SequentialRunSpaced(s0: System, es: seq<Event>, s: System)
    requires SequentialRun(s0, es, s) && s0.calls == [] && SpacedSystem(s0.c, []) && TimelySystem(s0.c, [])
    ensures Run(s0, es, s) && SpacedSystem(s.c, s.calls)
    decreases |es|
  {
    if es != [] {
      var n := |es| - 1;
      var r :| SequentialRun(s0, es[..n], r) && Enabled(r, es[n]) && s == Step(r, es[n]);
      SequentialRunSpaced(s0, es[..n], r);
      RunTimely(s0, es[..n], r);
      RunWithin(s0, es[..n], r);
      StepSpaced(r, es[n]);
    }
  }

  /**
   While maybeLogin calls do not overlap, any three consecutive login starts span
   at least the debounce in force at the third, hence at least a second; so do two
   of them, unless the earlier one waited and the later one did not.
   */
  lemma {:induction false} LoginsSpaced(file: Option<Pair>, configured: bool, es: seq<Event>, s: System)
    requires SequentialRun(Initial(file, configured), es, s)
    ensures forall i, j :: 0 <= i && i + 2 <= j < |s.c.logins| ==>
              s.c.logins[j].time - s.c.logins[i].time >= s.c.logins[j].inForce >= 1000
    ensures forall i, j :: 0 <= i && j == i + 1 < |s.c.logins| && (s.c.logins[j].waited || !s.c.logins[i].waited) ==>
              s.c.logins[j].time - s.c.logins[i].time >= s.c.logins[j].inForce
  {
    SequentialRunSpaced(Initial(file, configured), es, s);
    assert forall i :: 0 <= i < |s.c.logins| ==> WellRecorded(s.c.logins[i]);
    assert forall i, j :: 0 <= i && j == i + 1 < |s.c.logins| ==> Follows(s.c.logins[i], s.c.logins[j]);
  }

  // ---------------------------------------------------------------- runs made of whole maybeLogin calls

  predicate Idle(calls: seq<Call>) {
    forall i :: 0 <= i < |calls| ==> !InMaybeLogin(calls[i])
  }

  lemma SequentialSnoc(s0: System, es: seq<Event>, s: System, e: Event)
    requires SequentialRun(s0, es, s) && Enabled(s, e) && OneAtATime(Step(s, e).calls)
    ensures SequentialRun(s0, es + [e], Step(s, e))
  {
    assert (es + [e])[..|es|] == es;
  }

  type RunProperty = (seq<Event>, System) -> bool

  // What holds of runs that go on without overlapping maybeLogin calls.
  ghost predicate Closed(R: RunProperty) {
    forall es, s, e :: R(es, s) && Enabled(s, e) && OneAtATime(Step(s, e).calls) ==> R(es + [e], Step(s, e))
  }

  lemma SequentialRunsClosed(s0: System)
    ensures Closed((es: seq<Event>, s: System) => SequentialRun(s0, es, s))
  {
    forall es, s, e | SequentialRun(s0, es, s) && Enabled(s, e) && OneAtATime(Step(s, e).calls)
      ensures SequentialRun(s0, es + [e], Step(s, e))
    {
      SequentialSnoc(s0, es, s, e);
    }
  }

  lemma Snoc(R: RunProperty, es: seq<Event>, s: System, e: Event)
    requires Closed(R) && R(es, s) && Enabled(s, e) && OneAtATime(Step(s, e).calls)
    ensures R(es + [e], Step(s, e))
  {
  }

  function Reader(content: Option<Option<Pair>>): Call {
    Call(MaybeLogin, [Reading(content)], None, 0, 0, 0, 0)
  }

  // A maybeLogin call after its first stretch.
  function Decided(next: Next): Call {
    var out := Unwind(next, []);
    Call(MaybeLogin, out.k, out.result, CountPosts(out.k, Data), CountPosts(out.k, Refresh), 0, 1)
  }

  // A call of maybeLogin, as number id, that finds no readable token file.
  function MaybeLoginEvents(id: nat): seq<Event> {
    [Begin(MaybeLogin), ReadFile(id), ReadDone(id, false)]
  }

  function AfterMaybeLogin(s: System): System {
    var next := AfterLoad(s.c);
    System(next.c, s.calls + [Decided(next)] + Floating(next))
  }

  lemma OneMore(calls: seq<Call>, call: Call)
    requires Idle(calls)
    ensures OneAtATime(calls + [call])
  {
  }

  lemma MaybeLoginReads(R: RunProperty, es: seq<Event>, s: System)
    requires Closed(R) && R(es, s) && s.c.access == "" && Idle(s.calls)
    ensures R(es + [Begin(MaybeLogin)] + [ReadFile(|s.calls|)],
                          System(s.c, s.calls + [Reader(Some(s.c.file))]))
  {
    var n, s1 := |s.calls|, System(s.c, s.calls + [Reader(None)]);
    OneMore(s.calls, Reader(None));
    OneMore(s.calls, Reader(Some(s.c.file)));
    assert [Reading(None)] + [] == [Reading(None)];
    assert Step(s, Begin(MaybeLogin)) == s1;
    Snoc(R, es, s, Begin(MaybeLogin));
    assert [Reading(Some(s.c.file))] + [Reading(None)][1..] == [Reading(Some(s.c.file))];
    assert Step(s1, ReadFile(n)).calls == s.calls + [Reader(Some(s.c.file))];
    Snoc(R, es + [Begin(MaybeLogin)], s1, ReadFile(n));
  }

  lemma ReaderDecides(s: System)
    ensures var s2, e := System(s.c, s.calls + [Reader(Some(s.c.file))]), ReadDone(|s.calls|, false);
            Enabled(s2, e) && Step(s2, e) == AfterMaybeLogin(s)
  {
    var n, s2 := |s.calls|, System(s.c, s.calls + [Reader(Some(s.c.file))]);
    assert [Reading(Some(s.c.file))][1..] == [];
    assert Step(s2, ReadDone(n, false)).calls == s.calls + [Decided(AfterLoad(s.c))] + Floating(AfterLoad(s.c));
  }

  lemma MaybeLoginRuns(R: RunProperty, es: seq<Event>, s: System)
    requires Closed(R) && R(es, s) && s.c.access == "" && Idle(s.calls)
    ensures R(es + MaybeLoginEvents(|s.calls|), AfterMaybeLogin(s))
  {
    var n := |s.calls|;
    MaybeLoginReads(R, es, s);
    ReaderDecides(s);
    OneMoreAndFloating(s.calls, Decided(AfterLoad(s.c)), AfterLoad(s.c));
    Snoc(R, es + [Begin(MaybeLogin)] + [ReadFile(n)], System(s.c, s.calls + [Reader(Some(s.c.file))]), ReadDone(n, false));
    EventsJoin(es, n);
  }

  lemma OneMoreAndFloating(calls: seq<Call>, call: Call, next: Next)
    requires Idle(calls)
    ensures OneAtATime(calls + [call] + Floating(next))
  {
    var all := calls + [call] + Floating(next);
    assert forall i :: 0 <= i < |all| && i != |calls| ==> !InMaybeLogin(all[i]);
  }

  lemma EventsJoin(es: seq<Event>, n: nat)
    ensures es + [Begin(MaybeLogin)] + [ReadFile(n)] + [ReadDone(n, false)] == es + MaybeLoginEvents(n)
  {
  }

  lemma TickRuns(R: RunProperty, es: seq<Event>, s: System, ms: nat)
    requires Closed(R) && R(es, s) && OneAtATime(s.calls)
    ensures R(es + [Tick(ms)], Ticked(s, ms))
  {
    Snoc(R, es, s, Tick(ms));
  }

  function Ticked(s: System, ms: nat): System {
    s.(c := s.c.(clock := s.c.clock + ms))
  }

  // ---------------------------------------------------------------- when the next login can come too early

  // After s, the next login starts sooner than the debounce in force then.
  ghost predicate EarlyNext(s: System, es: seq<Event>, s': System)
    requires s.c.logins != []
  {
    && SequentialRun(s, es, s')
    && |s'.c.logins| > |s.c.logins|
    && var a, b := s.c.logins[|s.c.logins| - 1], s'.c.logins[|s.c.logins|];
       b.time - a.time < b.inForce
  }

  lemma LastSequentialStep(s0: System, es: seq<Event>, s: System) returns (r: System)
    requires SequentialRun(s0, es, s) && es != []
    ensures var n := |es| - 1;
            SequentialRun(s0, es[..n], r) && Enabled(r, es[n]) && s == Step(r, es[n]) && OneAtATime(s.calls)
  {
    var n := |es| - 1;
    r :| SequentialRun(s0, es[..n], r) && Enabled(r, es[n]) && s == Step(r, es[n]);
  }

  lemma SplitLast(es: seq<Event>, es': seq<Event>)
    requires es' != []
    ensures es + es' == es + es'[..|es'| - 1] + [es'[|es'| - 1]]
  {
  }

  lemma {:induction false} RunsCompose(s0: System, es: seq<Event>, s: System, es': seq<Event>, s': System)
    requires SequentialRun(s0, es, s) && SequentialRun(s, es', s')
    ensures SequentialRun(s0, es + es', s')
    decreases |es'|
  {
    if es' == [] {
      assert es + es' == es;
    } else {
      var n := |es'| - 1;
      SplitLast(es, es');
      var r := LastSequentialStep(s, es', s');
      RunsCompose(s0, es, s, es'[..n], r);
      SequentialSnoc(s0, es + es'[..n], r, es'[n]);
    }
  }

  lemma {:induction false} UnwindKeepsLogins(next: Next, k: Stack)
    ensures Unwind(next, k).c.logins == next.c.logins
    decreases |k|
  {
    if next.Pass? && k != [] { UnwindKeepsLogins(Deliver(next.c, k[0], next.sig), k[1..]); }
  }

  lemma StepAppends(s: System, e: Event)
    requires Enabled(s, e)
    ensures s.c.logins <= Step(s, e).c.logins
  {
    match e
    case Tick(_) =>
    case Begin(_) =>
    case ReadFile(_) =>
    case _ =>
      StretchAppends(Noticed(s.c, e), Top(s, e.id), e);
      UnwindKeepsLogins(Stretch(Noticed(s.c, e), Top(s, e.id), e), s.calls[e.id].k[1..]);
  }

  lemma StretchAppends(c: Client, f: Frame, e: Event)
    ensures c.logins <= Stretch(c, f, e).c.logins
  {
  }

  lemma {:induction false} LoginsKept(s: System, es: seq<Event>, s': System)
    requires SequentialRun(s, es, s')
    ensures s.c.logins <= s'.c.logins
    decreases |es|
  {
    if es != [] {
      var n := |es| - 1;
      var r := LastSequentialStep(s, es, s');
      LoginsKept(s, es[..n], r);
      StepAppends(r, es[n]);
    }
  }

  // A rejected password leaves no token behind.
  const REJECTED: Answer := Answer(Number(0), true, false, false, None, false)

  lemma TokenDropped(R: RunProperty, s: System) returns (es: seq<Event>, s': System)
    requires Closed(R) && R([], s) && Idle(s.calls)
    ensures R(es, s') && Idle(s'.calls) && s'.c == s.c.(access := "")
  {
    es, s' := [], s;
    if s.c.access != "" {
      var n := |s.calls|;
      var s1 := RequestBegins(R, s);
      RejectedEnds(s1, n);
      s' := Step(s1, Answered(n, REJECTED));
      assert Idle(s'.calls);
      Snoc(R, [Begin(Request)], s1, Answered(n, REJECTED));
      es := [Begin(Request)] + [Answered(n, REJECTED)];
    }
  }

  lemma RequestBegins(R: RunProperty, s: System) returns (s': System)
    requires Closed(R) && R([], s) && Idle(s.calls) && s.c.access != ""
    ensures R([Begin(Request)], s') && Idle(s'.calls) && s'.c == s.c
    ensures |s'.calls| == |s.calls| + 1 && s'.calls[|s.calls|].k == [Post(Data), FirstPost]
  {
    var k := [Post(Data), FirstPost];
    assert k + [] == k;
    s' := Step(s, Begin(Request));
    assert s'.calls == s.calls + [NewCall(Request, k, None)];
    assert Idle(s'.calls);
    Snoc(R, [], s, Begin(Request));
    assert [] + [Begin(Request)] == [Begin(Request)];
  }

  lemma RejectedEnds(s: System, id: nat)
    requires id < |s.calls| && s.calls[id].k == [Post(Data), FirstPost]
    ensures var e := Answered(id, REJECTED);
            && Enabled(s, e) && Step(s, e).c == s.c.(access := "")
            && |Step(s, e).calls| == |s.calls| && Step(s, e).calls[id].k == []
            && forall j :: 0 <= j < |s.calls| && j != id ==> Step(s, e).calls[j] == s.calls[j]
  {
    assert [Post(Data), FirstPost][1..] == [FirstPost] && [FirstPost][1..] == [];
    var next := Pass(s.c.(access := ""), Throw, false);
    assert Unwind(next, [FirstPost]) == Unwind(Deliver(next.c, FirstPost, Throw), []);
  }

  lemma EarlyAfterWait(s: System) returns (es: seq<Event>, s': System)
    requires Idle(s.calls) && SpacedSystem(s.c, s.calls)
    requires s.c.logins != [] && s.c.clock == s.c.logins[|s.c.logins| - 1].time && s.c.logins[|s.c.logins| - 1].waited
    ensures EarlyNext(s, es, s')
  {
    SequentialRunsClosed(s);
    es, s' := EarlyRuns((es: seq<Event>, s': System) => SequentialRun(s, es, s'), s);
  }

  lemma EarlyRuns(R: RunProperty, s: System) returns (es: seq<Event>, s': System)
    requires Closed(R) && R([], s) && Idle(s.calls) && SpacedSystem(s.c, s.calls)
    requires s.c.logins != [] && s.c.clock == s.c.logins[|s.c.logins| - 1].time && s.c.logins[|s.c.logins| - 1].waited
    ensures R(es, s') && |s'.c.logins| > |s.c.logins|
    ensures s'.c.logins[|s.c.logins|].time - s.c.clock < s'.c.logins[|s.c.logins|].inForce
  {
    var a := s.c.logins[|s.c.logins| - 1];
    assert WellRecorded(a);
    var es1, s1 := TokenDropped(R, s);
    var ms: nat := if DebounceCleared(s1.c) then 0 else a.recorded + s.c.debounce - a.time + 1;
    TickRuns(R, es1, s1, ms);
    var s2 := Ticked(s1, ms);
    MaybeLoginRuns(R, es1 + [Tick(ms)], s2);
    es, s' := es1 + [Tick(ms)] + MaybeLoginEvents(|s2.calls|), AfterMaybeLogin(s2);
    assert s'.c.logins == s.c.logins + [LoginStart(s2.c.clock, s2.c.clock, s.c.debounce, false)];
  }

  /**
   Just after a login, with no maybeLogin under way, the next login can come sooner than the
   debounce then in force if and only if that login had waited.
   */
  lemma {:induction false} NextLoginEarlyExactly(file: Option<Pair>, configured: bool, es: seq<Event>, s: System)
    requires SequentialRun(Initial(file, configured), es, s) && Idle(s.calls)
    requires s.c.logins != [] && s.c.clock == s.c.logins[|s.c.logins| - 1].time
    ensures (exists es', s' :: EarlyNext(s, es', s')) <==> s.c.logins[|s.c.logins| - 1].waited
  {
    var s0 := Initial(file, configured);
    if s.c.logins[|s.c.logins| - 1].waited {
      SequentialRunSpaced(s0, es, s);
      var es', s' := EarlyAfterWait(s);
    }
    forall es', s' | EarlyNext(s, es', s')
      ensures s.c.logins[|s.c.logins| - 1].waited
    {
      RunsCompose(s0, es, s, es', s');
      LoginsKept(s, es', s');
      LoginsSpaced(file, configured, es + es', s');
    }
  }

  // ---------------------------------------------------------------- two logins a millisecond apart

  // From a client's first maybeLogin at time t on: its login fails, another maybeLogin half a
  // second later waits and starts a login, which fails, and a third one follows at once.
  function TooSoon(t: nat): seq<Event> {
    [Tick(t)] + MaybeLoginEvents(0) + [NetworkFailed(0)] + [Tick(500)] + MaybeLoginEvents(1) + [Tick(2000)] + [Woken(1)]
    + [NetworkFailed(2)] + [Tick(1)] + MaybeLoginEvents(3)
  }

  function ClientAt(clock: int, last: int, debounce: int, logins: seq<LoginStart>): Client {
    Client("", "", last, debounce, None, clock, true, logins, {})
  }

  function Over(stretches: nat, sig: Signal): Call {
    Call(MaybeLogin, [], Some(sig), 0, 0, 0, stretches)
  }

  const FLOATING: Call := NewCall(LoginDirect, [Post(Login), LoginPost], None)

  // A call whose login post got no answer.
  function Failed(call: Call): Call {
    call.(k := [], result := Some(Throw), stretches := call.stretches + 1)
  }

  lemma LoginFails(R: RunProperty, es: seq<Event>, s: System, id: nat)
    requires Closed(R) && R(es, s) && Idle(s.calls) && id < |s.calls| && s.calls[id].k == [Post(Login), LoginPost]
    ensures R(es + [NetworkFailed(id)], System(s.c, s.calls[id := Failed(s.calls[id])]))
  {
    PostFails(s, id);
    assert Idle(s.calls[id := Failed(s.calls[id])]);
    Snoc(R, es, s, NetworkFailed(id));
  }

  lemma PostFails(s: System, id: nat)
    requires id < |s.calls| && s.calls[id].k == [Post(Login), LoginPost]
    ensures Enabled(s, NetworkFailed(id)) && Step(s, NetworkFailed(id)) == System(s.c, s.calls[id := Failed(s.calls[id])])
  {
    assert [Post(Login), LoginPost][1..] == [LoginPost] && [LoginPost][1..] == [];
    assert Unwind(Pass(s.c, Throw, false), [LoginPost]) == Unwind(Deliver(s.c, LoginPost, Throw), []);
    assert s.calls[id := Failed(s.calls[id])] + [] == s.calls[id := Failed(s.calls[id])];
  }

  // After a maybeLogin that cleared its debounce and started a login.
  function AfterCleared(s: System): System {
    System(s.c.(last := s.c.clock, logins := s.c.logins + [LoginStart(s.c.clock, s.c.clock, s.c.debounce, false)]),
           s.calls + [Call(MaybeLogin, [Post(Login), LoginPost], None, 0, 0, 0, 1)])
  }

  lemma ClearedRuns(R: RunProperty, es: seq<Event>, s: System)
    requires Closed(R) && R(es, s) && s.c.access == "" && s.c.configured && Idle(s.calls)
    requires DebounceCleared(s.c) && (s.c.debounce == 1000 || s.c.clock - s.c.last <= TWELVE_HOURS)
    ensures R(es + MaybeLoginEvents(|s.calls|), AfterCleared(s))
  {
    MaybeLoginRuns(R, es, s);
    ClearedDecided(s);
  }

  lemma ClearedDecided(s: System)
    requires s.c.access == "" && s.c.configured
    requires DebounceCleared(s.c) && (s.c.debounce == 1000 || s.c.clock - s.c.last <= TWELVE_HOURS)
    ensures AfterMaybeLogin(s) == AfterCleared(s)
  {
    var k := [Post(Login), LoginPost];
    assert k + [] == k;
    assert Decided(AfterLoad(s.c)) == Call(MaybeLogin, k, None, 0, 0, 0, 1);
    assert s.calls + [Decided(AfterLoad(s.c))] + [] == s.calls + [Decided(AfterLoad(s.c))];
  }

  function Sleeper(now: int): Call {
    Call(MaybeLogin, [DebounceNap(now, 0, now + 2000)], None, 0, 0, 0, 1)
  }

  // One that does not waits, here for a single sleep, and then starts a login nobody awaits.
  lemma WaitedRuns(R: RunProperty, es: seq<Event>, s: System)
    requires Closed(R) && R(es, s) && s.c.access == "" && s.c.configured && Idle(s.calls)
    requires !DebounceCleared(s.c) && 0 < s.c.debounce <= 2000
    ensures R(es + MaybeLoginEvents(|s.calls|) + [Tick(2000)] + [Woken(|s.calls|)],
              System(UpdateDebounceAndLogin(s.c.(clock := s.c.clock + 2000), s.c.clock).c,
                     s.calls + [Over(2, DONE)] + [FLOATING]))
  {
    var n, c := |s.calls|, s.c.(clock := s.c.clock + 2000);
    SleepRuns(R, es, s);
    var s3 := System(c, s.calls + [Sleeper(s.c.clock)]);
    SleeperWakes(s3, n, DebounceNap(s.c.clock, 0, c.clock));
    assert s3.calls[n := Over(2, DONE)] == s.calls + [Over(2, DONE)];
    IdleStill(s.calls);
    Snoc(R, es + MaybeLoginEvents(n) + [Tick(2000)], s3, Woken(n));
  }

  lemma IdleStill(calls: seq<Call>)
    requires Idle(calls)
    ensures OneAtATime(calls + [Over(2, DONE)] + [FLOATING])
  {
    assert Idle(calls + [Over(2, DONE)] + [FLOATING]);
  }

  lemma SleepRuns(R: RunProperty, es: seq<Event>, s: System)
    requires Closed(R) && R(es, s) && s.c.access == "" && Idle(s.calls)
    requires !DebounceCleared(s.c) && 0 < s.c.debounce
    ensures R(es + MaybeLoginEvents(|s.calls|) + [Tick(2000)],
              System(s.c.(clock := s.c.clock + 2000), s.calls + [Sleeper(s.c.clock)]))
  {
    MaybeLoginRuns(R, es, s);
    SleeperDecided(s);
    TickRuns(R, es + MaybeLoginEvents(|s.calls|), AfterMaybeLogin(s), 2000);
  }

  lemma SleeperDecided(s: System)
    requires s.c.access == "" && !DebounceCleared(s.c) && 0 < s.c.debounce
    ensures AfterMaybeLogin(s) == System(s.c, s.calls + [Sleeper(s.c.clock)])
  {
    var nap := DebounceNap(s.c.clock, 0, s.c.clock + 2000);
    assert [nap] + [] == [nap];
    assert s.calls + [Sleeper(s.c.clock)] + [] == s.calls + [Sleeper(s.c.clock)];
  }

  lemma SleeperWakes(s: System, id: nat, nap: Frame)
    requires id < |s.calls| && s.calls[id] == Call(MaybeLogin, [nap], None, 0, 0, 0, 1)
    requires nap.DebounceNap? && nap.wake <= s.c.clock && nap.waited + 2000 >= s.c.debounce
    requires s.c.access == "" && s.c.configured
    ensures Enabled(s, Woken(id))
    ensures Step(s, Woken(id)) == System(UpdateDebounceAndLogin(s.c, nap.now).c, s.calls[id := Over(2, DONE)] + [FLOATING])
  {
    assert [nap][1..] == [];
  }

  function LoginsTooSoon(t: nat): seq<LoginStart> {
    [LoginStart(t, t, 1000, false)] + [LoginStart(t + 2500, t + 500, 1000, true)] + [LoginStart(t + 2501, t + 2501, 2000, false)]
  }

  // The client at each stage of that run.
  function Stage1(t: nat): Client {
    ClientAt(t, t, 1000, [LoginStart(t, t, 1000, false)])
  }

  function Stage2(t: nat): Client {
    ClientAt(t + 2500, t + 500, 2000, LoginsTooSoon(t)[..2])
  }

  lemma FirstStarts(t: nat, R: RunProperty)
    requires Closed(R) && R([], Initial(None, true)) && t > 1000
    ensures R([Tick(t)] + MaybeLoginEvents(0),
                          System(Stage1(t), [Call(MaybeLogin, [Post(Login), LoginPost], None, 0, 0, 0, 1)]))
  {
    TickRuns(R, [], Initial(None, true), t);
    assert [] + [Tick(t)] == [Tick(t)];
    FirstClient(t);
    ClearedRuns(R, [Tick(t)], Ticked(Initial(None, true), t));
  }

  lemma FirstClient(t: nat)
    requires t > 1000
    ensures var s, call := Ticked(Initial(None, true), t), Call(MaybeLogin, [Post(Login), LoginPost], None, 0, 0, 0, 1);
            && s.c.access == "" && s.c.configured && Idle(s.calls) && DebounceCleared(s.c) && s.c.debounce == 1000 && |s.calls| == 0
            && AfterCleared(s) == System(Stage1(t), [call])
  {
  }

  lemma FirstFails(t: nat, R: RunProperty)
    requires Closed(R) && R([], Initial(None, true)) && t > 1000
    ensures R([Tick(t)] + MaybeLoginEvents(0) + [NetworkFailed(0)],
                          System(Stage1(t), [Over(2, Throw)]))
  {
    var call := Call(MaybeLogin, [Post(Login), LoginPost], None, 0, 0, 0, 1);
    FirstStarts(t, R);
    LoginFails(R, [Tick(t)] + MaybeLoginEvents(0), System(Stage1(t), [call]), 0);
    assert [call][0 := Over(2, Throw)] == [Over(2, Throw)];
  }

  lemma SecondWaits(t: nat, R: RunProperty, es: seq<Event>)
    requires Closed(R) && R(es, System(Stage1(t).(clock := t + 500), [Over(2, Throw)]))
    ensures R(es + MaybeLoginEvents(1) + [Tick(2000)] + [Woken(1)],
                          System(Stage2(t), [Over(2, Throw)] + [Over(2, DONE)] + [FLOATING]))
  {
    SecondClient(t);
    WaitedRuns(R, es, System(Stage1(t).(clock := t + 500), [Over(2, Throw)]));
  }

  lemma SecondClient(t: nat)
    ensures var c := Stage1(t).(clock := t + 500);
            && c.access == "" && c.configured && !DebounceCleared(c) && c.debounce == 1000
            && UpdateDebounceAndLogin(c.(clock := c.clock + 2000), c.clock).c == Stage2(t)
  {
    assert [LoginStart(t, t, 1000, false)] + [LoginStart(t + 2500, t + 500, 1000, true)] == LoginsTooSoon(t)[..2];
  }

  const FAILED: Call := Failed(FLOATING)

  lemma SecondFails(t: nat, R: RunProperty, es: seq<Event>)
    requires Closed(R) && R(es, System(Stage2(t), [Over(2, Throw)] + [Over(2, DONE)] + [FLOATING]))
    ensures R(es + [NetworkFailed(2)], System(Stage2(t), [Over(2, Throw), Over(2, DONE), FAILED]))
  {
    var calls := [Over(2, Throw)] + [Over(2, DONE)] + [FLOATING];
    LoginFails(R, es, System(Stage2(t), calls), 2);
    assert calls[2 := FAILED] == [Over(2, Throw), Over(2, DONE), FAILED];
  }

  lemma ThirdFollows(t: nat, R: RunProperty, es: seq<Event>) returns (s: System)
    requires Closed(R) && R(es, System(Stage2(t).(clock := t + 2501), [Over(2, Throw), Over(2, DONE), FAILED]))
    ensures R(es + MaybeLoginEvents(3), s) && s.c.logins == LoginsTooSoon(t)
  {
    var before := System(Stage2(t).(clock := t + 2501), [Over(2, Throw), Over(2, DONE), FAILED]);
    ClearedRuns(R, es, before);
    s := AfterCleared(before);
    assert LoginsTooSoon(t)[..2] + [LoginStart(t + 2501, t + 2501, 2000, false)] == LoginsTooSoon(t);
  }

  /**
   At whatever time a client is first used, it can start two logins one millisecond apart with no
   two maybeLogin calls or awaited logins overlapping: the earlier waited, but what it records is
   the time before its wait.
   */
  lemma TwoLoginsOneMillisecondApart(t: nat)
    requires t > 1000
    ensures exists s :: SequentialRun(Initial(None, true), TooSoon(t), s) && s.c.logins == LoginsTooSoon(t)
  {
    SequentialRunsClosed(Initial(None, true));
    assert OneAtATime([]);
    var s := TooSoonRuns(t, (es: seq<Event>, s: System) => SequentialRun(Initial(None, true), es, s));
  }

  lemma TooSoonRuns(t: nat, R: RunProperty) returns (s: System)
    requires Closed(R) && R([], Initial(None, true)) && t > 1000
    ensures R(TooSoon(t), s) && s.c.logins == LoginsTooSoon(t)
  {
    var es1 := [Tick(t)] + MaybeLoginEvents(0) + [NetworkFailed(0)];
    var es2 := es1 + [Tick(500)] + MaybeLoginEvents(1) + [Tick(2000)] + [Woken(1)] + [NetworkFailed(2)];
    FirstFails(t, R);
    TickRuns(R, es1, System(Stage1(t), [Over(2, Throw)]), 500);
    SecondWaits(t, R, es1 + [Tick(500)]);
    SecondFails(t, R, es1 + [Tick(500)] + MaybeLoginEvents(1) + [Tick(2000)] + [Woken(1)]);
    TickRuns(R, es2, System(Stage2(t), [Over(2, Throw), Over(2, DONE), FAILED]), 1);
    s := ThirdFollows(t, R, es2 + [Tick(1)]);
  }
}
