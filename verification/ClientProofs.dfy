/** What every interleaving of the client's calls keeps. */
module ClientProofs {
  import opened Basics
  import opened ClientModel

  // ================================================================ token pairs

  // A token in use, and the file, hold a pair that came in one piece.
  ghost predicate Coherent(access: string, refresh: string, file: Option<Pair>, known: set<Pair>) {
    && (access != "" ==> Pair(access, refresh) in known)
    && (file.Some? ==> file.value in known)
  }

  ghost predicate AnswerKnown(a: Answer, known: set<Pair>) {
    a.tokens.Some? ==> a.tokens.value in known
  }

  ghost predicate FrameKnown(f: Frame, known: set<Pair>) {
    match f
    case Write(data, _) => data in known
    case WriteNap(data, _) => data in known
    case RateWait(a) => AnswerKnown(a, known)
    case RecoverAccess(a) => AnswerKnown(a, known)
    case Reading(content) => content.Some? && content.value.Some? ==> content.value.value in known
    case _ => true
  }

  ghost predicate StackKnown(k: Stack, known: set<Pair>) {
    forall i :: 0 <= i < |k| ==> FrameKnown(k[i], known)
  }

  ghost predicate NextKnown(next: Next, known: set<Pair>) {
    && next.c.known == known
    && Coherent(next.c.access, next.c.refresh, next.c.file, known)
    && match next
       case Hold(_, fs) => StackKnown(fs, known)
       case Pass(_, sig, _) => sig.Return? && sig.r.Some? ==> AnswerKnown(sig.r.value.answer, known)
  }

  lemma DeliverKnown(c: Client, f: Frame, sig: Signal, known: set<Pair>)
    requires NextKnown(Pass(c, sig, false), known) && FrameKnown(f, known)
    ensures NextKnown(Deliver(c, f, sig), known)
  {
  }

  lemma StretchKnown(c: Client, f: Frame, e: Event)
    requires Coherent(c.access, c.refresh, c.file, c.known) && FrameKnown(f, c.known)
    requires e.Answered? ==> AnswerKnown(e.a, c.known)
    ensures NextKnown(Stretch(c, f, e), c.known)
  {
    match e
    case ReadDone(_, _) =>
    case Answered(_, a) => HandleKnown(c, a);
    case Woken(_) => WakeKnown(c, f);
    case _ =>
  }

  lemma WakeKnown(c: Client, f: Frame)
    requires Coherent(c.access, c.refresh, c.file, c.known) && FrameKnown(f, c.known)
    ensures NextKnown(Wake(c, f), c.known)
  {
    match f
    case RateWait(a) => HandleKnown(c, a);
    case DebounceNap(now, waited, _) => AfterDebounceNapKnown(c, now, waited);
    case _ =>
  }

  lemma HandleKnown(c: Client, a: Answer)
    requires Coherent(c.access, c.refresh, c.file, c.known) && AnswerKnown(a, c.known)
    ensures NextKnown(Handle(c, a), c.known)
  {
  }

  lemma AfterDebounceNapKnown(c: Client, now: int, waited: int)
    requires Coherent(c.access, c.refresh, c.file, c.known)
    ensures NextKnown(AfterDebounceNap(c, now, waited), c.known)
  {
  }

  lemma {:induction false} UnwindKnown(next: Next, k: Stack, known: set<Pair>)
    requires NextKnown(next, known) && StackKnown(k, known)
    ensures var out := Unwind(next, k);
            out.c.known == known && Coherent(out.c.access, out.c.refresh, out.c.file, known) && StackKnown(out.k, known)
    decreases |k|
  {
    if next.Pass? && k != [] {
      DeliverKnown(next.c, k[0], next.sig, known);
      UnwindKnown(Deliver(next.c, k[0], next.sig), k[1..], known);
    }
  }

  ghost predicate CoherentSystem(c: Client, calls: seq<Call>) {
    && Coherent(c.access, c.refresh, c.file, c.known)
    && (forall id :: 0 <= id < |calls| ==> StackKnown(calls[id].k, c.known))
  }

  lemma NoticedCoherent(c: Client, calls: seq<Call>, e: Event)
    requires CoherentSystem(c, calls)
    ensures CoherentSystem(Noticed(c, e), calls)
  {
  }

  lemma InstallCoherent(c: Client, calls: seq<Call>, id: nat, e: Event)
    requires CoherentSystem(c, calls) && id < |calls| && calls[id].k != []
    requires e.Answered? ==> AnswerKnown(e.a, c.known)
    ensures var s' := Install(calls, id, Stretch(c, calls[id].k[0], e), ErrorsOf(calls[id].k[0], e));
            CoherentSystem(s'.c, s'.calls) && s'.c.known == c.known
  {
    StretchKnown(c, calls[id].k[0], e);
    UnwindKnown(Stretch(c, calls[id].k[0], e), calls[id].k[1..], c.known);
  }

  lemma StepCoherent(s: System, e: Event)
    requires CoherentSystem(s.c, s.calls) && Enabled(s, e)
    ensures CoherentSystem(Step(s, e).c, Step(s, e).calls)
    ensures Step(s, e).c.known == Noticed(s.c, e).known
  {
    match e
    case Tick(_) =>
    case Begin(entry) => UnwindKnown(Entered(s.c, entry), [], s.c.known);
    case ReadFile(_) =>
    case _ =>
      NoticedCoherent(s.c, s.calls, e);
      InstallCoherent(Noticed(s.c, e), s.calls, e.id, e);
  }

  // The pair was in the initial file or in one server answer of the run.
  ghost predicate Came(file: Option<Pair>, es: seq<Event>, p: Pair) {
    file == Some(p) || exists i :: 0 <= i < |es| && es[i].Answered? && es[i].a.tokens == Some(p)
  }

  lemma {:induction false} RunCoherent(file: Option<Pair>, configured: bool, es: seq<Event>, s: System)
    requires Run(Initial(file, configured), es, s)
    ensures CoherentSystem(s.c, s.calls)
    ensures forall p <- s.c.known :: Came(file, es, p)
    decreases |es|
  {
    if es != [] {
      var n := |es| - 1;
      var s0 := Initial(file, configured);
      var r :| Run(s0, es[..n], r) && Enabled(r, es[n]) && s == Step(r, es[n]);
      RunCoherent(file, configured, es[..n], r);
      StepCoherent(r, es[n]);
      forall p | p in s.c.known
        ensures Came(file, es, p)
      {
        if p in r.c.known {
          assert Came(file, es[..n], p);
        }
      }
    }
  }

  /**
   In every interleaving the token in use with the refresh token beside it, and
   the pair in the file, each came from one server answer or the initial file.
   */
  lemma {:induction false} TokenPairsCoherent(file: Option<Pair>, configured: bool, es: seq<Event>, s: System)
    requires Run(Initial(file, configured), es, s)
    ensures s.c.access != "" ==> Came(file, es, Pair(s.c.access, s.c.refresh))
    ensures s.c.file.Some? ==> Came(file, es, s.c.file.value)
  {
    RunCoherent(file, configured, es, s);
  }

  // ================================================================ debounce

  // 1000 * 2^j for some j <= 8, or the cap.
  predicate Doubling(d: int) {
    d in {1000, 2000, 4000, 8000, 16000, 32000, 64000, 128000, 256000, CAP}
  }

  predicate NapTimely(f: Frame, clock: int) {
    f.DebounceNap? ==> f.now <= clock && 0 <= f.waited < CAP && f.waited % 2000 == 0
  }

  ghost predicate StackTimely(k: Stack, clock: int) {
    forall i :: 0 <= i < |k| ==> NapTimely(k[i], clock)
  }

  ghost predicate NextTimely(next: Next, clock: int) {
    && next.c.clock == clock && Doubling(next.c.debounce) && next.c.last <= clock
    && (next.Hold? ==> StackTimely(next.fs, clock))
  }

  lemma StretchTimely(c: Client, f: Frame, e: Event)
    requires Doubling(c.debounce) && c.last <= c.clock && NapTimely(f, c.clock)
    ensures NextTimely(Stretch(c, f, e), c.clock)
  {
    match e
    case ReadDone(_, readable) =>
      AfterLoadTimely(if readable && f.Reading? && f.content.Some? then Load(c, f.content.value) else c);
    case Woken(_) => WakeTimely(c, f);
    case _ =>
  }

  lemma AfterLoadTimely(c: Client)
    requires Doubling(c.debounce) && c.last <= c.clock
    ensures NextTimely(AfterLoad(c), c.clock)
  {
  }

  lemma WakeTimely(c: Client, f: Frame)
    requires Doubling(c.debounce) && c.last <= c.clock && NapTimely(f, c.clock)
    ensures NextTimely(Wake(c, f), c.clock)
  {
  }

  lemma {:induction false} UnwindTimely(next: Next, k: Stack, clock: int)
    requires NextTimely(next, clock) && StackTimely(k, clock)
    ensures var out := Unwind(next, k);
            out.c.clock == clock && Doubling(out.c.debounce) && out.c.last <= clock && StackTimely(out.k, clock)
    decreases |k|
  {
    if next.Pass? && k != [] {
      UnwindTimely(Deliver(next.c, k[0], next.sig), k[1..], clock);
    }
  }

  ghost predicate TimelySystem(c: Client, calls: seq<Call>) {
    && Doubling(c.debounce) && c.last <= c.clock
    && forall id :: 0 <= id < |calls| ==> StackTimely(calls[id].k, c.clock)
  }

  lemma StepTimely(s: System, e: Event)
    requires TimelySystem(s.c, s.calls) && Enabled(s, e)
    ensures TimelySystem(Step(s, e).c, Step(s, e).calls)
  {
    match e
    case Tick(_) =>
    case Begin(entry) => UnwindTimely(Entered(s.c, entry), [], s.c.clock);
    case ReadFile(_) =>
    case _ =>
      InstallTimely(Noticed(s.c, e), s.calls, e.id, e);
  }

  lemma InstallTimely(c: Client, calls: seq<Call>, id: nat, e: Event)
    requires TimelySystem(c, calls) && id < |calls| && calls[id].k != []
    ensures var s' := Install(calls, id, Stretch(c, calls[id].k[0], e), ErrorsOf(calls[id].k[0], e));
            TimelySystem(s'.c, s'.calls)
  {
    StretchTimely(c, calls[id].k[0], e);
    UnwindTimely(Stretch(c, calls[id].k[0], e), calls[id].k[1..], c.clock);
  }

  lemma {:induction false} RunTimely(s0: System, es: seq<Event>, s: System)
    requires Run(s0, es, s) && TimelySystem(s0.c, s0.calls)
    ensures TimelySystem(s.c, s.calls)
    decreases |es|
  {
    if es != [] {
      var n := |es| - 1;
      var r :| Run(s0, es[..n], r) && Enabled(r, es[n]) && s == Step(r, es[n]);
      RunTimely(s0, es[..n], r);
      StepTimely(r, es[n]);
    }
  }

  /**
   In every interleaving of any number of calls the debounce is a doubling of one
   second or the cap, the last attempt is never in the future, and a wait that is
   in its (waited / 2000 + 1)-th sleep has at most 150 of them.
   */
  lemma {:induction false} DebounceBounded(file: Option<Pair>, configured: bool, es: seq<Event>, s: System, id: nat)
    requires Run(Initial(file, configured), es, s)
    ensures Doubling(s.c.debounce) && s.c.last <= s.c.clock
    ensures Waiting(s, id) && Top(s, id).DebounceNap? ==>
              Top(s, id).now <= s.c.clock && Top(s, id).waited % 2000 == 0 && 1 <= Top(s, id).waited / 2000 + 1 <= 150
  {
    RunTimely(Initial(file, configured), es, s);
    if Waiting(s, id) && Top(s, id).DebounceNap? {
      assert NapTimely(s.calls[id].k[0], s.c.clock);
    }
  }

  // ---------------------------------------------------------------- runs one event at a time

  lemma LastStep(s0: System, es: seq<Event>, s: System) returns (r: System)
    requires Run(s0, es, s) && es != []
    ensures Run(s0, es[..|es| - 1], r) && Enabled(r, es[|es| - 1]) && s == Step(r, es[|es| - 1])
  {
    var n := |es| - 1;
    r :| Run(s0, es[..n], r) && Enabled(r, es[n]) && s == Step(r, es[n]);
  }

  lemma {:induction false} RunDeterministic(s0: System, es: seq<Event>, s: System, s': System)
    requires Run(s0, es, s) && Run(s0, es, s')
    ensures s == s'
    decreases |es|
  {
    if es != [] {
      var n := |es| - 1;
      var r := LastStep(s0, es, s);
      var r' := LastStep(s0, es, s');
      RunDeterministic(s0, es[..n], r, r');
    }
  }

  lemma {:induction false} RunPrefix(s0: System, es: seq<Event>, s: System, i: nat) returns (r: System)
    requires Run(s0, es, s) && i <= |es|
    ensures Run(s0, es[..i], r)
    decreases |es|
  {
    if i == |es| {
      r := s;
      assert es[..i] == es;
    } else {
      var n := |es| - 1;
      var q := LastStep(s0, es, s);
      r := RunPrefix(s0, es[..n], q, i);
      assert es[..n][..i] == es[..i];
    }
  }

  // Where a run has got to, its next event can happen.
  lemma RunContinues(s0: System, es: seq<Event>, i: nat, s: System)
    requires (exists end :: Run(s0, es, end)) && i < |es| && Run(s0, es[..i], s)
    ensures Enabled(s, es[i]) && Run(s0, es[..i + 1], Step(s, es[i]))
  {
    var end :| Run(s0, es, end);
    var next := RunPrefix(s0, es, end, i + 1);
    var r := LastStep(s0, es[..i + 1], next);
    assert es[..i + 1][..i] == es[..i];
    RunDeterministic(s0, es[..i], r, s);
  }
}
