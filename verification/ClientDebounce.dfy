/** When a login starts, when it waits, and what that makes of the debounce. */
module ClientDebounce {
  import opened Basics
  import opened ClientModel
  import opened ClientProofs
  import opened ClientBudget
  import opened ClientOutcome
  import opened ClientTokens

  // The debounce in force once i logins have started: doubled by one that waited, back to a
  // second after twelve hours without one, and otherwise as it was.
  function DebounceAt(ls: seq<LoginStart>, i: nat): int
    requires i <= |ls|
  {
    if i == 0 then 1000
    else if ls[i - 1].waited then Doubled(ls[i - 1].inForce)
    else if ls[i - 1].time - RecordedBefore(ls, i - 1) > 43200000 then 1000
    else ls[i - 1].inForce
  }

  function Doubled(debounce: int): int {
    if debounce + debounce < 300000 then debounce + debounce else 300000
  }

  // The attempt on record when login i starts.
  function RecordedBefore(ls: seq<LoginStart>, i: nat): int
    requires i <= |ls|
  {
    if i == 0 then 0 else ls[i - 1].recorded
  }

  ghost predicate FromLogins(ls: seq<LoginStart>, last: int, debounce: int) {
    && last == RecordedBefore(ls, |ls|) && debounce == DebounceAt(ls, |ls|)
    && forall i :: 0 <= i < |ls| ==> ls[i].inForce == DebounceAt(ls, i)
  }

  // The debounce after a login that found `debounce` in force and `last` on record.
  function DebounceAfter(l: LoginStart, last: int, debounce: int): int {
    if l.waited then Doubled(debounce) else if l.time - last > 43200000 then 1000 else debounce
  }

  lemma LoginAdded(ls: seq<LoginStart>, last: int, debounce: int, l: LoginStart)
    requires FromLogins(ls, last, debounce) && l.inForce == debounce
    ensures FromLogins(ls + [l], l.recorded, DebounceAfter(l, last, debounce))
  {
    LoginsBefore(ls, l, |ls|);
    LoginLast(ls, l);
    forall i | 0 <= i < |ls + [l]|
      ensures (ls + [l])[i].inForce == DebounceAt(ls + [l], i)
    {
      LoginsBefore(ls, l, i);
    }
  }

  lemma LoginLast(ls: seq<LoginStart>, l: LoginStart)
    ensures RecordedBefore(ls + [l], |ls| + 1) == l.recorded
    ensures DebounceAt(ls + [l], |ls| + 1) == DebounceAfter(l, RecordedBefore(ls, |ls|), l.inForce)
  {
    LoginsBefore(ls, l, |ls|);
    assert (ls + [l])[|ls|] == l;
  }

  lemma LoginsBefore(ls: seq<LoginStart>, l: LoginStart, i: nat)
    requires i <= |ls|
    ensures DebounceAt(ls + [l], i) == DebounceAt(ls, i) && RecordedBefore(ls + [l], i) == RecordedBefore(ls, i)
  {
    if i > 0 { assert (ls + [l])[i - 1] == ls[i - 1]; }
    if i > 1 { assert (ls + [l])[i - 2] == ls[i - 2]; }
  }

  // Which login, if any, this event starts.
  function LoginStarted(c: Client, k: Stack, e: Event): Option<LoginStart>
    requires k != []
  {
    if e.ReadDone? && k[0].Reading? && NewTokens(c, k, e).None? && c.access == "" && c.last + c.debounce < c.clock then
      Some(LoginStart(c.clock, c.clock, c.debounce, false))
    else if e.Woken? && k[0].DebounceNap? && c.access == "" && k[0].waited + 2000 >= c.debounce then
      Some(LoginStart(c.clock, k[0].now, c.debounce, true))
    else None
  }

  lemma StretchLogins(c: Client, k: Stack, e: Event)
    requires k != [] && Fits(k[0], e) && Doubling(c.debounce) && FromLogins(c.logins, c.last, c.debounce)
    requires e.ReadDone? ==> k[0].content.Some?
    ensures var next, l := Stretch(c, k[0], e), LoginStarted(c, k, e);
            && next.c.logins == (if l.Some? then c.logins + [l.value] else c.logins)
            && FromLogins(next.c.logins, next.c.last, next.c.debounce)
  {
    if k[0].Reading? {
      ReadLogins(if e.readable && k[0].content.Some? then Load(c, k[0].content.value) else c);
    } else if k[0].DebounceNap? {
      NapLogins(c, k[0].now, k[0].waited);
    } else {
      OtherLogins(c, k[0], e);
    }
  }

  lemma ReadLogins(c: Client)
    requires Doubling(c.debounce) && FromLogins(c.logins, c.last, c.debounce)
    ensures var next := AfterLoad(c);
            && next.c.logins == (if c.access == "" && c.last + c.debounce < c.clock
                                 then c.logins + [LoginStart(c.clock, c.clock, c.debounce, false)] else c.logins)
            && FromLogins(next.c.logins, next.c.last, next.c.debounce)
  {
    LoginAdded(c.logins, c.last, c.debounce, LoginStart(c.clock, c.clock, c.debounce, false));
  }

  lemma NapLogins(c: Client, now: int, waited: int)
    requires FromLogins(c.logins, c.last, c.debounce)
    ensures var next := AfterDebounceNap(c, now, waited);
            && next.c.logins == (if c.access == "" && waited + 2000 >= c.debounce
                                 then c.logins + [LoginStart(c.clock, now, c.debounce, true)] else c.logins)
            && FromLogins(next.c.logins, next.c.last, next.c.debounce)
  {
    LoginAdded(c.logins, c.last, c.debounce, LoginStart(c.clock, now, c.debounce, true));
  }

  lemma OtherLogins(c: Client, f: Frame, e: Event)
    requires Fits(f, e) && !f.Reading? && !f.DebounceNap?
    ensures var next := Stretch(c, f, e);
            next.c.logins == c.logins && next.c.last == c.last && next.c.debounce == c.debounce
  {
  }

  lemma {:induction false} UnwindDebounce(next: Next, k: Stack)
    ensures var c := Unwind(next, k).c;
            c.logins == next.c.logins && c.last == next.c.last && c.debounce == next.c.debounce
    decreases |k|
  {
    if next.Pass? && k != [] { UnwindDebounce(Deliver(next.c, k[0], next.sig), k[1..]); }
  }

  lemma StepDebounce(s: System, e: Event)
    requires Enabled(s, e) && Budgeted(s.calls) && TimelySystem(s.c, s.calls)
    requires FromLogins(s.c.logins, s.c.last, s.c.debounce)
    ensures var c := Step(s, e).c;
            && FromLogins(c.logins, c.last, c.debounce)
            && c.logins == (if e.Tick? || e.Begin? || e.ReadFile? then s.c.logins
                            else
                              var l := LoginStarted(s.c, s.calls[e.id].k, e);
                              if l.Some? then s.c.logins + [l.value] else s.c.logins)
  {
    if !e.Tick? && !e.Begin? && !e.ReadFile? {
      var k := s.calls[e.id].k;
      StretchLogins(Noticed(s.c, e), k, e);
      UnwindDebounce(Stretch(Noticed(s.c, e), k[0], e), k[1..]);
    }
  }

  lemma {:induction false} RunDebounce(s0: System, es: seq<Event>, s: System)
    requires Run(s0, es, s) && s0.calls == [] && TimelySystem(s0.c, []) && FromLogins(s0.c.logins, s0.c.last, s0.c.debounce)
    ensures FromLogins(s.c.logins, s.c.last, s.c.debounce)
    decreases |es|
  {
    if es != [] {
      var n := |es| - 1;
      var r := LastStep(s0, es, s);
      RunDebounce(s0, es[..n], r);
      RunTimely(s0, es[..n], r);
      RunWithin(s0, es[..n], r);
      StepDebounce(r, es[n]);
    }
  }

  /**
   In every interleaving the logins so far determine the debounce and the attempt on record, and a
   login starts exactly when a maybeLogin without a token finds its debounce cleared, or has
   waited it out.
   */
  lemma {:induction false} LoginsStartExactly(file: Option<Pair>, configured: bool, es: seq<Event>, s: System, e: Event)
    requires Run(Initial(file, configured), es, s) && Enabled(s, e)
    ensures s.c.debounce == DebounceAt(s.c.logins, |s.c.logins|) && s.c.last == RecordedBefore(s.c.logins, |s.c.logins|)
    ensures forall i :: 0 <= i < |s.c.logins| ==> s.c.logins[i].inForce == DebounceAt(s.c.logins, i)
    ensures Step(s, e).c.logins ==
            if e.Tick? || e.Begin? || e.ReadFile? then s.c.logins
            else
              var l := LoginStarted(s.c, s.calls[e.id].k, e);
              if l.Some? then s.c.logins + [l.value] else s.c.logins
  {
    var s0 := Initial(file, configured);
    RunDebounce(s0, es, s);
    RunTimely(s0, es, s);
    RunWithin(s0, es, s);
    StepDebounce(s, e);
  }

  /** A login that starts goes on the wire: in the call itself, or in a call of its own after a wait. */
  lemma {:induction false} StartedLoginPosts(s: System, e: Event)
    requires Enabled(s, e) && !e.Tick? && !e.Begin? && !e.ReadFile? && s.c.configured && s.c.debounce > 0
    requires LoginStarted(s.c, s.calls[e.id].k, e).Some?
    ensures var calls := Step(s, e).calls;
            exists id :: 0 <= id < |calls| && calls[id].k != [] && calls[id].k[0] == Post(Login)
                         && (id == e.id || id == |s.calls|)
  {
    var k, calls := s.calls[e.id].k, Step(s, e).calls;
    var next := Stretch(Noticed(s.c, e), k[0], e);
    if next.Hold? {
      assert (next.fs + k[1..])[0] == Post(Login);
      assert calls[e.id].k[0] == Post(Login);
    } else {
      assert calls[|s.calls|].k[0] == Post(Login);
    }
  }

  // The sleep that this event makes a maybeLogin begin, if it does.
  function NapBegun(c: Client, k: Stack, e: Event): Option<Frame>
    requires k != []
  {
    if e.ReadDone? && k[0].Reading? && NewTokens(c, k, e).None? && c.access == "" && c.last + c.debounce >= c.clock then
      Some(DebounceNap(c.clock, 0, c.clock + 2000))
    else if e.Woken? && k[0].DebounceNap? && c.access == "" && k[0].waited + 2000 < c.debounce then
      Some(DebounceNap(k[0].now, k[0].waited + 2000, c.clock + 2000))
    else None
  }

  /** A maybeLogin without a token sleeps two seconds more exactly as long as the debounce is neither cleared nor waited out. */
  lemma {:induction false} WaitsExactly(file: Option<Pair>, configured: bool, es: seq<Event>, s: System, e: Event)
    requires Run(Initial(file, configured), es, s) && Enabled(s, e) && !e.Tick? && !e.Begin? && !e.ReadFile?
    ensures var nap, k := NapBegun(s.c, s.calls[e.id].k, e), Step(s, e).calls[e.id].k;
            && (nap.Some? ==> k == [nap.value] + s.calls[e.id].k[1..])
            && (k != [] && k[0].DebounceNap? ==> nap == Some(k[0]))
  {
    var s0 := Initial(file, configured);
    RunTimely(s0, es, s);
    RunWithin(s0, es, s);
    assert CallWithin(s.calls[e.id]);
    StretchWaits(Noticed(s.c, e), s.calls[e.id].k, e);
  }

  lemma StretchWaits(c: Client, k: Stack, e: Event)
    requires k != [] && Fits(k[0], e) && Doubling(c.debounce) && Callees(k[1..])
    requires e.ReadDone? ==> k[0].content.Some?
    ensures var nap, out := NapBegun(c, k, e), Unwind(Stretch(c, k[0], e), k[1..]);
            && (nap.Some? ==> out.k == [nap.value] + k[1..])
            && (out.k != [] && out.k[0].DebounceNap? ==> nap == Some(out.k[0]))
  {
    var next := Stretch(c, k[0], e);
    HoldsNap(c, k, e);
    if next.Pass? { UnwindNoNap(next, k[1..]); }
  }

  lemma HoldsNap(c: Client, k: Stack, e: Event)
    requires k != [] && Fits(k[0], e) && Doubling(c.debounce)
    requires e.ReadDone? ==> k[0].content.Some?
    ensures var nap, next := NapBegun(c, k, e), Stretch(c, k[0], e);
            && (nap.Some? ==> next.Hold? && next.fs == [nap.value])
            && (next.Hold? ==> next.fs != [] && (next.fs[0].DebounceNap? ==> nap == Some(next.fs[0])))
  {
  }

  lemma {:induction false} UnwindNoNap(next: Next, k: Stack)
    requires Callees(k) && (next.Hold? ==> next.fs != [] && !next.fs[0].DebounceNap?)
    ensures var out := Unwind(next, k); out.k != [] ==> !out.k[0].DebounceNap?
    decreases |k|
  {
    if next.Pass? && k != [] { UnwindNoNap(Deliver(next.c, k[0], next.sig), k[1..]); }
  }
}
