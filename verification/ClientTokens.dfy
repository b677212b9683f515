/** Which events change the tokens and the token file, and to what. */
module ClientTokens {
  import opened Basics
  import opened ClientModel
  import opened ClientProofs
  import opened ClientBudget
  import opened ClientOutcome

  // The tokens that this event makes the client take over, if it does.
  function NewTokens(c: Client, k: Stack, e: Event): Option<Pair>
    requires k != []
  {
    if e.ReadDone? && k[0].Reading? && k[0].content.Some? then
      var content := k[0].content.value;
      if e.readable && content.Some? && content.value.access != "" && content.value.refresh != "" then content else None
    else if TakenIn(k[0], e).Some? && |k| > 1 then
      var a := TakenIn(k[0], e).value;
      if (a.badCredentials && !Good(a)) || TokenRejected(a) then Some(Pair("", c.refresh))
      else if Good(a) && (k[1].RefreshPost? || (k[1].LoginPost? && a.tokens.Some? && a.tokens.value.access != "")) then a.tokens
      else None
    else None
  }

  // A response without an error goes to a login or a refresh only straight from its post.
  predicate Quiet(sig: Signal, k: Stack) {
    sig.Return? && sig.r.Some? && sig.r.value.ok ==> k == [] || (!k[0].LoginPost? && !k[0].RefreshPost?)
  }

  lemma {:induction false} UnwindKeepsTokens(next: Next, k: Stack)
    requires Shaped(k) && Callees(k) && (next.Pass? ==> Quiet(next.sig, k))
    ensures var c := Unwind(next, k).c;
            c.access == next.c.access && c.refresh == next.c.refresh && c.file == next.c.file
    decreases |k|
  {
    if next.Pass? && k != [] {
      var next' := Deliver(next.c, k[0], next.sig);
      assert next'.Pass? ==> Quiet(next'.sig, k[1..]);
      UnwindKeepsTokens(next', k[1..]);
    }
  }

  lemma UnwindTakesTokens(c: Client, a: Answer, k: Stack)
    requires Shaped(k) && Callees(k) && k != [] && Good(a) && (k[0].LoginPost? || k[0].RefreshPost?)
    ensures var out := Unwind(Pass(c, Return(Some(Response(true, a, 0))), false), k);
            var taken := a.tokens.Some? && (k[0].RefreshPost? || a.tokens.value.access != "");
            && out.c.file == c.file
            && Pair(out.c.access, out.c.refresh) == (if taken then a.tokens.value else Pair(c.access, c.refresh))
            && (taken ==> out.k != [] && out.k[0] == Write(a.tokens.value, 0))
  {
    var next := Deliver(c, k[0], Return(Some(Response(true, a, 0))));
    if next.Pass? {
      UnwindKeepsTokens(next, k[1..]);
    } else {
      UnwindKeepsTokens(next, k[1..]);
    }
  }

  lemma HandleTokens(c: Client, a: Answer, k: Stack)
    requires Shaped(k) && Callees(k) && k != [] && Poster(k[0])
    ensures var out := Unwind(Handle(c, a), k);
            && out.c.file == c.file
            && Pair(out.c.access, out.c.refresh) ==
               (if (a.badCredentials && !Good(a)) || TokenRejected(a) then Pair("", c.refresh)
                else if Good(a) && a.tokens.Some? && (k[0].RefreshPost? || (k[0].LoginPost? && a.tokens.value.access != ""))
                then a.tokens.value
                else Pair(c.access, c.refresh))
  {
    if Good(a) && (k[0].LoginPost? || k[0].RefreshPost?) {
      UnwindTakesTokens(c, a, k);
    } else {
      UnwindKeepsTokens(Handle(c, a), k);
    }
  }

  lemma OtherStretchTokens(c: Client, f: Frame, k: Stack, e: Event)
    requires Shaped(k) && Callees(k) && On(f, k) && Fits(f, e) && TakenIn(f, e).None? && !e.ReadDone?
    ensures var out := Unwind(Stretch(c, f, e), k);
            && out.c.access == c.access && out.c.refresh == c.refresh
            && out.c.file == (if e.WriteDone? && e.ok then Some(f.data) else c.file)
  {
    var next := Stretch(c, f, e);
    assert next.Pass? ==> Quiet(next.sig, k);
    UnwindKeepsTokens(next, k);
  }

  lemma ReadTokens(c: Client, f: Frame, k: Stack, e: Event)
    requires Shaped(k) && Callees(k) && On(f, k) && f.Reading? && f.content.Some? && e.ReadDone?
    ensures var out := Unwind(Stretch(c, f, e), k);
            && out.c.file == c.file
            && Pair(out.c.access, out.c.refresh) ==
               (if NewTokens(c, [f] + k, e).Some? then NewTokens(c, [f] + k, e).value else Pair(c.access, c.refresh))
  {
    var next := Stretch(c, f, e);
    assert next.Pass? ==> Quiet(next.sig, k);
    UnwindKeepsTokens(next, k);
  }

  lemma StretchTokens(c: Client, k: Stack, e: Event)
    requires Shaped(k) && k != [] && Outside(k[0]) && Callees(k[1..]) && Fits(k[0], e)
    requires e.ReadDone? ==> k[0].content.Some?
    ensures var out := Unwind(Stretch(c, k[0], e), k[1..]);
            && Pair(out.c.access, out.c.refresh) ==
               (if NewTokens(c, k, e).Some? then NewTokens(c, k, e).value else Pair(c.access, c.refresh))
            && out.c.file == (if e.WriteDone? && e.ok then Some(k[0].data) else c.file)
  {
    assert k == [k[0]] + k[1..];
    if TakenIn(k[0], e).Some? {
      HandleTokens(c, TakenIn(k[0], e).value, k[1..]);
    } else if e.ReadDone? {
      ReadTokens(c, k[0], k[1..], e);
    } else {
      OtherStretchTokens(c, k[0], k[1..], e);
    }
  }

  /**
   Which events change the tokens and the file, and to what. A readable complete file is loaded; bad
   credentials and a rejected token empty the access token; an answer without an error to a login
   with an access token, or to a refresh, puts both its tokens in; a write that succeeds puts its
   pair in the file. Nothing else changes them.
   */
  lemma {:induction false} TokensChangeExactly(file: Option<Pair>, configured: bool, es: seq<Event>, s: System, e: Event)
    requires Run(Initial(file, configured), es, s) && Enabled(s, e)
    ensures var c, c' := s.c, Step(s, e).c;
            if e.Tick? || e.Begin? || e.ReadFile? then
              c'.access == c.access && c'.refresh == c.refresh && c'.file == c.file
            else
              var taken := NewTokens(c, s.calls[e.id].k, e);
              && Pair(c'.access, c'.refresh) == (if taken.Some? then taken.value else Pair(c.access, c.refresh))
              && c'.file == (if e.WriteDone? && e.ok then Some(Top(s, e.id).data) else c.file)
  {
    RunShaped(Initial(file, configured), es, s);
    if !e.Tick? && !e.Begin? && !e.ReadFile? { StepTokens(s, e); }
  }

  lemma StepTokens(s: System, e: Event)
    requires AllShaped(s.calls) && Budgeted(s.calls) && Enabled(s, e) && !e.Tick? && !e.Begin? && !e.ReadFile?
    ensures var c, c', taken := s.c, Step(s, e).c, NewTokens(s.c, s.calls[e.id].k, e);
            && Pair(c'.access, c'.refresh) == (if taken.Some? then taken.value else Pair(c.access, c.refresh))
            && c'.file == (if e.WriteDone? && e.ok then Some(Top(s, e.id).data) else c.file)
  {
    assert CallWithin(s.calls[e.id]) && Shaped(s.calls[e.id].k);
    StretchTokens(Noticed(s.c, e), s.calls[e.id].k, e);
  }

  /** An accepted login leaves exactly the answer's pair in the client, and in the file once it is written. */
  lemma {:induction false} LoginStoresTokens(file: Option<Pair>, configured: bool, es: seq<Event>, s: System, id: nat, a: Answer)
    requires Run(Initial(file, configured), es, s) && Waiting(s, id) && Top(s, id) == Post(Login)
    requires (a.code.Absent? || a.code.n == 1) && !a.nearRateLimit && a.tokens.Some? && a.tokens.value.access != ""
    ensures var s1 := Step(s, Answered(id, a));
            && Pair(s1.c.access, s1.c.refresh) == a.tokens.value
            && Waiting(s1, id) && Top(s1, id).Write?
            && var s2 := Step(s1, WriteDone(id, true));
               s2.c.file == Some(a.tokens.value) && Pair(s2.c.access, s2.c.refresh) == a.tokens.value
  {
    var s0, e := Initial(file, configured), Answered(id, a);
    RunShaped(s0, es, s);
    LoginTakes(s, id, a);
    RunSnoc(s0, es, s, e);
    WriteSaves(file, configured, es + [e], Step(s, e), id);
  }

  lemma LoginTakes(s: System, id: nat, a: Answer)
    requires AllShaped(s.calls) && Budgeted(s.calls) && Waiting(s, id) && Top(s, id) == Post(Login)
    requires Good(a) && !a.nearRateLimit && a.tokens.Some? && a.tokens.value.access != ""
    ensures var s1 := Step(s, Answered(id, a));
            && Pair(s1.c.access, s1.c.refresh) == a.tokens.value
            && Waiting(s1, id) && Top(s1, id) == Write(a.tokens.value, 0)
  {
    assert CallWithin(s.calls[id]) && Shaped(s.calls[id].k);
    UnwindTakesTokens(Noticed(s.c, Answered(id, a)), a, s.calls[id].k[1..]);
  }

  lemma WriteSaves(file: Option<Pair>, configured: bool, es: seq<Event>, s: System, id: nat)
    requires Run(Initial(file, configured), es, s) && Waiting(s, id) && Top(s, id).Write?
    ensures var s' := Step(s, WriteDone(id, true));
            s'.c.file == Some(Top(s, id).data) && s'.c.access == s.c.access && s'.c.refresh == s.c.refresh
  {
    TokensChangeExactly(file, configured, es, s, WriteDone(id, true));
  }
}
