/**
 The login, token and retry machine of the API client, as every interleaving of
 its asynchronous calls.

 A call is a stack of continuations; the top one awaits the network, the token
 file or a timer, and one event runs everything up to the next such await.  (An
 `await` of one of the client's own async functions only costs microtasks, which
 no other call's continuation can come between.)
 */
module ClientModel {
  import opened Basics

  // "" stands for a missing token.
  datatype Pair = Pair(access: string, refresh: string)

  predicate Complete(p: Pair) {
    p.access != "" && p.refresh != ""
  }

  const CAP := 300000
  const TWELVE_HOURS := 43200000
  const TEN_MINUTES := 600000

  // ---------------------------------------------------------------- server answers

  datatype Code = Absent | Number(n: int) | Text(n: int)

  // `tokens` is the part of the body _updateTokens would read, if there is one;
  // the three flags are the substring tests on the error message.
  datatype Answer = Answer(
    code: Code,
    badCredentials: bool,
    tooManyAttempts: bool,
    tokenMessage: bool,
    tokens: Option<Pair>,
    nearRateLimit: bool)

  datatype Verdict = Fine | BadCredentials | RateLimited | TokenError | Error

  function Classify(a: Answer): Verdict {
    if a.code.Absent? || a.code.n == 1 then Fine
    else if a.badCredentials then BadCredentials
    else if a.code == Number(3044) || (a.code == Number(1000) && a.tooManyAttempts) then RateLimited
    else if a.code == Number(2001) || a.tokenMessage then TokenError
    else Error
  }

  // What _performRequest hands back; retryAfter 0 is "none".
  datatype Response = Response(ok: bool, answer: Answer, retryAfter: int)

  datatype Signal = Return(r: Option<Response>) | Throw

  const DONE: Signal := Return(None)

  // ---------------------------------------------------------------- calls

  datatype Endpoint = Data | Login | Refresh

  datatype Frame =
    // awaiting the outside
    | Post(ep: Endpoint)
    | RateWait(answer: Answer)
    | Reading(content: Option<Option<Pair>>)   // None until the file has been read
    | Write(data: Pair, attempt: nat)
    | WriteNap(data: Pair, attempt: nat)
    | RefreshNap(attempt: nat)
    | DebounceNap(now: int, waited: int, wake: int)
    | RetryNap(wake: int)
    // awaiting a callee
    | RecoverAccess(answer: Answer)            // _handleAccessTokenError: refreshToken
    | LoginPost                                // login: _performLoginRequest
    | LoginSave                                // login: _updateTokens
    | RefreshPost(attempt: nat)                // refreshToken: _performRequest
    | RefreshSave(attempt: nat)                // refreshToken: _updateTokens
    | FirstLogin                               // request: maybeLogin
    | FirstPost                                // _handleRequest: _performRequest
    | RetryLogin                               // _handleRetry: maybeLogin
    | RetryPost                                // _handleRetry: _performRequest

  type Stack = seq<Frame>

  predicate Outside(f: Frame) {
    f.Post? || f.RateWait? || f.Reading? || f.Write? || f.WriteNap? || f.RefreshNap? || f.DebounceNap? || f.RetryNap?
  }

  datatype LoginStart = LoginStart(time: int, recorded: int, inForce: int, waited: bool)

  datatype Client = Client(
    access: string,
    refresh: string,
    last: int,
    debounce: int,
    file: Option<Pair>,
    clock: int,
    configured: bool,          // apiKey and keyId are both set
    logins: seq<LoginStart>,   // logins maybeLogin has started
    known: set<Pair>)          // token pairs the server sent, and the initial file's

  // How a piece of code goes on: it hands a signal to the frame below, or awaits
  // the outside with the frames fs on top.  `floats` says that it also started a
  // login nobody awaits.
  datatype Next =
    | Pass(c: Client, sig: Signal, floats: bool)
    | Hold(c: Client, fs: Stack)

  // ---------------------------------------------------------------- stretches of code

  // _updateTokens and the start of _persistTokens, on behalf of frame f.
  function Update(c: Client, p: Pair, f: Frame): Next {
    Hold(c.(access := p.access, refresh := p.refresh), [Write(p, 0), f])
  }

  function RefreshFailed(c: Client, attempt: nat): Next {
    if attempt + 1 < 2 then Hold(c, [RefreshNap(attempt + 1)]) else Pass(c, Throw, false)
  }

  // Hands the outcome of a callee to the frame that awaits it.
  function Deliver(c: Client, f: Frame, sig: Signal): Next {
    match f
    case RecoverAccess(answer) =>
      if sig.Throw? then Pass(c, Throw, false)
      else Pass(c, Return(Some(Response(false, answer, if c.access != "" then c.clock else 0))), false)
    case LoginPost =>
      if sig.Throw? || sig.r.None? || !sig.r.value.ok || sig.r.value.answer.tokens.None? ||
         sig.r.value.answer.tokens.value.access == ""
      then Pass(c, Throw, false)
      else Update(c, sig.r.value.answer.tokens.value, LoginSave)
    case LoginSave => Pass(c, sig, false)
    case RefreshPost(attempt) =>
      if sig.Throw? || sig.r.None? || !sig.r.value.ok || sig.r.value.answer.tokens.None?
      then RefreshFailed(c, attempt)
      else Update(c, sig.r.value.answer.tokens.value, RefreshSave(attempt))
    case RefreshSave(attempt) =>
      if sig.Throw? then RefreshFailed(c, attempt) else Pass(c, DONE, false)
    case FirstLogin =>
      if sig.Throw? then Pass(c, Throw, false) else Hold(c, [Post(Data), FirstPost])
    case FirstPost =>
      if sig.Throw? || sig.r.None? then Pass(c, Throw, false)
      else if sig.r.value.ok then Pass(c, sig, false)
      else if sig.r.value.retryAfter == 0 then Pass(c, Throw, false)
      else if sig.r.value.retryAfter > c.clock then Hold(c, [RetryNap(sig.r.value.retryAfter)])
      else Retry(c)
    case RetryLogin =>
      if sig.Throw? then Pass(c, Throw, false) else Hold(c, [Post(Data), RetryPost])
    case RetryPost =>
      if sig.Throw? || sig.r.None? || !sig.r.value.ok then Pass(c, Throw, false) else Pass(c, sig, false)
    case _ => Hold(c, [f])   // frames that await the outside have no callee
  }

  // maybeLogin up to its first await, then on to the second data post.
  function Retry(c: Client): Next {
    if c.access == "" then Hold(c, [Reading(None), RetryLogin]) else Hold(c, [Post(Data), RetryPost])
  }

  // _handleApiResponse
  function Handle(c: Client, a: Answer): Next {
    match Classify(a)
    case Fine => Pass(c, Return(Some(Response(true, a, 0))), false)
    case BadCredentials => Pass(c.(access := ""), Throw, false)
    case RateLimited => Pass(c, Return(Some(Response(false, a, c.clock + TEN_MINUTES))), false)
    case TokenError => Hold(c.(access := ""), [Post(Refresh), RefreshPost(0), RecoverAccess(a)])
    case Error => Pass(c, Throw, false)
  }

  predicate DebounceCleared(c: Client) {
    c.last + c.debounce < c.clock
  }

  // _loadPersistedTokens, once the file was read.
  function Load(c: Client, content: Option<Pair>): Client {
    if content.Some? && Complete(content.value)
    then c.(access := content.value.access, refresh := content.value.refresh) else c
  }

  // maybeLogin after _loadPersistedTokens.
  function AfterLoad(c: Client): Next {
    if c.access != "" then Pass(c, DONE, false)
    else if DebounceCleared(c) then
      // resetDebounceIfNeeded, then tryLogin
      var d := if c.clock - c.last > TWELVE_HOURS then 1000 else c.debounce;
      StartLogin(c.(debounce := d, last := c.clock,
                    logins := c.logins + [LoginStart(c.clock, c.clock, c.debounce, false)]))
    else if 0 < c.debounce then Hold(c, [DebounceNap(c.clock, 0, c.clock + 2000)])
    else UpdateDebounceAndLogin(c, c.clock)
  }

  // login() up to the network; without both keys it throws at once.
  function StartLogin(c: Client): Next {
    if c.configured then Hold(c, [Post(Login), LoginPost]) else Pass(c, Throw, false)
  }

  // The login started here is not awaited: it becomes a call of its own.
  function UpdateDebounceAndLogin(c: Client, now: int): Next {
    Pass(c.(last := now,
            debounce := if c.debounce * 2 < CAP then c.debounce * 2 else CAP,
            logins := c.logins + [LoginStart(c.clock, now, c.debounce, true)]),
         DONE, c.configured)
  }

  // One turn of waitForDebounceClearance: the bound is read again.
  function AfterDebounceNap(c: Client, now: int, waited: int): Next {
    if c.access != "" then Pass(c, DONE, false)
    else if waited + 2000 < c.debounce then Hold(c, [DebounceNap(now, waited + 2000, c.clock + 2000)])
    else UpdateDebounceAndLogin(c, now)
  }

  // Runs down the stack until some frame awaits the outside, or the call is over.
  datatype Out = Out(c: Client, k: Stack, result: Option<Signal>)

  function Unwind(next: Next, k: Stack): Out
    decreases |k|
  {
    match next
    case Hold(c, fs) => Out(c, fs + k, None)
    case Pass(c, sig, _) => if k == [] then Out(c, [], Some(sig)) else Unwind(Deliver(c, k[0], sig), k[1..])
  }

  // ---------------------------------------------------------------- the system

  datatype Entry = Request | MaybeLogin | RefreshToken | LoginDirect

  datatype Call = Call(
    entry: Entry,
    k: Stack,
    result: Option<Signal>,
    dataPosts: nat,
    refreshPosts: nat,
    tokenErrors: nat,   // access-token errors answered to this call
    stretches: nat)     // how often it was resumed

  datatype System = System(c: Client, calls: seq<Call>)

  datatype Event =
    | Tick(ms: nat)
    | Begin(entry: Entry)
    | ReadFile(id: nat)
    | ReadDone(id: nat, readable: bool)
    | Answered(id: nat, a: Answer)
    | NetworkFailed(id: nat)
    | WriteDone(id: nat, ok: bool)
    | Woken(id: nat)

  function Initial(file: Option<Pair>, configured: bool): System {
    System(Client("", "", 0, 1000, file, 0, configured, [], if file.Some? then {file.value} else {}), [])
  }

  function Entered(c: Client, entry: Entry): Next {
    match entry
    case Request => Hold(c, if c.access == "" then [Reading(None), FirstLogin] else [Post(Data), FirstPost])
    case MaybeLogin => if c.access == "" then Hold(c, [Reading(None)]) else Pass(c, DONE, false)
    case RefreshToken => Hold(c, [Post(Refresh), RefreshPost(0)])
    case LoginDirect => StartLogin(c)
  }

  function CountPosts(k: Stack, ep: Endpoint): nat {
    if k != [] && k[0] == Post(ep) then 1 else 0
  }

  function NewCall(entry: Entry, k: Stack, result: Option<Signal>): Call {
    Call(entry, k, result, CountPosts(k, Data), CountPosts(k, Refresh), 0, 0)
  }

  // Installs the outcome of a stretch of call `id`, and the floating login if one was started.
  function Install(calls: seq<Call>, id: nat, next: Next, errors: nat): System
    requires id < |calls| && calls[id].k != []
  {
    var out := Unwind(next, calls[id].k[1..]);
    System(out.c, calls[id := Resumed(calls[id], out.k, out.result, errors)] + Floating(next))
  }

  // A call after one more stretch.
  function Resumed(call: Call, k: Stack, result: Option<Signal>, errors: nat): Call {
    call.(k := k, result := result,
          dataPosts := call.dataPosts + CountPosts(k, Data),
          refreshPosts := call.refreshPosts + CountPosts(k, Refresh),
          tokenErrors := call.tokenErrors + errors,
          stretches := call.stretches + 1)
  }

  function Floating(next: Next): seq<Call> {
    if next.Pass? && next.floats then [NewCall(LoginDirect, [Post(Login), LoginPost], None)] else []
  }

  predicate Waiting(s: System, id: nat) {
    id < |s.calls| && s.calls[id].k != []
  }

  function Top(s: System, id: nat): Frame
    requires Waiting(s, id)
  {
    s.calls[id].k[0]
  }

  predicate Enabled(s: System, e: Event) {
    match e
    case Tick(_) => true
    case Begin(_) => true
    case ReadFile(id) => Waiting(s, id) && Top(s, id).Reading?
    case ReadDone(id, _) => Waiting(s, id) && Top(s, id).Reading? && Top(s, id).content.Some?
    case Answered(id, _) => Waiting(s, id) && Top(s, id).Post?
    case NetworkFailed(id) => Waiting(s, id) && Top(s, id).Post?
    case WriteDone(id, _) => Waiting(s, id) && Top(s, id).Write?
    case Woken(id) =>
      && Waiting(s, id)
      && (Top(s, id).RateWait? || Top(s, id).WriteNap? || Top(s, id).RefreshNap? ||
          ((Top(s, id).RetryNap? || Top(s, id).DebounceNap?) && Top(s, id).wake <= s.c.clock))
  }

  // The pair in a server answer, if any, becomes known.
  function Noticed(c: Client, e: Event): Client {
    if e.Answered? && e.a.tokens.Some? then c.(known := c.known + {e.a.tokens.value}) else c
  }

  function IsTokenError(a: Answer): nat {
    if Classify(a) == TokenError then 1 else 0
  }

  function Wake(c: Client, f: Frame): Next {
    match f
    case RateWait(a) => Handle(c, a)
    case WriteNap(data, attempt) => Hold(c, [Write(data, attempt)])
    case RefreshNap(attempt) => Hold(c, [Post(Refresh), RefreshPost(attempt)])
    case RetryNap(_) => Retry(c)
    case DebounceNap(now, waited, _) => AfterDebounceNap(c, now, waited)
    case _ => Hold(c, [f])
  }

  // What the frame on top does when the outside responds.
  function Stretch(c: Client, f: Frame, e: Event): Next {
    match e
    case ReadDone(id, readable) =>
      AfterLoad(if readable && f.Reading? && f.content.Some? then Load(c, f.content.value) else c)
    case Answered(id, a) =>
      if a.nearRateLimit then Hold(c, [RateWait(a)]) else Handle(c, a)
    case NetworkFailed(id) => Pass(c, Throw, false)
    case WriteDone(id, ok) =>
      if !f.Write? then Hold(c, [f])
      else if ok then Pass(c.(file := Some(f.data)), DONE, false)
      else if f.attempt + 1 < 2 then Hold(c, [WriteNap(f.data, f.attempt + 1)])
      else Pass(c, Throw, false)
    case Woken(id) => Wake(c, f)
    case _ => Hold(c, [f])
  }

  function ErrorsOf(f: Frame, e: Event): nat {
    match e
    case Answered(id, a) => if a.nearRateLimit then 0 else IsTokenError(a)
    case Woken(id) => if f.RateWait? then IsTokenError(f.answer) else 0
    case _ => 0
  }

  function Step(s: System, e: Event): System
    requires Enabled(s, e)
  {
    match e
    case Tick(ms) => s.(c := s.c.(clock := s.c.clock + ms))
    case Begin(entry) =>
      var out := Unwind(Entered(s.c, entry), []);
      s.(calls := s.calls + [NewCall(entry, out.k, out.result)])
    case ReadFile(id) =>
      s.(calls := s.calls[id := s.calls[id].(k := [Reading(Some(s.c.file))] + s.calls[id].k[1..])])
    case _ => Install(s.calls, e.id, Stretch(Noticed(s.c, e), Top(s, e.id), e), ErrorsOf(Top(s, e.id), e))
  }

  // s is reached from s0 by the events es.
  ghost predicate Run(s0: System, es: seq<Event>, s: System)
    decreases |es|
  {
    if es == [] then s == s0
    else
      var n := |es| - 1;
      exists r :: Run(s0, es[..n], r) && Enabled(r, es[n]) && s == Step(r, es[n])
  }
}
