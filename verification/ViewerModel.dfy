/**
 The `StreamSession` protocol of the browser viewer as a transition system.

 One event is one uninterrupted stretch of JavaScript: a callback up to its first
 `await`, or the continuation of one `await`.  `Session` holds the fields of the
 object, `Browser` what the page asked of the browser (peer connections, sockets,
 promises that have not settled, retry timers), and `Log` what an observer of the
 page has seen so far.

 A promise of a peer connection that has been closed never settles (operations
 chain, section 4.4.1.2 of W3C WebRTC 1.0): closing a peer drops its promises.
 */
module ViewerModel {
  import opened Basics

  type Candidate = string

  // ---------------------------------------------------------------- state

  datatype Session = Session(
    token: nat,
    pc: Option<nat>,
    ws: Option<nat>,
    pending: seq<Candidate>,
    hasRemote: bool,
    applying: bool,
    waiters: seq<nat>,
    retries: nat)

  // `token` is the session token captured by the callbacks of the connection.
  // `offered` is signalingState == "have-local-offer"; `remote` is
  // remoteDescription != null.
  datatype Peer = Peer(token: nat, open: bool, offered: bool, remote: bool)

  datatype Socket = Socket(token: nat, open: bool)

  // A promise somebody awaits.  `start` numbers the call of start that waits.
  datatype Task =
    | Fetch(start: nat, token: nat)
    | CreateOffer(peer: nat, token: nat)
    | SetLocal(peer: nat, token: nat)
    | SetRemote(peer: nat, token: nat)
    | Flush(peer: nat, token: nat, queue: seq<Candidate>, index: nat)
    | AddOne(peer: nat, token: nat)

  datatype Browser = Browser(
    peers: seq<Peer>,
    sockets: seq<Socket>,
    tasks: map<nat, Task>,
    nextTask: nat,
    timers: multiset<nat>)

  datatype Log = Log(
    starts: seq<nat>,             // the token of each start that reached its fetch
    registered: set<nat>,         // starts that entered _waitForStartResult
    results: map<nat, bool>,      // what the promises of these starts settled with
    tracked: set<nat>,            // tokens whose track event was accepted
    answers: multiset<nat>,       // tokens whose setRemoteDescription succeeded
    seen: multiset<Candidate>,    // candidates handled since the last stop
    handed: multiset<Candidate>,  // addIceCandidate calls since the last stop
    drained: nat,                 // how many of `pending` a flush has handed over
    flushFailed: bool,            // a flush of this session was cut short
    userStarts: nat,
    autoStarts: nat,
    scheduled: nat)

  datatype State = State(o: Session, b: Browser, g: Log)

  const INIT: State := State(
    Session(0, None, None, [], false, false, [], 0),
    Browser([], [], map[], 0, multiset{}),
    Log([], {}, map[], {}, multiset{}, multiset{}, multiset{}, 0, false, 0, 0, 0))

  // ---------------------------------------------------------------- events

  datatype MessageKind =
    | Answer(wellFormed: bool)
    | IceCandidate(c: Candidate)
    | Malformed                   // JSON or RTCIceCandidate constructor throws
    | Ignored                     // no payload, or another type

  datatype FetchOutcome = Connected | SocketThrows | Failed

  datatype Settlement = Fulfilled | Rejected(incompatible: bool)

  datatype Event =
    | UserStart(online: bool)
    | UserStop
    | RetryTimer(token: nat, online: bool)
    | StartTimeout(start: nat)
    | FetchDone(task: nat, outcome: FetchOutcome)
    | SocketOpen(socket: nat)
    | SocketMessage(socket: nat, kind: MessageKind)
    | SocketClose(socket: nat)
    | Track(peer: nat)
    | ConnectionState(peer: nat, broken: bool)
    | Settle(task: nat, how: Settlement)

  // ---------------------------------------------------------------- browser operations

  function AddTask(s: State, t: Task): State {
    s.(b := s.b.(tasks := s.b.tasks[s.b.nextTask := t], nextTask := s.b.nextTask + 1))
  }

  function DropTask(s: State, i: nat): State {
    s.(b := s.b.(tasks := s.b.tasks - {i}))
  }

  predicate OnPeer(t: Task, p: nat) {
    !t.Fetch? && t.peer == p
  }

  function ClosePeer(b: Browser, p: nat): Browser
    requires p < |b.peers|
  {
    b.(peers := b.peers[p := b.peers[p].(open := false)],
       tasks := map i | i in b.tasks && !OnPeer(b.tasks[i], p) :: b.tasks[i])
  }

  function CloseSocket(b: Browser, k: nat): Browser
    requires k < |b.sockets|
  {
    b.(sockets := b.sockets[k := b.sockets[k].(open := false)])
  }

  // ---------------------------------------------------------------- methods of the object

  function ResolveStartWaiters(s: State, value: bool): State {
    s.(o := s.o.(waiters := []),
       g := s.g.(results := s.g.results + map w | w in s.o.waiters && w !in s.g.results :: value))
  }

  predicate Handles(s: State) {
    && (s.o.pc.Some? ==> s.o.pc.value < |s.b.peers|)
    && (s.o.ws.Some? ==> s.o.ws.value < |s.b.sockets|)
  }

  function Stop(s: State): State
    requires Handles(s)
  {
    var b1 := if s.o.ws.Some? then CloseSocket(s.b, s.o.ws.value) else s.b;
    var b2 := if s.o.pc.Some? then ClosePeer(b1, s.o.pc.value) else b1;
    ResolveStartWaiters(
      State(s.o.(token := s.o.token + 1, pending := [], hasRemote := false, applying := false, ws := None, pc := None),
            b2,
            s.g.(seen := multiset{}, handed := multiset{}, drained := 0, flushFailed := false)),
      false)
  }

  // start up to the test of camera.online.
  function Begin(s: State, isRetry: bool): State
    requires Handles(s)
  {
    var s1 := Stop(s);
    State(s1.o.(retries := if isRetry then s1.o.retries else 0, token := s1.o.token + 1),
          s1.b,
          if isRetry then s1.g.(autoStarts := s1.g.autoStarts + 1)
          else s1.g.(userStarts := s1.g.userStarts + 1))
  }

  function SendFetch(s: State): State {
    AddTask(s.(g := s.g.(starts := s.g.starts + [s.o.token])), Fetch(|s.g.starts|, s.o.token))
  }

  function Start(s: State, isRetry: bool, online: bool): State
    requires Handles(s)
  {
    if online then SendFetch(Begin(s, isRetry)) else ResolveStartWaiters(Begin(s, isRetry), false)
  }

  // The first half of _connect: a new peer connection.
  function WithPeer(s: State, token: nat): State {
    s.(o := s.o.(pc := Some(|s.b.peers|)), b := s.b.(peers := s.b.peers + [Peer(token, true, false, false)]))
  }

  // The rest of start once the stream parameters arrived (or failed to).
  function AfterFetch(s: State, start: nat, token: nat, outcome: FetchOutcome): State {
    match outcome
    case Failed => StartFailed(s, start)
    case SocketThrows => StartFailed(WithPeer(s, token), start)
    case Connected =>
      var withPeer := WithPeer(s, token);
      State(withPeer.o.(ws := Some(|s.b.sockets|), waiters := s.o.waiters + [start]),
            withPeer.b.(sockets := s.b.sockets + [Socket(token, true)]),
            s.g.(registered := s.g.registered + {start}))
  }

  function StartFailed(s: State, start: nat): State {
    var s1 := ResolveStartWaiters(s, false);
    s1.(g := s1.g.(results := s1.g.results[start := false]))
  }

  function OnSocketOpen(s: State, token: nat): State {
    if token != s.o.token || s.o.pc.None? then s
    else AddTask(s, CreateOffer(s.o.pc.value, token))
  }

  function OnMessage(s: State, token: nat, kind: MessageKind): State
    requires Handles(s)
  {
    if token != s.o.token || s.o.pc.None? then s
    else match kind
      case Ignored => s
      case Malformed => ResolveStartWaiters(s, false)
      case Answer(wellFormed) => OnAnswer(s, token, wellFormed)
      case IceCandidate(c) => OnCandidate(s, token, c)
  }

  function OnAnswer(s: State, token: nat, wellFormed: bool): State
    requires Handles(s) && s.o.pc.Some?
  {
    if s.o.hasRemote || s.o.applying || !s.b.peers[s.o.pc.value].offered then s
    else if !wellFormed then AnswerFailed(s, token, false)
    else AddTask(s.(o := s.o.(applying := true)), SetRemote(s.o.pc.value, token))
  }

  function OnCandidate(s: State, token: nat, c: Candidate): State
    requires Handles(s) && s.o.pc.Some?
  {
    var s1 := s.(g := s.g.(seen := s.g.seen + multiset{c}));
    if !s.o.hasRemote then s1.(o := s.o.(pending := s.o.pending + [c]))
    else if s.b.peers[s.o.pc.value].remote then
      AddTask(s1.(g := s1.g.(handed := s1.g.handed + multiset{c})), AddOne(s.o.pc.value, token))
    else s1
  }

  // setRemoteDescription fulfilled, before the flush and with it.
  function RemoteSet(s: State, peer: nat, token: nat): State
    requires peer < |s.b.peers|
  {
    State(s.o.(hasRemote := true),
          s.b.(peers := s.b.peers[peer := s.b.peers[peer].(offered := false, remote := true)]),
          s.g.(answers := s.g.answers + multiset{token}))
  }

  function AfterRemote(s: State, peer: nat, token: nat): State
    requires peer < |s.b.peers|
  {
    FlushFrom(RemoteSet(s, peer, token), token, s.o.pending, 0)
  }

  // The loop over the buffered candidates, from position `index` on.  Nothing is
  // pushed on the list it walks: pushes need hasRemote to be false, and only stop
  // resets that field, giving the object a new list in the same stretch.
  function FlushFrom(s: State, token: nat, queue: seq<Candidate>, index: nat): State {
    if index < |queue| then
      if s.o.pc.None? then AnswerFailed(s.(g := s.g.(flushFailed := true)), token, false)
      else
        AddTask(s.(g := s.g.(handed := s.g.handed + multiset{queue[index]}, drained := index + 1)),
                Flush(s.o.pc.value, token, queue, index))
    else
      s.(o := s.o.(pending := [], applying := false), g := s.g.(drained := 0))
  }

  // The catch and finally blocks around an answer.
  function AnswerFailed(s: State, token: nat, incompatible: bool): State {
    var s1 := ResolveStartWaiters(s, false);
    var s2 := s1.(o := s1.o.(applying := false));
    if incompatible && s.o.retries < 1 then
      State(s2.o.(retries := s2.o.retries + 1),
            s2.b.(timers := s2.b.timers + multiset{token}),
            s2.g.(scheduled := s2.g.scheduled + 1))
    else s2
  }

  function Continue(s: State, t: Task, how: Settlement): State
    requires !t.Fetch? && t.peer < |s.b.peers|
  {
    match t
    case CreateOffer(_, token) =>
      if how.Fulfilled? && s.o.pc.Some? then AddTask(s, SetLocal(s.o.pc.value, token)) else s
    case SetLocal(p, _) =>
      if how.Fulfilled? then s.(b := s.b.(peers := s.b.peers[p := s.b.peers[p].(offered := true)])) else s
    case AddOne(_, _) =>
      if how.Fulfilled? then s else ResolveStartWaiters(s, false)
    case SetRemote(p, token) =>
      if how.Fulfilled? then AfterRemote(s, p, token) else AnswerFailed(s, token, how.incompatible)
    case Flush(_, token, queue, index) =>
      if how.Fulfilled? then FlushFrom(s, token, queue, index + 1)
      else AnswerFailed(s.(g := s.g.(flushFailed := true)), token, how.incompatible)
  }

  function OnTrack(s: State, token: nat): State {
    if token != s.o.token then s
    else ResolveStartWaiters(s.(g := s.g.(tracked := s.g.tracked + {token})), true)
  }

  function OnLost(s: State, token: nat): State {
    if token != s.o.token then s else ResolveStartWaiters(s, false)
  }

  function OnRetryTimer(s: State, token: nat, online: bool): State
    requires Handles(s)
  {
    var s1 := s.(b := s.b.(timers := s.b.timers - multiset{token}));
    if token != s.o.token then s1 else Start(s1, true, online)
  }

  // ---------------------------------------------------------------- transitions

  ghost predicate Enabled(s: State, e: Event) {
    && Handles(s)
    && match e
       case UserStart(_) => true
       case UserStop => true
       case RetryTimer(token, _) => token in s.b.timers
       case StartTimeout(w) => w in s.g.registered && w !in s.g.results
       case FetchDone(i, _) => i in s.b.tasks && s.b.tasks[i].Fetch?
       case SocketOpen(k) => k < |s.b.sockets|
       case SocketMessage(k, _) => k < |s.b.sockets|
       case SocketClose(k) => k < |s.b.sockets|
       case Track(p) => p < |s.b.peers|
       case ConnectionState(p, _) => p < |s.b.peers|
       case Settle(i, _) => i in s.b.tasks && !s.b.tasks[i].Fetch? && s.b.tasks[i].peer < |s.b.peers|
  }

  ghost function Step(s: State, e: Event): State
    requires Enabled(s, e)
  {
    match e
    case UserStart(online) => Start(s, false, online)
    case UserStop => Stop(s)
    case RetryTimer(token, online) => OnRetryTimer(s, token, online)
    case StartTimeout(w) => s.(g := s.g.(results := s.g.results[w := false]))
    case FetchDone(i, outcome) =>
      AfterFetch(DropTask(s, i), s.b.tasks[i].start, s.b.tasks[i].token, outcome)
    case SocketOpen(k) => OnSocketOpen(s, s.b.sockets[k].token)
    case SocketMessage(k, kind) => OnMessage(s, s.b.sockets[k].token, kind)
    case SocketClose(k) => OnLost(s.(b := CloseSocket(s.b, k)), s.b.sockets[k].token)
    case Track(p) => OnTrack(s, s.b.peers[p].token)
    case ConnectionState(p, broken) => if broken then OnLost(s, s.b.peers[p].token) else s
    case Settle(i, how) => Continue(DropTask(s, i), s.b.tasks[i], how)
  }

  // The state after a run from the freshly constructed object.
  ghost predicate Run(es: seq<Event>, s: State)
    decreases |es|
  {
    if es == [] then s == INIT
    else
      var n := |es| - 1;
      exists r :: Run(es[..n], r) && Enabled(r, es[n]) && s == Step(r, es[n])
  }

  predicate NoFetch(s: State) {
    forall i <- s.b.tasks :: !s.b.tasks[i].Fetch?
  }

  // No start or stop runs while the fetch of a start is outstanding.
  ghost predicate Separate(s: State, e: Event) {
    e.UserStart? || e.UserStop? || (e.RetryTimer? && e.token == s.o.token) ==> NoFetch(s)
  }

  ghost predicate SeparateRun(es: seq<Event>, s: State)
    decreases |es|
  {
    if es == [] then s == INIT
    else
      var n := |es| - 1;
      exists r :: SeparateRun(es[..n], r) && Enabled(r, es[n]) && Separate(r, es[n]) && s == Step(r, es[n])
  }
}
