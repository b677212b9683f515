/**
 The stream-info cache: a string-keyed map with expiry times and a prefix-matching clear, and the
 cache keyed by (mac, model, substream) that its documentation describes.
 */
module StreamCache {
  import opened Basics
  import opened Text
  import Percent
  import Utf8

  // ---------------------------------------------------------------- what is cached

  // An ICE server as the API gives it (None: a null entry or an absent field).
  datatype RawServer = RawServer(url: Option<Str>, username: Option<Str>, credential: Option<Str>)
  datatype IceServer = IceServer(urls: Str, username: Option<Str>, credential: Option<Str>)
  datatype Info = Info(signalingUrl: Option<Str>, iceServers: seq<Option<RawServer>>, authToken: Option<Str>)
  datatype Bundle = Bundle(signalingUrl: Option<Str>, iceServers: seq<IceServer>, authToken: Option<Str>)

  // An absent or empty string is falsy.
  function Truthy(s: Option<Str>): Option<Str> {
    if s == Some([]) then None else s
  }

  predicate Usable(server: Option<RawServer>) {
    server.Some? && Truthy(server.value.url).Some?
  }

  function Sanitize(servers: seq<Option<RawServer>>): seq<IceServer> {
    if servers == [] then []
    else if !Usable(servers[0]) then Sanitize(servers[1..])
    else
      var server := servers[0].value;
      [IceServer(server.url.value, Truthy(server.username), Truthy(server.credential))] + Sanitize(servers[1..])
  }

  // How many of the first n servers are usable.
  function UsableBefore(servers: seq<Option<RawServer>>, n: nat): nat
    requires n <= |servers|
  {
    if n == 0 then 0 else UsableBefore(servers, n - 1) + if Usable(servers[n - 1]) then 1 else 0
  }

  lemma {:induction false} UsableShift(servers: seq<Option<RawServer>>, n: nat)
    requires 0 < n <= |servers|
    ensures UsableBefore(servers, n) == UsableBefore(servers[1..], n - 1) + if Usable(servers[0]) then 1 else 0
  {
    if n > 1 { UsableShift(servers, n - 1); }
  }

  lemma {:induction false} SanitizeLength(servers: seq<Option<RawServer>>)
    ensures |Sanitize(servers)| == UsableBefore(servers, |servers|)
  {
    if servers != [] {
      SanitizeLength(servers[1..]);
      UsableShift(servers, |servers|);
    }
  }

  // An absent or empty field is left out, any other is kept.
  predicate FieldKept(kept: Option<Str>, raw: Option<Str>) {
    if kept.Some? then kept.value != [] && raw == kept else raw in {None, Some([])}
  }

  predicate ServerKept(kept: IceServer, raw: RawServer) {
    && kept.urls != [] && raw.url == Some(kept.urls)
    && FieldKept(kept.username, raw.username) && FieldKept(kept.credential, raw.credential)
  }

  /** Usable servers survive in order, field by field, with empty fields left out; no others do. */
  lemma {:induction false} SanitizeKeepsUsable(servers: seq<Option<RawServer>>, i: nat)
    requires i < |servers| && Usable(servers[i])
    ensures |Sanitize(servers)| == UsableBefore(servers, |servers|)
    ensures UsableBefore(servers, i) < |Sanitize(servers)|
    ensures ServerKept(Sanitize(servers)[UsableBefore(servers, i)], servers[i].value)
  {
    SanitizeLength(servers);
    if i > 0 {
      SanitizeKeepsUsable(servers[1..], i - 1);
      UsableShift(servers, i);
    }
  }

  function BundleOf(info: Info): Bundle {
    Bundle(if info.signalingUrl.None? then None else Some(Percent.Normalize(info.signalingUrl.value)),
           Sanitize(info.iceServers),
           info.authToken)
  }

  // The stored URL: the given one, decoded once if it holds "%25" and decodes.
  predicate UrlStored(stored: Option<Str>, given: Option<Str>) {
    if given.None? then stored.None?
    else
      var decoded := Percent.DecodeURIComponent(given.value);
      stored == Some(if decoded.Some? && Percent.Has25(given.value) then decoded.value else given.value)
  }

  // b is the normalised form of info, field by field.
  ghost predicate Describes(b: Bundle, info: Info) {
    && b.authToken == info.authToken
    && UrlStored(b.signalingUrl, info.signalingUrl)
    && |b.iceServers| == UsableBefore(info.iceServers, |info.iceServers|)
    && forall i :: 0 <= i < |info.iceServers| && Usable(info.iceServers[i]) ==>
         && UsableBefore(info.iceServers, i) < |b.iceServers|
         && ServerKept(b.iceServers[UsableBefore(info.iceServers, i)], info.iceServers[i].value)
  }

  /** What is stored and returned for every answer of the API. */
  lemma BundleDescribes(info: Info)
    ensures Describes(BundleOf(info), info)
  {
    SanitizeLength(info.iceServers);
    forall i | 0 <= i < |info.iceServers| && Usable(info.iceServers[i])
      ensures UsableBefore(info.iceServers, i) < |Sanitize(info.iceServers)|
      ensures ServerKept(Sanitize(info.iceServers)[UsableBefore(info.iceServers, i)], info.iceServers[i].value)
    {
      SanitizeKeepsUsable(info.iceServers, i);
    }
  }

  /** A URL that came encoded once too often is stored as it was meant. */
  lemma BundleRestoresUrl(info: Info, url: Str)
    requires Utf8.WellFormed(url) && PERCENT in url
    requires info.signalingUrl == Percent.EncodeURIComponent(url)
    ensures BundleOf(info).signalingUrl == Some(url) && Describes(BundleOf(info), info)
  {
    Percent.NormalizeUndoesOneLayer(url);
    BundleDescribes(info);
  }

  // ---------------------------------------------------------------- keys

  datatype Triple = Triple(mac: Str, model: Str, sub: bool)

  const SUB: Str := [0x73, 0x75, 0x62]
  const MAIN: Str := [0x6D, 0x61, 0x69, 0x6E]

  function Tag(sub: bool): Str {
    if sub then SUB else MAIN
  }

  function Key(t: Triple): Str {
    t.mac + [COLON] + t.model + [COLON] + Tag(t.sub)
  }

  // Which keys clearCameraStreamCache(mac) deletes.
  predicate Cleared(mac: Str, key: Str) {
    mac == [] || HasPrefix(key, mac + [COLON])
  }

  // The same in terms of the triple.
  predicate Matches(mac: Str, t: Triple) {
    || mac == []
    || t.mac == mac
    || HasPrefix(t.mac, mac + [COLON])
    || mac == t.mac + [COLON] + t.model
  }

  // Two splits at a colon whose right part has none are the same split.
  lemma SplitUnique(a: Str, b: Str, c: Str, d: Str)
    requires COLON !in b && COLON !in d
    requires a + [COLON] + b == c + [COLON] + d
    ensures a == c && b == d
  {
    var s := a + [COLON] + b;
    assert s[|a|] == COLON && s[|c|] == COLON;
    assert forall k :: |a| < k < |s| ==> s[k] == b[k - |a| - 1];
    assert forall k :: |c| < k < |s| ==> s[k] == d[k - |c| - 1];
    assert a == s[..|a|] && c == s[..|c|];
    assert b == s[|a| + 1..] && d == s[|c| + 1..];
  }

  /** Two triples share a key exactly when they agree on substream and on `mac:model`. */
  lemma KeyCollision(t: Triple, u: Triple)
    ensures Key(t) == Key(u) <==> t.sub == u.sub && t.mac + [COLON] + t.model == u.mac + [COLON] + u.model
  {
    if Key(t) == Key(u) {
      SplitUnique(t.mac + [COLON] + t.model, Tag(t.sub), u.mac + [COLON] + u.model, Tag(u.sub));
      assert |SUB| != |MAIN|;
    }
  }

  /** Models without a colon make the key determine the triple, whatever colons the macs hold. */
  lemma KeyInjective(t: Triple, u: Triple)
    requires COLON !in t.model && COLON !in u.model
    ensures Key(t) == Key(u) <==> t == u
  {
    KeyCollision(t, u);
    if Key(t) == Key(u) {
      SplitUnique(t.mac, t.model, u.mac, u.model);
    }
  }

  // A prefix `mac:` of a + ":" + b ends at the middle colon, or inside a, or inside b.
  lemma PrefixAtColon(mac: Str, a: Str, b: Str)
    requires COLON !in b
    ensures HasPrefix(a + [COLON] + b, mac + [COLON]) <==> mac == a || HasPrefix(a, mac + [COLON])
  {
    var s := a + [COLON] + b;
    var p := mac + [COLON];
    if HasPrefix(s, p) {
      assert s[|mac|] == p[|mac|] == COLON;
      assert forall k :: |a| < k < |s| ==> s[k] == b[k - |a| - 1];
      if |mac| == |a| {
        assert s[..|p|][..|mac|] == mac && s[..|p|][..|a|] == a;
      } else {
        assert s[..|p|] == a[..|p|];
      }
    }
    if HasPrefix(a, p) { assert s[..|p|] == a[..|p|]; }
    if mac == a { assert s[..|p|] == p; }
  }

  /** Exactly which entries a clear removes; for colon-free models, in terms of mac and model apart. */
  lemma ClearedExactly(mac: Str, t: Triple)
    ensures Cleared(mac, Key(t)) <==> mac == [] || HasPrefix(t.mac + [COLON] + t.model + [COLON], mac + [COLON])
    ensures COLON !in t.model ==> (Cleared(mac, Key(t)) <==> Matches(mac, t))
  {
    var front := t.mac + [COLON] + t.model;
    PrefixAtColon(mac, front, Tag(t.sub));
    PrefixAtColon(mac, front, []);
    assert front + [COLON] + [] == front + [COLON];
    if COLON !in t.model { PrefixAtColon(mac, t.mac, t.model); }
  }

  /** Every entry of the mac is removed, whatever its model; nothing else is when macs are equally long. */
  lemma ClearSelects(mac: Str, t: Triple)
    requires mac != []
    ensures t.mac == mac ==> Cleared(mac, Key(t))
    ensures |t.mac| == |mac| ==> (Cleared(mac, Key(t)) <==> t.mac == mac)
  {
    var p := mac + [COLON];
    assert Key(t) == (t.mac + [COLON]) + (t.model + [COLON] + Tag(t.sub));
    assert Key(t)[..|t.mac| + 1] == t.mac + [COLON];
    if |t.mac| == |mac| && Cleared(mac, Key(t)) {
      assert p[..|mac|] == mac && (t.mac + [COLON])[..|mac|] == t.mac;
    }
  }

  // ---------------------------------------------------------------- the two caches, step by step

  datatype Entry = Entry(bundle: Bundle, expiresAt: int)

  // Everything that touches the cache, in the order it happens; a request looks up before its
  // fetch and stores after it, so steps of several requests interleave freely.
  datatype Step =
    | Lookup(t: Triple, now: int)
    | Store(t: Triple, info: Info, ttl: int, now: int)
    | Clear(mac: Str)

  type StringCache = map<Str, Entry>
  type TripleCache = map<Triple, Entry>

  function Fresh(e: Entry, now: int): Option<Bundle> {
    if e.expiresAt > now then Some(e.bundle) else None
  }

  function Find(c: StringCache, key: Str, now: int): Option<Bundle> {
    if key in c then Fresh(c[key], now) else None
  }

  function Without(c: StringCache, mac: Str): StringCache {
    map key | key in c && !Cleared(mac, key) :: c[key]
  }

  function NewEntry(info: Info, ttl: int, now: int): Entry {
    Entry(BundleOf(info), now + ttl)
  }

  function After(c: StringCache, e: Step): StringCache {
    match e
    case Lookup(_, _) => c
    case Store(t, info, ttl, now) => c[Key(t) := NewEntry(info, ttl, now)]
    case Clear(mac) => Without(c, mac)
  }

  // The string-keyed cache after the first n steps.
  function CacheAt(steps: seq<Step>, n: nat): StringCache
    requires n <= |steps|
  {
    if n == 0 then map[] else After(CacheAt(steps, n - 1), steps[n - 1])
  }

  // What a lookup step finds.
  function Found(steps: seq<Step>, i: nat): Option<Bundle>
    requires i < |steps| && steps[i].Lookup?
  {
    Find(CacheAt(steps, i), Key(steps[i].t), steps[i].now)
  }

  // The cache of the documentation: keyed by the triple.
  function TripleAfter(c: TripleCache, e: Step): TripleCache {
    match e
    case Lookup(_, _) => c
    case Store(t, info, ttl, now) => c[t := NewEntry(info, ttl, now)]
    case Clear(mac) => map t | t in c && !Matches(mac, t) :: c[t]
  }

  function TripleAt(steps: seq<Step>, n: nat): TripleCache
    requires n <= |steps|
  {
    if n == 0 then map[] else TripleAfter(TripleAt(steps, n - 1), steps[n - 1])
  }

  function TripleFound(steps: seq<Step>, i: nat): Option<Bundle>
    requires i < |steps| && steps[i].Lookup?
  {
    var c := TripleAt(steps, i);
    if steps[i].t in c then Fresh(c[steps[i].t], steps[i].now) else None
  }

  predicate ColonFree(e: Step) {
    e.Clear? || COLON !in e.t.model
  }

  ghost predicate Simulates(s: StringCache, c: TripleCache) {
    && (forall t :: t in c ==> COLON !in t.model && Key(t) in s && s[Key(t)] == c[t])
    && (forall key :: key in s ==> exists t :: t in c && Key(t) == key)
  }

  lemma StoredAt(s: StringCache, c: TripleCache, t: Triple, u: Triple, e: Entry)
    requires Simulates(s, c) && COLON !in t.model && u in c[t := e]
    ensures COLON !in u.model && Key(u) in s[Key(t) := e] && s[Key(t) := e][Key(u)] == c[t := e][u]
  {
    if u != t { KeyInjective(t, u); }
  }

  lemma SimulatesStore(s: StringCache, c: TripleCache, t: Triple, e: Entry)
    requires Simulates(s, c) && COLON !in t.model
    ensures Simulates(s[Key(t) := e], c[t := e])
  {
    var s', c' := s[Key(t) := e], c[t := e];
    forall u | u in c'
      ensures COLON !in u.model && Key(u) in s' && s'[Key(u)] == c'[u]
    {
      StoredAt(s, c, t, u, e);
    }
    forall key | key in s'
      ensures exists u :: u in c' && Key(u) == key
    {
      if key == Key(t) {
        assert t in c';
      } else {
        var u :| u in c && Key(u) == key;
        assert u in c';
      }
    }
  }

  lemma SimulatesClear(s: StringCache, c: TripleCache, mac: Str)
    requires Simulates(s, c)
    ensures Simulates(Without(s, mac), TripleAfter(c, Clear(mac)))
  {
    var s', c' := Without(s, mac), TripleAfter(c, Clear(mac));
    forall t | t in c
      ensures t in c' <==> Key(t) in s'
    {
      ClearedExactly(mac, t);
    }
    forall key | key in s'
      ensures exists t :: t in c' && Key(t) == key
    {
      var t :| t in c && Key(t) == key;
      assert t in c';
    }
  }

  lemma {:induction false} Simulation(steps: seq<Step>, n: nat)
    requires n <= |steps| && forall i :: 0 <= i < |steps| ==> ColonFree(steps[i])
    ensures Simulates(CacheAt(steps, n), TripleAt(steps, n))
  {
    if n > 0 {
      Simulation(steps, n - 1);
      match steps[n - 1]
      case Lookup(_, _) =>
      case Store(t, info, ttl, now) =>
        SimulatesStore(CacheAt(steps, n - 1), TripleAt(steps, n - 1), t, NewEntry(info, ttl, now));
      case Clear(mac) => SimulatesClear(CacheAt(steps, n - 1), TripleAt(steps, n - 1), mac);
    }
  }

  lemma SimulatesFind(s: StringCache, c: TripleCache, t: Triple)
    requires Simulates(s, c) && COLON !in t.model
    ensures Key(t) in s <==> t in c
  {
    if Key(t) in s {
      var u :| u in c && Key(u) == Key(t);
      KeyInjective(t, u);
    }
  }

  /** Every lookup of every run of colon-free models answers as the triple-keyed cache does. */
  lemma AnswersAsTripleKeyed(steps: seq<Step>, i: nat)
    requires forall j :: 0 <= j < |steps| ==> ColonFree(steps[j])
    requires i < |steps| && steps[i].Lookup?
    ensures Found(steps, i) == TripleFound(steps, i)
  {
    assert ColonFree(steps[i]);
    Simulation(steps, i);
    SimulatesFind(CacheAt(steps, i), TripleAt(steps, i), steps[i].t);
  }

  // ---------------------------------------------------------------- where a cached result comes from

  predicate Touches(e: Step, t: Triple) {
    (e.Store? && e.t == t) || (e.Clear? && Matches(e.mac, t))
  }

  // Step j is a store for t that no step before n overwrote or cleared.
  predicate Standing(steps: seq<Step>, t: Triple, n: nat, j: nat)
    requires n <= |steps|
  {
    && j < n && steps[j].Store? && steps[j].t == t
    && forall k :: j < k < n ==> !Touches(steps[k], t)
  }

  lemma {:induction false} EntryHasStore(steps: seq<Step>, n: nat, t: Triple) returns (j: nat)
    requires n <= |steps| && t in TripleAt(steps, n)
    ensures Standing(steps, t, n, j)
    ensures TripleAt(steps, n)[t] == NewEntry(steps[j].info, steps[j].ttl, steps[j].now)
  {
    if steps[n - 1].Store? && steps[n - 1].t == t {
      j := n - 1;
    } else {
      j := EntryHasStore(steps, n - 1, t);
    }
  }

  lemma {:induction false} StoreHasEntry(steps: seq<Step>, n: nat, t: Triple, j: nat)
    requires n <= |steps| && Standing(steps, t, n, j)
    ensures t in TripleAt(steps, n)
    ensures TripleAt(steps, n)[t] == NewEntry(steps[j].info, steps[j].ttl, steps[j].now)
  {
    if j < n - 1 {
      StoreHasEntry(steps, n - 1, t, j);
      assert !Touches(steps[n - 1], t);
    }
  }

  /**
   In every run of colon-free models a lookup answers with b exactly when the latest store for its
   own triple held b, less than its TTL ago, and no matching clear came between.
   */
  lemma CachedExactly(steps: seq<Step>, i: nat, b: Bundle)
    requires forall j :: 0 <= j < |steps| ==> ColonFree(steps[j])
    requires i < |steps| && steps[i].Lookup?
    ensures Found(steps, i) == Some(b) <==>
            exists j: nat :: Standing(steps, steps[i].t, i, j)
                        && b == BundleOf(steps[j].info) && steps[i].now < steps[j].now + steps[j].ttl
  {
    var t := steps[i].t;
    AnswersAsTripleKeyed(steps, i);
    if Found(steps, i) == Some(b) {
      var j := EntryHasStore(steps, i, t);
      assert Standing(steps, t, i, j);
    }
    forall j: nat | Standing(steps, t, i, j) && b == BundleOf(steps[j].info) && steps[i].now < steps[j].now + steps[j].ttl
      ensures Found(steps, i) == Some(b)
    {
      StoreHasEntry(steps, i, t, j);
    }
  }

  /** With a colon in a model, one camera is answered with another camera's bundle. */
  lemma ColonInModelConfuses(info: Info)
    ensures var asked := Triple([0x41], [0x42, COLON, 0x43], false);
            var stored := Triple([0x41, COLON, 0x42], [0x43], false);
            && asked != stored
            && Found([Store(stored, info, 1, 0), Lookup(asked, 0)], 1) == Some(BundleOf(info))
            && TripleFound([Store(stored, info, 1, 0), Lookup(asked, 0)], 1) == None
  {
    var asked := Triple([0x41], [0x42, COLON, 0x43], false);
    var stored := Triple([0x41, COLON, 0x42], [0x43], false);
    var steps := [Store(stored, info, 1, 0), Lookup(asked, 0)];
    KeyCollision(asked, stored);
    assert asked.mac + [COLON] + asked.model == stored.mac + [COLON] + stored.model;
    assert CacheAt(steps, 0) == map[] && TripleAt(steps, 0) == map[];
    assert CacheAt(steps, 1) == After(map[], steps[0]);
    assert TripleAt(steps, 1) == TripleAfter(map[], steps[0]);
  }

  // ---------------------------------------------------------------- the cache object

  // An entry of a JavaScript Map's list: deleting leaves an empty slot behind (section 24.1 of ECMA-262).
  datatype Slot = Empty | Full(key: Str, entry: Entry)

  // No key has two slots.
  ghost predicate Distinct(slots: seq<Slot>) {
    forall i, j :: 0 <= i < j < |slots| && slots[i].Full? && slots[j].Full? ==> slots[i].key != slots[j].key
  }

  ghost predicate Holds(slots: seq<Slot>, c: StringCache) {
    && Distinct(slots)
    && (forall i :: 0 <= i < |slots| && slots[i].Full? ==> slots[i].key in c && c[slots[i].key] == slots[i].entry)
    && (forall key :: key in c ==> exists i :: 0 <= i < |slots| && slots[i].Full? && slots[i].key == key)
  }

  lemma HoldsErased(slots: seq<Slot>, c: StringCache, i: nat)
    requires Holds(slots, c) && i < |slots| && slots[i].Full?
    ensures Holds(slots[i := Empty], c - {slots[i].key})
  {
    var slots', c' := slots[i := Empty], c - {slots[i].key};
    forall key | key in c'
      ensures exists j :: 0 <= j < |slots'| && slots'[j].Full? && slots'[j].key == key
    {
      var j :| 0 <= j < |slots| && slots[j].Full? && slots[j].key == key;
      assert slots'[j].Full?;
    }
  }

  lemma HoldsReplaced(slots: seq<Slot>, c: StringCache, i: nat, e: Entry)
    requires Holds(slots, c) && i < |slots| && slots[i].Full?
    ensures Holds(slots[i := Full(slots[i].key, e)], c[slots[i].key := e])
  {
    var slots', c' := slots[i := Full(slots[i].key, e)], c[slots[i].key := e];
    assert forall j :: 0 <= j < |slots| ==> (slots'[j].Full? <==> slots[j].Full?);
    forall key | key in c'
      ensures exists j :: 0 <= j < |slots'| && slots'[j].Full? && slots'[j].key == key
    {
      if key == slots[i].key {
        assert slots'[i].key == key;
      } else {
        var j :| 0 <= j < |slots| && slots[j].Full? && slots[j].key == key;
        assert slots'[j].key == key;
      }
    }
  }

  lemma HoldsAppended(slots: seq<Slot>, c: StringCache, key: Str, e: Entry)
    requires Holds(slots, c) && key !in c
    ensures Holds(slots + [Full(key, e)], c[key := e])
  {
    var slots', c' := slots + [Full(key, e)], c[key := e];
    forall k | k in c'
      ensures exists j :: 0 <= j < |slots'| && slots'[j].Full? && slots'[j].key == k
    {
      if k == key {
        assert slots'[|slots|].key == key;
      } else {
        var j :| 0 <= j < |slots| && slots[j].Full? && slots[j].key == k;
        assert slots'[j].key == k;
      }
    }
  }

  // Part of the way through a clear: only matching entries are gone.
  ghost predicate Swept(before: StringCache, now: StringCache, mac: Str) {
    && (forall key :: key in now ==> key in before && now[key] == before[key])
    && (forall key :: key in before && !Cleared(mac, key) ==> key in now)
  }

  ghost predicate SweptTo(slots: seq<Slot>, n: nat, mac: Str) {
    n <= |slots| && forall i :: 0 <= i < n && slots[i].Full? ==> !Cleared(mac, slots[i].key)
  }

  lemma SweepOne(before: StringCache, now: StringCache, mac: Str, key: Str)
    requires Swept(before, now, mac) && Cleared(mac, key)
    ensures Swept(before, now - {key}, mac)
  {
  }

  lemma SweptOn(slots: seq<Slot>, slots': seq<Slot>, n: nat, mac: Str)
    requires SweptTo(slots, n, mac) && n < |slots| == |slots'| && slots[n].Full? && Cleared(mac, slots[n].key)
    requires forall i :: 0 <= i < |slots| ==>
               slots'[i] == if slots[i].Full? && slots[i].key == slots[n].key then Empty else slots[i]
    ensures SweptTo(slots', n + 1, mac)
  {
  }

  lemma SweptAll(before: StringCache, now: StringCache, mac: Str, slots: seq<Slot>)
    requires Swept(before, now, mac) && Holds(slots, now) && SweptTo(slots, |slots|, mac)
    ensures now == Without(before, mac)
  {
    forall key | key in now
      ensures !Cleared(mac, key)
    {
      var i :| 0 <= i < |slots| && slots[i].Full? && slots[i].key == key;
    }
  }

  // What getCameraWebRTCConnectionInfo resolves to (client identifier aside).
  datatype ConnectionInfo = ConnectionInfo(bundle: Bundle, t: Triple, cached: bool)

  class StreamInfoCache {
    // The Map's list; a Map not yet created is as good as an empty one.
    var slots: seq<Slot>
    ghost var contents: StringCache

    ghost predicate Valid()
      reads this
    {
      Holds(slots, contents)
    }

    constructor ()
      ensures Valid() && contents == map[]
    {
      slots, contents := [], map[];
    }

    // The slot of a key, or the number of slots.
    method SlotOf(key: Str) returns (i: nat)
      requires Valid()
      ensures i <= |slots| && (i < |slots| <==> key in contents)
      ensures i < |slots| ==> slots[i].Full? && slots[i].key == key && slots[i].entry == contents[key]
    {
      i := 0;
      while i < |slots| && !(slots[i].Full? && slots[i].key == key)
        invariant i <= |slots|
        invariant forall j :: 0 <= j < i ==> !(slots[j].Full? && slots[j].key == key)
      {
        i := i + 1;
      }
    }

    method Set(key: Str, e: Entry)
      requires Valid()
      modifies this
      ensures Valid() && contents == old(contents)[key := e]
    {
      var i := SlotOf(key);
      if i < |slots| {
        HoldsReplaced(slots, contents, i, e);
        slots := slots[i := Full(key, e)];
      } else {
        HoldsAppended(slots, contents, key, e);
        slots := slots + [Full(key, e)];
      }
      contents := contents[key := e];
    }

    // Map.prototype.delete.
    method Delete(key: Str)
      requires Valid()
      modifies this
      ensures Valid() && contents == old(contents) - {key}
      ensures |slots| == |old(slots)|
      ensures forall i :: 0 <= i < |slots| ==>
                slots[i] == if old(slots[i]).Full? && old(slots[i]).key == key then Empty else old(slots[i])
    {
      var i := SlotOf(key);
      if i < |slots| {
        HoldsErased(slots, contents, i);
        slots := slots[i := Empty];
      }
      contents := contents - {key};
    }

    /** clearCameraStreamCache: deletes matching keys while it iterates over them. */
    method ClearCamera(mac: Str)
      requires Valid()
      modifies this
      ensures Valid() && contents == Without(old(contents), mac)
    {
      if mac == [] {
        slots, contents := [], map[];
        return;
      }
      var i := 0;
      while i < |slots|
        invariant 0 <= i <= |slots| && Valid()
        invariant Swept(old(contents), contents, mac)
        invariant SweptTo(slots, i, mac)
      {
        if slots[i].Full? && HasPrefix(slots[i].key, mac + [COLON]) {
          ghost var was := slots;
          SweepOne(old(contents), contents, mac, slots[i].key);
          Delete(slots[i].key);
          SweptOn(was, slots, i, mac);
        }
        i := i + 1;
      }
      SweptAll(old(contents), contents, mac, slots);
    }

    /** The first stretch of getCameraWebRTCConnectionInfo, up to its fetch. */
    method Begin(t: Triple, noCache: bool, now: int) returns (r: Option<Bundle>)
      requires Valid()
      ensures r == if noCache then None else Find(contents, Key(t), now)
    {
      r := None;
      if !noCache {
        var i := SlotOf(Key(t));
        if i < |slots| && slots[i].entry.expiresAt > now {
          r := Some(slots[i].entry.bundle);
        }
      }
    }

    /** The stretch after the fetch. */
    method Finish(t: Triple, noCache: bool, info: Info, ttl: int, now: int) returns (bundle: Bundle)
      requires Valid()
      modifies this
      ensures Valid() && bundle == BundleOf(info) && Describes(bundle, info)
      ensures contents == if noCache then old(contents) else After(old(contents), Store(t, info, ttl, now))
    {
      bundle := BundleOf(info);
      BundleDescribes(info);
      if !noCache {
        Set(Key(t), Entry(bundle, now + ttl));
      }
    }

    /** One whole call: the fetch gives the information or throws (None). */
    method ConnectionInfoFor(t: Triple, noCache: bool, ttl: int, fetched: Option<Info>, now: int, later: int)
        returns (r: Option<ConnectionInfo>)
      requires Valid()
      modifies this
      ensures Valid()
      ensures var hit := if noCache then None else Find(old(contents), Key(t), now);
              && r == (if hit.Some? then Some(ConnectionInfo(hit.value, t, true))
                       else if fetched.Some? then Some(ConnectionInfo(BundleOf(fetched.value), t, false)) else None)
              && contents == if hit.Some? || noCache || fetched.None? then old(contents)
                             else After(old(contents), Store(t, fetched.value, ttl, later))
      ensures r.Some? && !r.value.cached ==> fetched.Some? && Describes(r.value.bundle, fetched.value)
    {
      var hit := Begin(t, noCache, now);
      if hit.Some? {
        return Some(ConnectionInfo(hit.value, t, true));
      }
      if fetched.None? {
        return None;
      }
      var bundle := Finish(t, noCache, fetched.value, ttl, later);
      r := Some(ConnectionInfo(bundle, t, false));
    }
  }
}
