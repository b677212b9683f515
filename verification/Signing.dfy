/**
 The canonical strings that requests are signed over: `key=value` fields in key order, joined
 by `&`. A payload is its properties in insertion order, each value as String gives it.
 */
module Signing {
  import opened Basics
  import opened Text
  import Percent
  import Utf8

  datatype Pair = Pair(key: Str, value: Str)

  // ---------------------------------------------------------------- key order

  // Strings compare by code units.
  predicate Less(a: Str, b: Str) {
    b != [] && (a == [] || a[0] < b[0] || (a[0] == b[0] && Less(a[1..], b[1..])))
  }

  lemma {:induction false} LessTransitive(a: Str, b: Str, c: Str)
    requires Less(a, b) && Less(b, c)
    ensures Less(a, c)
  {
    if a != [] && a[0] == b[0] == c[0] { LessTransitive(a[1..], b[1..], c[1..]); }
  }

  lemma {:induction false} LessTotal(a: Str, b: Str)
    ensures Less(a, b) || a == b || Less(b, a)
  {
    if a != [] && b != [] && a[0] == b[0] {
      LessTotal(a[1..], b[1..]);
      assert a == [a[0]] + a[1..] && b == [b[0]] + b[1..];
    }
  }

  lemma {:induction false} LessIrreflexive(a: Str)
    ensures !Less(a, a)
  {
    if a != [] { LessIrreflexive(a[1..]); }
  }

  // a and b agree up to n, where a ends and b goes on, or a's code unit is the smaller.
  predicate PrecedesAt(a: Str, b: Str, n: nat) {
    n <= |a| && n < |b| && a[..n] == b[..n] && (n == |a| || a[n] < b[n])
  }

  ghost predicate Precedes(a: Str, b: Str) {
    exists n: nat :: PrecedesAt(a, b, n)
  }

  /** The key order is lexicographic by code units. */
  lemma {:induction false} LessExactly(a: Str, b: Str)
    ensures Less(a, b) <==> Precedes(a, b)
  {
    if a != [] && b != [] && a[0] == b[0] {
      LessExactly(a[1..], b[1..]);
      if Less(a[1..], b[1..]) {
        var n: nat :| PrecedesAt(a[1..], b[1..], n);
        assert a[..n + 1] == [a[0]] + a[1..][..n] && b[..n + 1] == [b[0]] + b[1..][..n];
        assert PrecedesAt(a, b, n + 1);
      }
      forall n: nat | PrecedesAt(a, b, n)
        ensures Less(a, b)
      {
        assert a[1..][..n - 1] == a[..n][1..] && b[1..][..n - 1] == b[..n][1..];
        assert PrecedesAt(a[1..], b[1..], n - 1);
      }
    } else {
      if Less(a, b) { assert PrecedesAt(a, b, 0); }
      forall n: nat | PrecedesAt(a, b, n)
        ensures Less(a, b)
      {
        if n > 0 { assert a[..n][0] == b[..n][0]; }
      }
    }
  }

  ghost predicate Ascending(ks: seq<Str>) {
    forall i, j :: 0 <= i < j < |ks| ==> Precedes(ks[i], ks[j])
  }

  lemma SortedAscends(ks: seq<Str>)
    requires StrictlySorted(ks)
    ensures Ascending(ks)
  {
    forall i, j | 0 <= i < j < |ks|
      ensures Precedes(ks[i], ks[j])
    {
      LessExactly(ks[i], ks[j]);
    }
  }

  predicate StrictlySorted(ks: seq<Str>) {
    forall i, j :: 0 <= i < j < |ks| ==> Less(ks[i], ks[j])
  }

  predicate Distinct(ks: seq<Str>) {
    forall i, j :: 0 <= i < j < |ks| ==> ks[i] != ks[j]
  }

  function Insert(k: Str, ks: seq<Str>): seq<Str> {
    if ks == [] then [k] else if Less(ks[0], k) then [ks[0]] + Insert(k, ks[1..]) else [k] + ks
  }

  function Sort(ks: seq<Str>): seq<Str> {
    if ks == [] then [] else Insert(ks[0], Sort(ks[1..]))
  }

  lemma {:induction false} InsertAdds(k: Str, ks: seq<Str>)
    ensures multiset(Insert(k, ks)) == multiset(ks) + multiset{k}
  {
    if ks != [] {
      InsertAdds(k, ks[1..]);
      assert ks == [ks[0]] + ks[1..];
    }
  }

  lemma SortedTail(ks: seq<Str>)
    requires ks != [] && StrictlySorted(ks[1..]) && forall x :: x in ks[1..] ==> Less(ks[0], x)
    ensures StrictlySorted(ks)
  {
    forall i, j | 0 <= i < j < |ks|
      ensures Less(ks[i], ks[j])
    {
      assert ks[j] == ks[1..][j - 1];
      if i > 0 { assert ks[i] == ks[1..][i - 1]; }
    }
  }

  lemma SortedHead(ks: seq<Str>, x: Str)
    requires ks != [] && StrictlySorted(ks) && x in ks[1..]
    ensures Less(ks[0], x)
  {
    var j :| 0 <= j < |ks[1..]| && ks[1..][j] == x;
    assert ks[j + 1] == x;
  }

  lemma {:induction false} InsertSorted(k: Str, ks: seq<Str>)
    requires StrictlySorted(ks) && k !in ks
    ensures StrictlySorted(Insert(k, ks))
  {
    if ks != [] {
      if Less(ks[0], k) {
        InsertSorted(k, ks[1..]);
        InsertAdds(k, ks[1..]);
        var r := Insert(k, ks);
        assert r[1..] == Insert(k, ks[1..]);
        forall x | x in r[1..]
          ensures Less(r[0], x)
        {
          assert x in multiset(r[1..]);
          if x != k { assert x in ks[1..]; SortedHead(ks, x); }
        }
        SortedTail(r);
      } else {
        LessTotal(ks[0], k);
        var r := [k] + ks;
        assert r[1..] == ks;
        forall x | x in ks
          ensures Less(k, x)
        {
          if x != ks[0] {
            assert x in ks[1..];
            SortedHead(ks, x);
            LessTransitive(k, ks[0], x);
          }
        }
        SortedTail(r);
      }
    }
  }

  /** Sorting distinct keys gives their arrangement in ascending lexicographic order of code units. */
  lemma SortAscends(ks: seq<Str>)
    requires Distinct(ks)
    ensures multiset(Sort(ks)) == multiset(ks) && Ascending(Sort(ks))
  {
    SortSorts(ks);
    SortedAscends(Sort(ks));
  }

  lemma {:induction false} SortSorts(ks: seq<Str>)
    requires Distinct(ks)
    ensures multiset(Sort(ks)) == multiset(ks) && StrictlySorted(Sort(ks))
  {
    if ks != [] {
      SortSorts(ks[1..]);
      InsertAdds(ks[0], Sort(ks[1..]));
      assert ks == [ks[0]] + ks[1..];
      assert ks[0] !in ks[1..];
      assert ks[0] !in multiset(ks[1..]);
      InsertSorted(ks[0], Sort(ks[1..]));
    }
  }

  lemma LeastIsFirst(ks: seq<Str>, other: seq<Str>)
    requires StrictlySorted(ks) && StrictlySorted(other) && ks != [] && other != []
    requires ks[0] in other && other[0] in ks
    ensures ks[0] == other[0]
  {
    if ks[0] != other[0] {
      assert ks[0] in other[1..] by { assert other == [other[0]] + other[1..]; }
      assert other[0] in ks[1..] by { assert ks == [ks[0]] + ks[1..]; }
      SortedHead(other, ks[0]);
      SortedHead(ks, other[0]);
      LessTransitive(ks[0], other[0], ks[0]);
      LessIrreflexive(ks[0]);
    }
  }

  lemma InTail(a: seq<Str>, b: seq<Str>, x: Str)
    requires StrictlySorted(a) && a != [] && b != [] && a[0] == b[0]
    requires x in a[1..] && (x in a ==> x in b)
    ensures x in b[1..]
  {
    SortedHead(a, x);
    LessIrreflexive(a[0]);
    assert b == [b[0]] + b[1..];
  }

  /** There is only one such arrangement, so the engine's sorting algorithm does not matter. */
  lemma {:induction false} SortedUnique(a: seq<Str>, b: seq<Str>)
    requires StrictlySorted(a) && StrictlySorted(b) && forall x :: x in a <==> x in b
    ensures a == b
  {
    assert b != [] ==> b[0] in a;
    if a != [] {
      assert a[0] in b;
      LeastIsFirst(a, b);
      assert a == [a[0]] + a[1..] && b == [b[0]] + b[1..];
      forall x
        ensures x in a[1..] <==> x in b[1..]
      {
        if x in a[1..] { InTail(a, b, x); }
        if x in b[1..] { InTail(b, a, x); }
      }
      SortedUnique(a[1..], b[1..]);
    }
  }

  // ---------------------------------------------------------------- the canonical body

  // Object.keys.
  function Keys(p: seq<Pair>): (ks: seq<Str>)
    ensures |ks| == |p| && forall i :: 0 <= i < |p| ==> ks[i] == p[i].key
  {
    seq(|p|, i requires 0 <= i < |p| => p[i].key)
  }

  // payload[key]
  function Lookup(p: seq<Pair>, key: Str): Str {
    if p == [] then [] else if p[0].key == key then p[0].value else Lookup(p[1..], key)
  }

  function SortedPairs(p: seq<Pair>): (r: seq<Pair>) {
    var ks := Sort(Keys(p));
    seq(|ks|, i requires 0 <= i < |ks| => Pair(ks[i], Lookup(p, ks[i])))
  }

  function Field(e: Pair): (r: Str)
    ensures |r| > 0
  {
    e.key + [EQUALS] + e.value
  }

  // The map and join form: fields with an ampersand between them.
  function Join(es: seq<Pair>): Str {
    if es == [] then []
    else if |es| == 1 then Field(es[0])
    else Field(es[0]) + [AMPERSAND] + Join(es[1..])
  }

  function Body(p: seq<Pair>): Str {
    Join(SortedPairs(p))
  }

  lemma {:induction false} LookupAt(p: seq<Pair>, i: nat)
    requires Distinct(Keys(p)) && i < |p|
    ensures Lookup(p, p[i].key) == p[i].value
  {
    if i > 0 {
      assert Keys(p)[0] != Keys(p)[i];
      assert Keys(p[1..]) == Keys(p)[1..];
      LookupAt(p[1..], i - 1);
    }
  }

  lemma LookupFinds(p: seq<Pair>, e: Pair)
    requires Distinct(Keys(p)) && e in p
    ensures Lookup(p, e.key) == e.value
  {
    var i :| 0 <= i < |p| && p[i] == e;
    LookupAt(p, i);
  }

  lemma {:induction false} LookupMember(p: seq<Pair>, key: Str)
    requires key in Keys(p)
    ensures Pair(key, Lookup(p, key)) in p
  {
    if p[0].key != key {
      assert Keys(p) == [p[0].key] + Keys(p[1..]);
      LookupMember(p[1..], key);
    }
  }

  /** The sorted pairs are the payload's pairs, each once, by ascending key. */
  lemma SortedPairsExactly(p: seq<Pair>)
    requires Distinct(Keys(p))
    ensures Ascending(Keys(SortedPairs(p))) && StrictlySorted(Keys(SortedPairs(p))) && |SortedPairs(p)| == |p|
    ensures forall e :: e in SortedPairs(p) <==> e in p
  {
    var ks, r := Sort(Keys(p)), SortedPairs(p);
    SortSorts(Keys(p));
    SortedAscends(ks);
    assert Keys(r) == ks;
    assert |multiset(ks)| == |multiset(Keys(p))|;
    forall e | e in r
      ensures e in p
    {
      assert e.key in multiset(ks);
      LookupMember(p, e.key);
    }
    forall e | e in p
      ensures e in r
    {
      var j :| 0 <= j < |p| && p[j] == e;
      assert Keys(p)[j] == e.key;
      assert e.key in multiset(ks);
      var i :| 0 <= i < |ks| && ks[i] == e.key;
      LookupFinds(p, e);
      assert r[i] == e;
    }
  }

  /** The insertion order of the payload's properties does not matter. */
  lemma OrderIndependent(p: seq<Pair>, q: seq<Pair>)
    requires Distinct(Keys(p)) && Distinct(Keys(q)) && forall e :: e in p <==> e in q
    ensures SortedPairs(p) == SortedPairs(q) && Body(p) == Body(q)
  {
    var a, b := SortedPairs(p), SortedPairs(q);
    SortedPairsExactly(p);
    SortedPairsExactly(q);
    forall x
      ensures x in Keys(a) <==> x in Keys(b)
    {
      SameKeys(a, b, x);
      SameKeys(b, a, x);
    }
    SortedUnique(Keys(a), Keys(b));
    forall i | 0 <= i < |a|
      ensures a[i] == b[i]
    {
      assert a[i] in q && b[i] in q;
      assert Keys(a)[i] == Keys(b)[i];
      LookupFinds(q, a[i]);
      LookupFinds(q, b[i]);
    }
  }

  lemma SameKeys(a: seq<Pair>, b: seq<Pair>, x: Str)
    requires forall e :: e in a <==> e in b
    ensures x in Keys(a) ==> x in Keys(b)
  {
    if x in Keys(a) {
      var i :| 0 <= i < |a| && Keys(a)[i] == x;
      assert a[i] in b;
      var j :| 0 <= j < |b| && b[j] == a[i];
      assert Keys(b)[j] == x;
    }
  }

  // ---------------------------------------------------------------- the loops

  // s.slice(0, -1)
  function DropLast(s: Str): Str {
    if s == [] then [] else s[..|s| - 1]
  }

  // What the loops append: every field followed by an ampersand.
  function Terminated(es: seq<Pair>): Str {
    if es == [] then [] else Terminated(es[..|es| - 1]) + (Field(es[|es| - 1]) + [AMPERSAND])
  }

  lemma {:induction false} TerminatedFront(es: seq<Pair>)
    requires es != []
    ensures Terminated(es) == Field(es[0]) + [AMPERSAND] + Terminated(es[1..])
  {
    var n := |es| - 1;
    var last := Field(es[n]) + [AMPERSAND];
    if n == 0 {
      assert es[..0] == [] && es[1..] == [];
      assert [] + last == last && last + [] == last;
    } else {
      var first, middle := es[..n], es[1..][..n - 1];
      TerminatedFront(first);
      assert first[0] == es[0] && first[1..] == middle;
      assert Terminated(es[1..]) == Terminated(middle) + last;
      Associative(Field(es[0]) + [AMPERSAND], Terminated(middle), last);
    }
  }

  lemma {:induction false} TerminatedIsJoin(es: seq<Pair>)
    requires es != []
    ensures Terminated(es) == Join(es) + [AMPERSAND]
  {
    TerminatedFront(es);
    if |es| > 1 {
      TerminatedIsJoin(es[1..]);
    } else {
      assert es[1..] == [];
    }
  }

  // Appending the fields in key order.
  method AppendFields(front: Str, p: seq<Pair>) returns (body: Str)
    ensures body == front + Terminated(SortedPairs(p))
  {
    body := front;
    var keys := Sort(Keys(p));
    ghost var es := SortedPairs(p);
    for i := 0 to |keys|
      invariant |es| == |keys| && body == front + Terminated(es[..i])
    {
      var key := keys[i];
      body := body + (key + [EQUALS] + Lookup(p, key) + [AMPERSAND]);
      assert es[..i + 1][..i] == es[..i];
    }
    assert es[..|keys|] == es;
  }

  /** oliveCreateSignature's loop builds the joined body of every payload. */
  method OliveBody(p: seq<Pair>) returns (body: Str)
    ensures body == Body(p)
  {
    body := AppendFields([], p);
    if SortedPairs(p) != [] { TerminatedIsJoin(SortedPairs(p)); }
    body := DropLast(body);
  }

  // method + path + the loop, its last character cut off, + the secret.
  function FordString(path: Str, verb: Str, p: seq<Pair>, secret: Str): Str {
    (if p == [] then DropLast(verb + path) else verb + path + Body(p)) + secret
  }

  lemma FordSlice(front: Str, p: seq<Pair>)
    requires Distinct(Keys(p))
    ensures DropLast(front + Terminated(SortedPairs(p))) == if p == [] then DropLast(front) else front + Body(p)
  {
    SortedPairsExactly(p);
    if p == [] {
      assert front + Terminated(SortedPairs(p)) == front;
    } else {
      TerminatedIsJoin(SortedPairs(p));
      Associative(front, Body(p), [AMPERSAND]);
      assert (front + Body(p) + [AMPERSAND])[..|front + Body(p)|] == front + Body(p);
    }
  }

  lemma FordExactly(path: Str, verb: Str, p: seq<Pair>, secret: Str)
    requires Distinct(Keys(p))
    ensures FordString(path, verb, p, secret) == verb + path + Body(p) + secret <==> p != [] || verb + path == []
  {
    if p == [] {
      assert Body(p) == [];
      assert |FordString(path, verb, p, secret)| == |DropLast(verb + path)| + |secret|;
      assert |verb + path + Body(p) + secret| == |verb + path| + |secret|;
    }
  }

  /** fordCreateSignature up to its hash: an empty payload costs the path its last character. */
  method FordCreateSignature(path: Str, verb: Str, data: seq<Pair>, secret: Str) returns (payload: Str)
    requires Distinct(Keys(data))
    ensures payload == FordString(path, verb, data, secret)
    ensures payload == verb + path + Body(data) + secret <==> data != [] || verb + path == []
  {
    var body := verb + path;
    var keys := Sort(Keys(data));
    ghost var es := SortedPairs(data);
    for i := 0 to |keys|
      invariant |es| == |keys| && body == verb + path + Terminated(es[..i])
    {
      var key := keys[i];
      var value := Lookup(data, key);
      body := body + (key + [EQUALS] + value + [AMPERSAND]);
      assert es[..i + 1][..i] == es[..i];
    }
    assert es[..|keys|] == es;
    FordSlice(verb + path, data);
    FordExactly(path, verb, data, secret);
    payload := DropLast(body) + secret;
  }

  /** ford_create_signature up to its hash agrees with it. */
  method FordCreateSignatureNew(path: Str, verb: Str, payload: seq<Pair>, secret: Str) returns (buf: Str)
    requires Distinct(Keys(payload))
    ensures buf == FordString(path, verb, payload, secret)
  {
    buf := AppendFields(verb + path, payload);
    buf := DropLast(buf);
    FordSlice(verb + path, payload);
    buf := buf + secret;
  }

  // ---------------------------------------------------------------- the body determines the payload

  // Splitting at every c.
  function Split(s: Str, c: Unit): (r: seq<Str>)
    ensures |r| >= 1
  {
    if s == [] then [[]]
    else
      var r := Split(s[1..], c);
      if s[0] == c then [[]] + r else [[s[0]] + r[0]] + r[1..]
  }

  // A field cut at its first equals sign.
  function ParseField(f: Str): Pair {
    if f == [] then Pair([], [])
    else if f[0] == EQUALS then Pair([], f[1..])
    else var e := ParseField(f[1..]); Pair([f[0]] + e.key, e.value)
  }

  function ParseFields(fs: seq<Str>): (r: seq<Pair>)
    ensures |r| == |fs| && forall i :: 0 <= i < |fs| ==> r[i] == ParseField(fs[i])
  {
    if fs == [] then [] else [ParseField(fs[0])] + ParseFields(fs[1..])
  }

  function ParseBody(body: Str): seq<Pair> {
    if body == [] then [] else ParseFields(Split(body, AMPERSAND))
  }

  predicate Unambiguous(e: Pair) {
    EQUALS !in e.key && AMPERSAND !in e.key && AMPERSAND !in e.value
  }

  lemma {:induction false} SplitWhole(s: Str, c: Unit)
    requires c !in s
    ensures Split(s, c) == [s]
  {
    if s != [] {
      SplitWhole(s[1..], c);
      assert [s[0]] + s[1..] == s;
    }
  }

  lemma {:induction false} SplitFirst(s: Str, c: Unit, t: Str)
    requires c !in s
    ensures Split(s + [c] + t, c) == [s] + Split(t, c)
  {
    var u := s + [c] + t;
    if s == [] {
      assert u[1..] == t;
    } else {
      assert u[1..] == s[1..] + [c] + t;
      SplitFirst(s[1..], c, t);
      assert [s[0]] + s[1..] == s;
    }
  }

  lemma {:induction false} ParseFieldOf(k: Str, v: Str)
    requires EQUALS !in k
    ensures ParseField(k + [EQUALS] + v) == Pair(k, v)
  {
    var f := k + [EQUALS] + v;
    if k == [] {
      assert f[1..] == v;
    } else {
      assert f[1..] == k[1..] + [EQUALS] + v;
      ParseFieldOf(k[1..], v);
      assert [k[0]] + k[1..] == k;
    }
  }

  lemma {:induction false} ParseJoined(es: seq<Pair>)
    requires es != [] && forall e :: e in es ==> Unambiguous(e)
    ensures Join(es) != [] && ParseFields(Split(Join(es), AMPERSAND)) == es
  {
    var e := es[0];
    assert Unambiguous(e);
    ParseFieldOf(e.key, e.value);
    assert es == [e] + es[1..];
    if |es| == 1 {
      SplitWhole(Field(e), AMPERSAND);
    } else {
      ParseJoined(es[1..]);
      SplitFirst(Field(e), AMPERSAND, Join(es[1..]));
      var rest := Split(Join(es[1..]), AMPERSAND);
      assert ([Field(e)] + rest)[1..] == rest;
    }
  }

  lemma {:induction false} SplitPartsFree(s: Str, c: Unit)
    ensures forall f :: f in Split(s, c) ==> c !in f
  {
    if s != [] { SplitPartsFree(s[1..], c); }
  }

  lemma {:induction false} ParseFieldFree(f: Str)
    requires AMPERSAND !in f
    ensures Unambiguous(ParseField(f))
  {
    if f != [] && f[0] != EQUALS { ParseFieldFree(f[1..]); }
  }

  lemma ParsedUnambiguous(body: Str, e: Pair)
    requires e in ParseBody(body)
    ensures Unambiguous(e)
  {
    var fs := Split(body, AMPERSAND);
    var i :| 0 <= i < |fs| && ParseBody(body)[i] == e;
    SplitPartsFree(body, AMPERSAND);
    assert fs[i] in fs;
    ParseFieldFree(fs[i]);
  }

  /** Reading the body back gives the sorted payload exactly when keys hold no = or & and values no &. */
  lemma BodyParsesExactly(p: seq<Pair>)
    requires Distinct(Keys(p))
    ensures ParseBody(Body(p)) == SortedPairs(p) <==> forall e :: e in p ==> Unambiguous(e)
  {
    var es := SortedPairs(p);
    SortedPairsExactly(p);
    if forall e :: e in p ==> Unambiguous(e) {
      if es != [] { ParseJoined(es); }
    } else {
      var e :| e in p && !Unambiguous(e);
      if ParseBody(Body(p)) == es {
        ParsedUnambiguous(Body(p), e);
      }
    }
  }

  /** Such payloads with the same body are the same payload. */
  lemma BodyDeterminesPayload(p: seq<Pair>, q: seq<Pair>)
    requires Distinct(Keys(p)) && Distinct(Keys(q))
    requires forall e :: e in p || e in q ==> Unambiguous(e)
    ensures Body(p) == Body(q) <==> forall e :: e in p <==> e in q
  {
    BodyParsesExactly(p);
    BodyParsesExactly(q);
    SortedPairsExactly(p);
    SortedPairsExactly(q);
    if forall e :: e in p <==> e in q { OrderIndependent(p, q); }
  }

  /** Without the restriction two payloads can share a body. */
  lemma EqualsInKeyConfuses()
    ensures var p, q := [Pair([0x61, EQUALS, 0x62], [0x63])], [Pair([0x61], [0x62, EQUALS, 0x63])];
            p != q && Body(p) == Body(q)
  {
    var p, q := [Pair([0x61, EQUALS, 0x62], [0x63])], [Pair([0x61], [0x62, EQUALS, 0x63])];
    Single(p[0]);
    Single(q[0]);
    assert Field(p[0]) == Field(q[0]);
  }

  lemma Single(e: Pair)
    ensures Body([e]) == Field(e)
  {
    assert Keys([e])[1..] == [];
    assert Sort(Keys([e])) == [e.key];
    assert SortedPairs([e]) == [e];
  }

  // ---------------------------------------------------------------- what is hashed

  // hash.update(s): the string's UTF-8 bytes.
  function Hashed(s: Str): Bytes {
    Utf8.Encode(s)
  }

  // hash.update(utf8.encode(s)): the bytes become characters, which are encoded once more.
  // None: utf8.encode throws on a lone surrogate.
  function HashedTwiceEncoded(s: Str): Option<Bytes> {
    if Utf8.WellFormed(s) then Some(Utf8.Encode(Utf8.Encode(s))) else None
  }

  lemma {:induction false} EncodeSevenBit(s: Str)
    requires SevenBit(s)
    ensures Utf8.Encode(s) == s
  {
    if s != [] {
      EncodeSevenBit(s[1..]);
      assert s == [s[0]] + s[1..];
    }
  }

  lemma {:induction false} EncodeGrows(b: Bytes)
    ensures |Utf8.Encode(b)| >= |b| && (!SevenBit(b) ==> |Utf8.Encode(b)| > |b|)
  {
    if b != [] {
      EncodeGrows(b[1..]);
      assert b == [b[0]] + b[1..];
    }
  }

  lemma {:induction false} EncodeShowsHigh(s: Str)
    requires !SevenBit(s)
    ensures !SevenBit(Utf8.Encode(s))
    decreases |s|
  {
    if s[0] >= 128 {
      EncodeHighFirst(s);
    } else {
      assert s == [s[0]] + s[1..];
      EncodeShowsHigh(s[1..]);
      assert Utf8.Encode(s)[1..] == Utf8.Encode(s[1..]);
    }
  }

  lemma EncodeHighFirst(s: Str)
    requires s != [] && s[0] >= 128
    ensures !SevenBit(Utf8.Encode(s))
  {
    var first := Utf8.EncodePoint(if Utf8.IsScalar(Utf8.FirstPoint(s)) then Utf8.FirstPoint(s) else 0xFFFD);
    assert first[0] >= 128 && Utf8.Encode(s)[0] == first[0];
  }

  /** The older and the newer olive form hash the same bytes exactly for seven-bit bodies (and keys). */
  lemma OliveFormsHashAlike(body: Str)
    ensures HashedTwiceEncoded(body) == Some(Hashed(body)) <==> SevenBit(body)
  {
    var b := Utf8.Encode(body);
    EncodeGrows(b);
    if SevenBit(body) {
      EncodeSevenBit(body);
      Percent.AsciiWellFormed(body);
    } else {
      EncodeShowsHigh(body);
    }
  }

  /** The two ford forms always do: both hash percent-encoded text. */
  lemma FordFormsHashAlike(s: Str)
    requires Percent.EncodeURIComponent(s).Some?
    ensures var e := Percent.EncodeURIComponent(s).value; HashedTwiceEncoded(e) == Some(Hashed(e))
  {
    Percent.EncodedAscii(s);
    OliveFormsHashAlike(Percent.EncodeURIComponent(s).value);
  }
}
