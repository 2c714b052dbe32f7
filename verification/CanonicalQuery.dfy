/**
 The query part of the usage cache key (canonicalQuery in
 internal/middleware/usage_query_cache.go): parameter names are sorted, and so are
 the values of those parameters the handlers read as sets.

 Percent-escaping is the parameter `escape`; the rest of url.Values.Encode, names in
 order and pairs joined by '=' and '&', is written out.
 */
module CanonicalQuery {
  import opened Base
  import opened Ordering

  type Query = map<string, seq<string>>

  /** The parameters read with QueryArray; every other one is read by its first value only. */
  const SetValued: set<string> := {"agent", "provider_key", "model_key", "device_id"}

  /** What parsing a URL yields: no name without a value. */
  predicate Parsed(q: Query) {
    forall n :: n in q ==> q[n] != []
  }

  function SortStrings(s: seq<string>): seq<string> {
    if s == [] then [] else Insert(SortStrings(Init(s)), Last(s))
  }

  function CanonicalValues(name: string, values: seq<string>): seq<string> {
    if name in SetValued then SortStrings(values) else values
  }

  function Canonical(q: Query): Query {
    map n | n in q :: CanonicalValues(n, q[n])
  }

  function Tagged(name: string, values: seq<string>): seq<(string, string)> {
    if values == [] then [] else Tagged(name, Init(values)) + [(name, Last(values))]
  }

  function Pairs(names: seq<string>, q: Query): seq<(string, string)>
    requires forall n :: n in names ==> n in q
  {
    if names == [] then [] else Pairs(Init(names), q) + Tagged(Last(names), q[Last(names)])
  }

  /** The pairs in the order they are written: names sorted, values in theirs. */
  ghost function Ordered(q: Query): seq<(string, string)> {
    Pairs(Sorted(q.Keys), q)
  }

  type Escaper = string -> string

  function PairText(escape: Escaper, p: (string, string)): string {
    escape(p.0) + "=" + escape(p.1)
  }

  function Text(escape: Escaper, pairs: seq<(string, string)>): string {
    if pairs == [] then ""
    else if |pairs| == 1 then PairText(escape, pairs[0])
    else PairText(escape, pairs[0]) + "&" + Text(escape, pairs[1..])
  }

  ghost function Encode(escape: Escaper, q: Query): string {
    Text(escape, Ordered(q))
  }

  /** The cache key's query part. */
  ghost function KeyPart(escape: Escaper, q: Query): string {
    Encode(escape, Canonical(q))
  }

  /** What escaping must do: tell texts apart, in text free of both separators. */
  ghost predicate GoodEscape(escape: Escaper) {
    && (forall s :: '&' !in escape(s) && '=' !in escape(s))
    && (forall s, t :: escape(s) == escape(t) ==> s == t)
  }

  // ------------------------------------------------------------------
  // Sorting
  // ------------------------------------------------------------------

  ghost predicate NonDescending(s: seq<string>) {
    forall i, j :: 0 <= i < j < |s| ==> !Before(s[j], s[i])
  }

  lemma {:induction false} InsertKeepsElements(s: seq<string>, x: string)
    ensures multiset(Insert(s, x)) == multiset(s) + multiset{x}
  {
    if s != [] && !Before(x, s[0]) {
      InsertKeepsElements(s[1..], x);
      assert s == [s[0]] + s[1..];
    }
  }

  lemma {:induction false} InsertKeepsOrder(s: seq<string>, x: string)
    requires NonDescending(s)
    ensures NonDescending(Insert(s, x))
  {
    if s == [] {
    } else if Before(x, s[0]) {
      var t := [x] + s;
      forall j | 0 < j < |t| ensures !Before(t[j], x) {
        if Before(s[j - 1], x) {
          BeforeIsTransitive(s[j - 1], x, s[0]);
          BeforeIsIrreflexive(s[0]);
        }
      }
    } else {
      InsertKeepsOrder(s[1..], x);
      InsertKeepsElements(s[1..], x);
      var t := Insert(s[1..], x);
      forall j | 0 <= j < |t| ensures !Before(t[j], s[0]) {
        assert t[j] in multiset(t);
        if t[j] != x {
          assert t[j] in multiset(s[1..]);
          assert t[j] in s[1..];
          var k :| 0 <= k < |s[1..]| && s[1..][k] == t[j];
          assert s[k + 1] == t[j];
        }
      }
    }
  }

  lemma {:induction false} SortSorts(s: seq<string>)
    ensures NonDescending(SortStrings(s))
    ensures multiset(SortStrings(s)) == multiset(s)
  {
    if s != [] {
      SortSorts(Init(s));
      InsertKeepsOrder(SortStrings(Init(s)), Last(s));
      InsertKeepsElements(SortStrings(Init(s)), Last(s));
      assert s == Init(s) + [Last(s)];
    }
  }

  lemma HeadIsSmallest(a: seq<string>, x: string)
    requires NonDescending(a) && x in multiset(a)
    ensures !Before(x, a[0])
  {
    BeforeIsIrreflexive(x);
    assert x in a;
  }

  lemma {:induction false} SortedIsUnique(a: seq<string>, b: seq<string>)
    requires NonDescending(a) && NonDescending(b) && multiset(a) == multiset(b)
    ensures a == b
  {
    if a != [] {
      assert a[0] in multiset(b);
      assert b[0] in multiset(a) by {
        assert b[0] in multiset(b);
      }
      HeadIsSmallest(b, a[0]);
      HeadIsSmallest(a, b[0]);
      BeforeIsTotal(a[0], b[0]);
      assert a == [a[0]] + a[1..] && b == [b[0]] + b[1..];
      assert multiset(a[1..]) == multiset(a) - multiset{a[0]};
      assert multiset(b[1..]) == multiset(b) - multiset{b[0]};
      SortedIsUnique(a[1..], b[1..]);
    } else {
      assert |multiset(b)| == 0;
    }
  }

  lemma {:induction false} SortForgetsOrderOnly(a: seq<string>, b: seq<string>)
    ensures SortStrings(a) == SortStrings(b) <==> multiset(a) == multiset(b)
  {
    SortSorts(a);
    SortSorts(b);
    if multiset(a) == multiset(b) {
      SortedIsUnique(SortStrings(a), SortStrings(b));
    }
  }

  // ------------------------------------------------------------------
  // Encoding loses nothing
  // ------------------------------------------------------------------

  /** The values written under one name, in order. */
  function Written(pairs: seq<(string, string)>, name: string): seq<string> {
    if pairs == [] then []
    else Written(Init(pairs), name) + if Last(pairs).0 == name then [Last(pairs).1] else []
  }

  lemma {:induction false} WrittenConcat(a: seq<(string, string)>, b: seq<(string, string)>, name: string)
    ensures Written(a + b, name) == Written(a, name) + Written(b, name)
    decreases |b|
  {
    if b == [] {
      assert a + b == a;
    } else {
      WrittenConcat(a, Init(b), name);
      assert Init(a + b) == a + Init(b) && Last(a + b) == Last(b);
      var tail := if Last(b).0 == name then [Last(b).1] else [];
      assert (Written(a, name) + Written(Init(b), name)) + tail == Written(a, name) + (Written(Init(b), name) + tail);
    }
  }

  lemma {:induction false} WrittenTagged(tag: string, values: seq<string>, name: string)
    ensures Written(Tagged(tag, values), name) == if tag == name then values else []
  {
    if values != [] {
      WrittenTagged(tag, Init(values), name);
      assert values == Init(values) + [Last(values)];
      assert Init(Tagged(tag, values)) == Tagged(tag, Init(values));
    }
  }

  lemma {:induction false} WrittenPairs(names: seq<string>, q: Query, name: string)
    requires forall n :: n in names ==> n in q
    requires Ascending(names)
    ensures Written(Pairs(names, q), name) == if name in names then q[name] else []
  {
    if names != [] {
      var rest, last := Init(names), Last(names);
      WrittenPairs(rest, q, name);
      WrittenConcat(Pairs(rest, q), Tagged(last, q[last]), name);
      WrittenTagged(last, q[last], name);
      LastIsNew(names);
      var before := Written(Pairs(rest, q), name);
      assert before + [] == before && [] + q[last] == q[last];
    }
  }

  lemma LastIsNew(names: seq<string>)
    requires names != [] && Ascending(names)
    ensures Last(names) !in Init(names)
    ensures forall n :: n in names <==> n in Init(names) || n == Last(names)
  {
    BeforeIsIrreflexive(Last(names));
    assert names == Init(names) + [Last(names)];
  }

  lemma PairTextIsInjective(escape: Escaper, p: (string, string), q: (string, string))
    requires GoodEscape(escape) && PairText(escape, p) == PairText(escape, q)
    ensures p == q
  {
    assert PairText(escape, p) == escape(p.0) + ['='] + escape(p.1);
    assert PairText(escape, q) == escape(q.0) + ['='] + escape(q.1);
    SplitIsUnique('=', escape(p.0), escape(q.0), escape(p.1), escape(q.1));
  }

  /** The first pair's text, cut at the first '&'. */
  lemma TextHead(escape: Escaper, pairs: seq<(string, string)>)
    requires GoodEscape(escape) && pairs != []
    ensures '&' in Text(escape, pairs) <==> |pairs| > 1
    ensures |pairs| > 1 ==> Text(escape, pairs) == PairText(escape, pairs[0]) + ['&'] + Text(escape, pairs[1..])
    ensures Text(escape, pairs) != ""
  {
    if |pairs| > 1 {
      assert Text(escape, pairs)[|PairText(escape, pairs[0])|] == '&';
    }
  }

  lemma {:induction false} TextIsInjective(escape: Escaper, a: seq<(string, string)>, b: seq<(string, string)>)
    requires GoodEscape(escape) && Text(escape, a) == Text(escape, b)
    ensures a == b
    decreases |a|
  {
    if a != [] {
      TextHead(escape, a);
    }
    if b != [] {
      TextHead(escape, b);
    }
    if a != [] {
      if |a| > 1 {
        SplitIsUnique('&', PairText(escape, a[0]), PairText(escape, b[0]), Text(escape, a[1..]), Text(escape, b[1..]));
        TextIsInjective(escape, a[1..], b[1..]);
      }
      PairTextIsInjective(escape, a[0], b[0]);
      assert a == [a[0]] + a[1..] && b == [b[0]] + b[1..];
    }
  }

  lemma EncodeIsInjective(escape: Escaper, p: Query, q: Query)
    requires GoodEscape(escape) && Parsed(p) && Parsed(q) && Encode(escape, p) == Encode(escape, q)
    ensures p == q
  {
    TextIsInjective(escape, Ordered(p), Ordered(q));
    forall n ensures n in p <==> n in q
             ensures n in p && n in q ==> p[n] == q[n]
    {
      WrittenPairs(Sorted(p.Keys), p, n);
      WrittenPairs(Sorted(q.Keys), q, n);
    }
  }

  // ------------------------------------------------------------------
  // When two queries share a key
  // ------------------------------------------------------------------

  /** The handlers cannot tell the two queries apart by order alone. */
  ghost predicate SameQuestion(p: Query, q: Query) {
    && p.Keys == q.Keys
    && forall n :: n in p ==>
         if n in SetValued then multiset(p[n]) == multiset(q[n]) else p[n] == q[n]
  }

  /** Sorting the set-valued parameters forgets their order and nothing else. */
  lemma CanonicalAgreesExactly(p: Query, q: Query)
    ensures Canonical(p) == Canonical(q) <==> SameQuestion(p, q)
  {
    var cp, cq := Canonical(p), Canonical(q);
    assert cp.Keys == p.Keys && cq.Keys == q.Keys;
    forall n | n in p && n in q
      ensures cp[n] == cq[n] <==> if n in SetValued then multiset(p[n]) == multiset(q[n]) else p[n] == q[n]
    {
      SortForgetsOrderOnly(p[n], q[n]);
    }
  }

  /**
   Two queries share a key exactly when they have the same parameters, with equal
   value lists where a parameter is read by its first value and equal multisets
   where it is read as a set.
   */
  lemma {:induction false} KeysAgreeExactly(escape: Escaper, p: Query, q: Query)
    requires GoodEscape(escape) && Parsed(p) && Parsed(q)
    ensures KeyPart(escape, p) == KeyPart(escape, q) <==> SameQuestion(p, q)
  {
    CanonicalAgreesExactly(p, q);
    if KeyPart(escape, p) == KeyPart(escape, q) {
      EncodeIsInjective(escape, Canonical(p), Canonical(q));
    }
  }

  /** What a handler reads: the first value, or the set of values. */
  function FirstValue(q: Query, n: string): string {
    if n in q && q[n] != [] then q[n][0] else ""
  }

  ghost function ValueSet(q: Query, n: string): set<string> {
    if n in q then set v | v in q[n] else {}
  }

  /** A shared reply is one the handler could have given to either request. */
  lemma SharedKeySameReply(escape: Escaper, p: Query, q: Query, n: string)
    requires GoodEscape(escape) && Parsed(p) && Parsed(q) && KeyPart(escape, p) == KeyPart(escape, q)
    ensures if n in SetValued then ValueSet(p, n) == ValueSet(q, n) else FirstValue(p, n) == FirstValue(q, n)
  {
    KeysAgreeExactly(escape, p, q);
    assert n in p <==> n in q by {
      assert n in p.Keys <==> n in q.Keys;
    }
    if n in SetValued && n in p {
      forall v ensures v in p[n] <==> v in q[n] {
        assert v in p[n] <==> v in multiset(p[n]);
        assert v in q[n] <==> v in multiset(q[n]);
      }
    }
  }

  /** The loop that builds the canonical values, one parameter at a time. */
  method BuildCanonical(raw: Query) returns (canonical: Query)
    ensures canonical == Canonical(raw)
  {
    canonical := map[];
    var names := raw.Keys;
    while names != {}
      invariant names <= raw.Keys
      invariant canonical == map n | n in raw && n !in names :: CanonicalValues(n, raw[n])
    {
      var name :| name in names;
      names := names - {name};
      if name !in SetValued {
        canonical := canonical[name := raw[name]];
      } else {
        var sorted := [];
        var i := 0;
        while i < |raw[name]|
          invariant i <= |raw[name]|
          invariant sorted == SortStrings(raw[name][..i])
        {
          sorted := Insert(sorted, raw[name][i]);
          assert Init(raw[name][..i + 1]) == raw[name][..i];
          i := i + 1;
        }
        assert raw[name][..|raw[name]|] == raw[name];
        canonical := canonical[name := sorted];
      }
    }
  }
}
