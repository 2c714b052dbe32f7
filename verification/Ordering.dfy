/** Byte order on strings, and the one sorted listing of a set of strings (sort.Slice, sort.Strings). */
module Ordering {

  /** Strict lexicographic order. */
  predicate Before(a: string, b: string) {
    b != [] && (a == [] || a[0] < b[0] || (a[0] == b[0] && Before(a[1..], b[1..])))
  }

  lemma {:induction false} BeforeIsIrreflexive(a: string)
    ensures !Before(a, a)
  {
    if a != [] {
      BeforeIsIrreflexive(a[1..]);
    }
  }

  lemma {:induction false} BeforeIsTransitive(a: string, b: string, c: string)
    requires Before(a, b) && Before(b, c)
    ensures Before(a, c)
  {
    if a != [] && a[0] == b[0] == c[0] {
      BeforeIsTransitive(a[1..], b[1..], c[1..]);
    }
  }

  lemma {:induction false} BeforeIsTotal(a: string, b: string)
    ensures Before(a, b) || a == b || Before(b, a)
  {
    if a != [] && b != [] && a[0] == b[0] {
      BeforeIsTotal(a[1..], b[1..]);
      assert a == [a[0]] + a[1..] && b == [b[0]] + b[1..];
    }
  }

  ghost predicate Ascending(s: seq<string>) {
    forall i, j :: 0 <= i < j < |s| ==> Before(s[i], s[j])
  }

  /** `s` lists exactly `ids`, in order. */
  ghost predicate Lists(s: seq<string>, ids: set<string>) {
    Ascending(s) && forall x :: x in s <==> x in ids
  }

  function Insert(s: seq<string>, x: string): seq<string> {
    if s == [] || Before(x, s[0]) then [x] + s else [s[0]] + Insert(s[1..], x)
  }

  lemma {:induction false} InsertLists(s: seq<string>, ids: set<string>, x: string)
    requires Lists(s, ids) && x !in ids
    ensures Lists(Insert(s, x), ids + {x})
  {
    if s == [] {
    } else if Before(x, s[0]) {
      forall j | 0 < j < |s| ensures Before(x, s[j]) {
        BeforeIsTransitive(x, s[0], s[j]);
      }
      assert forall y :: y in [x] + s <==> y == x || y in s;
    } else {
      BeforeIsTotal(x, s[0]);
      var rest, restIds := s[1..], ids - {s[0]};
      assert Lists(rest, restIds) by {
        BeforeIsIrreflexive(s[0]);
        assert s == [s[0]] + rest;
        forall y ensures y in rest <==> y in restIds {
          if y in rest {
            var k :| 0 <= k < |rest| && rest[k] == y;
            assert Before(s[0], s[k + 1]);
          }
        }
      }
      InsertLists(rest, restIds, x);
      var t := Insert(rest, x);
      forall j | 0 <= j < |t| ensures Before(s[0], t[j]) {
        assert t[j] in t;
        if t[j] != x {
          assert t[j] in rest;
          var k :| 0 <= k < |rest| && rest[k] == t[j];
          assert Before(s[0], s[k + 1]);
        }
      }
      assert forall y :: y in [s[0]] + t <==> y == s[0] || y in t;
    }
  }

  lemma {:induction false} ListingExists(ids: set<string>) returns (s: seq<string>)
    ensures Lists(s, ids)
    decreases |ids|
  {
    if ids == {} {
      s := [];
    } else {
      var x :| x in ids;
      var t := ListingExists(ids - {x});
      InsertLists(t, ids - {x}, x);
      assert ids - {x} + {x} == ids;
      s := Insert(t, x);
    }
  }

  lemma {:induction false} ListingIsUnique(a: seq<string>, b: seq<string>, ids: set<string>)
    requires Lists(a, ids) && Lists(b, ids)
    ensures a == b
    decreases |a|
  {
    if a == [] {
      if b != [] {
        HeadIsListed(b, ids);
      }
    } else {
      assert a[0] in ids;
      FirstIsLeast(a, ids, b[0]);
      FirstIsLeast(b, ids, a[0]);
      if a[0] != b[0] {
        BeforeIsTransitive(a[0], b[0], a[0]);
        BeforeIsIrreflexive(a[0]);
      }
      RestLists(a, ids);
      RestLists(b, ids);
      ListingIsUnique(a[1..], b[1..], ids - {a[0]});
      assert a == [a[0]] + a[1..] && b == [b[0]] + b[1..];
    }
  }

  lemma HeadIsListed(s: seq<string>, ids: set<string>)
    requires Lists(s, ids) && s != []
    ensures s[0] in ids
  {
  }

  lemma FirstIsLeast(s: seq<string>, ids: set<string>, x: string)
    requires Lists(s, ids) && x in ids && s != []
    ensures s[0] == x || Before(s[0], x)
  {
  }

  lemma RestLists(s: seq<string>, ids: set<string>)
    requires Lists(s, ids) && s != []
    ensures Lists(s[1..], ids - {s[0]})
  {
    BeforeIsIrreflexive(s[0]);
    assert s == [s[0]] + s[1..];
    forall y ensures y in s[1..] <==> y in ids - {s[0]} {
      if y in s[1..] {
        var k :| 0 <= k < |s[1..]| && s[1..][k] == y;
        assert Before(s[0], s[k + 1]);
      }
    }
  }

  ghost function Sorted(ids: set<string>): (s: seq<string>)
    ensures Lists(s, ids)
  {
    assert exists s :: Lists(s, ids) by {
      var s := ListingExists(ids);
    }
    var s :| Lists(s, ids);
    s
  }
}
