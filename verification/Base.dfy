/** Value types and sequence facts shared by the other modules. */
module Base {

  datatype Option<+T> = None | Some(value: T)

  function Last<T>(s: seq<T>): T
    requires s != []
  {
    s[|s| - 1]
  }

  function Init<T>(s: seq<T>): seq<T>
    requires s != []
  {
    s[..|s| - 1]
  }

  lemma AppendIsAssociative<T>(a: seq<T>, b: seq<T>, c: seq<T>)
    ensures (a + b) + c == a + (b + c)
  {
  }

  /** Concatenation that adds nothing to an empty front. */
  function Plus<T>(a: seq<T>, b: seq<T>): seq<T> {
    if |a| == 0 then b else a + b
  }

  lemma PlusIsAppend<T>(a: seq<T>, b: seq<T>)
    ensures Plus(a, b) == a + b
  {
  }

  lemma PlusAgain<T>(a: seq<T>, b: seq<T>, c: seq<T>)
    ensures Plus(Plus(a, b), c) == Plus(a, Plus(b, c))
  {
    if |a| > 0 && |b| == 0 {
      assert a + b == a;
    } else if |a| > 0 {
      AppendIsAssociative(a, b, c);
    }
  }

  lemma PlusNothing<T>(a: seq<T>)
    ensures Plus(a, []) == a
  {
  }

  /** Splitting at the first separator is unambiguous. */
  lemma SplitIsUnique<T>(sep: T, a: seq<T>, b: seq<T>, x: seq<T>, y: seq<T>)
    requires sep !in a && sep !in b && a + [sep] + x == b + [sep] + y
    ensures a == b && x == y
  {
    var s, t := a + [sep] + x, b + [sep] + y;
    assert s[|a|] == sep && t[|b|] == sep;
    assert forall k :: 0 <= k < |a| ==> s[k] == a[k] && s[k] != sep;
    assert forall k :: 0 <= k < |b| ==> t[k] == b[k] && t[k] != sep;
    assert |a| == |b|;
    assert a == s[..|a|] && b == t[..|b|];
    assert x == s[|a| + 1..] && y == t[|b| + 1..];
  }

  /** `a` is `b` with zero or more elements left out, order kept. */
  ghost predicate Subsequence<T>(a: seq<T>, b: seq<T>)
    decreases |b|
  {
    || a == []
    || (b != [] && (|| (Last(a) == Last(b) && Subsequence(Init(a), Init(b)))
                    || Subsequence(a, Init(b))))
  }

  lemma {:induction false} SubsequenceReflexive<T>(a: seq<T>)
    ensures Subsequence(a, a)
  {
    if a != [] {
      SubsequenceReflexive(Init(a));
    }
  }

  /** Leaving one more element out keeps a subsequence a subsequence. */
  lemma {:induction false} SubsequenceRemove<T>(a: seq<T>, i: nat, b: seq<T>)
    requires i < |a|
    requires Subsequence(a, b)
    ensures Subsequence(a[..i] + a[i + 1..], b)
    decreases |b|
  {
    var shorter := a[..i] + a[i + 1..];
    if shorter != [] {
      if Last(a) == Last(b) && Subsequence(Init(a), Init(b)) {
        if i == |a| - 1 {
          assert shorter == Init(a);
          assert Init(b) + [Last(b)] == b;
        } else {
          SubsequenceRemove(Init(a), i, Init(b));
          assert Init(a)[..i] + Init(a)[i + 1..] == Init(shorter);
          assert Last(shorter) == Last(a);
        }
      } else {
        SubsequenceRemove(a, i, Init(b));
      }
    }
  }
}
