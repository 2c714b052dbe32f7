/**
 The keyword-form DSN lexer (parseKeywordDSN of internal/config/config.go): white-space
 separated key=value pairs, values optionally in single quotes with backslash escapes.

 Absence of a result stands for "not in keyword form". `lower` folds a key's case.
 */
module Dsn {
  import opened Base

  predicate IsSep(c: char) {
    c == ' ' || c == '\t' || c == '\n' || c == '\r'
  }

  type Pairs = map<string, string>

  // ------------------------------------------------------------------
  // Reading, position by position
  // ------------------------------------------------------------------

  /** The first position from `i` that is not a separator. */
  function SkipSeps(s: string, i: nat): (j: nat)
    requires i <= |s|
    ensures i <= j <= |s|
    decreases |s| - i
  {
    if i < |s| && IsSep(s[i]) then SkipSeps(s, i + 1) else i
  }

  /** The first separator from `i`, or the end. */
  function FindSep(s: string, i: nat): (j: nat)
    requires i <= |s|
    ensures i <= j <= |s|
    decreases |s| - i
  {
    if i < |s| && !IsSep(s[i]) then FindSep(s, i + 1) else i
  }

  /** The first '=' from `i`, or the end. */
  function FindEq(s: string, i: nat): (j: nat)
    requires i <= |s|
    ensures i <= j <= |s|
    decreases |s| - i
  {
    if i < |s| && s[i] != '=' then FindEq(s, i + 1) else i
  }

  datatype Read = Read(value: string, end: nat)

  function Prepend(c: char, r: Option<Read>): Option<Read> {
    if r.None? then None else Some(r.value.(value := [c] + r.value.value))
  }

  /** The value up to the closing quote; a missing quote or a trailing backslash gives nothing. */
  function Quoted(s: string, i: nat): (r: Option<Read>)
    requires i <= |s|
    ensures r.Some? ==> i < r.value.end <= |s|
    decreases |s| - i
  {
    if i == |s| then None
    else if s[i] == '\\' then if i + 1 == |s| then None else Prepend(s[i + 1], Quoted(s, i + 2))
    else if s[i] == '\'' then Some(Read("", i + 1))
    else Prepend(s[i], Quoted(s, i + 1))
  }

  /** A value, quoted or bare; a closing quote must be followed by a separator or the end. */
  function Value(s: string, i: nat): (r: Option<Read>)
    requires i <= |s|
    ensures r.Some? ==> i <= r.value.end <= |s|
  {
    if i < |s| && s[i] == '\'' then
      var q := Quoted(s, i + 1);
      if q.Some? && q.value.end < |s| && !IsSep(s[q.value.end]) then None else q
    else Some(Read(s[i..FindSep(s, i)], FindSep(s, i)))
  }

  function Parse(lower: string -> string, s: string, i: nat, kv: Pairs): Option<Pairs>
    requires i <= |s|
    decreases |s| - i
  {
    var j := SkipSeps(s, i);
    if j == |s| then Some(kv)
    else
      var eq := FindEq(s, j);
      if eq == |s| || eq == j then None
      else
        var v := Value(s, eq + 1);
        if v.None? then None else Parse(lower, s, v.value.end, kv[lower(s[j..eq]) := v.value.value])
  }

  function ParseAll(lower: string -> string, s: string): Option<Pairs> {
    var r := Parse(lower, s, 0, map[]);
    if r == Some(map[]) then None else r
  }

  // ------------------------------------------------------------------
  // The lexer
  // ------------------------------------------------------------------

  /** Put an already read prefix in front of what is still to be read. */
  function After(prefix: string, r: Option<Read>): Option<Read> {
    if r.None? then None else Some(r.value.(value := prefix + r.value.value))
  }

  method ReadQuoted(s: string, start: nat) returns (r: Option<Read>)
    requires start <= |s|
    ensures r == Quoted(s, start)
  {
    var i, val, closed := start, "", false;
    AfterNothing(Quoted(s, start));
    while i < |s| && !closed
      invariant start <= i <= |s|
      invariant !closed ==> Quoted(s, start) == After(val, Quoted(s, i))
      invariant closed ==> Quoted(s, start) == Some(Read(val, i))
      decreases |s| - i
    {
      if s[i] == '\\' {
        if i + 1 >= |s| {
          return None;
        }
        AfterStep(val, s[i + 1], Quoted(s, i + 2));
        val := val + [s[i + 1]];
        i := i + 2;
      } else if s[i] == '\'' {
        assert val + "" == val;
        closed := true;
        i := i + 1;
      } else {
        AfterStep(val, s[i], Quoted(s, i + 1));
        val := val + [s[i]];
        i := i + 1;
      }
    }
    return if closed then Some(Read(val, i)) else None;
  }

  lemma AfterNothing(r: Option<Read>)
    ensures After("", r) == r
  {
    if r.Some? {
      assert "" + r.value.value == r.value.value;
    }
  }

  lemma AfterStep(val: string, c: char, r: Option<Read>)
    ensures After(val, Prepend(c, r)) == After(val + [c], r)
  {
    if r.Some? {
      assert val + ([c] + r.value.value) == val + [c] + r.value.value;
    }
  }

  method ReadValue(s: string, start: nat) returns (r: Option<Read>)
    requires start <= |s|
    ensures r == Value(s, start)
  {
    if start < |s| && s[start] == '\'' {
      r := ReadQuoted(s, start + 1);
      if r.Some? && r.value.end < |s| && !IsSep(s[r.value.end]) {
        return None;
      }
    } else {
      var i := start;
      while i < |s| && !IsSep(s[i])
        invariant start <= i <= |s| && FindSep(s, start) == FindSep(s, i)
      {
        i := i + 1;
      }
      return Some(Read(s[start..i], i));
    }
  }

  method IndexEq(s: string, start: nat) returns (eq: nat)
    requires start <= |s|
    ensures eq == FindEq(s, start)
  {
    eq := start;
    while eq < |s| && s[eq] != '='
      invariant start <= eq <= |s| && FindEq(s, start) == FindEq(s, eq)
    {
      eq := eq + 1;
    }
  }

  method SkipSpace(s: string, start: nat) returns (i: nat)
    requires start <= |s|
    ensures i == SkipSeps(s, start)
  {
    i := start;
    while i < |s| && IsSep(s[i])
      invariant start <= i <= |s| && SkipSeps(s, start) == SkipSeps(s, i)
    {
      i := i + 1;
    }
  }

  method ParseKeywordDSN(lower: string -> string, s: string) returns (r: Option<Pairs>)
    ensures r == ParseAll(lower, s)
  {
    var kv: Pairs := map[];
    var i := 0;
    while i < |s|
      invariant i <= |s|
      invariant Parse(lower, s, 0, map[]) == Parse(lower, s, i, kv)
      decreases |s| - i
    {
      var j := SkipSpace(s, i);
      if j >= |s| {
        break;
      }
      var eq := IndexEq(s, j);
      if eq == |s| || eq == j {
        return None;
      }
      var v := ReadValue(s, eq + 1);
      if v.None? {
        return None;
      }
      ParseStep(lower, s, i, j, eq, v.value, kv);
      kv := kv[lower(s[j..eq]) := v.value.value];
      i := v.value.end;
    }
    return if kv == map[] then None else Some(kv);
  }

  // ------------------------------------------------------------------
  // Printing
  // ------------------------------------------------------------------

  /** A pair to print, with the white space before it. */
  datatype Item = Item(space: string, key: string, value: string, quoted: bool)

  function Escape(v: string): string {
    if v == "" then ""
    else (if v[0] == '\\' || v[0] == '\'' then ['\\', v[0]] else [v[0]]) + Escape(v[1..])
  }

  function Body(x: Item): string {
    if x.quoted then "'" + Escape(x.value) + "'" else x.value
  }

  function Printed(items: seq<Item>, trail: string): string {
    if items == [] then trail
    else items[0].space + items[0].key + "=" + Body(items[0]) + Printed(items[1..], trail)
  }

  ghost predicate AllSeps(s: string) {
    forall i :: 0 <= i < |s| ==> IsSep(s[i])
  }

  ghost predicate NoSeps(s: string) {
    forall i :: 0 <= i < |s| ==> !IsSep(s[i])
  }

  /**
   Keys are non-empty, in lower case, without '=' and not led by white space; bare values
   hold no white space and no leading quote.
   */
  ghost predicate Printable(lower: string -> string, x: Item) {
    && AllSeps(x.space)
    && x.key != "" && !IsSep(x.key[0]) && '=' !in x.key && lower(x.key) == x.key
    && (!x.quoted ==> NoSeps(x.value) && (x.value != "" ==> x.value[0] != '\''))
  }

  /** Every pair is printable and, but for the first, set off by white space. */
  ghost predicate Document(lower: string -> string, items: seq<Item>, trail: string) {
    && AllSeps(trail)
    && (forall i :: 0 <= i < |items| ==> Printable(lower, items[i]))
    && (forall i :: 1 <= i < |items| ==> items[i].space != "")
  }

  function Stored(kv: Pairs, items: seq<Item>): Pairs
    decreases |items|
  {
    if items == [] then kv else Stored(kv[items[0].key := items[0].value], items[1..])
  }

  /** The last value of each key wins. */
  lemma {:induction false} LastValueWins(kv: Pairs, items: seq<Item>, j: nat)
    requires j < |items| && forall k :: j < k < |items| ==> items[k].key != items[j].key
    ensures items[j].key in Stored(kv, items) && Stored(kv, items)[items[j].key] == items[j].value
    decreases |items|
  {
    if j == 0 {
      OtherKeysStay(kv[items[0].key := items[0].value], items[1..], items[0].key);
    } else {
      LastValueWins(kv[items[0].key := items[0].value], items[1..], j - 1);
    }
  }

  lemma {:induction false} OtherKeysStay(kv: Pairs, items: seq<Item>, key: string)
    requires forall k :: 0 <= k < |items| ==> items[k].key != key
    ensures key in Stored(kv, items) <==> key in kv
    ensures key in kv ==> Stored(kv, items)[key] == kv[key]
    decreases |items|
  {
    if items != [] {
      OtherKeysStay(kv[items[0].key := items[0].value], items[1..], key);
    }
  }

  // ------------------------------------------------------------------
  // Round trip
  // ------------------------------------------------------------------

  /** `t` stands in `s` at position `i`. */
  ghost predicate At(s: string, i: nat, t: string) {
    i + |t| <= |s| && forall k :: 0 <= k < |t| ==> s[i + k] == t[k]
  }

  lemma AtSplit(s: string, i: nat, a: string, b: string)
    requires At(s, i, a + b)
    ensures At(s, i, a) && At(s, i + |a|, b)
  {
    assert forall k :: 0 <= k < |a| ==> (a + b)[k] == a[k];
    forall k | 0 <= k < |b| ensures s[i + |a| + k] == b[k] {
      assert (a + b)[|a| + k] == b[k];
    }
  }

  lemma AtFirst(s: string, i: nat, t: string)
    requires At(s, i, t) && t != ""
    ensures i < |s| && s[i] == t[0]
  {
  }

  lemma {:induction false} SkipsExactly(s: string, i: nat, space: string)
    requires At(s, i, space) && AllSeps(space)
    requires i + |space| < |s| ==> !IsSep(s[i + |space|])
    ensures SkipSeps(s, i) == i + |space|
    decreases |space|
  {
    if space != "" {
      AtFirst(s, i, space);
      AtSplit(s, i, space[..1], space[1..]) by {
        assert space == space[..1] + space[1..];
      }
      SkipsExactly(s, i + 1, space[1..]);
    }
  }

  lemma {:induction false} FindsEq(s: string, i: nat, key: string)
    requires At(s, i, key) && '=' !in key && i + |key| < |s| && s[i + |key|] == '='
    ensures FindEq(s, i) == i + |key|
    decreases |key|
  {
    if key != "" {
      AtFirst(s, i, key);
      AtSplit(s, i, key[..1], key[1..]) by {
        assert key == key[..1] + key[1..];
      }
      FindsEq(s, i + 1, key[1..]);
    }
  }

  lemma {:induction false} FindsSep(s: string, i: nat, value: string)
    requires At(s, i, value) && NoSeps(value) && (i + |value| < |s| ==> IsSep(s[i + |value|]))
    ensures FindSep(s, i) == i + |value|
    decreases |value|
  {
    if value != "" {
      AtFirst(s, i, value);
      AtSplit(s, i, value[..1], value[1..]) by {
        assert value == value[..1] + value[1..];
      }
      FindsSep(s, i + 1, value[1..]);
    }
  }

  lemma {:induction false} ReadsEscaped(s: string, i: nat, v: string)
    requires At(s, i, Escape(v)) && i + |Escape(v)| < |s| && s[i + |Escape(v)|] == '\''
    ensures Quoted(s, i) == Some(Read(v, i + |Escape(v)| + 1))
    decreases |v|
  {
    if v != "" {
      var first := if v[0] == '\\' || v[0] == '\'' then ['\\', v[0]] else [v[0]];
      assert Escape(v) == first + Escape(v[1..]);
      AtSplit(s, i, first, Escape(v[1..]));
      ReadsEscaped(s, i + |first|, v[1..]);
      ReadsChar(s, i, v[0], first);
      assert v == [v[0]] + v[1..];
    }
  }

  /** One character of a quoted value, as printed. */
  lemma ReadsChar(s: string, i: nat, c: char, first: string)
    requires first == (if c == '\\' || c == '\'' then ['\\', c] else [c]) && At(s, i, first)
    ensures Quoted(s, i) == Prepend(c, Quoted(s, i + |first|))
  {
    assert s[i + 0] == first[0];
    if |first| == 2 {
      assert s[i + 1] == first[1];
    }
  }

  lemma ReadsValue(s: string, i: nat, x: Item)
    requires At(s, i, Body(x)) && (i + |Body(x)| < |s| ==> IsSep(s[i + |Body(x)|]))
    requires !x.quoted ==> NoSeps(x.value) && (x.value != "" ==> x.value[0] != '\'')
    ensures Value(s, i) == Some(Read(x.value, i + |Body(x)|))
  {
    if x.quoted {
      AtSplit(s, i, "'" + Escape(x.value), "'");
      AtSplit(s, i, "'", Escape(x.value));
      AtFirst(s, i, "'");
      AtFirst(s, i + |"'" + Escape(x.value)|, "'");
      ReadsEscaped(s, i + 1, x.value);
    } else {
      FindsSep(s, i, x.value);
      if x.value != "" {
        AtFirst(s, i, x.value);
      }
      assert s[i..i + |x.value|] == x.value;
    }
  }

  /** What follows a printed pair starts with white space. */
  lemma RestIsSpaced(lower: string -> string, items: seq<Item>, trail: string)
    requires items != [] && Document(lower, items, trail)
    ensures Document(lower, items[1..], trail)
    ensures Printed(items[1..], trail) != "" ==> IsSep(Printed(items[1..], trail)[0])
  {
  }

  /** Where the parts of a printed pair stand. */
  lemma Layout(s: string, i: nat, x: Item, rest: string)
    requires x.key != "" && At(s, i, x.space + x.key + "=" + Body(x) + rest)
    ensures var j := i + |x.space|;
            var eq := j + |x.key|;
            && At(s, i, x.space)
            && At(s, j, x.key) && j < eq < |s| && s[j] == x.key[0] && s[j..eq] == x.key
            && s[eq] == '='
            && At(s, eq + 1, Body(x))
            && At(s, eq + 1 + |Body(x)|, rest)
  {
    AtSplit(s, i, x.space + x.key + "=" + Body(x), rest);
    AtSplit(s, i, x.space + x.key + "=", Body(x));
    AtSplit(s, i, x.space + x.key, "=");
    AtSplit(s, i, x.space, x.key);
    AtFirst(s, i + |x.space|, x.key);
    AtFirst(s, i + |x.space| + |x.key|, "=");
  }

  /** One turn of the outer loop, given what its parts find. */
  lemma ParseStep(lower: string -> string, s: string, i: nat, j: nat, eq: nat, v: Read, kv: Pairs)
    requires i <= j < eq < |s| && SkipSeps(s, i) == j && FindEq(s, j) == eq && Value(s, eq + 1) == Some(v)
    ensures Parse(lower, s, i, kv) == Parse(lower, s, v.end, kv[lower(s[j..eq]) := v.value])
  {
  }

  /** One printed pair is read back. */
  lemma ReadsItem(lower: string -> string, s: string, i: nat, x: Item, rest: string, kv: Pairs)
    requires Printable(lower, x) && (rest != "" ==> IsSep(rest[0]))
    requires At(s, i, x.space + x.key + "=" + Body(x) + rest)
    requires i + |x.space| + |x.key| + 1 + |Body(x)| + |rest| == |s|
    ensures var end := i + |x.space| + |x.key| + 1 + |Body(x)|;
            && At(s, end, rest)
            && Parse(lower, s, i, kv) == Parse(lower, s, end, kv[x.key := x.value])
  {
    var j := i + |x.space|;
    var eq := j + |x.key|;
    var end := eq + 1 + |Body(x)|;
    Layout(s, i, x, rest);
    ReadsKey(lower, s, i, j, eq, x);
    ReadsBody(lower, s, eq + 1, end, x, rest);
    ParseStep(lower, s, i, j, eq, Read(x.value, end), kv);
  }

  lemma ReadsKey(lower: string -> string, s: string, i: nat, j: nat, eq: nat, x: Item)
    requires Printable(lower, x) && j == i + |x.space| && eq == j + |x.key| < |s|
    requires At(s, i, x.space) && At(s, j, x.key) && j < eq && s[j] == x.key[0] && s[eq] == '='
    ensures SkipSeps(s, i) == j && FindEq(s, j) == eq
  {
    SkipsExactly(s, i, x.space);
    FindsEq(s, j, x.key);
  }

  lemma ReadsBody(lower: string -> string, s: string, i: nat, end: nat, x: Item, rest: string)
    requires Printable(lower, x) && end == i + |Body(x)| && end + |rest| == |s|
    requires At(s, i, Body(x)) && At(s, end, rest) && (rest != "" ==> IsSep(rest[0]))
    ensures Value(s, i) == Some(Read(x.value, end))
  {
    if rest != "" {
      AtFirst(s, end, rest);
    }
    ReadsValue(s, i, x);
  }

  lemma PrintedFirst(items: seq<Item>, trail: string)
    requires items != []
    ensures var x, rest := items[0], Printed(items[1..], trail);
            && Printed(items, trail) == x.space + x.key + "=" + Body(x) + rest
            && |Printed(items, trail)| == |x.space| + |x.key| + 1 + |Body(x)| + |rest|
  {
  }

  lemma ReadsFirst(lower: string -> string, s: string, i: nat, items: seq<Item>, trail: string, kv: Pairs)
    returns (end: nat)
    requires items != [] && Document(lower, items, trail)
    requires At(s, i, Printed(items, trail)) && i + |Printed(items, trail)| == |s|
    ensures Document(lower, items[1..], trail)
    ensures At(s, end, Printed(items[1..], trail)) && end + |Printed(items[1..], trail)| == |s|
    ensures Parse(lower, s, i, kv) == Parse(lower, s, end, kv[items[0].key := items[0].value])
  {
    var x, rest := items[0], Printed(items[1..], trail);
    RestIsSpaced(lower, items, trail);
    PrintedFirst(items, trail);
    ReadsItem(lower, s, i, x, rest, kv);
    end := i + |x.space| + |x.key| + 1 + |Body(x)|;
  }

  lemma {:induction false} ReadsItems(lower: string -> string, s: string, i: nat, items: seq<Item>,
                                      trail: string, kv: Pairs)
    requires Document(lower, items, trail)
    requires At(s, i, Printed(items, trail)) && i + |Printed(items, trail)| == |s|
    ensures Parse(lower, s, i, kv) == Some(Stored(kv, items))
    decreases |items|
  {
    if items == [] {
      SkipsExactly(s, i, trail);
    } else {
      var end := ReadsFirst(lower, s, i, items, trail, kv);
      ReadsItems(lower, s, end, items[1..], trail, kv[items[0].key := items[0].value]);
    }
  }

  /** Printing any non-empty list of pairs, however spaced, and parsing it gives the pairs back, last value winning. */
  lemma RoundTrip(lower: string -> string, items: seq<Item>, trail: string)
    requires items != [] && Document(lower, items, trail)
    ensures ParseAll(lower, Printed(items, trail)) == Some(Stored(map[], items))
  {
    var s := Printed(items, trail);
    ReadsItems(lower, s, 0, items, trail, map[]);
    LastValueWins(map[], items, |items| - 1);
    assert items[|items| - 1].key in Stored(map[], items);
  }
}
