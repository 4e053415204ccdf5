/**
 * The JavaScript string built-ins the core relies on, written out on `seq<char>`:
 * `toLowerCase` (ASCII letters only), `includes`, `indexOf` of one character,
 * `replace` with a one-character pattern (first occurrence only) and `split`
 * on one separator character, with `join` as its inverse.
 */
module JsStrings {

  /** One character as `toLowerCase` maps it, for the ASCII range. */
  function LowerChar(c: char): char
  {
    if 'A' <= c <= 'Z' then (c as int + 32) as char else c
  }

  /** `s.toLowerCase()`: same length, every character lowered, nothing else touched. */
  function ToLower(s: string): (r: string)
    ensures |r| == |s|
    ensures forall i :: 0 <= i < |s| ==> r[i] == LowerChar(s[i])
    decreases |s|
  {
    if s == [] then [] else [LowerChar(s[0])] + ToLower(s[1..])
  }

  /** A string none of whose characters `toLowerCase` would change. */
  predicate IsLower(s: string)
  {
    forall i :: 0 <= i < |s| ==> LowerChar(s[i]) == s[i]
  }

  /** Lower-casing twice is lower-casing once. */
  lemma ToLowerIdempotent(s: string)
    ensures IsLower(ToLower(s))
    ensures ToLower(ToLower(s)) == ToLower(s)
  {
    var t := ToLower(s);
    forall i | 0 <= i < |t| ensures LowerChar(t[i]) == t[i] {
      assert t[i] == LowerChar(s[i]);
    }
  }

  /** `sub` occurs in `s` starting at index `i`. */
  predicate OccursAt(s: string, sub: string, i: int)
  {
    0 <= i && i + |sub| <= |s| && s[i..i + |sub|] == sub
  }

  /** `s.includes(sub)`, scanning from the left. */
  function Includes(s: string, sub: string): (r: bool)
    ensures sub <= s ==> r
    ensures r ==> |sub| <= |s|
    decreases |s|
  {
    if sub <= s then true
    else if s == [] then false
    else Includes(s[1..], sub)
  }

  /** The scan agrees with the positional definition of "occurs somewhere". */
  lemma {:induction false} IncludesIffOccurs(s: string, sub: string)
    ensures Includes(s, sub) <==> exists i :: OccursAt(s, sub, i)
    decreases |s|
  {
    if sub <= s {
      assert OccursAt(s, sub, 0);
    } else if s == [] {
      assert |sub| > 0;
    } else {
      IncludesIffOccurs(s[1..], sub);
      if exists i :: OccursAt(s[1..], sub, i) {
        var i :| OccursAt(s[1..], sub, i);
        assert s[1..][i..i + |sub|] == s[i + 1..i + 1 + |sub|];
        assert OccursAt(s, sub, i + 1);
      }
      if exists i :: OccursAt(s, sub, i) {
        var i :| OccursAt(s, sub, i);
        if i > 0 {
          assert s[1..][i - 1..i - 1 + |sub|] == s[i..i + |sub|];
          assert OccursAt(s[1..], sub, i - 1);
        }
      }
    }
  }

  /** A lower-case pattern found in `s` is found in `s.toLowerCase()` too. */
  lemma IncludesSurvivesLowering(s: string, sub: string)
    requires IsLower(sub)
    requires Includes(s, sub)
    ensures Includes(ToLower(s), sub)
  {
    IncludesIffOccurs(s, sub);
    var i :| OccursAt(s, sub, i);
    var t := ToLower(s);
    forall j | 0 <= j < |sub| ensures t[i..i + |sub|][j] == sub[j] {
      assert s[i + j] == sub[j];
    }
    assert OccursAt(t, sub, i);
    IncludesIffOccurs(t, sub);
  }

  /** `s.indexOf(c)`, except that a miss gives `|s|` rather than -1. */
  function IndexOf(s: string, c: char): (k: nat)
    ensures k <= |s|
    ensures k < |s| ==> s[k] == c
    ensures forall j :: 0 <= j < k ==> s[j] != c
    ensures k == |s| <==> c !in s
    decreases |s|
  {
    if s == [] then 0
    else if s[0] == c then 0
    else 1 + IndexOf(s[1..], c)
  }

  /** The text before the first `c` holds no `c`. */
  lemma IndexOfPrefix(s: string, c: char)
    ensures c !in s[..IndexOf(s, c)]
  {
    var k := IndexOf(s, c);
    forall x | 0 <= x < k ensures s[..k][x] != c {
      assert s[..k][x] == s[x];
    }
  }

  /** The first `c` in `a + [c] + b` is the one right after `a` when `a` has none. */
  lemma IndexOfAfter(a: string, c: char, b: string)
    requires c !in a
    ensures IndexOf(a + [c] + b, c) == |a|
  {
    var s := a + [c] + b;
    var k := IndexOf(s, c);
    assert s[|a|] == c;
    assert s[..|a|] == a;
  }

  /** The first `c` of `a + b` is the first of `a` if `a` has one, else the first of `b` shifted by `|a|`. */
  lemma {:induction false} IndexOfConcat(a: string, b: string, c: char)
    ensures IndexOf(a + b, c) == if c in a then IndexOf(a, c) else |a| + IndexOf(b, c)
    decreases |a|
  {
    if a == [] {
      assert a + b == b;
    } else {
      assert (a + b)[1..] == a[1..] + b;
      IndexOfConcat(a[1..], b, c);
    }
  }

  /** `s.replace(c, '')` for a one-character pattern: only the FIRST `c` goes. */
  function RemoveFirst(s: string, c: char): (r: string)
    ensures c !in s ==> r == s
    ensures c in s ==> |r| == |s| - 1
    ensures c in s ==> forall i :: 0 <= i < IndexOf(s, c) ==> r[i] == s[i]
    ensures c in s ==> forall i :: IndexOf(s, c) <= i < |r| ==> r[i] == s[i + 1]
  {
    var k := IndexOf(s, c);
    if k == |s| then s else s[..k] + s[k + 1..]
  }

  /** `s.split(sep)` for a one-character separator. */
  function Split(s: string, sep: char): (parts: seq<string>)
    ensures |parts| >= 1
    ensures forall i :: 0 <= i < |parts| ==> sep !in parts[i]
    decreases |s|
  {
    var k := IndexOf(s, sep);
    if k == |s| then [s] else [s[..k]] + Split(s[k + 1..], sep)
  }

  /** The first part is the text before the first separator (all of `s` when there is none). */
  lemma SplitHead(s: string, sep: char)
    ensures Split(s, sep)[0] == s[..IndexOf(s, sep)]
  {
  }

  /** With a separator present, the second part is the text after the first separator, up to the next one. */
  lemma SplitFirstTwo(s: string, sep: char)
    requires sep in s
    ensures var tail := s[IndexOf(s, sep) + 1..];
      && |Split(s, sep)| >= 2
      && Split(s, sep)[0] == s[..IndexOf(s, sep)]
      && Split(s, sep)[1] == tail[..IndexOf(tail, sep)]
  {
    var tail := s[IndexOf(s, sep) + 1..];
    SplitHead(tail, sep);
  }

  /** `parts.join(sep)`. */
  function Join(parts: seq<string>, sep: char): string
    requires |parts| >= 1
  {
    if |parts| == 1 then parts[0] else parts[0] + [sep] + Join(parts[1..], sep)
  }

  /** One step of `Split`: the text up to the first separator, then the split of the rest. */
  lemma SplitStep(s: string, sep: char)
    requires sep in s
    ensures var k := IndexOf(s, sep);
      && Split(s, sep) == [s[..k]] + Split(s[k + 1..], sep)
      && s == s[..k] + [sep] + s[k + 1..]
  {
    var k := IndexOf(s, sep);
    assert s == s[..k] + [s[k]] + s[k + 1..];
  }

  /** Splitting loses nothing: joining the parts back gives the original text. */
  lemma {:induction false} SplitThenJoin(s: string, sep: char)
    ensures Join(Split(s, sep), sep) == s
    decreases |s|
  {
    if sep in s {
      var k := IndexOf(s, sep);
      SplitStep(s, sep);
      var parts := Split(s, sep);
      assert parts[1..] == Split(s[k + 1..], sep);
      SplitThenJoin(s[k + 1..], sep);
    }
  }

  /** Text free of the separator, then the separator, splits into that text and the split of the rest. */
  lemma SplitAfterFirst(first: string, sep: char, rest: string)
    requires sep !in first
    ensures Split(first + [sep] + rest, sep) == [first] + Split(rest, sep)
  {
    var s := first + [sep] + rest;
    IndexOfAfter(first, sep, rest);
    assert s[..|first|] == first;
    assert s[|first| + 1..] == rest;
  }

  /** Parts free of the separator are exactly what splitting their join gives back. */
  lemma {:induction false} JoinThenSplit(parts: seq<string>, sep: char)
    requires |parts| >= 1
    requires forall i :: 0 <= i < |parts| ==> sep !in parts[i]
    ensures Split(Join(parts, sep), sep) == parts
    decreases |parts|
  {
    if |parts| == 1 {
      assert IndexOf(parts[0], sep) == |parts[0]|;
    } else {
      var rest := Join(parts[1..], sep);
      assert Join(parts, sep) == parts[0] + [sep] + rest;
      SplitAfterFirst(parts[0], sep, rest);
      JoinThenSplit(parts[1..], sep);
      assert parts == [parts[0]] + parts[1..];
    }
  }
}
