/** Text helpers shared by the emitters: `whiteSpace`, upper-casing, the dot-mangling of
    `replaceAll("\\.", "_")`, joining, and a model of Java's `StringBuilder`. */
module Text {

  /** `whiteSpace(num)`: `num` blanks. */
  function WhiteSpace(n: nat): (r: string)
    ensures |r| == n
    ensures forall i :: 0 <= i < n ==> r[i] == ' '
  {
    if n == 0 then "" else " " + WhiteSpace(n - 1)
  }

  /** The shape of almost every appended piece: `String.format("\n%s<text>", whiteSpace(indent))`. */
  function Line(indent: nat, text: string): string {
    "\n" + WhiteSpace(indent) + text
  }

  /** The characters of a line: newline, `indent` blanks, then the text. */
  lemma LineChars(indent: nat, text: string)
    ensures |Line(indent, text)| == 1 + indent + |text|
    ensures Line(indent, text)[0] == '\n'
    ensures forall i :: 1 <= i <= indent ==> Line(indent, text)[i] == ' '
    ensures forall j :: 0 <= j < |text| ==> Line(indent, text)[1 + indent + j] == text[j]
  {
  }

  /** Two lines whose texts do not start with a blank are equal only if indent and text are. */
  lemma LineInjective(i: nat, t: string, j: nat, u: string)
    requires t != [] && t[0] != ' ' && u != [] && u[0] != ' '
    requires Line(i, t) == Line(j, u)
    ensures i == j && t == u
  {
    var a, b := Line(i, t), Line(j, u);
    assert a[1 + i] == t[0];
    assert b[1 + j] == u[0];
    assert t == a[1 + i..];
    assert u == b[1 + j..];
  }

  /** ASCII upper-casing of one character (Java's `toUpperCase` restricted to ASCII). */
  function UpperChar(c: char): char {
    if 'a' <= c <= 'z' then (c as int - 32) as char else c
  }

  /** `String.toUpperCase()` on ASCII text. */
  function Upper(s: string): (r: string)
    ensures |r| == |s|
    ensures forall i :: 0 <= i < |s| ==> r[i] == UpperChar(s[i])
  {
    if s == [] then [] else [UpperChar(s[0])] + Upper(s[1..])
  }

  /** `replaceAll("\\.", "_")`: the regular expression `\.` matches a literal dot. */
  function ReplaceDots(s: string): (r: string)
    ensures |r| == |s|
    ensures forall i :: 0 <= i < |s| ==> r[i] == if s[i] == '.' then '_' else s[i]
  {
    if s == [] then [] else [if s[0] == '.' then '_' else s[0]] + ReplaceDots(s[1..])
  }

  /** Upper-casing and dot-mangling commute, so `toUpperCase().replaceAll(..)` (used for category
      names) and `replaceAll(..).toUpperCase()` (used for config names) mangle alike. */
  lemma UpperReplaceDotsCommute(s: string)
    ensures Upper(ReplaceDots(s)) == ReplaceDots(Upper(s))
    ensures '.' !in Upper(ReplaceDots(s))
  {
    var a, b := Upper(ReplaceDots(s)), ReplaceDots(Upper(s));
    assert |a| == |b|;
    forall i | 0 <= i < |s| ensures a[i] == b[i] && a[i] != '.' {
      assert a[i] == UpperChar(ReplaceDots(s)[i]);
    }
  }

  /** `String.replace("\\.", "_")`: a LITERAL replace of the two characters backslash-dot. */
  function ReplaceBackslashDot(s: string): (r: string)
    ensures |r| <= |s|
  {
    if |s| < 2 then s
    else if s[0] == '\\' && s[1] == '.' then "_" + ReplaceBackslashDot(s[2..])
    else [s[0]] + ReplaceBackslashDot(s[1..])
  }

  /** A name without a backslash passes through `replace("\\.", "_")` unchanged: on a class's
      simple name the call has no effect. */
  lemma {:induction false} ReplaceBackslashDotIdentity(s: string)
    requires '\\' !in s
    ensures ReplaceBackslashDot(s) == s
  {
    if |s| >= 2 {
      assert s[0] in s;
      assert '\\' !in s[1..];
      ReplaceBackslashDotIdentity(s[1..]);
      assert s == [s[0]] + s[1..];
    }
  }

  /** `StringUtils.join(xs, sep)`. */
  function Join(xs: seq<string>, sep: string): string {
    if xs == [] then ""
    else if |xs| == 1 then xs[0]
    else Join(xs[..|xs| - 1], sep) + sep + xs[|xs| - 1]
  }

  /** The text of a buffer: the concatenation of its appended pieces. */
  function Concat(pieces: seq<string>): string {
    if pieces == [] then "" else Concat(pieces[..|pieces| - 1]) + pieces[|pieces| - 1]
  }

  lemma AppendAssoc<T>(x: seq<T>, a: seq<T>, b: seq<T>)
    ensures x + a + b == x + (a + b)
  {
  }

  /** Four appends in a row add their concatenation. */
  lemma AppendFour<T>(x: seq<T>, a: seq<T>, b: seq<T>, c: seq<T>, d: seq<T>)
    ensures x + a + b + c + d == x + (a + b + c + d)
  {
  }

  lemma AppendFive<T>(x: seq<T>, a: seq<T>, b: seq<T>, c: seq<T>, d: seq<T>, e: seq<T>)
    ensures x + a + b + c + d + e == x + (a + b + c + d + e)
  {
  }

  /** The pieces `f(x)` of the elements `x` of `xs`, one after another. */
  function ConcatMap<T, U>(f: T --> seq<U>, xs: seq<T>): seq<U>
    requires forall i :: 0 <= i < |xs| ==> f.requires(xs[i])
  {
    if xs == [] then [] else ConcatMap(f, xs[..|xs| - 1]) + f(xs[|xs| - 1])
  }

  lemma ConcatMapSnoc<T, U>(f: T --> seq<U>, xs: seq<T>, x: T)
    requires forall i :: 0 <= i < |xs| ==> f.requires(xs[i])
    requires f.requires(x)
    ensures ConcatMap(f, xs + [x]) == ConcatMap(f, xs) + f(x)
  {
    assert (xs + [x])[..|xs|] == xs;
  }

  lemma {:induction false} ConcatMapAppend<T, U>(f: T --> seq<U>, xs: seq<T>, ys: seq<T>)
    requires forall i :: 0 <= i < |xs| ==> f.requires(xs[i])
    requires forall i :: 0 <= i < |ys| ==> f.requires(ys[i])
    ensures ConcatMap(f, xs + ys) == ConcatMap(f, xs) + ConcatMap(f, ys)
    decreases |ys|
  {
    if ys == [] {
      assert xs + ys == xs;
    } else {
      var ys', y := ys[..|ys| - 1], ys[|ys| - 1];
      assert (xs + ys)[..|xs + ys| - 1] == xs + ys' && (xs + ys)[|xs + ys| - 1] == y;
      ConcatMapAppend(f, xs, ys');
      AppendAssoc(ConcatMap(f, xs), ConcatMap(f, ys'), f(y));
    }
  }

  /** The pieces of element `i` sit whole between those of the elements before and after it. */
  lemma ConcatMapSplit<T, U>(f: T --> seq<U>, xs: seq<T>, i: nat)
    requires forall k :: 0 <= k < |xs| ==> f.requires(xs[k])
    requires i < |xs|
    ensures ConcatMap(f, xs) == ConcatMap(f, xs[..i]) + f(xs[i]) + ConcatMap(f, xs[i + 1..])
  {
    var front, back := xs[..i + 1], xs[i + 1..];
    assert xs == front + back;
    assert front[..i] == xs[..i] && front[i] == xs[i];
    assert ConcatMap(f, front) == ConcatMap(f, xs[..i]) + f(xs[i]);
    ConcatMapAppend(f, front, back);
  }

  /** The pieces of an earlier element come whole before those of a later one. */
  lemma ConcatMapOrder<T, U>(f: T --> seq<U>, xs: seq<T>, i: nat, j: nat)
    requires forall k :: 0 <= k < |xs| ==> f.requires(xs[k])
    requires i < j < |xs|
    ensures ConcatMap(f, xs) ==
      ConcatMap(f, xs[..i]) + f(xs[i]) + ConcatMap(f, xs[i + 1..j]) + f(xs[j]) + ConcatMap(f, xs[j + 1..])
  {
    var front := xs[..j];
    ConcatMapSplit(f, xs, j);
    ConcatMapSplit(f, front, i);
    assert front[..i] == xs[..i] && front[i] == xs[i] && front[i + 1..] == xs[i + 1..j];
  }

  /** Whatever the pieces of one element hold, the whole holds. */
  lemma ConcatMapHas<T, U>(f: T --> seq<U>, xs: seq<T>, i: nat, u: U)
    requires forall k :: 0 <= k < |xs| ==> f.requires(xs[k])
    requires i < |xs| && u in f(xs[i])
    ensures u in ConcatMap(f, xs)
  {
    ConcatMapSplit(f, xs, i);
  }

  /** Whatever the whole holds comes from the pieces of one element. */
  lemma {:induction false} ConcatMapFrom<T, U>(f: T --> seq<U>, xs: seq<T>, u: U) returns (i: nat)
    requires forall k :: 0 <= k < |xs| ==> f.requires(xs[k])
    requires u in ConcatMap(f, xs)
    ensures i < |xs| && u in f(xs[i])
  {
    var n := |xs| - 1;
    if u in f(xs[n]) {
      i := n;
    } else {
      i := ConcatMapFrom(f, xs[..n], u);
      assert xs[..n][i] == xs[i];
    }
  }

  /** Concatenation of a sequence of sequences. */
  function Flatten<T>(ss: seq<seq<T>>): seq<T> {
    if ss == [] then [] else Flatten(ss[..|ss| - 1]) + ss[|ss| - 1]
  }

  lemma {:induction false} FlattenAppend<T>(a: seq<seq<T>>, b: seq<seq<T>>)
    ensures Flatten(a + b) == Flatten(a) + Flatten(b)
    decreases |b|
  {
    if b == [] {
      assert a + b == a;
    } else {
      var b', x := b[..|b| - 1], b[|b| - 1];
      assert (a + b)[..|a + b| - 1] == a + b' && (a + b)[|a + b| - 1] == x;
      FlattenAppend(a, b');
      AppendAssoc(Flatten(a), Flatten(b'), x);
    }
  }

  /** Every piece of a member of `ss` is a piece of `Flatten(ss)`. */
  lemma {:induction false} FlattenContains<T>(ss: seq<seq<T>>, i: nat, x: T)
    requires i < |ss| && x in ss[i]
    ensures x in Flatten(ss)
  {
    if i < |ss| - 1 {
      FlattenContains(ss[..|ss| - 1], i, x);
    }
  }

  /** No element occurs twice. */
  predicate NoDup<T(==)>(s: seq<T>) {
    forall i, j :: 0 <= i < j < |s| ==> s[i] != s[j]
  }

  /** Extending a sequence and one of its suffixes by the same element keeps the suffix relation. */
  lemma SuffixSnoc<T>(c: seq<T>, o: seq<T>, x: T)
    requires |o| <= |c| && o == c[|c| - |o|..]
    ensures o + [x] == (c + [x])[|c + [x]| - |o + [x]|..]
    ensures |o| < |c| ==> (c + [x])[|c + [x]| - |o + [x]| - 1] == c[|c| - |o| - 1]
  {
  }

  lemma NoDupSuffix<T>(s: seq<T>, k: nat)
    requires NoDup(s) && k <= |s|
    ensures NoDup(s[k..])
  {
    forall i, j | 0 <= i < j < |s| - k ensures s[k..][i] != s[k..][j] {
      assert s[k..][i] == s[k + i] && s[k..][j] == s[k + j];
    }
  }

  lemma NoDupConcat<T>(a: seq<T>, b: seq<T>)
    requires NoDup(a) && NoDup(b) && forall i, j :: 0 <= i < |a| && 0 <= j < |b| ==> a[i] != b[j]
    ensures NoDup(a + b)
  {
    forall i, j | 0 <= i < j < |a + b| ensures (a + b)[i] != (a + b)[j] {
      if j < |a| {
      } else if i >= |a| {
        assert (a + b)[i] == b[i - |a|] && (a + b)[j] == b[j - |a|];
      } else {
        assert (a + b)[j] == b[j - |a|];
      }
    }
  }

  /** `List.remove(Object)`: removes the first occurrence, if any. */
  function RemoveFirst<T(==)>(s: seq<T>, x: T): (r: seq<T>)
    ensures x !in s ==> r == s
    ensures x in s ==> |r| == |s| - 1
  {
    if s == [] then []
    else if s[0] == x then s[1..]
    else [s[0]] + RemoveFirst(s[1..], x)
  }

  /** On a list without duplicates, `RemoveFirst` removes exactly `x` and adds no duplicate. */
  lemma {:induction false} RemoveFirstNoDup<T>(s: seq<T>, x: T)
    requires NoDup(s)
    ensures NoDup(RemoveFirst(s, x))
    ensures forall y :: y in RemoveFirst(s, x) <==> y in s && y != x
  {
    if s != [] {
      NoDupSuffix(s, 1);
      if s[0] == x {
        forall y | y in s[1..] ensures y != x {
          var k :| 0 <= k < |s[1..]| && s[1..][k] == y;
          assert s[k + 1] == y;
        }
      } else {
        RemoveFirstNoDup(s[1..], x);
        var r := RemoveFirst(s[1..], x);
        assert forall y :: y in r <==> y in s[1..] && y != x;
        forall k | 0 <= k < |s| - 1 ensures s[1..][k] != s[0] {
          assert s[1..][k] == s[k + 1];
        }
        forall i, j | 0 <= i < |[s[0]]| && 0 <= j < |r| ensures [s[0]][i] != r[j] {
          assert r[j] in r;
        }
        NoDupConcat([s[0]], r);
        assert s == [s[0]] + s[1..];
      }
    }
  }

  /** A model of `StringBuilder`: the pieces appended so far. */
  class TextBuffer {
    var pieces: seq<string>

    constructor ()
      ensures pieces == []
    {
      pieces := [];
    }

    /** `sb.append(s)`. */
    method Append(s: string)
      modifies this
      ensures pieces == old(pieces) + [s]
    {
      pieces := pieces + [s];
    }

    /** `sb.append(t)` where `t` is itself the text of a sequence of pieces. */
    method AppendAll(s: seq<string>)
      modifies this
      ensures pieces == old(pieces) + s
    {
      pieces := pieces + s;
    }

    /** `sb.toString()`. */
    function ToString(): string
      reads this
    {
      Concat(pieces)
    }
  }
}
