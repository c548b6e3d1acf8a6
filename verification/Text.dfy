/** Splitting text at separators. */
module Text {

  /** The position of the first separator, or the length when there is none. */
  function Find(s: string, sep: char): (i: nat)
    ensures i <= |s| && sep !in s[..i]
    ensures i < |s| ==> s[i] == sep
  {
    if s == [] || s[0] == sep then 0
    else
      var i := Find(s[1..], sep);
      assert s[..i + 1] == [s[0]] + s[1..][..i];
      i + 1
  }

  function Before(s: string, sep: char): (p: string)
    ensures sep !in p
  {
    s[..Find(s, sep)]
  }

  function After(s: string, sep: char): string
  {
    if Find(s, sep) < |s| then s[Find(s, sep) + 1..] else []
  }

  /** The pieces between separators, as `str::split` yields them. */
  function Split(s: string, sep: char): (ps: seq<string>)
    ensures ps != []
    ensures forall i :: 0 <= i < |ps| ==> sep !in ps[i]
    decreases |s|
  {
    if Find(s, sep) == |s| then
      assert s[..|s|] == s;
      [s]
    else [Before(s, sep)] + Split(After(s, sep), sep)
  }

  lemma FindJoin(a: string, sep: char, x: string)
    requires sep !in a
    ensures Find(a + [sep] + x, sep) == |a|
    ensures Before(a + [sep] + x, sep) == a && After(a + [sep] + x, sep) == x
  {
    var s := a + [sep] + x;
    var i := Find(s, sep);
    assert s[|a|] == sep;
    assert forall j :: 0 <= j < |a| ==> s[j] in a;
    assert forall j :: 0 <= j < i ==> s[j] in s[..i];
    assert s[..|a|] == a && s[|a| + 1..] == x;
  }

  /** The pieces with a separator between them. */
  function Join(ps: seq<string>, sep: char): string {
    if |ps| == 0 then []
    else if |ps| == 1 then ps[0]
    else ps[0] + [sep] + Join(ps[1..], sep)
  }

  lemma SplitOne(a: string, sep: char)
    requires sep !in a
    ensures Split(a, sep) == [a]
  {
    FindNothing(a, sep);
  }

  lemma SplitFirst(a: string, sep: char, x: string)
    requires sep !in a
    ensures Split(a + [sep] + x, sep) == [a] + Split(x, sep)
  {
    FindJoin(a, sep, x);
  }

  lemma {:induction false} SplitInvertsJoin(ps: seq<string>, sep: char)
    requires ps != [] && forall i :: 0 <= i < |ps| ==> sep !in ps[i]
    ensures Split(Join(ps, sep), sep) == ps
    decreases |ps|
  {
    if |ps| == 1 {
      SplitOne(ps[0], sep);
    } else {
      SplitFirst(ps[0], sep, Join(ps[1..], sep));
      SplitInvertsJoin(ps[1..], sep);
      assert ps == [ps[0]] + ps[1..];
    }
  }

  lemma FindSplits(s: string, sep: char)
    requires sep in s
    ensures s == Before(s, sep) + [sep] + After(s, sep)
  {
    var i := Find(s, sep);
    assert i < |s| by {
      assert s[..|s|] == s;
    }
    assert s == s[..i] + [s[i]] + s[i + 1..];
  }

  /** Every text is the join of its pieces. */
  lemma {:induction false} JoinInvertsSplit(s: string, sep: char)
    ensures Join(Split(s, sep), sep) == s
    decreases |s|
  {
    if Find(s, sep) < |s| {
      var ps := Split(s, sep);
      FindSplits(s, sep);
      JoinInvertsSplit(After(s, sep), sep);
      assert ps[1..] == Split(After(s, sep), sep);
    }
  }

  lemma FindNothing(a: string, sep: char)
    requires sep !in a
    ensures Find(a, sep) == |a|
  {
    assert forall j :: 0 <= j < |a| ==> a[j] in a;
  }

  /** A text in front of its first separator can be told from what follows. */
  lemma JoinInjective(sep: char, a: string, b: string, x: string, y: string)
    requires sep !in a && sep !in b
    ensures a + [sep] + x == b + [sep] + y <==> a == b && x == y
  {
    var l, r := a + [sep] + x, b + [sep] + y;
    if l == r {
      assert l[|a|] == sep && r[|b|] == sep;
      assert forall i :: 0 <= i < |a| ==> l[i] in a;
      assert forall i :: 0 <= i < |b| ==> r[i] in b;
      assert |a| == |b|;
      assert l[..|a|] == a && r[..|b|] == b;
      assert l[|a| + 1..] == x && r[|b| + 1..] == y;
    }
  }

  lemma Assoc(a: string, b: string, c: string)
    ensures (a + b) + c == a + (b + c)
    ensures "" + c == c
  {
  }

  lemma Regroup(a: string, b: string, c: string, d: string)
    ensures (a + b + c) + d == a + (b + (c + d))
  {
    Assoc(a, b, c);
    Assoc(a, b + c, d);
    Assoc(b, c, d);
  }

  lemma Prepend(a: string, b: string, c: string, d: string)
    ensures a + b + c + d == a + (b + c + d)
    ensures a + "" == a && "" + c == c
  {
    Assoc(a, b, c);
    Assoc(a, b + c, d);
  }
}
