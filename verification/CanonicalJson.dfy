/** The canonical text of a JSON document, from which requests are fingerprinted. */
module CanonicalJson {
  import opened Common
  import opened Escapes
  import opened Text

  // ---------- key order ----------

  /** Byte order of UTF-8 strings, which is code-point order. */
  predicate Less(a: string, b: string) {
    b != [] && (a == [] || a[0] < b[0] || (a[0] == b[0] && Less(a[1..], b[1..])))
  }

  lemma {:induction false} LessTotal(a: string, b: string)
    ensures Less(a, b) || a == b || Less(b, a)
  {
    if a != [] && b != [] && a[0] == b[0] {
      LessTotal(a[1..], b[1..]);
      assert a[1..] == b[1..] ==> a == [a[0]] + a[1..] == b;
    }
  }

  lemma {:induction false} LessTransitive(a: string, b: string, c: string)
    requires Less(a, b) && Less(b, c)
    ensures Less(a, c)
  {
    if a != [] && a[0] == b[0] && b[0] == c[0] {
      LessTransitive(a[1..], b[1..], c[1..]);
    }
  }

  lemma {:induction false} LessIrreflexive(a: string)
    ensures !Less(a, a)
  {
    if a != [] {
      LessIrreflexive(a[1..]);
    }
  }

  ghost predicate Sorted(ks: seq<string>) {
    forall i, j :: 0 <= i < j < |ks| ==> Less(ks[i], ks[j])
  }

  /** Two sorted sequences with the same elements are equal. */
  lemma {:induction false} SortedUnique(ks: seq<string>, ls: seq<string>)
    requires Sorted(ks) && Sorted(ls)
    requires forall k :: k in ks <==> k in ls
    ensures ks == ls
  {
    assert forall k :: k in ls ==> k in ks;
    HasElement(ls);
    if ks != [] {
      assert ks[0] in ls && ls[0] in ks by { assert ks[0] in ks; }
      FirstIsLeast(ks, ls[0]);
      FirstIsLeast(ls, ks[0]);
      if ks[0] != ls[0] {
        LessTransitive(ks[0], ls[0], ks[0]);
        LessIrreflexive(ks[0]);
        assert false;
      }
      forall k
        ensures k in ks[1..] <==> k in ls[1..]
      {
        TailDropsFirst(ks, k);
        TailDropsFirst(ls, k);
      }
      SortedUnique(ks[1..], ls[1..]);
      assert ks == [ks[0]] + ks[1..] && ls == [ls[0]] + ls[1..];
    }
  }

  lemma HasElement(ks: seq<string>)
    ensures ks == [] || ks[0] in ks
  {
  }

  lemma FirstIsLeast(ks: seq<string>, k: string)
    requires Sorted(ks) && k in ks
    ensures k == ks[0] || Less(ks[0], k)
  {
    var i :| 0 <= i < |ks| && ks[i] == k;
  }

  lemma TailDropsFirst(ks: seq<string>, k: string)
    requires Sorted(ks) && ks != []
    ensures k in ks[1..] <==> k in ks && k != ks[0]
  {
    LessIrreflexive(ks[0]);
    if k in ks && k != ks[0] {
      var i :| 0 <= i < |ks| && ks[i] == k;
      assert ks[1..][i - 1] == k;
    }
  }

  /** Insert a key that is not yet there. */
  function Insert(k: string, ks: seq<string>): seq<string> {
    if ks == [] || Less(k, ks[0]) then [k] + ks else [ks[0]] + Insert(k, ks[1..])
  }

  lemma {:induction false} InsertSorts(k: string, ks: seq<string>)
    requires Sorted(ks) && k !in ks
    ensures Sorted(Insert(k, ks))
    ensures forall x :: x in Insert(k, ks) <==> x == k || x in ks
  {
    if ks == [] {
    } else if Less(k, ks[0]) {
      forall j | 0 < j < |ks|
        ensures Less(k, ks[j])
      {
        LessTransitive(k, ks[0], ks[j]);
      }
    } else {
      LessTotal(k, ks[0]);
      InsertSorts(k, ks[1..]);
      var rest := Insert(k, ks[1..]);
      assert ks == [ks[0]] + ks[1..];
      forall j | 0 <= j < |rest|
        ensures Less(ks[0], rest[j])
      {
        assert rest[j] in rest;
        if rest[j] != k {
          var i :| 0 <= i < |ks[1..]| && ks[1..][i] == rest[j];
          assert ks[i + 1] == rest[j];
        }
      }
    }
  }

  /** The keys of an object in ascending order. */
  ghost function SortedKeys(s: set<string>): (ks: seq<string>)
    ensures Sorted(ks)
    ensures forall k :: k in ks <==> k in s
  {
    if s == {} then []
    else
      var k :| k in s;
      var rest := SortedKeys(s - {k});
      InsertSorts(k, rest);
      Insert(k, rest)
  }

  /** The texts agree up to `n`, and there `a` ends or has the smaller character. */
  predicate SmallerAt(a: string, b: string, n: nat) {
    n <= |a| && n < |b| && a[..n] == b[..n] && (n == |a| || a[n] < b[n])
  }

  lemma SmallerAtTail(a: string, b: string, n: nat)
    requires a != [] && b != [] && a[0] == b[0]
    ensures SmallerAt(a[1..], b[1..], n) <==> SmallerAt(a, b, n + 1)
  {
    if n <= |a[1..]| && n < |b[1..]| {
      assert a[..n + 1] == [a[0]] + a[1..][..n] && b[..n + 1] == [b[0]] + b[1..][..n];
      assert a[..n + 1][1..] == a[1..][..n] && b[..n + 1][1..] == b[1..][..n];
    }
  }

  /** `a` comes first: it is a proper beginning of `b`, or has the smaller
      character where they first differ. */
  lemma {:induction false} LessExactly(a: string, b: string)
    ensures Less(a, b) <==> exists n: nat :: SmallerAt(a, b, n)
    decreases |a|
  {
    if a != [] && b != [] && a[0] == b[0] {
      LessExactly(a[1..], b[1..]);
      forall n: nat
        ensures SmallerAt(a[1..], b[1..], n) <==> SmallerAt(a, b, n + 1)
      {
        SmallerAtTail(a, b, n);
      }
      if n: nat :| SmallerAt(a, b, n) {
        assert SmallerAt(a[1..], b[1..], n - 1);
      }
    } else {
      assert a != [] && b != [] ==> forall n: nat :: SmallerAt(a, b, n) && n > 0 ==> a[..n][0] == b[..n][0];
      assert b != [] ==> (SmallerAt(a, b, 0) <==> Less(a, b));
    }
  }

  // ---------- the canonical text ----------

  ghost function Canon(printable: char -> bool, v: Value): string
    decreases v, 2
  {
    match v
    case Null => "null"
    case Bool(b) => if b then "true" else "false"
    case Number(token) => token
    case String(s) => Quote(JsonEscape, s)
    case Array(items) => "[" + CanonItems(printable, items) + "]"
    case Object(fields) => "{" + CanonFields(printable, v, SortedKeys(fields.Keys)) + "}"
  }

  ghost function CanonItems(printable: char -> bool, items: seq<Value>): string
    decreases items, 1
  {
    if items == [] then [] else Canon(printable, items[0]) + CanonMoreItems(printable, items[1..])
  }

  /** Items after the first, each behind a comma. */
  ghost function CanonMoreItems(printable: char -> bool, items: seq<Value>): string
    decreases items, 0
  {
    if items == [] then [] else "," + Canon(printable, items[0]) + CanonMoreItems(printable, items[1..])
  }

  ghost function CanonField(printable: char -> bool, v: Value, k: string): string
    requires v.Object? && k in v.fields
    decreases v, 0
  {
    Quote(DebugCode(printable), k) + ":" + Canon(printable, v.fields[k])
  }

  ghost function CanonFields(printable: char -> bool, v: Value, ks: seq<string>): string
    requires v.Object? && forall k :: k in ks ==> k in v.fields
    decreases v, 1, |ks|
  {
    if ks == [] then [] else CanonField(printable, v, ks[0]) + CanonMoreFields(printable, v, ks[1..])
  }

  ghost function CanonMoreFields(printable: char -> bool, v: Value, ks: seq<string>): string
    requires v.Object? && forall k :: k in ks ==> k in v.fields
    decreases v, 1, |ks|
  {
    if ks == [] then [] else "," + CanonField(printable, v, ks[0]) + CanonMoreFields(printable, v, ks[1..])
  }

  // ---------- the text determines the document ----------

  predicate NumberChar(c: char) {
    '0' <= c <= '9' || c in "+-.eE"
  }

  /** Every number carries a token that a JSON number can print. */
  ghost predicate WellFormed(v: Value) {
    match v
    case Number(token) => token != [] && forall c :: c in token ==> NumberChar(c)
    case Array(items) => forall i :: 0 <= i < |items| ==> WellFormed(items[i])
    case Object(fields) => forall k :: k in fields ==> WellFormed(fields[k])
    case _ => true
  }

  ghost predicate AllWellFormed(items: seq<Value>) {
    forall i :: 0 <= i < |items| ==> WellFormed(items[i])
  }

  /** What can follow a value inside a document. */
  predicate Stops(x: string) {
    x == [] || x[0] in ",]}"
  }

  /** The first character of a value's text tells what kind of value it is. */
  lemma FirstChar(printable: char -> bool, v: Value)
    requires WellFormed(v)
    ensures Canon(printable, v) != []
    ensures var c := Canon(printable, v)[0];
            match v
            case Null => c == 'n'
            case Bool(b) => c == if b then 't' else 'f'
            case Number(_) => NumberChar(c)
            case String(_) => c == '\"'
            case Array(_) => c == '['
            case Object(_) => c == '{'
  {
    if v.Number? {
      assert v.token[0] in v.token;
    }
  }

  lemma NumbersUnique(s: string, t: string, x: string, y: string)
    requires forall c :: c in s || c in t ==> NumberChar(c)
    requires Stops(x) && Stops(y) && s + x == t + y
    ensures s == t && x == y
  {
    var l, r := s + x, t + y;
    assert x != [] ==> l[|s|] == x[0] && !NumberChar(x[0]);
    assert y != [] ==> r[|t|] == y[0] && !NumberChar(y[0]);
    assert forall i :: 0 <= i < |s| ==> l[i] in s;
    assert forall i :: 0 <= i < |t| ==> r[i] in t;
    assert |s| == |t|;
    assert l[..|s|] == s && r[..|s|] == t && l[|s|..] == x && r[|s|..] == y;
  }

  /** Equal texts that begin with texts of equal length split alike. */
  lemma Peel(g: string, h: string, l: string, r: string)
    requires g + l == h + r && |g| == |h|
    ensures g == h && l == r
  {
    assert (g + l)[..|g|] == g && (h + r)[..|g|] == h;
    assert (g + l)[|g|..] == l && (h + r)[|g|..] == r;
  }

  /** Texts that start differently differ. */
  lemma SameStart(l: string, r: string)
    requires l == r && l != []
    ensures l[0] == r[0]
  {
  }

  lemma {:induction false} CanonUnique(printable: char -> bool, a: Value, b: Value, x: string, y: string)
    requires WellFormed(a) && WellFormed(b) && Stops(x) && Stops(y)
    requires Canon(printable, a) + x == Canon(printable, b) + y
    ensures a == b && x == y
    decreases a, 3
  {
    FirstChar(printable, a);
    FirstChar(printable, b);
    SameStart(Canon(printable, a) + x, Canon(printable, b) + y);
    match a {
      case Null =>
        Peel("null", "null", x, y);
      case Bool(c) =>
        Peel(Canon(printable, a), Canon(printable, b), x, y);
      case Number(token) =>
        NumbersUnique(token, b.token, x, y);
      case String(s) =>
        JsonEscapeDecodable();
        QuoteUnique(JsonEscape, s, b.s, x, y);
      case Array(items) =>
        ArraysUnique(printable, items, b.items, x, y);
      case Object(fields) =>
        ObjectsUnique(printable, a, b, x, y);
    }
  }

  lemma {:induction false} ArraysUnique(printable: char -> bool, a: seq<Value>, b: seq<Value>, x: string, y: string)
    requires AllWellFormed(a) && AllWellFormed(b)
    requires "[" + CanonItems(printable, a) + "]" + x == "[" + CanonItems(printable, b) + "]" + y
    ensures a == b && x == y
    decreases a, 3
  {
    var s, t := CanonItems(printable, a), CanonItems(printable, b);
    Regroup("[", s, "]", x);
    Regroup("[", t, "]", y);
    Peel("[", "[", s + ("]" + x), t + ("]" + y));
    ItemsUnique(printable, a, b, x, y);
  }

  lemma {:induction false} ObjectsUnique(printable: char -> bool, a: Value, b: Value, x: string, y: string)
    requires a.Object? && b.Object? && WellFormed(a) && WellFormed(b)
    requires "{" + CanonFields(printable, a, SortedKeys(a.fields.Keys)) + "}" + x
          == "{" + CanonFields(printable, b, SortedKeys(b.fields.Keys)) + "}" + y
    ensures a == b && x == y
    decreases a, 2
  {
    var ks, ms := SortedKeys(a.fields.Keys), SortedKeys(b.fields.Keys);
    var s, t := CanonFields(printable, a, ks), CanonFields(printable, b, ms);
    Regroup("{", s, "}", x);
    Regroup("{", t, "}", y);
    Peel("{", "{", s + ("}" + x), t + ("}" + y));
    FieldsUnique(printable, a, b, ks, ms, x, y);
    assert a.fields.Keys == b.fields.Keys;
    assert a.fields == b.fields;
  }

  lemma {:induction false} ItemsUnique(printable: char -> bool, a: seq<Value>, b: seq<Value>, x: string, y: string)
    requires AllWellFormed(a) && AllWellFormed(b)
    requires CanonItems(printable, a) + ("]" + x) == CanonItems(printable, b) + ("]" + y)
    ensures a == b && x == y
    decreases a, 2
  {
    SameStart(CanonItems(printable, a) + ("]" + x), CanonItems(printable, b) + ("]" + y));
    if a != [] {
      FirstChar(printable, a[0]);
    }
    if b != [] {
      FirstChar(printable, b[0]);
    }
    if a == [] {
      Assoc("", "", "]" + x);
      Assoc("", "", "]" + y);
      Peel("]", "]", x, y);
    } else {
      HeadUnique(printable, a, b, "]" + x, "]" + y);
      MoreItemsUnique(printable, a[1..], b[1..], x, y);
      assert a == [a[0]] + a[1..] && b == [b[0]] + b[1..];
    }
  }

  /** The first items, and with them the texts that follow, agree. */
  lemma {:induction false} HeadUnique(printable: char -> bool, a: seq<Value>, b: seq<Value>, x: string, y: string)
    requires a != [] && b != [] && WellFormed(a[0]) && WellFormed(b[0])
    requires x != [] && x[0] == ']' && y != [] && y[0] == ']'
    requires Canon(printable, a[0]) + CanonMoreItems(printable, a[1..]) + x
          == Canon(printable, b[0]) + CanonMoreItems(printable, b[1..]) + y
    ensures a[0] == b[0]
    ensures CanonMoreItems(printable, a[1..]) + x == CanonMoreItems(printable, b[1..]) + y
    decreases a, 0
  {
    var s, t := CanonMoreItems(printable, a[1..]), CanonMoreItems(printable, b[1..]);
    Assoc(Canon(printable, a[0]), s, x);
    Assoc(Canon(printable, b[0]), t, y);
    assert s != [] ==> s[0] == ',';
    assert t != [] ==> t[0] == ',';
    CanonUnique(printable, a[0], b[0], s + x, t + y);
  }

  lemma {:induction false} MoreItemsUnique(printable: char -> bool, a: seq<Value>, b: seq<Value>, x: string, y: string)
    requires AllWellFormed(a) && AllWellFormed(b)
    requires CanonMoreItems(printable, a) + ("]" + x) == CanonMoreItems(printable, b) + ("]" + y)
    ensures a == b && x == y
    decreases a, 1
  {
    SameStart(CanonMoreItems(printable, a) + ("]" + x), CanonMoreItems(printable, b) + ("]" + y));
    if a == [] {
      Assoc("", "", "]" + x);
      Assoc("", "", "]" + y);
      Peel("]", "]", x, y);
    } else {
      var f, g := Canon(printable, a[0]), Canon(printable, b[0]);
      var s, t := CanonMoreItems(printable, a[1..]), CanonMoreItems(printable, b[1..]);
      Regroup(",", f, s, "]" + x);
      Regroup(",", g, t, "]" + y);
      Peel(",", ",", f + (s + ("]" + x)), g + (t + ("]" + y)));
      Assoc(f, s, "]" + x);
      Assoc(g, t, "]" + y);
      HeadUnique(printable, a, b, "]" + x, "]" + y);
      MoreItemsUnique(printable, a[1..], b[1..], x, y);
      assert a == [a[0]] + a[1..] && b == [b[0]] + b[1..];
    }
  }

  lemma {:induction false} FieldUnique(printable: char -> bool, a: Value, b: Value, k: string, m: string,
                                       x: string, y: string)
    requires a.Object? && b.Object? && k in a.fields && m in b.fields
    requires WellFormed(a.fields[k]) && WellFormed(b.fields[m]) && Stops(x) && Stops(y)
    requires CanonField(printable, a, k) + x == CanonField(printable, b, m) + y
    ensures k == m && a.fields[k] == b.fields[m] && x == y
    decreases a, 0
  {
    var code := DebugCode(printable);
    var f, g := Canon(printable, a.fields[k]), Canon(printable, b.fields[m]);
    Regroup(Quote(code, k), ":", f, x);
    Regroup(Quote(code, m), ":", g, y);
    DebugEscapeDecodable(printable);
    QuoteUnique(code, k, m, ":" + (f + x), ":" + (g + y));
    Peel(":", ":", f + x, g + y);
    CanonUnique(printable, a.fields[k], b.fields[m], x, y);
  }

  ghost predicate FieldsIn(v: Value, ks: seq<string>) {
    v.Object? && WellFormed(v) && forall k :: k in ks ==> k in v.fields
  }

  /** The first fields, and with them the texts that follow, agree. */
  lemma {:induction false} HeadFieldUnique(printable: char -> bool, a: Value, b: Value,
                                           ks: seq<string>, ms: seq<string>, x: string, y: string)
    requires FieldsIn(a, ks) && FieldsIn(b, ms) && ks != [] && ms != []
    requires x != [] && x[0] == '}' && y != [] && y[0] == '}'
    requires CanonField(printable, a, ks[0]) + CanonMoreFields(printable, a, ks[1..]) + x
          == CanonField(printable, b, ms[0]) + CanonMoreFields(printable, b, ms[1..]) + y
    ensures ks[0] == ms[0] && a.fields[ks[0]] == b.fields[ks[0]]
    ensures CanonMoreFields(printable, a, ks[1..]) + x == CanonMoreFields(printable, b, ms[1..]) + y
    decreases a, 1, 0
  {
    var s, t := CanonMoreFields(printable, a, ks[1..]), CanonMoreFields(printable, b, ms[1..]);
    Assoc(CanonField(printable, a, ks[0]), s, x);
    Assoc(CanonField(printable, b, ms[0]), t, y);
    assert s != [] ==> s[0] == ',';
    assert t != [] ==> t[0] == ',';
    FieldUnique(printable, a, b, ks[0], ms[0], s + x, t + y);
  }

  lemma {:induction false} FieldsUnique(printable: char -> bool, a: Value, b: Value,
                                        ks: seq<string>, ms: seq<string>, x: string, y: string)
    requires FieldsIn(a, ks) && FieldsIn(b, ms)
    requires CanonFields(printable, a, ks) + ("}" + x) == CanonFields(printable, b, ms) + ("}" + y)
    ensures ks == ms && x == y
    ensures forall k :: k in ks ==> k in b.fields && a.fields[k] == b.fields[k]
    decreases a, 1, |ks| + 1
  {
    SameStart(CanonFields(printable, a, ks) + ("}" + x), CanonFields(printable, b, ms) + ("}" + y));
    if ks == [] {
      Assoc("", "", "}" + x);
      Assoc("", "", "}" + y);
      Peel("}", "}", x, y);
    } else {
      HeadFieldUnique(printable, a, b, ks, ms, "}" + x, "}" + y);
      MoreFieldsUnique(printable, a, b, ks[1..], ms[1..], x, y);
      assert ks == [ks[0]] + ks[1..] && ms == [ms[0]] + ms[1..];
    }
  }

  lemma {:induction false} MoreFieldsUnique(printable: char -> bool, a: Value, b: Value,
                                            ks: seq<string>, ms: seq<string>, x: string, y: string)
    requires FieldsIn(a, ks) && FieldsIn(b, ms)
    requires CanonMoreFields(printable, a, ks) + ("}" + x) == CanonMoreFields(printable, b, ms) + ("}" + y)
    ensures ks == ms && x == y
    ensures forall k :: k in ks ==> k in b.fields && a.fields[k] == b.fields[k]
    decreases a, 1, |ks| + 1
  {
    SameStart(CanonMoreFields(printable, a, ks) + ("}" + x), CanonMoreFields(printable, b, ms) + ("}" + y));
    if ks == [] {
      Assoc("", "", "}" + x);
      Assoc("", "", "}" + y);
      Peel("}", "}", x, y);
    } else {
      var f, g := CanonField(printable, a, ks[0]), CanonField(printable, b, ms[0]);
      var s, t := CanonMoreFields(printable, a, ks[1..]), CanonMoreFields(printable, b, ms[1..]);
      Regroup(",", f, s, "}" + x);
      Regroup(",", g, t, "}" + y);
      Peel(",", ",", f + (s + ("}" + x)), g + (t + ("}" + y)));
      Assoc(f, s, "}" + x);
      Assoc(g, t, "}" + y);
      HeadFieldUnique(printable, a, b, ks, ms, "}" + x, "}" + y);
      MoreFieldsUnique(printable, a, b, ks[1..], ms[1..], x, y);
      assert ks == [ks[0]] + ks[1..] && ms == [ms[0]] + ms[1..];
    }
  }

  /** Two documents have the same canonical text exactly when they are equal
      with objects read as unordered maps. */
  lemma CanonExact(printable: char -> bool, a: Value, b: Value)
    requires WellFormed(a) && WellFormed(b)
    ensures Canon(printable, a) == Canon(printable, b) <==> a == b
  {
    if Canon(printable, a) == Canon(printable, b) {
      assert Canon(printable, a) + "" == Canon(printable, b) + "";
      CanonUnique(printable, a, b, "", "");
    }
  }

  // ---------- how the text is laid out ----------

  ghost function Texts(printable: char -> bool, items: seq<Value>): (ts: seq<string>)
    ensures |ts| == |items| && forall i :: 0 <= i < |ts| ==> ts[i] == Canon(printable, items[i])
  {
    seq(|items|, i requires 0 <= i < |items| => Canon(printable, items[i]))
  }

  lemma {:induction false} ItemsJoined(printable: char -> bool, items: seq<Value>)
    ensures CanonItems(printable, items) == Join(Texts(printable, items), ',')
    ensures items != [] ==> CanonMoreItems(printable, items) == "," + Join(Texts(printable, items), ',')
    decreases |items|
  {
    if items != [] {
      var ts := Texts(printable, items);
      ItemsJoined(printable, items[1..]);
      assert ts[1..] == Texts(printable, items[1..]);
      if |items| > 1 {
        Assoc(ts[0], ",", Join(ts[1..], ','));
      } else {
        assert ts[0] + "" == ts[0];
      }
      Assoc(",", ts[0], CanonMoreItems(printable, items[1..]));
    }
  }

  ghost function FieldTexts(printable: char -> bool, v: Value, ks: seq<string>): (ts: seq<string>)
    requires v.Object? && forall k :: k in ks ==> k in v.fields
    ensures |ts| == |ks|
    ensures forall i :: 0 <= i < |ts| ==>
              ts[i] == Quote(DebugCode(printable), ks[i]) + ":" + Canon(printable, v.fields[ks[i]])
  {
    seq(|ks|, i requires 0 <= i < |ks| => CanonField(printable, v, ks[i]))
  }

  lemma {:induction false} FieldsJoined(printable: char -> bool, v: Value, ks: seq<string>)
    requires v.Object? && forall k :: k in ks ==> k in v.fields
    ensures CanonFields(printable, v, ks) == Join(FieldTexts(printable, v, ks), ',')
    ensures ks != [] ==> CanonMoreFields(printable, v, ks) == "," + Join(FieldTexts(printable, v, ks), ',')
    decreases |ks|
  {
    if ks != [] {
      var ts := FieldTexts(printable, v, ks);
      FieldsJoined(printable, v, ks[1..]);
      assert ts[1..] == FieldTexts(printable, v, ks[1..]);
      if |ks| > 1 {
        Assoc(ts[0], ",", Join(ts[1..], ','));
      } else {
        assert ts[0] + "" == ts[0];
      }
      Assoc(",", ts[0], CanonMoreFields(printable, v, ks[1..]));
    }
  }

  /** The text of each kind of document: brackets and braces around the texts
      of its parts, separated by commas, keys quoted and in ascending order. */
  lemma CanonLayout(printable: char -> bool, v: Value)
    ensures match v
            case Null => Canon(printable, v) == "null"
            case Bool(b) => Canon(printable, v) == if b then "true" else "false"
            case Number(token) => Canon(printable, v) == token
            case String(s) => Canon(printable, v) == "\"" + EscapeAll(JsonEscape, s) + "\""
            case Array(items) => Canon(printable, v) == "[" + Join(Texts(printable, items), ',') + "]"
            case Object(fields) =>
              exists ks :: && Sorted(ks) && (forall k :: k in ks <==> k in fields)
                           && Canon(printable, v) == "{" + Join(FieldTexts(printable, v, ks), ',') + "}"
  {
    match v {
      case Array(items) => ItemsJoined(printable, items);
      case Object(fields) => FieldsJoined(printable, v, SortedKeys(fields.Keys));
      case _ =>
    }
  }
}
