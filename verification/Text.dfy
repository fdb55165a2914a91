/** The string operations the runtime leans on: Go's strings.TrimSpace, lower-casing and
    byte-wise string order, together with sorting a set of identifiers. */
module Text {

  /** unicode.IsSpace: the characters strings.TrimSpace removes. */
  predicate IsSpace(c: char) {
    || '\t' <= c <= '\r'
    || c == ' '
    || c == '\U{0085}'
    || c == '\U{00A0}'
    || c == '\U{1680}'
    || '\U{2000}' <= c <= '\U{200a}'
    || c == '\U{2028}'
    || c == '\U{2029}'
    || c == '\U{202f}'
    || c == '\U{205f}'
    || c == '\U{3000}'
  }

  /** Nothing to trim at either end. */
  predicate Trimmed(s: string) {
    s == "" || (!IsSpace(s[0]) && !IsSpace(s[|s| - 1]))
  }

  function TrimLeft(s: string): (r: string)
    ensures r == "" || !IsSpace(r[0])
    ensures |r| <= |s| && r == s[|s| - |r|..]
    ensures forall i :: 0 <= i < |s| - |r| ==> IsSpace(s[i])
  {
    if s != "" && IsSpace(s[0]) then TrimLeft(s[1..]) else s
  }

  function TrimRight(s: string): (r: string)
    ensures r == "" || !IsSpace(r[|r| - 1])
    ensures |r| <= |s| && r == s[..|r|]
    ensures forall i :: |r| <= i < |s| ==> IsSpace(s[i])
  {
    if s != "" && IsSpace(s[|s| - 1]) then TrimRight(s[..|s| - 1]) else s
  }

  /** strings.TrimSpace */
  function TrimSpace(s: string): (r: string)
    ensures Trimmed(r)
    ensures Trimmed(s) ==> r == s
  {
    TrimRight(TrimLeft(s))
  }

  /** What is left of `s` from `i` to `j`, with nothing but spaces cut off at the ends. */
  predicate TrimAt(r: string, s: string, i: nat, j: nat) {
    && i <= j <= |s| && r == s[i..j]
    && (forall k :: 0 <= k < i ==> IsSpace(s[k])) && (forall k :: j <= k < |s| ==> IsSpace(s[k]))
  }

  ghost predicate IsTrimOf(r: string, s: string) {
    Trimmed(r) && exists i, j :: TrimAt(r, s, i, j)
  }

  lemma TrimSpaceTrims(s: string)
    ensures IsTrimOf(TrimSpace(s), s)
  {
    hide IsSpace, TrimLeft, TrimRight;
    var left := TrimLeft(s);
    var r := TrimRight(left);
    var i, j := |s| - |left|, |s| - |left| + |r|;
    assert r == s[i..j];
    forall k | j <= k < |s| ensures IsSpace(s[k]) {
      assert s[k] == left[k - i];
    }
    assert TrimAt(r, s, i, j);
  }

  lemma TrimStartsNoLater(a: string, b: string, s: string, i: nat, j: nat, m: nat, n: nat)
    requires TrimAt(a, s, i, j) && TrimAt(b, s, m, n) && Trimmed(b) && b != ""
    ensures a != "" && i <= m && n <= j
  {
    hide IsSpace;
    assert b[0] == s[m] && b[|b| - 1] == s[n - 1];
  }

  /** There is only one such rest. */
  lemma TrimIsUnique(a: string, b: string, s: string)
    requires IsTrimOf(a, s) && IsTrimOf(b, s)
    ensures a == b
  {
    hide IsSpace, TrimAt, Trimmed;
    var i, j :| TrimAt(a, s, i, j);
    var m, n :| TrimAt(b, s, m, n);
    TrimBounds(a, s, i, j);
    TrimBounds(b, s, m, n);
    if a != "" {
      TrimStartsNoLater(b, a, s, m, n, i, j);
    }
    if b != "" {
      TrimStartsNoLater(a, b, s, i, j, m, n);
    }
  }

  lemma TrimBounds(r: string, s: string, i: nat, j: nat)
    requires TrimAt(r, s, i, j)
    ensures i <= j <= |s| && r == s[i..j]
  {
  }

  /** So two texts are the same but for spaces around them exactly if some rest is that of both. */
  lemma SameTrim(a: string, b: string)
    ensures TrimSpace(a) == TrimSpace(b) <==> exists t :: IsTrimOf(t, a) && IsTrimOf(t, b)
  {
    hide IsTrimOf, TrimSpace;
    TrimSpaceTrims(a);
    TrimSpaceTrims(b);
    if t :| IsTrimOf(t, a) && IsTrimOf(t, b) {
      TrimIsUnique(t, TrimSpace(a), a);
      TrimIsUnique(t, TrimSpace(b), b);
    }
  }

  /** strings.ToLower on everything that becomes an ASCII letter: A to Z, the dotted capital I and the
      Kelvin sign; every other character is left alone. */
  function LowerChar(c: char): char {
    if 'A' <= c <= 'Z' then (c as int + 32) as char
    else if c == '\U{0130}' then 'i'
    else if c == '\U{212A}' then 'k'
    else c
  }

  function ToLower(s: string): (r: string)
    ensures |r| == |s|
    ensures forall i :: 0 <= i < |s| ==> r[i] == LowerChar(s[i])
  {
    seq(|s|, i requires 0 <= i < |s| => LowerChar(s[i]))
  }

  /** strings.ToLower(strings.TrimSpace(s)): how keywords are read. */
  function Keyword(s: string): string {
    ToLower(TrimSpace(s))
  }

  /** A keyword is read without the spaces around it and in lower case. */
  ghost predicate ReadsAs(k: string, s: string) {
    exists t :: IsTrimOf(t, s) && |k| == |t| && forall i :: 0 <= i < |t| ==> k[i] == LowerChar(t[i])
  }

  lemma KeywordReads(s: string)
    ensures ReadsAs(Keyword(s), s)
  {
    hide TrimSpace, IsTrimOf, LowerChar;
    TrimSpaceTrims(s);
  }

  lemma LowerCharFacts(c: char)
    ensures IsSpace(LowerChar(c)) <==> IsSpace(c)
    ensures LowerChar(LowerChar(c)) == LowerChar(c)
  {
  }

  lemma LowerFacts(s: string)
    ensures Trimmed(s) ==> Trimmed(ToLower(s))
    ensures ToLower(ToLower(s)) == ToLower(s)
  {
    hide IsSpace, LowerChar;
    var l := ToLower(s);
    forall i | 0 <= i < |s| ensures (IsSpace(l[i]) <==> IsSpace(s[i])) && ToLower(l)[i] == l[i] {
      LowerCharFacts(s[i]);
    }
  }

  /** Reading a keyword twice changes nothing. */
  lemma KeywordIdempotent(s: string)
    ensures TrimSpace(Keyword(s)) == Keyword(s) && Keyword(Keyword(s)) == Keyword(s)
  {
    hide IsSpace, LowerChar;
    LowerFacts(TrimSpace(s));
  }

  // ----- byte-wise order -----

  predicate LexLeq(a: string, b: string) {
    a == "" || (b != "" && (a[0] < b[0] || (a[0] == b[0] && LexLeq(a[1..], b[1..]))))
  }

  /** The first character that differs decides; a prefix comes first. */
  lemma {:induction false} LexLeqIs(a: string, b: string)
    ensures LexLeq(a, b)
            <==> a <= b || exists k :: 0 <= k < |a| && k < |b| && a[..k] == b[..k] && a[k] < b[k]
  {
    if a != "" && b != "" {
      if a[0] == b[0] {
        var x, y := a[1..], b[1..];
        LexLeqIs(x, y);
        assert a == [a[0]] + x && b == [b[0]] + y;
        if x <= y {
          assert a <= b;
        }
        if k :| 0 <= k < |x| && k < |y| && x[..k] == y[..k] && x[k] < y[k] {
          assert a[..k + 1] == [a[0]] + x[..k] && b[..k + 1] == [b[0]] + y[..k] && a[k + 1] < b[k + 1];
        }
        if k :| 0 <= k < |a| && k < |b| && a[..k] == b[..k] && a[k] < b[k] {
          assert x[..k - 1] == a[..k][1..] && y[..k - 1] == b[..k][1..] && x[k - 1] < y[k - 1];
        }
      } else {
        assert a[..0] == b[..0];
        if k :| 0 <= k < |a| && k < |b| && a[..k] == b[..k] && a[k] < b[k] {
          assert k > 0 ==> a[..k][0] == b[..k][0];
        }
      }
    }
  }

  lemma {:induction false} LexTotal(a: string, b: string)
    ensures LexLeq(a, b) || LexLeq(b, a)
  {
    if a != "" && b != "" && a[0] == b[0] {
      LexTotal(a[1..], b[1..]);
    }
  }

  lemma {:induction false} LexAntisymmetric(a: string, b: string)
    requires LexLeq(a, b) && LexLeq(b, a)
    ensures a == b
  {
    if a != "" && b != "" {
      LexAntisymmetric(a[1..], b[1..]);
      assert a == [a[0]] + a[1..] && b == [b[0]] + b[1..];
    }
  }

  lemma {:induction false} LexTransitive(a: string, b: string, c: string)
    requires LexLeq(a, b) && LexLeq(b, c)
    ensures LexLeq(a, c)
  {
    if a != "" && a[0] == b[0] && b[0] == c[0] {
      LexTransitive(a[1..], b[1..], c[1..]);
    }
  }

  // ----- sorting identifiers -----

  predicate IsLeast(m: string, s: set<string>) {
    m in s && forall x :: x in s ==> LexLeq(m, x)
  }

  lemma {:induction false} LeastExists(s: set<string>)
    requires s != {}
    ensures exists m :: IsLeast(m, s)
  {
    var x :| x in s;
    if s == {x} {
      LexTotal(x, x);
      assert IsLeast(x, s);
    } else {
      LeastExists(s - {x});
      var m :| IsLeast(m, s - {x});
      LexTotal(x, m);
      LexTotal(x, x);
      if LexLeq(x, m) {
        forall y | y in s ensures LexLeq(x, y) {
          if y != x { LexTransitive(x, m, y); }
        }
        assert IsLeast(x, s);
      } else {
        assert IsLeast(m, s);
      }
    }
  }

  lemma LeastUnique(s: set<string>)
    ensures forall m, n :: IsLeast(m, s) && IsLeast(n, s) ==> m == n
  {
    forall m, n | IsLeast(m, s) && IsLeast(n, s) ensures m == n {
      LexAntisymmetric(m, n);
    }
  }

  predicate Distinct<T(==)>(s: seq<T>) {
    forall i, j :: 0 <= i < j < |s| ==> s[i] != s[j]
  }

  /** sort.Strings over the keys of a map: ascending, each identifier once. */
  function SortedIds(s: set<string>): (r: seq<string>)
    ensures forall x :: x in r <==> x in s
    ensures Distinct(r)
  {
    if s == {} then []
    else
      LeastExists(s);
      LeastUnique(s);
      var m :| IsLeast(m, s);
      [m] + SortedIds(s - {m})
  }

  lemma SortedSingleton(x: string)
    ensures SortedIds({x}) == [x]
  {
    LexTotal(x, x);
    LeastUnique({x});
    assert IsLeast(x, {x});
    assert {x} - {x} == {};
  }

  lemma {:induction false} SortedIdsAscend(s: set<string>)
    ensures forall i, j :: 0 <= i < j < |SortedIds(s)| ==> LexLeq(SortedIds(s)[i], SortedIds(s)[j])
  {
    if s != {} {
      LeastExists(s);
      LeastUnique(s);
      var m :| IsLeast(m, s);
      SortedIdsAscend(s - {m});
      var r, tail := SortedIds(s), SortedIds(s - {m});
      assert r == [m] + tail;
      forall i, j | 0 <= i < j < |r| ensures LexLeq(r[i], r[j]) {
        assert r[j] == tail[j - 1];
        if i == 0 {
          assert tail[j - 1] in s;
        } else {
          assert r[i] == tail[i - 1];
        }
      }
    }
  }

  lemma FirstIndex(ids: seq<string>, id: string) returns (i: nat)
    requires id in ids
    ensures i < |ids| && ids[i] == id && id !in ids[..i]
  {
    i := 0;
    while ids[i] != id
      invariant i < |ids| && id !in ids[..i] && id in ids[i..]
      decreases |ids| - i
    {
      i := i + 1;
    }
  }

  lemma {:induction false} SubsetSize<T>(a: set<T>, b: set<T>)
    requires a <= b
    ensures |a| <= |b|
  {
    if a != {} {
      var x :| x in a;
      SubsetSize(a - {x}, b - {x});
    }
  }
}
