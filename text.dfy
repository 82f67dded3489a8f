/**
 * String helpers shared by the model: the few `str` methods the program uses
 * (`lower`, `strip`, `split`, `join`, `startswith`, `replace`, `in`), code-point
 * lexicographic order (Python's `<` on `str`) and `sorted(set(xs))`.
 */
module Text {

  /** Python's `str.isspace()` for one character. */
  predicate IsSpace(c: char) {
    var n := c as int;
    n == 0x20 || 0x09 <= n <= 0x0d || 0x1c <= n <= 0x1f || n == 0x85 || n == 0xa0 || n == 0x1680
    || 0x2000 <= n <= 0x200a || n == 0x2028 || n == 0x2029 || n == 0x202f || n == 0x205f || n == 0x3000
  }

  /** `str.lower()` on one character; only ASCII letters are folded. */
  function LowerChar(c: char): char {
    if 'A' <= c <= 'Z' then (c as int + 32) as char else c
  }

  function Lower(s: string): (r: string)
    ensures |r| == |s|
  {
    seq(|s|, i requires 0 <= i < |s| => LowerChar(s[i]))
  }

  /** `s.startswith(p)` */
  predicate StartsWith(s: string, p: string) {
    |p| <= |s| && s[..|p|] == p
  }

  /** `sub in s` */
  predicate Contains(s: string, sub: string)
    decreases |s|
  {
    StartsWith(s, sub) || (|s| > 0 && Contains(s[1..], sub))
  }

  function StripLeft(s: string): (r: string)
    ensures |r| <= |s| && forall c :: c in r ==> c in s
    decreases |s|
  {
    if |s| > 0 && IsSpace(s[0]) then StripLeft(s[1..]) else s
  }

  function StripRight(s: string): (r: string)
    ensures |r| <= |s| && forall c :: c in r ==> c in s
    decreases |s|
  {
    if |s| > 0 && IsSpace(s[|s| - 1]) then StripRight(s[..|s| - 1]) else s
  }

  /** `s.strip()` */
  function Strip(s: string): (r: string)
    ensures |r| <= |s| && forall c :: c in r ==> c in s
  {
    StripRight(StripLeft(s))
  }

  /** The text before the first `c` (all of `s` when there is none): `s.split(c, 1)[0]`. */
  function TakeUntil(s: string, c: char): (r: string)
    ensures c !in r
    decreases |s|
  {
    if s == [] || s[0] == c then [] else [s[0]] + TakeUntil(s[1..], c)
  }

  /** The text after the first `c`: `s.split(c, 1)[1]` when `c in s`. */
  function After(s: string, c: char): string
    decreases |s|
  {
    if s == [] then [] else if s[0] == c then s[1..] else After(s[1..], c)
  }

  /** `s.split(c)`: always one more piece than there are separators. */
  function Split(s: string, c: char): (r: seq<string>)
    ensures |r| >= 1
    decreases |s|
  {
    if s == [] then [""]
    else if s[0] == c then [""] + Split(s[1..], c)
    else
      var rest := Split(s[1..], c);
      [[s[0]] + rest[0]] + rest[1..]
  }

  /** `c.join(parts)` for a one-character separator. */
  function Join(parts: seq<string>, c: char): string
    decreases |parts|
  {
    if parts == [] then ""
    else if |parts| == 1 then parts[0]
    else parts[0] + [c] + Join(parts[1..], c)
  }

  /** `[p for p in parts if p]` */
  function NonEmpty(parts: seq<string>): (r: seq<string>)
    ensures forall p :: p in r ==> p in parts && p != ""
  {
    if parts == [] then [] else (if parts[0] == "" then [] else [parts[0]]) + NonEmpty(parts[1..])
  }

  lemma ConcatAssoc<T>(a: seq<T>, b: seq<T>, c: seq<T>)
    ensures (a + b) + c == a + (b + c)
  {
  }

  /** One more element of a prefix. */
  lemma TakeSnoc<T>(s: seq<T>, k: nat)
    requires k < |s|
    ensures s[..k + 1] == s[..k] + [s[k]]
  {
  }

  /** `s.replace(c, t)` for a one-character pattern. */
  function ReplaceChar(s: string, c: char, t: string): string
    decreases |s|
  {
    if s == [] then [] else (if s[0] == c then t else [s[0]]) + ReplaceChar(s[1..], c, t)
  }

  lemma {:induction false} LowerIdentity(s: string)
    requires forall i :: 0 <= i < |s| ==> !('A' <= s[i] <= 'Z')
    ensures Lower(s) == s
  {
  }

  lemma {:induction false} TakeUntilAt(p: string, c: char, q: string)
    requires c !in p
    ensures TakeUntil(p + [c] + q, c) == p && After(p + [c] + q, c) == q
    decreases |p|
  {
    if p == [] {
      assert p + [c] + q == [c] + q;
    } else {
      TakeUntilAt(p[1..], c, q);
      assert (p + [c] + q)[1..] == p[1..] + [c] + q;
      assert p == [p[0]] + p[1..];
    }
  }

  lemma {:induction false} TakeUntilAbsent(s: string, c: char)
    requires c !in s
    ensures TakeUntil(s, c) == s
    decreases |s|
  {
    if s != [] {
      TakeUntilAbsent(s[1..], c);
      assert s == [s[0]] + s[1..];
    }
  }

  lemma {:induction false} SplitPiecesAvoidSeparator(s: string, c: char)
    ensures forall p :: p in Split(s, c) ==> c !in p
    decreases |s|
  {
    if s != [] {
      SplitPiecesAvoidSeparator(s[1..], c);
    }
  }

  lemma JoinPrepend(x: char, parts: seq<string>, c: char)
    requires |parts| >= 1
    ensures Join([[x] + parts[0]] + parts[1..], c) == [x] + Join(parts, c)
  {
    var ps := [[x] + parts[0]] + parts[1..];
    assert ps[1..] == parts[1..];
    if |parts| > 1 {
      assert Join(ps, c) == ([x] + parts[0]) + [c] + Join(parts[1..], c);
      assert Join(parts, c) == parts[0] + [c] + Join(parts[1..], c);
    }
  }

  lemma {:induction false} JoinOfSplit(s: string, c: char)
    ensures Join(Split(s, c), c) == s
    decreases |s|
  {
    if s != [] {
      JoinOfSplit(s[1..], c);
      if s[0] == c {
        JoinOfSplitSeparator(s, c);
      } else {
        JoinOfSplitOther(s, c);
      }
    }
  }

  lemma JoinOfSplitSeparator(s: string, c: char)
    requires s != [] && s[0] == c && Join(Split(s[1..], c), c) == s[1..]
    ensures Join(Split(s, c), c) == s
  {
    var rest := Split(s[1..], c);
    var ps := [""] + rest;
    assert Split(s, c) == ps;
    assert ps[1..] == rest;
    assert Join(ps, c) == "" + [c] + Join(rest, c);
    assert s == [c] + s[1..];
  }

  lemma JoinOfSplitOther(s: string, c: char)
    requires s != [] && s[0] != c && Join(Split(s[1..], c), c) == s[1..]
    ensures Join(Split(s, c), c) == s
  {
    var rest := Split(s[1..], c);
    assert Split(s, c) == [[s[0]] + rest[0]] + rest[1..];
    JoinPrepend(s[0], rest, c);
    assert s == [s[0]] + s[1..];
  }

  /** Splitting a join gives the parts back when no part contains the separator. */
  lemma {:induction false} SplitOfJoin(parts: seq<string>, c: char)
    requires |parts| >= 1
    requires forall p :: p in parts ==> c !in p
    ensures Split(Join(parts, c), c) == parts
    decreases |parts|, |parts[0]|
  {
    if |parts| == 1 {
      SplitOfPiece(parts[0], c);
    } else {
      SplitOfJoin(parts[1..], c);
      SplitOfPrefixed(parts[0], Join(parts[1..], c), c);
      assert parts == [parts[0]] + parts[1..];
    }
  }

  lemma {:induction false} SplitOfPiece(p: string, c: char)
    requires c !in p
    ensures Split(p, c) == [p]
    decreases |p|
  {
    if p != [] {
      SplitOfPiece(p[1..], c);
      assert p == [p[0]] + p[1..];
    }
  }

  lemma {:induction false} SplitOfPrefixed(p: string, rest: string, c: char)
    requires c !in p
    ensures Split(p + [c] + rest, c) == [p] + Split(rest, c)
    decreases |p|
  {
    if p == [] {
      assert p + [c] + rest == [c] + rest;
    } else {
      SplitOfPrefixed(p[1..], rest, c);
      assert (p + [c] + rest)[1..] == p[1..] + [c] + rest;
      assert p == [p[0]] + p[1..];
    }
  }

  // Code-point lexicographic order: Python's `a <= b` on `str`.

  predicate LexLe(a: string, b: string)
    decreases |a|
  {
    a == [] || (b != [] && (a[0] < b[0] || (a[0] == b[0] && LexLe(a[1..], b[1..]))))
  }

  predicate LexLt(a: string, b: string) {
    LexLe(a, b) && a != b
  }

  lemma {:induction false} LexLeRefl(a: string)
    ensures LexLe(a, a)
    decreases |a|
  {
    if a != [] { LexLeRefl(a[1..]); }
  }

  lemma {:induction false} LexLeTotal(a: string, b: string)
    ensures LexLe(a, b) || LexLe(b, a)
    decreases |a|
  {
    if a != [] && b != [] && a[0] == b[0] { LexLeTotal(a[1..], b[1..]); }
  }

  lemma {:induction false} LexLeAntisym(a: string, b: string)
    requires LexLe(a, b) && LexLe(b, a)
    ensures a == b
    decreases |a|
  {
    if a != [] && b != [] {
      LexLeAntisym(a[1..], b[1..]);
      assert a == [a[0]] + a[1..] && b == [b[0]] + b[1..];
    }
  }

  lemma {:induction false} LexLeTrans(a: string, b: string, c: string)
    requires LexLe(a, b) && LexLe(b, c)
    ensures LexLe(a, c)
    decreases |a|
  {
    if a != [] && b != [] && c != [] && a[0] == b[0] == c[0] {
      LexLeTrans(a[1..], b[1..], c[1..]);
    }
  }

  // `sorted(set(xs))` on strings.

  /** Strictly ascending: sorted and free of duplicates. */
  predicate StrictlySorted(s: seq<string>) {
    forall i, j :: 0 <= i < j < |s| ==> LexLt(s[i], s[j])
  }

  /** Insert `x` into a strictly ascending list unless it is already there. */
  function InsertUnique(x: string, s: seq<string>): seq<string>
    decreases |s|
  {
    if s == [] then [x]
    else if x == s[0] then s
    else if LexLe(x, s[0]) then [x] + s
    else [s[0]] + InsertUnique(x, s[1..])
  }

  lemma {:induction false} InsertUniqueCorrect(x: string, s: seq<string>)
    requires StrictlySorted(s)
    ensures StrictlySorted(InsertUnique(x, s))
    ensures forall y :: y in InsertUnique(x, s) <==> y == x || y in s
    decreases |s|
  {
    if s == [] {
    } else if x == s[0] {
    } else if LexLe(x, s[0]) {
      var r := [x] + s;
      forall i, j | 0 <= i < j < |r| ensures LexLt(r[i], r[j]) {
        if i == 0 {
          if j > 1 {
            assert LexLt(s[0], s[j - 1]);
            LexLeTrans(x, s[0], s[j - 1]);
            if x == s[j - 1] { LexLeAntisym(x, s[0]); }
          }
        } else {
          assert r[i] == s[i - 1] && r[j] == s[j - 1];
        }
      }
    } else {
      InsertUniqueCorrect(x, s[1..]);
      var t := InsertUnique(x, s[1..]);
      var r := [s[0]] + t;
      LexLeTotal(x, s[0]);
      forall y | y in t ensures LexLt(s[0], y) {
        if y == x {
        } else {
          var k :| 0 <= k < |s[1..]| && s[1..][k] == y;
          assert s[k + 1] == y;
        }
      }
      forall i, j | 0 <= i < j < |r| ensures LexLt(r[i], r[j]) {
        if i == 0 {
          assert r[j] in t;
        } else {
          assert r[i] == t[i - 1] && r[j] == t[j - 1];
        }
      }
      assert s == [s[0]] + s[1..];
    }
  }

  /** `sorted(set(xs))` */
  function SortedSet(xs: seq<string>): seq<string>
    decreases |xs|
  {
    if xs == [] then [] else InsertUnique(xs[0], SortedSet(xs[1..]))
  }

  /** `sorted(set(xs))` is strictly ascending and holds exactly the elements of `xs`. */
  lemma {:induction false} SortedSetCorrect(xs: seq<string>)
    ensures StrictlySorted(SortedSet(xs))
    ensures forall y :: y in SortedSet(xs) <==> y in xs
    decreases |xs|
  {
    if xs != [] {
      SortedSetCorrect(xs[1..]);
      InsertUniqueCorrect(xs[0], SortedSet(xs[1..]));
      assert xs == [xs[0]] + xs[1..];
    }
  }

  /** The head of a strictly ascending list comes before every element. */
  lemma SortedHeadLeast(s: seq<string>, x: string)
    requires StrictlySorted(s) && x in s
    ensures LexLe(s[0], x)
  {
    var k :| 0 <= k < |s| && s[k] == x;
    if k == 0 {
      LexLeRefl(x);
    } else {
      assert LexLt(s[0], s[k]);
    }
  }

  lemma HeadMember(b: seq<string>)
    requires b != []
    ensures b[0] in b
  {
  }

  /** A strictly ascending list is determined by its elements. */
  lemma {:induction false} StrictlySortedUnique(a: seq<string>, b: seq<string>)
    requires StrictlySorted(a) && StrictlySorted(b)
    requires forall y :: y in a <==> y in b
    ensures a == b
    decreases |a|
  {
    if a == [] {
      if b != [] {
        HeadMember(b);
        assert false;
      }
    } else {
      assert a[0] in b;
      assert b[0] in a;
      SortedHeadLeast(a, b[0]);
      SortedHeadLeast(b, a[0]);
      LexLeAntisym(a[0], b[0]);
      forall y ensures y in a[1..] <==> y in b[1..] {
        if y in a[1..] {
          var k :| 1 <= k < |a| && a[k] == y;
          assert LexLt(a[0], a[k]);
          assert y in b && y != b[0];
        }
        if y in b[1..] {
          var k :| 1 <= k < |b| && b[k] == y;
          assert LexLt(b[0], b[k]);
          assert y in a && y != a[0];
        }
      }
      StrictlySortedUnique(a[1..], b[1..]);
      assert a == [a[0]] + a[1..] && b == [b[0]] + b[1..];
    }
  }
}
