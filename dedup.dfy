/**
 * `cbclean.dedup`: phase 1 collapses bookmarks with the same key
 * (`normalized_url or url`) through a dictionary; phase 2 sorts the survivors
 * by `(folder_path, title)` and merges same-folder neighbours with similar
 * titles in place. The rapidfuzz scores are a parameter of the model.
 */
module Dedup {
  import opened Text
  import opened Utils

  // ------------------------------------------------------------------ keys

  /** `b.normalized_url or b.url or ""`: what a bookmark is deduplicated by. */
  function Key(b: Bookmark): string {
    if Truthy(b.normalizedUrl) then b.normalizedUrl.value
    else if Truthy(b.url) then b.url.value
    else ""
  }

  /** A bookmark with a truthy `url` always has a key. */
  lemma KeyOfLink(b: Bookmark)
    requires Truthy(b.url)
    ensures Key(b) != ""
  {
  }

  // ------------------------------------------------------------- tie-break

  /**
   * `_resolve_dupe`: the pair (keep, drop). Under `prefer_shorter_url`, with both
   * keys present, the kept key is no longer than the dropped one and the first
   * bookmark wins a tie; otherwise the first bookmark is kept.
   */
  function ResolveDupe(a: Bookmark, b: Bookmark, preferShorter: bool): (r: (Bookmark, Bookmark))
    ensures r == (a, b) || r == (b, a)
    ensures preferShorter && Key(a) != "" && Key(b) != "" ==> |Key(r.0)| <= |Key(r.1)|
    ensures preferShorter && Key(a) != "" && Key(b) != "" && |Key(b)| < |Key(a)| ==> r == (b, a)
    ensures r.0 != a ==> preferShorter && Key(a) != "" && Key(b) != "" && |Key(b)| < |Key(a)|
  {
    var au := Key(a);
    var bu := Key(b);
    if preferShorter && au != "" && bu != "" then
      if |au| <= |bu| then (a, b) else (b, a)
    else (a, b)
  }

  /** Two bookmarks with the same key always resolve to (first, second). */
  lemma ResolveSameKey(a: Bookmark, b: Bookmark, preferShorter: bool)
    requires Key(a) == Key(b)
    ensures ResolveDupe(a, b, preferShorter).0 == a
    ensures ResolveDupe(a, b, preferShorter).1 == b
  {
  }

  // ------------------------------------------------------- title similarity

  /** The four rapidfuzz scores of two titles: token set, partial token set, partial, token sort. */
  datatype Ratios = Ratios(tokenSet: real, partialTokenSet: real, partial: real, tokenSort: real)

  /** Every score is a percentage, as rapidfuzz returns it. */
  predicate InPercentRange(r: Ratios) {
    && 0.0 <= r.tokenSet <= 100.0 && 0.0 <= r.partialTokenSet <= 100.0
    && 0.0 <= r.partial <= 100.0 && 0.0 <= r.tokenSort <= 100.0
  }

  function Max(x: real, y: real): real {
    if x >= y then x else y
  }

  /** `_title_sim`: the best of the four scores, as a fraction. */
  function TitleSim(r: Ratios): (s: real)
    ensures s * 100.0 >= r.tokenSet && s * 100.0 >= r.partialTokenSet
    ensures s * 100.0 >= r.partial && s * 100.0 >= r.tokenSort
    ensures s * 100.0 == r.tokenSet || s * 100.0 == r.partialTokenSet || s * 100.0 == r.partial || s * 100.0 == r.tokenSort
    ensures InPercentRange(r) ==> 0.0 <= s <= 1.0
  {
    Max(Max(r.tokenSet, r.partialTokenSet), Max(r.partial, r.tokenSort)) / 100.0
  }

  /** The keyword arguments of `deduplicate`, with the fuzzy scorer made explicit. */
  datatype Policy = Policy(fuzz: (string, string) -> Ratios, titleThreshold: real, preferShorterUrl: bool)

  /** The merge test of phase 2: both links present and titles similar enough. */
  predicate Similar(a: Bookmark, b: Bookmark, policy: Policy) {
    Truthy(a.url) && Truthy(b.url) && TitleSim(policy.fuzz(a.title, b.title)) >= policy.titleThreshold
  }

  // ------------------------------------------------------------------ phase 1

  function KeysOf(s: seq<Bookmark>): set<string> {
    set b | b in s :: Key(b)
  }

  /** No two positions hold bookmarks with the same key. */
  predicate UniqueKeys(s: seq<Bookmark>) {
    forall p, q :: 0 <= p < q < |s| ==> Key(s[p]) != Key(s[q])
  }

  /** `x` occurs in `s`, and no bookmark before that occurrence has its key. */
  predicate FirstWithKey(x: Bookmark, s: seq<Bookmark>) {
    exists p :: 0 <= p < |s| && s[p] == x && forall q :: 0 <= q < p ==> Key(s[q]) != Key(x)
  }

  /** The bookmarks that have a key, in input order. */
  function Keyed(s: seq<Bookmark>): seq<Bookmark>
    decreases |s|
  {
    if s == [] then []
    else Keyed(s[..|s| - 1]) + (if Key(s[|s| - 1]) != "" then [s[|s| - 1]] else [])
  }

  /** Phase 1's survivors: the first bookmark with each key, in input order. */
  function Firsts(s: seq<Bookmark>): seq<Bookmark>
    decreases |s|
  {
    if s == [] then []
    else
      var init := s[..|s| - 1];
      var b := s[|s| - 1];
      Firsts(init) + (if Key(b) != "" && Key(b) !in KeysOf(init) then [b] else [])
  }

  /** Phase 1's duplicates: every later bookmark with an already seen key, in input order. */
  function Repeats(s: seq<Bookmark>): seq<Bookmark>
    decreases |s|
  {
    if s == [] then []
    else
      var init := s[..|s| - 1];
      var b := s[|s| - 1];
      Repeats(init) + (if Key(b) != "" && Key(b) in KeysOf(init) then [b] else [])
  }

  lemma KeysOfSnoc(s: seq<Bookmark>, x: Bookmark)
    ensures KeysOf(s + [x]) == KeysOf(s) + {Key(x)}
  {
    assert x in s + [x];
    forall k | k in KeysOf(s) ensures k in KeysOf(s + [x]) {
      var b :| b in s && Key(b) == k;
      assert b in s + [x];
    }
  }

  lemma FirstsSnoc(s: seq<Bookmark>, b: Bookmark)
    ensures Firsts(s + [b]) == Firsts(s) + (if Key(b) != "" && Key(b) !in KeysOf(s) then [b] else [])
    ensures Repeats(s + [b]) == Repeats(s) + (if Key(b) != "" && Key(b) in KeysOf(s) then [b] else [])
  {
    assert (s + [b])[..|s|] == s;
  }

  lemma {:induction false} KeyedMembers(s: seq<Bookmark>)
    ensures forall x :: x in Keyed(s) <==> x in s && Key(x) != ""
    decreases |s|
  {
    if s != [] {
      var init := s[..|s| - 1];
      KeyedMembers(init);
      assert s == init + [s[|s| - 1]];
    }
  }

  /** Phase 1 sends every keyed bookmark to exactly one of its two outputs. */
  lemma {:induction false} FirstsRepeatsPartition(s: seq<Bookmark>)
    ensures multiset(Firsts(s)) + multiset(Repeats(s)) == multiset(Keyed(s))
    decreases |s|
  {
    if s != [] {
      FirstsRepeatsPartition(s[..|s| - 1]);
    }
  }

  /** The survivors of phase 1 have pairwise different keys, and every key of the input. */
  lemma {:induction false} FirstsKeys(s: seq<Bookmark>)
    ensures UniqueKeys(Firsts(s))
    ensures KeysOf(Firsts(s)) == KeysOf(s) - {""}
    decreases |s|
  {
    if s != [] {
      var init := s[..|s| - 1];
      var b := s[|s| - 1];
      FirstsKeys(init);
      assert s == init + [b];
      KeysOfSnoc(init, b);
      FirstsSnoc(init, b);
      if Key(b) != "" && Key(b) !in KeysOf(init) {
        KeysOfSnoc(Firsts(init), b);
        var f := Firsts(s);
        assert f == Firsts(init) + [b];
        assert KeysOf(f) == KeysOf(Firsts(init)) + {Key(b)};
        assert KeysOf(s) == KeysOf(init) + {Key(b)};
        assert KeysOf(f) == KeysOf(s) - {""};
        forall p, q | 0 <= p < q < |f| ensures Key(f[p]) != Key(f[q]) {
          if q == |f| - 1 {
            assert f[p] in Firsts(init);
          } else {
            assert f[p] == Firsts(init)[p] && f[q] == Firsts(init)[q];
          }
        }
      } else {
        assert Firsts(s) == Firsts(init);
        assert KeysOf(s) == KeysOf(init) + {Key(b)};
      }
    }
  }

  /** Every survivor of phase 1 is the first bookmark of the input with its key. */
  lemma {:induction false} FirstsAreFirst(s: seq<Bookmark>)
    ensures forall x :: x in Firsts(s) ==> FirstWithKey(x, s)
    decreases |s|
  {
    if s != [] {
      var init := s[..|s| - 1];
      var b := s[|s| - 1];
      FirstsAreFirst(init);
      forall x | x in Firsts(s) ensures FirstWithKey(x, s) {
        if x in Firsts(init) {
          var p :| 0 <= p < |init| && init[p] == x && forall q :: 0 <= q < p ==> Key(init[q]) != Key(x);
          assert s[p] == x;
          assert forall q :: 0 <= q < p ==> s[q] == init[q];
        } else {
          assert x == b && Key(b) !in KeysOf(init);
          forall q | 0 <= q < |s| - 1 ensures Key(s[q]) != Key(x) {
            assert s[q] in init;
          }
          assert s[|s| - 1] == x;
        }
      }
    }
  }

  lemma {:induction false} UniqueKeysCard(s: seq<Bookmark>)
    requires UniqueKeys(s)
    ensures |KeysOf(s)| == |s|
    decreases |s|
  {
    if s != [] {
      var init := s[..|s| - 1];
      var b := s[|s| - 1];
      assert s == init + [b];
      UniqueKeysCard(init);
      KeysOfSnoc(init, b);
      forall c | c in init ensures Key(c) != Key(b) {
        var p :| 0 <= p < |init| && init[p] == c;
        assert s[p] == c;
      }
    }
  }

  /** What the dictionary `by_norm`, its insertion order and `duplicates` hold after a prefix `s`. */
  predicate Phase1Inv(s: seq<Bookmark>, byNorm: map<string, Bookmark>, order: seq<string>, duplicates: seq<Bookmark>) {
    && byNorm.Keys == KeysOf(s) - {""}
    && (forall key :: key in byNorm ==> Key(byNorm[key]) == key)
    && |order| == |Firsts(s)|
    && (forall p :: 0 <= p < |order| ==> order[p] in byNorm && byNorm[order[p]] == Firsts(s)[p])
    && duplicates == Repeats(s)
  }

  lemma Phase1Skip(s: seq<Bookmark>, b: Bookmark, byNorm: map<string, Bookmark>, order: seq<string>, duplicates: seq<Bookmark>)
    requires Phase1Inv(s, byNorm, order, duplicates) && Key(b) == ""
    ensures Phase1Inv(s + [b], byNorm, order, duplicates)
  {
    KeysOfSnoc(s, b);
    FirstsSnoc(s, b);
  }

  lemma Phase1New(s: seq<Bookmark>, b: Bookmark, byNorm: map<string, Bookmark>, order: seq<string>, duplicates: seq<Bookmark>)
    requires Phase1Inv(s, byNorm, order, duplicates) && Key(b) != "" && Key(b) !in byNorm
    ensures Phase1Inv(s + [b], byNorm[Key(b) := b], order + [Key(b)], duplicates)
  {
    var k := Key(b);
    assert k !in KeysOf(s);
    KeysOfSnoc(s, b);
    FirstsSnoc(s, b);
    var f := Firsts(s + [b]);
    assert f == Firsts(s) + [b];
    assert Repeats(s + [b]) == Repeats(s);
    var m := byNorm[k := b];
    var order' := order + [k];
    assert m.Keys == KeysOf(s + [b]) - {""};
    forall p | 0 <= p < |order'| ensures order'[p] in m && m[order'[p]] == f[p] {
      if p < |order| {
        assert order'[p] == order[p] && f[p] == Firsts(s)[p];
        assert order[p] != k;
      }
    }
  }

  lemma Phase1Seen(s: seq<Bookmark>, b: Bookmark, byNorm: map<string, Bookmark>, order: seq<string>, duplicates: seq<Bookmark>)
    requires Phase1Inv(s, byNorm, order, duplicates) && Key(b) != "" && Key(b) in byNorm
    ensures Phase1Inv(s + [b], byNorm, order, duplicates + [b])
  {
    KeysOfSnoc(s, b);
    FirstsSnoc(s, b);
  }

  /** One pass of phase 1's loop, for bookmark `b`. */
  method Phase1Step(s: seq<Bookmark>, b: Bookmark, preferShorter: bool,
                    byNorm: map<string, Bookmark>, order: seq<string>, duplicates: seq<Bookmark>)
    returns (byNorm': map<string, Bookmark>, order': seq<string>, duplicates': seq<Bookmark>)
    requires Phase1Inv(s, byNorm, order, duplicates)
    ensures Phase1Inv(s + [b], byNorm', order', duplicates')
  {
    byNorm', order', duplicates' := byNorm, order, duplicates;
    var key := Key(b);
    if key == "" {
      Phase1Skip(s, b, byNorm, order, duplicates);
      return;
    }
    if key !in byNorm {
      Phase1New(s, b, byNorm, order, duplicates);
      byNorm' := byNorm[key := b];
      order' := order + [key];
    } else {
      var existed := byNorm[key];
      ResolveSameKey(existed, b, preferShorter);
      var (keep, drop) := ResolveDupe(existed, b, preferShorter);
      Phase1Seen(s, b, byNorm, order, duplicates);
      assert byNorm[key := keep] == byNorm;
      byNorm' := byNorm[key := keep];
      duplicates' := duplicates + [drop];
    }
  }

  /** Phase 1 of `deduplicate`: the dictionary `by_norm` plus its insertion order. */
  method Phase1(bookmarks: seq<Bookmark>, preferShorter: bool) returns (survivors: seq<Bookmark>, duplicates: seq<Bookmark>)
    ensures survivors == Firsts(bookmarks)
    ensures duplicates == Repeats(bookmarks)
  {
    var byNorm: map<string, Bookmark> := map[];
    var order: seq<string> := [];
    duplicates := [];
    for k := 0 to |bookmarks|
      invariant Phase1Inv(bookmarks[..k], byNorm, order, duplicates)
    {
      TakeSnoc(bookmarks, k);
      byNorm, order, duplicates := Phase1Step(bookmarks[..k], bookmarks[k], preferShorter, byNorm, order, duplicates);
    }
    assert bookmarks[..|bookmarks|] == bookmarks;
    survivors := seq(|order|, p requires 0 <= p < |order| => byNorm[order[p]]);
    assert forall p :: 0 <= p < |order| ==> survivors[p] == Firsts(bookmarks)[p];
  }

  // ------------------------------------------------------- sort by (folder, title)

  /** Python's tuple order on `(folder_path, title)`: `x` may come before `y`. */
  predicate NoLater(x: Bookmark, y: Bookmark) {
    LexLt(x.folderPath, y.folderPath) || (x.folderPath == y.folderPath && LexLe(x.title, y.title))
  }

  predicate SortedByFolderTitle(s: seq<Bookmark>) {
    forall p, q :: 0 <= p < q < |s| ==> NoLater(s[p], s[q])
  }

  /** Folder paths never decrease along the list. */
  predicate FolderSorted(s: seq<Bookmark>) {
    forall p, q :: 0 <= p < q < |s| ==> LexLe(s[p].folderPath, s[q].folderPath)
  }

  lemma NoLaterTotal(x: Bookmark, y: Bookmark)
    ensures NoLater(x, y) || NoLater(y, x)
  {
    LexLeTotal(x.folderPath, y.folderPath);
    LexLeTotal(x.title, y.title);
  }

  lemma NoLaterTrans(x: Bookmark, y: Bookmark, z: Bookmark)
    requires NoLater(x, y) && NoLater(y, z)
    ensures NoLater(x, z)
  {
    LexLeRefl(x.folderPath);
    LexLeRefl(y.folderPath);
    LexLeTrans(x.folderPath, y.folderPath, z.folderPath);
    if x.folderPath == z.folderPath && LexLt(x.folderPath, y.folderPath) {
      LexLeAntisym(x.folderPath, y.folderPath);
    }
    if x.folderPath == z.folderPath && LexLt(y.folderPath, z.folderPath) {
      LexLeAntisym(y.folderPath, z.folderPath);
    }
    if x.folderPath == y.folderPath == z.folderPath {
      LexLeTrans(x.title, y.title, z.title);
    }
  }

  lemma SortedIsFolderSorted(s: seq<Bookmark>)
    requires SortedByFolderTitle(s)
    ensures FolderSorted(s)
  {
    forall p, q | 0 <= p < q < |s| ensures LexLe(s[p].folderPath, s[q].folderPath) {
      assert NoLater(s[p], s[q]);
      if s[p].folderPath == s[q].folderPath { LexLeRefl(s[p].folderPath); }
    }
  }

  /** Where a stable insertion puts `x`: after every element that is not later than it. */
  function InsertPos(x: Bookmark, s: seq<Bookmark>): (k: nat)
    ensures k <= |s|
    decreases |s|
  {
    if s == [] || !NoLater(s[0], x) then 0 else 1 + InsertPos(x, s[1..])
  }

  function InsertByFolderTitle(x: Bookmark, s: seq<Bookmark>): seq<Bookmark> {
    var k := InsertPos(x, s);
    s[..k] + [x] + s[k..]
  }

  /** `remaining.sort(key=lambda x: (x.folder_path, x.title))`, a stable sort. */
  function SortByFolderTitle(s: seq<Bookmark>): seq<Bookmark>
    decreases |s|
  {
    if s == [] then [] else InsertByFolderTitle(s[|s| - 1], SortByFolderTitle(s[..|s| - 1]))
  }

  lemma {:induction false} InsertPosCorrect(x: Bookmark, s: seq<Bookmark>)
    requires SortedByFolderTitle(s)
    ensures forall p :: 0 <= p < InsertPos(x, s) ==> NoLater(s[p], x)
    ensures forall p :: InsertPos(x, s) <= p < |s| ==> NoLater(x, s[p])
    decreases |s|
  {
    if s != [] {
      if !NoLater(s[0], x) {
        NoLaterTotal(s[0], x);
        forall p | 0 <= p < |s| ensures NoLater(x, s[p]) {
          if p > 0 { NoLaterTrans(x, s[0], s[p]); }
        }
      } else {
        InsertPosCorrect(x, s[1..]);
        forall p | 1 <= p < InsertPos(x, s) ensures NoLater(s[p], x) {
          assert s[p] == s[1..][p - 1];
        }
        forall p | InsertPos(x, s) <= p < |s| ensures NoLater(x, s[p]) {
          assert s[p] == s[1..][p - 1];
        }
      }
    }
  }

  lemma InsertSorted(x: Bookmark, s: seq<Bookmark>)
    requires SortedByFolderTitle(s)
    ensures SortedByFolderTitle(InsertByFolderTitle(x, s))
    ensures multiset(InsertByFolderTitle(x, s)) == multiset(s) + multiset{x}
  {
    InsertPosCorrect(x, s);
    var k := InsertPos(x, s);
    var r := InsertByFolderTitle(x, s);
    forall p, q | 0 <= p < q < |r| ensures NoLater(r[p], r[q]) {
      if q < k {
        assert r[p] == s[p] && r[q] == s[q];
      } else if q == k {
        assert r[p] == s[p] && r[q] == x;
      } else if p < k {
        assert r[p] == s[p] && r[q] == s[q - 1];
      } else if p == k {
        assert r[p] == x && r[q] == s[q - 1];
      } else {
        assert r[p] == s[p - 1] && r[q] == s[q - 1];
      }
    }
    assert s == s[..k] + s[k..];
  }

  /** The sort yields an ordered permutation of its input. */
  lemma {:induction false} SortCorrect(s: seq<Bookmark>)
    ensures SortedByFolderTitle(SortByFolderTitle(s))
    ensures multiset(SortByFolderTitle(s)) == multiset(s)
    decreases |s|
  {
    if s != [] {
      var init := s[..|s| - 1];
      SortCorrect(init);
      InsertSorted(s[|s| - 1], SortByFolderTitle(init));
      assert s == init + [s[|s| - 1]];
    }
  }

  lemma InsertKeepsUniqueKeys(x: Bookmark, t: seq<Bookmark>)
    requires UniqueKeys(t)
    requires forall y :: y in t ==> Key(y) != Key(x)
    ensures UniqueKeys(InsertByFolderTitle(x, t))
  {
    var k := InsertPos(x, t);
    var r := InsertByFolderTitle(x, t);
    forall p, q | 0 <= p < q < |r| ensures Key(r[p]) != Key(r[q]) {
      if q < k {
        assert r[p] == t[p] && r[q] == t[q];
      } else if q == k {
        assert r[p] == t[p] && r[q] == x;
      } else if p < k {
        assert r[p] == t[p] && r[q] == t[q - 1];
      } else if p == k {
        assert r[p] == x && r[q] == t[q - 1];
      } else {
        assert r[p] == t[p - 1] && r[q] == t[q - 1];
      }
    }
  }

  lemma UniqueKeysInit(s: seq<Bookmark>)
    requires UniqueKeys(s) && s != []
    ensures UniqueKeys(s[..|s| - 1])
    ensures forall y :: y in s[..|s| - 1] ==> Key(y) != Key(s[|s| - 1])
  {
    var init := s[..|s| - 1];
    forall p, q | 0 <= p < q < |init| ensures Key(init[p]) != Key(init[q]) {
      assert init[p] == s[p] && init[q] == s[q];
    }
    forall y | y in init ensures Key(y) != Key(s[|s| - 1]) {
      var p :| 0 <= p < |init| && init[p] == y;
      assert s[p] == y;
    }
  }

  /** Sorting keeps keys pairwise different. */
  lemma {:induction false} SortKeepsUniqueKeys(s: seq<Bookmark>)
    requires UniqueKeys(s)
    ensures UniqueKeys(SortByFolderTitle(s))
    decreases |s|
  {
    if s != [] {
      var init := s[..|s| - 1];
      var x := s[|s| - 1];
      UniqueKeysInit(s);
      SortKeepsUniqueKeys(init);
      SortCorrect(init);
      var t := SortByFolderTitle(init);
      forall y | y in t ensures Key(y) != Key(x) {
        assert y in multiset(init);
      }
      InsertKeepsUniqueKeys(x, t);
    }
  }

  /** An already ordered list is left as it is. */
  lemma {:induction false} SortOfSorted(s: seq<Bookmark>)
    requires SortedByFolderTitle(s)
    ensures SortByFolderTitle(s) == s
    decreases |s|
  {
    if s != [] {
      var init := s[..|s| - 1];
      var x := s[|s| - 1];
      SortOfSorted(init);
      InsertPosAtEnd(x, init);
      assert s == init + [x];
    }
  }

  lemma {:induction false} InsertPosAtEnd(x: Bookmark, s: seq<Bookmark>)
    requires forall p :: 0 <= p < |s| ==> NoLater(s[p], x)
    ensures InsertPos(x, s) == |s|
    decreases |s|
  {
    if s != [] {
      assert forall p :: 0 <= p < |s| - 1 ==> s[1..][p] == s[p + 1];
      InsertPosAtEnd(x, s[1..]);
    }
  }

  // ------------------------------------------------------------------ phase 2

  /** `remaining.pop(j)` */
  function Remove(s: seq<Bookmark>, j: nat): (r: seq<Bookmark>)
    requires j < |s|
    ensures |r| == |s| - 1
  {
    s[..j] + s[j + 1..]
  }

  /**
   * The scan of phase 2 from anchor index `i`, probe index `j` and anchor
   * bookmark `a`, with `drops` appended so far. After a merge the scan compares
   * against `a` again when `staleAnchor` holds, as the source is written, and
   * against the bookmark just kept otherwise.
   */
  function Scan(rem: seq<Bookmark>, i: nat, j: nat, a: Bookmark, drops: seq<Bookmark>, policy: Policy, staleAnchor: bool)
    : (r: (seq<Bookmark>, seq<Bookmark>))
    requires i < j <= |rem|
    ensures |r.0| + |r.1| == |rem| + |drops|
    decreases |rem| - i, |rem| - j
  {
    if j < |rem| && rem[j].folderPath == a.folderPath then
      var b := rem[j];
      if Similar(a, b, policy) then
        var (keep, drop) := ResolveDupe(a, b, policy.preferShorterUrl);
        Scan(Remove(rem[i := keep], j), i, j, if staleAnchor then a else keep, drops + [drop], policy, staleAnchor)
      else
        Scan(rem, i, j + 1, a, drops, policy, staleAnchor)
    else if i + 1 < |rem| - 1 then
      Scan(rem, i + 1, i + 2, rem[i + 1], drops, policy, staleAnchor)
    else
      (rem, drops)
  }

  /** The outer loop of phase 2 entered at index `i`. */
  function Resume(rem: seq<Bookmark>, i: nat, drops: seq<Bookmark>, policy: Policy, staleAnchor: bool)
    : (r: (seq<Bookmark>, seq<Bookmark>))
    ensures |r.0| + |r.1| == |rem| + |drops|
  {
    if i < |rem| - 1 then Scan(rem, i, i + 1, rem[i], drops, policy, staleAnchor) else (rem, drops)
  }

  /** Phase 2 with the anchor refreshed after each merge: (kept, dropped in order). */
  function Phase2Spec(sorted: seq<Bookmark>, policy: Policy): (seq<Bookmark>, seq<Bookmark>) {
    Resume(sorted, 0, [], policy, false)
  }

  /** Phase 2 exactly as the source is written: the anchor `a` goes stale after a merge. */
  function Phase2AsWritten(sorted: seq<Bookmark>, policy: Policy): (r: (seq<Bookmark>, seq<Bookmark>))
    ensures |r.0| + |r.1| == |sorted|
  {
    Resume(sorted, 0, [], policy, true)
  }

  /** One merge of phase 2: the anchor it compared against and the neighbour. */
  datatype Merge = Merge(anchor: Bookmark, neighbour: Bookmark)

  /**
   * A merge that dropped `drop` was allowed: same folder, both links present,
   * titles similar enough, the dropped one is one of the pair (the neighbour
   * unless shorter keys are preferred, and then the one with the longer key),
   * and both come from `pool`.
   */
  predicate Justified(m: Merge, drop: Bookmark, pool: seq<Bookmark>, policy: Policy) {
    && m.anchor.folderPath == m.neighbour.folderPath
    && Similar(m.anchor, m.neighbour, policy)
    && (drop == m.anchor || drop == m.neighbour)
    && (!policy.preferShorterUrl ==> drop == m.neighbour)
    && (policy.preferShorterUrl ==> |Key(drop)| >= |Key(m.anchor)| && |Key(drop)| >= |Key(m.neighbour)|)
    && m.anchor in pool && m.neighbour in pool
  }

  predicate AllJustified(merges: seq<Merge>, drops: seq<Bookmark>, pool: seq<Bookmark>, policy: Policy) {
    |merges| == |drops| && forall m :: 0 <= m < |merges| ==> Justified(merges[m], drops[m], pool, policy)
  }

  lemma MultisetUpdate(s: seq<Bookmark>, i: nat, v: Bookmark)
    requires i < |s|
    ensures multiset(s[i := v]) + multiset{s[i]} == multiset(s) + multiset{v}
  {
    assert s[i := v] == s[..i] + [v] + s[i + 1..];
    assert s == s[..i] + [s[i]] + s[i + 1..];
  }

  lemma MultisetRemove(s: seq<Bookmark>, j: nat)
    requires j < |s|
    ensures multiset(Remove(s, j)) + multiset{s[j]} == multiset(s)
  {
    assert s == s[..j] + [s[j]] + s[j + 1..];
  }

  lemma MultisetAfterMerge(s: seq<Bookmark>, i: nat, j: nat, keep: Bookmark, drop: Bookmark)
    requires i < j < |s|
    requires (keep, drop) == (s[i], s[j]) || (keep, drop) == (s[j], s[i])
    ensures multiset(Remove(s[i := keep], j)) + multiset{drop} == multiset(s)
  {
    MultisetUpdate(s, i, keep);
    MultisetRemove(s[i := keep], j);
    assert s[i := keep][j] == s[j];
  }

  lemma OrderAfterMerge(s: seq<Bookmark>, i: nat, j: nat, keep: Bookmark)
    requires i < j < |s|
    requires keep == s[i] || keep == s[j]
    requires keep.folderPath == s[i].folderPath
    requires FolderSorted(s)
    ensures FolderSorted(Remove(s[i := keep], j))
  {
    var u := s[i := keep];
    var t := Remove(u, j);
    forall p, q | 0 <= p < q < |t| ensures LexLe(t[p].folderPath, t[q].folderPath) {
      var p' := if p < j then p else p + 1;
      var q' := if q < j then q else q + 1;
      assert t[p] == u[p'] && t[q] == u[q'];
      assert u[p'].folderPath == s[p'].folderPath && u[q'].folderPath == s[q'].folderPath;
    }
  }

  lemma UniqueAfterMerge(s: seq<Bookmark>, i: nat, j: nat, keep: Bookmark)
    requires i < j < |s|
    requires keep == s[i] || keep == s[j]
    requires UniqueKeys(s)
    ensures UniqueKeys(Remove(s[i := keep], j))
  {
    var u := s[i := keep];
    var t := Remove(u, j);
    forall p, q | 0 <= p < q < |t| ensures Key(t[p]) != Key(t[q]) {
      var p' := if p < j then p else p + 1;
      var q' := if q < j then q else q + 1;
      assert t[p] == u[p'] && t[q] == u[q'];
      assert p' != j && q' != j && p' < q';
      if p' == i {
        assert Key(s[i]) != Key(s[q']) && Key(s[j]) != Key(s[q']) by {
          if q' < j { assert Key(s[q']) != Key(s[j]); }
        }
      }
    }
  }

  /** What phase 2 keeps true from one merge to the next. */
  predicate Phase2Inv(remaining: seq<Bookmark>, drops: seq<Bookmark>, merges: seq<Merge>, sorted: seq<Bookmark>, policy: Policy) {
    && multiset(remaining) + multiset(drops) == multiset(sorted)
    && (FolderSorted(sorted) ==> FolderSorted(remaining))
    && (UniqueKeys(sorted) ==> UniqueKeys(remaining))
    && AllJustified(merges, drops, sorted, policy)
  }

  /** One merge keeps the invariant. */
  lemma MergeKeepsInv(remaining: seq<Bookmark>, i: nat, j: nat, drops: seq<Bookmark>, merges: seq<Merge>,
                      sorted: seq<Bookmark>, policy: Policy)
    requires i < j < |remaining|
    requires remaining[j].folderPath == remaining[i].folderPath
    requires Similar(remaining[i], remaining[j], policy)
    requires Phase2Inv(remaining, drops, merges, sorted, policy)
    ensures var r := ResolveDupe(remaining[i], remaining[j], policy.preferShorterUrl);
      Phase2Inv(Remove(remaining[i := r.0], j), drops + [r.1], merges + [Merge(remaining[i], remaining[j])], sorted, policy)
  {
    var a := remaining[i];
    var b := remaining[j];
    var (keep, drop) := ResolveDupe(a, b, policy.preferShorterUrl);
    MultisetAfterMerge(remaining, i, j, keep, drop);
    if FolderSorted(sorted) { OrderAfterMerge(remaining, i, j, keep); }
    if UniqueKeys(sorted) { UniqueAfterMerge(remaining, i, j, keep); }
    MergeJustified(remaining, i, j, drops, sorted, policy);
    JustifiedSnoc(merges, drops, sorted, policy, Merge(a, b), drop);
  }

  /** The merge of the anchor at `i` with the neighbour at `j` is justified by the pool. */
  lemma MergeJustified(remaining: seq<Bookmark>, i: nat, j: nat, drops: seq<Bookmark>, sorted: seq<Bookmark>, policy: Policy)
    requires i < j < |remaining|
    requires remaining[j].folderPath == remaining[i].folderPath
    requires Similar(remaining[i], remaining[j], policy)
    requires multiset(remaining) + multiset(drops) == multiset(sorted)
    ensures Justified(Merge(remaining[i], remaining[j]), ResolveDupe(remaining[i], remaining[j], policy.preferShorterUrl).1, sorted, policy)
  {
    var a := remaining[i];
    var b := remaining[j];
    assert a in multiset(remaining) && b in multiset(remaining);
    assert a in multiset(sorted) && b in multiset(sorted);
    KeyOfLink(a);
    KeyOfLink(b);
  }

  lemma JustifiedSnoc(merges: seq<Merge>, drops: seq<Bookmark>, pool: seq<Bookmark>, policy: Policy, m: Merge, d: Bookmark)
    requires AllJustified(merges, drops, pool, policy) && Justified(m, d, pool, policy)
    ensures AllJustified(merges + [m], drops + [d], pool, policy)
  {
    var merges' := merges + [m];
    var drops' := drops + [d];
    forall k | 0 <= k < |merges'| ensures Justified(merges'[k], drops'[k], pool, policy) {
      if k < |merges| {
        assert merges'[k] == merges[k] && drops'[k] == drops[k];
      }
    }
  }

  /** One merge keeps the invariant and is the next step of the scan. */
  lemma MergeStep(remaining: seq<Bookmark>, i: nat, j: nat, drops: seq<Bookmark>, merges: seq<Merge>,
                  sorted: seq<Bookmark>, policy: Policy)
    requires i < j < |remaining|
    requires remaining[j].folderPath == remaining[i].folderPath
    requires Similar(remaining[i], remaining[j], policy)
    requires Phase2Inv(remaining, drops, merges, sorted, policy)
    ensures var r := ResolveDupe(remaining[i], remaining[j], policy.preferShorterUrl);
      && Phase2Inv(Remove(remaining[i := r.0], j), drops + [r.1], merges + [Merge(remaining[i], remaining[j])], sorted, policy)
      && Scan(remaining, i, j, remaining[i], drops, policy, false)
         == Scan(Remove(remaining[i := r.0], j), i, j, r.0, drops + [r.1], policy, false)
  {
    MergeKeepsInv(remaining, i, j, drops, merges, sorted, policy);
  }

  /** A neighbour that is not similar is stepped over. */
  lemma ScanSkip(rem: seq<Bookmark>, i: nat, j: nat, a: Bookmark, drops: seq<Bookmark>, policy: Policy, staleAnchor: bool)
    requires i < j < |rem| && rem[j].folderPath == a.folderPath && !Similar(a, rem[j], policy)
    ensures Scan(rem, i, j, a, drops, policy, staleAnchor) == Scan(rem, i, j + 1, a, drops, policy, staleAnchor)
  {
  }

  /** Past the anchor's folder the scan moves on to the next anchor. */
  lemma ScanExit(rem: seq<Bookmark>, i: nat, j: nat, a: Bookmark, drops: seq<Bookmark>, policy: Policy, staleAnchor: bool)
    requires i < j <= |rem| && (j == |rem| || rem[j].folderPath != a.folderPath)
    ensures Scan(rem, i, j, a, drops, policy, staleAnchor) == Resume(rem, i + 1, drops, policy, staleAnchor)
  {
  }

  /** Phase 2 of `deduplicate`, with the anchor refreshed after every merge. */
  method Phase2(sorted: seq<Bookmark>, policy: Policy) returns (kept: seq<Bookmark>, drops: seq<Bookmark>, ghost merges: seq<Merge>)
    ensures (kept, drops) == Phase2Spec(sorted, policy)
    ensures multiset(kept) + multiset(drops) == multiset(sorted)
    ensures sorted != [] ==> kept != []
    ensures FolderSorted(sorted) ==> FolderSorted(kept)
    ensures UniqueKeys(sorted) ==> UniqueKeys(kept)
    ensures AllJustified(merges, drops, sorted, policy)
  {
    var remaining := sorted;
    drops := [];
    merges := [];
    var i: nat := 0;
    while i < |remaining| - 1
      invariant Resume(remaining, i, drops, policy, false) == Phase2Spec(sorted, policy)
      invariant Phase2Inv(remaining, drops, merges, sorted, policy)
      invariant sorted != [] ==> remaining != []
      decreases |remaining| - i
    {
      remaining, drops, merges := ScanAnchor(remaining, i, drops, merges, sorted, policy);
      i := i + 1;
    }
    kept := remaining;
  }

  /**
   * The inner loop of phase 2 for the anchor at `i`: every later bookmark of its
   * folder that is similar to the anchor is merged into it and removed.
   */
  method ScanAnchor(remaining0: seq<Bookmark>, i: nat, drops0: seq<Bookmark>, ghost merges0: seq<Merge>,
                    sorted: seq<Bookmark>, policy: Policy)
    returns (remaining: seq<Bookmark>, drops: seq<Bookmark>, ghost merges: seq<Merge>)
    requires i < |remaining0| - 1
    requires Resume(remaining0, i, drops0, policy, false) == Phase2Spec(sorted, policy)
    requires Phase2Inv(remaining0, drops0, merges0, sorted, policy)
    ensures i < |remaining| <= |remaining0|
    ensures Resume(remaining, i + 1, drops, policy, false) == Phase2Spec(sorted, policy)
    ensures Phase2Inv(remaining, drops, merges, sorted, policy)
  {
    remaining, drops, merges := remaining0, drops0, merges0;
    var a := remaining[i];
    var j := i + 1;
    while j < |remaining| && remaining[j].folderPath == a.folderPath
      invariant i < j <= |remaining| <= |remaining0|
      invariant a == remaining[i]
      invariant Scan(remaining, i, j, a, drops, policy, false) == Phase2Spec(sorted, policy)
      invariant Phase2Inv(remaining, drops, merges, sorted, policy)
      decreases |remaining| - j
    {
      var b := remaining[j];
      if Similar(a, b, policy) {
        MergeStep(remaining, i, j, drops, merges, sorted, policy);
        var (keep, drop) := ResolveDupe(a, b, policy.preferShorterUrl);
        remaining := remaining[i := keep];
        drops := drops + [drop];
        remaining := Remove(remaining, j);
        merges := merges + [Merge(a, b)];
        a := keep;
        continue;
      }
      ScanSkip(remaining, i, j, a, drops, policy, false);
      j := j + 1;
    }
    ScanExit(remaining, i, j, a, drops, policy, false);
  }

  // ------------------------------------------------------------ deduplicate

  /** What `deduplicate` returns: (kept, duplicates). */
  function DeduplicateSpec(bookmarks: seq<Bookmark>, policy: Policy): (seq<Bookmark>, seq<Bookmark>) {
    var soft := Phase2Spec(SortByFolderTitle(Firsts(bookmarks)), policy);
    (soft.0, Repeats(bookmarks) + soft.1)
  }

  /** `deduplicate` as the source is written, with the stale anchor of phase 2. */
  function DeduplicateAsWritten(bookmarks: seq<Bookmark>, policy: Policy): (seq<Bookmark>, seq<Bookmark>) {
    var soft := Phase2AsWritten(SortByFolderTitle(Firsts(bookmarks)), policy);
    (soft.0, Repeats(bookmarks) + soft.1)
  }

  lemma {:induction false} FirstsSubset(s: seq<Bookmark>)
    ensures forall x :: x in Firsts(s) ==> x in s
    decreases |s|
  {
    if s != [] {
      FirstsSubset(s[..|s| - 1]);
      assert s == s[..|s| - 1] + [s[|s| - 1]];
    }
  }

  /**
   * `deduplicate`: the kept bookmarks and the duplicates together are exactly
   * the bookmarks with a key; keyless bookmarks are in neither; kept keys are
   * pairwise different and kept folders ascend; each kept bookmark is the first
   * of the input with its key; the duplicates are phase 1's repeats followed by
   * one justified drop per soft merge.
   */
  method Deduplicate(bookmarks: seq<Bookmark>, policy: Policy)
    returns (kept: seq<Bookmark>, duplicates: seq<Bookmark>, ghost softMerges: seq<Merge>)
    ensures (kept, duplicates) == DeduplicateSpec(bookmarks, policy)
    ensures multiset(kept) + multiset(duplicates) == multiset(Keyed(bookmarks))
    ensures forall b :: Key(b) == "" ==> b !in kept && b !in duplicates
    ensures UniqueKeys(kept) && FolderSorted(kept)
    ensures forall x :: x in kept ==> FirstWithKey(x, bookmarks)
    ensures |kept| + |softMerges| == |KeysOf(bookmarks) - {""}|
    ensures kept == [] <==> KeysOf(bookmarks) - {""} == {}
    ensures duplicates == Repeats(bookmarks) + duplicates[|Repeats(bookmarks)|..]
    ensures AllJustified(softMerges, duplicates[|Repeats(bookmarks)|..], bookmarks, policy)
  {
    var survivors, exact := Phase1(bookmarks, policy.preferShorterUrl);
    var sorted := SortByFolderTitle(survivors);
    var soft;
    kept, soft, softMerges := Phase2(sorted, policy);
    duplicates := exact + soft;
    assert duplicates[|exact|..] == soft;
    KeptPartition(bookmarks, kept, soft, policy);
    KeptKeyless(bookmarks, kept, duplicates);
    KeptOrdered(bookmarks, kept, soft, policy);
    KeptFirst(bookmarks, kept, soft, policy);
    CountFacts(bookmarks, kept, soft, softMerges, policy);
    MergeFacts(bookmarks, soft, softMerges, policy);
  }

  /** The postconditions of `Phase2` on the sorted survivors of phase 1. */
  predicate Phase2Outcome(bookmarks: seq<Bookmark>, kept: seq<Bookmark>, soft: seq<Bookmark>, policy: Policy) {
    var sorted := SortByFolderTitle(Firsts(bookmarks));
    && multiset(kept) + multiset(soft) == multiset(sorted)
    && (sorted != [] ==> kept != [])
    && (FolderSorted(sorted) ==> FolderSorted(kept))
    && (UniqueKeys(sorted) ==> UniqueKeys(kept))
  }

  lemma KeptPartition(bookmarks: seq<Bookmark>, kept: seq<Bookmark>, soft: seq<Bookmark>, policy: Policy)
    requires Phase2Outcome(bookmarks, kept, soft, policy)
    ensures multiset(kept) + multiset(Repeats(bookmarks) + soft) == multiset(Keyed(bookmarks))
  {
    var survivors := Firsts(bookmarks);
    FirstsRepeatsPartition(bookmarks);
    SortCorrect(survivors);
  }

  lemma KeptKeyless(bookmarks: seq<Bookmark>, kept: seq<Bookmark>, duplicates: seq<Bookmark>)
    requires multiset(kept) + multiset(duplicates) == multiset(Keyed(bookmarks))
    ensures forall b :: Key(b) == "" ==> b !in kept && b !in duplicates
  {
    KeyedMembers(bookmarks);
    forall b | Key(b) == "" ensures b !in kept && b !in duplicates {
      assert b !in multiset(Keyed(bookmarks));
    }
  }

  lemma KeptOrdered(bookmarks: seq<Bookmark>, kept: seq<Bookmark>, soft: seq<Bookmark>, policy: Policy)
    requires Phase2Outcome(bookmarks, kept, soft, policy)
    ensures UniqueKeys(kept) && FolderSorted(kept)
  {
    var survivors := Firsts(bookmarks);
    var sorted := SortByFolderTitle(survivors);
    FirstsKeys(bookmarks);
    SortCorrect(survivors);
    SortedIsFolderSorted(sorted);
    SortKeepsUniqueKeys(survivors);
  }

  lemma KeptFirst(bookmarks: seq<Bookmark>, kept: seq<Bookmark>, soft: seq<Bookmark>, policy: Policy)
    requires Phase2Outcome(bookmarks, kept, soft, policy)
    ensures forall x :: x in kept ==> FirstWithKey(x, bookmarks)
  {
    var survivors := Firsts(bookmarks);
    var sorted := SortByFolderTitle(survivors);
    FirstsAreFirst(bookmarks);
    SortCorrect(survivors);
    forall x | x in kept ensures FirstWithKey(x, bookmarks) {
      assert x in multiset(kept);
      assert x in multiset(sorted);
      assert x in survivors;
    }
  }

  lemma CountFacts(bookmarks: seq<Bookmark>, kept: seq<Bookmark>, soft: seq<Bookmark>, softMerges: seq<Merge>, policy: Policy)
    requires Phase2Outcome(bookmarks, kept, soft, policy)
    requires |softMerges| == |soft|
    ensures |kept| + |softMerges| == |KeysOf(bookmarks) - {""}|
    ensures kept == [] <==> KeysOf(bookmarks) - {""} == {}
  {
    var survivors := Firsts(bookmarks);
    var sorted := SortByFolderTitle(survivors);
    FirstsKeys(bookmarks);
    SortCorrect(survivors);
    UniqueKeysCard(survivors);
    assert |multiset(kept) + multiset(soft)| == |multiset(sorted)|;
    assert |sorted| == |survivors| by {
      assert |multiset(sorted)| == |multiset(survivors)|;
    }
  }

  lemma MergeFacts(bookmarks: seq<Bookmark>, soft: seq<Bookmark>, softMerges: seq<Merge>, policy: Policy)
    requires AllJustified(softMerges, soft, SortByFolderTitle(Firsts(bookmarks)), policy)
    ensures AllJustified(softMerges, soft, bookmarks, policy)
  {
    var survivors := Firsts(bookmarks);
    var sorted := SortByFolderTitle(survivors);
    SortCorrect(survivors);
    FirstsSubset(bookmarks);
    forall m | 0 <= m < |softMerges|
      ensures softMerges[m].anchor in bookmarks && softMerges[m].neighbour in bookmarks
    {
      assert softMerges[m].anchor in multiset(sorted) && softMerges[m].neighbour in multiset(sorted);
    }
  }

  // ------------------------------------------------------------- test cases

  lemma KeysOfOne(a: Bookmark)
    ensures KeysOf([a]) == {Key(a)}
  {
    assert a in [a];
  }

  lemma KeysOfTwo(a: Bookmark, b: Bookmark)
    ensures KeysOf([a, b]) == {Key(a), Key(b)}
  {
    assert a in [a, b] && b in [a, b];
  }

  /** Phase 1 on one bookmark. */
  lemma FirstsOne(a: Bookmark)
    ensures Firsts([a]) == (if Key(a) != "" then [a] else [])
    ensures Repeats([a]) == []
  {
    assert [a] == [] + [a];
    FirstsSnoc([], a);
  }

  /** Phase 1 on two bookmarks: the second survives exactly when its key is new. */
  lemma FirstsTwo(a: Bookmark, b: Bookmark)
    requires Key(a) != ""
    ensures Firsts([a, b]) == [a] + (if Key(b) != "" && Key(b) != Key(a) then [b] else [])
    ensures Repeats([a, b]) == (if Key(b) != "" && Key(b) == Key(a) then [b] else [])
  {
    assert [a, b] == [a] + [b];
    FirstsOne(a);
    FirstsSnoc([a], b);
    KeysOfOne(a);
  }

  lemma FirstsThree(a: Bookmark, b: Bookmark, c: Bookmark)
    requires Key(a) != "" && Key(b) != "" && Key(c) != ""
    requires Key(a) != Key(b) && Key(a) != Key(c) && Key(b) != Key(c)
    ensures Firsts([a, b, c]) == [a, b, c]
    ensures Repeats([a, b, c]) == []
  {
    assert [a, b, c] == [a, b] + [c];
    FirstsTwo(a, b);
    FirstsSnoc([a, b], c);
    KeysOfTwo(a, b);
  }

  lemma SortOne(a: Bookmark)
    ensures SortByFolderTitle([a]) == [a]
  {
    assert [a][..0] == [];
  }

  /** Phase 2 has nothing to compare in a list of one. */
  lemma Phase2One(a: Bookmark, drops: seq<Bookmark>, policy: Policy, staleAnchor: bool)
    ensures Resume([a], 0, drops, policy, staleAnchor) == ([a], drops)
    ensures Scan([a], 0, 1, a, drops, policy, staleAnchor) == ([a], drops)
  {
  }

  /** One merge of the scan, as the two anchor rules perform it. */
  lemma ScanMerge(rem: seq<Bookmark>, j: nat, a: Bookmark, drops: seq<Bookmark>, policy: Policy, staleAnchor: bool)
    requires 0 < j < |rem| && rem[j].folderPath == a.folderPath && Similar(a, rem[j], policy)
    ensures var r := ResolveDupe(a, rem[j], policy.preferShorterUrl);
      Scan(rem, 0, j, a, drops, policy, staleAnchor)
      == Scan(Remove(rem[0 := r.0], j), 0, j, if staleAnchor then a else r.0, drops + [r.1], policy, staleAnchor)
  {
  }

  /** tests/test_dedup.py:5-11 and 21-25: of two bookmarks with one key the first is kept. */
  lemma ExactDuplicatesCollapse(a: Bookmark, b: Bookmark, policy: Policy)
    requires Key(a) == Key(b) != ""
    ensures DeduplicateSpec([a, b], policy) == ([a], [b])
  {
    FirstsTwo(a, b);
    assert Firsts([a, b]) == [a];
    SortOne(a);
    Phase2One(a, [], policy, false);
    assert Phase2Spec([a], policy) == ([a], []);
    assert Repeats([a, b]) + [] == [b];
  }

  /** tests/test_dedup.py:28-31: a bookmark without any URL is in neither output. */
  lemma KeylessSkipped(a: Bookmark, policy: Policy)
    requires Key(a) == ""
    ensures DeduplicateSpec([a], policy) == ([], [])
  {
    FirstsOne(a);
  }

  /** tests/test_dedup.py:13-18: two similar titles in one folder become one kept and one duplicate. */
  lemma SoftDuplicatesCollapse(a: Bookmark, b: Bookmark, policy: Policy)
    requires Key(a) != Key(b)
    requires a.folderPath == b.folderPath
    requires Similar(a, b, policy) && Similar(b, a, policy)
    ensures |DeduplicateSpec([a, b], policy).0| == 1
    ensures |DeduplicateSpec([a, b], policy).1| == 1
  {
    KeyOfLink(a);
    KeyOfLink(b);
    FirstsTwo(a, b);
    assert Firsts([a, b]) == [a, b];
    assert Repeats([a, b]) == [];
    var t := SortByFolderTitle([a, b]);
    SoftPairMerges(t, [a, b], policy);
  }

  /** Sorting two bookmarks yields two of them again. */
  lemma SortedPairMembers(s: seq<Bookmark>, t: seq<Bookmark>)
    requires |s| == 2 && t == SortByFolderTitle(s)
    ensures |t| == 2 && t[0] in s && t[1] in s
  {
    SortCorrect(s);
    assert |multiset(t)| == |multiset(s)|;
    assert t[0] in multiset(s) && t[1] in multiset(s);
  }

  lemma SoftPairMerges(t: seq<Bookmark>, s: seq<Bookmark>, policy: Policy)
    requires |s| == 2 && s[0].folderPath == s[1].folderPath
    requires Similar(s[0], s[1], policy) && Similar(s[1], s[0], policy)
    requires t == SortByFolderTitle(s)
    ensures |Phase2Spec(t, policy).0| == 1 && |Phase2Spec(t, policy).1| == 1
  {
    SortedPairMembers(s, t);
    assert t[0].folderPath == t[1].folderPath && Similar(t[0], t[1], policy);
    var r := ResolveDupe(t[0], t[1], policy.preferShorterUrl);
    assert Phase2Spec(t, policy) == Scan(t, 0, 1, t[0], [], policy, false);
    ScanMerge(t, 1, t[0], [], policy, false);
    assert Remove(t[0 := r.0], 1) == [r.0];
    Phase2One(r.0, [] + [r.1], policy, false);
  }

  // ------------------------------------------------------------ the finding

  /**
   * Three bookmarks in one folder, in title order, all similar, with keys of
   * lengths |b| < |a| < |c| and shorter keys preferred: as written, `a` drops
   * and `b` takes its place, but the stale anchor `a` is then merged with `c`
   * and written back over `b`, so `b` is lost and `a` is both kept and dropped.
   * With the anchor refreshed, `b` is kept and `a` and `c` are dropped.
   */
  lemma StaleAnchorLosesBookmark(a: Bookmark, b: Bookmark, c: Bookmark, policy: Policy)
    requires a.folderPath == b.folderPath == c.folderPath
    requires SortedByFolderTitle([a, b, c])
    requires forall x, y :: x in [a, b, c] && y in [a, b, c] ==> Similar(x, y, policy)
    requires policy.preferShorterUrl
    requires 0 < |Key(b)| < |Key(a)| < |Key(c)|
    ensures DeduplicateAsWritten([a, b, c], policy) == ([a], [a, c])
    ensures b !in DeduplicateAsWritten([a, b, c], policy).0 && b !in DeduplicateAsWritten([a, b, c], policy).1
    ensures DeduplicateSpec([a, b, c], policy) == ([b], [a, c])
  {
    var s := [a, b, c];
    FirstsThree(a, b, c);
    SortOfSorted(s);
    assert Similar(a, b, policy) && Similar(a, c, policy) && Similar(b, c, policy);
    StaleScan(a, b, c, policy);
    FreshScan(a, b, c, policy);
    assert SortByFolderTitle(Firsts(s)) == s;
    assert [] + [a, c] == [a, c];
  }

  lemma StaleScan(a: Bookmark, b: Bookmark, c: Bookmark, policy: Policy)
    requires a.folderPath == b.folderPath == c.folderPath
    requires Similar(a, b, policy) && Similar(a, c, policy)
    requires policy.preferShorterUrl
    requires 0 < |Key(b)| < |Key(a)| < |Key(c)|
    ensures Phase2AsWritten([a, b, c], policy) == ([a], [a, c])
  {
    assert ResolveDupe(a, b, true) == (b, a);
    assert ResolveDupe(a, c, true) == (a, c);
    assert Phase2AsWritten([a, b, c], policy) == Scan([a, b, c], 0, 1, a, [], policy, true);
    ScanMerge([a, b, c], 1, a, [], policy, true);
    assert Remove([a, b, c][0 := b], 1) == [b, c];
    assert [] + [a] == [a];
    ScanMerge([b, c], 1, a, [a], policy, true);
    assert Remove([b, c][0 := a], 1) == [a];
    assert [a] + [c] == [a, c];
    Phase2One(a, [a, c], policy, true);
  }

  lemma FreshScan(a: Bookmark, b: Bookmark, c: Bookmark, policy: Policy)
    requires a.folderPath == b.folderPath == c.folderPath
    requires Similar(a, b, policy) && Similar(b, c, policy)
    requires policy.preferShorterUrl
    requires 0 < |Key(b)| < |Key(a)| < |Key(c)|
    ensures Phase2Spec([a, b, c], policy) == ([b], [a, c])
  {
    assert ResolveDupe(a, b, true) == (b, a);
    assert ResolveDupe(b, c, true) == (b, c);
    assert Phase2Spec([a, b, c], policy) == Scan([a, b, c], 0, 1, a, [], policy, false);
    ScanMerge([a, b, c], 1, a, [], policy, false);
    assert Remove([a, b, c][0 := b], 1) == [b, c];
    assert [] + [a] == [a];
    ScanMerge([b, c], 1, b, [a], policy, false);
    assert Remove([b, c][0 := b], 1) == [b];
    assert [a] + [c] == [a, c];
    Phase2One(b, [a, c], policy, false);
  }
}
