/**
 * `cbclean.report`: the figures the report templates are rendered from. Template
 * rendering and file writing are not part of this model; `_by_folder` and the
 * two length fields of the context are.
 */
module Report {
  import opened Text
  import opened Utils
  import Propose

  /** `b.folder_path or "Bookmarks"` */
  function FolderKey(b: Bookmark): string {
    if b.folderPath == "" then "Bookmarks" else b.folderPath
  }

  /** How many bookmarks are counted under `key`. */
  function CountOf(s: seq<Bookmark>, key: string): nat
    decreases |s|
  {
    if s == [] then 0 else CountOf(s[..|s| - 1], key) + (if FolderKey(s[|s| - 1]) == key then 1 else 0)
  }

  function FolderKeys(s: seq<Bookmark>): seq<string> {
    seq(|s|, i requires 0 <= i < |s| => FolderKey(s[i]))
  }

  /** The (key, count) items for the keys `ks`, in the order of `ks`. */
  function Items(ks: seq<string>, s: seq<Bookmark>): (r: seq<(string, nat)>)
    ensures |r| == |ks|
    ensures forall i :: 0 <= i < |ks| ==> r[i] == (ks[i], CountOf(s, ks[i]))
    decreases |ks|
  {
    if ks == [] then [] else [(ks[0], CountOf(s, ks[0]))] + Items(ks[1..], s)
  }

  /** What `_by_folder` returns: its items in ascending key order. */
  function ByFolderSpec(s: seq<Bookmark>): seq<(string, nat)> {
    Items(SortedSet(FolderKeys(s)), s)
  }

  /** The sum of the counts. */
  function Total(r: seq<(string, nat)>): nat
    decreases |r|
  {
    if r == [] then 0 else r[0].1 + Total(r[1..])
  }

  /** `_by_folder`: counters in a dictionary, then its items sorted by key. */
  method ByFolder(bookmarks: seq<Bookmark>) returns (r: seq<(string, nat)>)
    ensures r == ByFolderSpec(bookmarks)
  {
    var m: map<string, nat> := map[];
    var order: seq<string> := [];
    for k := 0 to |bookmarks|
      invariant CounterInv(bookmarks[..k], m, order)
    {
      TakeSnoc(bookmarks, k);
      m, order := CountOne(bookmarks[..k], bookmarks[k], m, order);
    }
    assert bookmarks[..|bookmarks|] == bookmarks;
    var ks := SortedSet(order);
    SortedSetCorrect(order);
    SortedSetCorrect(FolderKeys(bookmarks));
    StrictlySortedUnique(ks, SortedSet(FolderKeys(bookmarks)));
    r := seq(|ks|, i requires 0 <= i < |ks| => (ks[i], m[ks[i]]));
  }

  /** The counter after the bookmarks `s`, with its keys in insertion order. */
  ghost predicate CounterInv(s: seq<Bookmark>, m: map<string, nat>, order: seq<string>) {
    && (forall y :: y in order <==> y in m)
    && (forall y :: y in m <==> y in FolderKeys(s))
    && (forall y :: y in m ==> m[y] == CountOf(s, y))
  }

  /** One round of the counting loop: `counts[key] = counts.get(key, 0) + 1`. */
  method CountOne(s: seq<Bookmark>, b: Bookmark, m0: map<string, nat>, order0: seq<string>)
    returns (m: map<string, nat>, order: seq<string>)
    requires CounterInv(s, m0, order0)
    ensures CounterInv(s + [b], m, order)
  {
    var key := if b.folderPath == "" then "Bookmarks" else b.folderPath;
    assert key == FolderKey(b);
    var count := if key in m0 then m0[key] else 0;
    order := order0;
    if key !in m0 {
      order := order + [key];
      CountAbsent(s, key);
    }
    m := m0[key := count + 1];
    CounterStep(s, b, m0, order0, m, order);
  }

  lemma CounterStep(s: seq<Bookmark>, b: Bookmark, m0: map<string, nat>, order0: seq<string>, m: map<string, nat>, order: seq<string>)
    requires CounterInv(s, m0, order0)
    requires FolderKey(b) !in m0 ==> CountOf(s, FolderKey(b)) == 0
    requires m == m0[FolderKey(b) := (if FolderKey(b) in m0 then m0[FolderKey(b)] else 0) + 1]
    requires order == if FolderKey(b) in m0 then order0 else order0 + [FolderKey(b)]
    ensures CounterInv(s + [b], m, order)
  {
    FolderKeysSnoc(s, b);
    forall y | y in m
      ensures m[y] == CountOf(s + [b], y)
    {
      CountSnoc(s, b, y);
    }
  }

  lemma FolderKeysSnoc(s: seq<Bookmark>, b: Bookmark)
    ensures FolderKeys(s + [b]) == FolderKeys(s) + [FolderKey(b)]
  {
  }

  lemma CountSnoc(s: seq<Bookmark>, b: Bookmark, y: string)
    ensures CountOf(s + [b], y) == CountOf(s, y) + (if FolderKey(b) == y then 1 else 0)
  {
    assert (s + [b])[..|s|] == s;
  }

  lemma {:induction false} CountAbsent(s: seq<Bookmark>, key: string)
    requires key !in FolderKeys(s)
    ensures CountOf(s, key) == 0
    decreases |s|
  {
    if s != [] {
      var init := s[..|s| - 1];
      assert FolderKeys(s) == FolderKeys(init) + [FolderKey(s[|s| - 1])];
      CountAbsent(init, key);
    }
  }

  lemma {:induction false} CountPresent(s: seq<Bookmark>, key: string)
    requires key in FolderKeys(s)
    ensures CountOf(s, key) >= 1
    decreases |s|
  {
    var init := s[..|s| - 1];
    assert FolderKeys(s) == FolderKeys(init) + [FolderKey(s[|s| - 1])];
    if FolderKey(s[|s| - 1]) != key {
      CountPresent(init, key);
    }
  }

  /** No key twice. */
  predicate Distinct(ks: seq<string>) {
    forall i, j :: 0 <= i < j < |ks| ==> ks[i] != ks[j]
  }

  /** Adding one bookmark adds one to the total exactly when its key is listed. */
  lemma {:induction false} TotalSnoc(ks: seq<string>, s: seq<Bookmark>, b: Bookmark)
    requires Distinct(ks)
    ensures Total(Items(ks, s + [b])) == Total(Items(ks, s)) + (if FolderKey(b) in ks then 1 else 0)
    decreases |ks|
  {
    if ks != [] {
      TotalSnoc(ks[1..], s, b);
      CountSnoc(s, b, ks[0]);
      if FolderKey(b) == ks[0] {
        assert FolderKey(b) !in ks[1..];
      } else {
        assert FolderKey(b) in ks <==> FolderKey(b) in ks[1..];
      }
    }
  }

  lemma {:induction false} TotalEmpty(ks: seq<string>)
    ensures Total(Items(ks, [])) == 0
    decreases |ks|
  {
    if ks != [] { TotalEmpty(ks[1..]); }
  }

  /** Counting under a duplicate-free list of keys that covers every bookmark counts every bookmark once. */
  lemma {:induction false} TotalCovers(ks: seq<string>, s: seq<Bookmark>)
    requires Distinct(ks)
    requires forall i :: 0 <= i < |s| ==> FolderKey(s[i]) in ks
    ensures Total(Items(ks, s)) == |s|
    decreases |s|
  {
    if s == [] {
      TotalEmpty(ks);
    } else {
      var init, b := s[..|s| - 1], s[|s| - 1];
      assert s == init + [b];
      assert forall i :: 0 <= i < |init| ==> init[i] == s[i];
      assert FolderKey(b) in ks;
      TotalCovers(ks, init);
      TotalSnoc(ks, init, b);
    }
  }

  /** The keys of a list of items, in order. */
  function ItemKeys(r: seq<(string, nat)>): seq<string> {
    seq(|r|, i requires 0 <= i < |r| => r[i].0)
  }

  /**
   * The keys of `_by_folder` are in strictly ascending order, and they are
   * exactly the keys of the bookmarks.
   */
  lemma ByFolderKeys(s: seq<Bookmark>)
    ensures StrictlySorted(ItemKeys(ByFolderSpec(s)))
    ensures forall key :: key in ItemKeys(ByFolderSpec(s)) <==> exists b :: b in s && FolderKey(b) == key
  {
    var ks := SortedSet(FolderKeys(s));
    SortedSetCorrect(FolderKeys(s));
    assert ItemKeys(ByFolderSpec(s)) == ks;
    forall key ensures key in ks <==> exists b :: b in s && FolderKey(b) == key {
      if exists b :: b in s && FolderKey(b) == key {
        var b :| b in s && FolderKey(b) == key;
        var p :| 0 <= p < |s| && s[p] == b;
        assert FolderKeys(s)[p] == key;
      }
      if key in ks {
        var p :| 0 <= p < |s| && FolderKeys(s)[p] == key;
        assert s[p] in s;
      }
    }
  }

  /** Every listed count is the number of bookmarks under its key, and at least one. */
  lemma ByFolderCounts(s: seq<Bookmark>)
    ensures forall i :: 0 <= i < |ByFolderSpec(s)| ==>
      ByFolderSpec(s)[i].1 == CountOf(s, ByFolderSpec(s)[i].0) >= 1
  {
    var ks := SortedSet(FolderKeys(s));
    SortedSetCorrect(FolderKeys(s));
    forall i | 0 <= i < |ks| ensures CountOf(s, ks[i]) >= 1 {
      assert ks[i] in ks;
      CountPresent(s, ks[i]);
    }
  }

  /** The counts add up to the number of bookmarks. */
  lemma ByFolderTotal(s: seq<Bookmark>)
    ensures Total(ByFolderSpec(s)) == |s|
  {
    var ks := SortedSet(FolderKeys(s));
    SortedSetCorrect(FolderKeys(s));
    forall i | 0 <= i < |s| ensures FolderKey(s[i]) in ks {
      assert FolderKeys(s)[i] == FolderKey(s[i]);
    }
    TotalCovers(ks, s);
  }

  /** A bookmark outside every folder is counted under "Bookmarks". */
  lemma UnfiledCounted(s: seq<Bookmark>, b: Bookmark)
    requires b in s && b.folderPath == ""
    ensures "Bookmarks" in ItemKeys(ByFolderSpec(s))
  {
    ByFolderKeys(s);
    assert FolderKey(b) == "Bookmarks";
  }

  /** The figures of the context `render_reports` passes to its templates. */
  datatype ReportContext = ReportContext(total: nat, duplicates: nat, byFolder: seq<(string, nat)>, plan: seq<Propose.PlanItem>)

  /** The rendering context; its folder counts add up to its total. */
  function Context(bookmarks: seq<Bookmark>, duplicates: seq<Bookmark>, plan: seq<Propose.PlanItem>): (c: ReportContext)
    ensures c.total == |bookmarks| && c.duplicates == |duplicates|
    ensures Total(c.byFolder) == c.total
  {
    ByFolderTotal(bookmarks);
    ReportContext(|bookmarks|, |duplicates|, ByFolderSpec(bookmarks), plan)
  }
}
