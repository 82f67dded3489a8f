/**
 * The self-contained parts of `cbclean.classify_llm`: batching, label
 * sanitising, reading a decoded reply, writing labels back onto bookmarks,
 * and the batch loop of `classify_by_llm` with its growing set of allowed
 * labels. The language model is a parameter: the decoded reply to each batch.
 */
module ClassifyLlm {
  import opened Optional
  import opened Text
  import opened Utils
  import opened Json

  // ------------------------------------------------------------------- _chunks

  function MinNat(x: nat, y: nat): nat {
    if x <= y then x else y
  }

  /** What `_chunks(xs, n)` yields from index `i` on: `xs[i:i + n]`, then the rest. */
  function ChunksFrom<T>(xs: seq<T>, i: nat, n: nat): seq<seq<T>>
    requires n >= 1
    decreases |xs| - i
  {
    if i >= |xs| then [] else [xs[i..MinNat(i + n, |xs|)]] + ChunksFrom(xs, i + n, n)
  }

  function Chunks<T>(xs: seq<T>, n: nat): seq<seq<T>>
    requires n >= 1
  {
    ChunksFrom(xs, 0, n)
  }

  function Flatten<T>(xss: seq<seq<T>>): seq<T>
    decreases |xss|
  {
    if xss == [] then [] else xss[0] + Flatten(xss[1..])
  }

  /** `_chunks`: the generator's `while i < L` loop, collected. */
  method ChunksOf<T>(xs: seq<T>, n: nat) returns (r: seq<seq<T>>)
    requires n >= 1
    ensures r == Chunks(xs, n)
  {
    r := [];
    var i := 0;
    while i < |xs|
      invariant r + ChunksFrom(xs, i, n) == Chunks(xs, n)
      decreases |xs| - i
    {
      r := r + [xs[i..MinNat(i + n, |xs|)]];
      i := i + n;
    }
  }

  /**
   * The chunks put back together are the input; every chunk but the last holds
   * `n` elements and the last holds between 1 and `n`.
   */
  lemma {:induction false} ChunksProps<T>(xs: seq<T>, i: nat, n: nat)
    requires n >= 1 && i <= |xs|
    ensures Flatten(ChunksFrom(xs, i, n)) == xs[i..]
    ensures forall k :: 0 <= k < |ChunksFrom(xs, i, n)| - 1 ==> |ChunksFrom(xs, i, n)[k]| == n
    ensures |ChunksFrom(xs, i, n)| > 0 ==> 1 <= |ChunksFrom(xs, i, n)[|ChunksFrom(xs, i, n)| - 1]| <= n
    decreases |xs| - i
  {
    var c := ChunksFrom(xs, i, n);
    if i < |xs| {
      var j := MinNat(i + n, |xs|);
      if i + n <= |xs| {
        ChunksProps(xs, i + n, n);
      }
      assert c[1..] == ChunksFrom(xs, i + n, n);
      assert xs[i..] == xs[i..j] + xs[j..];
      if i + n >= |xs| {
        assert ChunksFrom(xs, i + n, n) == [];
      }
      forall k | 0 <= k < |c| - 1 ensures |c[k]| == n {
        if k > 0 { assert c[k] == c[1..][k - 1]; }
      }
    }
  }

  // ------------------------------------------------------------ _sanitize_label

  /** The words refused as labels, compared in lower case. */
  const LanguageWords: seq<string> := ["ru", "en", "ua", "de", "lang", "language"]

  /** The characters `[A-Za-z0-9\- _+]` lets through. */
  predicate IsLabelChar(c: char) {
    'A' <= c <= 'Z' || 'a' <= c <= 'z' || '0' <= c <= '9' || c == '-' || c == ' ' || c == '_' || c == '+'
  }

  /** `[p.strip() for p in pieces if p.strip()]` */
  function StrippedPieces(pieces: seq<string>): (r: seq<string>)
    ensures forall p :: p in r ==> p != ""
    decreases |pieces|
  {
    if pieces == [] then []
    else StrippedPieces(pieces[..|pieces| - 1]) + (if Strip(pieces[|pieces| - 1]) != "" then [Strip(pieces[|pieces| - 1])] else [])
  }

  /** `re.sub(r"[^A-Za-z0-9\- _+]+", "", p)` */
  function KeepLabelChars(p: string): (r: string)
    ensures forall c :: c in r ==> IsLabelChar(c)
    decreases |p|
  {
    if p == [] then [] else (if IsLabelChar(p[0]) then [p[0]] else []) + KeepLabelChars(p[1..])
  }

  function DropSpaces(q: string): (r: string)
    ensures |r| <= |q| && forall c :: c in r ==> c in q
    decreases |q|
  {
    if q != [] && IsSpace(q[0]) then DropSpaces(q[1..]) else q
  }

  /** `re.sub(r"\s+", " ", q)` */
  function CollapseSpaces(q: string): (r: string)
    ensures forall c :: c in r ==> c in q || c == ' '
    decreases |q|
  {
    if q == [] then []
    else if IsSpace(q[0]) then [' '] + CollapseSpaces(DropSpaces(q[1..]))
    else [q[0]] + CollapseSpaces(q[1..])
  }

  /** One segment cleaned: filtered, spaces collapsed, stripped, cut to 32 characters. */
  function CleanSegment(p: string): (q: string)
    ensures |q| <= 32 && forall c :: c in q ==> IsLabelChar(c)
  {
    var q := Strip(CollapseSpaces(KeepLabelChars(p)));
    if |q| > 32 then q[..32] else q
  }

  /** `clean_parts`: the non-empty cleaned segments, in order. */
  function CleanParts(parts: seq<string>): (r: seq<string>)
    ensures |r| <= |parts|
    ensures forall q :: q in r ==> q != "" && |q| <= 32 && forall c :: c in q ==> IsLabelChar(c)
    decreases |parts|
  {
    if parts == [] then []
    else
      var q := CleanSegment(parts[|parts| - 1]);
      CleanParts(parts[..|parts| - 1]) + (if q != "" then [q] else [])
  }

  /** What `_sanitize_label` returns. */
  function Sanitized(s: string): string {
    var t := Strip(s);
    if t == "" then ""
    else if Lower(t) in LanguageWords then ""
    else
      var parts := StrippedPieces(Split(t, '/'));
      if parts == [] then ""
      else
        var clean := CleanParts(parts[..MinNat(3, |parts|)]);
        if clean == [] then "" else Join(clean, '/')
  }

  /** A label as `_sanitize_label` shapes it: one to three '/'-separated segments, each short and plain. */
  predicate WellFormedLabel(r: string) {
    var segs := Split(r, '/');
    && 1 <= |segs| <= 3
    && forall seg :: seg in segs ==> seg != "" && |seg| <= 32 && forall c :: c in seg ==> IsLabelChar(c)
  }

  /** The loop of `_sanitize_label` over `parts[:3]`, building `clean_parts`. */
  method CleanPartsOf(first: seq<string>) returns (clean: seq<string>)
    ensures clean == CleanParts(first)
  {
    clean := [];
    for k := 0 to |first|
      invariant clean == CleanParts(first[..k])
    {
      TakeSnoc(first, k);
      var q := CleanSegment(first[k]);
      assert CleanParts(first[..k + 1]) == CleanParts(first[..k]) + (if q != "" then [q] else []);
      if q == "" {
        continue;
      }
      clean := clean + [q];
    }
    assert first[..|first|] == first;
  }

  /** `_sanitize_label` */
  method SanitizeLabel(s: string) returns (r: string)
    ensures r == Sanitized(s)
  {
    var t := Strip(s);
    if t == "" {
      return "";
    }
    if Lower(t) in LanguageWords {
      return "";
    }
    var parts := StrippedPieces(Split(t, '/'));
    if parts == [] {
      return "";
    }
    var clean := CleanPartsOf(parts[..MinNat(3, |parts|)]);
    if clean == [] {
      return "";
    }
    r := Join(clean, '/');
  }

  /**
   * Blank input and the language words give the empty label; a non-empty
   * sanitised label has one to three segments, each non-empty, at most 32
   * plain characters.
   */
  lemma SanitizedWellFormed(s: string)
    ensures Strip(s) == "" ==> Sanitized(s) == ""
    ensures Lower(Strip(s)) in LanguageWords ==> Sanitized(s) == ""
    ensures Sanitized(s) != "" ==> WellFormedLabel(Sanitized(s))
  {
    var t := Strip(s);
    if t != "" && Lower(t) !in LanguageWords {
      var parts := StrippedPieces(Split(t, '/'));
      if parts != [] {
        var clean := CleanParts(parts[..MinNat(3, |parts|)]);
        if clean != [] {
          assert forall q :: q in clean ==> '/' !in q by {
            assert !IsLabelChar('/');
          }
          SplitOfJoin(clean, '/');
        }
      }
    }
  }

  // ------------------------------------------------------------- _parse_result

  /**
   * `_parse_result`: the assignments and the new labels of a decoded reply. An
   * object gives its `assignments` list and the `str` of each `new_labels`
   * entry, each missing or not a list counting as empty; a list is all
   * assignments; anything else gives nothing.
   */
  function ParseResult(data: Json): (r: (seq<Json>, seq<string>))
    ensures data.JList? ==> r == (data.items, [])
    ensures !data.JList? && !data.JObj? ==> r == ([], [])
    ensures data.JObj? && Get(data.fields, "assignments").Some? && Get(data.fields, "assignments").value.JList? ==>
      r.0 == Get(data.fields, "assignments").value.items
    ensures data.JObj? && !(Get(data.fields, "assignments").Some? && Get(data.fields, "assignments").value.JList?) ==> r.0 == []
    ensures data.JObj? && !(Get(data.fields, "new_labels").Some? && Get(data.fields, "new_labels").value.JList?) ==> r.1 == []
    ensures data.JObj? && Get(data.fields, "new_labels").Some? && Get(data.fields, "new_labels").value.JList? ==>
      var nl := Get(data.fields, "new_labels").value.items;
      |r.1| == |nl| && forall i :: 0 <= i < |nl| ==> r.1[i] == Str(nl[i])
  {
    match data
    case JObj(fields) =>
      var assignments := GetOr(fields, "assignments", JList([]));
      var newLabels := GetOr(fields, "new_labels", JList([]));
      (if assignments.JList? then assignments.items else [],
       if newLabels.JList? then seq(|newLabels.items|, i requires 0 <= i < |newLabels.items| => Str(newLabels.items[i])) else [])
    case JList(items) => (items, [])
    case _ => ([], [])
  }

  // ------------------------------------------------------------- _apply_labels

  /** Every entry of `labs` through `_sanitize_label(str(x))`. */
  function SanitizedAll(labs: seq<Json>): (r: seq<string>)
    ensures |r| == |labs|
    decreases |labs|
  {
    if labs == [] then [] else SanitizedAll(labs[..|labs| - 1]) + [Sanitized(Str(labs[|labs| - 1]))]
  }

  lemma {:induction false} SanitizedAllAt(labs: seq<Json>, j: nat)
    requires j < |labs|
    ensures SanitizedAll(labs)[j] == Sanitized(Str(labs[j]))
    decreases |labs|
  {
    if j < |labs| - 1 {
      SanitizedAllAt(labs[..|labs| - 1], j);
    }
  }

  /** The non-empty members of `xs` that are in `allowed`, in order. */
  function AllowedOf(xs: seq<string>, allowed: seq<string>): (r: seq<string>)
    ensures forall x :: x in r ==> x != "" && x in allowed
    decreases |xs|
  {
    if xs == [] then []
    else
      var x := xs[|xs| - 1];
      AllowedOf(xs[..|xs| - 1], allowed) + (if x != "" && x in allowed then [x] else [])
  }

  lemma SanitizedAllSnoc(labs: seq<Json>, j: Json)
    ensures SanitizedAll(labs + [j]) == SanitizedAll(labs) + [Sanitized(Str(j))]
  {
    assert (labs + [j])[..|labs|] == labs;
  }

  lemma AllowedOfSnoc(xs: seq<string>, x: string, allowed: seq<string>)
    ensures AllowedOf(xs + [x], allowed) == AllowedOf(xs, allowed) + (if x != "" && x in allowed then [x] else [])
  {
    assert (xs + [x])[..|xs|] == xs;
  }

  /** `labels` of one assignment: the sanitised entries that are non-empty and allowed, in order. */
  function EntryLabels(labs: seq<Json>, allowed: seq<string>): seq<string> {
    AllowedOf(SanitizedAll(labs), allowed)
  }

  /** `b.tags = sorted(set((b.tags or []) + labels))` */
  function Merged(b: Bookmark, labels: seq<string>): Bookmark {
    b.(tags := SortedSet(b.tags + labels))
  }

  /** The bookmark an assignment targets and the labels it brings, when it is acted on. */
  function Target(obj: Json, chunk: seq<nat>, allowed: seq<string>): Option<(nat, seq<string>)> {
    if !obj.JObj? then None
    else
      var idx := AsInt(GetOr(obj.fields, "index", JNull));
      var labs := GetOr(obj.fields, "labels", JList([]));
      if idx.None? || !labs.JList? then None
      else
        var labels := EntryLabels(labs.items, allowed);
        if 0 <= idx.value < |chunk| && labels != [] then Some((chunk[idx.value], labels)) else None
  }

  /** One assignment applied to the bookmarks. */
  function ApplyEntry(s: seq<Bookmark>, chunk: seq<nat>, obj: Json, allowed: seq<string>): seq<Bookmark> {
    var t := Target(obj, chunk, allowed);
    if t.Some? && t.value.0 < |s| then s[t.value.0 := Merged(s[t.value.0], t.value.1)] else s
  }

  function ApplyAll(s: seq<Bookmark>, chunk: seq<nat>, entries: seq<Json>, allowed: seq<string>): (r: seq<Bookmark>)
    ensures |r| == |s|
    decreases |entries|
  {
    if entries == [] then s
    else ApplyEntry(ApplyAll(s, chunk, entries[..|entries| - 1], allowed), chunk, entries[|entries| - 1], allowed)
  }

  /** What `_apply_labels` leaves: a result that is not a list changes nothing. */
  function ApplyResult(s: seq<Bookmark>, chunk: seq<nat>, result: Json, allowed: seq<string>): seq<Bookmark> {
    if result.JList? then ApplyAll(s, chunk, result.items, allowed) else s
  }

  predicate ValidIndices(chunk: seq<nat>, n: nat) {
    forall k :: 0 <= k < |chunk| ==> chunk[k] < n
  }

  /** The inner loop of `_apply_labels`: the sanitised, allowed entries of `labs`. */
  method AllowedLabels(labs: seq<Json>, allowed: seq<string>) returns (labels: seq<string>)
    ensures labels == EntryLabels(labs, allowed)
  {
    labels := [];
    for x := 0 to |labs|
      invariant labels == AllowedOf(SanitizedAll(labs[..x]), allowed)
    {
      var sx := SanitizeLabel(Str(labs[x]));
      ghost var xs := SanitizedAll(labs[..x]);
      TakeSnoc(labs, x);
      SanitizedAllSnoc(labs[..x], labs[x]);
      assert SanitizedAll(labs[..x + 1]) == xs + [sx];
      AllowedOfSnoc(xs, sx, allowed);
      if sx != "" && sx in allowed {
        labels := labels + [sx];
      }
    }
    assert labs[..|labs|] == labs;
  }

  /** One pass of the loop of `_apply_labels`. */
  method ApplyOne(a: array<Bookmark>, chunk: seq<nat>, obj: Json, allowed: seq<string>)
    requires ValidIndices(chunk, a.Length)
    modifies a
    ensures a[..] == ApplyEntry(old(a[..]), chunk, obj, allowed)
  {
    if !obj.JObj? {
      return;
    }
    var idx := AsInt(GetOr(obj.fields, "index", JNull));
    var labs := GetOr(obj.fields, "labels", JList([]));
    if idx.None? || !labs.JList? {
      return;
    }
    var labels := AllowedLabels(labs.items, allowed);
    if 0 <= idx.value < |chunk| && labels != [] {
      var k := chunk[idx.value];
      a[k] := a[k].(tags := SortedSet(a[k].tags + labels));
    }
  }

  /** `_apply_labels`: `chunk` holds the positions of the batch's bookmarks in `a`. */
  method ApplyLabels(a: array<Bookmark>, chunk: seq<nat>, result: Json, allowed: seq<string>)
    requires ValidIndices(chunk, a.Length)
    modifies a
    ensures a[..] == ApplyResult(old(a[..]), chunk, result, allowed)
  {
    if !result.JList? {
      return;
    }
    var entries := result.items;
    for e := 0 to |entries|
      invariant a[..] == ApplyAll(old(a[..]), chunk, entries[..e], allowed)
    {
      assert entries[..e + 1][..e] == entries[..e];
      ApplyOne(a, chunk, entries[e], allowed);
    }
    assert entries[..|entries|] == entries;
  }

  lemma {:induction false} AllowedOfMembers(xs: seq<string>, allowed: seq<string>)
    ensures forall x :: x in AllowedOf(xs, allowed) <==> x != "" && x in allowed && x in xs
    decreases |xs|
  {
    if xs != [] {
      AllowedOfMembers(xs[..|xs| - 1], allowed);
      assert xs == xs[..|xs| - 1] + [xs[|xs| - 1]];
    }
  }

  /** An assignment's labels are exactly its entries that sanitise to a non-empty allowed label. */
  lemma EntryLabelsMembers(labs: seq<Json>, allowed: seq<string>)
    ensures forall x :: x in EntryLabels(labs, allowed) <==> x != "" && x in allowed && x in SanitizedAll(labs)
  {
    AllowedOfMembers(SanitizedAll(labs), allowed);
  }

  /**
   * An assignment is ignored when it is not an object, when its index is
   * missing, not an int or out of range, when its labels are not a list, or
   * when none of its labels is allowed.
   */
  lemma IgnoredEntries(s: seq<Bookmark>, chunk: seq<nat>, obj: Json, allowed: seq<string>)
    requires
      || !obj.JObj?
      || AsInt(GetOr(obj.fields, "index", JNull)).None?
      || !(0 <= AsInt(GetOr(obj.fields, "index", JNull)).value < |chunk|)
      || !GetOr(obj.fields, "labels", JList([])).JList?
      || EntryLabels(GetOr(obj.fields, "labels", JList([])).items, allowed) == []
    ensures ApplyEntry(s, chunk, obj, allowed) == s
  {
  }

  /**
   * Writing labels back keeps every field but the tags, keeps every old tag,
   * adds only allowed labels, and leaves sorted, duplicate-free tags on every
   * bookmark it touches; bookmarks outside the batch are not touched.
   */
  lemma ApplyAllProps(s: seq<Bookmark>, chunk: seq<nat>, entries: seq<Json>, allowed: seq<string>)
    ensures var r := ApplyAll(s, chunk, entries, allowed);
      forall k :: 0 <= k < |s| ==>
        && r[k].(tags := s[k].tags) == s[k]
        && (forall t :: t in s[k].tags ==> t in r[k].tags)
        && (forall t :: t in r[k].tags ==> t in s[k].tags || t in allowed)
        && (k !in chunk ==> r[k] == s[k])
        && (r[k] != s[k] ==> StrictlySorted(r[k].tags))
  {
    ApplyAllTouched(s, chunk, entries, allowed);
  }

  /** How one bookmark `b` may have become `r` by writing labels back. */
  ghost predicate Touched(b: Bookmark, r: Bookmark, inChunk: bool, allowed: seq<string>) {
    && r.(tags := b.tags) == b
    && (forall t :: t in b.tags ==> t in r.tags)
    && (forall t :: t in r.tags ==> t in b.tags || t in allowed)
    && (!inChunk ==> r == b)
    && (r != b ==> StrictlySorted(r.tags))
  }

  lemma TouchedTrans(a: Bookmark, b: Bookmark, c: Bookmark, inChunk: bool, allowed: seq<string>)
    requires Touched(a, b, inChunk, allowed) && Touched(b, c, inChunk, allowed)
    ensures Touched(a, c, inChunk, allowed)
  {
  }

  lemma ApplyEntryTouched(p: seq<Bookmark>, chunk: seq<nat>, obj: Json, allowed: seq<string>)
    ensures var q := ApplyEntry(p, chunk, obj, allowed);
      |q| == |p| && forall k :: 0 <= k < |p| ==> Touched(p[k], q[k], k in chunk, allowed)
  {
    var t := Target(obj, chunk, allowed);
    if t.Some? && t.value.0 < |p| {
      var k := t.value.0;
      SortedSetCorrect(p[k].tags + t.value.1);
      assert k in chunk;
    }
  }

  lemma {:induction false} ApplyAllTouched(s: seq<Bookmark>, chunk: seq<nat>, entries: seq<Json>, allowed: seq<string>)
    ensures var r := ApplyAll(s, chunk, entries, allowed);
      forall k :: 0 <= k < |s| ==> Touched(s[k], r[k], k in chunk, allowed)
    decreases |entries|
  {
    if entries != [] {
      var init := entries[..|entries| - 1];
      ApplyAllTouched(s, chunk, init, allowed);
      var p := ApplyAll(s, chunk, init, allowed);
      var q := ApplyAll(s, chunk, entries, allowed);
      ApplyEntryTouched(p, chunk, entries[|entries| - 1], allowed);
      forall k | 0 <= k < |s|
        ensures Touched(s[k], q[k], k in chunk, allowed)
      {
        TouchedTrans(s[k], p[k], q[k], k in chunk, allowed);
      }
    }
  }

  lemma ApplyResultProps(s: seq<Bookmark>, chunk: seq<nat>, result: Json, allowed: seq<string>)
    ensures var r := ApplyResult(s, chunk, result, allowed);
      && |r| == |s|
      && forall k :: 0 <= k < |s| ==>
        && r[k].(tags := s[k].tags) == s[k]
        && (forall t :: t in s[k].tags ==> t in r[k].tags)
        && (forall t :: t in r[k].tags ==> t in s[k].tags || t in allowed)
        && (k !in chunk ==> r[k] == s[k])
    ensures !result.JList? ==> ApplyResult(s, chunk, result, allowed) == s
  {
    if result.JList? {
      ApplyAllProps(s, chunk, result.items, allowed);
    }
  }

  /**
   * An assignment that is acted on sets its bookmark's tags to the sorted,
   * duplicate-free union of the old tags and its allowed labels, and changes no
   * other bookmark.
   */
  lemma ApplyEntryMerges(s: seq<Bookmark>, chunk: seq<nat>, obj: Json, allowed: seq<string>, k: nat, labels: seq<string>)
    requires Target(obj, chunk, allowed) == Some((k, labels)) && k < |s|
    ensures var r := ApplyEntry(s, chunk, obj, allowed);
      && r[k].tags == SortedSet(s[k].tags + labels)
      && StrictlySorted(r[k].tags)
      && (forall t :: t in r[k].tags <==> t in s[k].tags || t in labels)
      && (forall t :: t in labels ==> t != "" && t in allowed)
      && (forall j :: 0 <= j < |s| && j != k ==> r[j] == s[j])
  {
    SortedSetCorrect(s[k].tags + labels);
    var labs := GetOr(obj.fields, "labels", JList([]));
    EntryLabelsMembers(labs.items, allowed);
  }

  /** Whether assignment `obj` is acted on for bookmark `k` and brings label `t`. */
  predicate Brings(obj: Json, chunk: seq<nat>, allowed: seq<string>, k: nat, t: string) {
    var g := Target(obj, chunk, allowed);
    g.Some? && g.value.0 == k && t in g.value.1
  }

  lemma ApplyEntryTags(p: seq<Bookmark>, chunk: seq<nat>, obj: Json, allowed: seq<string>, k: nat, t: string)
    requires k < |p|
    ensures t in ApplyEntry(p, chunk, obj, allowed)[k].tags <==> t in p[k].tags || Brings(obj, chunk, allowed, k, t)
  {
    var g := Target(obj, chunk, allowed);
    if g.Some? && g.value.0 == k {
      ApplyEntryMerges(p, chunk, obj, allowed, k, g.value.1);
    }
  }

  /**
   * After all assignments a bookmark's tags are exactly its old tags together
   * with the labels of every assignment acted on for it.
   */
  lemma {:induction false} ApplyAllTags(s: seq<Bookmark>, chunk: seq<nat>, entries: seq<Json>, allowed: seq<string>, k: nat, t: string)
    requires k < |s|
    ensures t in ApplyAll(s, chunk, entries, allowed)[k].tags <==>
      t in s[k].tags || exists e :: 0 <= e < |entries| && Brings(entries[e], chunk, allowed, k, t)
    decreases |entries|
  {
    if entries != [] {
      var init := entries[..|entries| - 1];
      var last := entries[|entries| - 1];
      ApplyAllTags(s, chunk, init, allowed, k, t);
      ApplyEntryTags(ApplyAll(s, chunk, init, allowed), chunk, last, allowed, k, t);
      assert entries == init + [last];
      BringsSnoc(init, last, chunk, allowed, k, t);
    }
  }

  lemma BringsSnoc(init: seq<Json>, last: Json, chunk: seq<nat>, allowed: seq<string>, k: nat, t: string)
    ensures (exists e :: 0 <= e < |init| + 1 && Brings((init + [last])[e], chunk, allowed, k, t)) <==>
      (exists e :: 0 <= e < |init| && Brings(init[e], chunk, allowed, k, t)) || Brings(last, chunk, allowed, k, t)
  {
    var entries := init + [last];
    if exists e :: 0 <= e < |entries| && Brings(entries[e], chunk, allowed, k, t) {
      var e :| 0 <= e < |entries| && Brings(entries[e], chunk, allowed, k, t);
      if e < |init| {
        assert init[e] == entries[e];
      }
    }
    if exists e :: 0 <= e < |init| && Brings(init[e], chunk, allowed, k, t) {
      var e :| 0 <= e < |init| && Brings(init[e], chunk, allowed, k, t);
      assert entries[e] == init[e];
    }
    if Brings(last, chunk, allowed, k, t) {
      assert entries[|init|] == last;
    }
  }

  /** Every label of an assignment acted on for a bookmark ends up in its tags. */
  lemma AppliedLabelsKept(s: seq<Bookmark>, chunk: seq<nat>, entries: seq<Json>, allowed: seq<string>, e: nat, k: nat, labels: seq<string>)
    requires e < |entries| && Target(entries[e], chunk, allowed) == Some((k, labels)) && k < |s|
    ensures forall t :: t in labels ==> t in ApplyAll(s, chunk, entries, allowed)[k].tags
  {
    forall t | t in labels ensures t in ApplyAll(s, chunk, entries, allowed)[k].tags {
      assert Brings(entries[e], chunk, allowed, k, t);
      ApplyAllTags(s, chunk, entries, allowed, k, t);
    }
  }

  // ----------------------------------------------------------- classify_by_llm

  /** The keyword arguments of `classify_by_llm` the batch loop reads. */
  datatype LlmOptions = LlmOptions(batchSize: int, onlyUncertain: bool, allowNewLabels: bool, maxNewLabelsPerBatch: int)

  /** Python's `xs[:n]`, negative `n` counting from the end. */
  function PyPrefix<T>(xs: seq<T>, n: int): (r: seq<T>)
    ensures n >= 0 ==> |r| <= n
    ensures |r| <= |xs| && r == xs[..|r|]
  {
    if n >= |xs| then xs
    else if n >= 0 then xs[..n]
    else if |xs| + n >= 0 then xs[..|xs| + n]
    else []
  }

  /** The positions of the candidates: every bookmark unless `only_uncertain` and it already has tags. */
  function Candidates(s: seq<Bookmark>, onlyUncertain: bool): (r: seq<nat>)
    ensures ValidIndices(r, |s|)
    ensures forall k :: 0 <= k < |s| ==> (k in r <==> !(onlyUncertain && s[k].tags != []))
    ensures forall i, j :: 0 <= i < j < |r| ==> r[i] < r[j]
    decreases |s|
  {
    if s == [] then []
    else
      var init := Candidates(s[..|s| - 1], onlyUncertain);
      init + (if onlyUncertain && s[|s| - 1].tags != [] then [] else [|s| - 1])
  }

  /** The allowed labels after the new labels of one reply: each non-empty sanitised one is added. */
  function Grown(allowed: seq<string>, newLabels: seq<string>): seq<string>
    decreases |newLabels|
  {
    if newLabels == [] then allowed
    else
      var sl := Sanitized(newLabels[|newLabels| - 1]);
      var before := Grown(allowed, newLabels[..|newLabels| - 1]);
      if sl != "" then InsertUnique(sl, before) else before
  }

  /** The allowed labels after one reply. */
  function NextAllowed(allowed: seq<string>, newLabels: seq<string>, o: LlmOptions): seq<string> {
    if o.allowNewLabels && newLabels != [] then Grown(allowed, PyPrefix(newLabels, o.maxNewLabelsPerBatch)) else allowed
  }

  /** One batch: the reply is read, the allowed labels grow, the assignments are applied. */
  function Round(s: seq<Bookmark>, allowed: seq<string>, chunk: seq<nat>, b: nat,
                 reply: (nat, seq<string>) -> Json, o: LlmOptions): (r: (seq<Bookmark>, seq<string>))
    ensures |r.0| == |s|
  {
    var parsed := ParseResult(reply(b, allowed));
    var allowed' := NextAllowed(allowed, parsed.1, o);
    (ApplyResult(s, chunk, JList(parsed.0), allowed'), allowed')
  }

  /**
   * One batch adds a tag to bookmark `k` exactly when the tag was there or some entry of the
   * reply brings it to `k`, checked against the labels allowed after the reply is read.
   */
  lemma RoundTags(s: seq<Bookmark>, allowed: seq<string>, chunk: seq<nat>, b: nat,
                  reply: (nat, seq<string>) -> Json, o: LlmOptions, k: nat, t: string)
    requires k < |s|
    ensures var parsed := ParseResult(reply(b, allowed));
      var allowed' := NextAllowed(allowed, parsed.1, o);
      && Round(s, allowed, chunk, b, reply, o).1 == allowed'
      && (t in Round(s, allowed, chunk, b, reply, o).0[k].tags <==>
          t in s[k].tags || exists e :: 0 <= e < |parsed.0| && Brings(parsed.0[e], chunk, allowed', k, t))
  {
    var parsed := ParseResult(reply(b, allowed));
    ApplyAllTags(s, chunk, parsed.0, NextAllowed(allowed, parsed.1, o), k, t);
  }

  /**
   * The batch loop from index `i` of the candidates on: batch number `b` is
   * answered by `reply(b, sorted allowed labels)`, already decoded.
   */
  function Batches(s: seq<Bookmark>, allowed: seq<string>, items: seq<nat>, i: nat, n: nat, b: nat,
                   reply: (nat, seq<string>) -> Json, o: LlmOptions): (r: (seq<Bookmark>, seq<string>))
    requires n >= 1
    decreases |items| - i
  {
    if i >= |items| then (s, allowed)
    else
      var next := Round(s, allowed, items[i..MinNat(i + n, |items|)], b, reply, o);
      Batches(next.0, next.1, items, i + n, n, b + 1, reply, o)
  }

  function BatchWidth(o: LlmOptions): nat {
    if o.batchSize >= 1 then o.batchSize else 1
  }

  /** The bookmarks after `classify_by_llm`, given the resolved label list. */
  function ClassifyByLlmSpec(s: seq<Bookmark>, labels: seq<string>, reply: (nat, seq<string>) -> Json, o: LlmOptions): seq<Bookmark> {
    if labels == [] && !o.allowNewLabels then s
    else
      var items := Candidates(s, o.onlyUncertain);
      if items == [] then s
      else Batches(s, SortedSet(labels), items, 0, BatchWidth(o), 0, reply, o).0
  }

  /** The allowed labels when the batch loop ends. */
  function FinalAllowed(s: seq<Bookmark>, labels: seq<string>, reply: (nat, seq<string>) -> Json, o: LlmOptions): seq<string> {
    var items := Candidates(s, o.onlyUncertain);
    Batches(s, SortedSet(labels), items, 0, BatchWidth(o), 0, reply, o).1
  }

  /** The candidate loop of `classify_by_llm`. */
  method CandidatesOf(a: array<Bookmark>, onlyUncertain: bool) returns (items: seq<nat>)
    ensures items == Candidates(a[..], onlyUncertain)
  {
    items := [];
    for k := 0 to a.Length
      invariant items == Candidates(a[..k], onlyUncertain)
    {
      assert a[..k + 1][..k] == a[..k];
      if onlyUncertain && a[k].tags != [] {
        continue;
      }
      items := items + [k];
    }
    assert a[..a.Length] == a[..];
  }

  /** `for nl in new_labels[:max_new_labels_per_batch]`: each non-empty sanitised label joins the set. */
  method GrowAllowed(allowed: seq<string>, extra: seq<string>) returns (g: seq<string>)
    ensures g == Grown(allowed, extra)
  {
    g := allowed;
    for f := 0 to |extra|
      invariant g == Grown(allowed, extra[..f])
    {
      assert extra[..f + 1][..f] == extra[..f];
      var sl := SanitizeLabel(extra[f]);
      if sl != "" {
        g := InsertUnique(sl, g);
      }
    }
    assert extra[..|extra|] == extra;
  }

  /** `classify_by_llm` with the client present and answering every batch. */
  method ClassifyByLlm(a: array<Bookmark>, labels: seq<string>, reply: (nat, seq<string>) -> Json, o: LlmOptions)
    modifies a
    ensures a[..] == ClassifyByLlmSpec(old(a[..]), labels, reply, o)
  {
    if labels == [] && !o.allowNewLabels {
      return;
    }
    var items := CandidatesOf(a, o.onlyUncertain);
    if items == [] {
      return;
    }
    RunBatches(a, SortedSet(labels), items, BatchWidth(o), reply, o);
  }

  /** The batch loop of `classify_by_llm` over the candidates' positions `items`. */
  method RunBatches(a: array<Bookmark>, allowed0: seq<string>, items: seq<nat>, n: nat,
                    reply: (nat, seq<string>) -> Json, o: LlmOptions)
    requires n >= 1 && ValidIndices(items, a.Length)
    modifies a
    ensures a[..] == Batches(old(a[..]), allowed0, items, 0, n, 0, reply, o).0
  {
    var allowed := allowed0;
    var i := 0;
    var b := 0;
    while i < |items|
      invariant Batches(a[..], allowed, items, i, n, b, reply, o) == Batches(old(a[..]), allowed0, items, 0, n, 0, reply, o)
      decreases |items| - i
    {
      allowed := BatchRound(a, allowed, items[i..MinNat(i + n, |items|)], b, reply, o);
      i := i + n;
      b := b + 1;
    }
  }

  /** One pass of the batch loop of `classify_by_llm`. */
  method BatchRound(a: array<Bookmark>, allowed: seq<string>, chunk: seq<nat>, b: nat,
                    reply: (nat, seq<string>) -> Json, o: LlmOptions) returns (allowed': seq<string>)
    requires ValidIndices(chunk, a.Length)
    modifies a
    ensures (a[..], allowed') == Round(old(a[..]), allowed, chunk, b, reply, o)
  {
    var parsed := ParseResult(reply(b, allowed));
    allowed' := allowed;
    if o.allowNewLabels && parsed.1 != [] {
      allowed' := GrowAllowed(allowed, PyPrefix(parsed.1, o.maxNewLabelsPerBatch));
    }
    ApplyLabels(a, chunk, JList(parsed.0), allowed');
  }

  // ------------------------------------------------------ the allowed labels

  /**
   * New labels only add to the allowed set, stay strictly sorted, are non-empty
   * sanitised labels of the reply, and come at most one per reply entry.
   */
  lemma {:induction false} GrownProps(allowed: seq<string>, newLabels: seq<string>)
    requires StrictlySorted(allowed)
    ensures var g := Grown(allowed, newLabels);
      && StrictlySorted(g)
      && (forall t :: t in allowed ==> t in g)
      && (forall t :: t in g && t !in allowed ==> t != "" && exists x :: x in newLabels && t == Sanitized(x))
      && |g| <= |allowed| + |newLabels|
    decreases |newLabels|
  {
    if newLabels != [] {
      var init := newLabels[..|newLabels| - 1];
      var last := newLabels[|newLabels| - 1];
      GrownProps(allowed, init);
      var before := Grown(allowed, init);
      var sl := Sanitized(last);
      if sl != "" {
        InsertUniqueCorrect(sl, before);
        InsertUniqueLength(sl, before);
      }
      forall t | t in Grown(allowed, newLabels) && t !in allowed
        ensures t != "" && exists x :: x in newLabels && t == Sanitized(x)
      {
        if t in before {
          var x :| x in init && t == Sanitized(x);
          assert x in newLabels;
        } else {
          assert t == sl && last in newLabels;
        }
      }
    }
  }

  lemma {:induction false} InsertUniqueLength(x: string, s: seq<string>)
    ensures |InsertUnique(x, s)| <= |s| + 1
    decreases |s|
  {
    if s != [] && x != s[0] && !LexLe(x, s[0]) {
      InsertUniqueLength(x, s[1..]);
    }
  }

  /**
   * One reply changes the allowed labels only when new labels are allowed, only
   * by adding non-empty sanitised labels, and, for a non-negative bound, by at
   * most `max_new_labels_per_batch` of them.
   */
  lemma NextAllowedProps(allowed: seq<string>, newLabels: seq<string>, o: LlmOptions)
    requires StrictlySorted(allowed)
    ensures var g := NextAllowed(allowed, newLabels, o);
      && StrictlySorted(g)
      && (!o.allowNewLabels ==> g == allowed)
      && (forall t :: t in allowed ==> t in g)
      && (forall t :: t in g && t !in allowed ==> t != "" && exists x :: x in newLabels && t == Sanitized(x))
      && (o.maxNewLabelsPerBatch >= 0 ==> |g| <= |allowed| + o.maxNewLabelsPerBatch)
  {
    if o.allowNewLabels && newLabels != [] {
      var extra := PyPrefix(newLabels, o.maxNewLabelsPerBatch);
      GrownProps(allowed, extra);
      forall x | x in extra ensures x in newLabels {
        var k :| 0 <= k < |extra| && extra[k] == x;
        assert newLabels[k] == x;
      }
    }
  }

  /**
   * Over the whole loop: the allowed set only grows; old tags are kept; every
   * tag is old or finally allowed; no field but the tags changes; and a
   * bookmark that is not a candidate is not changed at all.
   */
  lemma {:induction false} BatchesProps(s: seq<Bookmark>, allowed: seq<string>, items: seq<nat>, i: nat, n: nat, b: nat,
                                        reply: (nat, seq<string>) -> Json, o: LlmOptions)
    requires n >= 1 && StrictlySorted(allowed)
    ensures var r := Batches(s, allowed, items, i, n, b, reply, o);
      && |r.0| == |s|
      && StrictlySorted(r.1)
      && (forall t :: t in allowed ==> t in r.1)
      && (!o.allowNewLabels ==> r.1 == allowed)
      && forall k :: 0 <= k < |s| ==>
        && r.0[k].(tags := s[k].tags) == s[k]
        && (forall t :: t in s[k].tags ==> t in r.0[k].tags)
        && (forall t :: t in r.0[k].tags ==> t in s[k].tags || t in r.1)
        && (k !in items ==> r.0[k] == s[k])
    decreases |items| - i
  {
    if i < |items| {
      var chunk := items[i..MinNat(i + n, |items|)];
      var parsed := ParseResult(reply(b, allowed));
      var allowed' := NextAllowed(allowed, parsed.1, o);
      NextAllowedProps(allowed, parsed.1, o);
      var s' := ApplyResult(s, chunk, JList(parsed.0), allowed');
      ApplyResultProps(s, chunk, JList(parsed.0), allowed');
      assert Round(s, allowed, chunk, b, reply, o) == (s', allowed');
      BatchesProps(s', allowed', items, i + n, n, b + 1, reply, o);
    }
  }

  /**
   * `classify_by_llm` keeps every field but the tags, keeps every old tag and
   * adds only labels allowed by the end of the loop, which are the resolved
   * labels unless new labels are allowed; with `only_uncertain` a tagged
   * bookmark is never touched; with no labels and no new labels it does nothing.
   */
  lemma ClassifyByLlmProps(s: seq<Bookmark>, labels: seq<string>, reply: (nat, seq<string>) -> Json, o: LlmOptions)
    ensures var r := ClassifyByLlmSpec(s, labels, reply, o);
      && |r| == |s|
      && (labels == [] && !o.allowNewLabels ==> r == s)
      && (forall t :: t in SortedSet(labels) ==> t in FinalAllowed(s, labels, reply, o))
      && (!o.allowNewLabels ==> FinalAllowed(s, labels, reply, o) == SortedSet(labels))
      && forall k :: 0 <= k < |s| ==>
        && r[k].(tags := s[k].tags) == s[k]
        && (forall t :: t in s[k].tags ==> t in r[k].tags)
        && (forall t :: t in r[k].tags ==> t in s[k].tags || t in FinalAllowed(s, labels, reply, o))
        && (o.onlyUncertain && s[k].tags != [] ==> r[k] == s[k])
  {
    SortedSetCorrect(labels);
    BatchesProps(s, SortedSet(labels), Candidates(s, o.onlyUncertain), 0, BatchWidth(o), 0, reply, o);
  }

  /** tests/test_classify_llm_edges.py:20-28: replies that hold no list assign nothing. */
  lemma EmptyRepliesChangeNothing(s: seq<Bookmark>, labels: seq<string>, reply: (nat, seq<string>) -> Json, o: LlmOptions)
    requires forall b: nat, al: seq<string> :: reply(b, al) == JObj([])
    ensures ClassifyByLlmSpec(s, labels, reply, o) == s
  {
    if !(labels == [] && !o.allowNewLabels) && Candidates(s, o.onlyUncertain) != [] {
      EmptyBatches(s, SortedSet(labels), Candidates(s, o.onlyUncertain), 0, BatchWidth(o), 0, reply, o);
    }
  }

  lemma {:induction false} EmptyBatches(s: seq<Bookmark>, allowed: seq<string>, items: seq<nat>, i: nat, n: nat, b: nat,
                                        reply: (nat, seq<string>) -> Json, o: LlmOptions)
    requires n >= 1
    requires forall b: nat, al: seq<string> :: reply(b, al) == JObj([])
    ensures Batches(s, allowed, items, i, n, b, reply, o).0 == s
    decreases |items| - i
  {
    if i < |items| {
      assert ParseResult(reply(b, allowed)) == ([], []);
      EmptyBatches(s, allowed, items, i + n, n, b + 1, reply, o);
    }
  }
}
