/**
 * `cbclean.apply`: the Netscape bookmark file `export_bookmarks_html`
 * writes, as the sequence of its lines (each written followed by a newline).
 * Bookmarks are grouped flat by folder, first tag or every tag, or nested
 * along the '/'-separated segments of every tag ("tag-hier").
 */
module Apply {
  import opened Optional
  import opened Text
  import opened Utils

  // --------------------------------------------------------------- html_escape

  /** The entity a character becomes, or the character itself. */
  function EscapeChar(c: char): string {
    if c == '&' then "&amp;"
    else if c == '<' then "&lt;"
    else if c == '>' then "&gt;"
    else if c == '"' then "&quot;"
    else [c]
  }

  /** `html_escape`: four `str.replace` calls, `&` first. */
  function HtmlEscape(s: string): string {
    ReplaceChar(ReplaceChar(ReplaceChar(ReplaceChar(s, '&', "&amp;"), '<', "&lt;"), '>', "&gt;"), '"', "&quot;")
  }

  /** Every character replaced independently. */
  function EscapeEach(s: string): string
    decreases |s|
  {
    if s == [] then [] else EscapeChar(s[0]) + EscapeEach(s[1..])
  }

  /** Reading the four entities back, left to right. */
  function Unescape(r: string): string
    decreases |r|
  {
    if r == [] then []
    else if StartsWith(r, "&amp;") then "&" + Unescape(r[5..])
    else if StartsWith(r, "&lt;") then "<" + Unescape(r[4..])
    else if StartsWith(r, "&gt;") then ">" + Unescape(r[4..])
    else if StartsWith(r, "&quot;") then "\"" + Unescape(r[6..])
    else [r[0]] + Unescape(r[1..])
  }

  lemma {:induction false} ReplaceCharAppend(a: string, b: string, c: char, t: string)
    ensures ReplaceChar(a + b, c, t) == ReplaceChar(a, c, t) + ReplaceChar(b, c, t)
    decreases |a|
  {
    if a == [] {
      assert a + b == b;
    } else {
      ReplaceCharAppend(a[1..], b, c, t);
      var h := if a[0] == c then t else [a[0]];
      var ra, rb := ReplaceChar(a[1..], c, t), ReplaceChar(b, c, t);
      assert (a + b)[0] == a[0] && (a + b)[1..] == a[1..] + b;
      assert ReplaceChar(a + b, c, t) == h + (ra + rb);
      assert ReplaceChar(a, c, t) == h + ra;
      ConcatAssoc(h, ra, rb);
    }
  }

  lemma {:induction false} ReplaceCharAbsent(s: string, c: char, t: string)
    requires c !in s
    ensures ReplaceChar(s, c, t) == s
    decreases |s|
  {
    if s != [] {
      ReplaceCharAbsent(s[1..], c, t);
      assert s == [s[0]] + s[1..];
    }
  }

  lemma ReplaceCharOne(x: char, c: char, t: string)
    ensures ReplaceChar([x], c, t) == if x == c then t else [x]
  {
    assert ReplaceChar([x], c, t) == (if x == c then t else [x]) + ReplaceChar([], c, t);
  }

  lemma HtmlEscapeAppend(a: string, b: string)
    ensures HtmlEscape(a + b) == HtmlEscape(a) + HtmlEscape(b)
  {
    ReplaceCharAppend(a, b, '&', "&amp;");
    var a1, b1 := ReplaceChar(a, '&', "&amp;"), ReplaceChar(b, '&', "&amp;");
    ReplaceCharAppend(a1, b1, '<', "&lt;");
    var a2, b2 := ReplaceChar(a1, '<', "&lt;"), ReplaceChar(b1, '<', "&lt;");
    ReplaceCharAppend(a2, b2, '>', "&gt;");
    var a3, b3 := ReplaceChar(a2, '>', "&gt;"), ReplaceChar(b2, '>', "&gt;");
    ReplaceCharAppend(a3, b3, '"', "&quot;");
  }

  /** An entity with neither `>` nor `"` passes the last two replacements unchanged. */
  lemma EntityUntouched(e: string)
    requires '>' !in e && '"' !in e
    ensures ReplaceChar(ReplaceChar(e, '>', "&gt;"), '"', "&quot;") == e
  {
    ReplaceCharAbsent(e, '>', "&gt;");
    ReplaceCharAbsent(e, '"', "&quot;");
  }

  /**
   * Entities put in by one replacement hold none of the characters replaced
   * after it, so the four replacements escape one character as `EscapeChar` does.
   */
  lemma HtmlEscapeOne(c: char)
    ensures HtmlEscape([c]) == EscapeChar(c)
  {
    ReplaceCharOne(c, '&', "&amp;");
    if c == '&' {
      ReplaceCharAbsent("&amp;", '<', "&lt;");
      EntityUntouched("&amp;");
    } else {
      ReplaceCharOne(c, '<', "&lt;");
      if c == '<' {
        EntityUntouched("&lt;");
      } else {
        ReplaceCharOne(c, '>', "&gt;");
        if c == '>' {
          ReplaceCharAbsent("&gt;", '"', "&quot;");
        } else {
          ReplaceCharOne(c, '"', "&quot;");
        }
      }
    }
  }

  /** Because `&` is replaced first, the chain of replacements escapes each character on its own. */
  lemma {:induction false} HtmlEscapeIsEscapeEach(s: string)
    ensures HtmlEscape(s) == EscapeEach(s)
    decreases |s|
  {
    if s == [] {
      assert HtmlEscape(s) == [];
    } else {
      assert s == [s[0]] + s[1..];
      HtmlEscapeAppend([s[0]], s[1..]);
      HtmlEscapeOne(s[0]);
      HtmlEscapeIsEscapeEach(s[1..]);
    }
  }

  /** `r[i..]` begins with one of the four entities. */
  predicate EntityAt(r: string, i: nat)
    requires i <= |r|
  {
    StartsWith(r[i..], "&amp;") || StartsWith(r[i..], "&lt;") || StartsWith(r[i..], "&gt;") || StartsWith(r[i..], "&quot;")
  }

  /** No `<`, `>` or `"`, and every `&` starts an entity. */
  predicate Safe(r: string) {
    forall i :: 0 <= i < |r| ==> r[i] != '<' && r[i] != '>' && r[i] != '"' && (r[i] == '&' ==> EntityAt(r, i))
  }

  lemma StartsWithExtend(a: string, x: string, p: string)
    requires StartsWith(a, p)
    ensures StartsWith(a + x, p)
  {
    assert (a + x)[..|p|] == a[..|p|];
  }

  lemma SafeAppend(e: string, x: string)
    requires Safe(e) && Safe(x)
    ensures Safe(e + x)
  {
    var r := e + x;
    forall i | 0 <= i < |r| && r[i] == '&' ensures EntityAt(r, i) {
      if i < |e| {
        assert e[i] == '&';
        assert r[i..] == e[i..] + x;
        if StartsWith(e[i..], "&amp;") {
          StartsWithExtend(e[i..], x, "&amp;");
        } else if StartsWith(e[i..], "&lt;") {
          StartsWithExtend(e[i..], x, "&lt;");
        } else if StartsWith(e[i..], "&gt;") {
          StartsWithExtend(e[i..], x, "&gt;");
        } else {
          StartsWithExtend(e[i..], x, "&quot;");
        }
      } else {
        assert x[i - |e|] == '&';
        assert r[i..] == x[i - |e|..];
      }
    }
    forall i | 0 <= i < |r| ensures r[i] != '<' && r[i] != '>' && r[i] != '"' {
      if i < |e| { assert r[i] == e[i]; } else { assert r[i] == x[i - |e|]; }
    }
  }

  lemma EscapeCharSafe(c: char)
    ensures Safe(EscapeChar(c))
  {
    var e := EscapeChar(c);
    if c == '&' || c == '<' || c == '>' || c == '"' {
      assert e[0..] == e;
      assert forall i :: 1 <= i < |e| ==> e[i] != '&' && e[i] != '<' && e[i] != '>' && e[i] != '"';
    }
  }

  /**
   * The output holds no `<`, `>` or `"`, and every `&` in it starts one of
   * the four entities.
   */
  lemma HtmlEscapeSafe(s: string)
    ensures Safe(HtmlEscape(s))
  {
    HtmlEscapeIsEscapeEach(s);
    EscapeEachSafe(s);
  }

  lemma {:induction false} EscapeEachSafe(s: string)
    ensures Safe(EscapeEach(s))
    decreases |s|
  {
    if s != [] {
      EscapeEachSafe(s[1..]);
      EscapeCharSafe(s[0]);
      SafeAppend(EscapeChar(s[0]), EscapeEach(s[1..]));
    }
  }

  lemma UnescapeAmp(x: string)
    ensures Unescape("&amp;" + x) == "&" + Unescape(x)
  {
    var r := "&amp;" + x;
    assert r[..5] == "&amp;" && r[5..] == x;
  }

  lemma UnescapeLt(x: string)
    ensures Unescape("&lt;" + x) == "<" + Unescape(x)
  {
    var r := "&lt;" + x;
    assert !StartsWith(r, "&amp;") by {
      if |r| >= 5 { assert r[..5][1] == 'l'; }
    }
    assert r[..4] == "&lt;" && r[4..] == x;
  }

  lemma UnescapeGt(x: string)
    ensures Unescape("&gt;" + x) == ">" + Unescape(x)
  {
    var r := "&gt;" + x;
    assert !StartsWith(r, "&amp;") by {
      if |r| >= 5 { assert r[..5][1] == 'g'; }
    }
    assert !StartsWith(r, "&lt;") by {
      assert r[..4][1] == 'g';
    }
    assert r[..4] == "&gt;" && r[4..] == x;
  }

  lemma UnescapeQuot(x: string)
    ensures Unescape("&quot;" + x) == "\"" + Unescape(x)
  {
    var r := "&quot;" + x;
    assert !StartsWith(r, "&amp;") by {
      assert r[..5][1] == 'q';
    }
    assert !StartsWith(r, "&lt;") && !StartsWith(r, "&gt;") by {
      assert r[..4][1] == 'q';
    }
    assert r[..6] == "&quot;" && r[6..] == x;
  }

  lemma UnescapePlain(c: char, x: string)
    requires c != '&'
    ensures Unescape([c] + x) == [c] + Unescape(x)
  {
    var r := [c] + x;
    assert r[0] == c && r[1..] == x;
    assert !StartsWith(r, "&amp;") && !StartsWith(r, "&lt;") && !StartsWith(r, "&gt;") && !StartsWith(r, "&quot;") by {
      if |r| >= 4 { assert r[..4][0] == c; }
    }
  }

  lemma UnescapeStep(c: char, x: string)
    ensures Unescape(EscapeChar(c) + x) == [c] + Unescape(x)
  {
    if c == '&' {
      UnescapeAmp(x);
    } else if c == '<' {
      UnescapeLt(x);
    } else if c == '>' {
      UnescapeGt(x);
    } else if c == '"' {
      UnescapeQuot(x);
    } else {
      UnescapePlain(c, x);
    }
  }

  /** Decoding the four entities recovers the input. */
  lemma {:induction false} UnescapeOfEscape(s: string)
    ensures Unescape(HtmlEscape(s)) == s
    decreases |s|
  {
    HtmlEscapeIsEscapeEach(s);
    if s != [] {
      UnescapeStep(s[0], EscapeEach(s[1..]));
      UnescapeOfEscape(s[1..]);
      HtmlEscapeIsEscapeEach(s[1..]);
      assert s == [s[0]] + s[1..];
    }
  }

  // --------------------------------------------------------------- _group_keys

  /** `_group_keys(b, group_by)` */
  function GroupKeys(b: Bookmark, groupBy: string): seq<string> {
    if groupBy == "tag" then [if b.tags != [] then b.tags[0] else "Uncategorized"]
    else if groupBy == "tag-all" then (if b.tags != [] then b.tags else ["Uncategorized"])
    else [if b.folderPath != "" then b.folderPath else "Bookmarks"]
  }

  /**
   * "tag" gives one key, the first tag or "Uncategorized"; "tag-all" gives
   * every tag in order, or just "Uncategorized"; any other mode gives the
   * folder path, or "Bookmarks" for an empty one.
   */
  lemma GroupKeysCases(b: Bookmark, groupBy: string)
    ensures |GroupKeys(b, groupBy)| >= 1
    ensures groupBy == "tag" ==>
      && |GroupKeys(b, groupBy)| == 1
      && (if b.tags == [] then GroupKeys(b, groupBy)[0] == "Uncategorized" else GroupKeys(b, groupBy)[0] == b.tags[0])
    ensures groupBy == "tag-all" ==> GroupKeys(b, groupBy) == (if b.tags == [] then ["Uncategorized"] else b.tags)
    ensures groupBy != "tag" && groupBy != "tag-all" ==>
      GroupKeys(b, groupBy) == [if b.folderPath == "" then "Bookmarks" else b.folderPath]
  {
  }

  // --------------------------------------------------------------- the lines

  const Preamble: seq<string> := [
    "<!DOCTYPE NETSCAPE-Bookmark-file-1>",
    "<META HTTP-EQUIV=\"Content-Type\" CONTENT=\"text/html; charset=UTF-8\">",
    "<TITLE>Bookmarks</TITLE>",
    "<H1>Bookmarks</H1>",
    "<DL><p>"]

  const Open := "<DL><p>"
  const Close := "</DL><p>"

  function Header(name: string): string {
    "<DT><H3>" + HtmlEscape(name) + "</H3>"
  }

  /** `b.normalized_url or b.url` */
  function Href(b: Bookmark): string
    requires Truthy(b.url)
  {
    if Truthy(b.normalizedUrl) then b.normalizedUrl.value else b.url.value
  }

  function Anchor(b: Bookmark): string
    requires Truthy(b.url)
  {
    "<DT><A HREF=\"" + HtmlEscape(Href(b)) + "\">" + HtmlEscape(b.title) + "</A>"
  }

  /** One anchor per item with a URL, in item order. */
  function Anchors(items: seq<Bookmark>): seq<string>
    decreases |items|
  {
    if items == [] then []
    else
      var b := items[|items| - 1];
      Anchors(items[..|items| - 1]) + (if Truthy(b.url) then [Anchor(b)] else [])
  }

  /** The loop over a group's items: a bookmark without a URL is skipped. */
  method AnchorLines(items: seq<Bookmark>) returns (out: seq<string>)
    ensures out == Anchors(items)
  {
    out := [];
    for k := 0 to |items|
      invariant out == Anchors(items[..k])
    {
      assert items[..k + 1][..k] == items[..k];
      var b := items[k];
      if !(b.url.Some? && b.url.value != "") {
        continue;
      }
      out := out + [Anchor(b)];
    }
    assert items[..|items|] == items;
  }

  function CountWithUrl(items: seq<Bookmark>): nat
    decreases |items|
  {
    if items == [] then 0 else CountWithUrl(items[..|items| - 1]) + (if Truthy(items[|items| - 1].url) then 1 else 0)
  }

  /** Exactly the items with a URL give an anchor, each its own, in order. */
  lemma {:induction false} AnchorsProps(items: seq<Bookmark>)
    ensures |Anchors(items)| == CountWithUrl(items)
    ensures forall line :: line in Anchors(items) <==> exists b :: b in items && Truthy(b.url) && line == Anchor(b)
    decreases |items|
  {
    if items != [] {
      var init := items[..|items| - 1];
      AnchorsProps(init);
      assert items == init + [items[|items| - 1]];
    }
  }

  /** A group's block: its heading, then its anchors, inside its own list. */
  function GroupLines(name: string, children: seq<string>, items: seq<Bookmark>): seq<string> {
    [Header(name), Open] + children + Anchors(items) + [Close]
  }

  // --------------------------------------------------------------- flat export

  /** `by_folder.setdefault(k, [])`: the group of `k`, or none yet. */
  function GroupAt(m: map<string, seq<Bookmark>>, k: string): seq<Bookmark> {
    if k in m then m[k] else []
  }

  /** `for key in keys: by_folder.setdefault(key, []).append(b)` */
  function AddToGroups(m: map<string, seq<Bookmark>>, keys: seq<string>, b: Bookmark): map<string, seq<Bookmark>>
    decreases |keys|
  {
    if keys == [] then m
    else
      var k := keys[0];
      AddToGroups(m[k := GroupAt(m, k) + [b]], keys[1..], b)
  }

  /** `by_folder` once every bookmark is added. */
  function Grouped(s: seq<Bookmark>, groupBy: string): map<string, seq<Bookmark>>
    decreases |s|
  {
    if s == [] then map[] else AddToGroups(Grouped(s[..|s| - 1], groupBy), GroupKeys(s[|s| - 1], groupBy), s[|s| - 1])
  }

  /** Every key of every bookmark, in order. */
  function AllKeys(s: seq<Bookmark>, groupBy: string): seq<string>
    decreases |s|
  {
    if s == [] then [] else AllKeys(s[..|s| - 1], groupBy) + GroupKeys(s[|s| - 1], groupBy)
  }

  /** `b` once for every time `k` is among `keys`. */
  function Copies(b: Bookmark, keys: seq<string>, k: string): seq<Bookmark>
    decreases |keys|
  {
    if keys == [] then [] else (if keys[0] == k then [b] else []) + Copies(b, keys[1..], k)
  }

  /** The reference definition of a group: the bookmarks with key `k`, in input order. */
  function Members(s: seq<Bookmark>, k: string, groupBy: string): seq<Bookmark>
    decreases |s|
  {
    if s == [] then [] else Members(s[..|s| - 1], k, groupBy) + Copies(s[|s| - 1], GroupKeys(s[|s| - 1], groupBy), k)
  }

  /** The groups of the flat export, in ascending key order. */
  function FlatKeys(s: seq<Bookmark>, groupBy: string): seq<string> {
    SortedSet(AllKeys(s, groupBy))
  }

  function FlatGroups(keys: seq<string>, s: seq<Bookmark>, groupBy: string): seq<string>
    decreases |keys|
  {
    if keys == [] then []
    else FlatGroups(keys[..|keys| - 1], s, groupBy) + GroupLines(keys[|keys| - 1], [], Members(s, keys[|keys| - 1], groupBy))
  }

  /** The keys of `by_folder` after adding `b`: the old ones and those of `b`. */
  lemma {:induction false} AddToGroupsKeys(m: map<string, seq<Bookmark>>, keys: seq<string>, b: Bookmark)
    ensures forall k :: k in AddToGroups(m, keys, b) <==> k in m || k in keys
    decreases |keys|
  {
    if keys != [] {
      AddToGroupsKeys(m[keys[0] := GroupAt(m, keys[0]) + [b]], keys[1..], b);
      assert forall k :: k in keys <==> k == keys[0] || k in keys[1..];
    }
  }

  lemma AddToGroupsCons(m: map<string, seq<Bookmark>>, keys: seq<string>, b: Bookmark, k: string)
    requires keys != []
    ensures AddToGroups(m, keys, b) == AddToGroups(m[keys[0] := GroupAt(m, keys[0]) + [b]], keys[1..], b)
    ensures Copies(b, keys, k) == (if keys[0] == k then [b] else []) + Copies(b, keys[1..], k)
    ensures GroupAt(m[keys[0] := GroupAt(m, keys[0]) + [b]], k) == GroupAt(m, k) + (if keys[0] == k then [b] else [])
  {
  }

  lemma AddToGroupsAtStep(m: map<string, seq<Bookmark>>, keys: seq<string>, b: Bookmark, k: string)
    requires keys != []
    requires var m' := m[keys[0] := GroupAt(m, keys[0]) + [b]];
      GroupAt(AddToGroups(m', keys[1..], b), k) == GroupAt(m', k) + Copies(b, keys[1..], k)
    ensures GroupAt(AddToGroups(m, keys, b), k) == GroupAt(m, k) + Copies(b, keys, k)
  {
    var m' := m[keys[0] := GroupAt(m, keys[0]) + [b]];
    var h := if keys[0] == k then [b] else [];
    AddToGroupsCons(m, keys, b, k);
    ConcatAssoc(GroupAt(m, k), h, Copies(b, keys[1..], k));
  }

  lemma {:induction false} AddToGroupsAt(m: map<string, seq<Bookmark>>, keys: seq<string>, b: Bookmark, k: string)
    ensures GroupAt(AddToGroups(m, keys, b), k) == GroupAt(m, k) + Copies(b, keys, k)
    decreases |keys|
  {
    if keys != [] {
      AddToGroupsAt(m[keys[0] := GroupAt(m, keys[0]) + [b]], keys[1..], b, k);
      AddToGroupsAtStep(m, keys, b, k);
    }
  }

  /** `by_folder[k]` holds the group's bookmarks in input order. */
  lemma {:induction false} GroupedIsMembers(s: seq<Bookmark>, groupBy: string, k: string)
    ensures k in Grouped(s, groupBy) ==> Grouped(s, groupBy)[k] == Members(s, k, groupBy)
    ensures k !in Grouped(s, groupBy) ==> Members(s, k, groupBy) == []
    decreases |s|
  {
    if s != [] {
      var init := s[..|s| - 1];
      GroupedIsMembers(init, groupBy, k);
      AddToGroupsAt(Grouped(init, groupBy), GroupKeys(s[|s| - 1], groupBy), s[|s| - 1], k);
    }
  }

  lemma {:induction false} GroupedKeys(s: seq<Bookmark>, groupBy: string)
    ensures forall k :: k in Grouped(s, groupBy) <==> k in AllKeys(s, groupBy)
    decreases |s|
  {
    if s != [] {
      var init := s[..|s| - 1];
      GroupedKeys(init, groupBy);
      AddToGroupsKeys(Grouped(init, groupBy), GroupKeys(s[|s| - 1], groupBy), s[|s| - 1]);
    }
  }

  lemma {:induction false} CopiesMembers(b: Bookmark, keys: seq<string>, k: string)
    ensures forall x :: x in Copies(b, keys, k) <==> x == b && k in keys
    decreases |keys|
  {
    if keys != [] {
      CopiesMembers(b, keys[1..], k);
      assert keys == [keys[0]] + keys[1..];
    }
  }

  /** A group holds exactly the bookmarks that have its key. */
  lemma {:induction false} MembersMeaning(s: seq<Bookmark>, k: string, groupBy: string)
    ensures forall b :: b in Members(s, k, groupBy) <==> b in s && k in GroupKeys(b, groupBy)
    decreases |s|
  {
    if s != [] {
      var init := s[..|s| - 1];
      MembersMeaning(init, k, groupBy);
      CopiesMembers(s[|s| - 1], GroupKeys(s[|s| - 1], groupBy), k);
      assert s == init + [s[|s| - 1]];
    }
  }

  lemma MembersSnoc(s: seq<Bookmark>, b: Bookmark, k: string, groupBy: string)
    ensures Members(s + [b], k, groupBy) == Members(s, k, groupBy) + Copies(b, GroupKeys(b, groupBy), k)
  {
    var u := s + [b];
    assert u[..|u| - 1] == s;
  }

  lemma MembersAppendStep(s: seq<Bookmark>, t0: seq<Bookmark>, last: Bookmark, k: string, groupBy: string)
    requires Members(s + t0, k, groupBy) == Members(s, k, groupBy) + Members(t0, k, groupBy)
    ensures Members(s + (t0 + [last]), k, groupBy) == Members(s, k, groupBy) + Members(t0 + [last], k, groupBy)
  {
    var c := Copies(last, GroupKeys(last, groupBy), k);
    var ms, mt := Members(s, k, groupBy), Members(t0, k, groupBy);
    ConcatAssoc(s, t0, [last]);
    MembersSnoc(s + t0, last, k, groupBy);
    MembersSnoc(t0, last, k, groupBy);
    ConcatAssoc(ms, mt, c);
  }

  /** Groups keep insertion order: the bookmarks of a longer list come after those of its prefix. */
  lemma {:induction false} MembersAppend(s: seq<Bookmark>, t: seq<Bookmark>, k: string, groupBy: string)
    ensures Members(s + t, k, groupBy) == Members(s, k, groupBy) + Members(t, k, groupBy)
    decreases |t|
  {
    if t == [] {
      assert s + t == s;
    } else {
      var t0, last := t[..|t| - 1], t[|t| - 1];
      assert t == t0 + [last];
      MembersAppend(s, t0, k, groupBy);
      MembersAppendStep(s, t0, last, k, groupBy);
    }
  }

  lemma {:induction false} AllKeysMembers(s: seq<Bookmark>, groupBy: string)
    ensures forall k :: k in AllKeys(s, groupBy) <==> exists b :: b in s && k in GroupKeys(b, groupBy)
    decreases |s|
  {
    if s != [] {
      var init := s[..|s| - 1];
      AllKeysMembers(init, groupBy);
      assert s == init + [s[|s| - 1]];
    }
  }

  /**
   * The flat export's groups come in strictly ascending key order, one for
   * each key some bookmark has, and none else.
   */
  lemma FlatKeysProps(s: seq<Bookmark>, groupBy: string)
    ensures StrictlySorted(FlatKeys(s, groupBy))
    ensures forall k :: k in FlatKeys(s, groupBy) <==> exists b :: b in s && k in GroupKeys(b, groupBy)
  {
    SortedSetCorrect(AllKeys(s, groupBy));
    AllKeysMembers(s, groupBy);
  }

  lemma {:induction false} AnchorsNone(items: seq<Bookmark>)
    requires forall b :: b in items ==> !Truthy(b.url)
    ensures Anchors(items) == []
    decreases |items|
  {
    if items != [] {
      assert items[|items| - 1] in items;
      assert forall b :: b in items[..|items| - 1] ==> b in items;
      AnchorsNone(items[..|items| - 1]);
    }
  }

  /** A group whose bookmarks have no URL still gets its heading, but no anchor. */
  lemma GroupWithoutUrls(name: string, items: seq<Bookmark>)
    requires forall b :: b in items ==> !Truthy(b.url)
    ensures GroupLines(name, [], items) == [Header(name), Open, Close]
  {
    AnchorsNone(items);
  }

  /** `for key in keys: by_folder.setdefault(key, []).append(b)`, on the dictionary in place. */
  method AddKeys(m: map<string, seq<Bookmark>>, keys: seq<string>, b: Bookmark) returns (byFolder: map<string, seq<Bookmark>>)
    ensures byFolder == AddToGroups(m, keys, b)
  {
    byFolder := m;
    for j := 0 to |keys|
      invariant AddToGroups(byFolder, keys[j..], b) == AddToGroups(m, keys, b)
    {
      assert keys[j..][1..] == keys[j + 1..];
      var key := keys[j];
      byFolder := byFolder[key := (if key in byFolder then byFolder[key] else []) + [b]];
    }
  }

  /** The first loop of the flat path: `by_folder`, and every key in the order met. */
  method GroupAll(s: seq<Bookmark>, groupBy: string) returns (byFolder: map<string, seq<Bookmark>>, order: seq<string>)
    ensures byFolder == Grouped(s, groupBy)
    ensures order == AllKeys(s, groupBy)
  {
    byFolder := map[];
    order := [];
    for i := 0 to |s|
      invariant byFolder == Grouped(s[..i], groupBy)
      invariant order == AllKeys(s[..i], groupBy)
    {
      TakeSnoc(s, i);
      assert (s[..i] + [s[i]])[..i] == s[..i];
      var keys := GroupKeys(s[i], groupBy);
      byFolder := AddKeys(byFolder, keys, s[i]);
      order := order + keys;
    }
    assert s[..|s|] == s;
  }

  /** The second loop of the flat path: one block per key of `by_folder`, in sorted order. */
  method EmitGroups(s: seq<Bookmark>, groupBy: string, byFolder: map<string, seq<Bookmark>>, sorted: seq<string>) returns (out: seq<string>)
    requires byFolder == Grouped(s, groupBy)
    requires forall k :: k in sorted ==> k in AllKeys(s, groupBy)
    ensures out == FlatGroups(sorted, s, groupBy)
  {
    GroupedKeys(s, groupBy);
    out := [];
    for g := 0 to |sorted|
      invariant out == FlatGroups(sorted[..g], s, groupBy)
    {
      TakeSnoc(sorted, g);
      assert (sorted[..g] + [sorted[g]])[..g] == sorted[..g];
      var folder := sorted[g];
      assert folder in sorted;
      GroupedIsMembers(s, groupBy, folder);
      var anchors := AnchorLines(byFolder[folder]);
      out := out + ([Header(folder), Open] + [] + anchors + [Close]);
    }
    assert sorted[..|sorted|] == sorted;
  }

  /** The flat path of `export_bookmarks_html`; `by_folder` is built in place. */
  method FlatExport(s: seq<Bookmark>, groupBy: string) returns (out: seq<string>)
    ensures out == FlatGroups(FlatKeys(s, groupBy), s, groupBy)
  {
    var byFolder, order := GroupAll(s, groupBy);
    var sorted := SortedSet(order);
    SortedSetCorrect(order);
    out := EmitGroups(s, groupBy, byFolder, sorted);
  }

  // --------------------------------------------------------------- tag-hier export

  /**
   * A node of the tag-hier dictionary: its sub-nodes by segment name, in the
   * order they were first added, and its `"__items__"` list.
   */
  datatype Tree = Node(children: seq<(string, Tree)>, items: seq<Bookmark>)

  const EmptyTree: Tree := Node([], [])

  function Names(cs: seq<(string, Tree)>): (r: seq<string>)
    ensures |r| == |cs| && forall i :: 0 <= i < |cs| ==> r[i] == cs[i].0
  {
    seq(|cs|, i requires 0 <= i < |cs| => cs[i].0)
  }

  predicate Distinct(names: seq<string>) {
    forall i, j :: 0 <= i < j < |names| ==> names[i] != names[j]
  }

  /** The sub-node stored under `name`, if any. */
  function Lookup(cs: seq<(string, Tree)>, name: string): (r: Option<Tree>)
    ensures r.Some? <==> exists i :: 0 <= i < |cs| && cs[i].0 == name
    ensures r.Some? ==> exists i :: 0 <= i < |cs| && cs[i] == (name, r.value)
    decreases |cs|
  {
    if cs == [] then None
    else if cs[0].0 == name then Some(cs[0].1)
    else
      var r := Lookup(cs[1..], name);
      assert forall i :: 0 <= i < |cs| - 1 ==> cs[1..][i] == cs[i + 1];
      assert forall i :: 0 <= i < |cs| && i != 0 ==> cs[i] == cs[1..][i - 1];
      r
  }

  lemma LookupNames(cs: seq<(string, Tree)>, name: string)
    ensures Lookup(cs, name).Some? <==> name in Names(cs)
  {
    var ns := Names(cs);
    if name in ns {
      var i :| 0 <= i < |ns| && ns[i] == name;
      assert cs[i].0 == name;
    }
  }

  function Child(t: Tree, name: string): (r: Option<Tree>)
    ensures r.Some? <==> name in Names(t.children)
    ensures r.Some? ==> r.value < t
  {
    LookupNames(t.children, name);
    Lookup(t.children, name)
  }

  /** Store `v` under `name`, in place of an existing entry or else at the end. */
  function Put(cs: seq<(string, Tree)>, name: string, v: Tree): seq<(string, Tree)>
    decreases |cs|
  {
    if cs == [] then [(name, v)]
    else if cs[0].0 == name then [(name, v)] + cs[1..]
    else [cs[0]] + Put(cs[1..], name, v)
  }

  /**
   * `node = node.setdefault(p, {})` along `path`, then
   * `node.setdefault("__items__", []).append(b)`.
   */
  function Insert(t: Tree, path: seq<string>, b: Bookmark): Tree
    decreases |path|
  {
    if path == [] then Node(t.children, t.items + [b])
    else
      var sub := match Lookup(t.children, path[0]) case Some(c) => c case None => EmptyTree;
      Node(Put(t.children, path[0], Insert(sub, path[1..], b)), t.items)
  }

  /** The items stored at the node reached by `path`, or none when there is no such node. */
  function ItemsAt(t: Tree, path: seq<string>): seq<Bookmark>
    decreases |path|
  {
    if path == [] then t.items
    else match Lookup(t.children, path[0])
      case None => []
      case Some(c) => ItemsAt(c, path[1..])
  }

  /** Every dictionary in the tree has distinct keys. */
  predicate Valid(t: Tree)
    decreases t
  {
    && Distinct(Names(t.children))
    && forall i :: 0 <= i < |t.children| ==> Valid(t.children[i].1)
  }

  /** `[p for p in key.split("/") if p]`, or `["Uncategorized"]` when that is empty. */
  function PathOf(key: string): (r: seq<string>)
    ensures |r| >= 1 && forall p :: p in r ==> p != ""
  {
    var parts := NonEmpty(Split(key, '/'));
    if parts == [] then ["Uncategorized"] else parts
  }

  /** `for key in _group_keys(b, "tag-all")`: `b` is stored once under each key's path. */
  function InsertKeys(t: Tree, keys: seq<string>, b: Bookmark): Tree
    decreases |keys|
  {
    if keys == [] then t else InsertKeys(Insert(t, PathOf(keys[0]), b), keys[1..], b)
  }

  /** The tree once every bookmark is added. */
  function TreeOf(s: seq<Bookmark>): Tree
    decreases |s|
  {
    if s == [] then EmptyTree
    else InsertKeys(TreeOf(s[..|s| - 1]), GroupKeys(s[|s| - 1], "tag-all"), s[|s| - 1])
  }

  /** `b` once for each of `keys` whose path is `q`. */
  function Hits(b: Bookmark, keys: seq<string>, q: seq<string>): seq<Bookmark>
    decreases |keys|
  {
    if keys == [] then [] else (if PathOf(keys[0]) == q then [b] else []) + Hits(b, keys[1..], q)
  }

  /** The reference definition of what node `q` holds: each bookmark once per tag whose path is `q`, in input order. */
  function Stored(s: seq<Bookmark>, q: seq<string>): seq<Bookmark>
    decreases |s|
  {
    if s == [] then [] else Stored(s[..|s| - 1], q) + Hits(s[|s| - 1], GroupKeys(s[|s| - 1], "tag-all"), q)
  }

  /** `_write_tree`: the children in ascending name order, each with its sub-tree before its items. */
  function TreeLines(t: Tree): seq<string>
    decreases t, 1
  {
    ChildLines(t, SortedSet(Names(t.children)))
  }

  function ChildLines(t: Tree, names: seq<string>): seq<string>
    decreases t, 0, |names|
  {
    if names == [] then []
    else
      var name := names[|names| - 1];
      ChildLines(t, names[..|names| - 1]) +
        match Child(t, name)
          case None => []
          case Some(c) => GroupLines(name, TreeLines(c), c.items)
  }

  /** What `export_bookmarks_html` writes, one line per element. */
  function ExportLines(s: seq<Bookmark>, groupBy: string): seq<string> {
    Preamble
      + (if groupBy == "tag-hier" then TreeLines(TreeOf(s)) else FlatGroups(FlatKeys(s, groupBy), s, groupBy))
      + [Close]
  }

  // ---------------------------------------------------------- tree lemmas

  lemma {:induction false} LookupPut(cs: seq<(string, Tree)>, name: string, v: Tree, m: string)
    ensures Lookup(Put(cs, name, v), m) == if m == name then Some(v) else Lookup(cs, m)
    decreases |cs|
  {
    if cs != [] && cs[0].0 != name {
      LookupPut(cs[1..], name, v, m);
    }
  }

  lemma NamesCons(x: (string, Tree), cs: seq<(string, Tree)>)
    ensures Names([x] + cs) == [x.0] + Names(cs)
  {
  }

  lemma {:induction false} PutNames(cs: seq<(string, Tree)>, name: string, v: Tree)
    ensures Names(Put(cs, name, v)) == if name in Names(cs) then Names(cs) else Names(cs) + [name]
    decreases |cs|
  {
    if cs != [] {
      var rest := cs[1..];
      assert cs == [cs[0]] + rest;
      NamesCons(cs[0], rest);
      if cs[0].0 != name {
        PutNames(rest, name, v);
        NamesCons(cs[0], Put(rest, name, v));
        assert name in Names(cs) <==> name in Names(rest);
      } else {
        NamesCons((name, v), rest);
      }
    }
  }

  lemma {:induction false} PutEntries(cs: seq<(string, Tree)>, name: string, v: Tree)
    ensures forall x :: x in Put(cs, name, v) ==> x == (name, v) || x in cs
    decreases |cs|
  {
    if cs != [] && cs[0].0 != name {
      PutEntries(cs[1..], name, v);
      assert forall x :: x in cs[1..] ==> x in cs;
    }
  }

  lemma DistinctSnoc(names: seq<string>, x: string)
    requires Distinct(names) && x !in names
    ensures Distinct(names + [x])
  {
  }

  lemma ValidLookup(t: Tree, name: string)
    requires Valid(t) && Lookup(t.children, name).Some?
    ensures Valid(Lookup(t.children, name).value)
  {
  }

  /** Storing a bookmark keeps every dictionary's keys distinct. */
  lemma {:induction false} InsertValid(t: Tree, path: seq<string>, b: Bookmark)
    requires Valid(t)
    ensures Valid(Insert(t, path, b))
    decreases |path|
  {
    if path != [] {
      var sub := match Lookup(t.children, path[0]) case Some(c) => c case None => EmptyTree;
      if Lookup(t.children, path[0]).Some? {
        ValidLookup(t, path[0]);
      }
      InsertValid(sub, path[1..], b);
      var v := Insert(sub, path[1..], b);
      PutNames(t.children, path[0], v);
      PutEntries(t.children, path[0], v);
      if path[0] !in Names(t.children) {
        DistinctSnoc(Names(t.children), path[0]);
      }
      var cs := Put(t.children, path[0], v);
      forall i | 0 <= i < |cs| ensures Valid(cs[i].1) {
        assert cs[i] in cs;
        if cs[i] != (path[0], v) {
          var j :| 0 <= j < |t.children| && t.children[j] == cs[i];
        }
      }
    }
  }

  lemma EmptyItemsAt(q: seq<string>)
    ensures ItemsAt(EmptyTree, q) == []
  {
  }

  /** Storing `b` at `p` appends it to the items at `p` and changes no other node's items. */
  lemma {:induction false} InsertItemsAt(t: Tree, p: seq<string>, b: Bookmark, q: seq<string>)
    ensures ItemsAt(Insert(t, p, b), q) == ItemsAt(t, q) + (if q == p then [b] else [])
    decreases |p|
  {
    if p != [] && q != [] {
      var sub := match Lookup(t.children, p[0]) case Some(c) => c case None => EmptyTree;
      var v := Insert(sub, p[1..], b);
      LookupPut(t.children, p[0], v, q[0]);
      if q[0] == p[0] {
        InsertItemsAt(sub, p[1..], b, q[1..]);
        if Lookup(t.children, p[0]).None? {
          EmptyItemsAt(q[1..]);
        }
        assert (q == p) == (q[1..] == p[1..]) by {
          assert p == [p[0]] + p[1..] && q == [q[0]] + q[1..];
        }
      }
    }
  }

  lemma {:induction false} InsertKeysItemsAt(t: Tree, keys: seq<string>, b: Bookmark, q: seq<string>)
    ensures ItemsAt(InsertKeys(t, keys, b), q) == ItemsAt(t, q) + Hits(b, keys, q)
    decreases |keys|
  {
    if keys != [] {
      InsertItemsAt(t, PathOf(keys[0]), b, q);
      InsertKeysItemsAt(Insert(t, PathOf(keys[0]), b), keys[1..], b, q);
      ConcatAssoc(ItemsAt(t, q), if PathOf(keys[0]) == q then [b] else [], Hits(b, keys[1..], q));
    }
  }

  lemma {:induction false} InsertKeysValid(t: Tree, keys: seq<string>, b: Bookmark)
    requires Valid(t)
    ensures Valid(InsertKeys(t, keys, b))
    decreases |keys|
  {
    if keys != [] {
      InsertValid(t, PathOf(keys[0]), b);
      InsertKeysValid(Insert(t, PathOf(keys[0]), b), keys[1..], b);
    }
  }

  /** The node reached by `q` holds exactly what `Stored` says, in that order. */
  lemma {:induction false} TreeOfItems(s: seq<Bookmark>, q: seq<string>)
    ensures ItemsAt(TreeOf(s), q) == Stored(s, q)
    decreases |s|
  {
    if s == [] {
      EmptyItemsAt(q);
    } else {
      TreeOfItems(s[..|s| - 1], q);
      InsertKeysItemsAt(TreeOf(s[..|s| - 1]), GroupKeys(s[|s| - 1], "tag-all"), s[|s| - 1], q);
    }
  }

  /** Shared path prefixes share one node: no dictionary of the tree repeats a name. */
  lemma {:induction false} TreeOfValid(s: seq<Bookmark>)
    ensures Valid(TreeOf(s))
    decreases |s|
  {
    if s != [] {
      TreeOfValid(s[..|s| - 1]);
      InsertKeysValid(TreeOf(s[..|s| - 1]), GroupKeys(s[|s| - 1], "tag-all"), s[|s| - 1]);
    }
  }

  lemma {:induction false} HitsMembers(b: Bookmark, keys: seq<string>, q: seq<string>)
    ensures forall x :: x in Hits(b, keys, q) <==> x == b && exists k :: k in keys && PathOf(k) == q
    decreases |keys|
  {
    if keys != [] {
      HitsMembers(b, keys[1..], q);
      assert keys == [keys[0]] + keys[1..];
    }
  }

  /**
   * A bookmark is stored at the node of `q` exactly when one of its tags
   * (or "Uncategorized", for a bookmark without tags) has `q` as its path.
   */
  lemma {:induction false} StoredMeaning(s: seq<Bookmark>, q: seq<string>)
    ensures forall b :: b in Stored(s, q) <==> b in s && exists k :: k in GroupKeys(b, "tag-all") && PathOf(k) == q
    decreases |s|
  {
    if s != [] {
      var init := s[..|s| - 1];
      StoredMeaning(init, q);
      HitsMembers(s[|s| - 1], GroupKeys(s[|s| - 1], "tag-all"), q);
      assert s == init + [s[|s| - 1]];
    }
  }

  lemma {:induction false} NoHitsAtRoot(b: Bookmark, keys: seq<string>)
    ensures Hits(b, keys, []) == []
    decreases |keys|
  {
    if keys != [] {
      NoHitsAtRoot(b, keys[1..]);
    }
  }

  /** The root never holds items, since every path has at least one segment. */
  lemma {:induction false} TreeOfRoot(s: seq<Bookmark>)
    ensures TreeOf(s).items == []
    decreases |s|
  {
    TreeOfItems(s, []);
    if s != [] {
      TreeOfRoot(s[..|s| - 1]);
      NoHitsAtRoot(s[|s| - 1], GroupKeys(s[|s| - 1], "tag-all"));
      TreeOfItems(s[..|s| - 1], []);
    }
  }

  lemma {:induction false} NonEmptyAll(parts: seq<string>)
    requires forall p :: p in parts ==> p != ""
    ensures NonEmpty(parts) == parts
    decreases |parts|
  {
    if parts != [] {
      assert parts[0] in parts;
      assert forall p :: p in parts[1..] ==> p in parts;
      NonEmptyAll(parts[1..]);
    }
  }

  /** A tag made of non-empty `/`-free segments joined by `/` is stored under exactly those segments. */
  predicate Segment(p: string) {
    p != "" && '/' !in p
  }

  lemma PathOfJoin(parts: seq<string>)
    requires |parts| >= 1
    requires forall p :: p in parts ==> Segment(p)
    ensures PathOf(Join(parts, '/')) == parts
  {
    SplitOfJoin(parts, '/');
    NonEmptyAll(parts);
  }

  /** `Child` lists the children in the order `_write_tree` visits them: ascending and each name once. */
  lemma TreeLinesOrder(t: Tree)
    ensures StrictlySorted(SortedSet(Names(t.children)))
    ensures forall n :: n in SortedSet(Names(t.children)) <==> n in Names(t.children)
    ensures TreeLines(t) == ChildLines(t, SortedSet(Names(t.children)))
  {
    SortedSetCorrect(Names(t.children));
  }

  /**
   * Two bookmarks tagged "a/r" and "d/l", and "d/k", with `a` and `d`
   * different: the root holds one node for "a" and one shared node for "d".
   */
  lemma SharedPrefixNodes(b1: Bookmark, b2: Bookmark, a: string, r: string, d: string, l: string, k: string)
    requires Segment(a) && Segment(r) && Segment(d) && Segment(l) && Segment(k)
    requires a != d
    requires b1.tags == [Join([a, r], '/'), Join([d, l], '/')] && b2.tags == [Join([d, k], '/')]
    ensures Names(TreeOf([b1, b2]).children) == [a, d]
  {
    PathOfJoin([a, r]);
    PathOfJoin([d, l]);
    PathOfJoin([d, k]);
    var k1, k2, k3 := Join([a, r], '/'), Join([d, l], '/'), Join([d, k], '/');
    TreeOfPair(b1, b2, k1, k2, k3);
    NamesOfThree(b1, b2, [a, r], [d, l], [d, k]);
  }

  lemma NamesOfThree(b1: Bookmark, b2: Bookmark, p1: seq<string>, p2: seq<string>, p3: seq<string>)
    requires |p1| >= 1 && |p2| >= 1 && |p3| >= 1
    requires p1[0] != p2[0] && p2[0] == p3[0]
    ensures Names(Insert(Insert(Insert(EmptyTree, p1, b1), p2, b1), p3, b2).children) == [p1[0], p2[0]]
  {
    var t1 := Insert(EmptyTree, p1, b1);
    var t2 := Insert(t1, p2, b1);
    assert Names(t1.children) == [p1[0]];
    PutNames(t1.children, p2[0], Insert(EmptyTree, p2[1..], b1));
    assert Names(t2.children) == [p1[0], p2[0]];
    LookupNames(t2.children, p3[0]);
    PutNames(t2.children, p3[0], Insert(Lookup(t2.children, p3[0]).value, p3[1..], b2));
  }

  lemma TreeOfPair(b1: Bookmark, b2: Bookmark, k1: string, k2: string, k3: string)
    requires b1.tags == [k1, k2] && b2.tags == [k3]
    ensures TreeOf([b1, b2]) == Insert(Insert(Insert(EmptyTree, PathOf(k1), b1), PathOf(k2), b1), PathOf(k3), b2)
  {
    var s := [b1, b2];
    assert s[..1] == [b1] && [b1][..0] == [];
    assert GroupKeys(b1, "tag-all") == [k1, k2] && GroupKeys(b2, "tag-all") == [k3];
    var t1 := Insert(EmptyTree, PathOf(k1), b1);
    var t2 := Insert(t1, PathOf(k2), b1);
    var t3 := Insert(t2, PathOf(k3), b2);
    assert TreeOf([b1]) == t2 by {
      assert TreeOf([b1]) == InsertKeys(EmptyTree, [k1, k2], b1);
      assert [k1, k2][1..] == [k2];
      assert InsertKeys(EmptyTree, [k1, k2], b1) == InsertKeys(t1, [k2], b1);
      assert InsertKeys(t1, [k2], b1) == InsertKeys(t2, [], b1);
    }
    assert TreeOf(s) == InsertKeys(t2, [k3], b2);
    assert InsertKeys(t2, [k3], b2) == InsertKeys(t3, [], b2);
  }

  /**
   * In the same tree, each bookmark sits at the end of its tags' paths, and
   * the shared "d" node holds nothing itself.
   */
  lemma SharedPrefixItems(b1: Bookmark, b2: Bookmark, a: string, r: string, d: string, l: string, k: string)
    requires Segment(a) && Segment(r) && Segment(d) && Segment(l) && Segment(k)
    requires a != d && l != k
    requires b1.tags == [Join([a, r], '/'), Join([d, l], '/')] && b2.tags == [Join([d, k], '/')]
    ensures ItemsAt(TreeOf([b1, b2]), [a, r]) == [b1]
    ensures ItemsAt(TreeOf([b1, b2]), [d, l]) == [b1]
    ensures ItemsAt(TreeOf([b1, b2]), [d, k]) == [b2]
    ensures ItemsAt(TreeOf([b1, b2]), [d]) == []
  {
    PathOfJoin([a, r]);
    PathOfJoin([d, l]);
    PathOfJoin([d, k]);
    var k1, k2, k3 := Join([a, r], '/'), Join([d, l], '/'), Join([d, k], '/');
    assert [a, r] != [d, l] && [a, r] != [d, k] && [d, l] != [d, k];
    PairItems(b1, b2, k1, k2, k3, [a, r], [d, l], [d, k]);
    ItemsOfPair(b1, b2, k1, k2, k3, [d]);
  }

  lemma PairItems(b1: Bookmark, b2: Bookmark, k1: string, k2: string, k3: string, p1: seq<string>, p2: seq<string>, p3: seq<string>)
    requires b1.tags == [k1, k2] && b2.tags == [k3]
    requires PathOf(k1) == p1 && PathOf(k2) == p2 && PathOf(k3) == p3
    requires p1 != p2 && p1 != p3 && p2 != p3
    ensures ItemsAt(TreeOf([b1, b2]), p1) == [b1]
    ensures ItemsAt(TreeOf([b1, b2]), p2) == [b1]
    ensures ItemsAt(TreeOf([b1, b2]), p3) == [b2]
  {
    ItemsOfPair(b1, b2, k1, k2, k3, p1);
    ItemsOfPair(b1, b2, k1, k2, k3, p2);
    ItemsOfPair(b1, b2, k1, k2, k3, p3);
  }

  lemma ItemsOfPair(b1: Bookmark, b2: Bookmark, k1: string, k2: string, k3: string, q: seq<string>)
    requires b1.tags == [k1, k2] && b2.tags == [k3]
    ensures ItemsAt(TreeOf([b1, b2]), q)
      == (if PathOf(k1) == q then [b1] else []) + (if PathOf(k2) == q then [b1] else []) + (if PathOf(k3) == q then [b2] else [])
  {
    StoredOfPair(b1, b2, k1, k2, k3, q);
    TreeOfItems([b1, b2], q);
  }

  lemma HitsPair(b: Bookmark, k1: string, k2: string, q: seq<string>)
    ensures Hits(b, [k1, k2], q) == (if PathOf(k1) == q then [b] else []) + (if PathOf(k2) == q then [b] else [])
  {
    assert [k1, k2][1..] == [k2] && [k2][1..] == [];
    assert Hits(b, [k2], q) == (if PathOf(k2) == q then [b] else []) + Hits(b, [], q);
    assert Hits(b, [k1, k2], q) == (if PathOf(k1) == q then [b] else []) + Hits(b, [k2], q);
  }

  lemma StoredOfPair(b1: Bookmark, b2: Bookmark, k1: string, k2: string, k3: string, q: seq<string>)
    requires b1.tags == [k1, k2] && b2.tags == [k3]
    ensures Stored([b1, b2], q)
      == (if PathOf(k1) == q then [b1] else []) + (if PathOf(k2) == q then [b1] else []) + (if PathOf(k3) == q then [b2] else [])
  {
    StoredTwo(b1, b2, q);
    assert GroupKeys(b1, "tag-all") == [k1, k2] && GroupKeys(b2, "tag-all") == [k3];
    HitsPair(b1, k1, k2, q);
    HitsOne(b2, k3, q);
  }

  lemma StoredTwo(b1: Bookmark, b2: Bookmark, q: seq<string>)
    ensures Stored([b1, b2], q) == Hits(b1, GroupKeys(b1, "tag-all"), q) + Hits(b2, GroupKeys(b2, "tag-all"), q)
  {
    var h1, h2 := Hits(b1, GroupKeys(b1, "tag-all"), q), Hits(b2, GroupKeys(b2, "tag-all"), q);
    StoredSnoc([], b1, q);
    assert [] + [b1] == [b1];
    StoredSnoc([b1], b2, q);
    assert [b1] + [b2] == [b1, b2];
    assert Stored([b1], q) == h1;
  }

  lemma StoredSnoc(s: seq<Bookmark>, b: Bookmark, q: seq<string>)
    ensures Stored(s + [b], q) == Stored(s, q) + Hits(b, GroupKeys(b, "tag-all"), q)
  {
    assert (s + [b])[..|s|] == s;
  }

  lemma HitsOne(b: Bookmark, k: string, q: seq<string>)
    ensures Hits(b, [k], q) == if PathOf(k) == q then [b] else []
  {
    assert [k][1..] == [];
    assert Hits(b, [k], q) == (if PathOf(k) == q then [b] else []) + Hits(b, [], q);
  }

  // --------------------------------------------------------- tree methods

  /** The inner loop of the tag-hier build: `b` is stored under the path of each of `keys`. */
  method StoreUnderKeys(t: Tree, keys: seq<string>, b: Bookmark) returns (tree: Tree)
    ensures tree == InsertKeys(t, keys, b)
  {
    tree := t;
    for j := 0 to |keys|
      invariant InsertKeys(tree, keys[j..], b) == InsertKeys(t, keys, b)
    {
      assert keys[j..][1..] == keys[j + 1..];
      var parts := NonEmpty(Split(keys[j], '/'));
      if parts == [] {
        parts := ["Uncategorized"];
      }
      tree := Insert(tree, parts, b);
    }
  }

  /** The tag-hier loop of `export_bookmarks_html`, building the dictionary. */
  method BuildTree(s: seq<Bookmark>) returns (tree: Tree)
    ensures tree == TreeOf(s)
  {
    tree := EmptyTree;
    for i := 0 to |s|
      invariant tree == TreeOf(s[..i])
    {
      TakeSnoc(s, i);
      assert (s[..i] + [s[i]])[..i] == s[..i];
      tree := StoreUnderKeys(tree, GroupKeys(s[i], "tag-all"), s[i]);
    }
    assert s[..|s|] == s;
  }

  /** `_write_tree(f, tree)`, returning the lines it writes. */
  method WriteTree(tree: Tree) returns (out: seq<string>)
    ensures out == TreeLines(tree)
    decreases tree
  {
    var names := SortedSet(Names(tree.children));
    out := [];
    for g := 0 to |names|
      invariant out == ChildLines(tree, names[..g])
    {
      assert names[..g + 1][..g] == names[..g];
      var name := names[g];
      var node := Child(tree, name);
      if node.Some? {
        var sub := WriteTree(node.value);
        var anchors := AnchorLines(node.value.items);
        out := out + ([Header(name), Open] + sub + anchors + [Close]);
      }
    }
    assert names[..|names|] == names;
  }

  /** `export_bookmarks_html(bookmarks, path, group_by=groupBy)`, returning the file's lines. */
  method ExportBookmarksHtml(s: seq<Bookmark>, groupBy: string) returns (out: seq<string>)
    ensures out == ExportLines(s, groupBy)
  {
    var body;
    if groupBy == "tag-hier" {
      var tree := BuildTree(s);
      body := WriteTree(tree);
    } else {
      body := FlatExport(s, groupBy);
    }
    out := Preamble + body + [Close];
  }
}
