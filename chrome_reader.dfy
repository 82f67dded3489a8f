/**
 * `read_chrome_json` of `cbclean.chrome_reader`: the decoded Chrome
 * `Bookmarks` file is flattened into bookmarks by the nested `walk`, which
 * appends every "url" node reached through "folder" nodes to one list.
 */
module ChromeReader {
  import opened Optional
  import Utils
  import Text
  import opened Json

  /** A member value stored as text: a string as it is, anything else as its `str`. */
  function TextOf(v: Json): string {
    if v.JStr? then v.s else Str(v)
  }

  /** `node.get("url", None)` */
  function UrlOf(fields: seq<(string, Json)>): Option<string> {
    var v := GetOr(fields, "url", JNull);
    if v.JNull? then None else Some(TextOf(v))
  }

  /** The bookmark a "url" node gives: id and title default to "", the url to None. */
  function UrlBookmark(fields: seq<(string, Json)>, path: string, profile: Option<string>): Utils.Bookmark {
    Utils.Bookmark(
      id := TextOf(GetOr(fields, "id", JStr(""))),
      title := TextOf(GetOr(fields, "name", JStr(""))),
      url := UrlOf(fields),
      parentId := None,
      folderPath := path,
      profile := profile,
      normalizedUrl := None,
      tags := [],
      liveness := None)
  }

  /** `f"{folder_path}/{name}" if name else folder_path` */
  function FolderPath(fields: seq<(string, Json)>, path: string): string {
    var name := GetOr(fields, "name", JStr(""));
    if Truthy(name) then path + "/" + TextOf(name) else path
  }

  /** `node.get("children", []) or []`, of which only a list has nodes to walk. */
  function Children(node: Json): (r: seq<Json>)
    requires node.JObj?
    ensures forall x :: x in r ==> x < node
  {
    var c := GetOr(node.fields, "children", JList([]));
    if c.JList? then
      assert c == JList([]) || exists i :: 0 <= i < |node.fields| && node.fields[i] == ("children", c);
      c.items
    else []
  }

  /**
   * `for child in node.get("children", []) or []` raises `TypeError` when the
   * member is a true, a non-zero number: the only truthy values that cannot be
   * iterated. A string or an object iterates its characters or keys, none of
   * which is a node.
   */
  predicate ScalarChildren(node: Json)
    requires node.JObj?
  {
    var c := GetOr(node.fields, "children", JList([]));
    Truthy(c) && (c.JBool? || c.JInt? || c.JFloat?)
  }

  predicate IsType(node: Json, t: string)
    requires node.JObj?
  {
    Get(node.fields, "type") == Some(JStr(t))
  }

  /** `walk(node, folder_path)`, the list it appends to made explicit as `acc`; None where it raises. */
  function Walk(node: Json, path: string, profile: Option<string>, acc: seq<Utils.Bookmark>): Option<seq<Utils.Bookmark>>
    decreases node, 1
  {
    if !node.JObj? then Some(acc)
    else if IsType(node, "url") then Some(acc + [UrlBookmark(node.fields, path, profile)])
    else if IsType(node, "folder") then
      if ScalarChildren(node) then None
      else WalkAll(node, Children(node), FolderPath(node.fields, path), profile, acc)
    else Some(acc)
  }

  /** `for child in children: walk(child, new_path)` */
  function WalkAll(parent: Json, children: seq<Json>, path: string, profile: Option<string>, acc: seq<Utils.Bookmark>): Option<seq<Utils.Bookmark>>
    requires forall x :: x in children ==> x < parent
    decreases parent, 0, |children|
  {
    if children == [] then Some(acc)
    else
      assert children[0] in children;
      assert forall x :: x in children[1..] ==> x in children;
      var w := Walk(children[0], path, profile, acc);
      if w.None? then None else WalkAll(parent, children[1..], path, profile, w.value)
  }

  /** The reference definition of failure: some folder reached through folders has scalar children. */
  predicate Raises(node: Json)
    decreases node, 1
  {
    && node.JObj? && !IsType(node, "url") && IsType(node, "folder")
    && (ScalarChildren(node) || RaisesAll(node, Children(node)))
  }

  predicate RaisesAll(parent: Json, children: seq<Json>)
    requires forall x :: x in children ==> x < parent
    decreases parent, 0, |children|
  {
    && children != []
    && (assert children[0] in children;
        assert forall x :: x in children[1..] ==> x in children;
        Raises(children[0]) || RaisesAll(parent, children[1..]))
  }

  /** The reference definition: the url nodes reached through folders, in pre-order, as bookmarks. */
  function Flat(node: Json, path: string, profile: Option<string>): seq<Utils.Bookmark>
    decreases node, 1
  {
    if !node.JObj? then []
    else if IsType(node, "url") then [UrlBookmark(node.fields, path, profile)]
    else if IsType(node, "folder") then FlatAll(node, Children(node), FolderPath(node.fields, path), profile)
    else []
  }

  function FlatAll(parent: Json, children: seq<Json>, path: string, profile: Option<string>): seq<Utils.Bookmark>
    requires forall x :: x in children ==> x < parent
    decreases parent, 0, |children|
  {
    if children == [] then []
    else
      assert children[0] in children;
      assert forall x :: x in children[1..] ==> x in children;
      Flat(children[0], path, profile) + FlatAll(parent, children[1..], path, profile)
  }

  /** The number of url nodes reached through folders. */
  function UrlCount(node: Json): nat
    decreases node, 1
  {
    if !node.JObj? then 0
    else if IsType(node, "url") then 1
    else if IsType(node, "folder") then UrlCountAll(node, Children(node))
    else 0
  }

  function UrlCountAll(parent: Json, children: seq<Json>): nat
    requires forall x :: x in children ==> x < parent
    decreases parent, 0, |children|
  {
    if children == [] then 0
    else
      assert children[0] in children;
      assert forall x :: x in children[1..] ==> x in children;
      UrlCount(children[0]) + UrlCountAll(parent, children[1..])
  }

  /**
   * Appending inside `walk` builds exactly the pre-order list, after what was
   * there before, unless a folder on the way has scalar children.
   */
  lemma {:induction false} WalkIsFlat(node: Json, path: string, profile: Option<string>, acc: seq<Utils.Bookmark>)
    ensures Walk(node, path, profile, acc) == if Raises(node) then None else Some(acc + Flat(node, path, profile))
    decreases node, 1
  {
    if node.JObj? && !IsType(node, "url") && IsType(node, "folder") && !ScalarChildren(node) {
      WalkAllIsFlat(node, Children(node), FolderPath(node.fields, path), profile, acc);
    } else if !node.JObj? || (!IsType(node, "url") && !IsType(node, "folder")) {
      assert acc + [] == acc;
    }
  }

  lemma {:induction false} WalkAllIsFlat(parent: Json, children: seq<Json>, path: string, profile: Option<string>, acc: seq<Utils.Bookmark>)
    requires forall x :: x in children ==> x < parent
    ensures WalkAll(parent, children, path, profile, acc)
      == if RaisesAll(parent, children) then None else Some(acc + FlatAll(parent, children, path, profile))
    decreases parent, 0, |children|
  {
    if children != [] {
      assert children[0] in children;
      assert forall x :: x in children[1..] ==> x in children;
      WalkIsFlat(children[0], path, profile, acc);
      if !Raises(children[0]) {
        var acc' := acc + Flat(children[0], path, profile);
        WalkAllIsFlat(parent, children[1..], path, profile, acc');
        Text.ConcatAssoc(acc, Flat(children[0], path, profile), FlatAll(parent, children[1..], path, profile));
      }
    } else {
      assert acc + [] == acc;
    }
  }

  /** One raising child anywhere in a folder's list makes the whole walk of the folder raise. */
  lemma {:induction false} RaisesAllOf(parent: Json, children: seq<Json>, i: nat)
    requires forall x :: x in children ==> x < parent
    requires i < |children| && Raises(children[i])
    ensures RaisesAll(parent, children)
    decreases i
  {
    if i > 0 {
      assert forall x :: x in children[1..] ==> x in children;
      RaisesAllOf(parent, children[1..], i - 1);
    }
  }

  /** A folder whose "children" is missing or falsy adds nothing and does not raise. */
  lemma FalsyChildren(node: Json, path: string, profile: Option<string>, acc: seq<Utils.Bookmark>)
    requires node.JObj? && IsType(node, "folder") && !Truthy(GetOr(node.fields, "children", JList([])))
    ensures Walk(node, path, profile, acc) == Some(acc)
  {
    assert !IsType(node, "url");
  }

  /** One bookmark per url node reached through folders. */
  lemma {:induction false} FlatCount(node: Json, path: string, profile: Option<string>)
    ensures |Flat(node, path, profile)| == UrlCount(node)
    decreases node, 1
  {
    if node.JObj? && !IsType(node, "url") && IsType(node, "folder") {
      FlatAllCount(node, Children(node), FolderPath(node.fields, path), profile);
    }
  }

  lemma {:induction false} FlatAllCount(parent: Json, children: seq<Json>, path: string, profile: Option<string>)
    requires forall x :: x in children ==> x < parent
    ensures |FlatAll(parent, children, path, profile)| == UrlCountAll(parent, children)
    decreases parent, 0, |children|
  {
    if children != [] {
      assert children[0] in children;
      assert forall x :: x in children[1..] ==> x in children;
      FlatCount(children[0], path, profile);
      FlatAllCount(parent, children[1..], path, profile);
    }
  }

  /**
   * Every bookmark found carries the given profile, no tags and no
   * normalised URL, and a folder path that extends the path it was walked
   * with; a folder's children extend it by "/" and the folder's name.
   */
  lemma {:induction false} FlatProps(node: Json, path: string, profile: Option<string>)
    ensures forall b :: b in Flat(node, path, profile) ==>
      b.profile == profile && b.tags == [] && b.normalizedUrl == None && b.parentId == None
      && |path| <= |b.folderPath| && b.folderPath[..|path|] == path
    decreases node, 1
  {
    if node.JObj? && !IsType(node, "url") && IsType(node, "folder") {
      var np := FolderPath(node.fields, path);
      FlatAllProps(node, Children(node), np, profile);
      assert |path| <= |np| && np[..|path|] == path;
      forall b | b in FlatAll(node, Children(node), np, profile)
        ensures |path| <= |b.folderPath| && b.folderPath[..|path|] == path
      {
        assert b.folderPath[..|np|][..|path|] == path;
      }
    }
  }

  lemma {:induction false} FlatAllProps(parent: Json, children: seq<Json>, path: string, profile: Option<string>)
    requires forall x :: x in children ==> x < parent
    ensures forall b :: b in FlatAll(parent, children, path, profile) ==>
      b.profile == profile && b.tags == [] && b.normalizedUrl == None && b.parentId == None
      && |path| <= |b.folderPath| && b.folderPath[..|path|] == path
    decreases parent, 0, |children|
  {
    if children != [] {
      assert children[0] in children;
      assert forall x :: x in children[1..] ==> x in children;
      FlatProps(children[0], path, profile);
      FlatAllProps(parent, children[1..], path, profile);
    }
  }

  /** A value that is not an object, or an object whose type is neither "url" nor "folder", yields nothing. */
  lemma IgnoredNodes(node: Json, path: string, profile: Option<string>)
    requires !node.JObj? || (!IsType(node, "url") && !IsType(node, "folder"))
    ensures Flat(node, path, profile) == []
  {
  }

  /** A "url" node with no other members gives one bookmark with the defaults. */
  lemma BareUrlNode(path: string, profile: Option<string>)
    ensures Flat(JObj([("type", JStr("url"))]), path, profile)
      == [Utils.Bookmark("", "", None, None, path, profile, None, [], None)]
  {
    var fields := [("type", JStr("url"))];
    assert Get(fields, "type") == Some(JStr("url"));
    assert Get(fields, "id") == None && Get(fields, "name") == None && Get(fields, "url") == None;
  }

  // ------------------------------------------------------------ read_chrome_json

  /** The starting path of a root: `root.get("name", "")`. */
  function RootPath(root: Json): string
    requires root.JObj?
  {
    TextOf(GetOr(root.fields, "name", JStr("")))
  }

  /** The walk over `roots.values()`; a root that is not an object makes `root.get` raise, giving None, as does a raising walk. */
  function WalkRoots(roots: seq<Json>, profile: Option<string>, acc: seq<Utils.Bookmark>): Option<seq<Utils.Bookmark>>
    decreases |roots|
  {
    if roots == [] then Some(acc)
    else if !roots[0].JObj? then None
    else
      var w := Walk(roots[0], RootPath(roots[0]), profile, acc);
      if w.None? then None else WalkRoots(roots[1..], profile, w.value)
  }

  /** The roots' bookmarks one after another, as the reference definition. */
  function FlatRoots(roots: seq<Json>, profile: Option<string>): Option<seq<Utils.Bookmark>>
    decreases |roots|
  {
    if roots == [] then Some([])
    else if !roots[0].JObj? || Raises(roots[0]) then None
    else
      var rest := FlatRoots(roots[1..], profile);
      if rest.None? then None else Some(Flat(roots[0], RootPath(roots[0]), profile) + rest.value)
  }

  /** What `read_chrome_json` returns for the decoded file, None where it raises. */
  function ChromeBookmarks(data: Json, profile: Option<string>): Option<seq<Utils.Bookmark>> {
    if !data.JObj? then None
    else
      var roots := GetOr(data.fields, "roots", JObj([]));
      if !roots.JObj? then None else WalkRoots(Values(roots.fields), profile, [])
  }

  /** `read_chrome_json` after `json.loads`: the loop over the roots. */
  method ReadChromeJson(data: Json, profile: Option<string>) returns (r: Option<seq<Utils.Bookmark>>)
    ensures r == ChromeBookmarks(data, profile)
  {
    if !data.JObj? {
      return None;
    }
    var roots := GetOr(data.fields, "roots", JObj([]));
    if !roots.JObj? {
      return None;
    }
    var vs := Values(roots.fields);
    var results: seq<Utils.Bookmark> := [];
    for k := 0 to |vs|
      invariant WalkRoots(vs[k..], profile, results) == WalkRoots(vs, profile, [])
    {
      assert vs[k..][1..] == vs[k + 1..];
      if !vs[k].JObj? {
        return None;
      }
      var w := Walk(vs[k], RootPath(vs[k]), profile, results);
      if w.None? {
        return None;
      }
      results := w.value;
    }
    r := Some(results);
  }

  lemma {:induction false} WalkRootsIsFlat(roots: seq<Json>, profile: Option<string>, acc: seq<Utils.Bookmark>)
    ensures WalkRoots(roots, profile, acc).Some? <==> FlatRoots(roots, profile).Some?
    ensures FlatRoots(roots, profile).Some? ==> WalkRoots(roots, profile, acc).value == acc + FlatRoots(roots, profile).value
    decreases |roots|
  {
    if roots != [] && roots[0].JObj? {
      WalkIsFlat(roots[0], RootPath(roots[0]), profile, acc);
      var acc' := acc + Flat(roots[0], RootPath(roots[0]), profile);
      WalkRootsIsFlat(roots[1..], profile, acc');
      if FlatRoots(roots[1..], profile).Some? {
        Text.ConcatAssoc(acc, Flat(roots[0], RootPath(roots[0]), profile), FlatRoots(roots[1..], profile).value);
      }
    }
  }

  /**
   * When the file is read, its bookmarks are the pre-order url nodes of each
   * root in turn, each root walked with its own name as the starting path.
   */
  lemma ChromeBookmarksFlat(data: Json, profile: Option<string>)
    requires data.JObj? && GetOr(data.fields, "roots", JObj([])).JObj?
    ensures var roots := GetOr(data.fields, "roots", JObj([]));
      ChromeBookmarks(data, profile) == FlatRoots(Values(roots.fields), profile)
  {
    var roots := GetOr(data.fields, "roots", JObj([]));
    var vs := Values(roots.fields);
    WalkRootsIsFlat(vs, profile, []);
    if FlatRoots(vs, profile).Some? {
      assert [] + FlatRoots(vs, profile).value == FlatRoots(vs, profile).value;
    }
  }

  /** A root folder named `n` is walked with path `n` and so hands "n/n" to its children. */
  lemma NamedRootDoubled(root: Json, n: string, profile: Option<string>)
    requires root.JObj? && IsType(root, "folder") && Get(root.fields, "name") == Some(JStr(n)) && n != ""
    ensures RootPath(root) == n
    ensures Flat(root, RootPath(root), profile) == FlatAll(root, Children(root), n + "/" + n, profile)
  {
    assert !IsType(root, "url");
  }
}
