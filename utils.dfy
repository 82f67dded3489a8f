/**
 * The bookmark record and the URL normaliser primitives of `cbclean.utils`:
 * `strip_www`, `fnmatch_like`, `filter_query`, `normalize_url`, `domain_of`.
 * A URL is handled as its five `urlsplit` parts; `SplitUrl` and `UnsplitUrl`
 * stand in for the standard library's `urlsplit` and `urlunsplit`.
 */
module Utils {
  import opened Optional
  import opened Text

  /** One imported entry; every field of the Python dataclass, in order. */
  datatype Bookmark = Bookmark(
    id: string,
    title: string,
    url: Option<string>,
    parentId: Option<string>,
    folderPath: string,
    profile: Option<string>,
    normalizedUrl: Option<string>,
    tags: seq<string>,
    liveness: Option<string>)

  /** Python truthiness of an optional string: present and non-empty. */
  predicate Truthy(o: Option<string>) {
    o.Some? && o.value != ""
  }

  // ---------------------------------------------------------------- strip_www

  /** The host begins with the label `www.`, in any letter case. */
  predicate HasWwwLabel(host: string) {
    |host| >= 4 && host[0] in "wW" && host[1] in "wW" && host[2] in "wW" && host[3] == '.'
  }

  /** `strip_www`: drop a leading `www.` (any case), leave every other host alone. */
  function StripWww(host: string): (r: string)
    ensures r != host <==> HasWwwLabel(host)
    ensures r != host ==> host == host[..4] + r
  {
    assert StartsWith(Lower(host), "www.") <==> HasWwwLabel(host) by {
      if |host| >= 4 {
        assert Lower(host)[..4] == [LowerChar(host[0]), LowerChar(host[1]), LowerChar(host[2]), LowerChar(host[3])];
      }
    }
    if StartsWith(Lower(host), "www.") then host[4..] else host
  }

  /** Only one label is removed, so stripping twice can go further than stripping once. */
  lemma StripWwwNotIdempotent()
    ensures StripWww("www.www.a") == "www.a"
    ensures StripWww(StripWww("www.www.a")) != StripWww("www.www.a")
  {
    assert HasWwwLabel("www.www.a");
    assert "www.www.a"[4..] == "www.a";
    assert HasWwwLabel("www.a");
  }

  // ------------------------------------------------------------- fnmatch_like

  /** `fnmatch_like`: a pattern ending in `*` matches every extension of the rest; any other only itself. */
  function FnmatchLike(text: string, pattern: string): (r: bool)
    ensures |pattern| > 0 && pattern[|pattern| - 1] == '*' ==>
      (r <==> |pattern| - 1 <= |text| && forall i :: 0 <= i < |pattern| - 1 ==> text[i] == pattern[i])
    ensures !(|pattern| > 0 && pattern[|pattern| - 1] == '*') ==> (r <==> text == pattern)
  {
    if |pattern| > 0 && pattern[|pattern| - 1] == '*' then
      StartsWith(text, pattern[..|pattern| - 1])
    else
      text == pattern
  }

  // ------------------------------------------------------------- filter_query

  /** The key of a query item: the text before its first `=`. */
  function QueryKey(item: string): string {
    TakeUntil(item, '=')
  }

  /** `any(fnmatch_like(key, pat) for pat in patterns)` */
  predicate MatchesAny(key: string, patterns: seq<string>) {
    exists p :: p in patterns && FnmatchLike(key, p)
  }

  /** The items the loop of `filter_query` keeps, in order. */
  function KeptItems(items: seq<string>, patterns: seq<string>): seq<string>
    decreases |items|
  {
    if items == [] then []
    else
      var last := items[|items| - 1];
      KeptItems(items[..|items| - 1], patterns) + (if MatchesAny(QueryKey(last), patterns) then [] else [last])
  }

  /** What `filter_query` returns. */
  function FilteredQuery(query: string, patterns: seq<string>): string {
    if query == "" then "" else Join(KeptItems(NonEmpty(Split(query, '&')), patterns), '&')
  }

  /** `filter_query`: the kept list is built item by item. */
  method FilterQuery(query: string, patterns: seq<string>) returns (r: string)
    ensures r == FilteredQuery(query, patterns)
  {
    if query == "" {
      return "";
    }
    var items := NonEmpty(Split(query, '&'));
    var kept: seq<string> := [];
    for k := 0 to |items|
      invariant kept == KeptItems(items[..k], patterns)
    {
      assert items[..k + 1][..k] == items[..k];
      var key := QueryKey(items[k]);
      if !MatchesAny(key, patterns) {
        kept := kept + [items[k]];
      }
    }
    assert items[..|items|] == items;
    r := Join(kept, '&');
  }

  /** An item survives the filter: it is non-empty and its key matches no pattern. */
  predicate Survives(item: string, patterns: seq<string>) {
    item != "" && !MatchesAny(QueryKey(item), patterns)
  }

  /** Reference definition: the surviving items of a list, in their original order. */
  function Surviving(items: seq<string>, patterns: seq<string>): seq<string>
    decreases |items|
  {
    if items == [] then []
    else (if Survives(items[0], patterns) then [items[0]] else []) + Surviving(items[1..], patterns)
  }

  lemma {:induction false} KeptItemsSnoc(items: seq<string>, x: string, patterns: seq<string>)
    ensures KeptItems(items + [x], patterns) == KeptItems(items, patterns) + (if MatchesAny(QueryKey(x), patterns) then [] else [x])
  {
    assert (items + [x])[..|items|] == items;
  }

  lemma {:induction false} KeptItemsOfNonEmpty(items: seq<string>, patterns: seq<string>)
    ensures KeptItems(NonEmpty(items), patterns) == Surviving(items, patterns)
    decreases |items|
  {
    if items != [] {
      KeptItemsOfNonEmpty(items[1..], patterns);
      KeptItemsCons(if items[0] == "" then [] else [items[0]], NonEmpty(items[1..]), patterns);
    }
  }

  lemma {:induction false} KeptItemsCons(head: seq<string>, tail: seq<string>, patterns: seq<string>)
    ensures KeptItems(head + tail, patterns) == KeptItems(head, patterns) + KeptItems(tail, patterns)
    decreases |tail|
  {
    if tail == [] {
      assert head + tail == head;
    } else {
      var init := tail[..|tail| - 1];
      var last := tail[|tail| - 1];
      KeptItemsCons(head, init, patterns);
      assert tail == init + [last];
      ConcatAssoc(head, init, [last]);
      KeptItemsSnoc(head + init, last, patterns);
      KeptItemsSnoc(init, last, patterns);
      ConcatAssoc(KeptItems(head, patterns), KeptItems(init, patterns),
        if MatchesAny(QueryKey(last), patterns) then [] else [last]);
    }
  }

  lemma {:induction false} SurvivingProps(items: seq<string>, patterns: seq<string>)
    ensures forall x :: x in Surviving(items, patterns) ==> x in items && Survives(x, patterns)
    decreases |items|
  {
    if items != [] { SurvivingProps(items[1..], patterns); }
  }

  lemma {:induction false} SurvivingAll(items: seq<string>, patterns: seq<string>)
    requires forall x :: x in items ==> Survives(x, patterns)
    ensures Surviving(items, patterns) == items
    decreases |items|
  {
    if items != [] {
      SurvivingAll(items[1..], patterns);
      assert items == [items[0]] + items[1..];
    }
  }

  /**
   * `filter_query` gives "" for an empty query; otherwise its result, split at `&`,
   * is exactly the list of surviving items of the query in their original order
   * (or the result is "" when nothing survives).
   */
  lemma FilteredQueryMeaning(query: string, patterns: seq<string>)
    ensures query == "" ==> FilteredQuery(query, patterns) == ""
    ensures var r := FilteredQuery(query, patterns);
      var kept := Surviving(Split(query, '&'), patterns);
      (kept == [] ==> r == "") && (kept != [] ==> Split(r, '&') == kept)
  {
    var kept := Surviving(Split(query, '&'), patterns);
    if query != "" {
      KeptItemsOfNonEmpty(Split(query, '&'), patterns);
      if kept != [] {
        SurvivingProps(Split(query, '&'), patterns);
        SplitPiecesAvoidSeparator(query, '&');
        SplitOfJoin(kept, '&');
      }
    } else {
      assert Split(query, '&') == [""];
      assert !Survives("", patterns) && [""][1..] == [];
    }
  }

  /** Filtering a filtered query with the same patterns changes nothing. */
  lemma FilteredQueryIdempotent(query: string, patterns: seq<string>)
    ensures FilteredQuery(FilteredQuery(query, patterns), patterns) == FilteredQuery(query, patterns)
  {
    var r := FilteredQuery(query, patterns);
    if r != "" {
      var kept := Surviving(Split(query, '&'), patterns);
      FilteredQueryMeaning(query, patterns);
      assert kept != [];
      SurvivingProps(Split(query, '&'), patterns);
      SurvivingAll(kept, patterns);
      KeptItemsOfNonEmpty(kept, patterns);
      KeptItemsOfNonEmpty(Split(r, '&'), patterns);
      JoinOfSplit(r, '&');
    }
  }

  // ---------------------------------------------------------- path collapsing

  /** `re.sub(r"//+", "/", s)`: every run of slashes becomes one slash. */
  function CollapseSlashes(s: string): string
    decreases |s|
  {
    if |s| >= 2 && s[0] == '/' && s[1] == '/' then CollapseSlashes(s[1..])
    else if s == [] then []
    else [s[0]] + CollapseSlashes(s[1..])
  }

  predicate NoDoubleSlash(s: string) {
    forall i :: 0 <= i < |s| - 1 ==> !(s[i] == '/' && s[i + 1] == '/')
  }

  /** The path `normalize_url` produces: collapsed, and "/" when that leaves nothing. */
  function NormalizedPath(path: string): string {
    var c := CollapseSlashes(path);
    if c == "" then "/" else c
  }

  lemma {:induction false} CollapseKeepsHead(s: string)
    ensures s == [] <==> CollapseSlashes(s) == []
    ensures s != [] ==> CollapseSlashes(s)[0] == s[0]
    decreases |s|
  {
    if s != [] { CollapseKeepsHead(s[1..]); }
  }

  lemma {:induction false} CollapseNoDoubleSlash(s: string)
    ensures NoDoubleSlash(CollapseSlashes(s))
    decreases |s|
  {
    if s != [] {
      CollapseNoDoubleSlash(s[1..]);
      CollapseKeepsHead(s[1..]);
    }
  }

  lemma {:induction false} CollapseIdentity(s: string)
    requires NoDoubleSlash(s)
    ensures CollapseSlashes(s) == s
    decreases |s|
  {
    if s != [] {
      CollapseIdentity(s[1..]);
      assert s == [s[0]] + s[1..];
    }
  }

  /** The normalised path is never empty, holds no "//", and normalising it again changes nothing. */
  lemma NormalizedPathProps(path: string)
    ensures NormalizedPath(path) != ""
    ensures NoDoubleSlash(NormalizedPath(path))
    ensures NormalizedPath(NormalizedPath(path)) == NormalizedPath(path)
  {
    CollapseNoDoubleSlash(path);
    CollapseIdentity(NormalizedPath(path));
  }

  // ------------------------------------------------------- urlsplit, urlunsplit

  /** The five components `urlsplit` returns. */
  datatype UrlParts = UrlParts(scheme: string, netloc: string, path: string, query: string, fragment: string)

  predicate IsAsciiLetter(c: char) {
    'a' <= c <= 'z' || 'A' <= c <= 'Z'
  }

  predicate IsSchemeChar(c: char) {
    IsAsciiLetter(c) || '0' <= c <= '9' || c == '+' || c == '-' || c == '.'
  }

  /** The text up to the first of `/`, `?`, `#`: the network location after `//`. */
  function HostPart(s: string): (r: string)
    ensures |r| <= |s| && r == s[..|r|]
    decreases |s|
  {
    if s == [] || s[0] in "/?#" then [] else [s[0]] + HostPart(s[1..])
  }

  /** The scheme (lower-cased) and the rest, when the text before the first `:` is a valid scheme. */
  function SplitScheme(url: string): (string, string) {
    var head := TakeUntil(url, ':');
    if ':' in url && head != [] && IsAsciiLetter(head[0]) && forall c :: c in head ==> IsSchemeChar(c) then
      (Lower(head), After(url, ':'))
    else ("", url)
  }

  /** The network location and the rest, when the text starts with `//`. */
  function SplitAuthority(rest: string): (string, string) {
    if StartsWith(rest, "//") then
      var netloc := HostPart(rest[2..]);
      (netloc, rest[2 + |netloc|..])
    else ("", rest)
  }

  /** `url.split(sep, 1)` when `sep in url`, else the whole text and "". */
  function SplitOnce(s: string, sep: char): (string, string) {
    if sep in s then (TakeUntil(s, sep), After(s, sep)) else (s, "")
  }

  lemma {:induction false} HostPartStops(p: string, q: string)
    requires forall x :: x in p ==> x !in "/?#"
    requires q == [] || q[0] in "/?#"
    ensures HostPart(p + q) == p
    decreases |p|
  {
    if p == [] {
      assert p + q == q;
    } else {
      HostPartStops(p[1..], q);
      assert (p + q)[1..] == p[1..] + q;
      assert p == [p[0]] + p[1..];
    }
  }

  /** A simplified `urlsplit`: scheme, `//` authority, then `#` fragment, then `?` query. */
  function SplitUrl(url: string): UrlParts {
    var (scheme, rest) := SplitScheme(url);
    var (netloc, rest2) := SplitAuthority(rest);
    var (beforeFragment, fragment) := SplitOnce(rest2, '#');
    var (path, query) := SplitOnce(beforeFragment, '?');
    UrlParts(scheme, netloc, path, query, fragment)
  }

  /** The schemes `urlunsplit` writes with a `//` authority even when the host is empty. */
  const UsesNetloc: seq<string> := ["", "ftp", "http", "gopher", "nntp", "telnet", "imap", "wais", "file",
    "mms", "https", "shttp", "snews", "prospero", "rtsp", "rtspu", "sftp", "svn", "svn+ssh", "ws", "wss"]

  /** `urlunsplit` */
  function UnsplitUrl(p: UrlParts): string {
    var url := p.path;
    var withAuthority :=
      if p.netloc != "" || (p.scheme != "" && p.scheme in UsesNetloc && !StartsWith(url, "//")) then
        "//" + p.netloc + (if url != "" && url[0] != '/' then "/" + url else url)
      else url;
    var withScheme := if p.scheme != "" then p.scheme + ":" + withAuthority else withAuthority;
    var withQuery := if p.query != "" then withScheme + "?" + p.query else withScheme;
    if p.fragment != "" then withQuery + "#" + p.fragment else withQuery
  }

  // ------------------------------------------------------------ normalize_url

  /** The component-wise work of `normalize_url`. */
  function NormalizeParts(p: UrlParts, stripParams: seq<string>, stripFragments: bool, stripWwwFlag: bool): UrlParts {
    UrlParts(
      Lower(p.scheme),
      if stripWwwFlag then StripWww(p.netloc) else p.netloc,
      NormalizedPath(p.path),
      FilteredQuery(p.query, stripParams),
      if stripFragments then "" else p.fragment)
  }

  /** `normalize_url` */
  function NormalizeUrl(url: string, stripParams: seq<string>, stripFragments: bool, stripWwwFlag: bool): string {
    UnsplitUrl(NormalizeParts(SplitUrl(url), stripParams, stripFragments, stripWwwFlag))
  }

  /**
   * What normalisation does to each component: the scheme loses its upper-case
   * letters and nothing else; the host changes only by `strip_www` and only under
   * its flag; the path is non-empty and free of "//"; the fragment is dropped
   * under its flag and kept otherwise.
   */
  lemma NormalizePartsMeaning(p: UrlParts, stripParams: seq<string>, stripFragments: bool, stripWwwFlag: bool)
    ensures var r := NormalizeParts(p, stripParams, stripFragments, stripWwwFlag);
      && |r.scheme| == |p.scheme|
      && (forall i :: 0 <= i < |p.scheme| ==> !('A' <= r.scheme[i] <= 'Z') && LowerChar(p.scheme[i]) == r.scheme[i])
      && (!stripWwwFlag ==> r.netloc == p.netloc)
      && (stripWwwFlag ==> (r.netloc == p.netloc <==> !HasWwwLabel(p.netloc)))
      && (r.netloc != p.netloc ==> p.netloc == p.netloc[..4] + r.netloc)
      && r.path != "" && NoDoubleSlash(r.path)
      && r.query == FilteredQuery(p.query, stripParams)
      && (stripFragments ==> r.fragment == "")
      && (!stripFragments ==> r.fragment == p.fragment)
  {
    NormalizedPathProps(p.path);
  }

  /**
   * Normalising twice gives the same scheme, path, query and fragment as
   * normalising once; the host is the same too unless `www.` stripping exposes
   * another `www.` label.
   */
  lemma NormalizePartsIdempotent(p: UrlParts, stripParams: seq<string>, stripFragments: bool, stripWwwFlag: bool)
    ensures var once := NormalizeParts(p, stripParams, stripFragments, stripWwwFlag);
      var twice := NormalizeParts(once, stripParams, stripFragments, stripWwwFlag);
      && twice.scheme == once.scheme && twice.path == once.path
      && twice.query == once.query && twice.fragment == once.fragment
      && ((!stripWwwFlag || !HasWwwLabel(once.netloc)) ==> twice == once)
  {
    var once := NormalizeParts(p, stripParams, stripFragments, stripWwwFlag);
    NormalizedPathProps(p.path);
    FilteredQueryIdempotent(p.query, stripParams);
    assert Lower(once.scheme) == once.scheme;
  }

  // ---------------------------------------------------------------- domain_of

  /** `domain_of`: the lower-cased host, or None when the URL has none. */
  function DomainOf(url: string): (r: Option<string>)
    ensures r.None? <==> SplitUrl(url).netloc == ""
    ensures r.Some? ==> |r.value| == |SplitUrl(url).netloc|
    ensures r.Some? ==> forall i :: 0 <= i < |r.value| ==>
      r.value[i] == LowerChar(SplitUrl(url).netloc[i]) && !('A' <= r.value[i] <= 'Z')
  {
    var host := Lower(SplitUrl(url).netloc);
    if host == "" then None else Some(host)
  }

  // ------------------------------------------------- split after unsplit

  /**
   * Components that `urlunsplit` writes out unambiguously: a lower-case scheme,
   * a non-empty host, a path that is empty or absolute and holds no `?` or `#`,
   * and a query without `#`.
   */
  predicate WellFormedParts(p: UrlParts) {
    && p.scheme != [] && IsAsciiLetter(p.scheme[0])
    && (forall c :: c in p.scheme ==> IsSchemeChar(c) && !('A' <= c <= 'Z'))
    && p.netloc != [] && (forall c :: c in p.netloc ==> c !in "/?#")
    && (p.path == [] || p.path[0] == '/') && '?' !in p.path && '#' !in p.path
    && '#' !in p.query
  }

  /** An `https` URL is well formed when its host, path and query avoid the delimiters after them. */
  lemma HttpsWellFormed(p: UrlParts)
    requires p.scheme == "https" && p.netloc != []
    requires forall i :: 0 <= i < |p.netloc| ==> p.netloc[i] != '/' && p.netloc[i] != '?' && p.netloc[i] != '#'
    requires p.path == [] || p.path[0] == '/'
    requires forall i :: 0 <= i < |p.path| ==> p.path[i] != '?' && p.path[i] != '#'
    requires forall i :: 0 <= i < |p.query| ==> p.query[i] != '#'
    ensures WellFormedParts(p)
  {
    assert forall i :: 0 <= i < 5 ==> "https"[i] in "hnopst";
  }

  /** What follows the host in `urlunsplit`'s output. */
  function AfterHost(p: UrlParts): string {
    var withQuery := if p.query != "" then p.path + "?" + p.query else p.path;
    if p.fragment != "" then withQuery + "#" + p.fragment else withQuery
  }

  lemma UnsplitShape(p: UrlParts)
    requires WellFormedParts(p)
    ensures UnsplitUrl(p) == p.scheme + [':'] + ("//" + p.netloc + AfterHost(p))
  {
  }

  /** A lower-case scheme followed by `:` is split off and kept as it is. */
  lemma SplitSchemeAt(scheme: string, rest: string)
    requires scheme != [] && IsAsciiLetter(scheme[0])
    requires forall c :: c in scheme ==> IsSchemeChar(c) && !('A' <= c <= 'Z')
    ensures SplitScheme(scheme + [':'] + rest) == (scheme, rest)
  {
    TakeUntilAt(scheme, ':', rest);
    assert (scheme + [':'] + rest)[|scheme|] == ':';
    assert forall i :: 0 <= i < |scheme| ==> !('A' <= scheme[i] <= 'Z') by {
      forall i | 0 <= i < |scheme| ensures !('A' <= scheme[i] <= 'Z') {
        assert scheme[i] in scheme;
      }
    }
    LowerIdentity(scheme);
  }

  lemma SplitSchemeOfUnsplit(p: UrlParts)
    requires WellFormedParts(p)
    ensures SplitScheme(UnsplitUrl(p)) == (p.scheme, "//" + p.netloc + AfterHost(p))
  {
    UnsplitShape(p);
    SplitSchemeAt(p.scheme, "//" + p.netloc + AfterHost(p));
  }

  lemma SplitAuthorityOfUnsplit(p: UrlParts)
    requires WellFormedParts(p)
    ensures SplitAuthority("//" + p.netloc + AfterHost(p)) == (p.netloc, AfterHost(p))
  {
    var rest := "//" + p.netloc + AfterHost(p);
    assert StartsWith(rest, "//");
    assert rest[2..] == p.netloc + AfterHost(p);
    HostPartStops(p.netloc, AfterHost(p));
    assert rest[2 + |p.netloc|..] == AfterHost(p);
  }

  lemma SplitOnceAt(p: string, c: char, q: string)
    requires c !in p
    ensures SplitOnce(p + [c] + q, c) == (p, q)
  {
    TakeUntilAt(p, c, q);
    assert (p + [c] + q)[|p|] == c;
  }

  lemma SplitTailOfUnsplit(p: UrlParts)
    requires WellFormedParts(p)
    ensures var (beforeFragment, fragment) := SplitOnce(AfterHost(p), '#');
      fragment == p.fragment && SplitOnce(beforeFragment, '?') == (p.path, p.query)
  {
    var withQuery := if p.query != "" then p.path + "?" + p.query else p.path;
    assert '#' !in withQuery;
    if p.fragment != "" {
      SplitOnceAt(withQuery, '#', p.fragment);
    }
    if p.query != "" {
      SplitOnceAt(p.path, '?', p.query);
    }
  }

  /** `urlsplit` recovers every component that `urlunsplit` wrote out unambiguously. */
  lemma SplitOfUnsplit(p: UrlParts)
    requires WellFormedParts(p)
    ensures SplitUrl(UnsplitUrl(p)) == p
  {
    SplitSchemeOfUnsplit(p);
    SplitAuthorityOfUnsplit(p);
    SplitTailOfUnsplit(p);
  }

  /** On a URL that `urlunsplit` wrote, `normalize_url` works component by component. */
  lemma NormalizeOfUnsplit(p: UrlParts, stripParams: seq<string>, stripFragments: bool, stripWwwFlag: bool)
    requires WellFormedParts(p)
    ensures NormalizeUrl(UnsplitUrl(p), stripParams, stripFragments, stripWwwFlag)
         == UnsplitUrl(NormalizeParts(p, stripParams, stripFragments, stripWwwFlag))
  {
    SplitOfUnsplit(p);
  }

  /** On a URL that `urlunsplit` wrote, `domain_of` is the lower-cased host. */
  lemma DomainOfUnsplit(p: UrlParts)
    requires WellFormedParts(p)
    ensures UnsplitUrl(p) != ""
    ensures DomainOf(UnsplitUrl(p)) == Some(Lower(p.netloc))
  {
    UnsplitShape(p);
    SplitOfUnsplit(p);
  }
}
