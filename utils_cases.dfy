/**
 * The concrete normalisations the repository's tests pin down, derived from
 * the general lemmas of `Utils`. Each step is its own small lemma, so that no
 * proof has to unfold a definition over a long literal.
 */
module UtilsCases {
  import opened Optional
  import opened Text
  import opened Utils

  const TrackingParams: seq<string> := ["utm_*", "gclid"]

  lemma TrackingKeyUtm()
    ensures QueryKey("utm_source=x") == "utm_source" && MatchesAny("utm_source", TrackingParams)
  {
    assert "utm_source=x" == "utm_source" + ['='] + "x";
    TakeUntilAt("utm_source", '=', "x");
    assert "utm_source"[..4] == "utm_";
    assert FnmatchLike("utm_source", TrackingParams[0]);
  }

  lemma TrackingKeyGclid()
    ensures QueryKey("gclid=1") == "gclid" && MatchesAny("gclid", TrackingParams)
  {
    assert "gclid=1" == "gclid" + ['='] + "1";
    TakeUntilAt("gclid", '=', "1");
    assert FnmatchLike("gclid", TrackingParams[1]);
  }

  lemma TrackingKeyId()
    ensures QueryKey("id=42") == "id" && !MatchesAny("id", TrackingParams)
  {
    assert "id=42" == "id" + ['='] + "42";
    TakeUntilAt("id", '=', "42");
    assert !FnmatchLike("id", "utm_*");
  }

  lemma SplitLastItem()
    ensures Split("id=42", '&') == ["id=42"]
  {
    SplitOfPiece("id=42", '&');
  }

  lemma SplitTwoItems()
    ensures Split("gclid=1&id=42", '&') == ["gclid=1", "id=42"]
  {
    assert "gclid=1&id=42" == "gclid=1" + ['&'] + "id=42";
    SplitOfPrefixed("gclid=1", "id=42", '&');
    SplitLastItem();
  }

  lemma SplitThreeItems()
    ensures Split("utm_source=x&gclid=1&id=42", '&') == ["utm_source=x", "gclid=1", "id=42"]
  {
    assert "utm_source=x&gclid=1&id=42" == "utm_source=x" + ['&'] + "gclid=1&id=42";
    SplitOfPrefixed("utm_source=x", "gclid=1&id=42", '&');
    SplitTwoItems();
  }

  lemma SurvivingLast()
    ensures Surviving(["id=42"], TrackingParams) == ["id=42"]
  {
    TrackingKeyId();
  }

  lemma SurvivingTwo()
    ensures Surviving(["gclid=1", "id=42"], TrackingParams) == ["id=42"]
  {
    TrackingKeyGclid();
    SurvivingLast();
    assert ["gclid=1", "id=42"][1..] == ["id=42"];
  }

  lemma SurvivingThree()
    ensures Surviving(["utm_source=x", "gclid=1", "id=42"], TrackingParams) == ["id=42"]
  {
    var items := ["utm_source=x", "gclid=1", "id=42"];
    TrackingKeyUtm();
    assert !Survives(items[0], TrackingParams);
    SurvivingTwo();
    assert items[1..] == ["gclid=1", "id=42"];
    assert Surviving(items, TrackingParams) == [] + Surviving(items[1..], TrackingParams);
  }

  /** The query of tests/test_normalize.py:5-7: the tracking parameters go, `id=42` stays. */
  lemma TrackingQueryFiltered()
    ensures FilteredQuery("utm_source=x&gclid=1&id=42", TrackingParams) == "id=42"
  {
    var q := "utm_source=x&gclid=1&id=42";
    SplitThreeItems();
    SurvivingThree();
    FilteredQueryMeaning(q, TrackingParams);
    JoinOfSplit(FilteredQuery(q, TrackingParams), '&');
  }

  // tests/test_utils.py:10-13

  lemma PatternKeyId()
    ensures QueryKey("id=1") == "id" && !MatchesAny("id", TrackingParams)
  {
    assert "id=1" == "id" + ['='] + "1";
    TakeUntilAt("id", '=', "1");
    assert !FnmatchLike("id", "utm_*");
  }

  lemma PatternKeyGclid()
    ensures QueryKey("gclid=2") == "gclid" && MatchesAny("gclid", TrackingParams)
  {
    assert "gclid=2" == "gclid" + ['='] + "2";
    TakeUntilAt("gclid", '=', "2");
    assert FnmatchLike("gclid", TrackingParams[1]);
  }

  lemma PatternKeyKeep()
    ensures QueryKey("keep=y") == "keep" && !MatchesAny("keep", TrackingParams)
  {
    assert "keep=y" == "keep" + ['='] + "y";
    TakeUntilAt("keep", '=', "y");
    assert !FnmatchLike("keep", "utm_*");
  }

  /** A query of four `&`-free items splits into those four. */
  lemma SplitFour(a: string, b: string, c: string, d: string)
    requires '&' !in a && '&' !in b && '&' !in c && '&' !in d
    ensures Split(a + ['&'] + b + ['&'] + c + ['&'] + d, '&') == [a, b, c, d]
  {
    SplitOfPiece(d, '&');
    SplitOfPrefixed(c, d, '&');
    SplitOfPrefixed(b, c + ['&'] + d, '&');
    assert a + ['&'] + b + ['&'] + c + ['&'] + d == a + ['&'] + (b + ['&'] + (c + ['&'] + d));
    SplitOfPrefixed(a, b + ['&'] + (c + ['&'] + d), '&');
  }

  /** One more item in front of a list is kept before its survivors exactly when it survives itself. */
  lemma SurvivingCons(x: string, rest: seq<string>, patterns: seq<string>)
    ensures Surviving([x] + rest, patterns) == (if Survives(x, patterns) then [x] else []) + Surviving(rest, patterns)
  {
    assert ([x] + rest)[1..] == rest;
  }

  /** Of four items, when only the second and the fourth survive, the query is filtered to those two. */
  lemma KeptSecondFourth(q: string, patterns: seq<string>, a: string, b: string, c: string, d: string)
    requires Split(q, '&') == [a, b, c, d]
    requires !Survives(a, patterns) && Survives(b, patterns) && !Survives(c, patterns) && Survives(d, patterns)
    ensures FilteredQuery(q, patterns) == b + ['&'] + d
  {
    SurvivingCons(d, [], patterns);
    SurvivingCons(c, [d], patterns);
    SurvivingCons(b, [c, d], patterns);
    SurvivingCons(a, [b, c, d], patterns);
    assert [a] + [b, c, d] == [a, b, c, d] && [b] + [c, d] == [b, c, d] && [c] + [d] == [c, d] && [d] + [] == [d];
    FilteredQueryMeaning(q, patterns);
    JoinOfSplit(FilteredQuery(q, patterns), '&');
    assert [b, d][1..] == [d];
  }

  lemma PatternQueryShape()
    ensures "utm_source=x&id=1&gclid=2&keep=y" == "utm_source=x" + ['&'] + "id=1" + ['&'] + "gclid=2" + ['&'] + "keep=y"
    ensures "id=1&keep=y" == "id=1" + ['&'] + "keep=y"
  {
  }

  /** tests/test_utils.py:10-13: `utm_*` and `gclid` go, the other items stay in order. */
  lemma FilterQueryWithPatterns()
    ensures FilteredQuery("utm_source=x&id=1&gclid=2&keep=y", ["utm_*", "gclid"]) == "id=1&keep=y"
  {
    PatternQueryShape();
    SplitFour("utm_source=x", "id=1", "gclid=2", "keep=y");
    TrackingKeyUtm();
    PatternKeyId();
    PatternKeyGclid();
    PatternKeyKeep();
    KeptSecondFourth("utm_source=x&id=1&gclid=2&keep=y", TrackingParams, "utm_source=x", "id=1", "gclid=2", "keep=y");
  }

  lemma CollapseB()
    ensures CollapseSlashes("/b/") == "/b/" && CollapseSlashes("/b") == "/b"
  {
    assert CollapseSlashes("/") == "/";
    assert "/b/"[1..] == "b/" && "b/"[1..] == "/";
    assert "/b"[1..] == "b" && "b"[1..] == "";
  }

  lemma CollapseSlashB()
    ensures CollapseSlashes("a//b/") == "a/b/" && CollapseSlashes("a//b") == "a/b"
  {
    CollapseB();
    assert "//b/"[1..] == "/b/" && "a//b/"[1..] == "//b/";
    assert "//b"[1..] == "/b" && "a//b"[1..] == "//b";
  }

  lemma PathCollapsed()
    ensures NormalizedPath("//a//b/") == "/a/b/"
    ensures NormalizedPath("//a//b") == "/a/b"
  {
    CollapseSlashB();
    assert "/a//b/"[1..] == "a//b/" && "//a//b/"[1..] == "/a//b/";
    assert "/a//b"[1..] == "a//b" && "//a//b"[1..] == "/a//b";
  }

  lemma WwwHosts()
    ensures StripWww("www.example.com") == "example.com"
    ensures StripWww("www.ex.com") == "ex.com"
  {
    assert HasWwwLabel("www.example.com");
    assert HasWwwLabel("www.ex.com");
  }

  lemma HttpsLower()
    ensures Lower("https") == "https"
  {
    LowerIdentity("https");
  }

  /** The URL of tests/test_normalize.py:5-7, https://www.example.com//a//b/?utm_source=x&gclid=1&id=42#frag, by its parts. */
  const TrackingUrl := UrlParts("https", "www.example.com", "//a//b/", "utm_source=x&gclid=1&id=42", "frag")

  /** The URL of tests/test_utils.py:22-25, https://www.ex.com//a//b#frag?id=1, by its parts. */
  const FragmentUrl := UrlParts("https", "www.ex.com", "//a//b", "", "frag?id=1")

  lemma TrackingUrlOut()
    ensures UnsplitUrl(UrlParts("https", "example.com", "/a/b/", "id=42", "")) == "https://example.com/a/b/?id=42"
  {
    var p := UrlParts("https", "example.com", "/a/b/", "id=42", "");
    assert p.path[0] == '/';
    assert UnsplitUrl(p) == "https" + ":" + ("//" + "example.com" + "/a/b/") + "?" + "id=42";
  }

  lemma FragmentUrlOut()
    ensures UnsplitUrl(UrlParts("https", "ex.com", "/a/b", "", "")) == "https://ex.com/a/b"
  {
    var p := UrlParts("https", "ex.com", "/a/b", "", "");
    assert p.path[0] == '/';
    assert UnsplitUrl(p) == "https" + ":" + ("//" + "ex.com" + "/a/b");
  }

  lemma TrackingParts()
    ensures NormalizeParts(TrackingUrl, TrackingParams, true, true) == UrlParts("https", "example.com", "/a/b/", "id=42", "")
  {
    WwwHosts();
    PathCollapsed();
    TrackingQueryFiltered();
    HttpsLower();
  }

  lemma TrackingWellFormed()
    ensures WellFormedParts(TrackingUrl)
  {
    HttpsWellFormed(TrackingUrl);
  }

  /** tests/test_normalize.py:5-7 */
  lemma NormalizeWithTracking()
    ensures NormalizeUrl(UnsplitUrl(TrackingUrl), TrackingParams, true, true) == "https://example.com/a/b/?id=42"
  {
    TrackingWellFormed();
    NormalizeOfUnsplit(TrackingUrl, TrackingParams, true, true);
    TrackingParts();
    TrackingUrlOut();
  }

  lemma FragmentParts()
    ensures NormalizeParts(FragmentUrl, [], true, true) == UrlParts("https", "ex.com", "/a/b", "", "")
  {
    WwwHosts();
    PathCollapsed();
    HttpsLower();
  }

  /** tests/test_utils.py:22-25: a `#` before the `?` makes the rest a fragment, which is dropped. */
  lemma NormalizeFragmentFirst()
    ensures NormalizeUrl(UnsplitUrl(FragmentUrl), [], true, true) == "https://ex.com/a/b"
  {
    HttpsWellFormed(FragmentUrl);
    NormalizeOfUnsplit(FragmentUrl, [], true, true);
    FragmentParts();
    FragmentUrlOut();
  }

  /** tests/test_utils.py:5-7 and 16-19 */
  lemma HostAndPatternCases()
    ensures StripWww("sub.example.com") == "sub.example.com"
    ensures FnmatchLike("utm_source", "utm_*") && !FnmatchLike("utm_source", "gclid*") && FnmatchLike("ref", "ref")
  {
    assert "utm_source"[..4] == "utm_";
    assert "utm_source"[..5][0] == 'u';
  }

  /** tests/test_utils.py:28-29: text without a scheme or `//` has no host. */
  lemma DomainOfNotAUrl()
    ensures DomainOf("not a url") == None
  {
    assert ':' !in "not a url";
    assert "not a url"[..2][0] == 'n';
  }

  // tests/test_normalize_module.py:5-8

  const UtmOnly: seq<string> := ["utm_*"]

  /** The URL of tests/test_normalize_module.py:6, https://www.ex.com/?utm_source=x&id=1, by its parts. */
  const ModuleUrl := UrlParts("https", "www.ex.com", "/", "utm_source=x&id=1", "")

  lemma ModuleSplit()
    ensures Split("utm_source=x&id=1", '&') == ["utm_source=x", "id=1"]
  {
    assert "utm_source=x&id=1" == "utm_source=x" + ['&'] + "id=1";
    SplitOfPrefixed("utm_source=x", "id=1", '&');
    SplitOfPiece("id=1", '&');
  }

  lemma ModuleKeyUtm()
    ensures QueryKey("utm_source=x") == "utm_source" && MatchesAny("utm_source", UtmOnly)
  {
    assert "utm_source=x" == "utm_source" + ['='] + "x";
    TakeUntilAt("utm_source", '=', "x");
    assert "utm_source"[..4] == "utm_";
    assert FnmatchLike("utm_source", UtmOnly[0]);
  }

  lemma ModuleKeyId()
    ensures QueryKey("id=1") == "id" && !MatchesAny("id", UtmOnly)
  {
    assert "id=1" == "id" + ['='] + "1";
    TakeUntilAt("id", '=', "1");
    assert !FnmatchLike("id", "utm_*");
  }

  lemma ModuleQueryFiltered()
    ensures FilteredQuery("utm_source=x&id=1", UtmOnly) == "id=1"
  {
    ModuleSplit();
    ModuleKeyUtm();
    ModuleKeyId();
    FilteredDropFirst("utm_source=x&id=1", "utm_source=x", "id=1", UtmOnly);
  }

  /** A two-item query whose first item is filtered out comes back as its second item. */
  lemma FilteredDropFirst(q: string, x: string, y: string, patterns: seq<string>)
    requires q != "" && Split(q, '&') == [x, y]
    requires !Survives(x, patterns) && Survives(y, patterns)
    ensures FilteredQuery(q, patterns) == y
  {
    KeptItemsOfNonEmpty([x, y], patterns);
    assert [x, y][1..] == [y] && [y][1..] == [];
    assert Surviving([y], patterns) == [y] + Surviving([], patterns);
    assert Surviving([x, y], patterns) == [] + Surviving([y], patterns);
  }

  lemma ModuleParts()
    ensures NormalizeParts(ModuleUrl, UtmOnly, true, true) == UrlParts("https", "ex.com", "/", "id=1", "")
  {
    WwwHosts();
    assert CollapseSlashes("/") == "/";
    ModuleQueryFiltered();
    HttpsLower();
  }

  lemma ModuleUrlOut()
    ensures UnsplitUrl(UrlParts("https", "ex.com", "/", "id=1", "")) == "https://ex.com/?id=1"
  {
    var p := UrlParts("https", "ex.com", "/", "id=1", "");
    UnsplitShape(p);
    assert AfterHost(p) == "/?id=1";
  }

  /** tests/test_normalize_module.py:5-8 */
  lemma NormalizeModuleExample()
    ensures NormalizeUrl(UnsplitUrl(ModuleUrl), UtmOnly, true, true) == "https://ex.com/?id=1"
  {
    HttpsWellFormed(ModuleUrl);
    NormalizeOfUnsplit(ModuleUrl, UtmOnly, true, true);
    ModuleParts();
    ModuleUrlOut();
  }
}
