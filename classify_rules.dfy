/**
 * `cbclean.classify_rules`: every bookmark's tags are overwritten with the
 * sorted, duplicate-free tags of the domain rule for its host and of every
 * keyword rule whose pattern hits its lower-cased title or URL. The regular
 * expression engine is a parameter of the model.
 */
module ClassifyRules {
  import opened Optional
  import opened Text
  import opened Utils

  /**
   * The two rule tables `classify_by_rules` reads: host to tags, and keyword
   * pattern to tags in the dictionary's order. A table missing from the rules
   * dictionary is the empty one.
   */
  datatype Rules = Rules(domains: map<string, seq<string>>, keywords: seq<(string, seq<string>)>)

  /** `re`: whether a pattern compiles, and `re.search(pattern, text)` for one that does. */
  datatype Regex = Regex(valid: string -> bool, search: (string, string) -> bool)

  /** One keyword pattern against the lower-cased title and URL; an invalid pattern is a substring test. */
  predicate KeywordHit(pat: string, titleL: string, urlL: string, rx: Regex) {
    if rx.valid(pat) then rx.search(pat, titleL) || rx.search(pat, urlL)
    else Contains(titleL, pat) || Contains(urlL, pat)
  }

  /** The tags of the domain rule for the URL's host, if there is one. */
  function DomainTags(url: string, rules: Rules): seq<string> {
    var d := DomainOf(url);
    if d.Some? && d.value != "" && d.value in rules.domains then rules.domains[d.value] else []
  }

  /** The tags of the keyword rules that hit, in rule order. */
  function KeywordTags(keywords: seq<(string, seq<string>)>, titleL: string, urlL: string, rx: Regex): seq<string>
    decreases |keywords|
  {
    if keywords == [] then []
    else
      var last := keywords[|keywords| - 1];
      KeywordTags(keywords[..|keywords| - 1], titleL, urlL, rx) + (if KeywordHit(last.0, titleL, urlL, rx) then last.1 else [])
  }

  /** The `tags` list before de-duplication. */
  function RuleTags(b: Bookmark, rules: Rules, rx: Regex): seq<string> {
    if !Truthy(b.url) then []
    else DomainTags(b.url.value, rules) + KeywordTags(rules.keywords, Lower(b.title), Lower(b.url.value), rx)
  }

  /** One bookmark after the pass: `b.tags = sorted(set(tags))`. */
  function Classified(b: Bookmark, rules: Rules, rx: Regex): Bookmark {
    b.(tags := SortedSet(RuleTags(b, rules, rx)))
  }

  /** The per-bookmark body of the loop: `tags` is extended rule by rule. */
  method CollectTags(b: Bookmark, rules: Rules, rx: Regex) returns (tags: seq<string>)
    ensures tags == RuleTags(b, rules, rx)
  {
    tags := [];
    if b.url.Some? && b.url.value != "" {
      var d := DomainOf(b.url.value);
      if d.Some? && d.value != "" && d.value in rules.domains {
        tags := tags + rules.domains[d.value];
      }
      tags := AddKeywordTags(tags, rules.keywords, Lower(b.title), Lower(b.url.value), rx);
    }
  }

  /** The keyword loop of `classify_by_rules`: each rule that hits appends its tags. */
  method AddKeywordTags(tags0: seq<string>, keywords: seq<(string, seq<string>)>, titleL: string, urlL: string, rx: Regex)
    returns (tags: seq<string>)
    ensures tags == tags0 + KeywordTags(keywords, titleL, urlL, rx)
  {
    tags := tags0;
    for k := 0 to |keywords|
      invariant tags == tags0 + KeywordTags(keywords[..k], titleL, urlL, rx)
    {
      TakeSnoc(keywords, k);
      ghost var before := KeywordTags(keywords[..k], titleL, urlL, rx);
      var (pat, tgs) := keywords[k];
      var hit;
      if rx.valid(pat) {
        hit := rx.search(pat, titleL) || rx.search(pat, urlL);
      } else {
        hit := Contains(titleL, pat) || Contains(urlL, pat);
      }
      assert hit == KeywordHit(pat, titleL, urlL, rx);
      assert KeywordTags(keywords[..k + 1], titleL, urlL, rx) == before + (if hit then tgs else []);
      if hit {
        ConcatAssoc(tags0, before, tgs);
        tags := tags + tgs;
      }
    }
    assert keywords[..|keywords|] == keywords;
  }

  /** `classify_by_rules`: every element's tags are assigned in place. */
  method ClassifyByRules(a: array<Bookmark>, rules: Rules, rx: Regex)
    modifies a
    ensures forall k :: 0 <= k < a.Length ==> a[k] == Classified(old(a[k]), rules, rx)
  {
    for k := 0 to a.Length
      invariant forall t :: 0 <= t < k ==> a[t] == Classified(old(a[t]), rules, rx)
      invariant forall t :: k <= t < a.Length ==> a[t] == old(a[t])
    {
      var b := a[k];
      var tags := CollectTags(b, rules, rx);
      var nb := b.(tags := SortedSet(tags));
      assert nb == Classified(old(a[k]), rules, rx);
      a[k] := nb;
    }
  }

  lemma {:induction false} KeywordTagsMembers(keywords: seq<(string, seq<string>)>, titleL: string, urlL: string, rx: Regex)
    ensures forall t :: t in KeywordTags(keywords, titleL, urlL, rx) <==>
      exists i :: 0 <= i < |keywords| && KeywordHit(keywords[i].0, titleL, urlL, rx) && t in keywords[i].1
    decreases |keywords|
  {
    if keywords != [] {
      var init := keywords[..|keywords| - 1];
      KeywordTagsMembers(init, titleL, urlL, rx);
      forall t | (exists i :: 0 <= i < |keywords| && KeywordHit(keywords[i].0, titleL, urlL, rx) && t in keywords[i].1)
        ensures t in KeywordTags(keywords, titleL, urlL, rx)
      {
        var i :| 0 <= i < |keywords| && KeywordHit(keywords[i].0, titleL, urlL, rx) && t in keywords[i].1;
        if i < |init| {
          assert init[i] == keywords[i];
        }
      }
      forall t | t in KeywordTags(init, titleL, urlL, rx)
        ensures exists i :: 0 <= i < |keywords| && KeywordHit(keywords[i].0, titleL, urlL, rx) && t in keywords[i].1
      {
        var i :| 0 <= i < |init| && KeywordHit(init[i].0, titleL, urlL, rx) && t in init[i].1;
        assert keywords[i] == init[i];
      }
    }
  }

  /** The new tags are sorted, free of duplicates, and exactly the collected rule tags. */
  lemma ClassifiedSorted(b: Bookmark, rules: Rules, rx: Regex)
    ensures StrictlySorted(Classified(b, rules, rx).tags)
    ensures forall t :: t in Classified(b, rules, rx).tags <==> t in RuleTags(b, rules, rx)
    ensures Classified(b, rules, rx).(tags := b.tags) == b
  {
    SortedSetCorrect(RuleTags(b, rules, rx));
  }

  /** A bookmark without a URL ends with no tags, whatever it had before. */
  lemma NoUrlNoTags(b: Bookmark, rules: Rules, rx: Regex)
    requires !Truthy(b.url)
    ensures Classified(b, rules, rx).tags == []
  {
  }

  /**
   * A bookmark with a URL gets every tag of the domain rule for its host and of
   * every keyword rule that hits its lower-cased title or URL, and no other tag.
   */
  lemma ClassifiedTags(b: Bookmark, rules: Rules, rx: Regex, t: string)
    requires Truthy(b.url)
    ensures t in Classified(b, rules, rx).tags <==>
      || (exists d :: DomainOf(b.url.value) == Some(d) && d in rules.domains && t in rules.domains[d])
      || (exists i :: 0 <= i < |rules.keywords| && KeywordHit(rules.keywords[i].0, Lower(b.title), Lower(b.url.value), rx)
            && t in rules.keywords[i].1)
  {
    ClassifiedSorted(b, rules, rx);
    KeywordTagsMembers(rules.keywords, Lower(b.title), Lower(b.url.value), rx);
    var d := DomainOf(b.url.value);
    if d.Some? {
      assert |d.value| == |SplitUrl(b.url.value).netloc| > 0;
    }
  }

  /** Every tag comes from some rule, so empty rule tables give no tags. */
  lemma TagsFromRules(b: Bookmark, rules: Rules, rx: Regex, t: string)
    requires t in Classified(b, rules, rx).tags
    ensures (exists d :: d in rules.domains && t in rules.domains[d])
      || (exists i :: 0 <= i < |rules.keywords| && t in rules.keywords[i].1)
  {
    ClassifiedSorted(b, rules, rx);
    ClassifiedTags(b, rules, rx, t);
  }

  /** tests/test_classify_rules_yaml_absent.py:7-14: with no rules every bookmark's tags become []. */
  lemma EmptyRulesNoTags(b: Bookmark, rx: Regex)
    ensures Classified(b, Rules(map[], []), rx).tags == []
  {
    ClassifiedSorted(b, Rules(map[], []), rx);
    if Classified(b, Rules(map[], []), rx).tags != [] {
      TagsFromRules(b, Rules(map[], []), rx, Classified(b, Rules(map[], []), rx).tags[0]);
    }
  }

  /** The URL of tests/test_classify_rules.py:10, https://docs.python.org/3/, by its parts. */
  const DocsUrl := UrlParts("https", "docs.python.org", "/3/", "", "")

  lemma DocsWellFormed()
    ensures WellFormedParts(DocsUrl)
  {
    HttpsWellFormed(DocsUrl);
  }

  lemma DocsHost()
    ensures UnsplitUrl(DocsUrl) != ""
    ensures DomainOf(UnsplitUrl(DocsUrl)) == Some("docs.python.org")
  {
    DocsWellFormed();
    DomainOfUnsplit(DocsUrl);
    LowerIdentity("docs.python.org");
  }

  /** tests/test_classify_rules.py:6-12: the domain rule for the host applies. */
  lemma DomainRuleApplies(b: Bookmark, rx: Regex)
    requires b.url == Some(UnsplitUrl(DocsUrl))
    ensures "Python" in Classified(b, Rules(map["docs.python.org" := ["Dev", "Python"]], []), rx).tags
  {
    var rules := Rules(map["docs.python.org" := ["Dev", "Python"]], []);
    DocsHost();
    ClassifiedTags(b, rules, rx, "Python");
  }
}
