/**
 * `cbclean.normalize`: `normalize_bookmarks` sets, in place, the normalised URL
 * of every bookmark that has a URL and leaves every other bookmark alone.
 */
module Normalize {
  import opened Optional
  import opened Utils
  import opened Text
  import UtilsCases

  /** The normalisation options the pass forwards to `normalize_url`. */
  datatype Options = Options(stripParams: seq<string>, stripFragments: bool, stripWww: bool)

  /** One bookmark after the pass. */
  function Normalized(b: Bookmark, o: Options): Bookmark {
    if Truthy(b.url) then b.(normalizedUrl := Some(NormalizeUrl(b.url.value, o.stripParams, o.stripFragments, o.stripWww)))
    else b
  }

  /** `normalize_bookmarks`: the loop assigns `b.normalized_url` element by element. */
  method NormalizeBookmarks(a: array<Bookmark>, o: Options)
    modifies a
    ensures a[..] == NormalizedAll(old(a[..]), o)
    ensures forall k :: 0 <= k < a.Length ==> a[k] == Normalized(old(a[k]), o)
  {
    ghost var orig := a[..];
    for k := 0 to a.Length
      invariant a[..k] == NormalizedAll(orig[..k], o)
      invariant a[k..] == orig[k..]
    {
      TakeSnoc(orig, k);
      a[k] := NormalizeOne(a[k], o);
      assert a[..k + 1] == a[..k] + [a[k]];
    }
    assert orig[..a.Length] == orig;
    NormalizedAllAt(orig, o);
  }

  /** The list after the pass, in loop order. */
  function NormalizedAll(s: seq<Bookmark>, o: Options): seq<Bookmark>
  {
    if s == [] then [] else NormalizedAll(s[..|s| - 1], o) + [Normalized(s[|s| - 1], o)]
  }

  /** The whole pass, element by element. */
  lemma {:induction false} NormalizedAllAt(s: seq<Bookmark>, o: Options)
    ensures |NormalizedAll(s, o)| == |s|
    ensures forall i :: 0 <= i < |s| ==> NormalizedAll(s, o)[i] == Normalized(s[i], o)
  {
    if s != [] {
      NormalizedAllAt(s[..|s| - 1], o);
    }
  }

  /** The body of the loop: a bookmark without a URL is skipped. */
  method NormalizeOne(b: Bookmark, o: Options) returns (nb: Bookmark)
    ensures nb == Normalized(b, o)
  {
    if !(b.url.Some? && b.url.value != "") {
      return b;
    }
    nb := b.(normalizedUrl := Some(NormalizeUrl(b.url.value, o.stripParams, o.stripFragments, o.stripWww)));
  }

  /**
   * A bookmark with a URL gets exactly `normalize_url(url, ...)` with the three
   * options passed through; one without keeps its normalised URL; no other field
   * ever changes.
   */
  lemma NormalizedMeaning(b: Bookmark, o: Options)
    ensures var r := Normalized(b, o);
      && (Truthy(b.url) ==> r.normalizedUrl == Some(NormalizeUrl(b.url.value, o.stripParams, o.stripFragments, o.stripWww)))
      && (!Truthy(b.url) ==> r.normalizedUrl == b.normalizedUrl)
      && r.(normalizedUrl := b.normalizedUrl) == b
  {
  }

  /** The pass reads only `url`, which it never writes, so running it twice is running it once. */
  lemma NormalizedIdempotent(b: Bookmark, o: Options)
    ensures Normalized(Normalized(b, o), o) == Normalized(b, o)
  {
  }

  /** tests/test_normalize_module.py:5-8 */
  lemma NormalizesTrackedUrl(b: Bookmark)
    requires b.url == Some(UnsplitUrl(UtilsCases.ModuleUrl))
    ensures Normalized(b, Options(UtilsCases.UtmOnly, true, true)).normalizedUrl == Some("https://ex.com/?id=1")
  {
    UtilsCases.NormalizeModuleExample();
  }

  /** tests/test_normalize_module.py:11-14 */
  lemma SkipsMissingUrl(b: Bookmark, o: Options)
    requires b.url == None && b.normalizedUrl == None
    ensures Normalized(b, o).normalizedUrl == None
  {
  }
}
