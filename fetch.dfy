/**
 * `cbclean.fetch`: `check_liveness` performs no network access; it stamps every
 * bookmark that has a URL with one status that depends only on `enabled`.
 */
module Fetch {
  import opened Optional
  import opened Utils

  /** `"unknown" if not enabled else "unchecked"` */
  function Status(enabled: bool): (s: string)
    ensures s == "unknown" <==> !enabled
    ensures s == "unchecked" <==> enabled
  {
    if !enabled then "unknown" else "unchecked"
  }

  /** One bookmark after the pass. */
  function Checked(b: Bookmark, enabled: bool): Bookmark {
    if Truthy(b.url) then b.(liveness := Some(Status(enabled))) else b
  }

  /** `check_liveness`: the loop assigns `b.liveness` element by element. */
  method CheckLiveness(a: array<Bookmark>, enabled: bool)
    modifies a
    ensures forall k :: 0 <= k < a.Length ==> a[k] == Checked(old(a[k]), enabled)
  {
    var status := if !enabled then "unknown" else "unchecked";
    for k := 0 to a.Length
      invariant forall t :: 0 <= t < k ==> a[t] == Checked(old(a[t]), enabled)
      invariant forall t :: k <= t < a.Length ==> a[t] == old(a[t])
    {
      var b := a[k];
      if b.url.Some? && b.url.value != "" {
        a[k] := b.(liveness := Some(status));
      }
    }
  }

  /**
   * A bookmark with a URL gets the status; one without keeps whatever liveness
   * it had; no other field changes.
   */
  lemma CheckedMeaning(b: Bookmark, enabled: bool)
    ensures var r := Checked(b, enabled);
      && (Truthy(b.url) ==> r.liveness == Some(Status(enabled)))
      && (!Truthy(b.url) ==> r.liveness == b.liveness)
      && r.(liveness := b.liveness) == b
  {
  }

  /** tests/test_fetch.py:5-14 */
  lemma StatusCases(b: Bookmark)
    requires b.url == Some("https://ex.com")
    ensures Checked(b, false).liveness == Some("unknown")
    ensures Checked(b, true).liveness == Some("unchecked")
  {
  }
}
