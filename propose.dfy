/**
 * `cbclean.propose`: the change plan. Every duplicate is sent to the trash,
 * then every kept bookmark whose normalised URL differs from its URL gets a
 * URL update, each list in its own order.
 */
module Propose {
  import opened Optional
  import opened Utils

  /** One planned change. */
  datatype PlanItem = PlanItem(action: string, reason: string, bookmarkId: string)

  const TrashAction := "move_to/_Trash"
  const UpdateAction := "update_url"

  function TrashItem(b: Bookmark): PlanItem {
    PlanItem(TrashAction, "duplicate", b.id)
  }

  function UpdateItem(b: Bookmark): PlanItem {
    PlanItem(UpdateAction, "normalized", b.id)
  }

  /** `b.url and b.normalized_url and b.url != b.normalized_url` */
  predicate UrlChanged(b: Bookmark) {
    Truthy(b.url) && Truthy(b.normalizedUrl) && b.url.value != b.normalizedUrl.value
  }

  /** The kept bookmarks whose URL normalisation changed something, in order. */
  function Changed(s: seq<Bookmark>): seq<Bookmark>
    decreases |s|
  {
    if s == [] then [] else Changed(s[..|s| - 1]) + (if UrlChanged(s[|s| - 1]) then [s[|s| - 1]] else [])
  }

  /** The plan `propose_changes` returns; `original` plays no part in it. */
  function Plan(deduped: seq<Bookmark>, duplicates: seq<Bookmark>): seq<PlanItem> {
    seq(|duplicates|, k requires 0 <= k < |duplicates| => TrashItem(duplicates[k]))
    + seq(|Changed(deduped)|, k requires 0 <= k < |Changed(deduped)| => UpdateItem(Changed(deduped)[k]))
  }

  /** `propose_changes`: two loops appending to `plan`. */
  method ProposeChanges(original: seq<Bookmark>, deduped: seq<Bookmark>, duplicates: seq<Bookmark>)
    returns (plan: seq<PlanItem>)
    ensures plan == Plan(deduped, duplicates)
    ensures |plan| == |duplicates| + |Changed(deduped)|
    ensures forall k :: 0 <= k < |duplicates| ==> plan[k] == TrashItem(duplicates[k])
    ensures forall k :: |duplicates| <= k < |plan| ==>
      plan[k].action == UpdateAction && plan[k].reason == "normalized"
  {
    plan := [];
    for k := 0 to |duplicates|
      invariant plan == seq(k, t requires 0 <= t < k => TrashItem(duplicates[t]))
    {
      plan := plan + [TrashItem(duplicates[k])];
    }
    ghost var trash := plan;
    for k := 0 to |deduped|
      invariant plan == trash + seq(|Changed(deduped[..k])|, t requires 0 <= t < |Changed(deduped[..k])| => UpdateItem(Changed(deduped[..k])[t]))
    {
      var b := deduped[k];
      assert deduped[..k + 1][..k] == deduped[..k];
      if b.url.Some? && b.url.value != "" && b.normalizedUrl.Some? && b.normalizedUrl.value != ""
         && b.url.value != b.normalizedUrl.value {
        plan := plan + [UpdateItem(b)];
      }
    }
    assert deduped[..|deduped|] == deduped;
  }

  lemma {:induction false} ChangedMembers(s: seq<Bookmark>)
    ensures forall x :: x in Changed(s) <==> x in s && UrlChanged(x)
    decreases |s|
  {
    if s != [] {
      ChangedMembers(s[..|s| - 1]);
      assert s == s[..|s| - 1] + [s[|s| - 1]];
    }
  }

  /** The filter distributes over concatenation, so it keeps the order of its input. */
  lemma {:induction false} ChangedAppend(s: seq<Bookmark>, t: seq<Bookmark>)
    ensures Changed(s + t) == Changed(s) + Changed(t)
    decreases |t|
  {
    if t == [] {
      assert s + t == s;
    } else {
      var init := t[..|t| - 1];
      ChangedAppend(s, init);
      assert (s + t)[..|s + t| - 1] == s + init;
    }
  }

  /**
   * The plan is the trash items, one per duplicate and in that order, followed
   * by one URL update for each changed kept bookmark, in kept order.
   */
  lemma PlanShape(deduped: seq<Bookmark>, duplicates: seq<Bookmark>)
    ensures var p := Plan(deduped, duplicates);
      && |p| == |duplicates| + |Changed(deduped)|
      && (forall k :: 0 <= k < |duplicates| ==> p[k] == PlanItem("move_to/_Trash", "duplicate", duplicates[k].id))
      && (forall k :: |duplicates| <= k < |p| ==>
            p[k].action == "update_url" && p[k].reason == "normalized"
            && exists x :: x in deduped && UrlChanged(x) && p[k].bookmarkId == x.id)
  {
    ChangedMembers(deduped);
    var p := Plan(deduped, duplicates);
    forall k | |duplicates| <= k < |p|
      ensures exists x :: x in deduped && UrlChanged(x) && p[k].bookmarkId == x.id
    {
      var x := Changed(deduped)[k - |duplicates|];
      assert x in Changed(deduped);
    }
  }

  /** Every changed kept bookmark gets its update, and only those do. */
  lemma PlanUpdatesAll(deduped: seq<Bookmark>, duplicates: seq<Bookmark>, x: Bookmark)
    requires x in deduped && UrlChanged(x)
    ensures UpdateItem(x) in Plan(deduped, duplicates)
  {
    ChangedMembers(deduped);
    var c := Changed(deduped);
    var t :| 0 <= t < |c| && c[t] == x;
    assert Plan(deduped, duplicates)[|duplicates| + t] == UpdateItem(x);
  }

  /** tests/test_propose.py:5-13: one duplicate and one renormalised bookmark give both kinds of action. */
  lemma BothActionsPlanned(kept: Bookmark, dup: Bookmark)
    requires UrlChanged(kept)
    ensures Plan([kept], [dup]) == [TrashItem(dup), UpdateItem(kept)]
  {
    assert [kept] == [] + [kept];
    assert Changed([kept]) == [kept];
  }
}
