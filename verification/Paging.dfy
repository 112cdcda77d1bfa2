/** Pages of a chat's message list (`pageBounds` in app/js/format.js). */
module Paging {
  import opened Numbers
  import opened Options

  type Id = nat

  datatype Bounds = Bounds(start: nat, end: nat)

  function IndexOf(ids: seq<Id>, id: Id): Option<nat> {
    if ids == [] then None
    else if ids[0] == id then Some(0)
    else
      var k := IndexOf(ids[1..], id);
      if k.None? then None else Some(k.value + 1)
  }

  /** The page that ends at `end`. */
  function Back(end: nat, limit: nat): Bounds {
    Bounds(Max(0, end - limit), end)
  }

  /** `pageBounds`. */
  function PageBounds(ids: seq<Id>, beforeId: Option<Id>, afterId: Option<Id>, aroundId: Option<Id>, before: nat, limit: nat)
    : (b: Bounds)
    ensures b.start <= b.end <= |ids| && b.end - b.start <= limit
  {
    var n := |ids|;
    IndexIs(ids);
    if aroundId.Some? && IndexOf(ids, aroundId.value).Some? then
      var idx := IndexOf(ids, aroundId.value).value;
      Back(Min(n, Max(0, idx - before) + limit), limit)
    else if aroundId.None? && afterId.Some? then
      var idx := IndexOf(ids, afterId.value);
      if idx.None? then Bounds(n, n) else Bounds(idx.value + 1, Min(n, idx.value + 1 + limit))
    else
      var idx := if beforeId.Some? then IndexOf(ids, beforeId.value) else None;
      Back(if idx.Some? then idx.value else n, limit)
  }

  lemma {:induction false} IndexIsAt(ids: seq<Id>, id: Id)
    ensures match IndexOf(ids, id)
            case Some(k) => k < |ids| && ids[k] == id && forall j :: 0 <= j < k ==> ids[j] != id
            case None => forall j :: 0 <= j < |ids| ==> ids[j] != id
  {
    if ids != [] && ids[0] != id {
      IndexIsAt(ids[1..], id);
      assert forall j :: 0 < j < |ids| ==> ids[j] == ids[1..][j - 1];
    }
  }

  lemma IndexIs(ids: seq<Id>)
    ensures forall id :: IndexOf(ids, id).Some? ==> IndexOf(ids, id).value < |ids|
  {
    forall id ensures IndexOf(ids, id).Some? ==> IndexOf(ids, id).value < |ids| {
      IndexIsAt(ids, id);
    }
  }

  predicate Distinct(ids: seq<Id>) {
    forall j, k :: 0 <= j < k < |ids| ==> ids[j] != ids[k]
  }

  lemma IndexOfNth(ids: seq<Id>, k: nat)
    requires Distinct(ids) && k < |ids|
    ensures IndexOf(ids, ids[k]) == Some(k)
  {
    IndexIsAt(ids, ids[k]);
  }

  // ---------------------------------------------------------------- what the options give

  /** Every page is as full as the messages on its side allow, and stands where it is asked for. */
  lemma PagesAreFull(ids: seq<Id>, k: nat, before: nat, limit: nat)
    requires Distinct(ids) && k < |ids|
    ensures var n := |ids|;
            var newest := PageBounds(ids, None, None, None, before, limit);
            newest.end == n && newest.end - newest.start == Min(limit, n)
    ensures var b := PageBounds(ids, Some(ids[k]), None, None, before, limit);
            b.end == k && b.end - b.start == Min(limit, k)
    ensures var b := PageBounds(ids, None, Some(ids[k]), None, before, limit);
            b.start == k + 1 && b.end - b.start == Min(limit, |ids| - k - 1)
    ensures var b := PageBounds(ids, None, None, Some(ids[k]), before, limit);
            b.end - b.start == Min(limit, |ids|) && b.start == Min(Max(0, k - before), Max(0, |ids| - limit))
  {
    IndexOfNth(ids, k);
  }

  /** An unknown message gives the newest page, or after it an empty one; a page around wins over a page
      after, and that over a page before - even a page around an unknown message. */
  lemma UnknownAnchors(ids: seq<Id>, x: Id, beforeId: Option<Id>, afterId: Option<Id>, y: Id, before: nat, limit: nat)
    requires x !in ids
    ensures var newest := PageBounds(ids, None, None, None, before, limit);
            && PageBounds(ids, Some(x), None, None, before, limit) == newest
            && PageBounds(ids, None, afterId, Some(x), before, limit) == newest
            && PageBounds(ids, beforeId, Some(x), None, before, limit) == Bounds(|ids|, |ids|)
    ensures PageBounds(ids, beforeId, Some(y), None, before, limit) == PageBounds(ids, None, Some(y), None, before, limit)
    ensures y in ids ==> PageBounds(ids, beforeId, afterId, Some(y), before, limit)
                         == PageBounds(ids, None, None, Some(y), before, limit)
  {
    IndexIsAt(ids, x);
    IndexIsAt(ids, y);
  }

  // ---------------------------------------------------------------- the page around a message

  function Around(ids: seq<Id>, id: Id, before: nat, limit: nat): Bounds {
    PageBounds(ids, None, None, Some(id), before, limit)
  }

  /** The page around a message holds it exactly when fewer than `limit` messages precede it there. */
  lemma AroundHolds(ids: seq<Id>, k: nat, before: nat, limit: nat)
    requires Distinct(ids) && k < |ids|
    ensures var b := Around(ids, ids[k], before, limit);
            b.start <= k < b.end <==> Min(k, before) < limit
  {
    IndexOfNth(ids, k);
  }

  /** So it holds it in every list exactly when `before` is less than `limit`. */
  lemma AroundAlwaysHoldsExactlyWhen(before: nat, limit: nat)
    ensures before < limit <==> AroundAlwaysHolds(before, limit)
  {
    if before < limit {
      forall ids: seq<Id>, k: nat | Distinct(ids) && k < |ids| ensures AroundHoldsAt(ids, k, before, limit) {
        AroundHolds(ids, k, before, limit);
      }
    } else {
      var ids := seq(before + 1, i requires 0 <= i => i as nat);
      AroundHolds(ids, before, before, limit);
      assert !AroundHoldsAt(ids, before, before, limit);
    }
  }

  predicate AroundHoldsAt(ids: seq<Id>, k: nat, before: nat, limit: nat)
    requires k < |ids|
  {
    var b := Around(ids, ids[k], before, limit);
    b.start <= k < b.end
  }

  ghost predicate AroundAlwaysHolds(before: nat, limit: nat) {
    forall ids: seq<Id>, k: nat :: Distinct(ids) && k < |ids| ==> AroundHoldsAt(ids, k, before, limit)
  }

  // ---------------------------------------------------------------- paging through the list

  function Slice(ids: seq<Id>, b: Bounds): seq<Id>
    requires b.start <= b.end <= |ids|
  {
    ids[b.start..b.end]
  }

  /** Scrolling up from an end: the page before it, then the page before that page's first message. */
  function Older(ids: seq<Id>, end: nat, limit: nat): seq<Id>
    requires limit > 0 && Distinct(ids) && end <= |ids|
    decreases end
  {
    if end == 0 then []
    else
      var beforeId := if end < |ids| then Some(ids[end]) else None;
      var b := PageBounds(ids, beforeId, None, None, 0, limit);
      OlderPage(ids, end, limit);
      Older(ids, b.start, limit) + Slice(ids, b)
  }

  /** Scrolling down: the page after message k, then the page after that page's last message. */
  function Newer(ids: seq<Id>, k: nat, limit: nat): seq<Id>
    requires limit > 0 && Distinct(ids) && k < |ids|
    decreases |ids| - k
  {
    var b := PageBounds(ids, None, Some(ids[k]), None, 0, limit);
    NewerPage(ids, k, limit);
    if b.start == b.end then [] else Slice(ids, b) + Newer(ids, b.end - 1, limit)
  }

  lemma OlderPage(ids: seq<Id>, end: nat, limit: nat)
    requires limit > 0 && Distinct(ids) && 0 < end <= |ids|
    ensures var b := PageBounds(ids, if end < |ids| then Some(ids[end]) else None, None, None, 0, limit);
            b.end == end && b.start < end
  {
    if end < |ids| {
      IndexOfNth(ids, end);
    }
  }

  lemma NewerPage(ids: seq<Id>, k: nat, limit: nat)
    requires limit > 0 && Distinct(ids) && k < |ids|
    ensures var b := PageBounds(ids, None, Some(ids[k]), None, 0, limit);
            b.start == k + 1 && (b.start == b.end <==> k + 1 == |ids|) && (b.start < b.end ==> b.end - 1 > k)
  {
    IndexOfNth(ids, k);
  }

  lemma Cut(s: seq<Id>, a: nat, b: nat)
    requires a <= b <= |s|
    ensures s[a..] == s[a..b] + s[b..]
  {
  }

  lemma CutTo(s: seq<Id>, a: nat, b: nat)
    requires a <= b <= |s|
    ensures s[..b] == s[..a] + s[a..b]
  {
  }

  /** Paging up from an end yields everything before it, once and in order. */
  lemma {:induction false} OlderIsAll(ids: seq<Id>, end: nat, limit: nat)
    requires limit > 0 && Distinct(ids) && end <= |ids|
    ensures Older(ids, end, limit) == ids[..end]
    decreases end
  {
    hide IndexOf, PageBounds, Distinct;
    if end > 0 {
      OlderPage(ids, end, limit);
      var b := PageBounds(ids, if end < |ids| then Some(ids[end]) else None, None, None, 0, limit);
      OlderIsAll(ids, b.start, limit);
      CutTo(ids, b.start, end);
    }
  }

  lemma {:induction false} NewerIsAll(ids: seq<Id>, k: nat, limit: nat)
    requires limit > 0 && Distinct(ids) && k < |ids|
    ensures Newer(ids, k, limit) == ids[k + 1..]
    decreases |ids| - k
  {
    hide IndexOf, PageBounds, Distinct;
    NewerPage(ids, k, limit);
    var b := PageBounds(ids, None, Some(ids[k]), None, 0, limit);
    assert Newer(ids, k, limit) == if b.start == b.end then [] else Slice(ids, b) + Newer(ids, b.end - 1, limit);
    if b.start < b.end {
      NewerIsAll(ids, b.end - 1, limit);
      Cut(ids, k + 1, b.end);
    } else {
      assert ids[k + 1..] == [];
    }
  }

  /** From the newest page up, page by page: the whole list, no gap and no overlap. */
  lemma PagesPartition(ids: seq<Id>, limit: nat)
    requires limit > 0 && Distinct(ids)
    ensures Older(ids, |ids|, limit) == ids
  {
    OlderIsAll(ids, |ids|, limit);
    assert ids[..|ids|] == ids;
  }

  /** Jump to a message, then page up and down from there: the whole list again. */
  lemma JumpAndPage(ids: seq<Id>, k: nat, before: nat, limit: nat)
    requires Distinct(ids) && k < |ids| && before < limit
    ensures var b := Around(ids, ids[k], before, limit);
            b.start < b.end && Older(ids, b.start, limit) + Slice(ids, b) + Newer(ids, b.end - 1, limit) == ids
  {
    AroundHolds(ids, k, before, limit);
    hide IndexOf, PageBounds, Distinct, Older, Newer;
    var b := Around(ids, ids[k], before, limit);
    hide Around;
    OlderIsAll(ids, b.start, limit);
    NewerIsAll(ids, b.end - 1, limit);
    ThreeParts(ids, b);
  }

  lemma ThreeParts(ids: seq<Id>, b: Bounds)
    requires b.start < b.end <= |ids|
    ensures ids[..b.start] + Slice(ids, b) + ids[b.end..] == ids
  {
  }
}
