/** The quilt engine (tools/apply-core-patches.py): patches that are inserted into a vendored tree where
    their marker is missing, checks that they are in, and the comparison with pristine upstream. */
module Quilt {
  import opened Options

  type Path = string
  type Text = string

  datatype Place = After | Before | Replace

  /** A patch; `file` is relative to the core tree. */
  datatype Op = Op(id: string, file: Path, applied: string, anchor: string, text: string, place: Place, occ: nat)

  // ---------------------------------------------------------------- searching

  predicate At(text: Text, sub: string, i: nat) {
    i + |sub| <= |text| && text[i..i + |sub|] == sub
  }

  /** `text.find(sub, from)`. */
  function Find(text: Text, sub: string, from: nat): Option<nat>
    decreases |text| + 1 - from
  {
    if from > |text| then None
    else if At(text, sub, from) then Some(from)
    else Find(text, sub, from + 1)
  }

  /** `sub in text`. */
  predicate Contains(text: Text, sub: string) {
    Find(text, sub, 0).Some?
  }

  /** The next `n` finds, each starting one past the last. */
  function FindNext(text: Text, anchor: string, from: nat, n: nat): Option<nat>
    requires n > 0
    decreases n
  {
    var i := Find(text, anchor, from);
    if i.None? || n == 1 then i else FindNext(text, anchor, i.value + 1, n - 1)
  }

  /** `find_occ`. */
  function FindOcc(text: Text, anchor: string, occ: nat): Option<nat> {
    if occ == 0 then None else FindNext(text, anchor, 0, occ)
  }

  /** How often `sub` occurs at positions from `from` up to before `until`, overlaps included. */
  function Count(text: Text, sub: string, from: nat, until: nat): nat
    decreases until - from
  {
    if from >= until then 0 else (if At(text, sub, from) then 1 else 0) + Count(text, sub, from + 1, until)
  }

  lemma {:induction false} FindIs(text: Text, sub: string, from: nat)
    ensures match Find(text, sub, from)
            case None => forall i: nat :: i >= from ==> !At(text, sub, i)
            case Some(i) => from <= i && At(text, sub, i) && forall j :: from <= j < i ==> !At(text, sub, j)
    decreases |text| + 1 - from
  {
    if from <= |text| && !At(text, sub, from) {
      FindIs(text, sub, from + 1);
      if Find(text, sub, from).None? {
        forall i: nat | i >= from ensures !At(text, sub, i) {
          if i > from { assert i >= from + 1; }
        }
      }
    }
  }

  lemma ContainsIs(text: Text, sub: string)
    ensures Contains(text, sub) <==> exists i: nat :: At(text, sub, i)
  {
    FindIs(text, sub, 0);
  }

  lemma {:induction false} CountNone(text: Text, sub: string, from: nat, until: nat)
    requires forall i :: from <= i < until ==> !At(text, sub, i)
    ensures Count(text, sub, from, until) == 0
    decreases until - from
  {
    if from < until {
      CountNone(text, sub, from + 1, until);
    }
  }

  lemma {:induction false} CountSplit(text: Text, sub: string, from: nat, mid: nat, until: nat)
    requires from <= mid <= until
    ensures Count(text, sub, from, until) == Count(text, sub, from, mid) + Count(text, sub, mid, until)
    decreases mid - from
  {
    if from < mid {
      CountSplit(text, sub, from + 1, mid, until);
    }
  }

  lemma {:induction false} FindNextCounts(text: Text, anchor: string, from: nat, n: nat)
    requires n > 0
    ensures match FindNext(text, anchor, from, n)
            case Some(i) => from <= i && At(text, anchor, i) && Count(text, anchor, from, i) == n - 1
            case None => Count(text, anchor, from, |text| + 1) < n
    decreases n
  {
    FindIs(text, anchor, from);
    var i := Find(text, anchor, from);
    if i.None? {
      CountNone(text, anchor, from, |text| + 1);
    } else {
      CountNone(text, anchor, from, i.value);
      if n > 1 {
        FindNextCounts(text, anchor, i.value + 1, n - 1);
        var r := FindNext(text, anchor, from, n);
        var until := if r.Some? then r.value else |text| + 1;
        CountSplit(text, anchor, from, i.value, until);
      }
    }
  }

  /** `find_occ` finds the true n-th occurrence, overlapping ones counted: the position where the anchor
      stands with n - 1 occurrences before it; and nothing exactly when there are fewer than n. */
  lemma FindOccIsNth(text: Text, anchor: string, occ: nat, i: nat)
    requires occ > 0
    ensures FindOcc(text, anchor, occ) == Some(i) <==> At(text, anchor, i) && Count(text, anchor, 0, i) == occ - 1
    ensures FindOcc(text, anchor, occ).None? <==> Count(text, anchor, 0, |text| + 1) < occ
  {
    FindNextCounts(text, anchor, 0, occ);
    var r := FindOcc(text, anchor, occ);
    if r.Some? {
      CountSplit(text, anchor, 0, r.value, |text| + 1);
      if At(text, anchor, i) {
        CountSplit(text, anchor, 0, if i < r.value then i else r.value, if i < r.value then r.value else i);
      }
    } else if At(text, anchor, i) {
      CountSplit(text, anchor, 0, i, |text| + 1);
    }
  }

  /** The loop of `find_occ`, with -1 for nothing. */
  method FindOccurrence(text: Text, anchor: string, occ: nat) returns (idx: int)
    ensures idx == if FindOcc(text, anchor, occ).Some? then FindOcc(text, anchor, occ).value else -1
    ensures idx >= 0 ==> At(text, anchor, idx) && Count(text, anchor, 0, idx) == occ - 1
    ensures idx < 0 && occ > 0 ==> Count(text, anchor, 0, |text| + 1) < occ
  {
    idx := -1;
    var n := 0;
    while n < occ
      invariant 0 <= n <= occ && idx >= -1 && (n == 0 ==> idx == -1)
      invariant n < occ ==> FindOcc(text, anchor, occ) == FindNext(text, anchor, idx + 1, occ - n)
      invariant n == occ > 0 ==> FindOcc(text, anchor, occ) == Some(idx) && idx >= 0
    {
      var next := Find(text, anchor, idx + 1);
      if next.None? {
        if occ > 0 { FindOccIsNth(text, anchor, occ, 0); }
        return -1;
      }
      idx := next.value;
      n := n + 1;
    }
    if occ > 0 { FindOccIsNth(text, anchor, occ, idx); }
  }

  // ---------------------------------------------------------------- one patch

  datatype Reason = FileMissing | AnchorGone | MarkerAbsent

  datatype Verdict = InPlace | Edited(text: Text) | Conflict(reason: Reason)

  /** Where the edit takes text out, and where it resumes. */
  function CutStart(op: Op, idx: nat): nat {
    if op.place == After then idx + |op.anchor| else idx
  }

  function CutEnd(op: Op, idx: nat): nat {
    if op.place == Before then idx else idx + |op.anchor|
  }

  function Spliced(text: Text, op: Op, idx: nat): Text
    requires At(text, op.anchor, idx)
  {
    text[..CutStart(op, idx)] + op.text + text[CutEnd(op, idx)..]
  }

  lemma FoundAt(text: Text, op: Op)
    ensures FindOcc(text, op.anchor, op.occ).Some? ==> At(text, op.anchor, FindOcc(text, op.anchor, op.occ).value)
  {
    if op.occ > 0 {
      FindNextCounts(text, op.anchor, 0, op.occ);
    }
  }

  function Edit(text: Text, op: Op): Verdict {
    if Contains(text, op.applied) then InPlace
    else
      var idx := FindOcc(text, op.anchor, op.occ);
      FoundAt(text, op);
      if idx.None? then Conflict(AnchorGone)
      else
        var after := Spliced(text, op, idx.value);
        if Contains(after, op.applied) then Edited(after) else Conflict(MarkerAbsent)
  }

  function Edits(text: Text, op: Op): Text {
    if Edit(text, op).Edited? then Edit(text, op).text else text
  }

  lemma SplicedIs(text: Text, op: Op, i: nat)
    requires At(text, op.anchor, i)
    ensures var (front, back) := (text[..i], text[i + |op.anchor|..]);
            && text == front + op.anchor + back
            && (op.place == After ==> Spliced(text, op, i) == front + op.anchor + op.text + back)
            && (op.place == Before ==> Spliced(text, op, i) == front + op.text + op.anchor + back)
            && (op.place == Replace ==> Spliced(text, op, i) == front + op.text + back)
  {
    var front, back := text[..i], text[i + |op.anchor|..];
    assert text[i..i + |op.anchor|] == op.anchor;
    assert text[..i + |op.anchor|] == front + op.anchor && text[i..] == op.anchor + back;
    assert front + op.text + (op.anchor + back) == front + op.text + op.anchor + back;
  }

  /** What an edit makes of a text, by the place of its patch: the n-th occurrence of the anchor stays with
      the inserted text behind or in front of it, or is replaced. */
  lemma EditPlaces(text: Text, op: Op, i: nat)
    requires Edit(text, op).Edited? && At(text, op.anchor, i) && Count(text, op.anchor, 0, i) == op.occ - 1
    ensures var (front, back) := (text[..i], text[i + |op.anchor|..]);
            && text == front + op.anchor + back
            && (op.place == After ==> Edit(text, op).text == front + op.anchor + op.text + back)
            && (op.place == Before ==> Edit(text, op).text == front + op.text + op.anchor + back)
            && (op.place == Replace ==> Edit(text, op).text == front + op.text + back)
  {
    FindOccIsNth(text, op.anchor, op.occ, i);
    assert Edit(text, op).text == Spliced(text, op, i) by {
      hide FindOcc, Count, At, Spliced, Contains;
    }
    hide Edit, FindOcc, Count, Spliced, At;
    SplicedIs(text, op, i);
  }

  /** Which of the outcomes an edit has: nothing to do when the marker is in; a conflict when the anchor
      stands there fewer times than wanted, or when the marker is still missing after the insertion. */
  lemma EditOutcomes(text: Text, op: Op)
    requires op.occ > 0
    ensures Edit(text, op) == InPlace <==> Contains(text, op.applied)
    ensures Edit(text, op) == Conflict(AnchorGone) <==>
            !Contains(text, op.applied) && Count(text, op.anchor, 0, |text| + 1) < op.occ
    ensures Edit(text, op).Edited? ==> Contains(Edit(text, op).text, op.applied)
    ensures Edit(text, op) != Conflict(FileMissing)
  {
    FindOccIsNth(text, op.anchor, op.occ, 0);
  }

  lemma StillAt(text: Text, a: nat, b: nat, put: string, m: string, i: nat)
    requires a <= b <= |text| && At(text, m, i) && (i + |m| <= a || b <= i)
    ensures Contains(text[..a] + put + text[b..], m)
  {
    var r := text[..a] + put + text[b..];
    var j := if i + |m| <= a then i else i - b + a + |put|;
    assert r[j..j + |m|] == m;
    assert At(r, m, j);
    ContainsIs(r, m);
  }

  lemma Inserted(text: Text, a: nat, b: nat, put: string, m: string)
    requires a <= b <= |text| && Contains(put, m)
    ensures Contains(text[..a] + put + text[b..], m)
  {
    ContainsIs(put, m);
    var i: nat :| At(put, m, i);
    var r := text[..a] + put + text[b..];
    assert r[a + i..a + i + |m|] == m;
    assert At(r, m, a + i);
    ContainsIs(r, m);
  }

  /** "Cannot happen after lint": a patch whose own text holds its marker never loses it on insertion. */
  lemma MarkerNeverAbsent(text: Text, op: Op)
    requires Contains(op.text, op.applied)
    ensures Edit(text, op) != Conflict(MarkerAbsent)
  {
    FoundAt(text, op);
    var idx := FindOcc(text, op.anchor, op.occ);
    if idx.Some? {
      Inserted(text, CutStart(op, idx.value), CutEnd(op, idx.value), op.text, op.applied);
    }
  }

  // ---------------------------------------------------------------- all patches of one file

  function Fold(text: Text, ops: seq<Op>): Text
    decreases |ops|
  {
    if ops == [] then text else Fold(Edits(text, ops[0]), ops[1..])
  }

  predicate Smooth(text: Text, ops: seq<Op>)
    decreases |ops|
  {
    ops != [] ==> !Edit(text, ops[0]).Conflict? && Smooth(Edits(text, ops[0]), ops[1..])
  }

  /** The edit neither overwrites nor splits some occurrence of m. */
  ghost predicate Spares(text: Text, op: Op, m: string) {
    var idx := FindOcc(text, op.anchor, op.occ);
    idx.Some? && exists i: nat :: At(text, m, i) && (i + |m| <= CutStart(op, idx.value) || CutEnd(op, idx.value) <= i)
  }

  /** No edit destroys the marker of a patch before it. */
  ghost predicate SparesEarlier(text: Text, ops: seq<Op>, markers: set<string>)
    decreases |ops|
  {
    ops != [] ==>
      && (Edit(text, ops[0]).Edited? ==> forall m :: m in markers ==> Spares(text, ops[0], m))
      && SparesEarlier(Edits(text, ops[0]), ops[1..], markers + {ops[0].applied})
  }

  /** In the edited text some occurrence of m overlaps what was inserted, or the seam if nothing was. */
  ghost predicate Touches(text: Text, op: Op, m: string) {
    var idx := FindOcc(text, op.anchor, op.occ);
    idx.Some? && At(text, op.anchor, idx.value) &&
    exists i: nat :: At(Spliced(text, op, idx.value), m, i)
      && i < CutStart(op, idx.value) + |op.text| && CutStart(op, idx.value) < i + |m|
  }

  lemma WasAt(text: Text, a: nat, b: nat, put: string, m: string, i: nat)
    requires a <= b <= |text| && At(text[..a] + put + text[b..], m, i) && (i + |m| <= a || a + |put| <= i)
    ensures var j := if i + |m| <= a then i else i - |put| - a + b;
            At(text, m, j) && (j + |m| <= a || b <= j)
  {
    var r := text[..a] + put + text[b..];
    if i + |m| <= a {
      assert text[i..i + |m|] == r[i..i + |m|];
    } else {
      var j := i - |put| - a + b;
      forall k | 0 <= k < |m| ensures text[j + k] == m[k] {
        assert r[i..i + |m|][k] == r[i + k] == text[j + k];
      }
      assert text[j..j + |m|] == m;
    }
  }

  /** What one edit does to a marker, exactly: it is there afterwards if and only if an occurrence of it
      was spared or one now overlaps the inserted text. */
  lemma EditKeepsExactlyWhen(text: Text, op: Op, m: string)
    requires Edit(text, op).Edited?
    ensures Contains(Edits(text, op), m) <==> Spares(text, op, m) || Touches(text, op, m)
  {
    FoundAt(text, op);
    var idx := FindOcc(text, op.anchor, op.occ).value;
    var a, b := CutStart(op, idx), CutEnd(op, idx);
    var r := Edits(text, op);
    assert r == text[..a] + op.text + text[b..];
    ContainsIs(r, m);
    if Spares(text, op, m) {
      var i: nat :| At(text, m, i) && (i + |m| <= a || b <= i);
      StillAt(text, a, b, op.text, m, i);
    }
    if Contains(r, m) && !Touches(text, op, m) {
      var i: nat :| At(r, m, i);
      WasAt(text, a, b, op.text, m, i);
    }
  }

  /** Then every marker survives to the end. */
  lemma {:induction false} MarkersSurvive(text: Text, ops: seq<Op>, markers: set<string>, m: string)
    requires Smooth(text, ops) && SparesEarlier(text, ops, markers)
    requires forall x :: x in markers ==> Contains(text, x)
    requires m in markers || exists k :: 0 <= k < |ops| && ops[k].applied == m
    ensures Contains(Fold(text, ops), m)
    decreases |ops|
  {
    if ops != [] {
      var next := Edits(text, ops[0]);
      var more := markers + {ops[0].applied};
      forall x | x in more ensures Contains(next, x) {
        if Edit(text, ops[0]).Edited? && x in markers {
          EditKeepsExactlyWhen(text, ops[0], x);
        }
      }
      if m !in more {
        var k :| 0 <= k < |ops| && ops[k].applied == m;
        assert ops[1..][k - 1].applied == m;
      }
      MarkersSurvive(next, ops[1..], more, m);
    }
  }

  /** Once every marker is in, nothing is left to do. */
  lemma {:induction false} NothingLeft(text: Text, ops: seq<Op>)
    requires forall k :: 0 <= k < |ops| ==> Contains(text, ops[k].applied)
    ensures Fold(text, ops) == text && Smooth(text, ops)
    decreases |ops|
  {
    if ops != [] {
      assert Edit(text, ops[0]) == InPlace;
      NothingLeft(text, ops[1..]);
    }
  }
}
