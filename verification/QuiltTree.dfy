/** The quilt over a whole tree (tools/apply-core-patches.py): apply, verify, lint and tree-check. */
module QuiltTree {
  import opened Options
  import opened Quilt

  type Files = map<Path, Text>

  /** `read`: CRLF becomes LF, scanning once from the left. */
  function Normal(text: Text): Text {
    if |text| < 2 then text
    else if text[0] == '\r' && text[1] == '\n' then ['\n'] + Normal(text[2..])
    else [text[0]] + Normal(text[1..])
  }

  predicate NoReturn(text: Text) {
    forall k :: 0 <= k < |text| ==> text[k] != '\r'
  }

  predicate NoPair(text: Text) {
    forall k :: 0 <= k < |text| - 1 ==> !(text[k] == '\r' && text[k + 1] == '\n')
  }

  /** Reading leaves a text as it is exactly when no CRLF stands in it; it never lengthens one. */
  lemma {:induction false} NormalFixesExactlyWhen(text: Text)
    ensures |Normal(text)| <= |text|
    ensures Normal(text) == text <==> NoPair(text)
  {
    if |text| >= 2 {
      if text[0] == '\r' && text[1] == '\n' {
        NormalFixesExactlyWhen(text[2..]);
      } else {
        NormalFixesExactlyWhen(text[1..]);
        assert forall k :: 0 < k < |text| - 1 ==> text[k] == text[1..][k - 1] && text[k + 1] == text[1..][k];
        assert forall k :: 0 <= k < |text[1..]| - 1 ==> text[1..][k] == text[k + 1];
      }
    }
  }

  /** One CRLF after text without any becomes one LF, and reading goes on behind it. */
  lemma {:induction false} NormalStep(a: Text, b: Text)
    requires NoPair(a + "\r")
    ensures Normal(a + "\r\n" + b) == a + "\n" + Normal(b)
  {
    var text := a + "\r\n" + b;
    if a == [] {
      assert text[2..] == b && text == "\r\n" + b;
    } else {
      assert text[0] == a[0] && text[1..] == a[1..] + "\r\n" + b;
      assert (a + "\r")[1..] == a[1..] + "\r";
      assert forall k :: 0 <= k < |a[1..] + "\r"| ==> (a[1..] + "\r")[k] == (a + "\r")[k + 1];
      NormalStep(a[1..], b);
      assert !(text[0] == '\r' && text[1] == '\n') by {
        assert (a + "\r")[0] == text[0] && (a + "\r")[1] == text[1];
      }
      assert [a[0]] + (a[1..] + "\n" + Normal(b)) == a + "\n" + Normal(b);
    }
  }

  // ---------------------------------------------------------------- apply

  datatype Problem = Problem(id: string, reason: Reason)

  datatype Work = Work(cache: Files, applied: seq<string>, conflicts: seq<Problem>)

  /** One turn of the loop of `apply_ops`. */
  function Turn(files: Files, w: Work, op: Op): Work {
    if op.file !in w.cache && op.file !in files then w.(conflicts := w.conflicts + [Problem(op.id, FileMissing)])
    else
      var text := if op.file in w.cache then w.cache[op.file] else Normal(files[op.file]);
      match Edit(text, op)
      case InPlace => w.(cache := w.cache[op.file := text])
      case Edited(after) => w.(cache := w.cache[op.file := after], applied := w.applied + [op.id])
      case Conflict(reason) => w.(cache := w.cache[op.file := text], conflicts := w.conflicts + [Problem(op.id, reason)])
  }

  function Turns(files: Files, w: Work, ops: seq<Op>): Work
    decreases |ops|
  {
    if ops == [] then w else Turns(files, Turn(files, w, ops[0]), ops[1..])
  }

  const Idle := Work(map[], [], [])

  /** The tree after `apply_ops`: written only when nothing conflicts. */
  function Applied(files: Files, ops: seq<Op>): Files {
    var w := Turns(files, Idle, ops);
    if w.conflicts == [] then files + w.cache else files
  }

  function Conflicts(files: Files, ops: seq<Op>): seq<Problem> {
    Turns(files, Idle, ops).conflicts
  }

  function OpsOf(ops: seq<Op>, f: Path): seq<Op> {
    if ops == [] then [] else (if ops[0].file == f then [ops[0]] else []) + OpsOf(ops[1..], f)
  }

  predicate Declares(ops: seq<Op>, f: Path) {
    exists k :: 0 <= k < |ops| && ops[k].file == f
  }

  /** What the patches of f make of it, one after the other. */
  function FileFold(files: Files, ops: seq<Op>, f: Path): Text
    requires f in files
  {
    Fold(Normal(files[f]), OpsOf(ops, f))
  }

  function Current(files: Files, w: Work, f: Path): Text
    requires f in files
  {
    if f in w.cache then w.cache[f] else Normal(files[f])
  }

  predicate CacheFrom(files: Files, w: Work) {
    w.cache.Keys <= files.Keys
  }

  lemma {:induction false} TurnsFold(files: Files, w: Work, ops: seq<Op>, f: Path)
    requires CacheFrom(files, w)
    ensures var r := Turns(files, w, ops);
            && CacheFrom(files, r)
            && (f in r.cache <==> f in w.cache || (f in files && Declares(ops, f)))
            && (f in r.cache ==> r.cache[f] == Fold(Current(files, w, f), OpsOf(ops, f)))
    decreases |ops|
  {
    if ops != [] {
      var next := Turn(files, w, ops[0]);
      assert Declares(ops, f) <==> ops[0].file == f || Declares(ops[1..], f) by {
        if Declares(ops[1..], f) {
          var k :| 0 <= k < |ops[1..]| && ops[1..][k].file == f;
          assert ops[k + 1].file == f;
        }
      }
      TurnsFold(files, next, ops[1..], f);
      if f in files {
        TurnIs(files, w, ops[0], f);
        FoldHead(files, w, ops, f);
      }
    }
  }

  lemma TurnIs(files: Files, w: Work, op: Op, f: Path)
    requires CacheFrom(files, w) && f in files
    ensures Current(files, Turn(files, w, op), f) == if op.file == f then Edits(Current(files, w, f), op) else Current(files, w, f)
  {
  }

  lemma FoldHead(files: Files, w: Work, ops: seq<Op>, f: Path)
    requires ops != [] && f in files
    ensures var text := Current(files, w, f);
            Fold(text, OpsOf(ops, f))
            == Fold(if ops[0].file == f then Edits(text, ops[0]) else text, OpsOf(ops[1..], f))
    ensures var text := Current(files, w, f);
            Smooth(text, OpsOf(ops, f))
            <==> (ops[0].file == f ==> !Edit(text, ops[0]).Conflict?)
                 && Smooth(if ops[0].file == f then Edits(text, ops[0]) else text, OpsOf(ops[1..], f))
  {
    if ops[0].file == f {
      assert OpsOf(ops, f) == [ops[0]] + OpsOf(ops[1..], f);
      assert OpsOf(ops, f)[1..] == OpsOf(ops[1..], f);
    } else {
      assert OpsOf(ops, f) == OpsOf(ops[1..], f);
    }
  }

  /** Every patched file is there and takes its patches. */
  predicate Fits(files: Files, w: Work, ops: seq<Op>) {
    && (forall k :: 0 <= k < |ops| ==> ops[k].file in files)
    && (forall f :: f in files ==> Smooth(Current(files, w, f), OpsOf(ops, f)))
  }

  lemma {:induction false} TurnsConflicts(files: Files, w: Work, ops: seq<Op>)
    requires CacheFrom(files, w)
    ensures |Turns(files, w, ops).conflicts| >= |w.conflicts|
    ensures |Turns(files, w, ops).conflicts| == |w.conflicts| <==> Fits(files, w, ops)
    decreases |ops|
  {
    if ops != [] {
      var op := ops[0];
      var next := Turn(files, w, op);
      TurnsConflicts(files, next, ops[1..]);
      assert |next.conflicts| == |w.conflicts| <==> op.file in files && !Edit(Current(files, w, op.file), op).Conflict?;
      if op.file in files {
        forall f | f in files
          ensures Smooth(Current(files, w, f), OpsOf(ops, f))
                  <==> (op.file == f ==> !Edit(Current(files, w, f), op).Conflict?)
                       && Smooth(Current(files, next, f), OpsOf(ops[1..], f)) {
          TurnIs(files, w, op, f);
          FoldHead(files, w, ops, f);
        }
      }
      FitsHead(files, w, ops);
    }
  }

  lemma FitsHead(files: Files, w: Work, ops: seq<Op>)
    requires ops != [] && CacheFrom(files, w)
    requires ops[0].file in files ==> forall f :: f in files ==>
      (Smooth(Current(files, w, f), OpsOf(ops, f))
       <==> (ops[0].file == f ==> !Edit(Current(files, w, f), ops[0]).Conflict?)
            && Smooth(Current(files, Turn(files, w, ops[0]), f), OpsOf(ops[1..], f)))
    ensures Fits(files, w, ops)
            <==> ops[0].file in files && !Edit(Current(files, w, ops[0].file), ops[0]).Conflict?
                 && Fits(files, Turn(files, w, ops[0]), ops[1..])
  {
    hide Smooth, Turn, Edit, OpsOf, Current;
    assert (forall k :: 0 <= k < |ops| ==> ops[k].file in files)
        <==> ops[0].file in files && (forall k :: 0 <= k < |ops[1..]| ==> ops[1..][k].file in files) by {
      assert forall k :: 0 < k < |ops| ==> ops[k] == ops[1..][k - 1];
    }
  }

  /** What apply does: nothing at all on any conflict; otherwise every patched file becomes the fold of
      its patches over its text, and no other file changes.  It conflicts exactly when a patched file is
      missing or does not take its patches. */
  lemma ApplyIs(files: Files, ops: seq<Op>)
    ensures Conflicts(files, ops) != [] ==> Applied(files, ops) == files
    ensures Conflicts(files, ops) == [] <==>
            && (forall k :: 0 <= k < |ops| ==> ops[k].file in files)
            && (forall f :: f in files ==> Smooth(Normal(files[f]), OpsOf(ops, f)))
    ensures Conflicts(files, ops) == [] ==>
            && Applied(files, ops).Keys == files.Keys
            && (forall f :: f in files ==>
                  Applied(files, ops)[f] == if Declares(ops, f) then FileFold(files, ops, f) else files[f])
  {
    ConflictsIs(files, ops);
    var w := Turns(files, Idle, ops);
    forall f ensures (f in w.cache <==> f in files && Declares(ops, f))
                     && (f in w.cache ==> w.cache[f] == FileFold(files, ops, f)) {
      TurnsFold(files, Idle, ops, f);
    }
    hide Turns, Fold, OpsOf, Normal, Smooth, Declares;
  }

  lemma ConflictsIs(files: Files, ops: seq<Op>)
    ensures Conflicts(files, ops) == [] <==>
            && (forall k :: 0 <= k < |ops| ==> ops[k].file in files)
            && (forall f :: f in files ==> Smooth(Normal(files[f]), OpsOf(ops, f)))
  {
    TurnsConflicts(files, Idle, ops);
    hide Turns, OpsOf, Normal, Smooth;
    assert |Conflicts(files, ops)| == 0 <==> Conflicts(files, ops) == [];
    assert forall f :: f in files ==> Current(files, Idle, f) == Normal(files[f]);
  }

  // ---------------------------------------------------------------- verify

  datatype Failing = NoFile | AnchorLeft | NoAnchor

  function CheckOp(files: Files, op: Op): Option<Failing> {
    if op.file !in files then Some(NoFile)
    else
      var text := Normal(files[op.file]);
      if Contains(text, op.applied) then None
      else if FindOcc(text, op.anchor, op.occ).Some? then Some(AnchorLeft)
      else Some(NoAnchor)
  }

  /** `verify_ops`: the patches that are not in, each with the reason. */
  function Failures(files: Files, ops: seq<Op>): seq<(string, Failing)> {
    if ops == [] then []
    else
      var c := CheckOp(files, ops[0]);
      (if c.Some? then [(ops[0].id, c.value)] else []) + Failures(files, ops[1..])
  }

  /** What verify says of a patch that is not in: whether its file is missing, or it could still be
      applied, or its anchor is gone. */
  lemma FailingReasons(files: Files, op: Op)
    requires op.occ > 0
    ensures CheckOp(files, op) == Some(NoFile) <==> op.file !in files
    ensures op.file in files ==>
              var text := Normal(files[op.file]);
              && (CheckOp(files, op) == Some(AnchorLeft) <==>
                    !Contains(text, op.applied) && Count(text, op.anchor, 0, |text| + 1) >= op.occ)
              && (CheckOp(files, op) == Some(NoAnchor) <==> Edit(text, op) == Conflict(AnchorGone))
  {
    if op.file in files {
      FindOccIsNth(Normal(files[op.file]), op.anchor, op.occ, 0);
      EditOutcomes(Normal(files[op.file]), op);
    }
  }

  lemma {:induction false} NoFailuresIs(files: Files, ops: seq<Op>)
    ensures Failures(files, ops) == [] <==> forall k :: 0 <= k < |ops| ==> CheckOp(files, ops[k]).None?
  {
    if ops != [] {
      NoFailuresIs(files, ops[1..]);
      assert forall k :: 0 < k < |ops| ==> ops[k] == ops[1..][k - 1];
      if Failures(files, ops[1..]) == [] && CheckOp(files, ops[0]).None? {
        forall k | 0 <= k < |ops| ensures CheckOp(files, ops[k]).None? {
          if k > 0 { assert CheckOp(files, ops[1..][k - 1]).None?; }
        }
      }
    }
  }

  lemma {:induction false} OpsOfHas(ops: seq<Op>, f: Path, k: nat)
    requires k < |ops| && ops[k].file == f
    ensures exists j :: 0 <= j < |OpsOf(ops, f)| && OpsOf(ops, f)[j] == ops[k]
  {
    if k == 0 {
      assert OpsOf(ops, f)[0] == ops[0];
    } else {
      OpsOfHas(ops[1..], f, k - 1);
      var j :| 0 <= j < |OpsOf(ops[1..], f)| && OpsOf(ops[1..], f)[j] == ops[k];
      var shift := if ops[0].file == f then 1 else 0;
      assert OpsOf(ops, f)[j + shift] == ops[k];
    }
  }

  lemma {:induction false} OpsOfOnly(ops: seq<Op>, f: Path, j: nat)
    requires j < |OpsOf(ops, f)|
    ensures exists k :: 0 <= k < |ops| && ops[k] == OpsOf(ops, f)[j] && ops[k].file == f
  {
    if ops[0].file == f && j == 0 {
      assert ops[0] == OpsOf(ops, f)[0];
    } else {
      var shift := if ops[0].file == f then 1 else 0;
      OpsOfOnly(ops[1..], f, j - shift);
      var k :| 0 <= k < |ops[1..]| && ops[1..][k] == OpsOf(ops[1..], f)[j - shift] && ops[1..][k].file == f;
      assert ops[k + 1] == OpsOf(ops, f)[j];
    }
  }

  /** Reading leaves every patched text as it is. */
  predicate ReadsBack(files: Files, ops: seq<Op>) {
    forall f :: f in files && Declares(ops, f) ==> Normal(FileFold(files, ops, f)) == FileFold(files, ops, f)
  }

  /** ... and no edit destroys an earlier patch's marker. */
  ghost predicate KeepsMarkers(files: Files, ops: seq<Op>) {
    ReadsBack(files, ops) &&
    forall f :: f in files && Declares(ops, f) ==> SparesEarlier(Normal(files[f]), OpsOf(ops, f), {})
  }

  /** Every patched text holds the markers of its patches. */
  predicate AllMarked(files: Files, ops: seq<Op>) {
    forall k :: 0 <= k < |ops| && ops[k].file in files ==> Contains(FileFold(files, ops, ops[k].file), ops[k].applied)
  }

  /** Every marker is in the fold. */
  lemma MarkerIsIn(files: Files, ops: seq<Op>, k: nat)
    requires Conflicts(files, ops) == [] && KeepsMarkers(files, ops) && k < |ops|
    ensures ops[k].file in files && Contains(FileFold(files, ops, ops[k].file), ops[k].applied)
  {
    var f := ops[k].file;
    ApplyIs(files, ops);
    assert Declares(ops, f);
    OpsOfHas(ops, f, k);
    var j :| 0 <= j < |OpsOf(ops, f)| && OpsOf(ops, f)[j] == ops[k];
    MarkersSurvive(Normal(files[f]), OpsOf(ops, f), {}, ops[k].applied);
  }

  /** Nothing conflicts, nothing is inserted, and no file changes. */
  predicate Idles(files: Files, ops: seq<Op>) {
    Turns(files, Idle, ops).conflicts == [] && Turns(files, Idle, ops).applied == [] && Applied(files, ops) == files
  }

  /** The loop inserts nothing exactly when every marker is in already. */
  lemma {:induction false} TurnsIdle(files: Files, w: Work, ops: seq<Op>)
    requires CacheFrom(files, w) && forall k :: 0 <= k < |ops| ==> ops[k].file in files
    ensures var r := Turns(files, w, ops);
            |r.applied| >= |w.applied| && |r.conflicts| >= |w.conflicts|
    ensures var r := Turns(files, w, ops);
            |r.applied| == |w.applied| && |r.conflicts| == |w.conflicts|
            <==> forall k :: 0 <= k < |ops| ==> Contains(Current(files, w, ops[k].file), ops[k].applied)
    decreases |ops|
  {
    if ops != [] {
      var next := Turn(files, w, ops[0]);
      assert forall k :: 0 < k < |ops| ==> ops[k] == ops[1..][k - 1];
      assert forall k :: 0 <= k < |ops[1..]| ==> ops[1..][k] == ops[k + 1];
      TurnsIdle(files, next, ops[1..]);
      if Contains(Current(files, w, ops[0].file), ops[0].applied) {
        forall k | 0 <= k < |ops| ensures Current(files, next, ops[k].file) == Current(files, w, ops[k].file) {
          TurnIs(files, w, ops[0], ops[k].file);
        }
      }
    }
  }

  /** When a second apply is idle, exactly: reading leaves the patched texts as they are, and each still
      holds the markers of all its patches. */
  lemma SecondApplyIdlesExactlyWhen(files: Files, ops: seq<Op>)
    requires Conflicts(files, ops) == []
    ensures Idles(Applied(files, ops), ops) <==> ReadsBack(files, ops) && AllMarked(files, ops)
  {
    var after := Applied(files, ops);
    ApplyIs(files, ops);
    TurnsIdle(after, Idle, ops);
    forall k | 0 <= k < |ops| ensures ops[k].file in after && after[ops[k].file] == FileFold(files, ops, ops[k].file) {
      assert Declares(ops, ops[k].file);
    }
    hide FileFold, Turns, Contains, Normal;
    if Idles(after, ops) {
      IdleReadsBack(files, ops);
    } else if ReadsBack(files, ops) && AllMarked(files, ops) {
      ReadsBackIdles(files, ops);
    }
  }

  /** What an idle apply writes is what it read. */
  lemma IdleIs(files: Files, ops: seq<Op>, f: Path)
    requires Turns(files, Idle, ops).applied == [] && Turns(files, Idle, ops).conflicts == []
    requires f in files && Declares(ops, f)
    ensures f in Applied(files, ops) && Applied(files, ops)[f] == Normal(files[f])
  {
    ApplyIs(files, ops);
    TurnsIdle(files, Idle, ops);
    forall j | 0 <= j < |OpsOf(ops, f)| ensures Contains(Normal(files[f]), OpsOf(ops, f)[j].applied) {
      OpsOfOnly(ops, f, j);
      var k :| 0 <= k < |ops| && ops[k] == OpsOf(ops, f)[j] && ops[k].file == f;
      assert Contains(Current(files, Idle, f), ops[k].applied);
    }
    NothingLeft(Normal(files[f]), OpsOf(ops, f));
  }

  lemma IdleReadsBack(files: Files, ops: seq<Op>)
    requires Conflicts(files, ops) == [] && Idles(Applied(files, ops), ops)
    ensures ReadsBack(files, ops) && AllMarked(files, ops)
  {
    var after := Applied(files, ops);
    ApplyIs(files, ops);
    TurnsIdle(after, Idle, ops);
    forall f | f in files && Declares(ops, f) ensures Normal(FileFold(files, ops, f)) == FileFold(files, ops, f) {
      IdleIs(after, ops, f);
    }
    forall k | 0 <= k < |ops| ensures Contains(FileFold(files, ops, ops[k].file), ops[k].applied) {
      assert Declares(ops, ops[k].file);
      assert Contains(Current(after, Idle, ops[k].file), ops[k].applied);
    }
  }

  lemma ReadsBackIdles(files: Files, ops: seq<Op>)
    requires Conflicts(files, ops) == [] && ReadsBack(files, ops) && AllMarked(files, ops)
    ensures Idles(Applied(files, ops), ops)
  {
    var after := Applied(files, ops);
    ApplyIs(files, ops);
    forall k | 0 <= k < |ops| ensures Contains(Current(after, Idle, ops[k].file), ops[k].applied) {
      assert Declares(ops, ops[k].file);
    }
    TurnsIdle(after, Idle, ops);
    forall f | f in after && Declares(ops, f) ensures Applied(after, ops)[f] == after[f] {
      IdleIs(after, ops, f);
    }
    ApplyIs(after, ops);
    hide Turns, Fold, OpsOf, Normal, Smooth, Contains;
    assert Applied(after, ops) == after;
  }

  /** Each half of that condition can fail alone: this file is read as less every time. */
  lemma SecondApplyCanChange()
    ensures var files := map["f" := "\r\r\r\nM"];
            var ops := [Op("1", "f", "M", "a", "M", After, 1)];
            && Conflicts(files, ops) == [] && AllMarked(files, ops)
            && Applied(files, ops)["f"] == "\r\r\nM"
            && Applied(Applied(files, ops), ops)["f"] == "\r\nM"
  {
    var op := Op("1", "f", "M", "a", "M", After, 1);
    ReadOnce("\r\r\r\nM", "\r\r\nM", op);
    ReadOnce("\r\r\nM", "\r\nM", op);
  }

  lemma ReadsLess(text: Text, less: Text)
    requires (text == "\r\r\r\nM" && less == "\r\r\nM") || (text == "\r\r\nM" && less == "\r\nM")
    ensures Normal(text) == less
  {
    assert "\r\nM"[2..] == "M" && Normal("\r\nM") == "\nM";
    assert "\r\r\nM"[1..] == "\r\nM" && Normal("\r\r\nM") == "\r\nM";
    assert "\r\r\r\nM"[1..] == "\r\r\nM" && Normal("\r\r\r\nM") == "\r\r\nM";
  }

  lemma ReadOnce(text: Text, less: Text, op: Op)
    requires (text == "\r\r\r\nM" && less == "\r\r\nM") || (text == "\r\r\nM" && less == "\r\nM")
    requires op == Op("1", "f", "M", "a", "M", After, 1)
    ensures var files := map["f" := text];
            Conflicts(files, [op]) == [] && AllMarked(files, [op]) && Applied(files, [op]) == map["f" := less]
  {
    var files := map["f" := text];
    ReadsLess(text, less);
    assert At(less, "M", |less| - 1);
    ContainsIs(less, "M");
    assert Edit(less, op) == InPlace;
    hide Normal, Edit, Contains;
    assert Turn(files, Idle, op) == Work(map["f" := less], [], []);
    assert [op][1..] == [];
    assert Turns(files, Idle, [op]) == Turns(files, Work(map["f" := less], [], []), []);
    assert OpsOf([op], "f") == [op];
    assert FileFold(files, [op], "f") == less by { assert Fold(less, [op]) == Fold(less, [op][1..]); }
    assert files + map["f" := less] == map["f" := less];
  }

  /** The tool's promise: after an apply that went through, verify finds every patch in, and applying
      again changes nothing - if no patch overwrites or splits an earlier one's marker. */
  lemma ApplyThenVerify(files: Files, ops: seq<Op>)
    requires Conflicts(files, ops) == [] && KeepsMarkers(files, ops)
    ensures var after := Applied(files, ops);
            Failures(after, ops) == [] && Idles(after, ops)
  {
    var after := Applied(files, ops);
    ApplyIs(files, ops);
    forall k | 0 <= k < |ops| ensures CheckOp(after, ops[k]).None? {
      MarkerIsIn(files, ops, k);
      assert Declares(ops, ops[k].file);
    }
    NoFailuresIs(after, ops);
    forall k | 0 <= k < |ops| ensures Contains(FileFold(files, ops, ops[k].file), ops[k].applied) {
      MarkerIsIn(files, ops, k);
    }
    SecondApplyIdlesExactlyWhen(files, ops);
  }

  lemma {:induction false} FoldNoReturn(text: Text, ops: seq<Op>)
    requires NoReturn(text) && forall k :: 0 <= k < |ops| ==> NoReturn(ops[k].text)
    ensures NoReturn(Fold(text, ops))
    decreases |ops|
  {
    if ops != [] {
      FoundAt(text, ops[0]);
      FoldNoReturn(Edits(text, ops[0]), ops[1..]);
    }
  }

  /** In particular without carriage returns in the texts that are read and in the patches: then the
      patched texts read back as they are. */
  lemma NoReturnsReadBack(files: Files, ops: seq<Op>)
    requires forall f :: f in files && Declares(ops, f) ==> NoReturn(Normal(files[f]))
    requires forall k :: 0 <= k < |ops| ==> NoReturn(ops[k].text)
    ensures ReadsBack(files, ops)
  {
    forall f | f in files && Declares(ops, f) ensures Normal(FileFold(files, ops, f)) == FileFold(files, ops, f) {
      forall j | 0 <= j < |OpsOf(ops, f)| ensures NoReturn(OpsOf(ops, f)[j].text) {
        OpsOfOnly(ops, f, j);
      }
      FoldNoReturn(Normal(files[f]), OpsOf(ops, f));
      NormalFixesExactlyWhen(FileFold(files, ops, f));
    }
  }

  /** The proviso matters: a patch that replaces text holding an earlier marker applies without a
      conflict, and then verify fails and a second apply conflicts. */
  lemma OverwrittenMarkerFails()
    ensures var ops := [Op("1", "f", "X", "a", "X", Replace, 1), Op("2", "f", "Y", "X", "Y", Replace, 1)];
            var files := map["f" := "ab"];
            && Conflicts(files, ops) == []
            && Applied(files, ops)["f"] == "Yb"
            && Failures(Applied(files, ops), ops) == [("1", NoAnchor)]
            && Conflicts(Applied(files, ops), ops) == [Problem("1", AnchorGone)]
  {
    var o1, o2 := Op("1", "f", "X", "a", "X", Replace, 1), Op("2", "f", "Y", "X", "Y", Replace, 1);
    var files := map["f" := "ab"];
    TwoTurns(o1, o2);
    AgainConflicts(o1, o2);
    EditAgain(o1, o2);
    hide Turns, Contains, FindOcc, Normal;
    assert files + map["f" := "Yb"] == map["f" := "Yb"];
    assert Failures(map["f" := "Yb"], [o1, o2][1..]) == [] by { assert [o1, o2][1..] == [o2]; }
  }

  lemma TwoTurns(o1: Op, o2: Op)
    requires o1 == Op("1", "f", "X", "a", "X", Replace, 1) && o2 == Op("2", "f", "Y", "X", "Y", Replace, 1)
    ensures Turns(map["f" := "ab"], Idle, [o1, o2]) == Work(map["f" := "Yb"], ["1", "2"], [])
  {
    var files := map["f" := "ab"];
    EditFirst(o1);
    EditSecond(o2);
    hide Edit, Normal;
    var w1, w2 := Work(map["f" := "Xb"], ["1"], []), Work(map["f" := "Yb"], ["1", "2"], []);
    assert Turn(files, Idle, o1) == w1;
    assert Turn(files, w1, o2) == w2;
    assert [o1, o2][1..] == [o2] && [o2][1..] == [];
    assert Turns(files, Idle, [o1, o2]) == Turns(files, w1, [o2]);
    assert Turns(files, w1, [o2]) == Turns(files, w2, []);
  }

  lemma AgainConflicts(o1: Op, o2: Op)
    requires o1 == Op("1", "f", "X", "a", "X", Replace, 1) && o2 == Op("2", "f", "Y", "X", "Y", Replace, 1)
    ensures Turns(map["f" := "Yb"], Idle, [o1, o2]).conflicts == [Problem("1", AnchorGone)]
  {
    var files := map["f" := "Yb"];
    EditAgain(o1, o2);
    hide Edit, Normal;
    var w := Work(map["f" := "Yb"], [], [Problem("1", AnchorGone)]);
    assert Turn(files, Idle, o1) == w;
    assert Turn(files, w, o2) == w;
    assert [o1, o2][1..] == [o2] && [o2][1..] == [];
    assert Turns(files, Idle, [o1, o2]) == Turns(files, w, [o2]);
    assert Turns(files, w, [o2]) == Turns(files, w, []);
  }

  lemma EditFirst(o: Op)
    requires o == Op("1", "f", "X", "a", "X", Replace, 1)
    ensures Normal("ab") == "ab" && Edit("ab", o) == Edited("Xb")
  {
    assert At("ab", "a", 0);
    assert "" + "X" + "ab"[1..] == "Xb";
    assert At("Xb", "X", 0);
    assert !At("ab", "X", 0) && !At("ab", "X", 1) && !At("ab", "X", 2);
    ContainsIs("ab", "X");
  }

  lemma EditSecond(o: Op)
    requires o == Op("2", "f", "Y", "X", "Y", Replace, 1)
    ensures Edit("Xb", o) == Edited("Yb")
  {
    assert At("Xb", "X", 0);
    assert "" + "Y" + "Xb"[1..] == "Yb";
    assert At("Yb", "Y", 0);
    assert !At("Xb", "Y", 0) && !At("Xb", "Y", 1) && !At("Xb", "Y", 2);
    ContainsIs("Xb", "Y");
  }

  lemma EditAgain(o1: Op, o2: Op)
    requires o1 == Op("1", "f", "X", "a", "X", Replace, 1) && o2 == Op("2", "f", "Y", "X", "Y", Replace, 1)
    ensures Normal("Yb") == "Yb" && Edit("Yb", o1) == Conflict(AnchorGone) && Edit("Yb", o2) == InPlace
    ensures FindOcc("Yb", "a", 1).None? && !Contains("Yb", "X") && Contains("Yb", "Y")
  {
    assert At("Yb", "Y", 0);
    assert !At("Yb", "X", 0) && !At("Yb", "X", 1) && !At("Yb", "X", 2);
    assert !At("Yb", "a", 0) && !At("Yb", "a", 1) && !At("Yb", "a", 2);
    ContainsIs("Yb", "X");
    FindIs("Yb", "a", 0);
  }

  // ---------------------------------------------------------------- tree-check

  datatype Finding = DoesNotApply(problem: Problem) | Missing(f: Path) | Extra(f: Path) | Drift(f: Path) | Undeclared(f: Path)

  predicate StartsWith(text: Text, prefix: string) {
    At(text, prefix, 0)
  }

  predicate SameContent(a: Text, b: Text, f: Path) {
    a == b || (!StartsWith(f, "test-data/") && Normal(a) == Normal(b))
  }

  /** A difference in line ends alone counts exactly under test-data. */
  lemma EolDifference(f: Path)
    ensures SameContent("a\r\n", "a\n", f) <==> !StartsWith(f, "test-data/")
    ensures !SameContent("a\r", "a\n", f) && !SameContent("a", "b", f)
  {
    assert "a\r\n" == "a" + "\r\n" + "" && "a\n" == "a" + "\n" + "";
    NormalStep("a", "");
    NormalFixesExactlyWhen("a\n");
    NormalFixesExactlyWhen("a\r");
    NormalFixesExactlyWhen("a");
    NormalFixesExactlyWhen("b");
    assert "a\r\n" != "a\n" && "a\r"[1] != "a\n"[1] && "a"[0] != "b"[0];
  }

  /** What tree-check says about one path that git does not ignore. */
  function Judge(work: Files, core: Files, ops: seq<Op>, f: Path): Option<Finding> {
    if f !in core then Some(Missing(f))
    else if f !in work then Some(Extra(f))
    else if SameContent(work[f], core[f], f) then None
    else if Declares(ops, f) then Some(Drift(f))
    else Some(Undeclared(f))
  }

  /** The tree is pristine upstream plus the quilt. */
  predicate Faithful(upstream: Files, core: Files, ignored: set<Path>, ops: seq<Op>) {
    var work := Applied(upstream, ops);
    && Conflicts(upstream, ops) == []
    && (forall f :: f in work.Keys + core.Keys && f !in ignored ==>
          f in work && f in core && SameContent(work[f], core[f], f))
  }

  /** `tree_check`; `paths` is the sorted listing of both trees. */
  method TreeCheck(upstream: Files, core: Files, ignored: set<Path>, ops: seq<Op>, paths: seq<Path>)
    returns (problems: seq<Finding>)
    requires forall f :: f in paths <==> f in Applied(upstream, ops).Keys + core.Keys && f !in ignored
    ensures problems == [] <==> Faithful(upstream, core, ignored, ops)
    ensures forall x :: x in problems && !x.DoesNotApply? ==>
              x.f in paths && Judge(Applied(upstream, ops), core, ops, x.f) == Some(x)
    ensures Conflicts(upstream, ops) == [] ==> forall f :: f !in ignored ==>
              var work := Applied(upstream, ops);
              && (Missing(f) in problems <==> f in work && f !in core)
              && (Extra(f) in problems <==> f in core && f !in work)
              && (Drift(f) in problems <==>
                    f in core && f in work && !SameContent(work[f], core[f], f) && Declares(ops, f))
              && (Undeclared(f) in problems <==>
                    f in core && f in work && !SameContent(work[f], core[f], f) && !Declares(ops, f))
    ensures Conflicts(upstream, ops) == [] ==> forall f :: f in paths && Judge(Applied(upstream, ops), core, ops, f).Some? ==>
              Judge(Applied(upstream, ops), core, ops, f).value in problems
    ensures var conflicts := Conflicts(upstream, ops);
            conflicts != [] ==> |problems| == |conflicts| && forall k :: 0 <= k < |problems| ==> problems[k] == DoesNotApply(conflicts[k])
  {
    problems := [];
    var conflicts := Conflicts(upstream, ops);
    if conflicts != [] {
      for k := 0 to |conflicts|
        invariant |problems| == k && forall j :: 0 <= j < k ==> problems[j] == DoesNotApply(conflicts[j])
      {
        problems := problems + [DoesNotApply(conflicts[k])];
      }
      return;
    }
    var work := Applied(upstream, ops);
    for k := 0 to |paths|
      invariant problems == [] <==> forall j :: 0 <= j < k ==> Judge(work, core, ops, paths[j]).None?
      invariant forall x :: x in problems ==> !x.DoesNotApply? && x.f in paths && Judge(work, core, ops, x.f) == Some(x)
      invariant forall j :: 0 <= j < k && Judge(work, core, ops, paths[j]).Some? ==>
                  Judge(work, core, ops, paths[j]).value in problems
    {
      var c := Judge(work, core, ops, paths[k]);
      if c.Some? {
        problems := problems + [c.value];
      }
    }
  }

  /** What a clean tree-check says about the markers, exactly: the vendored tree then passes verify if
      and only if each marker is in its file's patched text as it is read back. */
  lemma CleanTreeVerifiesExactlyWhen(upstream: Files, core: Files, ignored: set<Path>, ops: seq<Op>)
    requires Faithful(upstream, core, ignored, ops)
    requires forall k :: 0 <= k < |ops| ==> ops[k].file !in ignored
    ensures forall k :: 0 <= k < |ops| ==> ops[k].file in upstream
    ensures Failures(core, ops) == []
            <==> forall k :: 0 <= k < |ops| ==> Contains(Normal(FileFold(upstream, ops, ops[k].file)), ops[k].applied)
  {
    ApplyIs(upstream, ops);
    var work := Applied(upstream, ops);
    NoFailuresIs(core, ops);
    forall k | 0 <= k < |ops|
      ensures CheckOp(core, ops[k]).None? <==> Contains(Normal(FileFold(upstream, ops, ops[k].file)), ops[k].applied) {
      var f := ops[k].file;
      assert Declares(ops, f) && f in work.Keys + core.Keys;
      assert Normal(core[f]) == Normal(work[f]);
    }
  }

  /** So a clean tree-check proves the patches in, if they keep one another's markers. */
  lemma CleanTreeVerifies(upstream: Files, core: Files, ignored: set<Path>, ops: seq<Op>)
    requires Faithful(upstream, core, ignored, ops) && KeepsMarkers(upstream, ops)
    requires forall k :: 0 <= k < |ops| ==> ops[k].file !in ignored
    ensures Failures(core, ops) == []
  {
    CleanTreeVerifiesExactlyWhen(upstream, core, ignored, ops);
    forall k | 0 <= k < |ops| ensures Contains(Normal(FileFold(upstream, ops, ops[k].file)), ops[k].applied) {
      MarkerIsIn(upstream, ops, k);
      assert Declares(ops, ops[k].file);
    }
  }

  // ---------------------------------------------------------------- lint

  predicate Complete(op: Op) {
    op.id != "" && op.file != "" && op.applied != "" && op.anchor != "" && op.text != ""
  }

  predicate LintsAlone(op: Op) {
    Complete(op) && Contains(op.text, op.applied) && !Contains(op.anchor, op.applied)
  }

  predicate LintClean(ops: seq<Op>) {
    && (forall k :: 0 <= k < |ops| ==> LintsAlone(ops[k]))
    && (forall j, k :: 0 <= j < k < |ops| ==>
          ops[j].id != ops[k].id && !(ops[j].file == ops[k].file && ops[j].applied == ops[k].applied))
  }

  datatype LintProblem = Incomplete(id: string) | DuplicateId(id: string) | MarkerNotInText(id: string)
    | MarkerInAnchor(id: string) | SharedMarker(id: string)

  /** `lint`; the place is a type here, so it cannot be bad. */
  method Lint(ops: seq<Op>) returns (problems: seq<LintProblem>)
    ensures problems == [] <==> LintClean(ops)
  {
    problems := [];
    var ids: set<string> := {};
    var markers: set<(Path, string)> := {};
    for k := 0 to |ops|
      invariant ids == set j | 0 <= j < k :: ops[j].id
      invariant markers == set j | 0 <= j < k :: (ops[j].file, ops[j].applied)
      invariant problems == [] <==> LintClean(ops[..k])
    {
      var op := ops[k];
      ghost var before := problems;
      if !Complete(op) {
        problems := problems + [Incomplete(op.id)];
      }
      if op.id in ids {
        problems := problems + [DuplicateId(op.id)];
      }
      ids := ids + {op.id};
      if !Contains(op.text, op.applied) {
        problems := problems + [MarkerNotInText(op.id)];
      }
      if Contains(op.anchor, op.applied) {
        problems := problems + [MarkerInAnchor(op.id)];
      }
      if (op.file, op.applied) in markers {
        problems := problems + [SharedMarker(op.id)];
      }
      markers := markers + {(op.file, op.applied)};
      LintSnoc(ops, k);
    }
    assert ops[..|ops|] == ops;
  }

  lemma LintSnoc(ops: seq<Op>, k: nat)
    requires k < |ops|
    ensures LintClean(ops[..k + 1]) <==>
            && LintClean(ops[..k]) && LintsAlone(ops[k])
            && forall j :: 0 <= j < k ==> ops[j].id != ops[k].id && (ops[j].file, ops[j].applied) != (ops[k].file, ops[k].applied)
  {
    var a, b := ops[..k], ops[..k + 1];
    assert forall j :: 0 <= j < k ==> a[j] == b[j] == ops[j];
    assert b[k] == ops[k];
  }

  /** After lint no apply stumbles over a patch without its marker: every conflict is a missing file or
      an anchor that is gone. */
  lemma {:induction false} LintedConflicts(files: Files, w: Work, ops: seq<Op>)
    requires forall k :: 0 <= k < |ops| ==> LintsAlone(ops[k])
    requires forall x :: x in w.conflicts ==> x.reason != MarkerAbsent
    ensures forall x :: x in Turns(files, w, ops).conflicts ==> x.reason != MarkerAbsent
    decreases |ops|
  {
    if ops != [] {
      assert LintsAlone(ops[0]);
      forall text ensures Edit(text, ops[0]) != Conflict(MarkerAbsent) {
        MarkerNeverAbsent(text, ops[0]);
      }
      LintedConflicts(files, Turn(files, w, ops[0]), ops[1..]);
    }
  }

  // ---------------------------------------------------------------- the tool on a tree

  class Tree {
    var files: Files

    constructor (files: Files)
      ensures this.files == files
    {
      this.files := files;
    }

    /** `apply_ops`: the loop over the patches with its cache, and the write at the end. */
    method ApplyOps(ops: seq<Op>) returns (applied: seq<string>, conflicts: seq<Problem>)
      modifies this
      ensures files == Applied(old(files), ops) && conflicts == Conflicts(old(files), ops)
      ensures applied == Turns(old(files), Idle, ops).applied
    {
      var cache: Files := map[];
      applied, conflicts := [], [];
      var k := 0;
      while k < |ops|
        invariant 0 <= k <= |ops| && files == old(files)
        invariant Turns(files, Work(cache, applied, conflicts), ops[k..]) == Turns(files, Idle, ops)
      {
        var op := ops[k];
        assert ops[k..][0] == op && ops[k..][1..] == ops[k + 1..];
        ghost var w := Work(cache, applied, conflicts);
        k := k + 1;
        if op.file !in cache && op.file !in files {
          conflicts := conflicts + [Problem(op.id, FileMissing)];
          assert Turn(files, w, op) == Work(cache, applied, conflicts);
          continue;
        }
        var text := if op.file in cache then cache[op.file] else Normal(files[op.file]);
        cache := cache[op.file := text];
        if Contains(text, op.applied) {
          assert Turn(files, w, op) == Work(cache, applied, conflicts);
          continue;
        }
        var idx := FindOcc(text, op.anchor, op.occ);
        if idx.None? {
          conflicts := conflicts + [Problem(op.id, AnchorGone)];
          assert Turn(files, w, op) == Work(cache, applied, conflicts);
          continue;
        }
        FoundAt(text, op);
        var after := Spliced(text, op, idx.value);
        if !Contains(after, op.applied) {
          conflicts := conflicts + [Problem(op.id, MarkerAbsent)];
          assert Turn(files, w, op) == Work(cache, applied, conflicts);
          continue;
        }
        cache := cache[op.file := after];
        applied := applied + [op.id];
        assert Turn(files, w, op) == Work(cache, applied, conflicts);
      }
      assert ops[k..] == [];
      if conflicts == [] {
        files := files + cache;
      }
    }

    /** `verify_ops`. */
    method VerifyOps(ops: seq<Op>) returns (failures: seq<(string, Failing)>)
      ensures failures == Failures(files, ops)
    {
      hide CheckOp;
      failures := [];
      var k := 0;
      while k < |ops|
        invariant 0 <= k <= |ops|
        invariant failures + Failures(files, ops[k..]) == Failures(files, ops)
      {
        assert ops[k..][0] == ops[k] && ops[k..][1..] == ops[k + 1..];
        var c := CheckOp(files, ops[k]);
        ghost var before := failures;
        if c.Some? {
          failures := failures + [(ops[k].id, c.value)];
          assert before + ([(ops[k].id, c.value)] + Failures(files, ops[k + 1..])) == failures + Failures(files, ops[k + 1..]);
        } else {
          assert [] + Failures(files, ops[k + 1..]) == Failures(files, ops[k + 1..]);
        }
        k := k + 1;
      }
      assert ops[k..] == [];
    }
  }
}
