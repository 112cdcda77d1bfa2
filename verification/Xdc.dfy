/** Recognising a webxdc archive (`isValidXdc` in app/js/builtin-xdc.js): a walk over the central
    directory of a zip, against sections 4.3.12 and 4.3.16 of the PKWARE ZIP APPNOTE. */
module Xdc {
  import opened Binary
  import opened Options

  const LOCAL_SIG: Bytes := [0x50, 0x4b, 3, 4]
  const ENTRY_SIG: Bytes := [0x50, 0x4b, 1, 2]
  const EOCD_SIG: Bytes := [0x50, 0x4b, 5, 6]
  const INDEX_HTML: Bytes := [105, 110, 100, 101, 120, 46, 104, 116, 109, 108]
  const EOCD_SIZE := 22
  const ENTRY_SIZE := 46

  predicate At(b: Bytes, i: nat, x: Bytes) {
    i + |x| <= |b| && b[i..i + |x|] == x
  }

  /** Little-endian numbers. */
  function U16(b: Bytes, i: nat): nat
    requires i + 2 <= |b|
  {
    b[i] as int + 256 * (b[i + 1] as int)
  }

  function U32(b: Bytes, i: nat): nat
    requires i + 4 <= |b|
  {
    U16(b, i) + 65536 * U16(b, i + 2)
  }

  /** The last end-of-directory signature at or before i, not before `low`. */
  function LastEocd(b: Bytes, i: nat, low: nat): Option<nat>
    decreases i
  {
    if i < low then None
    else if At(b, i, EOCD_SIG) then Some(i)
    else if i == 0 then None
    else LastEocd(b, i - 1, low)
  }

  /** The walk over the directory from p on: does an entry before `eocd` carry the name? */
  function Walk(b: Bytes, p: nat, eocd: nat): bool
    requires eocd <= |b|
    decreases eocd - p
  {
    if p + ENTRY_SIZE > eocd || !At(b, p, ENTRY_SIG) then false
    else
      var n := U16(b, p + 28);
      if p + ENTRY_SIZE + n > |b| then false
      else if At(b, p + ENTRY_SIZE, INDEX_HTML) && n == |INDEX_HTML| then true
      else Walk(b, p + ENTRY_SIZE + n + U16(b, p + 30) + U16(b, p + 32), eocd)
  }

  function Low(b: Bytes): nat {
    if |b| >= EOCD_SIZE + 65535 then |b| - EOCD_SIZE - 65535 else 0
  }

  /** What the program computes. */
  function Valid(b: Bytes): bool {
    if |b| < 30 || !At(b, 0, LOCAL_SIG) then false
    else
      var eocd := LastEocd(b, |b| - EOCD_SIZE, Low(b));
      eocd.Some? && eocd.value + EOCD_SIZE <= |b| && Walk(b, U32(b, eocd.value + 16), eocd.value)
  }

  lemma {:induction false} LastEocdAt(b: Bytes, i: nat, low: nat, e: nat)
    requires low <= e <= i && At(b, e, EOCD_SIG) && NoneIn(b, e + 1, i)
    ensures LastEocd(b, i, low) == Some(e)
    decreases i
  {
    if e < i {
      assert !At(b, i, EOCD_SIG);
      LastEocdAt(b, i - 1, low, e);
    }
  }

  predicate NoneIn(b: Bytes, first: nat, last: nat) {
    forall j :: first <= j <= last ==> !At(b, j, EOCD_SIG)
  }

  lemma Four(b: Bytes, i: nat, x: Bytes)
    requires i + 4 <= |b| && |x| == 4
    ensures At(b, i, x) <==> b[i] == x[0] && b[i + 1] == x[1] && b[i + 2] == x[2] && b[i + 3] == x[3]
  {
    if b[i] == x[0] && b[i + 1] == x[1] && b[i + 2] == x[2] && b[i + 3] == x[3] {
      assert b[i..i + 4] == x;
    } else {
      assert b[i..i + 4][0] == b[i] && b[i..i + 4][1] == b[i + 1] && b[i..i + 4][2] == b[i + 2] && b[i..i + 4][3] == b[i + 3];
    }
  }

  /** The program: the backward scan, the walk and the comparison of names, ending and in bounds on any
      bytes at all. */
  method IsValidXdc(bytes: Bytes) returns (valid: bool)
    ensures valid == Valid(bytes)
  {
    if |bytes| < 30 {
      return false;
    }
    Four(bytes, 0, LOCAL_SIG);
    if bytes[0] != 0x50 || bytes[1] != 0x4b || bytes[2] != 3 || bytes[3] != 4 {
      return false;
    }
    var eocd := FindEocd(bytes);
    if eocd < 0 {
      return false;
    }
    valid := WalkDirectory(bytes, U32(bytes, eocd + 16), eocd);
  }

  method FindEocd(bytes: Bytes) returns (eocd: int)
    requires |bytes| >= 30
    ensures var e := LastEocd(bytes, |bytes| - EOCD_SIZE, Low(bytes));
            eocd == (if e.Some? then e.value else -1) && eocd + EOCD_SIZE <= |bytes|
  {
    eocd := -1;
    var i := |bytes| - EOCD_SIZE;
    while i >= Low(bytes)
      invariant -1 <= i <= |bytes| - EOCD_SIZE
      invariant LastEocd(bytes, |bytes| - EOCD_SIZE, Low(bytes))
                == if i >= 0 then LastEocd(bytes, i, Low(bytes)) else None
    {
      Four(bytes, i, EOCD_SIG);
      if bytes[i] == 0x50 && bytes[i + 1] == 0x4b && bytes[i + 2] == 5 && bytes[i + 3] == 6 {
        return i;
      }
      i := i - 1;
    }
  }

  method WalkDirectory(bytes: Bytes, start: nat, eocd: nat) returns (found: bool)
    requires eocd + EOCD_SIZE <= |bytes|
    ensures found == Walk(bytes, start, eocd)
  {
    hide U16;
    var p := start;
    while p + ENTRY_SIZE <= eocd && At(bytes, p, ENTRY_SIG)
      invariant Walk(bytes, p, eocd) == Walk(bytes, start, eocd)
      decreases eocd - p
    {
      var n, x, c := U16(bytes, p + 28), U16(bytes, p + 30), U16(bytes, p + 32);
      if p + ENTRY_SIZE + n > |bytes| {
        return false;
      }
      if n == |INDEX_HTML| {
        var ok := NameMatches(bytes, p + ENTRY_SIZE);
        if ok {
          return true;
        }
      }
      p := p + ENTRY_SIZE + n + x + c;
    }
    return false;
  }

  method NameMatches(bytes: Bytes, at: nat) returns (ok: bool)
    requires at + |INDEX_HTML| <= |bytes|
    ensures ok <==> At(bytes, at, INDEX_HTML)
  {
    ok := true;
    var k := 0;
    while k < |INDEX_HTML| && ok
      invariant 0 <= k <= |INDEX_HTML|
      invariant ok <==> bytes[at..at + k] == INDEX_HTML[..k]
      invariant !ok ==> !At(bytes, at, INDEX_HTML)
    {
      ok := bytes[at + k] == INDEX_HTML[k];
      NameStep(bytes, at, k);
      k := k + 1;
    }
  }

  lemma NameStep(b: Bytes, i: nat, k: nat)
    requires k < |INDEX_HTML| && i + |INDEX_HTML| <= |b| && b[i..i + k] == INDEX_HTML[..k]
    ensures b[i..i + k + 1] == INDEX_HTML[..k + 1] <==> b[i + k] == INDEX_HTML[k]
    ensures b[i + k] != INDEX_HTML[k] ==> !At(b, i, INDEX_HTML)
  {
    assert b[i..i + k + 1] == b[i..i + k] + [b[i + k]];
    assert INDEX_HTML[..k + 1] == INDEX_HTML[..k] + [INDEX_HTML[k]];
    assert b[i..i + |INDEX_HTML|][k] == b[i + k];
    assert b[i..i + k + 1][k] == b[i + k];
  }

  // ---------------------------------------------------------------- the archive format

  /** A central directory header (section 4.3.12): `middle` is what stands between the signature and the
      length fields, `tail` what stands between these and the name. */
  datatype Entry = Entry(middle: Bytes, tail: Bytes, name: Bytes, extra: Bytes, comment: Bytes)

  /** Local part, central directory, and the end-of-directory record (section 4.3.16) with what stands
      before its offset field, and its comment. */
  datatype Archive = Archive(locals: Bytes, entries: seq<Entry>, counts: Bytes, comment: Bytes)

  function Le2(n: nat): Bytes
    requires n < 65536
  {
    [n % 256, n / 256]
  }

  function Le4(n: nat): Bytes
    requires n < 0x1_0000_0000
  {
    Le2(n % 65536) + Le2(n / 65536)
  }

  predicate GoodEntry(e: Entry) {
    |e.middle| == 24 && |e.tail| == 12 && |e.name| < 65536 && |e.extra| < 65536 && |e.comment| < 65536
  }

  function FixedPart(e: Entry): (h: Bytes)
    requires GoodEntry(e)
    ensures |h| == ENTRY_SIZE
  {
    ENTRY_SIG + e.middle + Le2(|e.name|) + Le2(|e.extra|) + Le2(|e.comment|) + e.tail
  }

  function EncodeEntry(e: Entry): Bytes
    requires GoodEntry(e)
  {
    FixedPart(e) + e.name + e.extra + e.comment
  }

  predicate GoodEntries(es: seq<Entry>) {
    forall k :: 0 <= k < |es| ==> GoodEntry(es[k])
  }

  function EncodeEntries(es: seq<Entry>): Bytes
    requires GoodEntries(es)
  {
    if es == [] then [] else EncodeEntry(es[0]) + EncodeEntries(es[1..])
  }

  predicate GoodArchive(a: Archive) {
    && GoodEntries(a.entries) && At(a.locals, 0, LOCAL_SIG) && |a.locals| < 0x1_0000_0000
    && |a.counts| == 12 && |a.comment| < 65536
  }

  function Eocd(a: Archive): (r: Bytes)
    requires GoodArchive(a)
    ensures |r| == EOCD_SIZE + |a.comment|
  {
    EOCD_SIG + a.counts + Le4(|a.locals|) + Le2(|a.comment|) + a.comment
  }

  function EncodeArchive(a: Archive): Bytes
    requires GoodArchive(a)
  {
    a.locals + EncodeEntries(a.entries) + Eocd(a)
  }

  /** The end-of-directory signature does not occur again after the record begins. */
  predicate NoStrayEocd(a: Archive)
    requires GoodArchive(a)
  {
    NoneIn(Eocd(a), 1, |a.comment|)
  }

  predicate HasIndex(es: seq<Entry>) {
    exists k :: 0 <= k < |es| && es[k].name == INDEX_HTML
  }

  lemma Le2Reads(n: nat, b: Bytes, i: nat)
    requires n < 65536 && i + 2 <= |b| && b[i] == n % 256 && b[i + 1] == n / 256
    ensures U16(b, i) == n
  {
  }

  lemma FixedReads(e: Entry, b: Bytes, p: nat)
    requires GoodEntry(e) && At(b, p, FixedPart(e))
    ensures p + ENTRY_SIZE <= |b| && At(b, p, ENTRY_SIG)
    ensures U16(b, p + 28) == |e.name| && U16(b, p + 30) == |e.extra| && U16(b, p + 32) == |e.comment|
  {
    var h := FixedPart(e);
    assert forall k :: 0 <= k < ENTRY_SIZE ==> b[p..p + ENTRY_SIZE][k] == b[p + k] == h[k];
    assert h[28..30] == Le2(|e.name|) && h[30..32] == Le2(|e.extra|) && h[32..34] == Le2(|e.comment|);
    assert b[p + 28] == h[28] && b[p + 29] == h[29] && b[p + 30] == h[30] && b[p + 31] == h[31];
    assert b[p + 32] == h[32] && b[p + 33] == h[33];
    assert h[28] == h[28..30][0] && h[29] == h[28..30][1] && h[30] == h[30..32][0] && h[31] == h[30..32][1];
    assert h[32] == h[32..34][0] && h[33] == h[32..34][1];
    Le2Reads(|e.name|, b, p + 28);
    Le2Reads(|e.extra|, b, p + 30);
    Le2Reads(|e.comment|, b, p + 32);
    assert b[p] == h[0] && b[p + 1] == h[1] && b[p + 2] == h[2] && b[p + 3] == h[3];
    hide FixedPart;
    Four(b, p, ENTRY_SIG);
  }

  lemma Parts(b: Bytes, p: nat, x: Bytes, y: Bytes)
    requires At(b, p, x + y)
    ensures At(b, p, x) && At(b, p + |x|, y)
  {
    var xy := b[p..p + |x + y|];
    assert xy[..|x|] == x && xy[|x|..] == y;
    assert b[p..p + |x|] == xy[..|x|];
    assert b[p + |x|..p + |x| + |y|] == xy[|x|..];
  }

  lemma EntryStands(e: Entry, b: Bytes, p: nat)
    requires GoodEntry(e) && At(b, p, EncodeEntry(e))
    ensures At(b, p, FixedPart(e)) && At(b, p + ENTRY_SIZE, e.name)
    ensures |EncodeEntry(e)| == ENTRY_SIZE + |e.name| + |e.extra| + |e.comment|
  {
    assert EncodeEntry(e) == FixedPart(e) + (e.name + (e.extra + e.comment));
    Parts(b, p, FixedPart(e), e.name + (e.extra + e.comment));
    Parts(b, p + ENTRY_SIZE, e.name, e.extra + e.comment);
  }

  lemma HasIndexHead(es: seq<Entry>)
    requires es != []
    ensures HasIndex(es) <==> es[0].name == INDEX_HTML || HasIndex(es[1..])
  {
    assert forall k :: 0 < k < |es| ==> es[k] == es[1..][k - 1];
    if HasIndex(es[1..]) {
      var k :| 0 <= k < |es[1..]| && es[1..][k].name == INDEX_HTML;
      assert es[k + 1].name == INDEX_HTML;
    }
  }

  /** One entry: it has the name, or the walk goes on behind it. */
  lemma EntryWalked(e: Entry, b: Bytes, p: nat, eocd: nat)
    requires GoodEntry(e) && At(b, p, EncodeEntry(e)) && p + |EncodeEntry(e)| <= eocd <= |b|
    ensures Walk(b, p, eocd) <==> e.name == INDEX_HTML || Walk(b, p + |EncodeEntry(e)|, eocd)
  {
    EntryStands(e, b, p);
    FixedReads(e, b, p);
    hide U16, FixedPart, EncodeEntry;
    assert |e.name| == |INDEX_HTML| ==> (At(b, p + ENTRY_SIZE, INDEX_HTML) <==> e.name == INDEX_HTML);
  }

  /** The walk over the entries, when no entry follows them. */
  lemma {:induction false} WalkFinds(es: seq<Entry>, b: Bytes, p: nat, eocd: nat)
    requires GoodEntries(es) && At(b, p, EncodeEntries(es)) && p + |EncodeEntries(es)| <= eocd <= |b|
    requires !At(b, p + |EncodeEntries(es)|, ENTRY_SIG)
    ensures Walk(b, p, eocd) <==> HasIndex(es)
  {
    hide EncodeEntry, U16, HasIndex;
    if es != [] {
      Parts(b, p, EncodeEntry(es[0]), EncodeEntries(es[1..]));
      HasIndexHead(es);
      hide Walk, At;
      WalkFinds(es[1..], b, p + |EncodeEntry(es[0])|, eocd);
      EntryWalked(es[0], b, p, eocd);
    } else {
      assert !HasIndex(es) by { NoIndex(es); }
    }
  }

  lemma NoIndex(es: seq<Entry>)
    requires es == []
    ensures !HasIndex(es)
  {
  }

  lemma ArchiveStands(a: Archive)
    requires GoodArchive(a)
    ensures var b := EncodeArchive(a);
            var eocd := |a.locals| + |EncodeEntries(a.entries)|;
            && |b| == eocd + EOCD_SIZE + |a.comment|
            && At(b, 0, a.locals)
            && At(b, |a.locals|, EncodeEntries(a.entries))
            && At(b, eocd, Eocd(a))
  {
    var b := EncodeArchive(a);
    var es := EncodeEntries(a.entries);
    hide EncodeEntries, Eocd;
    assert b == a.locals + (es + Eocd(a));
    assert b[0..0 + |b|] == b;
    Parts(b, 0, a.locals, es + Eocd(a));
    Parts(b, |a.locals|, es, Eocd(a));
  }

  lemma LocalsFirst(a: Archive, b: Bytes)
    requires GoodArchive(a) && At(b, 0, a.locals)
    ensures At(b, 0, LOCAL_SIG)
  {
    assert b[0..0 + |a.locals|][0..4] == b[0..4];
  }

  /** The record begins with its signature and carries the offset of the directory. */
  lemma EocdReads(a: Archive, b: Bytes, eocd: nat)
    requires GoodArchive(a) && At(b, eocd, Eocd(a))
    ensures At(b, eocd, EOCD_SIG) && eocd + 20 <= |b| && U32(b, eocd + 16) == |a.locals|
  {
    var rest := Le2(|a.comment|) + a.comment;
    var offset := Le4(|a.locals|);
    assert |offset| == 4;
    hide Le2, Le4, U32;
    assert Eocd(a) == EOCD_SIG + (a.counts + (offset + rest));
    Parts(b, eocd, EOCD_SIG, a.counts + (offset + rest));
    Parts(b, eocd + 4, a.counts, offset + rest);
    Parts(b, eocd + 16, offset, rest);
    Le4Reads(|a.locals|, b, eocd + 16);
  }

  lemma Le4Reads(n: nat, b: Bytes, i: nat)
    requires n < 0x1_0000_0000 && At(b, i, Le4(n))
    ensures U32(b, i) == n
  {
    var x := b[i..i + 4];
    assert x == [n % 65536 % 256, n % 65536 / 256, n / 65536 % 256, n / 65536 / 256];
    assert b[i] == x[0] && b[i + 1] == x[1] && b[i + 2] == x[2] && b[i + 3] == x[3];
    Le2Reads(n % 65536, b, i);
    Le2Reads(n / 65536, b, i + 2);
  }

  /** With no signature in the rest of the record, its own is the last one. */
  lemma EocdFound(b: Bytes, r: Bytes, eocd: nat)
    requires EOCD_SIZE <= |r| <= EOCD_SIZE + 65535 && |b| == eocd + |r| && At(b, eocd, r) && At(b, eocd, EOCD_SIG)
    requires NoneIn(r, 1, |r| - EOCD_SIZE)
    ensures LastEocd(b, |b| - EOCD_SIZE, Low(b)) == Some(eocd)
  {
    hide At, LastEocd;
    assert NoneIn(b, eocd + 1, |b| - EOCD_SIZE) by {
      forall j | eocd + 1 <= j <= |b| - EOCD_SIZE ensures !At(b, j, EOCD_SIG) {
        SameAt(b, r, eocd, j - eocd, EOCD_SIG);
      }
    }
    hide NoneIn;
    LastEocdAt(b, |b| - EOCD_SIZE, Low(b), eocd);
  }

  /** Where the last signature stands. */
  lemma {:induction false} LastIsLast(b: Bytes, i: nat, low: nat, e: nat)
    requires low <= e <= i && At(b, e, EOCD_SIG)
    ensures LastEocd(b, i, low).Some? && e <= LastEocd(b, i, low).value <= i
    ensures At(b, LastEocd(b, i, low).value, EOCD_SIG)
    decreases i
  {
    if !At(b, i, EOCD_SIG) {
      LastIsLast(b, i - 1, low, e);
    }
  }

  lemma SameAt(b: Bytes, r: Bytes, at: nat, j: nat, x: Bytes)
    requires At(b, at, r) && j + |x| <= |r|
    ensures At(r, j, x) <==> At(b, at + j, x)
  {
    var sub := b[at..at + |r|];
    var u, v := r[j..j + |x|], b[at + j..at + j + |x|];
    forall k | 0 <= k < |x| ensures u[k] == v[k] {
      assert sub[j + k] == b[at + (j + k)];
    }
    assert u == v;
  }

  lemma BigEnough(a: Archive)
    requires GoodArchive(a) && HasIndex(a.entries)
    ensures |EncodeArchive(a)| >= 30
  {
    assert a.entries != [];
    assert |EncodeEntry(a.entries[0])| >= ENTRY_SIZE;
    hide EncodeEntry;
    assert |EncodeEntries(a.entries)| >= ENTRY_SIZE;
  }

  /** The record of the last end-of-directory signature gives this offset. */
  predicate PointsTo(b: Bytes, offset: nat) {
    |b| >= EOCD_SIZE &&
    var last := LastEocd(b, |b| - EOCD_SIZE, Low(b));
    last.Some? && last.value + EOCD_SIZE <= |b| && U32(b, last.value + 16) == offset
  }

  predicate PointsHome(a: Archive)
    requires GoodArchive(a)
  {
    PointsTo(EncodeArchive(a), |a.locals|)
  }

  lemma LastPointsTo(b: Bytes, e: nat, offset: nat)
    requires e + EOCD_SIZE <= |b| && LastEocd(b, |b| - EOCD_SIZE, Low(b)) == Some(e) && U32(b, e + 16) == offset
    ensures PointsTo(b, offset)
  {
  }

  lemma ValidIs(b: Bytes, offset: nat)
    requires PointsTo(b, offset)
    ensures Valid(b) <==> |b| >= 30 && At(b, 0, LOCAL_SIG) && Walk(b, offset, LastEocd(b, |b| - EOCD_SIZE, Low(b)).value)
  {
    hide LastEocd, Walk, U32, At;
  }

  lemma JudgedRightly(b: Bytes, es: seq<Entry>, home: nat, r: Bytes)
    requires GoodEntries(es) && PointsTo(b, home) && At(b, 0, LOCAL_SIG) && At(b, home, EncodeEntries(es))
    requires EOCD_SIZE <= |r| < EOCD_SIZE + 65536 && home + |EncodeEntries(es)| + |r| == |b|
    requires At(b, home + |EncodeEntries(es)|, EOCD_SIG) && (HasIndex(es) ==> |b| >= 30)
    ensures Valid(b) <==> HasIndex(es)
  {
    hide *;
    var eocd := home + |EncodeEntries(es)|;
    ValidIs(b, home);
    OwnIsNotBehind(b, eocd, home, r);
    SignaturesDiffer(b, eocd);
    WalkFinds(es, b, home, LastEocd(b, |b| - EOCD_SIZE, Low(b)).value);
  }

  /** For every well-formed archive whose last end-of-directory signature points at its directory: it is
      accepted exactly when it has a directory entry named index.html. */
  lemma AcceptsExactlyWithIndex(a: Archive)
    requires GoodArchive(a) && PointsHome(a)
    ensures Valid(EncodeArchive(a)) <==> HasIndex(a.entries)
  {
    hide EncodeArchive, EncodeEntries, Eocd, Walk, LastEocd, At, U32, HasIndex, GoodEntry, Valid, PointsTo;
    var b := EncodeArchive(a);
    ArchiveStands(a);
    LocalsFirst(a, b);
    EocdReads(a, b, |a.locals| + |EncodeEntries(a.entries)|);
    if HasIndex(a.entries) {
      BigEnough(a);
    }
    JudgedRightly(b, a.entries, |a.locals|, Eocd(a));
  }

  lemma OwnIsNotBehind(b: Bytes, eocd: nat, offset: nat, r: Bytes)
    requires PointsTo(b, offset) && EOCD_SIZE <= |r| < EOCD_SIZE + 65536 && eocd + |r| == |b| && At(b, eocd, EOCD_SIG)
    ensures var last := LastEocd(b, |b| - EOCD_SIZE, Low(b));
            last.Some? && eocd <= last.value <= |b|
  {
    LastIsLast(b, |b| - EOCD_SIZE, Low(b), eocd);
    hide LastEocd, At, U32;
  }

  lemma SignaturesDiffer(b: Bytes, i: nat)
    requires At(b, i, EOCD_SIG)
    ensures !At(b, i, ENTRY_SIG)
  {
    Four(b, i, EOCD_SIG);
    Four(b, i, ENTRY_SIG);
  }

  /** That is so when the signature does not occur again after the record begins ... */
  lemma NoStrayPointsHome(a: Archive)
    requires GoodArchive(a) && NoStrayEocd(a)
    ensures PointsHome(a)
  {
    var b := EncodeArchive(a);
    var eocd := |a.locals| + |EncodeEntries(a.entries)|;
    ArchiveStands(a);
    EocdReads(a, b, eocd);
    hide EncodeArchive, EncodeEntries, Eocd, LastEocd, At, U32, NoneIn, PointsTo;
    EocdFound(b, Eocd(a), eocd);
    LastPointsTo(b, eocd, |a.locals|);
  }

  /** A record without comment for the directory at this offset. */
  function RecordFor(counts: Bytes, offset: nat): (r: Bytes)
    requires |counts| == 12 && offset < 0x1_0000_0000
    ensures |r| == EOCD_SIZE
  {
    EOCD_SIG + counts + Le4(offset) + Le2(0)
  }

  /** ... and when the comment is one more record for the same directory. */
  lemma SecondRecordPointsHome(a: Archive, counts: Bytes)
    requires GoodArchive(a) && |counts| == 12 && a.comment == RecordFor(counts, |a.locals|)
    ensures PointsHome(a) && !NoStrayEocd(a)
  {
    var b := EncodeArchive(a);
    var e := |b| - EOCD_SIZE;
    ArchiveStands(a);
    CommentStands(a, b);
    RecordReads(b, e, counts, |a.locals|);
    AtTheEnd(b, e);
    StrayIsThere(a, counts, |a.locals|);
    hide EncodeArchive, EncodeEntries, Eocd, RecordFor, U32, LastEocd, At, NoStrayEocd;
    LastPointsTo(b, e, |a.locals|);
  }

  lemma RecordReads(b: Bytes, e: nat, counts: Bytes, offset: nat)
    requires |counts| == 12 && offset < 0x1_0000_0000 && At(b, e, RecordFor(counts, offset))
    ensures At(b, e, EOCD_SIG) && e + EOCD_SIZE <= |b| && U32(b, e + 16) == offset
  {
    var rest := Le2(0);
    var middle := Le4(offset);
    hide Le2, Le4, U32;
    assert RecordFor(counts, offset) == EOCD_SIG + (counts + (middle + rest));
    Parts(b, e, EOCD_SIG, counts + (middle + rest));
    Parts(b, e + 4, counts, middle + rest);
    Parts(b, e + 16, middle, rest);
    Le4Reads(offset, b, e + 16);
  }

  lemma CommentStands(a: Archive, b: Bytes)
    requires GoodArchive(a) && |a.comment| == EOCD_SIZE && b == EncodeArchive(a)
    ensures |b| >= 2 * EOCD_SIZE && At(b, |b| - EOCD_SIZE, a.comment)
  {
    hide EncodeEntries;
    assert b[|b| - EOCD_SIZE..] == a.comment;
    assert b[|b| - EOCD_SIZE..|b| - EOCD_SIZE + EOCD_SIZE] == b[|b| - EOCD_SIZE..];
  }

  lemma StrayIsThere(a: Archive, counts: Bytes, offset: nat)
    requires GoodArchive(a) && |counts| == 12 && offset < 0x1_0000_0000 && a.comment == RecordFor(counts, offset)
    ensures !NoStrayEocd(a)
  {
    var r := Eocd(a);
    assert r[EOCD_SIZE..EOCD_SIZE + |a.comment|] == a.comment;
    RecordReads(r, EOCD_SIZE, counts, offset);
    hide Eocd;
  }

  /** But whatever an archive holds, with the record of a directory at the front of the file for a
      comment it is refused. */
  lemma StrayEocdHides(a: Archive, counts: Bytes)
    requires GoodArchive(a) && |counts| == 12 && a.comment == RecordFor(counts, 0)
    ensures !PointsHome(a) && !Valid(EncodeArchive(a))
  {
    var b := EncodeArchive(a);
    var e := |b| - EOCD_SIZE;
    ArchiveStands(a);
    LocalsFirst(a, b);
    CommentStands(a, b);
    RecordReads(b, e, counts, 0);
    AtTheEnd(b, e);
    assert PointsTo(b, 0) by {
      hide EncodeArchive, EncodeEntries, Eocd, RecordFor, U32, LastEocd, At;
      LastPointsTo(b, e, 0);
    }
    NoEntryThere(b, e);
    SomeLocals(a);
    hide EncodeArchive, EncodeEntries, Eocd, RecordFor, U32, LastEocd, At, Walk;
    ValidIs(b, 0);
  }

  lemma AtTheEnd(b: Bytes, e: nat)
    requires e + EOCD_SIZE == |b| && At(b, e, EOCD_SIG)
    ensures LastEocd(b, e, Low(b)) == Some(e)
  {
  }

  lemma NoEntryThere(b: Bytes, e: nat)
    requires At(b, 0, LOCAL_SIG) && e <= |b|
    ensures !Walk(b, 0, e)
  {
    Four(b, 0, LOCAL_SIG);
    Four(b, 0, ENTRY_SIG);
  }

  lemma SomeLocals(a: Archive)
    requires GoodArchive(a)
    ensures |a.locals| >= 4
  {
  }
}
