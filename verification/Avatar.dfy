/** The identity tile itself (app/js/avatar.js): ten cells in rows of three, two, two and three, each
    taking the colour of its fingerprint group or the next in the pool that fits. */
module Avatar {
  import opened Options
  import opened Palette

  // ---------------------------------------------------------------- the layout

  datatype Rect = Rect(x: int, y: int, w: int, h: int)

  const CELLS := 10

  function CellAt(i: nat): Rect
    requires i < CELLS
  {
    if i < 3 then Rect(i * 40, 0, 40, 30)
    else if i < 5 then Rect((i - 3) * 60, 30, 60, 30)
    else if i < 7 then Rect((i - 5) * 60, 60, 60, 30)
    else Rect((i - 7) * 40, 90, 40, 30)
  }

  /** The ABOVE table. */
  function Above(i: nat): seq<nat> {
    match i
    case 3 => [1, 0]
    case 4 => [2, 1]
    case 5 => [3]
    case 6 => [4]
    case 7 => [5]
    case 8 => [6, 5]
    case 9 => [6]
    case _ => []
  }

  /** The cells a cell is compared with. */
  function Neighbors(i: nat): seq<nat> {
    (if i > 0 then [i - 1] else []) + Above(i)
  }

  predicate LeftOf(a: Rect, b: Rect) {
    a.y == b.y && a.x + a.w == b.x
  }

  /** The lower edge of a and the upper edge of b share more than a point. */
  predicate OnTopOf(a: Rect, b: Rect) {
    a.y + a.h == b.y && a.x < b.x + b.w && b.x < a.x + a.w
  }

  /** The table is right: a cell is compared with exactly its left neighbour and the cells that share
      its upper edge - and, at the start of a row, with the last cell of the row before. */
  lemma NeighborsAreTheEdges(i: nat, j: nat)
    requires i < CELLS && j < CELLS
    ensures j in Neighbors(i) <==>
            LeftOf(CellAt(j), CellAt(i)) || OnTopOf(CellAt(j), CellAt(i)) || (i in {3, 5, 7} && j == i - 1)
    ensures j in Neighbors(i) ==> j < i
    ensures |Neighbors(i)| <= 3
  {
  }

  // ---------------------------------------------------------------- where a cell starts

  function HexDigit(c: char): Option<nat> {
    if '0' <= c <= '9' then Some((c - '0') as nat)
    else if 'A' <= c <= 'F' then Some((c - 'A') as nat + 10)
    else if 'a' <= c <= 'f' then Some((c - 'a') as nat + 10)
    else None
  }

  function HexOnly(s: string): seq<nat> {
    if s == [] then []
    else (if HexDigit(s[0]).Some? then [HexDigit(s[0]).value] else []) + HexOnly(s[1..])
  }

  function Base16(digits: seq<nat>, acc: nat): nat {
    if digits == [] then acc else Base16(digits[1..], 16 * acc + digits[0])
  }

  /** The pool index a group names: its first four hex digits as a number, 0 if it has none. */
  function StartOf(group: string): (k: nat)
    ensures k < POOL_SIZE
  {
    var digits := HexOnly(group);
    Base16(if |digits| <= 4 then digits else digits[..4], 0) % POOL_SIZE
  }

  /** The sixteen digits, in either case. */
  lemma HexDigitIs(c: char, v: nat)
    ensures HexDigit(c) == Some(v) <==> v < 16 && (c == "0123456789abcdef"[v] || c == "0123456789ABCDEF"[v])
  {
    if v < 10 {
      assert "0123456789abcdef"[v] == '0' + v as char;
    } else if v < 16 {
      assert "0123456789abcdef"[v] == 'a' + (v - 10) as char && "0123456789ABCDEF"[v] == 'A' + (v - 10) as char;
    }
  }

  lemma {:induction false} HexOnlyOfTwo(a: string, b: string)
    ensures HexOnly(a + b) == HexOnly(a) + HexOnly(b)
  {
    if a == [] {
      assert a + b == b;
    } else {
      assert (a + b)[1..] == a[1..] + b;
      HexOnlyOfTwo(a[1..], b);
    }
  }

  /** Any other character might as well not be there. */
  lemma OthersDoNotCount(a: string, c: char, b: string)
    requires HexDigit(c).None?
    ensures StartOf(a + [c] + b) == StartOf(a + b)
  {
    HexOnlyOfTwo(a + [c], b);
    HexOnlyOfTwo(a, [c]);
    HexOnlyOfTwo(a, b);
    assert HexOnly([c]) == [];
    assert HexOnly(a) + [] == HexOnly(a);
  }

  lemma {:induction false} AllHex(s: string)
    requires forall k :: 0 <= k < |s| ==> HexDigit(s[k]).Some?
    ensures |HexOnly(s)| == |s| && forall k :: 0 <= k < |s| ==> HexOnly(s)[k] == HexDigit(s[k]).value
  {
    if s != [] {
      AllHex(s[1..]);
    }
  }

  lemma Base16Is(d: seq<nat>, acc: nat)
    ensures |d| == 0 ==> Base16(d, acc) == acc
    ensures |d| == 1 ==> Base16(d, acc) == 16 * acc + d[0]
    ensures |d| == 2 ==> Base16(d, acc) == 256 * acc + 16 * d[0] + d[1]
    ensures |d| == 3 ==> Base16(d, acc) == 4096 * acc + 256 * d[0] + 16 * d[1] + d[2]
    decreases |d|
  {
    if 0 < |d| <= 3 {
      Base16Is(d[1..], 16 * acc + d[0]);
    }
  }

  /** Of a group of hex digits the first four count, as one number. */
  lemma StartIs(s: string)
    requires forall k :: 0 <= k < |s| ==> HexDigit(s[k]).Some?
    ensures var v := (k: nat) => if k < |s| then HexDigit(s[k]).value else 0;
            StartOf(s) == (if |s| >= 4 then 4096 * v(0) + 256 * v(1) + 16 * v(2) + v(3)
                           else if |s| == 3 then 256 * v(0) + 16 * v(1) + v(2)
                           else if |s| == 2 then 16 * v(0) + v(1) else v(0)) % POOL_SIZE
  {
    AllHex(s);
    var d := if |s| <= 4 then HexOnly(s) else HexOnly(s)[..4];
    assert StartOf(s) == Base16(d, 0) % POOL_SIZE;
    assert |d| == 4 ==> Base16(d, 0) == Base16(d[1..], d[0]);
    hide HexDigit, HexOnly, Base16, StartOf;
    if |d| == 4 {
      Base16Is(d[1..], d[0]);
    } else {
      Base16Is(d, 0);
    }
  }

  // ---------------------------------------------------------------- one cell

  function Walk(start: nat, step: nat): nat {
    (start + step * 7) % POOL_SIZE
  }

  /** It clashes with none of these colours. */
  predicate Fits(k: nat, near: seq<nat>)
    requires k < POOL_SIZE
  {
    forall j :: 0 <= j < |near| && near[j] < POOL_SIZE ==> !Clash(Pool(k), Pool(near[j]))
  }

  predicate Unused(k: nat, used: set<string>)
    requires k < POOL_SIZE
  {
    Pool(k).name !in used
  }

  /** The search of `colorForCell` from a step on. */
  function Search(start: nat, near: seq<nat>, used: set<string>, step: nat, fallback: Option<nat>): nat
    requires step <= POOL_SIZE
    decreases POOL_SIZE - step
  {
    if step == POOL_SIZE then if fallback.Some? then fallback.value else start
    else
      var k := Walk(start, step);
      if !Fits(k, near) then Search(start, near, used, step + 1, fallback)
      else if Unused(k, used) then k
      else Search(start, near, used, step + 1, if fallback.None? then Some(k) else fallback)
  }

  predicate Good(k: nat, near: seq<nat>, used: set<string>)
    requires k < POOL_SIZE
  {
    Fits(k, near) && Unused(k, used)
  }

  lemma {:induction false} SearchGood(start: nat, near: seq<nat>, used: set<string>, step: nat, fallback: Option<nat>, t: nat)
    requires step <= t < POOL_SIZE && Good(Walk(start, t), near, used)
    requires forall u :: step <= u < t ==> !Good(Walk(start, u), near, used)
    ensures Search(start, near, used, step, fallback) == Walk(start, t)
    decreases t - step
  {
    hide Clash, Pool;
    if step < t {
      assert !Good(Walk(start, step), near, used);
      var k := Walk(start, step);
      SearchGood(start, near, used, step + 1, if Fits(k, near) && fallback.None? then Some(k) else fallback, t);
    }
  }

  lemma {:induction false} SearchNone(start: nat, near: seq<nat>, used: set<string>, step: nat, fallback: nat)
    requires step <= POOL_SIZE
    requires forall u :: step <= u < POOL_SIZE ==> !Good(Walk(start, u), near, used)
    ensures Search(start, near, used, step, Some(fallback)) == fallback
    decreases POOL_SIZE - step
  {
    if step < POOL_SIZE {
      assert !Good(Walk(start, step), near, used);
      SearchNone(start, near, used, step + 1, fallback);
    }
  }

  lemma {:induction false} SearchFallback(start: nat, near: seq<nat>, used: set<string>, step: nat, t: nat)
    requires step <= t < POOL_SIZE && Fits(Walk(start, t), near)
    requires forall u :: step <= u < POOL_SIZE ==> !Good(Walk(start, u), near, used)
    requires forall u :: step <= u < t ==> !Fits(Walk(start, u), near)
    ensures Search(start, near, used, step, None) == Walk(start, t)
    decreases t - step
  {
    hide Clash, Pool;
    assert !Good(Walk(start, step), near, used);
    if step < t {
      SearchFallback(start, near, used, step + 1, t);
    } else {
      SearchNone(start, near, used, step + 1, Walk(start, t));
    }
  }

  predicate PoolIndices(near: seq<nat>) {
    forall j :: 0 <= j < |near| ==> near[j] < POOL_SIZE
  }

  /** Some colour fits next to any three. */
  lemma SomethingFits(near: seq<nat>) returns (k: nat)
    requires |near| <= 3 && PoolIndices(near)
    ensures k < POOL_SIZE && Fits(k, near)
  {
    hide Clash, Pool;
    k := FreeColor(if |near| > 0 then near[0] else 0, if |near| > 1 then near[1] else 0, if |near| > 2 then near[2] else 0);
  }

  predicate Wanted(k: nat, near: seq<nat>, used: set<string>, good: bool)
    requires k < POOL_SIZE
  {
    if good then Good(k, near, used) else Fits(k, near)
  }

  lemma FirstStep(start: nat, near: seq<nat>, used: set<string>, good: bool, last: nat) returns (t: nat)
    requires Wanted(Walk(start, last), near, used, good)
    ensures t <= last && Wanted(Walk(start, t), near, used, good)
    ensures forall u :: 0 <= u < t ==> !Wanted(Walk(start, u), near, used, good)
  {
    hide Wanted;
    t := 0;
    while !Wanted(Walk(start, t), near, used, good)
      invariant t <= last && forall u :: 0 <= u < t ==> !Wanted(Walk(start, u), near, used, good)
      decreases last - t
    {
      t := t + 1;
    }
  }

  /** Nothing good comes earlier in the walk than step t, or, if nothing is good, nothing that fits. */
  predicate IsFirst(start: nat, near: seq<nat>, used: set<string>, t: nat)
  {
    if Unused(Walk(start, t), used) then forall u :: 0 <= u < t ==> !Good(Walk(start, u), near, used)
    else forall u :: 0 <= u < t ==> !Fits(Walk(start, u), near)
  }

  /** What a cell gets: a colour that clashes with none of its neighbours - always, so the last resort
      is never taken; one the tile has not used, exactly when there is one that fits; and among these
      the first on the walk. */
  lemma CellColor(start: nat, near: seq<nat>, used: set<string>) returns (t: nat)
    requires start < POOL_SIZE && |near| <= 3 && PoolIndices(near)
    ensures t < POOL_SIZE
    ensures var k := Search(start, near, used, 0, None);
            && k == Walk(start, t) && Fits(k, near)
            && (Unused(k, used) <==> exists c: nat :: c < POOL_SIZE && Good(c, near, used))
            && IsFirst(start, near, used, t)
  {
    hide Clash, Pool;
    if exists c: nat :: c < POOL_SIZE && Good(c, near, used) {
      var c: nat :| c < POOL_SIZE && Good(c, near, used);
      var last := StrideVisitsAll(start, c);
      t := FirstStep(start, near, used, true, last);
      assert forall u :: 0 <= u < t ==> !Wanted(Walk(start, u), near, used, true) && !Good(Walk(start, u), near, used);
      hide Good;
      SearchGood(start, near, used, 0, None, t);
      assert Unused(Walk(start, t), used) && Fits(Walk(start, t), near) by { OnlyGood(Walk(start, t), near, used); }
    } else {
      var c := SomethingFits(near);
      var last := StrideVisitsAll(start, c);
      t := FirstStep(start, near, used, false, last);
      assert forall u :: 0 <= u < t ==> !Wanted(Walk(start, u), near, used, false) && !Fits(Walk(start, u), near);
      SearchFallback(start, near, used, 0, t);
      assert !Good(Walk(start, t), near, used);
    }
  }

  lemma OnlyGood(k: nat, near: seq<nat>, used: set<string>)
    requires k < POOL_SIZE && Good(k, near, used)
    ensures Fits(k, near) && Unused(k, used)
  {
  }

  /** `colorForCell`: the loop. */
  method ColorForCell(start: nat, near: seq<nat>, used: set<string>) returns (k: nat)
    requires start < POOL_SIZE && |near| <= 3 && PoolIndices(near)
    ensures k == Search(start, near, used, 0, None)
    ensures k < POOL_SIZE && Fits(k, near)
    ensures Unused(k, used) <==> exists c: nat :: c < POOL_SIZE && Good(c, near, used)
  {
    hide Clash, Pool, Fits, Unused, Good, IsFirst;
    ghost var t := CellColor(start, near, used);
    var fallback: Option<nat> := None;
    for step := 0 to POOL_SIZE
      invariant Search(start, near, used, step, fallback) == Search(start, near, used, 0, None)
    {
      var candidate := Walk(start, step);
      if !Fits(candidate, near) {
        continue;
      }
      if Unused(candidate, used) {
        return candidate;
      }
      if fallback.None? {
        fallback := Some(candidate);
      }
    }
    k := if fallback.Some? then fallback.value else start;
  }

  // ---------------------------------------------------------------- the tile

  function Names(chosen: seq<nat>): set<string> {
    set j | 0 <= j < |chosen| && chosen[j] < POOL_SIZE :: Pool(chosen[j]).name
  }

  /** The colours of the cells it is compared with. */
  function NearCells(i: nat, chosen: seq<nat>): (r: seq<nat>)
    requires i == |chosen|
  {
    At(Neighbors(i), chosen)
  }

  function At(js: seq<nat>, chosen: seq<nat>): (r: seq<nat>)
    ensures |r| <= |js|
  {
    if js == [] then [] else (if js[0] < |chosen| then [chosen[js[0]]] else []) + At(js[1..], chosen)
  }

  /** The first n cells. */
  function Cells(groups: seq<string>, n: nat): (chosen: seq<nat>)
    requires n <= |groups|
    ensures |chosen| == n
  {
    if n == 0 then []
    else
      var chosen := Cells(groups, n - 1);
      chosen + [Search(StartOf(groups[n - 1]), NearCells(n - 1, chosen), Names(chosen), 0, None)]
  }

  /** Cells that share an edge. */
  predicate Touch(i: nat, j: nat)
    requires i < CELLS && j < CELLS
  {
    var a, b := CellAt(i), CellAt(j);
    LeftOf(a, b) || LeftOf(b, a) || OnTopOf(a, b) || OnTopOf(b, a)
  }

  lemma {:induction false} AtHas(js: seq<nat>, chosen: seq<nat>, j: nat)
    requires j in js && j < |chosen|
    ensures chosen[j] in At(js, chosen)
  {
    if js[0] != j {
      AtHas(js[1..], chosen, j);
    }
  }

  lemma {:induction false} AtOnly(js: seq<nat>, chosen: seq<nat>)
    requires PoolIndices(chosen)
    ensures PoolIndices(At(js, chosen))
  {
    if js != [] {
      AtOnly(js[1..], chosen);
    }
  }

  lemma {:induction false} CellsFit(groups: seq<string>, n: nat)
    requires n <= |groups| == CELLS
    ensures PoolIndices(Cells(groups, n))
    ensures forall i, j :: 0 <= j < i < n && j in Neighbors(i) ==>
              !Clash(Pool(Cells(groups, n)[i]), Pool(Cells(groups, n)[j]))
  {
    hide Clash, Pool, StartOf, Names, Neighbors, Search;
    if n > 0 {
      CellsFit(groups, n - 1);
      NewCellFits(groups, n);
    }
  }

  lemma NewCellFits(groups: seq<string>, n: nat)
    requires 0 < n <= |groups| == CELLS && PoolIndices(Cells(groups, n - 1))
    ensures Cells(groups, n)[..n - 1] == Cells(groups, n - 1)
    ensures Cells(groups, n)[n - 1] < POOL_SIZE
    ensures forall j :: 0 <= j < n - 1 && j in Neighbors(n - 1) ==>
              !Clash(Pool(Cells(groups, n)[n - 1]), Pool(Cells(groups, n)[j]))
  {
    var chosen := Cells(groups, n - 1);
    var k := Cells(groups, n)[n - 1];
    AtOnly(Neighbors(n - 1), chosen);
    NeighborsAreTheEdges(n - 1, 0);
    hide Clash, Pool, Neighbors, Search, Cells, StartOf, Names, IsFirst, Good, Unused;
    var t := CellColor(StartOf(groups[n - 1]), NearCells(n - 1, chosen), Names(chosen));
    forall j | 0 <= j < n - 1 && j in Neighbors(n - 1) ensures !Clash(Pool(k), Pool(chosen[j])) {
      AtHas(Neighbors(n - 1), chosen, j);
      var near := NearCells(n - 1, chosen);
      var i :| 0 <= i < |near| && near[i] == chosen[j];
      assert !Clash(Pool(k), Pool(near[i]));
    }
  }

  /** For every fingerprint, no two cells of the tile that share an edge clash. */
  lemma NoNeighborsClash(groups: seq<string>, i: nat, j: nat)
    requires |groups| == CELLS && i < CELLS && j < CELLS && Touch(i, j)
    ensures var tile := Cells(groups, CELLS);
            tile[i] < POOL_SIZE && tile[j] < POOL_SIZE && !Clash(Pool(tile[i]), Pool(tile[j]))
  {
    var tile := Cells(groups, CELLS);
    CellsFit(groups, CELLS);
    NeighborsAreTheEdges(i, j);
    NeighborsAreTheEdges(j, i);
    ClashIsSymmetric(Pool(tile[i]), Pool(tile[j]));
  }

  predicate NoEdgeClashes(tile: seq<nat>)
    requires |tile| == CELLS && PoolIndices(tile)
  {
    forall i, j :: 0 <= i < CELLS && 0 <= j < CELLS && Touch(i, j) ==> !Clash(Pool(tile[i]), Pool(tile[j]))
  }

  /** The cell loop of `buildAvatarSvg`; anything but ten groups gives no tile. */
  method BuildTile(groups: seq<string>) returns (tile: Option<seq<nat>>)
    ensures tile == if |groups| == CELLS then Some(Cells(groups, CELLS)) else None
    ensures tile.Some? ==> |tile.value| == CELLS && PoolIndices(tile.value) && NoEdgeClashes(tile.value)
  {
    hide Clash, Pool, Search, StartOf, Names, Neighbors;
    if |groups| != CELLS {
      return None;
    }
    var chosen: seq<nat> := [];
    for i := 0 to CELLS
      invariant chosen == Cells(groups, i)
    {
      CellsFit(groups, i);
      AtOnly(Neighbors(i), chosen);
      NeighborsAreTheEdges(i, 0);
      var k := ColorForCell(StartOf(groups[i]), NearCells(i, chosen), Names(chosen));
      chosen := chosen + [k];
    }
    CellsFit(groups, CELLS);
    forall i, j | 0 <= i < CELLS && 0 <= j < CELLS && Touch(i, j) ensures !Clash(Pool(chosen[i]), Pool(chosen[j])) {
      NoNeighborsClash(groups, i, j);
    }
    tile := Some(chosen);
  }

  // ---------------------------------------------------------------- ten different colours?

  /** The names of the first cells differ from one another. */
  predicate AllDiffer(chosen: seq<nat>)
    requires PoolIndices(chosen)
  {
    forall j, k :: 0 <= j < k < |chosen| ==> Pool(chosen[j]).name != Pool(chosen[k]).name
  }

  /** When cell i is reached, some pool colour fits there and is still unused. */
  predicate Choice(groups: seq<string>, i: nat)
    requires i < |groups| == CELLS
  {
    exists c: nat :: c < POOL_SIZE && Good(c, NearCells(i, Cells(groups, i)), Names(Cells(groups, i)))
  }

  lemma UnusedDiffers(chosen: seq<nat>, k: nat)
    requires PoolIndices(chosen) && k < POOL_SIZE && AllDiffer(chosen)
    ensures AllDiffer(chosen + [k]) <==> Unused(k, Names(chosen))
  {
    var all := chosen + [k];
    if Unused(k, Names(chosen)) {
      forall j | 0 <= j < |chosen| ensures Pool(chosen[j]).name != Pool(k).name {
        assert Pool(chosen[j]).name in Names(chosen);
      }
    } else {
      var j :| 0 <= j < |chosen| && chosen[j] < POOL_SIZE && Pool(chosen[j]).name == Pool(k).name;
      assert all[j] == chosen[j] && all[|chosen|] == k;
    }
  }

  lemma OneMoreDiffers(groups: seq<string>, n: nat)
    requires 0 < n <= |groups| == CELLS && PoolIndices(Cells(groups, n - 1))
    ensures PoolIndices(Cells(groups, n))
    ensures AllDiffer(Cells(groups, n)) <==> AllDiffer(Cells(groups, n - 1)) && Choice(groups, n - 1)
  {
    hide Clash, Pool, StartOf, Names, Neighbors, IsFirst, Good;
    var chosen := Cells(groups, n - 1);
    AtOnly(Neighbors(n - 1), chosen);
    NeighborsAreTheEdges(n - 1, 0);
    var t := CellColor(StartOf(groups[n - 1]), NearCells(n - 1, chosen), Names(chosen));
    hide Search;
    var all := Cells(groups, n);
    assert all == chosen + [all[n - 1]];
    if AllDiffer(chosen) {
      UnusedDiffers(chosen, all[n - 1]);
    } else {
      var j, k :| 0 <= j < k < |chosen| && Pool(chosen[j]).name == Pool(chosen[k]).name;
      assert all[j] == chosen[j] && all[k] == chosen[k];
    }
  }

  /** When the colours of a tile are distinct, exactly: at each of its cells some pool colour still fits
      that the cells before do not use. */
  lemma {:induction false} DistinctExactlyWhen(groups: seq<string>, n: nat)
    requires n <= |groups| == CELLS
    ensures PoolIndices(Cells(groups, n))
    ensures AllDiffer(Cells(groups, n)) <==> forall i :: 0 <= i < n ==> Choice(groups, i)
  {
    hide AllDiffer, Choice, Cells, PoolIndices;
    if n == 0 {
      NoneDiffer(groups);
    } else {
      DistinctExactlyWhen(groups, n - 1);
      OneMoreDiffers(groups, n);
    }
  }

  lemma NoneDiffer(groups: seq<string>)
    ensures PoolIndices(Cells(groups, 0)) && AllDiffer(Cells(groups, 0))
  {
  }

  const CROWDED := ["0013", "0016", "0011", "001E", "001F", "0012", "001C", "0021", "0025"]

  /** Teal, Aquamarine, Olive, Navy, Maroon, Green, Indigo, Sienna and Silver. */
  const CROWD: seq<nat> := [19, 22, 17, 30, 31, 18, 28, 33, 37]

  lemma GroupStart(g: string, a: nat, b: nat)
    requires |g| == 4 && HexDigit(g[0]) == Some(0) && HexDigit(g[1]) == Some(0)
    requires HexDigit(g[2]) == Some(a) && HexDigit(g[3]) == Some(b)
    ensures StartOf(g) == (16 * a + b) % POOL_SIZE
  {
    assert g[4..] == [] && HexOnly(g[4..]) == [];
    assert g[3..][1..] == g[4..] && HexOnly(g[3..]) == [b];
    assert g[2..][1..] == g[3..] && HexOnly(g[2..]) == [a, b];
    assert g[1..][1..] == g[2..] && HexOnly(g[1..]) == [0, a, b];
    assert HexOnly(g) == [0, 0, a, b];
    assert [0, 0, a, b][1..] == [0, a, b] && [0, a, b][1..] == [a, b] && [a, b][1..] == [b] && [b][1..] == [];
    assert Base16([0, 0, a, b], 0) == Base16([a, b], 0) == Base16([b], a) == Base16([], 16 * a + b);
  }

  lemma CrowdStarts(i: nat)
    requires i < 9
    ensures StartOf(CROWDED[i]) == CROWD[i]
  {
    GroupStart(CROWDED[i], CROWD[i] / 16, CROWD[i] % 16);
  }

  lemma UpperCrowdFits(i: nat, j: nat)
    requires i < 5 && j in Neighbors(i)
    ensures j < i && !Near(PoolHsl(CROWD[i]), PoolHsl(CROWD[j]))
  {
  }

  lemma LowerCrowdFits(i: nat, j: nat)
    requires 5 <= i < 9 && j in Neighbors(i)
    ensures j < i && !Near(PoolHsl(CROWD[i]), PoolHsl(CROWD[j]))
  {
  }

  /** Each of the crowd fits where it stands. */
  lemma CrowdFits(i: nat, j: nat)
    requires i < 9 && j in Neighbors(i)
    ensures j < i && !Clash(Pool(CROWD[i]), Pool(CROWD[j]))
  {
    hide Clash, Pool, PoolHsl, Near, Neighbors;
    if i < 5 {
      UpperCrowdFits(i, j);
    } else {
      LowerCrowdFits(i, j);
    }
    PoolClash(CROWD[i], CROWD[j]);
  }

  lemma CrowdDiffers(i: nat, j: nat)
    requires j < i < 9
    ensures Pool(CROWD[i]).name != Pool(CROWD[j]).name
  {
    var a, b := Pool(CROWD[i]).name, Pool(CROWD[j]).name;
    assert |a| != |b| || a[0] != b[0] || a[2] != b[2];
  }

  lemma LowCrowdedOut(k: nat)
    requires k < 20
    ensures Near(PoolHsl(k), PoolHsl(28)) || Near(PoolHsl(k), PoolHsl(37)) || k in CROWD
  {
  }

  lemma HighCrowdedOut(k: nat)
    requires 20 <= k < POOL_SIZE
    ensures Near(PoolHsl(k), PoolHsl(28)) || Near(PoolHsl(k), PoolHsl(37)) || k in CROWD
  {
  }

  /** Every pool colour clashes with Indigo or Silver, or is in the crowd. */
  lemma CrowdedOut(k: nat)
    requires k < POOL_SIZE
    ensures Clash(Pool(k), Pool(28)) || Clash(Pool(k), Pool(37)) || k in CROWD
  {
    hide Clash, Pool, PoolHsl, Near;
    PoolClash(k, 28);
    PoolClash(k, 37);
    if k < 20 {
      LowCrowdedOut(k);
    } else {
      HighCrowdedOut(k);
    }
  }

  lemma {:induction false} AtFrom(js: seq<nat>, chosen: seq<nat>, k: nat)
    requires k < |At(js, chosen)|
    ensures exists j :: j in js && j < |chosen| && chosen[j] == At(js, chosen)[k]
  {
    if !(js[0] < |chosen| && k == 0) {
      var shift := if js[0] < |chosen| then 1 else 0;
      AtFrom(js[1..], chosen, k - shift);
      var j :| j in js[1..] && j < |chosen| && chosen[j] == At(js[1..], chosen)[k - shift];
      assert j in js;
    }
  }

  lemma CrowdIsGood(i: nat)
    requires i < 9
    ensures Good(CROWD[i], NearCells(i, CROWD[..i]), Names(CROWD[..i]))
  {
    var chosen := CROWD[..i];
    var near := NearCells(i, chosen);
    hide Clash, Pool, Neighbors;
    AtOnly(Neighbors(i), chosen);
    forall k | 0 <= k < |near| ensures !Clash(Pool(CROWD[i]), Pool(near[k])) {
      AtFrom(Neighbors(i), chosen, k);
      var j :| j in Neighbors(i) && j < |chosen| && chosen[j] == near[k];
      CrowdFits(i, j);
    }
    forall j | 0 <= j < i ensures Pool(CROWD[i]).name != Pool(chosen[j]).name {
      CrowdDiffers(i, j);
    }
  }

  lemma {:induction false} CrowdTile(groups: seq<string>, n: nat)
    requires |groups| == CELLS && groups[..9] == CROWDED && n <= 9
    ensures Cells(groups, n) == CROWD[..n]
  {
    hide StartOf, Good, Search, NearCells, Names, Clash, Pool;
    if n > 0 {
      CrowdTile(groups, n - 1);
      assert groups[n - 1] == groups[..9][n - 1];
      CrowdStep(n - 1);
      assert CROWD[..n] == CROWD[..n - 1] + [CROWD[n - 1]];
    }
  }

  lemma CrowdStep(i: nat)
    requires i < 9
    ensures Search(StartOf(CROWDED[i]), NearCells(i, CROWD[..i]), Names(CROWD[..i]), 0, None) == CROWD[i]
  {
    hide StartOf, Good, Search, NearCells, Names, Clash, Pool;
    CrowdStarts(i);
    CrowdIsGood(i);
    assert Walk(CROWD[i], 0) == CROWD[i];
    SearchGood(CROWD[i], NearCells(i, CROWD[..i]), Names(CROWD[..i]), 0, None, 0);
  }

  /** The ten colours are not always distinct: whatever the last group, this fingerprint repeats one. */
  lemma TileCanRepeat(groups: seq<string>)
    requires |groups| == CELLS && groups[..9] == CROWDED
    ensures var tile := Cells(groups, CELLS);
            tile[9] < POOL_SIZE && exists i :: 0 <= i < 9 && tile[i] < POOL_SIZE && Pool(tile[i]).name == Pool(tile[9]).name
    ensures PoolIndices(Cells(groups, CELLS)) && !AllDiffer(Cells(groups, CELLS))
  {
    CellsFit(groups, CELLS);
    LastCell(groups);
    hide Cells, Clash, Pool, Neighbors;
    var tile := Cells(groups, CELLS);
    CrowdedOut(tile[9]);
    var i :| 0 <= i < 9 && CROWD[i] == tile[9];
    assert tile[i] == tile[..9][i];
  }

  lemma LastCell(groups: seq<string>)
    requires |groups| == CELLS && groups[..9] == CROWDED
    ensures var tile := Cells(groups, CELLS);
            && tile[..9] == CROWD && tile[9] < POOL_SIZE
            && !Clash(Pool(tile[9]), Pool(28)) && !Clash(Pool(tile[9]), Pool(37))
  {
    hide Clash, Pool, StartOf, Search, NearCells, Names, Cells;
    CrowdTile(groups, 9);
    CrowdIsPool();
    NewCellFits(groups, CELLS);
    NeighborsOfLast();
    hide Neighbors, PoolIndices;
    var tile := Cells(groups, CELLS);
    assert tile[..9] == CROWD;
    assert tile[6] == tile[..9][6] && tile[8] == tile[..9][8];
  }

  lemma CrowdIsPool()
    ensures CROWD[..9] == CROWD && PoolIndices(CROWD)
  {
  }

  lemma NeighborsOfLast()
    ensures 6 in Neighbors(9) && 8 in Neighbors(9)
  {
  }
}
