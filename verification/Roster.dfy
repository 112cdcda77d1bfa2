/** Who is in a group call: the roster order and the admission cap (`admitted` in app/js/group-call.js,
    the sort in `roster` of app/js/group-call-signal.js). */
module Roster {

  /** A JavaScript string, as its UTF-16 code units. */
  type Id = seq<nat>

  /** `a < b` on JavaScript strings. */
  predicate Less(a: Id, b: Id) {
    b != [] && (a == [] || a[0] < b[0] || (a[0] == b[0] && Less(a[1..], b[1..])))
  }

  predicate AgreeTo(a: Id, b: Id, k: nat)
    requires k <= |a| && k <= |b|
  {
    forall i :: 0 <= i < k ==> a[i] == b[i]
  }

  predicate SmallerAt(a: Id, b: Id, k: nat) {
    k < |a| && k < |b| && AgreeTo(a, b, k) && a[k] < b[k]
  }

  lemma AgreeMore(a: Id, b: Id, k: nat)
    requires a != [] && b != [] && a[0] == b[0] && k < |a| && k < |b|
    ensures AgreeTo(a[1..], b[1..], k) <==> AgreeTo(a, b, k + 1)
  {
    if AgreeTo(a[1..], b[1..], k) {
      assert forall i :: 0 < i < k + 1 ==> a[i] == a[1..][i - 1] && b[i] == b[1..][i - 1];
    } else {
      var i :| 0 <= i < k && a[1..][i] != b[1..][i];
      assert a[i + 1] != b[i + 1];
    }
  }

  /** Less is the order of strings: at the first difference the smaller character decides, and a proper
      prefix is smaller. */
  lemma {:induction false} LessIs(a: Id, b: Id)
    ensures Less(a, b) <==> (|a| < |b| && AgreeTo(a, b, |a|)) || exists k: nat :: SmallerAt(a, b, k)
  {
    if a != [] && b != [] && a[0] == b[0] {
      LessIs(a[1..], b[1..]);
      if |a| <= |b| {
        AgreeMore(a, b, |a| - 1);
      }
      hide AgreeTo;
      if exists k: nat :: SmallerAt(a[1..], b[1..], k) {
        var k: nat :| SmallerAt(a[1..], b[1..], k);
        AgreeMore(a, b, k);
        assert SmallerAt(a, b, k + 1);
      }
      if exists k: nat :: SmallerAt(a, b, k) {
        var k: nat :| SmallerAt(a, b, k);
        assert k > 0;
        AgreeMore(a, b, k - 1);
        assert SmallerAt(a[1..], b[1..], k - 1);
      }
    } else if a != [] && b != [] {
      if a[0] < b[0] {
        assert SmallerAt(a, b, 0);
      }
      if exists k: nat :: SmallerAt(a, b, k) {
        var k: nat :| SmallerAt(a, b, k);
        assert k == 0;
      }
    }
  }

  datatype Member = Member(id: Id, sid: string, at: int)

  /** The sort key of both sorts: join time first, ties by id. */
  predicate Before(a: Member, b: Member) {
    a.at < b.at || (a.at == b.at && Less(a.id, b.id))
  }

  lemma {:induction false} LessTotal(a: Id, b: Id)
    ensures !(Less(a, b) && Less(b, a))
    ensures a != b <==> Less(a, b) || Less(b, a)
  {
    if a != [] && b != [] && a[0] == b[0] {
      LessTotal(a[1..], b[1..]);
      assert a == [a[0]] + a[1..] && b == [b[0]] + b[1..];
    }
  }

  lemma {:induction false} LessTransitive(a: Id, b: Id, c: Id)
    requires Less(a, b) && Less(b, c)
    ensures Less(a, c)
  {
    if a != [] && b != [] && c != [] && a[0] == b[0] && b[0] == c[0] {
      LessTransitive(a[1..], b[1..], c[1..]);
    }
  }

  lemma BeforeTransitive(a: Member, b: Member, c: Member)
    requires Before(a, b) && Before(b, c)
    ensures Before(a, c)
  {
    if a.at == b.at && b.at == c.at {
      LessTransitive(a.id, b.id, c.id);
    }
  }

  lemma BeforeTotal(a: Member, b: Member)
    ensures !(Before(a, b) && Before(b, a))
    ensures a.id != b.id ==> Before(a, b) || Before(b, a)
    ensures !Before(a, a)
  {
    LessTotal(a.id, b.id);
    LessTotal(a.id, a.id);
  }

  predicate Distinct(r: seq<Member>) {
    forall j, k :: 0 <= j < k < |r| ==> r[j].id != r[k].id
  }

  predicate Ordered(r: seq<Member>) {
    forall j, k :: 0 <= j < k < |r| ==> Before(r[j], r[k])
  }

  function Insert(m: Member, r: seq<Member>): (s: seq<Member>)
    ensures |s| == |r| + 1
  {
    if r == [] || Before(m, r[0]) then [m] + r else [r[0]] + Insert(m, r[1..])
  }

  /** The sorted roster. */
  function InOrder(r: seq<Member>): (s: seq<Member>)
    ensures |s| == |r|
  {
    if r == [] then [] else Insert(r[0], InOrder(r[1..]))
  }

  function Take<T>(s: seq<T>, n: nat): seq<T> {
    if |s| <= n then s else s[..n]
  }

  /** The participants that are let in: the first `max` of the sorted roster. */
  function Admitted(r: seq<Member>, max: nat): (a: seq<Member>)
    ensures |a| <= max
  {
    Take(InOrder(r), max)
  }

  function Ids(r: seq<Member>): set<Id> {
    set k | 0 <= k < |r| :: r[k].id
  }

  // ---------------------------------------------------------------- sorting

  lemma {:induction false} InsertMultiset(m: Member, r: seq<Member>)
    ensures multiset(Insert(m, r)) == multiset(r) + multiset{m}
  {
    if r != [] && !Before(m, r[0]) {
      InsertMultiset(m, r[1..]);
      assert r == [r[0]] + r[1..];
    }
  }

  lemma {:induction false} InOrderMultiset(r: seq<Member>)
    ensures multiset(InOrder(r)) == multiset(r)
  {
    if r != [] {
      InOrderMultiset(r[1..]);
      InsertMultiset(r[0], InOrder(r[1..]));
      assert r == [r[0]] + r[1..];
    }
  }

  lemma {:induction false} InsertOrdered(m: Member, r: seq<Member>)
    requires Ordered(r) && forall k :: 0 <= k < |r| ==> r[k].id != m.id
    ensures Ordered(Insert(m, r))
  {
    if r != [] && Before(m, r[0]) {
      forall k | 0 <= k < |r| ensures Before(m, r[k]) {
        if k > 0 { BeforeTransitive(m, r[0], r[k]); }
      }
    } else if r != [] {
      InsertOrdered(m, r[1..]);
      InsertMultiset(m, r[1..]);
      var rest := Insert(m, r[1..]);
      forall k | 0 <= k < |rest| ensures Before(r[0], rest[k]) {
        assert rest[k] in multiset(rest);
        if rest[k] == m {
          BeforeTotal(m, r[0]);
        } else {
          assert rest[k] in multiset(r[1..]);
        }
      }
    }
  }

  lemma {:induction false} InOrderOrdered(r: seq<Member>)
    requires Distinct(r)
    ensures Ordered(InOrder(r))
  {
    if r != [] {
      InOrderOrdered(r[1..]);
      InOrderMultiset(r[1..]);
      var rest := InOrder(r[1..]);
      forall k | 0 <= k < |rest| ensures rest[k].id != r[0].id {
        assert rest[k] in multiset(rest);
        assert rest[k] in multiset(r[1..]);
      }
      InsertOrdered(r[0], rest);
    }
  }

  /** A strictly ordered list is determined by its elements. */
  lemma {:induction false} OrderedSame(a: seq<Member>, b: seq<Member>)
    requires Ordered(a) && Ordered(b) && forall m :: m in a <==> m in b
    ensures a == b
    decreases |a|
  {
    if a != [] || b != [] {
      assert |a| > 0 ==> a[0] in a;
      assert |b| > 0 ==> b[0] in b;
      assert |a| > 0 && |b| > 0;
      assert a[0] in b && b[0] in a;
      BeforeTotal(a[0], b[0]);
      BeforeTotal(a[0], a[0]);
      assert a == [a[0]] + a[1..] && b == [b[0]] + b[1..];
      assert a[0] == b[0];
      assert a[0] !in a[1..] && b[0] !in b[1..];
      hide Ordered, Before;
      forall m ensures m in a[1..] <==> m in b[1..] {
        assert m in a <==> m == a[0] || m in a[1..];
        assert m in b <==> m == b[0] || m in b[1..];
      }
      assert Ordered(a[1..]) && Ordered(b[1..]) by { TailOrdered(a); TailOrdered(b); }
      OrderedSame(a[1..], b[1..]);
    }
  }

  lemma TailOrdered(a: seq<Member>)
    requires a != [] && Ordered(a)
    ensures Ordered(a[1..])
  {
  }

  lemma OrderedUnique(a: seq<Member>, b: seq<Member>)
    requires Ordered(a) && Ordered(b) && multiset(a) == multiset(b)
    ensures a == b
  {
    forall m ensures m in a <==> m in b {
      assert m in a <==> m in multiset(a);
      assert m in b <==> m in multiset(b);
    }
    OrderedSame(a, b);
  }

  /** A list that is ordered and has the roster's elements is the sorted roster. */
  lemma InOrderIs(r: seq<Member>, s: seq<Member>)
    requires Distinct(r) && Ordered(s) && multiset(s) == multiset(r)
    ensures s == InOrder(r)
  {
    InOrderOrdered(r);
    InOrderMultiset(r);
    OrderedUnique(s, InOrder(r));
  }

  // ---------------------------------------------------------------- admission

  /** Who joined earlier, or at the same instant with a smaller id. */
  function Earlier(r: seq<Member>, m: Member): set<Member> {
    set x | x in r && (x.at < m.at || (x.at == m.at && Less(x.id, m.id)))
  }

  function Elements(s: seq<Member>): set<Member> {
    set k | 0 <= k < |s| :: s[k]
  }

  lemma ElementsSnoc(s: seq<Member>, x: Member)
    ensures Elements(s + [x]) == Elements(s) + {x}
    ensures x in Elements(s) <==> x in s
  {
    assert (s + [x])[|s|] == x;
    assert forall k :: 0 <= k < |s| ==> (s + [x])[k] == s[k];
  }

  lemma {:induction false} FirstOnes(s: seq<Member>, j: nat)
    requires Ordered(s) && j <= |s|
    ensures |Elements(s[..j])| == j
  {
    if j == 0 {
      assert Elements(s[..j]) == {};
    } else {
      NotAmong(s, j - 1, j - 1);
      hide Elements, Before;
      FirstOnes(s, j - 1);
      assert s[..j] == s[..j - 1] + [s[j - 1]];
      ElementsSnoc(s[..j - 1], s[j - 1]);
    }
  }

  /** In an ordered list nobody stands twice. */
  lemma NotAmong(s: seq<Member>, j: nat, k: nat)
    requires Ordered(s) && j <= k < |s|
    ensures s[k] !in s[..j]
  {
    forall i | 0 <= i < j ensures s[i] != s[k] {
      BeforeTotal(s[k], s[k]);
    }
  }

  lemma EarlierAreFirst(r: seq<Member>, s: seq<Member>, j: nat)
    requires Ordered(s) && multiset(s) == multiset(r) && j < |s|
    ensures Earlier(r, s[j]) == Elements(s[..j])
  {
    forall x ensures x in Earlier(r, s[j]) <==> x in Elements(s[..j]) {
      assert x in r <==> x in multiset(r);
      assert x in s <==> x in multiset(s);
      assert x in Elements(s[..j]) <==> x in s[..j];
      if x in s {
        var k :| 0 <= k < |s| && s[k] == x;
        if k < j {
          assert s[..j][k] == x;
        } else {
          BeforeTotal(s[j], x);
          NotAmong(s, j, k);
        }
      }
    }
  }

  /** Who is let in, exactly: everybody before whom fewer than `max` others joined. */
  lemma AdmittedExactlyWhen(r: seq<Member>, max: nat, m: Member)
    requires Distinct(r) && m in r
    ensures m in Admitted(r, max) <==> |Earlier(r, m)| < max
  {
    var s := InOrder(r);
    InOrderOrdered(r);
    InOrderMultiset(r);
    assert m in multiset(r) && m in multiset(s);
    var j :| 0 <= j < |s| && s[j] == m;
    EarlierAreFirst(r, s, j);
    FirstOnes(s, j);
    hide Earlier, InOrder;
    if j < max {
      assert Take(s, max)[j] == m;
    } else {
      NotAmong(s, max, j);
    }
  }

  /** Agreement: rosters that are permutations of each other admit the same list. */
  lemma AdmissionAgreement(r1: seq<Member>, r2: seq<Member>, max: nat)
    requires multiset(r1) == multiset(r2) && Distinct(r1)
    ensures Admitted(r1, max) == Admitted(r2, max)
  {
    InOrderMultiset(r1);
    InOrderMultiset(r2);
    DistinctPermutation(r1, r2);
    InOrderOrdered(r1);
    InOrderOrdered(r2);
    OrderedUnique(InOrder(r1), InOrder(r2));
  }

  lemma {:induction false} DistinctPermutation(r1: seq<Member>, r2: seq<Member>)
    requires multiset(r1) == multiset(r2) && Distinct(r1)
    ensures Distinct(r2)
  {
    forall j, k | 0 <= j < k < |r2| ensures r2[j].id != r2[k].id {
      if r2[j] == r2[k] {
        TwiceIn(r2, j, k);
        OnceIn(r1, r2[j]);
      } else {
        assert r2[j] in multiset(r1) && r2[k] in multiset(r1);
        var a :| 0 <= a < |r1| && r1[a] == r2[j];
        var b :| 0 <= b < |r1| && r1[b] == r2[k];
      }
    }
  }

  lemma TwiceIn(r: seq<Member>, j: nat, k: nat)
    requires j < k < |r| && r[j] == r[k]
    ensures multiset(r)[r[j]] >= 2
  {
    assert r == r[..k] + [r[k]] + r[k + 1..];
    assert r[..k][j] == r[j];
    assert multiset(r[..k])[r[j]] >= 1;
  }

  lemma {:induction false} OnceIn(r: seq<Member>, m: Member)
    requires Distinct(r)
    ensures multiset(r)[m] <= 1
  {
    if r != [] {
      assert r == [r[0]] + r[1..];
      OnceIn(r[1..], m);
      if m in multiset(r[1..]) {
        var k :| 0 <= k < |r[1..]| && r[1..][k] == m;
      }
    }
  }

  lemma TakeCons<T>(x: T, s: seq<T>, n: nat)
    requires n > 0
    ensures Take([x] + s, n) == [x] + Take(s, n - 1)
  {
  }

  lemma {:induction false} InsertTake(m: Member, s: seq<Member>, max: nat)
    ensures Take(Insert(m, s), max) == Take(Insert(m, Take(s, max)), max)
  {
    hide Before;
    if s != [] && !Before(m, s[0]) && max > 0 {
      InsertTake(m, s[1..], max - 1);
      assert s == [s[0]] + s[1..];
      TakeCons(s[0], s[1..], max);
      TakeCons(s[0], Insert(m, s[1..]), max);
      TakeCons(s[0], Insert(m, Take(s[1..], max - 1)), max);
      hide Take;
      assert Take(s, max)[1..] == Take(s[1..], max - 1);
    } else if max > 0 {
      TakeCons(m, s, max);
      TakeCons(m, Take(s, max), max);
      assert Take(s, max - 1) == Take(Take(s, max), max - 1);
    }
  }

  lemma InsertIsInOrder(r: seq<Member>, m: Member)
    requires Distinct(r + [m])
    ensures Ordered(InOrder(r)) && (forall k :: 0 <= k < |r| ==> InOrder(r)[k].id != m.id)
    ensures InOrder(r + [m]) == Insert(m, InOrder(r))
  {
    var s := InOrder(r);
    assert Distinct(r) by {
      assert forall k :: 0 <= k < |r| ==> r[k] == (r + [m])[k];
    }
    InOrderMultiset(r);
    InOrderOrdered(r);
    forall k | 0 <= k < |s| ensures s[k].id != m.id {
      assert s[k] in multiset(s);
      var j :| 0 <= j < |r| && r[j] == s[k];
      assert (r + [m])[j] == s[k] && (r + [m])[|r|] == m;
    }
    InsertOrdered(m, s);
    InsertMultiset(m, s);
    InOrderIs(r + [m], Insert(m, s));
  }

  lemma InsertPushesOut(a: seq<Member>, m: Member, max: nat, p: nat)
    requires Ordered(a) && p < |a| <= max && forall k :: 0 <= k < |a| ==> a[k].id != m.id
    ensures a[p] !in Take(Insert(m, a), max) <==> |a| == max && p == max - 1 && Before(m, a[p])
  {
    var i := Insert(m, a);
    InsertPlaces(m, a);
    InsertOrdered(m, a);
    var q := if Before(m, a[p]) then p + 1 else p;
    assert i[q] == a[p];
    OrderedPlace(i, q);
    if q < max {
      assert Take(i, max)[q] == a[p];
    } else {
      assert forall k :: 0 <= k < |Take(i, max)| ==> Take(i, max)[k] == i[k];
    }
  }

  /** An arrival turns somebody out exactly when the call is full and the arrival sorts before the last
      admitted participant, and then only that one; an arrival later than all admitted evicts nobody. */
  lemma ArrivalEvicts(r: seq<Member>, m: Member, max: nat, x: Member)
    requires Distinct(r + [m]) && x in Admitted(r, max)
    ensures var a := Admitted(r, max);
            x !in Admitted(r + [m], max) <==> |r| >= max && x == a[|a| - 1] && Before(m, x)
  {
    var a := Admitted(r, max);
    InsertIsInOrder(r, m);
    InsertTake(m, InOrder(r), max);
    var p :| 0 <= p < |a| && a[p] == x;
    InsertPushesOut(a, m, max, p);
    OrderedPlace(a, p);
  }

  lemma OrderedPlace(a: seq<Member>, p: nat)
    requires Ordered(a) && p < |a|
    ensures forall k :: 0 <= k < |a| && a[k] == a[p] ==> k == p
  {
    forall k | 0 <= k < |a| && a[k] == a[p] ensures k == p {
      BeforeTotal(a[k], a[p]);
    }
  }

  lemma {:induction false} InsertPlaces(m: Member, a: seq<Member>)
    requires Ordered(a)
    ensures forall k :: 0 <= k < |a| ==> Insert(m, a)[if Before(m, a[k]) then k + 1 else k] == a[k]
  {
    if a == [] {
    } else if Before(m, a[0]) {
      forall k | 0 <= k < |a| ensures Insert(m, a)[if Before(m, a[k]) then k + 1 else k] == a[k] {
        if k > 0 { BeforeTransitive(m, a[0], a[k]); }
      }
    } else {
      InsertPlaces(m, a[1..]);
      forall k | 1 <= k < |a| ensures Insert(m, a)[if Before(m, a[k]) then k + 1 else k] == a[k] {
        assert a[1..][k - 1] == a[k];
      }
    }
  }

  function Without(r: seq<Member>, k: nat): seq<Member>
    requires k < |r|
  {
    r[..k] + r[k + 1..]
  }

  lemma WithoutMultiset(s: seq<Member>, p: nat)
    requires p < |s|
    ensures multiset(Without(s, p)) == multiset(s) - multiset{s[p]}
  {
    assert s == s[..p] + [s[p]] + s[p + 1..];
  }

  lemma OrderedWithout(s: seq<Member>, p: nat)
    requires p < |s| && Ordered(s)
    ensures Ordered(Without(s, p))
  {
  }

  lemma DistinctWithout(r: seq<Member>, k: nat)
    requires k < |r| && Distinct(r)
    ensures Distinct(Without(r, k))
  {
  }

  lemma WithoutInOrder(r: seq<Member>, k: nat) returns (p: nat)
    requires Distinct(r) && k < |r|
    ensures p < |r| && InOrder(r)[p] == r[k] && Ordered(InOrder(r))
    ensures InOrder(Without(r, k)) == Without(InOrder(r), p)
  {
    var s := InOrder(r);
    InOrderMultiset(r);
    InOrderOrdered(r);
    assert r[k] in multiset(s);
    p :| 0 <= p < |s| && s[p] == r[k];
    WithoutMultiset(s, p);
    WithoutMultiset(r, k);
    OrderedWithout(s, p);
    DistinctWithout(r, k);
    InOrderIs(Without(r, k), Without(s, p));
  }

  /** Taking the first `max` before and after one element of an ordered list is removed. */
  lemma TakeWithout(s: seq<Member>, p: nat, max: nat, j: nat)
    requires p < |s| && Ordered(s) && j < |s| && j != p
    ensures s[j] in Take(s, max) <==> j < max
    ensures s[j] in Take(Without(s, p), max) <==> j < max || (j == max && p < max)
  {
    var a, b := Take(s, max), Take(Without(s, p), max);
    var q := if j < p then j else j - 1;
    OrderedPlace(s, j);
    if j < max { assert a[j] == s[j]; }
    if q < max { assert b[q] == s[j]; }
    assert forall i :: 0 <= i < |a| ==> a[i] == s[i];
    assert forall i :: 0 <= i < |b| ==> b[i] == s[if i < p then i else i + 1];
  }

  /** A departure keeps every other admitted participant and promotes at most one: the first waiting
      one, and exactly when the departed one had been admitted and somebody waits. */
  lemma DeparturePromotes(r: seq<Member>, k: nat, max: nat, y: Member)
    requires Distinct(r) && k < |r| && y in r && y != r[k]
    ensures y in Admitted(r, max) ==> y in Admitted(Without(r, k), max)
    ensures y !in Admitted(r, max) && y in Admitted(Without(r, k), max)
       <==> r[k] in Admitted(r, max) && |r| > max && y == InOrder(r)[max]
  {
    var p := WithoutInOrder(r, k);
    var s := InOrder(r);
    InOrderMultiset(r);
    assert y in multiset(s);
    var j :| 0 <= j < |s| && s[j] == y;
    TakeWithout(s, p, max, j);
    OrderedPlace(s, p);
    OrderedPlace(s, j);
    InTake(s, p, max);
    assert |r| > max && y == s[max] <==> j == max by {
      if |r| > max && y == s[max] { assert max == j; }
    }
  }

  lemma InTake(s: seq<Member>, p: nat, max: nat)
    requires p < |s| && Ordered(s)
    ensures s[p] in Take(s, max) <==> p < max
  {
    OrderedPlace(s, p);
    var a := Take(s, max);
    if p < max { assert a[p] == s[p]; }
    assert forall i :: 0 <= i < |a| ==> a[i] == s[i];
  }

  // ---------------------------------------------------------------- links

  /** The pairs a full mesh over the ids connects, offerer first. */
  function Links(ids: set<Id>): set<(Id, Id)> {
    set a, b | a in ids && b in ids && Less(a, b) :: (a, b)
  }

  function LinksOf(x: Id, rest: set<Id>): set<(Id, Id)> {
    set y | y in rest :: if Less(x, y) then (x, y) else (y, x)
  }

  lemma LinksSplit(ids: set<Id>, x: Id)
    requires x in ids
    ensures Links(ids) == Links(ids - {x}) + LinksOf(x, ids - {x})
    ensures Links(ids - {x}) !! LinksOf(x, ids - {x})
  {
    var rest := ids - {x};
    forall l | l in Links(ids) ensures l in Links(rest) + LinksOf(x, rest) {
      LessTotal(l.0, l.1);
      if l.0 == x { assert l.1 in rest; }
      if l.1 == x { assert l.0 in rest; }
    }
    forall l | l in LinksOf(x, rest) ensures l in Links(ids) {
      var y :| y in rest && l == if Less(x, y) then (x, y) else (y, x);
      LessTotal(x, y);
    }
  }

  /** Each pair of a full mesh has exactly one offerer. */
  lemma OneOfferer(ids: set<Id>, a: Id, b: Id)
    requires a in ids && b in ids && a != b
    ensures ((a, b) in Links(ids)) != ((b, a) in Links(ids))
  {
    LessTotal(a, b);
  }

  function Triangle(n: nat): nat {
    if n == 0 then 0 else Triangle(n - 1) + (n - 1)
  }

  lemma {:induction false} TriangleIs(n: nat)
    ensures 2 * Triangle(n) == n * (n - 1)
  {
    if n > 0 {
      TriangleIs(n - 1);
    }
  }

  /** A full mesh over n participants has n(n-1)/2 links. */
  lemma LinkCount(ids: set<Id>)
    ensures 2 * |Links(ids)| == |ids| * (|ids| - 1)
  {
    LinksTriangle(ids);
    TriangleIs(|ids|);
  }

  lemma {:induction false} LinksTriangle(ids: set<Id>)
    ensures |Links(ids)| == Triangle(|ids|)
    decreases |ids|
  {
    if ids == {} {
      assert Links(ids) == {};
    } else {
      var x :| x in ids;
      hide Links, LinksOf;
      assert |ids| == |ids - {x}| + 1;
      LinksTriangle(ids - {x});
      LinksSplit(ids, x);
      LinksOfSize(x, ids - {x});
    }
  }

  lemma {:induction false} LinksOfSize(x: Id, rest: set<Id>)
    requires x !in rest
    ensures |LinksOf(x, rest)| == |rest|
    decreases |rest|
  {
    if rest == {} {
      assert LinksOf(x, rest) == {};
    } else {
      var z :| z in rest;
      var one := if Less(x, z) then (x, z) else (z, x);
      LinksOfSize(x, rest - {z});
      assert LinksOf(x, rest) == LinksOf(x, rest - {z}) + {one};
      assert one !in LinksOf(x, rest - {z});
    }
  }

  lemma {:induction false} IdsSize(r: seq<Member>)
    requires Distinct(r)
    ensures |Ids(r)| == |r|
  {
    if r == [] {
      assert Ids(r) == {};
    } else {
      var n := |r| - 1;
      IdsSize(r[..n]);
      assert Ids(r) == Ids(r[..n]) + {r[n].id};
      assert r[n].id !in Ids(r[..n]);
    }
  }
}
