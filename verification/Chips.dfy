/** Group notices with the names of the people turned into chips (`serviceChipsHtml` in
    app/js/format.js).  Escaping and the button markup are left to the pieces' renderer. */
module Chips {
  import opened Options
  import opened Quilt

  datatype Person = Person(id: nat, name: string)

  datatype Span = Span(start: nat, end: nat, who: Person)

  datatype Piece = Plain(text: string) | Chip(who: Person)

  predicate Overlaps(at: nat, end: nat, x: Span) {
    at < x.end && end > x.start
  }

  predicate Free(spans: seq<Span>, at: nat, end: nat) {
    forall k :: 0 <= k < |spans| ==> !Overlaps(at, end, spans[k])
  }

  /** The first place from `first` on where the name stands and touches no earlier chip. */
  function Place(src: string, name: string, spans: seq<Span>, first: nat): Option<nat>
    decreases |src| + 1 - first
  {
    FindIs(src, name, first);
    var at := Find(src, name, first);
    if at.None? || Free(spans, at.value, at.value + |name|) then at
    else Place(src, name, spans, at.value + 1)
  }

  predicate Fitting(src: string, name: string, spans: seq<Span>, at: nat) {
    At(src, name, at) && Free(spans, at, at + |name|)
  }

  lemma {:induction false} PlaceIs(src: string, name: string, spans: seq<Span>, first: nat)
    ensures match Place(src, name, spans, first)
            case Some(at) => first <= at && Fitting(src, name, spans, at) && forall j :: first <= j < at ==> !Fitting(src, name, spans, j)
            case None => forall j: nat :: j >= first ==> !Fitting(src, name, spans, j)
    decreases |src| + 1 - first
  {
    FindIs(src, name, first);
    var at := Find(src, name, first);
    if at.Some? && !Free(spans, at.value, at.value + |name|) {
      PlaceIs(src, name, spans, at.value + 1);
    }
  }

  /** One person's chip, if there is a place for it. */
  function Placed(src: string, p: Person, spans: seq<Span>): seq<Span> {
    var at := Place(src, p.name, spans, 0);
    if at.Some? then spans + [Span(at.value, at.value + |p.name|, p)] else spans
  }

  function PlaceAll(src: string, people: seq<Person>, spans: seq<Span>): seq<Span>
    decreases |people|
  {
    if people == [] then spans else PlaceAll(src, people[1..], Placed(src, people[0], spans))
  }

  predicate Stands(src: string, x: Span) {
    x.start < x.end <= |src| && src[x.start..x.end] == x.who.name
  }

  predicate Apart(x: Span, y: Span) {
    x.end <= y.start || y.end <= x.start
  }

  predicate AllStand(src: string, spans: seq<Span>) {
    forall x :: x in spans ==> Stands(src, x)
  }

  predicate ApartFrom(x: Span, spans: seq<Span>) {
    forall y :: y in spans ==> Apart(x, y)
  }

  predicate AllApart(spans: seq<Span>) {
    forall j, k :: 0 <= j < k < |spans| ==> Apart(spans[j], spans[k])
  }

  predicate Named(people: seq<Person>) {
    forall k :: 0 <= k < |people| ==> people[k].name != ""
  }

  lemma SnocApart(spans: seq<Span>, x: Span)
    requires AllApart(spans) && ApartFrom(x, spans)
    ensures AllApart(spans + [x])
  {
    var all := spans + [x];
    forall j, k | 0 <= j < k < |all| ensures Apart(all[j], all[k]) {
      if k == |spans| {
        assert all[j] in spans;
        assert Apart(x, all[j]);
      }
    }
  }

  lemma OnePlacedApart(src: string, p: Person, spans: seq<Span>)
    requires AllStand(src, spans) && AllApart(spans) && p.name != ""
    ensures AllStand(src, Placed(src, p, spans)) && AllApart(Placed(src, p, spans))
  {
    PlaceIs(src, p.name, spans, 0);
    hide Place, AllApart;
    var at := Place(src, p.name, spans, 0);
    if at.Some? {
      var span := Span(at.value, at.value + |p.name|, p);
      assert ApartFrom(span, spans);
      SnocApart(spans, span);
    }
  }

  /** Every chip stands on its name, and no two touch. */
  lemma {:induction false} PlacedApart(src: string, people: seq<Person>, spans: seq<Span>)
    requires AllStand(src, spans) && AllApart(spans) && Named(people)
    ensures AllStand(src, PlaceAll(src, people, spans)) && AllApart(PlaceAll(src, people, spans))
    decreases |people|
  {
    if people != [] {
      hide Placed, AllStand, AllApart;
      OnePlacedApart(src, people[0], spans);
      PlacedApart(src, people[1..], Placed(src, people[0], spans));
    }
  }

  // ---------------------------------------------------------------- putting it together

  /** Each chip ends before the next begins, none before pos. */
  predicate InOrder(spans: seq<Span>, pos: nat)
    decreases |spans|
  {
    spans == [] || (pos <= spans[0].start <= spans[0].end && InOrder(spans[1..], spans[0].end))
  }

  function Insert(x: Span, spans: seq<Span>): (r: seq<Span>) {
    if spans == [] || x.start < spans[0].start then [x] + spans else [spans[0]] + Insert(x, spans[1..])
  }

  function Sorted(spans: seq<Span>): (r: seq<Span>) {
    if spans == [] then [] else Insert(spans[0], Sorted(spans[1..]))
  }

  predicate Ready(src: string, spans: seq<Span>, pos: nat) {
    pos <= |src| && AllStand(src, spans) && InOrder(spans, pos)
  }

  lemma TailReady(src: string, spans: seq<Span>, pos: nat)
    requires Ready(src, spans, pos) && spans != []
    ensures Stands(src, spans[0]) && pos <= spans[0].start && Ready(src, spans[1..], spans[0].end)
  {
    assert spans[0] in spans;
    assert Stands(src, spans[0]);
    assert forall x :: x in spans[1..] ==> x in spans;
  }

  /** The gaps as text, the chips in their places. */
  function Pieces(src: string, spans: seq<Span>, pos: nat): seq<Piece>
    requires Ready(src, spans, pos)
    decreases |spans|
  {
    if spans == [] then [Plain(src[pos..])]
    else
      TailReady(src, spans, pos);
      [Plain(src[pos..spans[0].start]), Chip(spans[0].who)] + Pieces(src, spans[1..], spans[0].end)
  }

  /** What a reader sees. */
  function Visible(pieces: seq<Piece>): string {
    if pieces == [] then ""
    else (if pieces[0].Plain? then pieces[0].text else pieces[0].who.name) + Visible(pieces[1..])
  }

  lemma VisibleTwo(text: string, who: Person, rest: seq<Piece>)
    ensures Visible([Plain(text), Chip(who)] + rest) == text + (who.name + Visible(rest))
  {
    var all := [Plain(text), Chip(who)] + rest;
    assert all[1..] == [Chip(who)] + rest && ([Chip(who)] + rest)[1..] == rest;
  }

  lemma {:induction false} VisibleIsText(src: string, spans: seq<Span>, pos: nat)
    requires Ready(src, spans, pos)
    ensures Visible(Pieces(src, spans, pos)) == src[pos..]
    decreases |spans|
  {
    if spans == [] {
      assert Pieces(src, spans, pos)[1..] == [];
    } else {
      TailReady(src, spans, pos);
      hide Ready;
      var x := spans[0];
      VisibleIsText(src, spans[1..], x.end);
      VisibleTwo(src[pos..x.start], x.who, Pieces(src, spans[1..], x.end));
      assert src[pos..] == src[pos..x.start] + (src[x.start..x.end] + src[x.end..]);
    }
  }

  lemma {:induction false} InsertedInOrder(x: Span, spans: seq<Span>, pos: nat)
    requires InOrder(spans, pos) && ApartFrom(x, spans) && pos <= x.start < x.end
    requires forall y :: y in spans ==> y.start < y.end
    ensures InOrder(Insert(x, spans), pos)
    decreases |spans|
  {
    if spans != [] {
      assert Apart(x, spans[0]) && spans[0].start < spans[0].end;
      if !(x.start < spans[0].start) {
        assert forall y :: y in spans[1..] ==> y in spans;
        InsertedInOrder(x, spans[1..], spans[0].end);
      }
    }
  }

  lemma {:induction false} InsertHas(x: Span, spans: seq<Span>, y: Span)
    ensures y in Insert(x, spans) <==> y == x || y in spans
  {
    if spans != [] && !(x.start < spans[0].start) {
      InsertHas(x, spans[1..], y);
    }
  }

  lemma {:induction false} SortedHas(spans: seq<Span>, y: Span)
    ensures y in Sorted(spans) <==> y in spans
  {
    if spans != [] {
      SortedHas(spans[1..], y);
      InsertHas(spans[0], Sorted(spans[1..]), y);
    }
  }

  lemma HeadApart(spans: seq<Span>)
    requires AllApart(spans) && spans != []
    ensures AllApart(spans[1..]) && ApartFrom(spans[0], spans[1..])
  {
    assert forall k :: 0 <= k < |spans[1..]| ==> spans[1..][k] == spans[k + 1];
  }

  lemma {:induction false} SortedInOrder(src: string, spans: seq<Span>)
    requires AllStand(src, spans) && AllApart(spans)
    ensures InOrder(Sorted(spans), 0)
  {
    if spans != [] {
      HeadApart(spans);
      assert spans[0] in spans && forall y :: y in spans[1..] ==> y in spans;
      SortedInOrder(src, spans[1..]);
      forall y ensures y in Sorted(spans[1..]) <==> y in spans[1..] {
        SortedHas(spans[1..], y);
      }
      hide AllApart;
      InsertedInOrder(spans[0], Sorted(spans[1..]), 0);
    }
  }

  /** The notice reads the same with chips as without. */
  lemma ChipsKeepText(src: string, people: seq<Person>)
    requires Named(people)
    ensures Ready(src, Sorted(PlaceAll(src, people, [])), 0)
    ensures Visible(Pieces(src, Sorted(PlaceAll(src, people, [])), 0)) == src
  {
    var spans := PlaceAll(src, people, []);
    PlacedApart(src, people, []);
    SortedInOrder(src, spans);
    forall y ensures y in Sorted(spans) <==> y in spans {
      SortedHas(spans, y);
    }
    VisibleIsText(src, Sorted(spans), 0);
  }

  /** Each person in turn gets the first place that is free of the chips before, if there is one; nobody
      later takes it away. */
  lemma {:induction false} ChipAtFirstFreePlace(src: string, people: seq<Person>, spans: seq<Span>, k: nat)
    returns (before: seq<Span>)
    requires k < |people|
    ensures before == PlaceAll(src, people[..k], spans)
    ensures var at := Place(src, people[k].name, before, 0);
            var after := if at.Some? then before + [Span(at.value, at.value + |people[k].name|, people[k])] else before;
            after <= PlaceAll(src, people, spans)
    decreases |people|
  {
    var at := Place(src, people[0].name, spans, 0);
    var next := if at.Some? then spans + [Span(at.value, at.value + |people[0].name|, people[0])] else spans;
    if k == 0 {
      before := spans;
      OnlyAdds(src, people[1..], next);
    } else {
      before := ChipAtFirstFreePlace(src, people[1..], next, k - 1);
      assert people[..k][0] == people[0] && people[..k][1..] == people[1..][..k - 1];
    }
  }

  lemma {:induction false} OnlyAdds(src: string, people: seq<Person>, spans: seq<Span>)
    ensures spans <= PlaceAll(src, people, spans)
    decreases |people|
  {
    if people != [] {
      var at := Place(src, people[0].name, spans, 0);
      OnlyAdds(src, people[1..], Placed(src, people[0], spans));
    }
  }

  // ---------------------------------------------------------------- longest names first

  function Put(p: Person, people: seq<Person>): seq<Person> {
    if people == [] || |people[0].name| <= |p.name| then [p] + people else [people[0]] + Put(p, people[1..])
  }

  /** The first sort. */
  function ByLength(people: seq<Person>): seq<Person> {
    if people == [] then [] else Put(people[0], ByLength(people[1..]))
  }

  predicate LongestFirst(people: seq<Person>) {
    forall j, k :: 0 <= j < k < |people| ==> |people[k].name| <= |people[j].name|
  }

  function OfLength(people: seq<Person>, n: nat): seq<Person> {
    if people == [] then [] else (if |people[0].name| == n then [people[0]] else []) + OfLength(people[1..], n)
  }

  lemma {:induction false} PutHas(p: Person, people: seq<Person>)
    ensures multiset(Put(p, people)) == multiset{p} + multiset(people)
  {
    if people != [] && |people[0].name| > |p.name| {
      PutHas(p, people[1..]);
      assert people == [people[0]] + people[1..];
    }
  }

  lemma {:induction false} PutSorts(p: Person, people: seq<Person>)
    requires LongestFirst(people)
    ensures LongestFirst(Put(p, people))
  {
    if people != [] && |people[0].name| > |p.name| {
      PutSorts(p, people[1..]);
      PutHas(p, people[1..]);
      hide Put;
      NoneLonger(people, p, Put(p, people[1..]));
    }
  }

  lemma NoneLonger(people: seq<Person>, p: Person, rest: seq<Person>)
    requires LongestFirst(people) && people != [] && |people[0].name| > |p.name|
    requires multiset(rest) == multiset{p} + multiset(people[1..])
    ensures forall x :: x in rest ==> |x.name| <= |people[0].name|
  {
    forall x | x in rest ensures |x.name| <= |people[0].name| {
      assert x in multiset(rest);
      assert x == p || x in people[1..];
    }
  }

  lemma OfLengthHead(p: Person, people: seq<Person>, n: nat)
    ensures OfLength([p] + people, n) == (if |p.name| == n then [p] else []) + OfLength(people, n)
  {
    assert ([p] + people)[1..] == people;
  }

  lemma {:induction false} PutIsStable(p: Person, people: seq<Person>, n: nat)
    ensures OfLength(Put(p, people), n) == (if |p.name| == n then [p] else []) + OfLength(people, n)
  {
    if people == [] || |people[0].name| <= |p.name| {
      OfLengthHead(p, people, n);
    } else {
      PutIsStable(p, people[1..], n);
      OfLengthHead(people[0], Put(p, people[1..]), n);
      OfLengthHead(people[0], people[1..], n);
      assert people == [people[0]] + people[1..];
      hide OfLength;
    }
  }

  /** The sort puts longer names first, and people with names of the same length as they came. */
  lemma {:induction false} ByLengthIs(people: seq<Person>, n: nat)
    ensures LongestFirst(ByLength(people)) && multiset(ByLength(people)) == multiset(people)
    ensures OfLength(ByLength(people), n) == OfLength(people, n)
  {
    if people != [] {
      ByLengthIs(people[1..], n);
      PutHas(people[0], ByLength(people[1..]));
      PutSorts(people[0], ByLength(people[1..]));
      PutIsStable(people[0], ByLength(people[1..]), n);
      assert people == [people[0]] + people[1..];
    }
  }

  lemma StillNamed(people: seq<Person>)
    requires Named(people)
    ensures Named(ByLength(people))
  {
    ByLengthIs(people, 0);
    var sorted := ByLength(people);
    forall k | 0 <= k < |sorted| ensures sorted[k].name != "" {
      assert sorted[k] in multiset(sorted) && sorted[k] in multiset(people) && sorted[k] in people;
    }
  }

  const ANNA := Person(10, "Anna")
  const ANN := Person(11, "Ann")

  lemma AnnaFirst()
    ensures ByLength([ANN, ANNA]) == [ANNA, ANN]
  {
    assert [ANN, ANNA][1..] == [ANNA] && [ANNA][1..] == [];
    assert ByLength([ANNA]) == [ANNA] && Put(ANN, [ANNA]) == [ANNA] + Put(ANN, []);
  }

  lemma AnnaAtZero()
    ensures Place("Anna Anna", "Anna", [], 0) == Some(0)
  {
    PlaceIs("Anna Anna", "Anna", [], 0);
    assert Fitting("Anna Anna", "Anna", [], 0);
  }

  lemma AnnAtFive()
    ensures Place("Anna Anna", "Ann", [Span(0, 4, ANNA)], 0) == Some(5) && At("Anna Anna", "Anna", 5)
  {
    var (src, spans) := ("Anna Anna", [Span(0, 4, ANNA)]);
    PlaceIs(src, "Ann", spans, 0);
    hide Place;
    assert src[5..8] == "Ann" && src[5..9] == "Anna";
    assert Fitting(src, "Ann", spans, 5);
    forall j | 0 <= j < 5 ensures !Fitting(src, "Ann", spans, j) {
      if j < 4 {
        assert Overlaps(j, j + 3, spans[0]);
      } else {
        assert src[4..7][0] == ' ';
      }
    }
  }

  /** That does not keep a shorter name out of a longer one: here Ann's chip stands in the second Anna. */
  lemma AnnSplitsAnna()
    ensures PlaceAll("Anna Anna", ByLength([ANN, ANNA]), []) == [Span(0, 4, ANNA), Span(5, 8, ANN)]
    ensures At("Anna Anna", "Anna", 5)
  {
    AnnaFirst();
    AnnaAtZero();
    AnnAtFive();
    hide Place, ByLength;
    var src := "Anna Anna";
    assert [ANNA, ANN][1..] == [ANN] && [ANN][1..] == [];
    assert [] + [Span(0, 4, ANNA)] == [Span(0, 4, ANNA)];
    assert PlaceAll(src, [ANNA, ANN], []) == PlaceAll(src, [ANNA, ANN][1..], [] + [Span(0, 4, ANNA)]);
    assert PlaceAll(src, [ANN], [Span(0, 4, ANNA)]) == PlaceAll(src, [ANN][1..], [Span(0, 4, ANNA)] + [Span(5, 8, ANN)]);
  }

  /** A text of this length at p stands inside a place of the name. */
  ghost predicate InsideA(src: string, name: string, p: nat, length: nat) {
    exists q: nat :: At(src, name, q) && q <= p && p + length <= q + |name|
  }

  lemma InsideIsContained(src: string, m: string, n: string, p: nat)
    requires At(src, n, p) && InsideA(src, m, p, |n|)
    ensures Contains(m, n)
  {
    var q: nat :| At(src, m, q) && q <= p && p + |n| <= q + |m|;
    var i := p - q;
    forall k | 0 <= k < |n| ensures m[i + k] == n[k] {
      assert src[q..q + |m|][i + k] == src[p + k] == src[p..p + |n|][k];
    }
    assert m[i..i + |n|] == n;
    assert At(m, n, i);
    ContainsIs(m, n);
  }

  /** Whoever is on the list: a chip stands inside a place of another name only if that contains its own. */
  lemma InsideOnlyContained(src: string, people: seq<Person>, x: Span, m: string)
    requires Named(people) && x in PlaceAll(src, people, []) && InsideA(src, m, x.start, |x.who.name|)
    ensures Contains(m, x.who.name)
  {
    PlacedApart(src, people, []);
    hide PlaceAll, InsideA;
    assert Stands(src, x);
    InsideIsContained(src, m, x.who.name, x.start);
  }

  /** Of two people the one with name n gets a chip inside a place of the other's name m. */
  ghost predicate Splits(src: string, m: string, n: string) {
    exists x :: x in PlaceAll(src, ByLength([Person(10, m), Person(11, n)]), []) && x.who.id == 11 && InsideA(src, m, x.start, |n|)
  }

  lemma TwoAreOrdered(m: string, n: string)
    requires |n| <= |m|
    ensures ByLength([Person(10, m), Person(11, n)]) == [Person(10, m), Person(11, n)]
  {
    var two := [Person(10, m), Person(11, n)];
    assert two[1..] == [Person(11, n)] && two[1..][1..] == [];
    assert ByLength(two[1..]) == [Person(11, n)];
  }

  lemma TwoPlaced(src: string, a: Person, b: Person)
    ensures PlaceAll(src, [a, b], []) == Placed(src, b, Placed(src, a, []))
  {
    hide Placed;
    assert [a, b][1..] == [b] && [b][1..] == [];
    var one := Placed(src, a, []);
    assert PlaceAll(src, [b], one) == PlaceAll(src, [b][1..], Placed(src, b, one));
  }

  lemma DoubleHas(m: string, n: string, i: nat)
    requires At(m, n, i)
    ensures At(m + m, m, 0) && At(m + m, m, |m|) && At(m + m, n, |m| + i)
  {
    assert (m + m)[|m| + i..|m| + i + |n|] == m[i..i + |n|];
  }

  /** The second of two equal names in a row takes the other's chip. */
  lemma DoubleSplits(m: string, n: string)
    requires 0 < |n| <= |m| && Contains(m, n)
    ensures Splits(m + m, m, n)
  {
    ContainsIs(m, n);
    var i: nat :| At(m, n, i);
    DoubleHas(m, n, i);
    var src := m + m;
    PlaceIs(src, m, [], 0);
    assert Fitting(src, m, [], 0);
    var first := [Span(0, |m|, Person(10, m))];
    PlaceIs(src, n, first, 0);
    assert Fitting(src, n, first, |m| + i);
    hide Place;
    var at := Place(src, n, first, 0).value;
    assert at >= |m| by { assert !Overlaps(at, at + |n|, first[0]); }
    TwoAreOrdered(m, n);
    TwoPlaced(src, Person(10, m), Person(11, n));
    hide PlaceAll, ByLength;
    assert Placed(src, Person(10, m), []) == first;
    var all := Placed(src, Person(11, n), first);
    assert all[1] == Span(at, at + |n|, Person(11, n)) && all[1] in all;
  }

  /** What the sort achieves between two names, exactly: some text puts the chip of the shorter inside the
      longer, unless the longer does not contain the shorter - in which case no order could. */
  lemma SplitsExactlyWhen(m: string, n: string)
    requires 0 < |n| <= |m|
    ensures (exists src :: Splits(src, m, n)) <==> Contains(m, n)
  {
    if Contains(m, n) {
      DoubleSplits(m, n);
    }
    forall src | Splits(src, m, n) ensures Contains(m, n) {
      TwoAreOrdered(m, n);
      var people := [Person(10, m), Person(11, n)];
      hide ByLength, PlaceAll, InsideA;
      var x :| x in PlaceAll(src, people, []) && x.who.id == 11 && InsideA(src, m, x.start, |n|);
      WhoIsListed(src, people, [], x);
      InsideOnlyContained(src, people, x, m);
    }
  }

  lemma {:induction false} WhoIsListed(src: string, people: seq<Person>, spans: seq<Span>, x: Span)
    requires x in PlaceAll(src, people, spans)
    ensures x in spans || x.who in people
    decreases |people|
  {
    if people != [] {
      hide Place;
      WhoIsListed(src, people[1..], Placed(src, people[0], spans), x);
    }
  }

  /** Two places of names are one and the same, or apart. */
  predicate Clear(m: string, p: nat, n: string, q: nat) {
    if m == n then p == q else p + |m| <= q || q + |n| <= p
  }

  /** Each of these names stands in the text at most once, and no two overlap there. */
  ghost predicate Unmixed(src: string, names: set<string>) {
    forall m, n, p, q :: m in names && n in names && At(src, m, p) && At(src, n, q) ==> Clear(m, p, n, q)
  }

  function NamesOf(people: seq<Person>): set<string> {
    set k | 0 <= k < |people| :: people[k].name
  }

  lemma NamesHead(people: seq<Person>)
    requires people != []
    ensures NamesOf(people) == {people[0].name} + NamesOf(people[1..])
  {
    forall n | n in NamesOf(people) ensures n in {people[0].name} + NamesOf(people[1..]) {
      var k :| 0 <= k < |people| && people[k].name == n;
      if k > 0 { assert people[1..][k - 1].name == n; }
    }
    forall n | n in NamesOf(people[1..]) ensures n in NamesOf(people) {
      var k :| 0 <= k < |people[1..]| && people[1..][k].name == n;
      assert people[k + 1].name == n;
    }
  }

  predicate OnName(src: string, names: set<string>, x: Span) {
    x.start <= x.end <= |src| && src[x.start..x.end] in names
  }

  /** Some chip stands exactly there. */
  predicate Chipped(spans: seq<Span>, at: nat, end: nat) {
    exists k :: 0 <= k < |spans| && spans[k].start == at && spans[k].end == end
  }

  /** The chips stand on these names, and every place of one has its chip. */
  ghost predicate Complete(src: string, names: set<string>, spans: seq<Span>) {
    && (forall k :: 0 <= k < |spans| ==> OnName(src, names, spans[k]))
    && (forall n, q: nat :: n in names && At(src, n, q) ==> Chipped(spans, q, q + |n|))
  }

  lemma ChippedStays(spans: seq<Span>, x: Span, at: nat, end: nat)
    requires Chipped(spans, at, end)
    ensures Chipped(spans + [x], at, end)
  {
    var k :| 0 <= k < |spans| && spans[k].start == at && spans[k].end == end;
    assert (spans + [x])[k] == spans[k];
  }

  lemma OneMoreOnName(src: string, names: set<string>, spans: seq<Span>, p: Person)
    requires forall k :: 0 <= k < |spans| ==> OnName(src, names, spans[k])
    ensures var after := Placed(src, p, spans);
            forall k :: 0 <= k < |after| ==> OnName(src, names + {p.name}, after[k])
  {
    PlaceIs(src, p.name, spans, 0);
    hide Place, Free;
  }

  lemma OneMoreChipped(src: string, names: set<string>, spans: seq<Span>, p: Person)
    requires Unmixed(src, names + {p.name}) && Complete(src, names, spans)
    ensures Complete(src, names + {p.name}, Placed(src, p, spans))
  {
    OneMoreOnName(src, names, spans, p);
    var after := Placed(src, p, spans);
    forall n, q: nat | n in names + {p.name} && At(src, n, q) ensures Chipped(after, q, q + |n|) {
      if n in names {
        assert Chipped(spans, q, q + |n|);
        hide *;
        PlacedStays(src, p, spans, q, q + |n|);
      } else {
        FreshNameIsFree(src, names, spans, p.name, q);
        assert forall at :: At(src, p.name, at) ==> Clear(p.name, at, p.name, q);
        hide Complete, Unmixed, Placed, Free;
        PlacedThere(src, p, spans, q);
      }
    }
  }

  lemma PlacedStays(src: string, p: Person, spans: seq<Span>, at: nat, end: nat)
    requires Chipped(spans, at, end)
    ensures Chipped(Placed(src, p, spans), at, end)
  {
    hide Place;
    var to := Place(src, p.name, spans, 0);
    if to.Some? {
      ChippedStays(spans, Span(to.value, to.value + |p.name|, p), at, end);
    }
  }

  /** If the only place of the name is free, the chip stands there. */
  lemma PlacedThere(src: string, p: Person, spans: seq<Span>, q: nat)
    requires Fitting(src, p.name, spans, q) && forall at :: At(src, p.name, at) ==> at == q
    ensures Chipped(Placed(src, p, spans), q, q + |p.name|)
  {
    PlaceIs(src, p.name, spans, 0);
    hide Place;
    assert Placed(src, p, spans)[|spans|] == Span(q, q + |p.name|, p);
  }

  lemma FreshNameIsFree(src: string, names: set<string>, spans: seq<Span>, name: string, q: nat)
    requires Unmixed(src, names + {name}) && Complete(src, names, spans) && name !in names && At(src, name, q)
    ensures Free(spans, q, q + |name|)
  {
    forall k | 0 <= k < |spans| ensures !Overlaps(q, q + |name|, spans[k]) {
      var x := spans[k];
      assert OnName(src, names, x);
      var other := src[x.start..x.end];
      assert At(src, other, x.start) && other != name;
      assert Clear(other, x.start, name, q);
    }
  }

  lemma FewerUnmixed(src: string, names: set<string>, more: set<string>)
    requires Unmixed(src, more) && names <= more
    ensures Unmixed(src, names)
  {
  }

  /** With such names every place of every name gets its chip. */
  lemma {:induction false} AllAreChipped(src: string, names: set<string>, people: seq<Person>, spans: seq<Span>)
    requires Unmixed(src, names + NamesOf(people)) && Complete(src, names, spans)
    ensures Complete(src, names + NamesOf(people), PlaceAll(src, people, spans))
    decreases |people|
  {
    if people == [] {
      assert names + NamesOf(people) == names;
    } else {
      hide Place, Placed, Complete, Unmixed, NamesOf;
      NamesHead(people);
      FewerUnmixed(src, names + {people[0].name}, names + NamesOf(people));
      OneMoreChipped(src, names, spans, people[0]);
      assert (names + {people[0].name}) + NamesOf(people[1..]) == names + NamesOf(people);
      AllAreChipped(src, names + {people[0].name}, people[1..], Placed(src, people[0], spans));
    }
  }

  /** So when the names placed before stand in the text at most once and apart from one another, no later
      chip stands inside one of them. */
  lemma NeverInside(src: string, people: seq<Person>, k: nat, j: nat, q: nat)
    requires Named(people) && j < k < |people| && Unmixed(src, NamesOf(people[..k])) && At(src, people[j].name, q)
    ensures var at := Place(src, people[k].name, PlaceAll(src, people[..k], []), 0);
            at.Some? ==> !(q <= at.value && at.value + |people[k].name| <= q + |people[j].name|)
  {
    var spans := PlaceAll(src, people[..k], []);
    assert {} + NamesOf(people[..k]) == NamesOf(people[..k]);
    AllAreChipped(src, {}, people[..k], []);
    PlaceIs(src, people[k].name, spans, 0);
    assert people[..k][j] == people[j] && people[j].name in NamesOf(people[..k]);
    hide Place, PlaceAll;
    assert Chipped(spans, q, q + |people[j].name|);
  }

  // ---------------------------------------------------------------- the loops

  /** `serviceChipsHtml` on the people it keeps. */
  method ServiceChips(src: string, list: seq<Person>) returns (out: seq<Piece>)
    requires Named(list)
    ensures Ready(src, Sorted(PlaceAll(src, ByLength(list), [])), 0)
    ensures out == Pieces(src, Sorted(PlaceAll(src, ByLength(list), [])), 0) && Visible(out) == src
  {
    var people := ByLength(list);
    StillNamed(list);
    ChipsKeepText(src, people);
    hide Place, Ready, Sorted, Pieces, Visible, ByLength;
    var spans: seq<Span> := [];
    var k := 0;
    assert people[0..] == people;
    while k < |people|
      invariant 0 <= k <= |people|
      invariant PlaceAll(src, people[k..], spans) == PlaceAll(src, people, [])
    {
      assert people[k..][0] == people[k] && people[k..][1..] == people[k + 1..];
      var name := people[k].name;
      var at := FindPlace(src, name, spans);
      if at.Some? {
        spans := spans + [Span(at.value, at.value + |name|, people[k])];
      }
      k := k + 1;
    }
    assert people[k..] == [];
    out := Join(src, Sorted(spans));
  }

  /** The inner loop: the next occurrence, until one is free. */
  method FindPlace(src: string, name: string, spans: seq<Span>) returns (at: Option<nat>)
    ensures at == Place(src, name, spans, 0)
  {
    var first := 0;
    at := Find(src, name, first);
    while at.Some? && !Free(spans, at.value, at.value + |name|)
      invariant at == Find(src, name, first) && Place(src, name, spans, first) == Place(src, name, spans, 0)
      decreases |src| + 1 - first
    {
      FindIs(src, name, first);
      first := at.value + 1;
      at := Find(src, name, first);
    }
  }

  method Join(src: string, spans: seq<Span>) returns (out: seq<Piece>)
    requires Ready(src, spans, 0)
    ensures out == Pieces(src, spans, 0)
  {
    hide Ready;
    out := [];
    var pos: nat := 0;
    var k := 0;
    assert spans[0..] == spans;
    while k < |spans|
      invariant 0 <= k <= |spans| && Ready(src, spans[k..], pos)
      invariant out + Pieces(src, spans[k..], pos) == Pieces(src, spans, 0)
    {
      var rest := spans[k..];
      assert rest[0] == spans[k] && rest[1..] == spans[k + 1..];
      TailReady(src, rest, pos);
      var two := [Plain(src[pos..spans[k].start]), Chip(spans[k].who)];
      assert out + (two + Pieces(src, rest[1..], spans[k].end)) == (out + two) + Pieces(src, rest[1..], spans[k].end);
      out := out + two;
      pos := spans[k].end;
      k := k + 1;
    }
    assert spans[k..] == [];
    assert pos <= |src| by { PosInText(src, spans[k..], pos); }
    out := out + [Plain(src[pos..])];
  }

  lemma PosInText(src: string, spans: seq<Span>, pos: nat)
    requires Ready(src, spans, pos)
    ensures pos <= |src|
  {
  }
}
