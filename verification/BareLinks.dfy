/** Finding links without a scheme in plain text (app/js/bare-links.js).  The Unicode character classes,
    the host pattern, the suffix tables and the URL parser are parameters. */
module BareLinks {
  import opened Options

  // ---------------------------------------------------------------- the end of a link

  const TRAIL_PUNCT := ".,;:!?'\"*>»”’…"
  const OPENERS := "([{"

  function OpenerOf(c: char): Option<char> {
    if c == ')' then Some('(') else if c == ']' then Some('[') else if c == '}' then Some('{') else None
  }

  /** Openers of this kind minus their closers. */
  function Balance(s: string, open: char): int {
    if s == [] then 0
    else
      var c := s[|s| - 1];
      Balance(s[..|s| - 1], open) + if c == open then 1 else if OpenerOf(c) == Some(open) then -1 else 0
  }

  /** Whether the last character goes: sentence punctuation, or a closing bracket whose kind has more
      closers than openers in s. */
  predicate Droppable(s: string)
    requires s != []
  {
    var c := s[|s| - 1];
    c in TRAIL_PUNCT || (OpenerOf(c).Some? && Balance(s, OpenerOf(c).value) < 0)
  }

  function Trim(s: string): (r: string)
    ensures |r| <= |s|
  {
    if s == [] || !Droppable(s) then s else Trim(s[..|s| - 1])
  }

  /** The result is the prefix that is left when no last character can go any more; trimming it again
      changes nothing. */
  lemma {:induction false} TrimIs(s: string)
    ensures Trim(s) <= s
    ensures Trim(s) == [] || !Droppable(Trim(s))
    ensures Trim(Trim(s)) == Trim(s)
    ensures forall n :: |Trim(s)| < n <= |s| ==> Droppable(s[..n])
  {
    if s != [] && Droppable(s) {
      var t := s[..|s| - 1];
      TrimIs(t);
      forall n | |Trim(s)| < n <= |s| ensures Droppable(s[..n]) {
        if n < |s| { assert s[..n] == t[..n]; } else { assert s[..n] == s; }
      }
    }
  }

  /** What trimming does to the balances: a kind of bracket in balance, or with openers left over, keeps
      its balance, and one with closers left over loses at most as many as that. */
  lemma {:induction false} TrimKeepsBalance(s: string, open: char)
    requires open in OPENERS
    ensures Balance(s, open) >= 0 ==> Balance(Trim(s), open) == Balance(s, open)
    ensures Balance(s, open) < 0 ==> Balance(s, open) <= Balance(Trim(s), open) <= 0
  {
    if s != [] && Droppable(s) {
      TrimKeepsBalance(s[..|s| - 1], open);
      var c := s[|s| - 1];
      assert c in TRAIL_PUNCT ==> c != open && OpenerOf(c) != Some(open);
      assert OpenerOf(c).Some? ==> c != open;
    }
  }

  lemma {:induction false} BalanceOfTwo(a: string, b: string, open: char)
    ensures Balance(a + b, open) == Balance(a, open) + Balance(b, open)
  {
    if b == [] {
      assert a + b == a;
    } else {
      assert (a + b)[..|a + b| - 1] == a + b[..|b| - 1];
      BalanceOfTwo(a, b[..|b| - 1], open);
    }
  }

  /** Trimming gets as far as a place, or stops before. */
  lemma {:induction false} TrimReaches(s: string, e: nat)
    requires e <= |s|
    ensures |Trim(s)| <= e ==> Trim(s) == Trim(s[..e])
  {
    if e < |s| && Droppable(s) {
      TrimReaches(s[..|s| - 1], e);
      assert s[..|s| - 1][..e] == s[..e];
    } else if e == |s| {
      assert s[..e] == s;
    }
  }

  /** When a closing bracket is lost although its opener stands inside, exactly: everything behind it
      goes, and before the pair there are more closers of its kind than openers. */
  lemma PairIsLostExactlyWhen(s: string, open: char, j: nat, e: nat)
    requires j < e < |s| && s[j] == open && OpenerOf(s[e]) == Some(open) && Balance(s[j..e + 1], open) == 0
    ensures |Trim(s)| <= e <==> |Trim(s)| <= e + 1 && Balance(s[..j], open) < 0
  {
    var t := s[..e + 1];
    TrimReaches(s, e + 1);
    assert t == s[..j] + s[j..e + 1];
    BalanceOfTwo(s[..j], s[j..e + 1], open);
    assert t[|t| - 1] == s[e];
  }

  /** So a pair behind a surplus closer is torn apart. */
  lemma PairIsLost()
    ensures Trim("a)b(c)") == "a)b(c"
  {
    var s := "a)b(c)";
    PairIsLostExactlyWhen(s, '(', 3, 5) by {
      assert s[3..6] == "(c)" && "(c)"[..2] == "(c" && "(c"[..1] == "(";
    }
    assert s[..3] == "a)b" && "a)b"[..2] == "a)" && "a)"[..1] == "a";
    assert s[..5] == "a)b(c" && !Droppable(s[..5]);
  }

  lemma {:induction false} BalanceSnoc(s: string, k: nat, open: char)
    requires k < |s|
    ensures Balance(s[..k + 1], open)
            == Balance(s[..k], open) + if s[k] == open then 1 else if OpenerOf(s[k]) == Some(open) then -1 else 0
  {
    assert s[..k + 1][..k] == s[..k];
  }

  /** The running balances. */
  function Balances(s: string): map<char, int> {
    map['(' := Balance(s, '('), '[' := Balance(s, '['), '{' := Balance(s, '{')]
  }

  /** The counts after one more character. */
  function Counted(bal: map<char, int>, c: char): map<char, int>
    requires bal.Keys == {'(', '[', '{'}
  {
    if c in bal then bal[c := bal[c] + 1]
    else if OpenerOf(c).Some? then bal[OpenerOf(c).value := bal[OpenerOf(c).value] - 1]
    else bal
  }

  lemma CountedIs(s: string, k: nat)
    requires k < |s|
    ensures Balances(s[..k + 1]) == Counted(Balances(s[..k]), s[k])
  {
    BalanceSnoc(s, k, '(');
    BalanceSnoc(s, k, '[');
    BalanceSnoc(s, k, '{');
    hide Balance;
  }

  lemma PunctuationIsNeutral(bal: map<char, int>, c: char)
    requires bal.Keys == {'(', '[', '{'} && c in TRAIL_PUNCT
    ensures Counted(bal, c) == bal
  {
  }

  method CountBrackets(s: string) returns (bal: map<char, int>)
    ensures bal == Balances(s)
  {
    hide Balance;
    bal := map['(' := 0, '[' := 0, '{' := 0];
    assert bal == Balances(s[..0]) by { NoBalance(); }
    for k := 0 to |s|
      invariant bal == Balances(s[..k])
    {
      var c := s[k];
      CountedIs(s, k);
      if c in bal {
        bal := bal[c := bal[c] + 1];
      } else if OpenerOf(c).Some? {
        bal := bal[OpenerOf(c).value := bal[OpenerOf(c).value] - 1];
      }
    }
    assert s[..|s|] == s;
  }

  lemma NoBalance()
    ensures Balances([]) == map['(' := 0, '[' := 0, '{' := 0]
  {
  }

  /** `trimLinkEnd`: one loop counts the brackets, the other drops characters and keeps the counts those
      of what remains. */
  method TrimLinkEnd(s: string) returns (r: string)
    ensures r == Trim(s)
  {
    hide Balance;
    var bal := CountBrackets(s);
    var end := |s|;
    assert s[..|s|] == s;
    while end > 0
      invariant 0 <= end <= |s|
      invariant bal == Balances(s[..end])
      invariant Trim(s[..end]) == Trim(s)
      decreases end
    {
      var c := s[end - 1];
      assert s[..end][..end - 1] == s[..end - 1];
      CountedIs(s, end - 1);
      if c in TRAIL_PUNCT {
        PunctuationIsNeutral(Balances(s[..end - 1]), c);
        end := end - 1;
        continue;
      }
      var open := OpenerOf(c);
      if open.Some? && bal[open.value] < 0 {
        bal := bal[open.value := bal[open.value] + 1];
        end := end - 1;
        continue;
      }
      break;
    }
    r := s[..end];
  }

  // ---------------------------------------------------------------- the scan

  /** The character classes and patterns: `run` and `start` look at a position (a letter may be two code
      units), `host` gives the end of the host that begins at a position, or the position itself. */
  datatype Rules = Rules(
    run: (string, nat) -> bool, start: (string, nat) -> bool, host: (string, nat) -> nat,
    badBefore: char -> bool, badAfter: char -> bool, wordAfterPort: char -> bool, space: char -> bool,
    accepts: (string, string) -> bool, parses: string -> bool)

  datatype Link = Link(start: nat, end: nat, text: string)

  function Digits(s: string, p: nat): nat
    decreases |s| - p
  {
    if p < |s| && '0' <= s[p] <= '9' then 1 + Digits(s, p + 1) else 0
  }

  lemma {:induction false} DigitsIn(s: string, p: nat)
    ensures p <= |s| ==> p + Digits(s, p) <= |s|
    decreases |s| - p
  {
    if p < |s| && '0' <= s[p] <= '9' {
      DigitsIn(s, p + 1);
    }
  }

  /** The length of ":port" at p, 0 if there is none. */
  function PortLength(g: Rules, s: string, p: nat): (n: nat)
    requires p <= |s|
    ensures p + n <= |s|
  {
    if p < |s| && s[p] == ':' then
      DigitsIn(s, p + 1);
      var d := Digits(s, p + 1);
      if 1 <= d <= 5 && (p + 1 + d == |s| || !g.wordAfterPort(s[p + 1 + d])) then 1 + d else 0
    else 0
  }

  function TailEnd(g: Rules, s: string, p: nat): (end: nat)
    requires p <= |s|
    ensures p <= end <= |s|
    decreases |s| - p
  {
    if p == |s| || g.space(s[p]) || s[p] == '<' then p else TailEnd(g, s, p + 1)
  }

  /** Where the host that begins at i ends, if one does. */
  function HostEnd(g: Rules, s: string, i: nat): (h: Option<nat>)
    ensures h.Some? ==> i < h.value <= |s|
  {
    if i < g.host(s, i) <= |s| then Some(g.host(s, i)) else None
  }

  /** How far the candidate reaches before it is trimmed; None when what follows rules it out. */
  function Reach(g: Rules, s: string, i: nat, hostEnd: nat): (end: Option<nat>)
    requires i < hostEnd <= |s|
    ensures end.Some? ==> hostEnd <= end.value <= |s|
  {
    if i > 0 && g.badBefore(s[i - 1]) then None
    else if hostEnd < |s| && g.badAfter(s[hostEnd]) then None
    else
      var port := PortLength(g, s, hostEnd);
      var p := hostEnd + port;
      if port == 0 && p + 1 < |s| && s[p] == ':' && !g.space(s[p + 1]) then None
      else if p < |s| && s[p] in "/?#" then Some(TailEnd(g, s, p))
      else if p < |s| && g.badAfter(s[p]) then None
      else Some(p)
  }

  /** The link that begins at i, if what stands there is one. */
  function LinkAt(g: Rules, s: string, i: nat): (l: Option<Link>)
    ensures l.Some? ==> HostEnd(g, s, i).Some? && l.value.start == i
                        && HostEnd(g, s, i).value <= l.value.end <= |s| && l.value.text == s[i..l.value.end]
  {
    var h := HostEnd(g, s, i);
    if h.None? then None
    else
      var end := Reach(g, s, i, h.value);
      if end.None? then None
      else
        var text := Trim(s[i..end.value]);
        TrimIs(s[i..end.value]);
        var size := h.value - i;
        if |text| < size || '\\' in text || !g.accepts(text[..size], text[size..]) || !g.parses(text) then None
        else Some(Link(i, i + |text|, text))
  }

  function RunStart(g: Rules, s: string, q: nat): (i: nat)
    requires q <= |s|
    ensures q <= i <= |s| && (i < |s| ==> g.run(s, i)) && forall j :: q <= j < i ==> !g.run(s, j)
    decreases |s| - q
  {
    if q == |s| || g.run(s, q) then q else RunStart(g, s, q + 1)
  }

  function RunEnd(g: Rules, s: string, i: nat): (e: nat)
    requires i <= |s|
    ensures i <= e <= |s| && (i < |s| && g.run(s, i) ==> i < e) && forall j :: i <= j < e ==> g.run(s, j)
    decreases |s| - i
  {
    if i == |s| || !g.run(s, i) then i else RunEnd(g, s, i + 1)
  }

  /** The scan from the end q of a run on, skipping runs that begin before `skipTo`. */
  function Scan(g: Rules, s: string, q: nat, skipTo: nat): seq<Link>
    requires q <= |s|
    decreases |s| - q
  {
    var i := RunStart(g, s, q);
    if i == |s| then []
    else
      var e := RunEnd(g, s, i);
      if i < skipTo || !g.start(s, i) || HostEnd(g, s, i).None? then Scan(g, s, e, skipTo)
      else
        var l := LinkAt(g, s, i);
        if l.None? then Scan(g, s, e, HostEnd(g, s, i).value)
        else [l.value] + Scan(g, s, e, l.value.end)
  }

  /** The body of the loop: what stands at the run that begins at i. */
  method LookAt(g: Rules, s: string, i: nat, skipTo: nat, ghost q: nat) returns (l: Option<Link>, next: nat)
    requires q <= |s| && i == RunStart(g, s, q) && i < |s|
    ensures Scan(g, s, q, skipTo) == (if l.Some? then [l.value] else []) + Scan(g, s, RunEnd(g, s, i), next)
  {
    hide LinkAt, HostEnd, RunEnd, RunStart;
    l, next := None, skipTo;
    if i >= skipTo && g.start(s, i) {
      var h := HostEnd(g, s, i);
      if h.Some? {
        next := h.value;
        l := LinkAt(g, s, i);
        if l.Some? {
          next := l.value.end;
        }
      }
    }
  }

  /** `findBareLinks`: the loop over the runs. */
  method FindBareLinks(g: Rules, s: string) returns (out: seq<Link>)
    ensures out == Scan(g, s, 0, 0)
  {
    hide RunEnd, RunStart, Scan;
    out := [];
    var q, skipTo := 0, 0;
    var i := RunStart(g, s, q);
    while i < |s|
      invariant q <= i <= |s| && i == RunStart(g, s, q)
      invariant out + Scan(g, s, q, skipTo) == Scan(g, s, 0, 0)
      decreases |s| - q
    {
      var l, next := LookAt(g, s, i, skipTo, q);
      q := RunEnd(g, s, i);
      var found := if l.Some? then [l.value] else [];
      Together(out, found, Scan(g, s, q, next));
      out := out + found;
      skipTo := next;
      i := RunStart(g, s, q);
    }
    NothingMore(g, s, q, skipTo);
    assert out + [] == out;
  }

  lemma Together(a: seq<Link>, b: seq<Link>, c: seq<Link>)
    ensures a + (b + c) == (a + b) + c
  {
  }

  lemma NothingMore(g: Rules, s: string, q: nat, skipTo: nat)
    requires q <= |s| && RunStart(g, s, q) == |s|
    ensures Scan(g, s, q, skipTo) == []
  {
  }

  // ---------------------------------------------------------------- the slices

  /** Slices of s, in order and apart from each other, none before `from`. */
  predicate Slices(s: string, links: seq<Link>, first: nat) {
    && (forall k :: 0 <= k < |links| ==>
          first <= links[k].start < links[k].end <= |s| && links[k].text == s[links[k].start..links[k].end])
    && (forall j, k :: 0 <= j < k < |links| ==> links[j].end <= links[k].start)
  }

  /** The text put together again from the links and the gaps between them. */
  function Rebuilt(s: string, links: seq<Link>, first: nat): string
    requires Slices(s, links, first) && first <= |s|
  {
    if links == [] then s[first..]
    else
      assert forall k :: 0 <= k < |links[1..]| ==> links[1..][k] == links[k + 1];
      s[first..links[0].start] + links[0].text + Rebuilt(s, links[1..], links[0].end)
  }

  lemma ScanBeyond(g: Rules, s: string, q: nat, skipTo: nat, first: nat)
    requires q <= |s| && Slices(s, Scan(g, s, q, skipTo), skipTo) && first <= skipTo
    ensures Slices(s, Scan(g, s, q, skipTo), first)
  {
  }

  /** The result is a list of disjoint slices of the text, in order. */
  lemma {:induction false} ScanIsSlices(g: Rules, s: string, q: nat, skipTo: nat)
    requires q <= |s|
    ensures Slices(s, Scan(g, s, q, skipTo), skipTo)
    decreases |s| - q
  {
    var i := RunStart(g, s, q);
    if i < |s| {
      var e := RunEnd(g, s, i);
      if i < skipTo || !g.start(s, i) || HostEnd(g, s, i).None? {
        ScanIsSlices(g, s, e, skipTo);
      } else if LinkAt(g, s, i).None? {
        var h := HostEnd(g, s, i).value;
        ScanIsSlices(g, s, e, h);
        ScanBeyond(g, s, e, h, skipTo);
      } else {
        var l := LinkAt(g, s, i).value;
        ScanIsSlices(g, s, e, l.end);
        ConsSlices(s, l, Scan(g, s, e, l.end), skipTo);
      }
    }
  }

  lemma ConsSlices(s: string, l: Link, rest: seq<Link>, first: nat)
    requires Slices(s, rest, l.end) && first <= l.start < l.end <= |s| && l.text == s[l.start..l.end]
    ensures Slices(s, [l] + rest, first)
  {
    var all := [l] + rest;
    assert forall k :: 0 < k < |all| ==> all[k] == rest[k - 1];
  }

  /** Interleaved with the gaps, the links give the text back. */
  lemma {:induction false} RebuiltIsText(s: string, links: seq<Link>, first: nat)
    requires Slices(s, links, first) && first <= |s|
    ensures Rebuilt(s, links, first) == s[first..]
  {
    if links != [] {
      assert forall k :: 0 <= k < |links[1..]| ==> links[1..][k] == links[k + 1];
      RebuiltIsText(s, links[1..], links[0].end);
      assert s[first..] == s[first..links[0].start] + s[links[0].start..links[0].end] + s[links[0].end..];
    }
  }

  /** `findBareLinks` as its callers use it: links and gaps make up the message, nothing lost or doubled. */
  lemma LinksAndGaps(g: Rules, s: string)
    ensures Slices(s, Scan(g, s, 0, 0), 0) && Rebuilt(s, Scan(g, s, 0, 0), 0) == s
  {
    ScanIsSlices(g, s, 0, 0);
    RebuiltIsText(s, Scan(g, s, 0, 0), 0);
  }

  /** A run of word characters that could begin a host. */
  predicate Begins(g: Rules, s: string, i: nat) {
    i < |s| && g.run(s, i) && (i == 0 || !g.run(s, i - 1)) && g.start(s, i) && HostEnd(g, s, i).Some?
  }

  /** How far the scan is committed after it looked at i: to the end of the link, or of a host that was
      turned down. */
  function Committed(g: Rules, s: string, i: nat): nat
    requires HostEnd(g, s, i).Some?
  {
    if LinkAt(g, s, i).Some? then LinkAt(g, s, i).value.end else HostEnd(g, s, i).value
  }

  /** The positions a scan tries as the beginning of a host. */
  function Looked(g: Rules, s: string, q: nat, skipTo: nat): set<nat>
    requires q <= |s|
    decreases |s| - q
  {
    var i := RunStart(g, s, q);
    if i == |s| then {}
    else
      var e := RunEnd(g, s, i);
      if i < skipTo || !g.start(s, i) || HostEnd(g, s, i).None? then Looked(g, s, e, skipTo)
      else {i} + Looked(g, s, e, Committed(g, s, i))
  }

  /** The scan tried j, and is committed beyond i. */
  predicate Covers(g: Rules, s: string, tried: set<nat>, j: nat, i: nat) {
    j in tried && j < i && HostEnd(g, s, j).Some? && i < Committed(g, s, j)
  }

  predicate Covered(g: Rules, s: string, tried: set<nat>, i: nat) {
    exists j :: j in tried && Covers(g, s, tried, j, i)
  }

  lemma {:induction false} LookedBeyond(g: Rules, s: string, q: nat, skipTo: nat, j: nat)
    requires q <= |s| && j in Looked(g, s, q, skipTo)
    ensures q <= j && HostEnd(g, s, j).Some?
    decreases |s| - q
  {
    hide LinkAt, HostEnd, Committed;
    var i := RunStart(g, s, q);
    var e := RunEnd(g, s, i);
    if i < skipTo || !g.start(s, i) || HostEnd(g, s, i).None? {
      LookedBeyond(g, s, e, skipTo, j);
    } else if j != i {
      LookedBeyond(g, s, e, Committed(g, s, i), j);
    }
  }

  lemma NoneBefore(g: Rules, s: string, q: nat, skipTo: nat, i: nat)
    requires i <= q <= |s|
    ensures !Covered(g, s, Looked(g, s, q, skipTo), i) && (i < q ==> i !in Looked(g, s, q, skipTo))
  {
    var tried := Looked(g, s, q, skipTo);
    forall j | j in tried ensures q <= j {
      LookedBeyond(g, s, q, skipTo, j);
    }
  }

  lemma OneMoreTried(g: Rules, s: string, r: nat, rest: set<nat>, i: nat)
    requires r < i && HostEnd(g, s, r).Some?
    ensures Covered(g, s, {r} + rest, i) <==> i < Committed(g, s, r) || Covered(g, s, rest, i)
  {
    hide HostEnd, Committed;
    var all := {r} + rest;
    if i < Committed(g, s, r) {
      assert Covers(g, s, all, r, i);
    }
    if Covered(g, s, rest, i) {
      var j :| j in rest && Covers(g, s, rest, j, i);
      assert j in all && Covers(g, s, all, j, i);
    }
    if Covered(g, s, all, i) {
      var j :| j in all && Covers(g, s, all, j, i);
      assert j == r || Covers(g, s, rest, j, i);
    }
  }

  lemma {:induction false} LookedExactlyWhen(g: Rules, s: string, q: nat, skipTo: nat, i: nat)
    requires q <= i && Begins(g, s, i) && (q == 0 || q == |s| || !g.run(s, q))
    ensures i in Looked(g, s, q, skipTo) <==> skipTo <= i && !Covered(g, s, Looked(g, s, q, skipTo), i)
    decreases |s| - q
  {
    hide LinkAt, HostEnd, RunEnd, RunStart, Covered, Committed;
    var r := RunStart(g, s, q);
    assert r <= i;
    var e := RunEnd(g, s, r);
    RunStops(g, s, r);
    if r == i {
      NoneBefore(g, s, e, skipTo, i);
      NoneBefore(g, s, e, Committed(g, s, i), i);
      OnlyItself(g, s, i, Looked(g, s, e, Committed(g, s, i)));
    } else {
      EndsBefore(g, s, r, i);
      if r < skipTo || !g.start(s, r) || HostEnd(g, s, r).None? {
        LookedExactlyWhen(g, s, e, skipTo, i);
      } else {
        LookedExactlyWhen(g, s, e, Committed(g, s, r), i);
        OneMoreTried(g, s, r, Looked(g, s, e, Committed(g, s, r)), i);
      }
    }
  }

  lemma OnlyItself(g: Rules, s: string, i: nat, rest: set<nat>)
    requires !Covered(g, s, rest, i)
    ensures !Covered(g, s, {i} + rest, i)
  {
    hide HostEnd, Committed;
    forall j | j in {i} + rest ensures !Covers(g, s, {i} + rest, j, i) {
      assert j in rest ==> !Covers(g, s, rest, j, i);
    }
  }

  /** The links found are those at the positions tried. */
  lemma {:induction false} ScanIsLooked(g: Rules, s: string, q: nat, skipTo: nat, l: Link)
    requires q <= |s|
    ensures l in Scan(g, s, q, skipTo) <==> l.start in Looked(g, s, q, skipTo) && LinkAt(g, s, l.start) == Some(l)
    decreases |s| - q
  {
    hide RunEnd, RunStart, HostEnd;
    var i := RunStart(g, s, q);
    if i < |s| {
      var e := RunEnd(g, s, i);
      var here := LinkAt(g, s, i);
      hide LinkAt;
      if i < skipTo || !g.start(s, i) || HostEnd(g, s, i).None? {
        ScanIsLooked(g, s, e, skipTo, l);
      } else {
        ScanIsLooked(g, s, e, Committed(g, s, i), l);
        if l.start == i {
          NoneBefore(g, s, e, Committed(g, s, i), i);
        }
      }
    }
  }

  lemma {:induction false} RunStops(g: Rules, s: string, i: nat)
    requires i <= |s|
    ensures RunEnd(g, s, i) == |s| || !g.run(s, RunEnd(g, s, i))
    decreases |s| - i
  {
    if i < |s| && g.run(s, i) {
      RunStops(g, s, i + 1);
    }
  }

  lemma EndsBefore(g: Rules, s: string, r: nat, i: nat)
    requires r < i && Begins(g, s, i)
    ensures RunEnd(g, s, r) <= i
  {
    assert !g.run(s, i - 1);
  }

  /** What is found, exactly: whatever stands at the beginning of a run as a link, unless the scan is
      already committed beyond it by a link or a rejected host it tried before. */
  lemma FindsEveryLink(g: Rules, s: string, i: nat)
    requires Begins(g, s, i) && LinkAt(g, s, i).Some?
    ensures LinkAt(g, s, i).value in Scan(g, s, 0, 0) <==> !Covered(g, s, Looked(g, s, 0, 0), i)
  {
    LookedExactlyWhen(g, s, 0, 0, i);
    ScanIsLooked(g, s, 0, 0, LinkAt(g, s, i).value);
  }

  /** Nothing else is found. */
  lemma {:induction false} FindsOnlyLinks(g: Rules, s: string, q: nat, skipTo: nat, l: Link)
    requires q <= |s| && l in Scan(g, s, q, skipTo)
    ensures LinkAt(g, s, l.start) == Some(l) && g.run(s, l.start) && g.start(s, l.start)
    decreases |s| - q
  {
    var i := RunStart(g, s, q);
    var e := RunEnd(g, s, i);
    if i < skipTo || !g.start(s, i) || HostEnd(g, s, i).None? {
      FindsOnlyLinks(g, s, e, skipTo, l);
    } else if LinkAt(g, s, i).None? {
      FindsOnlyLinks(g, s, e, HostEnd(g, s, i).value, l);
    } else if l != LinkAt(g, s, i).value {
      FindsOnlyLinks(g, s, e, LinkAt(g, s, i).value.end, l);
    }
  }
}
