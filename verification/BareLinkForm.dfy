/** Which text makes a link without a scheme (app/js/bare-links.js), as a form: host, port and tail with
    what must not stand around them. */
module BareLinkForm {
  import opened Options
  import opened BareLinks

  predicate IsDigit(c: char) {
    '0' <= c <= '9'
  }

  /** One to five digits after a colon, and neither a digit nor another word character after them. */
  predicate IsPort(g: Rules, s: string, h: nat, p: nat) {
    && h + 2 <= p <= h + 6 && p <= |s| && s[h] == ':' && (forall j :: h < j < p ==> IsDigit(s[j]))
    && (p < |s| ==> !IsDigit(s[p]) && !g.wordAfterPort(s[p]))
  }

  /** Everything up to white space or a "<". */
  predicate IsTail(g: Rules, s: string, p: nat, e: nat) {
    && p <= e <= |s| && (forall j :: p <= j < e ==> !g.space(s[j]) && s[j] != '<')
    && (e < |s| ==> g.space(s[e]) || s[e] == '<')
  }

  /** The port that follows the host, or nothing; a colon followed by something else rules the link out. */
  predicate PortPart(g: Rules, s: string, h: nat, p: nat) {
    || IsPort(g, s, h, p)
    || (&& p == h && (forall q :: h <= q <= |s| ==> !IsPort(g, s, h, q))
        && !(h + 1 < |s| && s[h] == ':' && !g.space(s[h + 1])))
  }

  /** A path, query or fragment, or nothing; nothing only if no word goes on there. */
  predicate TailPart(g: Rules, s: string, p: nat, e: nat)
    requires p <= |s|
  {
    if p < |s| && s[p] in "/?#" then IsTail(g, s, p, e) else e == p && (p < |s| ==> !g.badAfter(s[p]))
  }

  /** Host i..h, with what follows, reaches to e, and is glued to nothing. */
  predicate Reaches(g: Rules, s: string, i: nat, h: nat, e: nat) {
    && (0 < i <= |s| ==> !g.badBefore(s[i - 1])) && (h < |s| ==> !g.badAfter(s[h]))
    && exists p :: h <= p <= |s| && PortPart(g, s, h, p) && TailPart(g, s, p, e)
  }

  lemma {:induction false} DigitsAre(s: string, p: nat)
    requires p <= |s|
    ensures var q := p + Digits(s, p);
            p <= q <= |s| && (forall j :: p <= j < q ==> IsDigit(s[j])) && (q < |s| ==> !IsDigit(s[q]))
    decreases |s| - p
  {
    if p < |s| && IsDigit(s[p]) {
      DigitsAre(s, p + 1);
    }
  }

  /** There is at most one port at a place, and its length is found. */
  lemma PortIs(g: Rules, s: string, h: nat, p: nat)
    requires h <= |s|
    ensures IsPort(g, s, h, p) <==> PortLength(g, s, h) > 0 && p == h + PortLength(g, s, h)
  {
    if h < |s| {
      DigitsAre(s, h + 1);
      var q := h + 1 + Digits(s, h + 1);
      assert h < p < q ==> IsDigit(s[p]);
      assert q < |s| ==> !IsDigit(s[q]);
    }
  }

  lemma {:induction false} TailIs(g: Rules, s: string, p: nat, e: nat)
    requires p <= |s|
    ensures TailEnd(g, s, p) == e <==> IsTail(g, s, p, e)
    decreases |s| - p
  {
    if p < |s| && !g.space(s[p]) && s[p] != '<' {
      TailIs(g, s, p + 1, e);
    }
  }

  /** How far the candidate reaches, exactly. */
  lemma ReachExactlyWhen(g: Rules, s: string, i: nat, h: nat, e: nat)
    requires i < h <= |s|
    ensures Reach(g, s, i, h) == Some(e) <==> Reaches(g, s, i, h, e)
  {
    var q := h + PortLength(g, s, h);
    forall p | h <= p <= |s| ensures PortPart(g, s, h, p) ==> p == q { PortIs(g, s, h, p); PortIs(g, s, h, q); }
    forall p | h <= p <= |s| ensures IsPort(g, s, h, p) <==> PortLength(g, s, h) > 0 && p == q { PortIs(g, s, h, p); }
    TailIs(g, s, q, e);
    hide PortLength, IsPort, TailEnd, IsTail;
    if Reach(g, s, i, h) == Some(e) {
      assert PortPart(g, s, h, q) && TailPart(g, s, q, e);
    }
  }

  /** What stands at i is the link l, exactly: the host with all its port and tail, less what trimming takes
      off its end, with nothing trimmed off the host, no backslash, and a suffix and a URL that will do. */
  lemma LinkExactlyWhen(g: Rules, s: string, i: nat, l: Link)
    ensures LinkAt(g, s, i) == Some(l) <==>
            && HostEnd(g, s, i).Some?
            && exists e ::
                 && HostEnd(g, s, i).value <= e <= |s| && Reaches(g, s, i, HostEnd(g, s, i).value, e)
                 && l == Link(i, i + |l.text|, Trim(s[i..e]))
                 && var size := HostEnd(g, s, i).value - i;
                    && size <= |l.text| && '\\' !in l.text && g.accepts(l.text[..size], l.text[size..]) && g.parses(l.text)
  {
    if HostEnd(g, s, i).Some? {
      var h := HostEnd(g, s, i).value;
      forall e: nat ensures Reach(g, s, i, h) == Some(e) <==> Reaches(g, s, i, h, e) {
        ReachExactlyWhen(g, s, i, h, e);
      }
      hide Reach, Reaches, Trim, HostEnd;
    }
  }

  /** So a candidate that does not end in something to trim is the link as it stands, path, query and all. */
  lemma WholeLink(g: Rules, s: string, i: nat, e: nat)
    requires HostEnd(g, s, i).Some? && HostEnd(g, s, i).value <= e <= |s|
    requires Reaches(g, s, i, HostEnd(g, s, i).value, e) && !Droppable(s[i..e])
    ensures var size := HostEnd(g, s, i).value - i;
            LinkAt(g, s, i) == Some(Link(i, e, s[i..e])) <==>
              && '\\' !in s[i..e] && g.accepts(s[i..e][..size], s[i..e][size..]) && g.parses(s[i..e])
  {
    ReachExactlyWhen(g, s, i, HostEnd(g, s, i).value, e);
    hide Reach, Reaches, HostEnd;
  }
}
