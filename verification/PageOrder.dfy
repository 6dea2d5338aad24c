/** The reading order of the documentation: a depth-first walk of the toctree with one shared set of seen pages. The
    toctree may share children and have cycles. */
module PageOrder {
  type Page = string

  /** The toctree includes of each page; `pages` holds every page there is. */
  datatype Toctree = Toctree(includes: map<Page, seq<Page>>, pages: set<Page>)
  {
    function Children(p: Page): seq<Page> { if p in includes then includes[p] else [] }

    ghost predicate Closed() { forall p, c | c in Children(p) :: c in pages }
  }

  ghost predicate NoRepeats(s: seq<Page>) { forall i, j | 0 <= i < j < |s| :: s[i] != s[j] }

  function SetOf(s: seq<Page>): set<Page> { set x | x in s }

  /** What walking a list of children adds to the order, and the seen set after it. */
  datatype Walked = Walked(order: seq<Page>, seen: set<Page>)

  function Walk(t: Toctree, kids: seq<Page>, seen: set<Page>): (w: Walked)
    requires forall k | k in kids :: k in t.pages
    requires t.Closed()
    ensures w.seen == seen + SetOf(w.order)
    decreases t.pages - seen, |kids|
  {
    if kids == [] then Walked([], seen)
    else if kids[0] in seen then Walk(t, kids[1..], seen)
    else
      assert kids[0] in t.pages - seen;
      var inner := Walk(t, t.Children(kids[0]), seen + {kids[0]});
      assert t.pages - inner.seen < t.pages - seen;
      var rest := Walk(t, kids[1..], inner.seen);
      Walked([kids[0]] + inner.order + rest.order, rest.seen)
  }

  // ---- each page once ------------------------------------------------------------------------------

  lemma {:induction false} WalkDistinct(t: Toctree, kids: seq<Page>, seen: set<Page>)
    requires (forall k | k in kids :: k in t.pages) && t.Closed()
    ensures NoRepeats(Walk(t, kids, seen).order)
    ensures forall p | p in Walk(t, kids, seen).order :: p !in seen
    decreases t.pages - seen, |kids|
  {
    if kids != [] {
      if kids[0] in seen {
        WalkDistinct(t, kids[1..], seen);
      } else {
        assert kids[0] in t.pages - seen;
        var inner := Walk(t, t.Children(kids[0]), seen + {kids[0]});
        WalkDistinct(t, t.Children(kids[0]), seen + {kids[0]});
        WalkDistinct(t, kids[1..], inner.seen);
        JoinDistinct([kids[0]], inner.order);
        JoinDistinct([kids[0]] + inner.order, Walk(t, kids[1..], inner.seen).order);
      }
    }
  }

  lemma JoinDistinct(a: seq<Page>, b: seq<Page>)
    requires NoRepeats(a) && NoRepeats(b) && forall p | p in b :: p !in a
    ensures NoRepeats(a + b)
  {
    forall i, j | 0 <= i < j < |a + b| ensures (a + b)[i] != (a + b)[j] {
      if i < |a| <= j { assert b[j - |a|] in b; }
    }
  }

  /** Nothing reachable is left behind: the children walked, and the children of every page added, are all seen. */
  lemma {:induction false} WalkCloses(t: Toctree, kids: seq<Page>, seen: set<Page>)
    requires (forall k | k in kids :: k in t.pages) && t.Closed()
    ensures forall k | k in kids :: k in Walk(t, kids, seen).seen
    ensures forall p, c | p in Walk(t, kids, seen).order && c in t.Children(p) :: c in Walk(t, kids, seen).seen
    decreases t.pages - seen, |kids|
  {
    if kids != [] {
      if kids[0] in seen {
        WalkCloses(t, kids[1..], seen);
      } else {
        assert kids[0] in t.pages - seen;
        var inner := Walk(t, t.Children(kids[0]), seen + {kids[0]});
        WalkCloses(t, t.Children(kids[0]), seen + {kids[0]});
        WalkCloses(t, kids[1..], inner.seen);
      }
    }
  }

  // ---- reachability ------------------------------------------------------------------------------------

  /** A path along includes that avoids a set of pages. */
  predicate Path(t: Toctree, p: seq<Page>, avoid: set<Page>) {
    && p != [] && (forall i | 0 <= i < |p| :: p[i] !in avoid)
    && forall i | 0 <= i < |p| - 1 :: p[i + 1] in t.Children(p[i])
  }

  ghost predicate Reaches(t: Toctree, a: Page, b: Page, avoid: set<Page>) {
    exists p :: Path(t, p, avoid) && p[0] == a && p[|p| - 1] == b
  }

  lemma PathInside(t: Toctree, p: seq<Page>, avoid: set<Page>, done: set<Page>, n: nat)
    requires Path(t, p, avoid) && p[0] in done && n < |p|
    requires forall x, c | x in done && x !in avoid && c in t.Children(x) :: c in done
    ensures p[n] in done
    decreases n
  {
    if n > 0 { PathInside(t, p, avoid, done, n - 1); }
  }

  lemma Extends(t: Toctree, a: Page, k: Page, b: Page, avoid: set<Page>, less: set<Page>)
    requires Reaches(t, k, b, avoid) && less <= avoid && a !in less && k in t.Children(a)
    ensures Reaches(t, a, b, less)
  {
    var p :| Path(t, p, avoid) && p[0] == k && p[|p| - 1] == b;
    assert Path(t, [a] + p, less);
  }

  lemma Avoids(t: Toctree, a: Page, b: Page, avoid: set<Page>, less: set<Page>)
    requires Reaches(t, a, b, avoid) && less <= avoid
    ensures Reaches(t, a, b, less)
  {
    var p :| Path(t, p, avoid) && p[0] == a && p[|p| - 1] == b;
    assert Path(t, p, less);
  }

  lemma {:induction false} WalkReachable(t: Toctree, kids: seq<Page>, seen: set<Page>, b: Page)
    requires (forall k | k in kids :: k in t.pages) && t.Closed() && b in Walk(t, kids, seen).order
    ensures exists k :: k in kids && Reaches(t, k, b, seen)
    decreases t.pages - seen, |kids|
  {
    if kids[0] in seen {
      WalkReachable(t, kids[1..], seen, b);
    } else {
      var c := kids[0];
      assert c in t.pages - seen;
      var inner := Walk(t, t.Children(c), seen + {c});
      if b == c {
        assert Path(t, [c], seen);
      } else if b in inner.order {
        WalkReachable(t, t.Children(c), seen + {c}, b);
        var k :| k in t.Children(c) && Reaches(t, k, b, seen + {c});
        Extends(t, c, k, b, seen + {c}, seen);
      } else {
        WalkReachable(t, kids[1..], inner.seen, b);
        var k :| k in kids[1..] && Reaches(t, k, b, inner.seen);
        Avoids(t, k, b, inner.seen, seen);
      }
    }
  }

  /** What is added is exactly what the unseen part of the toctree reaches from the children. */
  lemma WalkExactly(t: Toctree, kids: seq<Page>, seen: set<Page>, b: Page)
    requires (forall k | k in kids :: k in t.pages) && t.Closed()
    ensures b in Walk(t, kids, seen).order <==> exists k :: k in kids && Reaches(t, k, b, seen)
  {
    var w := Walk(t, kids, seen);
    if b in w.order { WalkReachable(t, kids, seen, b); }
    if k :| k in kids && Reaches(t, k, b, seen) {
      WalkCloses(t, kids, seen);
      var p :| Path(t, p, seen) && p[0] == k && p[|p| - 1] == b;
      PathInside(t, p, seen, w.seen, |p| - 1);
      assert p[|p| - 1] !in seen;
    }
  }

  // ---- preorder ------------------------------------------------------------------------------------------

  /** The page at `i` opens a block: it and all that follows up to `j`, which are exactly the pages it reaches past
      the pages before it. */
  ghost predicate Block(t: Toctree, order: seq<Page>, seen: set<Page>, i: nat, j: nat)
    requires i < j <= |order|
  {
    forall b :: b in order[i..j] <==> Reaches(t, order[i], b, seen + SetOf(order[..i]))
  }

  ghost predicate OpensBlock(t: Toctree, order: seq<Page>, seen: set<Page>, i: nat) {
    exists j :: i < j <= |order| && Block(t, order, seen, i, j)
  }

  ghost predicate Preorder(t: Toctree, order: seq<Page>, seen: set<Page>) {
    forall i | 0 <= i < |order| :: OpensBlock(t, order, seen, i)
  }

  lemma FirstBlock(t: Toctree, c: Page, seen: set<Page>, b: Page)
    requires c in t.pages && t.Closed() && c !in seen
    ensures b in [c] + Walk(t, t.Children(c), seen + {c}).order <==> Reaches(t, c, b, seen)
  {
    var inner := Walk(t, t.Children(c), seen + {c});
    if b in inner.order {
      WalkReachable(t, t.Children(c), seen + {c}, b);
      var k :| k in t.Children(c) && Reaches(t, k, b, seen + {c});
      Extends(t, c, k, b, seen + {c}, seen);
    }
    if b == c { assert Path(t, [c], seen); }
    if Reaches(t, c, b, seen) {
      WalkCloses(t, t.Children(c), seen + {c});
      var p :| Path(t, p, seen) && p[0] == c && p[|p| - 1] == b;
      PathInside(t, p, seen, inner.seen, |p| - 1);
      assert p[|p| - 1] !in seen;
    }
  }

  lemma BlockShifts(t: Toctree, before: seq<Page>, order: seq<Page>, after: seq<Page>, seen: set<Page>, i: nat, j: nat)
    requires i < j <= |order| && Block(t, order, seen + SetOf(before), i, j)
    ensures Block(t, before + order + after, seen, |before| + i, |before| + j)
  {
    var all := before + order + after;
    assert all[|before| + i..|before| + j] == order[i..j];
    assert all[..|before| + i] == before + order[..i];
    assert SetOf(all[..|before| + i]) == SetOf(before) + SetOf(order[..i]);
    assert seen + SetOf(before) + SetOf(order[..i]) == seen + SetOf(all[..|before| + i]);
  }

  /** The walk is a preorder: every page comes right before everything it reaches that was not there yet. */
  lemma {:induction false} WalkPreorder(t: Toctree, kids: seq<Page>, seen: set<Page>)
    requires (forall k | k in kids :: k in t.pages) && t.Closed()
    ensures Preorder(t, Walk(t, kids, seen).order, seen)
    decreases t.pages - seen, |kids|
  {
    if kids != [] {
      if kids[0] in seen {
        WalkPreorder(t, kids[1..], seen);
      } else {
        var c := kids[0];
        assert c in t.pages - seen;
        var inner := Walk(t, t.Children(c), seen + {c});
        var rest := Walk(t, kids[1..], inner.seen);
        WalkPreorder(t, t.Children(c), seen + {c});
        WalkPreorder(t, kids[1..], inner.seen);
        JoinPreorder(t, c, seen, inner.order, rest.order);
      }
    }
  }

  lemma {:induction false} JoinPreorder(t: Toctree, c: Page, seen: set<Page>, inner: seq<Page>, rest: seq<Page>)
    requires c in t.pages && t.Closed() && c !in seen && inner == Walk(t, t.Children(c), seen + {c}).order
    requires Preorder(t, inner, seen + {c}) && Preorder(t, rest, seen + {c} + SetOf(inner))
    ensures Preorder(t, [c] + inner + rest, seen)
  {
    hide Walk, Reaches, Block;
    var all := [c] + inner + rest;
    forall i | 0 <= i < |all| ensures OpensBlock(t, all, seen, i) {
      if i == 0 {
        OpensFirst(t, c, seen, inner, rest);
      } else if i <= |inner| {
        assert OpensBlock(t, inner, seen + {c}, i - 1);
        assert SetOf([c]) == {c};
        OpensShifted(t, [c], inner, rest, seen, i - 1);
      } else {
        var m := 1 + |inner|;
        assert OpensBlock(t, rest, seen + {c} + SetOf(inner), i - m);
        assert seen + SetOf([c] + inner) == seen + {c} + SetOf(inner);
        OpensShifted(t, [c] + inner, rest, [], seen, i - m);
        assert [c] + inner + rest + [] == all;
      }
    }
  }

  lemma OpensFirst(t: Toctree, c: Page, seen: set<Page>, inner: seq<Page>, rest: seq<Page>)
    requires c in t.pages && t.Closed() && c !in seen && inner == Walk(t, t.Children(c), seen + {c}).order
    ensures OpensBlock(t, [c] + inner + rest, seen, 0)
  {
    hide Walk, Reaches;
    var all := [c] + inner + rest;
    assert all[0..1 + |inner|] == [c] + inner && seen + SetOf(all[..0]) == seen;
    forall b ensures b in [c] + inner <==> Reaches(t, c, b, seen) { FirstBlock(t, c, seen, b); }
    assert Block(t, all, seen, 0, 1 + |inner|);
  }

  lemma OpensShifted(t: Toctree, before: seq<Page>, order: seq<Page>, after: seq<Page>, seen: set<Page>, i: nat)
    requires i < |order| && OpensBlock(t, order, seen + SetOf(before), i)
    ensures OpensBlock(t, before + order + after, seen, |before| + i)
  {
    hide Block;
    var j :| i < j <= |order| && Block(t, order, seen + SetOf(before), i, j);
    BlockShifts(t, before, order, after, seen, i, j);
  }

  // ---- the worklist ------------------------------------------------------------------------------------------

  /** Depth-first by a worklist: take the first pending page, and put its children before the rest. */
  function Worklist(t: Toctree, work: seq<Page>, seen: set<Page>): seq<Page>
    requires forall k | k in work :: k in t.pages
    requires t.Closed()
    decreases t.pages - seen, |work|
  {
    if work == [] then []
    else if work[0] in seen then Worklist(t, work[1..], seen)
    else
      assert work[0] in t.pages - seen;
      [work[0]] + Worklist(t, t.Children(work[0]) + work[1..], seen + {work[0]})
  }

  /** Children are taken in their listed order: the recursive walk and the worklist give one order. */
  lemma {:induction false} WalkIsWorklist(t: Toctree, kids: seq<Page>, later: seq<Page>, seen: set<Page>)
    requires (forall k | k in kids + later :: k in t.pages) && t.Closed()
    requires forall k | k in kids :: k in t.pages
    ensures (forall k | k in later :: k in t.pages) &&
            Worklist(t, kids + later, seen) == Walk(t, kids, seen).order + Worklist(t, later, Walk(t, kids, seen).seen)
    decreases t.pages - seen, |kids|
  {
    forall k | k in later ensures k in t.pages { assert k in kids + later; }
    if kids == [] {
      assert kids + later == later;
    } else {
      assert (kids + later)[1..] == kids[1..] + later;
      if kids[0] in seen {
        WalkIsWorklist(t, kids[1..], later, seen);
      } else {
        var c := kids[0];
        assert c in t.pages - seen;
        var inner := Walk(t, t.Children(c), seen + {c});
        WalkIsWorklist(t, t.Children(c), kids[1..] + later, seen + {c});
        WalkIsWorklist(t, kids[1..], later, inner.seen);
      }
    }
  }

  // ---- `_ordered_pages` ----------------------------------------------------------------------------------------

  class Order {
    var seen: set<Page>
    var order: seq<Page>

    constructor (root: Page)
      ensures seen == {root} && order == [root]
    {
      seen := {root};
      order := [root];
    }

    method Visit(t: Toctree, docname: Page)
      requires t.Closed()
      modifies this
      ensures order == old(order) + Walk(t, t.Children(docname), old(seen)).order
      ensures seen == Walk(t, t.Children(docname), old(seen)).seen
      decreases t.pages - seen
    {
      var kids := t.Children(docname);
      for i := 0 to |kids|
        invariant old(seen) <= seen
        invariant order + Walk(t, kids[i..], seen).order == old(order) + Walk(t, kids, old(seen)).order
        invariant Walk(t, kids[i..], seen).seen == Walk(t, kids, old(seen)).seen
      {
        assert kids[i..][1..] == kids[i + 1..];
        if kids[i] !in seen {
          ghost var before, was := seen, order;
          seen := seen + {kids[i]};
          order := order + [kids[i]];
          assert kids[i] in t.pages - before;
          Visit(t, kids[i]);
          Glue(was, kids[i], Walk(t, t.Children(kids[i]), before + {kids[i]}).order, Walk(t, kids[i + 1..], seen).order);
        }
      }
    }
  }

  lemma Glue(a: seq<Page>, c: Page, inner: seq<Page>, rest: seq<Page>)
    ensures a + [c] + inner + rest == a + ([c] + inner + rest)
  {
  }

  /** The pages in reading order: the root first, each page the root reaches exactly once and nothing else, every page
      right before what it is first to reach, children in their listed order. */
  method OrderedPages(t: Toctree, root: Page) returns (order: seq<Page>)
    requires t.Closed() && root in t.pages
    ensures order != [] && order[0] == root && NoRepeats(order)
    ensures forall p :: p in order <==> Reaches(t, root, p, {})
    ensures Preorder(t, order, {})
    ensures order == Worklist(t, [root], {})
  {
    var o := new Order(root);
    o.Visit(t, root);
    order := o.order;
    ghost var w := Walk(t, [root], {});
    ghost var inner := Walk(t, t.Children(root), {} + {root});
    assert {} + {root} == {root} && [root][1..] == [];
    assert Walk(t, [root][1..], inner.seen).order == [];
    assert w.order == [root] + inner.order + [];
    assert order == w.order;
    WalkDistinct(t, [root], {});
    WalkPreorder(t, [root], {});
    WalkIsWorklist(t, [root], [], {});
    assert [root] + [] == [root];
    forall p ensures p in order <==> Reaches(t, root, p, {}) {
      WalkExactly(t, [root], {}, p);
    }
  }

  // ---- `_subtree`: the same walk as an outline -----------------------------------------------------------------

  datatype Line = Line(page: Page, depth: nat)

  function Outline(t: Toctree, kids: seq<Page>, depth: nat, seen: set<Page>): seq<Line>
    requires forall k | k in kids :: k in t.pages
    requires t.Closed()
    decreases t.pages - seen, |kids|
  {
    if kids == [] then []
    else if kids[0] in seen then Outline(t, kids[1..], depth, seen)
    else
      assert kids[0] in t.pages - seen;
      var inner := Walk(t, t.Children(kids[0]), seen + {kids[0]});
      assert t.pages - inner.seen < t.pages - seen;
      [Line(kids[0], depth)] + Outline(t, t.Children(kids[0]), depth + 1, seen + {kids[0]})
      + Outline(t, kids[1..], depth, inner.seen)
  }

  function PagesOf(lines: seq<Line>): seq<Page> { seq(|lines|, i requires 0 <= i < |lines| => lines[i].page) }

  /** The line's parent is the nearest line above that is one less indented, or the outline's own page. */
  ghost predicate Nested(t: Toctree, lines: seq<Line>, from: seq<Page>, depth: nat, i: nat)
    requires i < |lines|
  {
    || (lines[i].depth == depth && lines[i].page in from)
    || exists j :: 0 <= j < i && Under(t, lines, j, i)
  }

  ghost predicate Under(t: Toctree, lines: seq<Line>, j: nat, i: nat)
    requires j < i < |lines|
  {
    && lines[j].depth + 1 == lines[i].depth && lines[i].page in t.Children(lines[j].page)
    && forall k | j < k < i :: lines[k].depth >= lines[i].depth
  }

  ghost predicate IsOutline(t: Toctree, lines: seq<Line>, from: seq<Page>, depth: nat) {
    && (forall i | 0 <= i < |lines| :: lines[i].depth >= depth)
    && forall i | 0 <= i < |lines| :: Nested(t, lines, from, depth, i)
  }

  /** Lines put before an outline, none of them shallower, leave its nesting as it is. */
  lemma NestedAfter(t: Toctree, before: seq<Line>, lines: seq<Line>, after: seq<Line>, from: seq<Page>, depth: nat, i: nat)
    requires i < |lines| && Nested(t, lines, from, depth, i)
    ensures Nested(t, before + lines + after, from, depth, |before| + i)
  {
    var all, m := before + lines + after, |before|;
    if !(lines[i].depth == depth && lines[i].page in from) {
      var j :| 0 <= j < i && Under(t, lines, j, i);
      UnderAfter(t, before, lines, after, j, i);
    } else {
      assert all[m + i] == lines[i];
    }
  }

  lemma UnderAfter(t: Toctree, before: seq<Line>, lines: seq<Line>, after: seq<Line>, j: nat, i: nat)
    requires j < i < |lines| && Under(t, lines, j, i)
    ensures Under(t, before + lines + after, |before| + j, |before| + i)
  {
    var all, m := before + lines + after, |before|;
    assert all[m + i] == lines[i] && all[m + j] == lines[j];
    forall k | m + j < k < m + i ensures all[k].depth >= all[m + i].depth { assert all[k] == lines[k - m]; }
  }

  /** The lines under a page nest in it. */
  lemma NestedUnder(t: Toctree, c: Page, depth: nat, inner: seq<Line>, after: seq<Line>, from: seq<Page>, i: nat)
    requires i < |inner| && Nested(t, inner, t.Children(c), depth + 1, i)
    requires forall k | 0 <= k < |inner| :: inner[k].depth >= depth + 1
    ensures Nested(t, [Line(c, depth)] + inner + after, from, depth, 1 + i)
  {
    var all := [Line(c, depth)] + inner + after;
    if inner[i].depth == depth + 1 && inner[i].page in t.Children(c) {
      UnderFirst(t, c, depth, inner, after, i);
    } else {
      var j :| 0 <= j < i && Under(t, inner, j, i);
      UnderAfter(t, [Line(c, depth)], inner, after, j, i);
    }
  }

  lemma UnderFirst(t: Toctree, c: Page, depth: nat, inner: seq<Line>, after: seq<Line>, i: nat)
    requires i < |inner| && inner[i].depth == depth + 1 && inner[i].page in t.Children(c)
    requires forall k | 0 <= k < |inner| :: inner[k].depth >= depth + 1
    ensures Under(t, [Line(c, depth)] + inner + after, 0, 1 + i)
  {
    var all := [Line(c, depth)] + inner + after;
    assert all[0] == Line(c, depth) && all[1 + i] == inner[i];
    forall k | 0 < k < 1 + i ensures all[k].depth >= all[1 + i].depth { assert all[k] == inner[k - 1]; }
  }

  lemma JoinOutline(t: Toctree, kids: seq<Page>, c: Page, depth: nat, inner: seq<Line>, rest: seq<Line>)
    requires c in kids && IsOutline(t, inner, t.Children(c), depth + 1) && IsOutline(t, rest, kids, depth)
    ensures IsOutline(t, [Line(c, depth)] + inner + rest, kids, depth)
  {
    hide Under;
    var all := [Line(c, depth)] + inner + rest;
    forall i | 0 <= i < |all| ensures Nested(t, all, kids, depth, i) {
      if 0 < i <= |inner| {
        assert Nested(t, inner, t.Children(c), depth + 1, i - 1);
        NestedUnder(t, c, depth, inner, rest, kids, i - 1);
      } else if i > |inner| {
        assert Nested(t, rest, kids, depth, i - 1 - |inner|);
        NestedAfter(t, [Line(c, depth)] + inner, rest, [], kids, depth, i - 1 - |inner|);
        assert [Line(c, depth)] + inner + rest + [] == all;
      }
    }
  }

  /** The outline lists the pages of the walk in its order, each nested under a page that includes it. */
  lemma {:induction false} OutlineWalks(t: Toctree, kids: seq<Page>, depth: nat, seen: set<Page>)
    requires (forall k | k in kids :: k in t.pages) && t.Closed()
    ensures PagesOf(Outline(t, kids, depth, seen)) == Walk(t, kids, seen).order
    ensures IsOutline(t, Outline(t, kids, depth, seen), kids, depth)
    decreases t.pages - seen, |kids|
  {
    hide Nested;
    if kids != [] {
      if kids[0] in seen {
        OutlineWalks(t, kids[1..], depth, seen);
        MoreParents(t, Outline(t, kids[1..], depth, seen), kids[1..], kids, depth);
      } else {
        var c := kids[0];
        assert c in t.pages - seen;
        var inner := Walk(t, t.Children(c), seen + {c});
        OutlineWalks(t, t.Children(c), depth + 1, seen + {c});
        OutlineWalks(t, kids[1..], depth, inner.seen);
        var lines, rest := Outline(t, t.Children(c), depth + 1, seen + {c}), Outline(t, kids[1..], depth, inner.seen);
        MoreParents(t, rest, kids[1..], kids, depth);
        JoinOutline(t, kids, c, depth, lines, rest);
        assert PagesOf([Line(c, depth)] + lines + rest) == [c] + PagesOf(lines) + PagesOf(rest);
      }
    }
  }

  lemma MoreParents(t: Toctree, lines: seq<Line>, some: seq<Page>, more: seq<Page>, depth: nat)
    requires IsOutline(t, lines, some, depth) && forall p | p in some :: p in more
    ensures IsOutline(t, lines, more, depth)
  {
    forall i | 0 <= i < |lines| ensures Nested(t, lines, more, depth, i) { assert Nested(t, lines, some, depth, i); }
  }

  /** The outlines of a section share one seen set. */
  class Section {
    var seen: set<Page>

    constructor (root: Page, entry: Page)
      ensures seen == {root, entry}
    { seen := {root, entry}; }

    method Subtree(t: Toctree, docname: Page, depth: nat) returns (out: seq<Line>)
      requires t.Closed()
      modifies this
      ensures out == [Line(docname, depth)] + Outline(t, t.Children(docname), depth + 1, old(seen))
      ensures seen == Walk(t, t.Children(docname), old(seen)).seen
      decreases t.pages - seen
    {
      out := [Line(docname, depth)];
      var kids := t.Children(docname);
      for i := 0 to |kids|
        invariant old(seen) <= seen
        invariant out + Outline(t, kids[i..], depth + 1, seen) ==
                  [Line(docname, depth)] + Outline(t, kids, depth + 1, old(seen))
        invariant Walk(t, kids[i..], seen).seen == Walk(t, kids, old(seen)).seen
      {
        assert kids[i..][1..] == kids[i + 1..];
        if kids[i] !in seen {
          ghost var before := seen;
          seen := seen + {kids[i]};
          assert kids[i] in t.pages - before;
          var sub := Subtree(t, kids[i], depth + 1);
          GlueLines(out, sub, Outline(t, kids[i + 1..], depth + 1, seen));
          out := out + sub;
        }
      }
    }
  }

  lemma GlueLines(a: seq<Line>, sub: seq<Line>, rest: seq<Line>)
    ensures a + sub + rest == a + (sub + rest)
  {
  }
}
