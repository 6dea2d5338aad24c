/** SQL LIKE: how the expression layer escapes a literal into a pattern, and how the engine classifies a pattern
    once and matches it, with the two-pointer glob loop proved against the recursive meaning of a pattern.

    A character is one byte. */
module LikePatterns {
  import opened Text
  import opened Exprs

  datatype Token = Literal(ch: char) | AnyRun | AnyOne

  // ---- meaning ------------------------------------------------------------------------------

  /** `%` is any run, the empty one included; `_` any one character. */
  predicate Matches(toks: seq<Token>, s: string)
    decreases |toks| + |s|
  {
    if toks == [] then s == []
    else match toks[0]
      case Literal(c) => s != [] && s[0] == c && Matches(toks[1..], s[1..])
      case AnyOne => s != [] && Matches(toks[1..], s[1..])
      case AnyRun => Matches(toks[1..], s) || (s != [] && Matches(toks, s[1..]))
  }

  function Classified(p: string): seq<Token>
    decreases |p|
  {
    if p == [] then []
    else if p[0] == '\\' && |p| > 1 then [Literal(p[1])] + Classified(p[2..])
    else [if p[0] == '%' then AnyRun else if p[0] == '_' then AnyOne else Literal(p[0])] + Classified(p[1..])
  }

  function Literals(s: string): (r: seq<Token>)
    ensures |r| == |s|
  { seq(|s|, i requires 0 <= i < |s| => Literal(s[i])) }

  predicate Special(c: char) { c == '%' || c == '_' || c == '\\' }

  function EscapedChar(c: char): string { if Special(c) then ['\\', c] else [c] }

  function Escaped(s: string): string {
    if s == [] then [] else EscapedChar(s[0]) + Escaped(s[1..])
  }

  // ---- `_escape_like` and `classify_like` ---------------------------------------------------

  lemma Glue<T>(before: seq<T>, x: seq<T>, rest: seq<T>)
    ensures before + (x + rest) == (before + x) + rest
  {
  }

  method EscapeLike(s: string) returns (out: string)
    ensures out == Escaped(s)
  {
    out := [];
    for i := 0 to |s|
      invariant out + Escaped(s[i..]) == Escaped(s)
    {
      assert s[i..][1..] == s[i + 1..];
      Glue(out, EscapedChar(s[i]), Escaped(s[i + 1..]));
      ghost var before := out;
      if Special(s[i]) {
        out := out + ['\\'];
      }
      out := out + [s[i]];
      assert out == before + EscapedChar(s[i]);
    }
  }

  lemma ClassifiedFirst(p: string, t: Token, width: nat)
    requires 1 <= width <= |p| && (width == 2 <==> p[0] == '\\' && |p| > 1) && width <= 2
    requires t == if width == 2 then Literal(p[1]) else if p[0] == '%' then AnyRun else if p[0] == '_' then AnyOne else Literal(p[0])
    ensures forall toks: seq<Token> {:trigger toks + Classified(p)} ::
              toks + Classified(p) == (toks + [t]) + Classified(p[width..])
  {
    forall toks: seq<Token> ensures toks + Classified(p) == (toks + [t]) + Classified(p[width..]) {
      assert Classified(p) == [t] + Classified(p[width..]);
      Glue(toks, [t], Classified(p[width..]));
    }
  }

  method ClassifyLike(pattern: string) returns (toks: seq<Token>)
    ensures toks == Classified(pattern)
  {
    hide Classified;
    toks := [];
    var i := 0;
    assert pattern[0..] == pattern;
    while i < |pattern|
      invariant 0 <= i <= |pattern|
      invariant toks + Classified(pattern[i..]) == Classified(pattern)
    {
      var c := pattern[i];
      ghost var from, before := i, toks;
      var t: Token;
      if c == '\\' && i + 1 < |pattern| {
        i := i + 1;
        t := Literal(pattern[i]);
      } else if c == '%' {
        t := AnyRun;
      } else if c == '_' {
        t := AnyOne;
      } else {
        t := Literal(c);
      }
      toks := toks + [t];
      i := i + 1;
      assert pattern[from..][i - from..] == pattern[i..];
      ClassifiedFirst(pattern[from..], t, i - from);
      assert before + Classified(pattern[from..]) == toks + Classified(pattern[i..]);
    }
    ClassifiedEnd(pattern[i..], toks);
  }

  lemma ClassifiedEnd(p: string, toks: seq<Token>)
    requires p == []
    ensures toks + Classified(p) == toks
  {
  }

  lemma EscapedFirst(c: char, rest: string)
    ensures Classified(EscapedChar(c) + rest) == [Literal(c)] + Classified(rest)
  {
    var p := EscapedChar(c) + rest;
    if Special(c) { assert p[2..] == rest; } else { assert p[1..] == rest; }
  }

  /** Escaping is exact: an escaped string classifies to its own characters, and whatever follows it is untouched. */
  lemma {:induction false} EscapedClassifies(s: string, rest: string)
    ensures Classified(Escaped(s) + rest) == Literals(s) + Classified(rest)
    decreases |s|
  {
    hide Classified;
    if s == [] {
      assert Escaped(s) + rest == rest;
      assert Literals(s) + Classified(rest) == Classified(rest);
    } else {
      var tail := Escaped(s[1..]) + rest;
      EscapedClassifies(s[1..], rest);
      EscapedFirst(s[0], tail);
      assert Escaped(s) + rest == EscapedChar(s[0]) + tail;
      assert Literals(s) == [Literal(s[0])] + Literals(s[1..]);
      assert Literals(s) + Classified(rest) == [Literal(s[0])] + (Literals(s[1..]) + Classified(rest));
    }
  }

  // ---- patterns by shape -----------------------------------------------------------------------

  lemma {:induction false} LiteralsThen(p: string, rest: seq<Token>, s: string)
    ensures Matches(Literals(p) + rest, s) <==> IsPrefix(p, s) && Matches(rest, s[|p|..])
    decreases |p|
  {
    var toks := Literals(p) + rest;
    if p == [] {
      assert toks == rest && s[0..] == s;
    } else {
      assert toks[1..] == Literals(p[1..]) + rest;
      if s != [] {
        LiteralsThen(p[1..], rest, s[1..]);
        if |p| <= |s| {
          assert s[1..][|p| - 1..] == s[|p|..];
          assert s[..|p|] == [s[0]] + s[1..][..|p| - 1] && p == [p[0]] + p[1..];
        }
      }
    }
  }

  lemma {:induction false} RunThen(rest: seq<Token>, s: string)
    ensures Matches([AnyRun] + rest, s) <==> exists k :: 0 <= k <= |s| && Matches(rest, s[k..])
    decreases |s|
  {
    assert ([AnyRun] + rest)[1..] == rest && s[0..] == s;
    if s != [] {
      RunThen(rest, s[1..]);
      if Matches([AnyRun] + rest, s[1..]) {
        var k :| 0 <= k <= |s| - 1 && Matches(rest, s[1..][k..]);
        assert s[1..][k..] == s[k + 1..];
      }
      if k :| 0 < k <= |s| && Matches(rest, s[k..]) { assert s[1..][k - 1..] == s[k..]; }
    }
  }

  lemma RunMatches(s: string)
    ensures Matches([AnyRun], s)
  {
    RunThen([], s);
    assert [AnyRun] + [] == [AnyRun] && s[|s|..] == [];
    assert Matches([], s[|s|..]);
  }

  lemma EqualityShape(p: string, s: string)
    ensures Matches(Literals(p), s) <==> s == p
  {
    LiteralsThen(p, [], s);
    assert Literals(p) + [] == Literals(p);
    if |p| <= |s| && s[|p|..] == [] { assert s == s[..|p|] + s[|p|..]; }
  }

  lemma PrefixShape(p: string, s: string)
    ensures Matches(Literals(p) + [AnyRun], s) <==> IsPrefix(p, s)
  {
    LiteralsThen(p, [AnyRun], s);
    if |p| <= |s| { RunMatches(s[|p|..]); }
  }

  lemma SuffixShape(p: string, s: string)
    ensures Matches([AnyRun] + Literals(p), s) <==> IsSuffix(p, s)
  {
    RunThen(Literals(p), s);
    forall k | 0 <= k <= |s| ensures Matches(Literals(p), s[k..]) <==> s[k..] == p { EqualityShape(p, s[k..]); }
  }

  lemma SubstringShape(p: string, s: string)
    ensures Matches([AnyRun] + (Literals(p) + [AnyRun]), s) <==> IsSubstring(p, s)
  {
    RunThen(Literals(p) + [AnyRun], s);
    forall k | 0 <= k <= |s| ensures Matches(Literals(p) + [AnyRun], s[k..]) <==> IsPrefix(p, s[k..]) {
      PrefixShape(p, s[k..]);
    }
  }

  /** The pattern each string predicate is pushed down as matches exactly the strings the predicate holds of, for
      every literal, wildcards and backslashes in it included. */
  lemma PushedDownExactly(p: string, s: string)
    ensures Matches(Classified("%" + Escaped(p) + "%"), s) <==> IsSubstring(p, s)
    ensures Matches(Classified(Escaped(p) + "%"), s) <==> IsPrefix(p, s)
    ensures Matches(Classified("%" + Escaped(p)), s) <==> IsSuffix(p, s)
  {
    assert Classified("%") == [AnyRun] by { assert "%"[1..] == []; }
    EscapedClassifies(p, "%");
    EscapedClassifies(p, "");
    assert Escaped(p) + "" == Escaped(p);
    assert ("%" + Escaped(p) + "%")[1..] == Escaped(p) + "%" && ("%" + Escaped(p))[1..] == Escaped(p);
    assert Literals(p) + Classified("") == Literals(p);
    SubstringShape(p, s);
    PrefixShape(p, s);
    SuffixShape(p, s);
  }

  /** Whether a string is like a pattern. */
  predicate IsLike(pattern: string, s: string) { Matches(Classified(pattern), s) }

  /** LIKE by the text of the pattern, a character at a time: `_` takes one character, `%` any number, a backslash takes the
      character after it as it is, and the last character of the pattern too; any other character is itself. */
  lemma {:induction false} LikeMeans(c: char, q: string, s: string)
    ensures IsLike("", s) <==> s == ""
    ensures IsLike("_" + q, s) <==> s != "" && IsLike(q, s[1..])
    ensures IsLike("%" + q, s) <==> exists k :: 0 <= k <= |s| && IsLike(q, s[k..])
    ensures IsLike(['\\', c] + q, s) <==> s != "" && s[0] == c && IsLike(q, s[1..])
    ensures IsLike("\\", s) <==> s == "\\"
    ensures !Special(c) ==> (IsLike([c] + q, s) <==> s != "" && s[0] == c && IsLike(q, s[1..]))
  {
    var rest := Classified(q);
    assert ("_" + q)[1..] == q && ("%" + q)[1..] == q && (['\\', c] + q)[2..] == q && ([c] + q)[1..] == q && "\\"[1..] == "";
    assert Classified("_" + q) == [AnyOne] + rest && ([AnyOne] + rest)[1..] == rest;
    assert Classified("%" + q) == [AnyRun] + rest;
    assert Classified(['\\', c] + q) == [Literal(c)] + rest && ([Literal(c)] + rest)[1..] == rest;
    assert Classified("\\") == [Literal('\\')] && [Literal('\\')][1..] == [];
    assert Matches([Literal('\\')], s) <==> s != "" && s[0] == '\\' && s[1..] == "";
    if s != "" { assert s == [s[0]] + s[1..]; }
    assert s != "" && s[0] == '\\' && s[1..] == "" <==> s == "\\";
    RunThen(rest, s);
    forall k | 0 <= k <= |s| ensures IsLike(q, s[k..]) <==> Matches(rest, s[k..]) {}
  }

  /** The three characters that are escaped. */
  lemma SpecialMeans(c: char)
    ensures Special(c) <==> c in {'%', '_', '\\'}
  {
  }

  // ---- `glob_match` ---------------------------------------------------------------------------------

  /** How many characters a pattern needs. */
  function Singles(toks: seq<Token>): nat {
    if toks == [] then 0 else (if toks[0].AnyRun? then 0 else 1) + Singles(toks[1..])
  }

  lemma {:induction false} NeedsSingles(toks: seq<Token>, s: string)
    requires Matches(toks, s)
    ensures |s| >= Singles(toks)
    decreases |toks| + |s|
  {
    if toks != [] {
      if !toks[0].AnyRun? { NeedsSingles(toks[1..], s[1..]); }
      else if Matches(toks[1..], s) { NeedsSingles(toks[1..], s); }
      else { NeedsSingles(toks, s[1..]); }
    }
  }

  predicate Fits(tok: Token, c: char) { tok.AnyOne? || tok == Literal(c) }

  /** The tokens from `star + 1` to `pi` each took one character, from `at` on. */
  predicate Taken(toks: seq<Token>, s: string, star: int, at: nat, pi: nat, si: nat) {
    && -1 <= star < pi <= |toks| && at <= si <= |s| && si - at == pi - star - 1
    && forall j | star < j < pi :: !toks[j].AnyRun? && Fits(toks[j], s[at + (j - star - 1)])
  }

  lemma {:induction false} TakenMatches(toks: seq<Token>, s: string, star: int, at: nat, pi: nat, si: nat)
    requires Taken(toks, s, star, at, pi, si)
    ensures Matches(toks[star + 1..], s[at..]) == Matches(toks[pi..], s[si..])
    decreases si - at
  {
    if at < si {
      assert toks[star + 1..][1..] == toks[star + 2..] && s[at..][1..] == s[at + 1..];
      assert Fits(toks[star + 1], s[at]);
      TakenMatches(toks, s, star + 1, at + 1, pi, si);
    }
  }

  /** Moving the text a run is matched against to the left only lets the run take more. */
  lemma {:induction false} RunWidens(toks: seq<Token>, s: string, i: nat, j: nat)
    requires toks != [] && toks[0].AnyRun? && i <= j <= |s| && Matches(toks, s[j..])
    ensures Matches(toks, s[i..])
    decreases j - i
  {
    if i < j {
      RunWidens(toks, s, i + 1, j);
      assert s[i..][1..] == s[i + 1..];
    }
  }

  lemma {:induction false} SinglesPeel(toks: seq<Token>, a: nat, b: nat)
    requires a <= b <= |toks| && forall k | a <= k < b :: !toks[k].AnyRun?
    ensures Singles(toks[a..]) == b - a + Singles(toks[b..])
    decreases b - a
  {
    if a < b {
      SinglesPeel(toks, a + 1, b);
      assert toks[a..][1..] == toks[a + 1..];
    }
  }

  /** A match of single-character tokens and then a run uses at least their number of characters before the run. */
  lemma {:induction false} SkipSingles(toks: seq<Token>, s: string, a: nat, b: nat, at: nat)
    requires a <= b < |toks| && at <= |s| && toks[b].AnyRun? && forall k | a <= k < b :: !toks[k].AnyRun?
    requires Matches(toks[a..], s[at..])
    ensures at + (b - a) <= |s| && Matches(toks[b..], s[at + (b - a)..])
    decreases b - a
  {
    if a < b {
      assert toks[a..][1..] == toks[a + 1..] && s[at..][1..] == s[at + 1..];
      SkipSingles(toks, s, a + 1, b, at + 1);
    }
  }

  /** A later run makes earlier choices final: once the tokens between two runs fit somewhere, the first place they
      fit is as good as any. */
  lemma {:induction false} EarliestSuffices(toks: seq<Token>, s: string, star: nat, at: nat, pi: nat, si: nat)
    requires Taken(toks, s, star, at, pi, si) && toks[star].AnyRun? && pi < |toks| && toks[pi].AnyRun?
    ensures Matches(toks[star..], s[at..]) == Matches(toks[pi..], s[si..])
  {
    TakenMatches(toks, s, star, at, pi, si);
    assert [AnyRun] + toks[star + 1..] == toks[star..];
    RunThen(toks[star + 1..], s[at..]);
    assert s[at..][0..] == s[at..];
    if Matches(toks[star..], s[at..]) {
      var k :| 0 <= k <= |s| - at && Matches(toks[star + 1..], s[at..][k..]);
      assert s[at..][k..] == s[at + k..];
      SkipSingles(toks, s, star + 1, pi, at + k);
      RunWidens(toks[pi..], s, si, at + k + (pi - star - 1));
    }
  }

  /** With the text used up, moving the run further cannot help. */
  lemma {:induction false} UsedUp(toks: seq<Token>, s: string, star: nat, at: nat, pi: nat)
    requires Taken(toks, s, star, at, pi, |s|) && toks[star].AnyRun?
    ensures Matches(toks[star..], s[at..]) == Matches(toks[pi..], [])
  {
    TakenMatches(toks, s, star, at, pi, |s|);
    assert s[|s|..] == [] && [AnyRun] + toks[star + 1..] == toks[star..];
    RunThen(toks[star + 1..], s[at..]);
    assert s[at..][0..] == s[at..];
    if k :| 0 < k <= |s| - at && Matches(toks[star + 1..], s[at..][k..]) {
      NeedsSingles(toks[star + 1..], s[at..][k..]);
      SinglesPeel(toks, star + 1, pi);
      assert false;
    }
  }

  /** The loop's state: what is left to decide is the whole question. */
  ghost predicate Decides(toks: seq<Token>, s: string, star: int, at: nat, pi: nat, si: nat) {
    && Taken(toks, s, star, at, pi, si)
    && (star == -1 ==> at == 0)
    && (star >= 0 ==> toks[star].AnyRun? && Matches(toks, s) == Matches(toks[star..], s[at..]))
  }

  lemma {:induction false} DecidesNow(toks: seq<Token>, s: string, star: int, at: nat, pi: nat, si: nat)
    requires Decides(toks, s, star, at, pi, si) && (star == -1 || (pi < |toks| && toks[pi].AnyRun?) || si == |s|)
    ensures Matches(toks, s) == Matches(toks[pi..], s[si..])
  {
    if star == -1 {
      TakenMatches(toks, s, star, at, pi, si);
      assert toks[0..] == toks && s[0..] == s;
    } else if si == |s| {
      UsedUp(toks, s, star, at, pi);
      assert s[si..] == [];
    } else {
      EarliestSuffices(toks, s, star, at, pi, si);
    }
  }

  /** Where the current token does not fit, no match starts the last run's rest here. */
  lemma Backtracks(toks: seq<Token>, s: string, star: nat, at: nat, pi: nat, si: nat)
    requires Decides(toks, s, star, at, pi, si) && si < |s|
    requires pi < |toks| ==> !toks[pi].AnyRun? && !Fits(toks[pi], s[si])
    ensures Decides(toks, s, star, at + 1, star + 1, at + 1)
  {
    TakenMatches(toks, s, star, at, pi, si);
    assert !Matches(toks[pi..], s[si..]);
    assert toks[star..][1..] == toks[star + 1..] && s[at..][1..] == s[at + 1..];
  }

  lemma {:induction false} RunsMatchEmpty(toks: seq<Token>)
    ensures Matches(toks, []) <==> forall k | 0 <= k < |toks| :: toks[k].AnyRun?
  {
    if toks != [] {
      RunsMatchEmpty(toks[1..]);
      assert forall k | 1 <= k < |toks| :: toks[k] == toks[1..][k - 1];
    }
  }

  /** The two-pointer matcher decides the pattern's meaning. */
  method GlobMatch(toks: seq<Token>, s: string) returns (matched: bool)
    ensures matched == Matches(toks, s)
  {
    var si, pi := 0, 0;
    var star, starSi := -1, 0;
    var n, m := |s|, |toks|;
    while si < n
      invariant Decides(toks, s, star, starSi, pi, si)
      decreases if star == -1 then n + 1 else n - starSi, n - si, m - pi
    {
      if pi < m && toks[pi].AnyOne? {
        si, pi := si + 1, pi + 1;
      } else if pi < m && toks[pi].Literal? && toks[pi].ch == s[si] {
        si, pi := si + 1, pi + 1;
      } else if pi < m && toks[pi].AnyRun? {
        DecidesNow(toks, s, star, starSi, pi, si);
        star, starSi := pi, si;
        pi := pi + 1;
      } else if star != -1 {
        Backtracks(toks, s, star, starSi, pi, si);
        pi := star + 1;
        starSi := starSi + 1;
        si := starSi;
      } else {
        DecidesNow(toks, s, star, starSi, pi, si);
        return false;
      }
    }
    DecidesNow(toks, s, star, starSi, pi, si);
    assert s[si..] == [];
    RunsMatchEmpty(toks[pi..]);
    ghost var from := pi;
    while pi < m && toks[pi].AnyRun?
      invariant from <= pi <= m
      invariant forall k | from <= k < pi :: toks[k].AnyRun?
    {
      pi := pi + 1;
    }
    assert pi < m ==> !toks[from..][pi - from].AnyRun?;
    matched := pi == m;
  }

  // ---- `str_like` -------------------------------------------------------------------------------------

  function Count(toks: seq<Token>, t: Token): nat {
    if toks == [] then 0 else (if toks[0] == t then 1 else 0) + Count(toks[1..], t)
  }

  method CountOf(toks: seq<Token>, t: Token) returns (n: nat)
    ensures n == Count(toks, t)
  {
    n := 0;
    for i := 0 to |toks|
      invariant n + Count(toks[i..], t) == Count(toks, t)
    {
      assert toks[i..][1..] == toks[i + 1..];
      if toks[i] == t { n := n + 1; }
    }
  }

  lemma {:induction false} CountAt(toks: seq<Token>, t: Token, i: nat)
    requires i < |toks|
    ensures Count(toks, t) == Count(toks[..i], t) + (if toks[i] == t then 1 else 0) + Count(toks[i + 1..], t)
  {
    if i > 0 {
      CountAt(toks[1..], t, i - 1);
      assert toks[1..][..i - 1] == toks[..i][1..] && toks[1..][i..] == toks[i + 1..];
    }
  }

  lemma {:induction false} CountNone(toks: seq<Token>, t: Token)
    ensures Count(toks, t) == 0 <==> forall i | 0 <= i < |toks| :: toks[i] != t
  {
    if toks != [] {
      CountNone(toks[1..], t);
      assert forall i | 1 <= i < |toks| :: toks[i] == toks[1..][i - 1];
    }
  }

  predicate AllLiteral(toks: seq<Token>) { forall i | 0 <= i < |toks| :: toks[i].Literal? }

  /** The literal text between two positions. */
  method LiteralOf(toks: seq<Token>, begin: nat, end: nat) returns (text: string)
    requires begin <= end <= |toks| && AllLiteral(toks[begin..end])
    ensures toks[begin..end] == Literals(text)
  {
    text := [];
    for i := begin to end
      invariant toks[begin..i] == Literals(text)
    {
      assert toks[begin..end][i - begin] == toks[i];
      assert Literals(text + [toks[i].ch]) == Literals(text) + [toks[i]];
      text := text + [toks[i].ch];
    }
  }

  /** What the cheap matchers are chosen on: the wildcards sit only where the shape has them. */
  lemma NoWildcards(toks: seq<Token>)
    requires Count(toks, AnyOne) == 0 && Count(toks, AnyRun) == 0
    ensures AllLiteral(toks)
  {
    CountNone(toks, AnyOne);
    CountNone(toks, AnyRun);
  }

  lemma WithoutLast(toks: seq<Token>, n: nat)
    requires toks != [] && toks[|toks| - 1].AnyRun? && Count(toks, AnyOne) == 0 && Count(toks, AnyRun) == n + 1
    ensures Count(toks[..|toks| - 1], AnyOne) == 0 && Count(toks[..|toks| - 1], AnyRun) == n
  {
    CountAt(toks, AnyOne, |toks| - 1);
    CountAt(toks, AnyRun, |toks| - 1);
  }

  lemma WithoutFirst(toks: seq<Token>, n: nat)
    requires toks != [] && toks[0].AnyRun? && Count(toks, AnyOne) == 0 && Count(toks, AnyRun) == n + 1
    ensures Count(toks[1..], AnyOne) == 0 && Count(toks[1..], AnyRun) == n
  {
  }

  /** One value against a pattern: equality, an affix or a substring test where the pattern allows it, the glob
      loop otherwise; always the meaning of the pattern. */
  method StrLike(pattern: string, s: string) returns (matched: bool)
    ensures matched == Matches(Classified(pattern), s)
  {
    hide Matches, Count, Literals, Classified;
    var toks := ClassifyLike(pattern);
    var runs := CountOf(toks, AnyRun);
    var ones := CountOf(toks, AnyOne);
    var n := |toks|;
    if ones == 0 && runs == 0 {
      NoWildcards(toks);
      assert toks[0..n] == toks;
      var lit := LiteralOf(toks, 0, n);
      EqualityShape(lit, s);
      return s == lit;
    }
    if ones == 0 && runs == 1 {
      var lead := n > 0 && toks[0].AnyRun?;
      var trail := n > 0 && toks[n - 1].AnyRun?;
      if trail && !lead {
        WithoutLast(toks, 0);
        NoWildcards(toks[..n - 1]);
        assert toks[0..n - 1] == toks[..n - 1] && toks == toks[..n - 1] + [AnyRun];
        var pre := LiteralOf(toks, 0, n - 1);
        PrefixShape(pre, s);
        return IsPrefix(pre, s);
      }
      if lead && !trail {
        WithoutFirst(toks, 0);
        NoWildcards(toks[1..]);
        assert toks[1..n] == toks[1..] && toks == [AnyRun] + toks[1..];
        var suf := LiteralOf(toks, 1, n);
        SuffixShape(suf, s);
        return IsSuffix(suf, s);
      }
    }
    if ones == 0 && runs == 2 && n >= 2 && toks[0].AnyRun? && toks[n - 1].AnyRun? {
      WithoutFirst(toks, 1);
      WithoutLast(toks[1..], 0);
      NoWildcards(toks[1..][..n - 2]);
      assert toks[1..n - 1] == toks[1..][..n - 2] && toks == [AnyRun] + (toks[1..n - 1] + [AnyRun]);
      var mid := LiteralOf(toks, 1, n - 1);
      SubstringShape(mid, s);
      return IsSubstring(mid, s);
    }
    matched := GlobMatch(toks, s);
  }
}
