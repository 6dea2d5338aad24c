/** String functions, Python's and the engine's: substrings, replacement, case, stripping, and `int` of a string; where
    the two differ, exactly when they agree.

    A string is a sequence of characters; the engine's kernels work on its UTF-8 bytes, where a character's bytes occur
    only as that character. */
module Text {
  import opened Options

  datatype StrMapName = Lower | Upper | Strip | Lstrip | Rstrip

  predicate IsPrefix(p: string, s: string) { |p| <= |s| && s[..|p|] == p }
  predicate IsSuffix(p: string, s: string) { |p| <= |s| && s[|s| - |p|..] == p }
  predicate IsSubstring(p: string, s: string) {
    exists k | 0 <= k <= |s| :: IsPrefix(p, s[k..])
  }

  predicate IsAscii(c: char) { c as int < 128 }

  // ---- replacement ---------------------------------------------------------------------------------

  /** Every occurrence replaced, left to right, occurrences not overlapping. */
  function Replaced(s: string, what: string, by_: string): string
    requires what != ""
    decreases |s|
  {
    if |s| < |what| then s
    else if IsPrefix(what, s) then by_ + Replaced(s[|what|..], what, by_)
    else [s[0]] + Replaced(s[1..], what, by_)
  }

  function ReplacedOnce(s: string, what: string, by_: string): string
    requires what != ""
    decreases |s|
  {
    if |s| < |what| then s
    else if IsPrefix(what, s) then by_ + s[|what|..]
    else [s[0]] + ReplacedOnce(s[1..], what, by_)
  }

  /** The engine's replacement: an empty pattern leaves the string alone. */
  function EngineReplace(s: string, what: string, by_: string, all: bool): string {
    if what == "" then s else if all then Replaced(s, what, by_) else ReplacedOnce(s, what, by_)
  }

  function Interleaved(s: string, by_: string): string { if s == "" then by_ else by_ + [s[0]] + Interleaved(s[1..], by_) }

  /** Python's `s.replace(what, by_)`: an empty pattern occurs before every character and at the end. */
  function PyReplace(s: string, what: string, by_: string): string {
    if what == "" then Interleaved(s, by_) else Replaced(s, what, by_)
  }

  lemma {:induction false} InterleavedLength(s: string, by_: string)
    ensures |Interleaved(s, by_)| == |s| + (|s| + 1) * |by_|
    ensures by_ == "" ==> Interleaved(s, by_) == s
  {
    if s != "" {
      InterleavedLength(s[1..], by_);
      assert by_ == "" ==> by_ + [s[0]] + s[1..] == s;
    }
  }

  /** The two replacements agree on a string if and only if the pattern is not empty, or nothing is put in its place. */
  lemma {:induction false} ReplaceExact(s: string, what: string, by_: string)
    ensures PyReplace(s, what, by_) == EngineReplace(s, what, by_, true) <==> what != "" || by_ == ""
  {
    if what == "" {
      InterleavedLength(s, by_);
      if by_ != "" { assert (|s| + 1) * |by_| >= 1; }
    }
  }

  /** Where the pattern next occurs. */
  method Find(s: string, what: string, start: nat) returns (hit: Option<nat>)
    requires what != "" && start <= |s|
    ensures hit.Some? ==> start <= hit.value <= |s| - |what| && IsPrefix(what, s[hit.value..])
    ensures forall k | start <= k <= |s| && (hit.Some? ==> k < hit.value) :: !IsPrefix(what, s[k..])
  {
    var k := start;
    while k + |what| <= |s|
      invariant start <= k
      invariant forall j | start <= j < k && j <= |s| :: !IsPrefix(what, s[j..])
    {
      if IsPrefix(what, s[k..]) { return Some(k); }
      k := k + 1;
    }
    return None;
  }

  lemma {:induction false} SkipOne(s: string, what: string, by_: string)
    requires what != "" && s != "" && !IsPrefix(what, s)
    ensures Replaced(s, what, by_) == [s[0]] + Replaced(s[1..], what, by_)
    ensures ReplacedOnce(s, what, by_) == [s[0]] + ReplacedOnce(s[1..], what, by_)
  {
    if |s| < |what| { assert [s[0]] + s[1..] == s; }
  }

  /** Up to the next occurrence the string is copied. */
  lemma {:induction false} SkipTo(s: string, what: string, by_: string, a: nat, b: nat)
    requires what != "" && a <= b <= |s| && forall k | a <= k < b :: !IsPrefix(what, s[k..])
    ensures Replaced(s[a..], what, by_) == s[a..b] + Replaced(s[b..], what, by_)
    ensures ReplacedOnce(s[a..], what, by_) == s[a..b] + ReplacedOnce(s[b..], what, by_)
    decreases b - a
  {
    hide Replaced, ReplacedOnce, IsPrefix;
    if a < b {
      SkipTo(s, what, by_, a + 1, b);
      SkipOne(s[a..], what, by_);
      assert s[a..][1..] == s[a + 1..] && s[a..][0] == s[a];
      assert s[a..b] == [s[a]] + s[a + 1..b];
    } else {
      assert s[a..b] == "";
    }
  }

  lemma {:induction false} AtHit(s: string, what: string, by_: string)
    requires what != "" && IsPrefix(what, s)
    ensures Replaced(s, what, by_) == by_ + Replaced(s[|what|..], what, by_)
    ensures ReplacedOnce(s, what, by_) == by_ + s[|what|..]
  {
  }

  lemma {:induction false} NextHit(s: string, what: string, by_: string, pos: nat, hit: nat)
    requires what != "" && pos <= hit <= |s| - |what| && IsPrefix(what, s[hit..])
    requires forall k | pos <= k < hit :: !IsPrefix(what, s[k..])
    ensures Replaced(s[pos..], what, by_) == s[pos..hit] + by_ + Replaced(s[hit + |what|..], what, by_)
    ensures ReplacedOnce(s[pos..], what, by_) == s[pos..hit] + by_ + s[hit + |what|..]
  {
    hide Replaced, ReplacedOnce, IsPrefix;
    SkipTo(s, what, by_, pos, hit);
    AtHit(s[hit..], what, by_);
    assert s[hit..][|what|..] == s[hit + |what|..];
  }

  lemma {:induction false} NoHit(s: string, what: string, by_: string, pos: nat)
    requires what != "" && pos <= |s| && forall k | pos <= k <= |s| :: !IsPrefix(what, s[k..])
    ensures Replaced(s[pos..], what, by_) == s[pos..] && ReplacedOnce(s[pos..], what, by_) == s[pos..]
  {
    SkipTo(s, what, by_, pos, |s|);
    assert s[|s|..] == "" && s[pos..|s|] == s[pos..];
  }

  /** The kernel's loop from hit to hit is the specified replacement. */
  method ReplaceLiteral(s: string, what: string, by_: string, all: bool) returns (out: string)
    ensures out == EngineReplace(s, what, by_, all)
  {
    hide Replaced, ReplacedOnce, IsPrefix;
    if what == "" { return s; }
    out := "";
    var pos := 0;
    assert s[0..] == s;
    while true
      invariant pos <= |s|
      invariant all ==> out + Replaced(s[pos..], what, by_) == Replaced(s, what, by_)
      invariant !all ==> pos == 0 && out == ""
      decreases |s| - pos
    {
      var hit := Find(s, what, pos);
      if hit.None? {
        NoHit(s, what, by_, pos);
        break;
      }
      NextHit(s, what, by_, pos, hit.value);
      ghost var before := out;
      out := out + (s[pos..hit.value] + by_);
      assert all ==> before + ((s[pos..hit.value] + by_) + Replaced(s[hit.value + |what|..], what, by_)) == Replaced(s, what, by_);
      pos := hit.value + |what|;
      if !all { return out + s[pos..]; }
    }
    out := out + s[pos..];
  }

  // ---- case ------------------------------------------------------------------------------------------

  /** The engine folds ASCII letters only. */
  function FoldChar(upper: bool, c: char): char {
    if upper then (if 'a' <= c <= 'z' then (c as int - 32) as char else c)
    else if 'A' <= c <= 'Z' then (c as int + 32) as char else c
  }

  function Folded(upper: bool, s: string): string { if s == "" then "" else [FoldChar(upper, s[0])] + Folded(upper, s[1..]) }

  /** What Python's case mapping makes of the character at a position: a nonempty string, given as its first character
      and the rest; it may depend on the characters around. */
  type Cases = (bool, string, nat) -> (char, string)

  function CaseAt(cases: Cases, upper: bool, s: string, i: nat): string
    requires i < |s|
  { if IsAscii(s[i]) then [FoldChar(upper, s[i])] else [cases(upper, s, i).0] + cases(upper, s, i).1 }

  /** `s.lower()` / `s.upper()` from position `i` on. */
  function PyCased(cases: Cases, upper: bool, s: string, i: nat): string
    requires i <= |s|
    decreases |s| - i
  { if i == |s| then "" else CaseAt(cases, upper, s, i) + PyCased(cases, upper, s, i + 1) }

  /** A string of ASCII and of characters that are their own case. */
  predicate OwnCase(cases: Cases, upper: bool, s: string) {
    forall i | 0 <= i < |s| && !IsAscii(s[i]) :: CaseAt(cases, upper, s, i) == [s[i]]
  }

  lemma {:induction false} CasedLength(cases: Cases, upper: bool, s: string, i: nat)
    requires i <= |s|
    ensures |PyCased(cases, upper, s, i)| >= |s| - i && |Folded(upper, s[i..])| == |s| - i
    decreases |s| - i
  {
    if i < |s| {
      assert s[i..][1..] == s[i + 1..];
      CasedLength(cases, upper, s, i + 1);
    }
  }

  lemma {:induction false} CaseFrom(cases: Cases, upper: bool, s: string, i: nat)
    requires i <= |s|
    ensures PyCased(cases, upper, s, i) == Folded(upper, s[i..]) <==>
              forall j | i <= j < |s| && !IsAscii(s[j]) :: CaseAt(cases, upper, s, j) == [s[j]]
    decreases |s| - i
  {
    if i < |s| {
      assert s[i..][1..] == s[i + 1..] && s[i..][0] == s[i];
      CaseFrom(cases, upper, s, i + 1);
      CasedLength(cases, upper, s, i + 1);
      HeadsMatch(CaseAt(cases, upper, s, i), PyCased(cases, upper, s, i + 1), FoldChar(upper, s[i]), Folded(upper, s[i + 1..]));
    }
  }

  /** A nonempty piece and a rest at least as long match a character and a rest exactly part by part. */
  lemma {:induction false} HeadsMatch(a: string, b: string, c: char, d: string)
    requires |a| >= 1 && |b| >= |d|
    ensures a + b == [c] + d <==> a == [c] && b == d
  {
    if a + b == [c] + d {
      assert |a + b| == |[c] + d|;
      assert (a + b)[0] == a[0] && ([c] + d)[0] == c;
      assert (a + b)[1..] == b && ([c] + d)[1..] == d;
    }
  }

  // ---- stripping ---------------------------------------------------------------------------------------

  /** The six characters the engine strips. */
  predicate EngineSpace(c: char) { c == ' ' || '\t' <= c <= '\r' }

  /** The characters Python strips: `str.isspace`. */
  predicate PySpace(c: char) {
    var n := c as int;
    || EngineSpace(c) || 0x1c <= n <= 0x1f || n == 0x85 || n == 0xa0 || n == 0x1680 || 0x2000 <= n <= 0x200a
    || n == 0x2028 || n == 0x2029 || n == 0x202f || n == 0x205f || n == 0x3000
  }

  function DropFront(space: char -> bool, s: string): string {
    if s != "" && space(s[0]) then DropFront(space, s[1..]) else s
  }

  function DropBack(space: char -> bool, s: string): string {
    if s != "" && space(s[|s| - 1]) then DropBack(space, s[..|s| - 1]) else s
  }

  function StripBy(space: char -> bool, m: StrMapName, s: string): string {
    match m
    case Lstrip => DropFront(space, s)
    case Rstrip => DropBack(space, s)
    case _ => DropBack(space, DropFront(space, s))
  }

  /** What the engine leaves has no end that Python would strip too. */
  predicate CleanEnds(m: StrMapName, s: string) {
    var t := StripBy(c => EngineSpace(c), m, s);
    t == "" || ((m == Rstrip || !PySpace(t[0])) && (m == Lstrip || !PySpace(t[|t| - 1])))
  }

  // ---- the two sides -------------------------------------------------------------------------------------

  function EngineMap(m: StrMapName, s: string): string {
    match m
    case Lower => Folded(false, s)
    case Upper => Folded(true, s)
    case _ => StripBy(c => EngineSpace(c), m, s)
  }

  function PyMap(cases: Cases, m: StrMapName, s: string): string {
    match m
    case Lower => PyCased(cases, false, s, 0)
    case Upper => PyCased(cases, true, s, 0)
    case _ => StripBy(c => PySpace(c), m, s)
  }

  /** The strings both sides treat alike. */
  predicate SameText(cases: Cases, m: StrMapName, s: string) {
    match m
    case Lower => OwnCase(cases, false, s)
    case Upper => OwnCase(cases, true, s)
    case _ => CleanEnds(m, s)
  }

  lemma {:induction false} FrontExact(s: string)
    ensures var t := DropFront(c => EngineSpace(c), s);
            && (DropFront(c => PySpace(c), s) == t <==> t == "" || !PySpace(t[0]))
            && DropFront(c => PySpace(c), s) == DropFront(c => PySpace(c), t)
  {
    if s != "" && EngineSpace(s[0]) { FrontExact(s[1..]); } else if s != "" && PySpace(s[0]) { DropShorter(s[1..]); }
  }

  lemma {:induction false} DropShorter(s: string)
    ensures |DropFront(c => PySpace(c), s)| <= |s| && |DropBack(c => PySpace(c), s)| <= |s|
  {
    if s != "" {
      if PySpace(s[0]) { DropShorter(s[1..]); }
      if PySpace(s[|s| - 1]) { DropShorter(s[..|s| - 1]); }
    }
  }

  lemma {:induction false} BackExact(s: string)
    ensures var t := DropBack(c => EngineSpace(c), s);
            && (DropBack(c => PySpace(c), s) == t <==> t == "" || !PySpace(t[|t| - 1]))
            && DropBack(c => PySpace(c), s) == DropBack(c => PySpace(c), t)
  {
    if s != "" && EngineSpace(s[|s| - 1]) { BackExact(s[..|s| - 1]); }
    else if s != "" && PySpace(s[|s| - 1]) { DropShorter(s[..|s| - 1]); }
  }

  lemma {:induction false} FrontEnds(space: char -> bool, s: string)
    ensures var t := DropFront(space, s); t == "" || !space(t[0])
  {
    if s != "" && space(s[0]) { FrontEnds(space, s[1..]); }
  }

  lemma {:induction false} BackEnds(space: char -> bool, s: string)
    ensures var t := DropBack(space, s); |t| <= |s| && t == s[..|t|] && (t == "" || !space(t[|t| - 1]))
    ensures s != "" && !space(s[0]) ==> DropBack(space, s) != ""
  {
    if s != "" && space(s[|s| - 1]) { BackEnds(space, s[..|s| - 1]); }
  }

  /** Stripping both ends: the front decides the first character of what is left, the back the last one. */
  lemma {:induction false} BothExact(s: string)
    ensures StripBy(c => PySpace(c), Strip, s) == StripBy(c => EngineSpace(c), Strip, s) <==> CleanEnds(Strip, s)
  {
    var a := DropFront(c => EngineSpace(c), s);
    var b := DropFront(c => PySpace(c), s);
    var t := DropBack(c => EngineSpace(c), a);
    var u := DropBack(c => PySpace(c), b);
    FrontExact(s);
    BackExact(a);
    FrontEnds(c => EngineSpace(c), s);
    FrontEnds(c => PySpace(c), s);
    BackEnds(c => EngineSpace(c), a);
    BackEnds(c => PySpace(c), b);
    if t != "" { assert t[0] == a[0]; }
    if u != "" { assert u[0] == b[0]; }
  }

  lemma {:induction false} StripExact(m: StrMapName, s: string)
    requires m.Strip? || m.Lstrip? || m.Rstrip?
    ensures StripBy(c => PySpace(c), m, s) == StripBy(c => EngineSpace(c), m, s) <==> CleanEnds(m, s)
  {
    match m
    case Lstrip => FrontExact(s);
    case Rstrip => BackExact(s);
    case _ => BothExact(s);
  }

  /** The two case mappings, and the two strips, agree on a string if and only if it is one both treat alike. */
  lemma {:induction false} TextExact(cases: Cases, m: StrMapName, s: string)
    ensures PyMap(cases, m, s) == EngineMap(m, s) <==> SameText(cases, m, s)
  {
    assert s[0..] == s;
    match m
    case Lower => CaseFrom(cases, false, s, 0);
    case Upper => CaseFrom(cases, true, s, 0);
    case _ => StripExact(m, s);
  }

  // ---- the same said by decomposition ----------------------------------------------------------------------

  /** The string begins, ends or goes on with the other. */
  ghost predicate Starts(p: string, s: string) { exists t :: s == p + t }
  ghost predicate Ends(p: string, s: string) { exists t :: s == t + p }
  ghost predicate Occurs(p: string, s: string) { exists a: string, b: string :: s == a + p + b }

  lemma PrefixMeans(p: string, s: string)
    ensures IsPrefix(p, s) <==> Starts(p, s)
  {
    if IsPrefix(p, s) { assert s == p + s[|p|..]; }
  }

  lemma SuffixMeans(p: string, s: string)
    ensures IsSuffix(p, s) <==> Ends(p, s)
  {
    if IsSuffix(p, s) { assert s == s[..|s| - |p|] + p; }
    if t :| s == t + p { assert s[|s| - |p|..] == p; }
  }

  lemma OccursAt(p: string, s: string, k: nat)
    requires k <= |s| && IsPrefix(p, s[k..])
    ensures Occurs(p, s)
  {
    var b := s[k..][|p|..];
    assert s[k..] == p + b;
    assert s == s[..k] + p + b;
  }

  lemma SubstringMeans(p: string, s: string)
    ensures IsSubstring(p, s) <==> Occurs(p, s)
  {
    hide IsPrefix;
    if k :| 0 <= k <= |s| && IsPrefix(p, s[k..]) { OccursAt(p, s, k); }
    if Occurs(p, s) {
      var a: string, b: string :| s == a + p + b;
      assert s[|a|..] == p + b;
      PrefixMeans(p, s[|a|..]);
    }
  }

  const CAPITALS := "ABCDEFGHIJKLMNOPQRSTUVWXYZ"
  const SMALL := "abcdefghijklmnopqrstuvwxyz"

  /** Letter for letter: `t` is `s` with the letters of one alphabet replaced by those of the other. */
  predicate Recased(s: string, t: string, from: string, into: string)
    requires |from| == |into|
  {
    |s| == |t| && forall i | 0 <= i < |s| ::
      if s[i] in from then (exists k | 0 <= k < |from| :: s[i] == from[k] && t[i] == into[k]) else t[i] == s[i]
  }

  lemma Alphabets()
    ensures |CAPITALS| == |SMALL| == 26
    ensures forall k | 0 <= k < 26 :: CAPITALS[k] as int == 65 + k && SMALL[k] as int == 97 + k
  {
  }

  lemma {:induction false} FoldedAt(upper: bool, s: string)
    ensures |Folded(upper, s)| == |s| && forall i | 0 <= i < |s| :: Folded(upper, s)[i] == FoldChar(upper, s[i])
  {
    if s != "" { FoldedAt(upper, s[1..]); }
  }

  /** The engine's case fold: capital letters become small ones, or small ones capitals, and nothing else changes. */
  lemma FoldMeans(s: string)
    ensures Recased(s, EngineMap(Lower, s), CAPITALS, SMALL) && Recased(s, EngineMap(Upper, s), SMALL, CAPITALS)
  {
    Alphabets();
    FoldedAt(false, s);
    FoldedAt(true, s);
    forall i | 0 <= i < |s|
      ensures if s[i] in CAPITALS then (exists k | 0 <= k < 26 :: s[i] == CAPITALS[k] && Folded(false, s)[i] == SMALL[k])
              else Folded(false, s)[i] == s[i]
      ensures if s[i] in SMALL then (exists k | 0 <= k < 26 :: s[i] == SMALL[k] && Folded(true, s)[i] == CAPITALS[k])
              else Folded(true, s)[i] == s[i]
    {
      var n := s[i] as int;
      if 65 <= n < 91 { assert s[i] == CAPITALS[n - 65] && FoldChar(false, s[i]) == SMALL[n - 65]; }
      if 97 <= n < 123 { assert s[i] == SMALL[n - 97] && FoldChar(true, s[i]) == CAPITALS[n - 97]; }
    }
  }

  /** `t` is `s` without the spaces at the ends named, and with nothing else gone. */
  ghost predicate Stripped(space: char -> bool, front: bool, back: bool, s: string, t: string) {
    exists a: string, b: string ::
      && s == a + t + b && (forall c | c in a :: space(c)) && (forall c | c in b :: space(c))
      && (front || a == "") && (back || b == "")
      && (t == "" || ((front ==> !space(t[0])) && (back ==> !space(t[|t| - 1]))))
  }

  lemma {:induction false} FrontGone(space: char -> bool, s: string)
    ensures var t := DropFront(space, s); |t| <= |s| && s == s[..|s| - |t|] + t && forall c | c in s[..|s| - |t|] :: space(c)
  {
    if s != "" && space(s[0]) {
      FrontGone(space, s[1..]);
      var t := DropFront(space, s);
      assert s[..|s| - |t|] == [s[0]] + s[1..][..|s| - 1 - |t|];
    }
  }

  lemma {:induction false} BackGone(space: char -> bool, s: string)
    ensures var t := DropBack(space, s); |t| <= |s| && s == t + s[|t|..] && forall c | c in s[|t|..] :: space(c)
  {
    if s != "" && space(s[|s| - 1]) {
      BackGone(space, s[..|s| - 1]);
      var t := DropBack(space, s);
      assert s[|t|..] == s[..|s| - 1][|t|..] + [s[|s| - 1]];
    }
  }

  lemma Strips(space: char -> bool, front: bool, back: bool, s: string, a: string, t: string, b: string)
    requires s == a + t + b && (forall c | c in a :: space(c)) && (forall c | c in b :: space(c))
    requires (front || a == "") && (back || b == "")
    requires t == "" || ((front ==> !space(t[0])) && (back ==> !space(t[|t| - 1])))
    ensures Stripped(space, front, back, s, t)
  {
  }

  lemma {:induction false} LstripMeans(space: char -> bool, s: string)
    ensures Stripped(space, true, false, s, DropFront(space, s))
  {
    hide Stripped, DropFront;
    var t := DropFront(space, s);
    FrontGone(space, s);
    FrontEnds(space, s);
    assert s[..|s| - |t|] + t + "" == s;
    Strips(space, true, false, s, s[..|s| - |t|], t, "");
  }

  lemma {:induction false} RstripMeans(space: char -> bool, s: string)
    ensures Stripped(space, false, true, s, DropBack(space, s))
  {
    hide Stripped, DropBack;
    var t := DropBack(space, s);
    BackGone(space, s);
    BackEnds(space, s);
    assert "" + t + s[|t|..] == s;
    Strips(space, false, true, s, "", t, s[|t|..]);
  }

  lemma {:induction false} BothMeans(space: char -> bool, s: string)
    ensures Stripped(space, true, true, s, DropBack(space, DropFront(space, s)))
  {
    hide Stripped, DropFront, DropBack;
    var f := DropFront(space, s);
    var t := DropBack(space, f);
    FrontGone(space, s);
    FrontEnds(space, s);
    BackGone(space, f);
    BackEnds(space, f);
    var a := s[..|s| - |f|];
    assert a + t + f[|t|..] == s;
    if t != "" { assert t[0] == f[0]; }
    Strips(space, true, true, s, a, t, f[|t|..]);
  }

  /** Each strip takes away the spaces at its ends, and nothing more. */
  lemma StripMeans(space: char -> bool, s: string)
    ensures Stripped(space, true, false, s, StripBy(space, Lstrip, s))
    ensures Stripped(space, false, true, s, StripBy(space, Rstrip, s))
    ensures Stripped(space, true, true, s, StripBy(space, Strip, s))
  {
    hide Stripped, DropFront, DropBack;
    LstripMeans(space, s);
    RstripMeans(space, s);
    BothMeans(space, s);
  }

  const PY_SPACES :=
    {9, 10, 11, 12, 13, 28, 29, 30, 31, 32, 133, 160, 5760, 8192, 8193, 8194, 8195, 8196, 8197, 8198, 8199, 8200, 8201, 8202,
     8232, 8233, 8239, 8287, 12288}

  /** The spaces of the two sides, by code: the engine's six, and the twenty-nine of `str.isspace`. */
  lemma SpacesMean(c: char)
    ensures EngineSpace(c) <==> c as int in {9, 10, 11, 12, 13, 32}
    ensures PySpace(c) <==> c as int in PY_SPACES
  {
  }

  // ---- `int` of a string: a sign and digits, single underscores between them, spaces around; ASCII only -------

  function Trimmed(s: string): string
    decreases |s|
  {
    if s != "" && EngineSpace(s[0]) then Trimmed(s[1..])
    else if s != "" && EngineSpace(s[|s| - 1]) then Trimmed(s[..|s| - 1])
    else s
  }

  /** The number `n` continued by the digits of `s`; `after` a digit an underscore may follow, or the end. */
  function DigitsOf(s: string, n: nat, after: bool): Option<nat>
    decreases |s|
  {
    if s == "" then (if after then Some(n) else None)
    else if '0' <= s[0] <= '9' then DigitsOf(s[1..], 10 * n + (s[0] - '0') as nat, true)
    else if s[0] == '_' && after then DigitsOf(s[1..], n, false)
    else None
  }

  function IntText(s: string): Option<int> {
    var t := Trimmed(s);
    if t != "" && (t[0] == '+' || t[0] == '-') then
      var n := DigitsOf(t[1..], 0, false);
      if n.None? then None else Some(if t[0] == '-' then 0 - n.value else n.value)
    else
      var n := DigitsOf(t, 0, false);
      if n.None? then None else Some(n.value)
  }

  /** A number in decimal. */
  function Digits(n: nat): string
    decreases n
  { if n < 10 then ["0123456789"[n]] else Digits(n / 10) + ["0123456789"[n % 10]] }

  predicate IsDigit(c: char) { '0' <= c <= '9' }

  lemma DigitChar(d: nat)
    requires d < 10
    ensures IsDigit("0123456789"[d]) && "0123456789"[d] as int - 48 == d && "0123456789"[d] - '0' == d as char
  {
  }

  /** One more digit, with or without an underscore before it. */
  lemma {:induction false} DigitsMore(a: string, c: char, n: nat, after: bool)
    requires IsDigit(c) && DigitsOf(a, n, after).Some?
    ensures DigitsOf(a + [c], n, after) == Some(10 * DigitsOf(a, n, after).value + (c as int - 48))
    ensures DigitsOf(a + "_" + [c], n, after) == Some(10 * DigitsOf(a, n, after).value + (c as int - 48))
    decreases |a|
  {
    if a == "" {
      assert a + [c] == [c] && [c][1..] == "" && a + "_" + [c] == ['_', c] && ['_', c][1..] == [c];
    } else {
      assert (a + [c])[1..] == a[1..] + [c] && (a + "_" + [c])[1..] == a[1..] + "_" + [c];
      if IsDigit(a[0]) { DigitsMore(a[1..], c, 10 * n + (a[0] - '0') as nat, true); } else { DigitsMore(a[1..], c, n, false); }
    }
  }

  lemma {:induction false} DigitsRead(n: nat)
    ensures |Digits(n)| >= 1 && IsDigit(Digits(n)[0]) && IsDigit(Digits(n)[|Digits(n)| - 1])
    ensures DigitsOf(Digits(n), 0, false) == Some(n)
    decreases n
  {
    DigitChar(n % 10);
    if n < 10 {
      assert Digits(n)[1..] == "";
    } else {
      DigitsRead(n / 10);
      DigitsMore(Digits(n / 10), "0123456789"[n % 10], 0, false);
    }
  }

  /** A number written in decimal, with a sign or without, reads as itself. */
  lemma {:induction false} IntTextReads(n: nat)
    ensures IntText(Digits(n)) == Some(n) && IntText("-" + Digits(n)) == Some(0 - n) && IntText("+" + Digits(n)) == Some(n)
  {
    DigitsRead(n);
    var d := Digits(n);
    assert ("-" + d)[1..] == d && ("+" + d)[1..] == d;
    assert Trimmed(d) == d && Trimmed("-" + d) == "-" + d && Trimmed("+" + d) == "+" + d;
  }

  predicate AllSpaces(s: string) { forall c | c in s :: EngineSpace(c) }

  /** `s` is `t` with spaces around. */
  ghost predicate Padded(s: string, t: string) { exists a: string, b: string :: s == a + t + b && AllSpaces(a) && AllSpaces(b) }

  lemma Pads(s: string, a: string, t: string, b: string)
    requires s == a + t + b && AllSpaces(a) && AllSpaces(b)
    ensures Padded(s, t)
  {
  }

  lemma {:induction false} TrimmedParts(s: string)
    ensures Padded(s, Trimmed(s))
    decreases |s|
  {
    if s != "" && EngineSpace(s[0]) {
      TrimmedParts(s[1..]);
      var a: string, b: string :| s[1..] == a + Trimmed(s) + b && AllSpaces(a) && AllSpaces(b);
      assert s == ([s[0]] + a) + Trimmed(s) + b;
      Pads(s, [s[0]] + a, Trimmed(s), b);
    } else if s != "" && EngineSpace(s[|s| - 1]) {
      TrimmedParts(s[..|s| - 1]);
      var a: string, b: string :| s[..|s| - 1] == a + Trimmed(s) + b && AllSpaces(a) && AllSpaces(b);
      assert s == a + Trimmed(s) + (b + [s[|s| - 1]]);
      Pads(s, a, Trimmed(s), b + [s[|s| - 1]]);
    } else {
      assert s == "" + s + "";
      Pads(s, "", s, "");
    }
  }

  lemma {:induction false} DigitsOnly(s: string, n: nat, after: bool)
    requires DigitsOf(s, n, after).Some?
    ensures forall c | c in s :: IsDigit(c) || c == '_'
    ensures !after ==> s != "" && IsDigit(s[0])
    ensures s != "" ==> IsDigit(s[|s| - 1])
    decreases |s|
  {
    if s != "" {
      if IsDigit(s[0]) { DigitsOnly(s[1..], 10 * n + (s[0] - '0') as nat, true); } else { DigitsOnly(s[1..], n, false); }
      assert s == [s[0]] + s[1..];
    }
  }

  /** Digits and underscores, a digit first and last. */
  predicate Numeral(d: string) { d != "" && IsDigit(d[0]) && IsDigit(d[|d| - 1]) && forall c | c in d :: IsDigit(c) || c == '_' }

  /** What reads as an integer is a numeral, with a sign or without, between spaces. */
  lemma IntTextTakes(s: string)
    requires IntText(s).Some?
    ensures exists t :: Padded(s, t) && t != "" && Numeral(if t[0] == '+' || t[0] == '-' then t[1..] else t)
  {
    TrimmedParts(s);
    var t := Trimmed(s);
    DigitsOnly(if t != "" && (t[0] == '+' || t[0] == '-') then t[1..] else t, 0, false);
  }
}
