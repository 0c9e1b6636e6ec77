/** Python's string primitives as the audit script uses them: `splitlines()`,
  `split()`, `strip()`, `in`, `startswith`, `split(sep, 1)`, `lower()`, and the
  leftmost search performed by `re.search`.
 */
module Text {
  import opened Common

  /** The characters for which Python's `str.isspace()` holds; `split()`,
      `strip()` and the regex class `\s` all use this set. */
  predicate IsSpace(c: char) {
    || ('\t' <= c <= '\r')
    || ('\U{1C}' <= c <= ' ')
    || c == '\U{85}' || c == '\U{A0}' || c == '\U{1680}'
    || ('\U{2000}' <= c <= '\U{200A}')
    || c == '\U{2028}' || c == '\U{2029}' || c == '\U{202F}' || c == '\U{205F}' || c == '\U{3000}'
  }

  predicate IsWordChar(c: char) { !IsSpace(c) }

  /** The line boundaries of `str.splitlines()` (`\r\n` counts as one). */
  predicate IsLineBreak(c: char) {
    || ('\n' <= c <= '\r')
    || ('\U{1C}' <= c <= '\U{1E}')
    || c == '\U{85}' || c == '\U{2028}' || c == '\U{2029}'
  }

  predicate IsLineContent(c: char) { !IsLineBreak(c) }

  predicate All(s: string, keep: char -> bool) {
    forall i :: 0 <= i < |s| ==> keep(s[i])
  }

  /** Length of the longest prefix of `s` whose characters all satisfy `keep`. */
  function Span(s: string, keep: char -> bool): (n: nat)
    ensures n <= |s|
    ensures All(s[..n], keep)
    ensures n < |s| ==> !keep(s[n])
  {
    if s == [] || !keep(s[0]) then 0 else 1 + Span(s[1..], keep)
  }

  /** Span of a prefix that is followed by a character outside the class. */
  lemma {:induction false} SpanOfPrefix(a: string, b: string, keep: char -> bool)
    requires All(a, keep)
    requires b != [] && !keep(b[0])
    ensures Span(a + b, keep) == |a|
  {
    if a == [] {
      assert a + b == b;
    } else {
      assert (a + b)[0] == a[0];
      assert (a + b)[1..] == a[1..] + b;
      SpanOfPrefix(a[1..], b, keep);
    }
  }

  lemma SpanOfAll(a: string, keep: char -> bool)
    requires All(a, keep)
    ensures Span(a, keep) == |a|
  {
  }

  // ---------------------------------------------------------------------------
  // splitlines()

  function BreakWidth(s: string, k: nat): nat
    requires k < |s|
  {
    if s[k] == '\r' && k + 1 < |s| && s[k + 1] == '\n' then 2 else 1
  }

  /** `s.splitlines()`: the text between line boundaries; a final boundary
      does not open an empty last line, and the empty text has no lines. */
  function Lines(s: string): (r: seq<string>)
    ensures forall i :: 0 <= i < |r| ==> All(r[i], IsLineContent)
    ensures s != [] ==> r != []
    decreases |s|
  {
    if s == [] then []
    else
      var k := Span(s, IsLineContent);
      if k == |s| then [s]
      else [s[..k]] + Lines(s[k + BreakWidth(s, k)..])
  }

  /** `"\n".join(ls)` */
  function JoinLines(ls: seq<string>): string
  {
    if |ls| == 0 then ""
    else if |ls| == 1 then ls[0]
    else ls[0] + "\n" + JoinLines(ls[1..])
  }

  /** splitlines() undoes a newline join of break-free lines, as long as the
      last line is not empty (a trailing boundary opens no line). */
  lemma {:induction false} LinesOfJoin(ls: seq<string>)
    requires forall i :: 0 <= i < |ls| ==> All(ls[i], IsLineContent)
    requires |ls| == 0 || ls[|ls| - 1] != ""
    ensures Lines(JoinLines(ls)) == ls
  {
    if |ls| == 1 {
      SpanOfAll(ls[0], IsLineContent);
    } else if |ls| > 1 {
      var rest := JoinLines(ls[1..]);
      var s := ls[0] + ("\n" + rest);
      assert JoinLines(ls) == s;
      SpanOfPrefix(ls[0], "\n" + rest, IsLineContent);
      var k := |ls[0]|;
      assert s[..k] == ls[0];
      assert s[k] == '\n';
      assert s[k + 1..] == rest;
      LinesOfJoin(ls[1..]);
    }
  }

  // ---------------------------------------------------------------------------
  // split() and strip()

  /** `s.split()`: the maximal runs of non-whitespace characters, in order. */
  function Words(s: string): (r: seq<string>)
    ensures forall i :: 0 <= i < |r| ==> r[i] != [] && All(r[i], IsWordChar)
    decreases |s|
  {
    if s == [] then []
    else if IsSpace(s[0]) then Words(s[1..])
    else
      var k := Span(s, IsWordChar);
      [s[..k]] + Words(s[k..])
  }

  /** `" ".join(ws)` */
  function JoinWords(ws: seq<string>): string
  {
    if |ws| == 0 then ""
    else if |ws| == 1 then ws[0]
    else ws[0] + " " + JoinWords(ws[1..])
  }

  /** split() undoes a single-space join of non-empty words. */
  lemma {:induction false} WordsOfJoin(ws: seq<string>)
    requires forall i :: 0 <= i < |ws| ==> ws[i] != [] && All(ws[i], IsWordChar)
    ensures Words(JoinWords(ws)) == ws
  {
    if |ws| == 1 {
      assert !IsSpace(ws[0][0]);
      SpanOfAll(ws[0], IsWordChar);
      assert JoinWords(ws) == ws[0];
      assert ws[0][..|ws[0]|] == ws[0];
      assert ws[0][|ws[0]|..] == [];
      assert Words([]) == [];
    } else if |ws| > 1 {
      var rest := JoinWords(ws[1..]);
      var s := ws[0] + (" " + rest);
      assert JoinWords(ws) == s;
      SpanOfPrefix(ws[0], " " + rest, IsWordChar);
      var k := |ws[0]|;
      assert s[..k] == ws[0];
      assert s[k..] == " " + rest;
      assert Words(" " + rest) == Words(rest) by {
        assert (" " + rest)[1..] == rest;
      }
      WordsOfJoin(ws[1..]);
    }
  }

  function TrimStart(s: string): string
  {
    s[Span(s, IsSpace)..]
  }

  function TrimEnd(s: string): (r: string)
    ensures |r| <= |s| && r == s[..|r|]
    ensures All(s[|r|..], IsSpace)
    ensures r == [] || !IsSpace(r[|r| - 1])
  {
    if s == [] || !IsSpace(s[|s| - 1]) then s
    else
      var init := s[..|s| - 1];
      var r := TrimEnd(init);
      assert s[..|r|] == init[..|r|];
      assert s[|r|..] == init[|r|..] + [s[|s| - 1]];
      r
  }

  predicate Trimmed(s: string) {
    s == [] || (!IsSpace(s[0]) && !IsSpace(s[|s| - 1]))
  }

  /** `s.strip()` */
  function Strip(s: string): (r: string)
    ensures Trimmed(r)
    ensures Trimmed(s) ==> r == s
  {
    var t := TrimStart(s);
    var r := TrimEnd(t);
    assert r == [] || r[0] == t[0];
    r
  }

  /** strip() removes exactly the surrounding whitespace. */
  lemma {:induction false} StripPadded(a: string, t: string, b: string)
    requires All(a, IsSpace) && All(b, IsSpace) && Trimmed(t)
    ensures Strip(a + t + b) == t
  {
    var s := a + t + b;
    if t == [] {
      assert s == a + b;
      SpanOfAll(a + b, IsSpace);
      assert TrimStart(s) == [];
    } else {
      assert s == a + (t + b);
      SpanOfPrefix(a, t + b, IsSpace);
      assert TrimStart(s) == t + b;
      TrimEndPadded(t, b);
    }
  }

  lemma {:induction false} TrimEndPadded(t: string, b: string)
    requires All(b, IsSpace)
    requires t == [] || !IsSpace(t[|t| - 1])
    ensures TrimEnd(t + b) == t
    decreases |b|
  {
    if b == [] {
      assert t + b == t;
    } else {
      var b' := b[..|b| - 1];
      assert (t + b)[..|t + b| - 1] == t + b';
      TrimEndPadded(t, b');
    }
  }

  // ---------------------------------------------------------------------------
  // Substrings

  predicate OccursAt(s: string, sub: string, i: nat) {
    i + |sub| <= |s| && s[i..i + |sub|] == sub
  }

  /** Python's `sub in s`. */
  predicate Contains(s: string, sub: string) {
    exists i: nat :: i <= |s| && OccursAt(s, sub, i)
  }

  /** A substring whose first character does not occur cannot occur. */
  lemma NotContainsFirstChar(s: string, sub: string)
    requires sub != [] && sub[0] !in s
    ensures !Contains(s, sub)
  {
  }

  lemma ContainsAt(s: string, sub: string, i: nat)
    requires OccursAt(s, sub, i)
    ensures Contains(s, sub)
  {
  }

  /** `s.startswith(prefix)` */
  predicate StartsWith(s: string, prefix: string) {
    |prefix| <= |s| && s[..|prefix|] == prefix
  }

  function FindFrom(s: string, sub: string, i: nat): (r: Option<nat>)
    ensures r.Some? ==> i <= r.value && OccursAt(s, sub, r.value)
    ensures r.Some? ==> forall j :: i <= j < r.value ==> !OccursAt(s, sub, j)
    ensures r.None? ==> forall j :: i <= j <= |s| ==> !OccursAt(s, sub, j)
    decreases |s| + 1 - i
  {
    if i > |s| then None
    else if OccursAt(s, sub, i) then Some(i)
    else FindFrom(s, sub, i + 1)
  }

  /** `s.find(sub)`, with `None` for -1: the leftmost occurrence. */
  function Find(s: string, sub: string): (r: Option<nat>)
    ensures r.Some? ==> OccursAt(s, sub, r.value)
    ensures r.Some? ==> forall j :: 0 <= j < r.value ==> !OccursAt(s, sub, j)
    ensures r.None? <==> !Contains(s, sub)
  {
    FindFrom(s, sub, 0)
  }

  /** `s.split(sep, 1)[1]`: the text after the first `sep`; `None` where
      Python's indexing would raise because `sep` does not occur. */
  function AfterFirst(s: string, sep: string): (r: Option<string>)
    ensures r.Some? <==> Contains(s, sep)
    ensures r.Some? ==> exists k :: Find(s, sep) == Some(k) && r.value == s[k + |sep|..]
  {
    match Find(s, sep)
    case None => None
    case Some(k) => Some(s[k + |sep|..])
  }

  /** `line.split(":", 1)[1].strip()`: the value of a "key: value" line, or
      `None` where the indexing raises because the line has no colon. */
  function FieldValue(line: string): (r: Option<string>)
    ensures r.Some? <==> Contains(line, ":")
  {
    match AfterFirst(line, ":")
    case None => None
    case Some(rest) => Some(Strip(rest))
  }

  predicate IsUpper(c: char) { 'A' <= c <= 'Z' }

  /** `str.lower()` on ASCII letters; other characters are kept. */
  function LowerChar(c: char): (d: char)
  {
    if IsUpper(c) then (c as int + 32) as char else c
  }

  function ToLower(s: string): (r: string)
    ensures |r| == |s|
    ensures forall i :: 0 <= i < |s| ==> r[i] == LowerChar(s[i])
  {
    seq(|s|, i requires 0 <= i < |s| => LowerChar(s[i]))
  }

  /** Lowering changes exactly the capitals: text is its own lower case
      exactly when it has no capital, the result never has one, and so
      lowering twice is lowering once. */
  lemma LowerFixesLower(s: string)
    ensures ToLower(s) == s <==> forall i :: 0 <= i < |s| ==> !IsUpper(s[i])
    ensures forall i :: 0 <= i < |s| ==> !IsUpper(ToLower(s)[i])
    ensures ToLower(ToLower(s)) == ToLower(s)
  {
    var r := ToLower(s);
    if r == s {
      forall i | 0 <= i < |s|
        ensures !IsUpper(s[i])
      {
        assert r[i] == s[i];
      }
    }
  }

  // ---------------------------------------------------------------------------
  // Scans

  /** `re.search`: the leftmost position at which `at` matches. */
  function SearchFrom<T>(s: string, at: (string, nat) -> Option<T>, p: nat): (r: Option<Hit<T>>)
    ensures r.Some? ==> p <= r.value.pos <= |s| && at(s, r.value.pos) == Some(r.value.value)
    ensures r.Some? ==> forall q :: p <= q < r.value.pos ==> at(s, q).None?
    ensures r.None? ==> forall q :: p <= q <= |s| ==> at(s, q).None?
    decreases |s| + 1 - p
  {
    if p > |s| then None
    else
      match at(s, p)
      case Some(v) => Some(Hit(p, v))
      case None => SearchFrom(s, at, p + 1)
  }

  function Search<T>(s: string, at: (string, nat) -> Option<T>): Option<Hit<T>>
  {
    SearchFrom(s, at, 0)
  }

  predicate NoMatchBefore<T>(s: string, at: (string, nat) -> Option<T>, p: nat) {
    forall q :: 0 <= q < p ==> at(s, q).None?
  }

  /** The search reports exactly the leftmost matching position. */
  lemma SearchLeftmost<T>(s: string, at: (string, nat) -> Option<T>, p: nat, v: T)
    requires p <= |s| && at(s, p) == Some(v) && NoMatchBefore(s, at, p)
    ensures Search(s, at) == Some(Hit(p, v))
  {
    var r := Search(s, at);
    assert r.Some?;
    assert r.value.pos == p;
  }

  lemma SearchNone<T>(s: string, at: (string, nat) -> Option<T>)
    requires forall q :: 0 <= q <= |s| ==> at(s, q).None?
    ensures Search(s, at) == None
  {
  }

  function FirstHitFrom<T>(xs: seq<string>, pick: string -> Option<T>, i: nat): (r: Option<Hit<T>>)
    ensures r.Some? ==> i <= r.value.pos < |xs| && pick(xs[r.value.pos]) == Some(r.value.value)
    ensures r.Some? ==> forall j :: i <= j < r.value.pos ==> pick(xs[j]).None?
    ensures r.None? ==> forall j :: i <= j < |xs| ==> pick(xs[j]).None?
    decreases |xs| - i
  {
    if i >= |xs| then None
    else
      match pick(xs[i])
      case Some(v) => Some(Hit(i, v))
      case None => FirstHitFrom(xs, pick, i + 1)
  }

  /** The first line for which `pick` yields a value: a `for` loop that
      returns from inside its body. */
  function FirstHit<T>(xs: seq<string>, pick: string -> Option<T>): Option<Hit<T>>
  {
    FirstHitFrom(xs, pick, 0)
  }

  /** The first hit is at the first line that `pick` accepts. */
  lemma FirstHitAt<T>(xs: seq<string>, pick: string -> Option<T>, i: nat)
    requires i < |xs| && pick(xs[i]).Some?
    requires forall j :: 0 <= j < i ==> pick(xs[j]).None?
    ensures FirstHit(xs, pick) == Some(Hit(i, pick(xs[i]).value))
  {
    var r := FirstHit(xs, pick);
    assert r.Some?;
    assert r.value.pos == i;
  }

  /** The last line for which `pick` yields a value: a loop that overwrites
      a variable on every matching line. */
  function LastHit<T>(xs: seq<string>, pick: string -> Option<T>): (r: Option<Hit<T>>)
    ensures r.Some? ==> r.value.pos < |xs| && pick(xs[r.value.pos]) == Some(r.value.value)
    ensures r.Some? ==> forall j :: r.value.pos < j < |xs| ==> pick(xs[j]).None?
    ensures r.None? ==> forall j :: 0 <= j < |xs| ==> pick(xs[j]).None?
  {
    if xs == [] then None
    else
      match pick(xs[|xs| - 1])
      case Some(v) => Some(Hit(|xs| - 1, v))
      case None => LastHit(xs[..|xs| - 1], pick)
  }

  /** Line `i` is the first line satisfying `p`. */
  predicate FirstWhere(xs: seq<string>, p: string -> bool, i: nat) {
    i < |xs| && p(xs[i]) && forall j :: 0 <= j < i ==> !p(xs[j])
  }

  lemma FirstWhereUnique(xs: seq<string>, p: string -> bool, i: nat)
    requires FirstWhere(xs, p, i)
    ensures forall j :: FirstWhere(xs, p, j) ==> j == i
  {
  }

  predicate NoneWhere(xs: seq<string>, p: string -> bool) {
    forall i :: 0 <= i < |xs| ==> !p(xs[i])
  }

  lemma NoneWhereSnoc(xs: seq<string>, p: string -> bool)
    requires xs != []
    ensures NoneWhere(xs, p) <==> NoneWhere(xs[..|xs| - 1], p) && !p(xs[|xs| - 1])
  {
    var init := xs[..|xs| - 1];
    assert forall i :: 0 <= i < |init| ==> init[i] == xs[i];
  }

  /** Number of lines satisfying `p`: a counter bumped inside a loop. */
  function CountWhere(xs: seq<string>, p: string -> bool): (n: nat)
    ensures n <= |xs|
  {
    if xs == [] then 0
    else CountWhere(xs[..|xs| - 1], p) + (if p(xs[|xs| - 1]) then 1 else 0)
  }

  /** The count is zero exactly when no line satisfies `p`. */
  lemma {:induction false} CountWhereZero(xs: seq<string>, p: string -> bool)
    ensures CountWhere(xs, p) == 0 <==> forall i :: 0 <= i < |xs| ==> !p(xs[i])
  {
    if xs != [] {
      var xs' := xs[..|xs| - 1];
      CountWhereZero(xs', p);
      assert forall i :: 0 <= i < |xs'| ==> xs'[i] == xs[i];
    }
  }
}
