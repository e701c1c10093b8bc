/**
 * The JavaScript string operations the server code relies on, over `string`
 * (one `char` per Unicode scalar value; JavaScript counts UTF-16 code units, which
 * differ for characters outside the Basic Multilingual Plane): white space as
 * `\s` and `trim` see it, substring search, `substring`, `join`, `split`,
 * `startsWith` and Node's `path.extname`.
 *
 * Case mapping (`toLowerCase`) is not defined here: every operation that
 * lower-cases takes the case map as a parameter of type `CaseMap`.
 */
module JsString {
  import opened Wrappers

  /** `String.prototype.toLowerCase`, supplied by the caller. */
  type CaseMap = string -> string

  /** The characters matched by the regular expression class `\s`; `trim` removes the same set. */
  predicate IsSpace(c: char) {
    var n := c as int;
    (9 <= n <= 13) || n == 32 || n == 0xA0 || n == 0x1680 || (0x2000 <= n <= 0x200A)
    || n == 0x2028 || n == 0x2029 || n == 0x202F || n == 0x205F || n == 0x3000 || n == 0xFEFF
  }

  predicate AllSpace(s: string) {
    forall i :: 0 <= i < |s| ==> IsSpace(s[i])
  }

  /** Leading white space removed (the first half of `trim`). */
  function TrimStart(s: string): (r: string)
    ensures |r| <= |s| && r == s[|s| - |r|..]
    ensures r != [] ==> !IsSpace(r[0])
    ensures AllSpace(s[..|s| - |r|])
  {
    if s != [] && IsSpace(s[0]) then TrimStart(s[1..]) else s
  }

  /** Trailing white space removed (the second half of `trim`). */
  function TrimEnd(s: string): (r: string)
    ensures |r| <= |s| && r == s[..|r|]
    ensures r != [] ==> !IsSpace(r[|r| - 1])
    ensures AllSpace(s[|r|..])
  {
    if s != [] && IsSpace(s[|s| - 1]) then
      var r := TrimEnd(s[..|s| - 1]);
      assert s[|r|..] == s[..|s| - 1][|r|..] + [s[|s| - 1]];
      r
    else s
  }

  /** `s.trim()` */
  function Trim(s: string): string {
    TrimEnd(TrimStart(s))
  }

  /** `s.trim() === ''` holds exactly for strings made only of white space. */
  lemma TrimEmptyIff(s: string)
    ensures Trim(s) == [] <==> AllSpace(s)
  {
  }

  /** A string that neither starts nor ends with white space is left alone by `trim`. */
  lemma TrimIdentity(s: string)
    requires s != [] ==> !IsSpace(s[0]) && !IsSpace(s[|s| - 1])
    ensures Trim(s) == s
  {
  }

  /** `s.replace(/\s+/g, ' ')`: every maximal run of white space becomes one blank. */
  function Collapse(s: string): (r: string)
    ensures |r| <= |s|
    ensures s != [] ==> r != [] && r[0] == (if IsSpace(s[0]) then ' ' else s[0])
    ensures forall i :: 0 <= i < |r| && IsSpace(r[i]) ==> r[i] == ' '
    ensures forall i, j :: 0 <= i && j == i + 1 && j < |r| && IsSpace(r[i]) ==> !IsSpace(r[j])
    decreases |s|
  {
    if s == [] then []
    else if IsSpace(s[0]) then
      var rest := TrimStart(s[1..]);
      var c := Collapse(rest);
      assert c != [] ==> !IsSpace(c[0]);
      [' '] + c
    else
      var c := Collapse(s[1..]);
      [s[0]] + c
  }

  /** Every white-space character is a blank and no two of them are adjacent. */
  predicate SingleSpaced(s: string) {
    && (forall i :: 0 <= i < |s| && IsSpace(s[i]) ==> s[i] == ' ')
    && (forall i, j :: 0 <= i < |s| && 0 <= j < |s| && j == i + 1 && IsSpace(s[i]) ==> !IsSpace(s[j]))
  }

  /** A slice of a single-spaced string is single-spaced. */
  lemma SingleSpacedSlice(s: string, a: nat, b: nat)
    requires a <= b <= |s| && SingleSpaced(s)
    ensures SingleSpaced(s[a..b])
  {
    var t := s[a..b];
    forall i | 0 <= i < |t| ensures t[i] == s[a + i] { }
    forall i, j | 0 <= i && j == i + 1 && j < |t| && IsSpace(t[i]) ensures !IsSpace(t[j]) {
      assert t[i] == s[a + i] && t[j] == s[a + j];
    }
  }

  /** Text whose only white space is single blanks, none at either end. */
  predicate Normalized(s: string) {
    SingleSpaced(s) && (s != [] ==> !IsSpace(s[0]) && !IsSpace(s[|s| - 1]))
  }

  /** Collapsed text is single-spaced. */
  lemma CollapseSingleSpaced(s: string)
    ensures SingleSpaced(Collapse(s))
  {
  }

  /** Trimming a single-spaced string leaves it normalized. */
  lemma {:induction false} TrimNormalized(c: string)
    requires SingleSpaced(c)
    ensures Normalized(Trim(c))
  {
    var t := TrimStart(c);
    var r := TrimEnd(t);
    SingleSpacedSlice(c, |c| - |t|, |c|);
    assert SingleSpaced(t);
    SingleSpacedSlice(t, 0, |r|);
    assert r != [] ==> r[0] == t[0];
  }

  /** `s.replace(/\s+/g, ' ').trim()`, the clean-up applied to sampled text: the words of the text, in order, one blank between each two. */
  function Normalize(s: string): (r: string)
    ensures |r| <= |s|
    ensures Normalized(r)
    ensures r == Join(Words(s), " ")
  {
    var c := Collapse(s);
    CollapseSingleSpaced(s);
    TrimNormalized(c);
    CollapseWords(s);
    Trim(c)
  }

  /** The longest prefix of `t` without white space. */
  function WordPrefix(t: string): (w: string)
    ensures w <= t
    ensures forall i :: 0 <= i < |w| ==> !IsSpace(w[i])
    ensures |w| < |t| ==> IsSpace(t[|w|])
  {
    if t == [] || IsSpace(t[0]) then [] else [t[0]] + WordPrefix(t[1..])
  }

  /** The words of `s`: its maximal runs of characters other than white space, in order. */
  function Words(s: string): seq<string>
    decreases |s|
  {
    var t := TrimStart(s);
    if t == [] then []
    else
      var w := WordPrefix(t);
      assert w != [];
      [w] + Words(t[|w|..])
  }

  /** Collapsing a word followed by more text keeps the word as it is. */
  lemma {:induction false} CollapseWord(w: string, u: string)
    requires forall i :: 0 <= i < |w| ==> !IsSpace(w[i])
    ensures Collapse(w + u) == w + Collapse(u)
    decreases |w|
  {
    if w == [] {
      assert w + u == u;
    } else {
      assert (w + u)[1..] == w[1..] + u;
      CollapseWord(w[1..], u);
      assert w == [w[0]] + w[1..];
    }
  }

  /** `Collapse` keeps the first word of `t` and goes on after it. */
  lemma CollapseFirstWord(t: string)
    ensures Collapse(t) == WordPrefix(t) + Collapse(t[|WordPrefix(t)|..])
  {
    var w := WordPrefix(t);
    assert t == w + t[|w|..];
    CollapseWord(w, t[|w|..]);
  }

  /** Trimming the end of `a + b` touches only `b` when `b` holds something besides white space. */
  lemma {:induction false} TrimEndAppend(a: string, b: string)
    requires TrimEnd(b) != []
    ensures TrimEnd(a + b) == a + TrimEnd(b)
    decreases |b|
  {
    var s := a + b;
    assert s[|s| - 1] == b[|b| - 1];
    if IsSpace(b[|b| - 1]) {
      assert s[..|s| - 1] == a + b[..|b| - 1];
      TrimEndAppend(a, b[..|b| - 1]);
    }
  }

  /** The first word of `t` starts its words; the rest follow the white space after it. */
  lemma WordsStep(t: string)
    requires t != [] && !IsSpace(t[0])
    ensures var w := WordPrefix(t);
      Words(t) == [w] + Words(TrimStart(t[|w|..]))
  {
    assert TrimStart(t) == t;
    var u := t[|WordPrefix(t)|..];
    var v := TrimStart(u);
    assert TrimStart(v) == v;
  }

  /** White space at the front of `u` collapses to one blank. */
  lemma CollapseSpace(u: string)
    requires u != [] && IsSpace(u[0])
    ensures Collapse(u) == " " + Collapse(TrimStart(u))
  {
    assert TrimStart(u[1..]) == TrimStart(u);
  }

  /** From a word start, the collapsed text with its end trimmed is the words joined with blanks. */
  lemma {:induction false} CollapseTrimmedWords(t: string)
    requires t == [] || !IsSpace(t[0])
    ensures TrimEnd(Collapse(t)) == Join(Words(t), " ")
    decreases |t|
  {
    if t != [] {
      var w := WordPrefix(t);
      var v := TrimStart(t[|w|..]);
      if v == [] {
        OneWord(t);
      } else {
        CollapseTrimmedWords(v);
        MoreWords(t);
      }
    }
  }

  /** Text holding a single word. */
  lemma OneWord(t: string)
    requires t != [] && !IsSpace(t[0])
    requires TrimStart(t[|WordPrefix(t)|..]) == []
    ensures TrimEnd(Collapse(t)) == Join(Words(t), " ")
  {
    var w := WordPrefix(t);
    WordsStep(t);
    LastWord(w);
    CollapseOneWord(t);
  }

  /** A single word collapses to itself, with at most one blank after it. */
  lemma CollapseOneWord(t: string)
    requires t != [] && !IsSpace(t[0])
    requires TrimStart(t[|WordPrefix(t)|..]) == []
    ensures var w := WordPrefix(t);
      Collapse(t) == w || Collapse(t) == w + " "
  {
    var w := WordPrefix(t);
    var u := t[|w|..];
    CollapseFirstWord(t);
    AppendEmpty(w);
    if u != [] {
      CollapseSpace(u);
      AppendEmpty(" ");
    }
  }

  lemma AppendEmpty(a: string)
    ensures a + [] == a
  {
  }

  /** Text holding a word, white space and more words. */
  lemma MoreWords(t: string)
    requires t != [] && !IsSpace(t[0])
    requires var v := TrimStart(t[|WordPrefix(t)|..]);
      v != [] && TrimEnd(Collapse(v)) == Join(Words(v), " ")
    ensures TrimEnd(Collapse(t)) == Join(Words(t), " ")
  {
    var w := WordPrefix(t);
    var v := TrimStart(t[|w|..]);
    WordsStep(t);
    CollapseNextWord(t);
    InnerWord(w, v);
  }

  /** The white space between the first word and the next collapses to one blank. */
  lemma CollapseNextWord(t: string)
    requires t != [] && !IsSpace(t[0])
    requires TrimStart(t[|WordPrefix(t)|..]) != []
    ensures var w := WordPrefix(t);
      Collapse(t) == w + " " + Collapse(TrimStart(t[|w|..]))
  {
    var w := WordPrefix(t);
    var u := t[|w|..];
    CollapseFirstWord(t);
    CollapseSpace(u);
    AppendAssociative(w, " ", Collapse(TrimStart(u)));
  }

  lemma AppendAssociative(a: string, b: string, c: string)
    ensures a + (b + c) == a + b + c
  {
  }

  /** A word alone, possibly followed by white space, is what remains after trimming. */
  lemma LastWord(w: string)
    requires w != [] && forall i :: 0 <= i < |w| ==> !IsSpace(w[i])
    ensures TrimEnd(w) == w && TrimEnd(w + " ") == w
    ensures Join([w] + Words([]), " ") == w
  {
    assert (w + " ")[..|w|] == w;
  }

  /** A word followed by more words, once trimmed and joined. */
  lemma InnerWord(w: string, v: string)
    requires w != [] && v != [] && !IsSpace(v[0])
    requires TrimEnd(Collapse(v)) == Join(Words(v), " ")
    ensures TrimEnd(w + " " + Collapse(v)) == Join([w] + Words(v), " ")
  {
    var c := Collapse(v);
    TrimEndAppend(w + " ", c);
    WordsStep(v);
    var ws := Words(v);
    assert ws != [];
    assert ([w] + ws)[1..] == ws;
  }

  /** `s.replace(/\s+/g, ' ').trim()` is the words of `s` joined with single blanks. */
  lemma CollapseWords(s: string)
    ensures Trim(Collapse(s)) == Join(Words(s), " ")
  {
    var t := TrimStart(s);
    assert TrimStart(Collapse(s)) == Collapse(t) by {
      if s != [] && IsSpace(s[0]) {
        var c := Collapse(t);
        assert Collapse(s) == [' '] + c;
        assert ([' '] + c)[1..] == c;
        assert TrimStart(c) == c;
      }
    }
    assert Words(s) == Words(t) by {
      assert TrimStart(t) == t;
    }
    CollapseTrimmedWords(t);
  }

  /** Collapsing leaves a string without runs of white space unchanged. */
  lemma {:induction false} CollapseIdentity(s: string)
    requires SingleSpaced(s)
    ensures Collapse(s) == s
    decreases |s|
  {
    if s != [] {
      var tail := s[1..];
      SingleSpacedSlice(s, 1, |s|);
      if IsSpace(s[0]) {
        assert tail != [] ==> !IsSpace(tail[0]);
        assert TrimStart(tail) == tail;
      }
      CollapseIdentity(tail);
    }
  }

  /** Normalizing twice is normalizing once. */
  lemma NormalizeIdempotent(s: string)
    ensures Normalize(Normalize(s)) == Normalize(s)
  {
    var n := Normalize(s);
    CollapseIdentity(n);
    TrimIdentity(n);
  }

  /** `s.includes(sub)`: `sub` is a prefix of `s` or of one of its suffixes. */
  predicate Contains(s: string, sub: string)
    decreases |s|
  {
    sub <= s || (s != [] && Contains(s[1..], sub))
  }

  /** `sub` appears in `s` starting at index `i`. */
  predicate OccursAt(s: string, sub: string, i: int) {
    0 <= i <= |s| - |sub| && s[i..i + |sub|] == sub
  }

  /** An index where a contained string occurs. */
  lemma {:induction false} ContainsWitness(s: string, sub: string) returns (i: nat)
    requires Contains(s, sub)
    ensures OccursAt(s, sub, i)
    decreases |s|
  {
    if sub <= s {
      i := 0;
    } else {
      var j := ContainsWitness(s[1..], sub);
      i := j + 1;
      assert s[i..i + |sub|] == s[1..][j..j + |sub|];
    }
  }

  /** A string occurring at some index is contained. */
  lemma {:induction false} OccursContains(s: string, sub: string, i: nat)
    requires OccursAt(s, sub, i)
    ensures Contains(s, sub)
    decreases i
  {
    if i > 0 {
      assert s[1..][i - 1..i - 1 + |sub|] == s[i..i + |sub|];
      OccursContains(s[1..], sub, i - 1);
    }
  }

  /** The search agrees with the positional definition: `s.includes(sub)` holds exactly
      when `sub` occurs at some index of `s`. */
  lemma ContainsIff(s: string, sub: string)
    ensures Contains(s, sub) <==> exists i :: OccursAt(s, sub, i)
  {
    if Contains(s, sub) {
      var i := ContainsWitness(s, sub);
    }
    if exists i :: OccursAt(s, sub, i) {
      var i :| OccursAt(s, sub, i);
      OccursContains(s, sub, i);
    }
  }

  /** Substring search is transitive: a string containing `b` contains everything `b` contains. */
  lemma ContainsTransitive(a: string, b: string, c: string)
    requires Contains(a, b) && Contains(b, c)
    ensures Contains(a, c)
  {
    ContainsIff(a, b);
    ContainsIff(b, c);
    ContainsIff(a, c);
    var i :| OccursAt(a, b, i);
    var j :| OccursAt(b, c, j);
    assert a[i..i + |b|] == b && b[j..j + |c|] == c;
    forall k | 0 <= k < |c| ensures a[i + j + k] == c[k] {
      assert c[k] == b[j + k] == a[i + j + k];
    }
    assert OccursAt(a, c, i + j);
  }

  /** A string contains each of its own slices. */
  lemma ContainsSlice(s: string, i: nat, j: nat)
    requires i <= j <= |s|
    ensures Contains(s, s[i..j])
  {
    ContainsIff(s, s[i..j]);
    assert OccursAt(s, s[i..j], i);
  }

  /** `s.startsWith(p)` */
  predicate StartsWith(s: string, p: string) {
    p <= s
  }

  /** `Math.min(Math.max(x, lo), hi)` */
  function Clamp(x: int, lo: int, hi: int): (r: int)
    requires lo <= hi
    ensures lo <= r <= hi
    ensures lo <= x <= hi ==> r == x
    ensures x < lo ==> r == lo
    ensures x > hi ==> r == hi
  {
    if x < lo then lo else if x > hi then hi else x
  }

  /** `s.substring(start, end)`: both ends clamped to the string, swapped when reversed. */
  function Substring(s: string, start: int, end: int): (r: string)
    ensures 0 <= start <= end <= |s| ==> r == s[start..end]
    ensures start <= 0 && end >= |s| ==> r == s
  {
    var a := Clamp(start, 0, |s|);
    var b := Clamp(end, 0, |s|);
    if a <= b then s[a..b] else s[b..a]
  }

  /** `s.substring(start)`, the rest of the string from `start` on. */
  function SubstringFrom(s: string, start: int): (r: string)
    ensures 0 <= start <= |s| ==> r == s[start..]
    ensures start > |s| ==> r == []
  {
    Substring(s, start, |s|)
  }

  /** `parts.join(sep)` */
  function Join(parts: seq<string>, sep: string): string {
    if |parts| == 0 then []
    else if |parts| == 1 then parts[0]
    else parts[0] + sep + Join(parts[1..], sep)
  }

  /** `a.indexOf(x)`: the first index holding `x`, or -1 when there is none. */
  function IndexOf<T(==)>(a: seq<T>, x: T): (r: int)
    ensures -1 <= r < |a|
    ensures r == -1 <==> x !in a
    ensures r >= 0 ==> a[r] == x && x !in a[..r]
  {
    if a == [] then -1
    else if a[0] == x then 0
    else
      var r := IndexOf(a[1..], x);
      assert r >= 0 ==> a[..r + 1] == [a[0]] + a[1..][..r];
      if r == -1 then -1 else r + 1
  }

  /** No element occurs twice. */
  predicate Distinct<T(==)>(a: seq<T>) {
    forall i, j :: 0 <= i < j < |a| ==> a[i] != a[j]
  }

  /** In a sequence without repetitions, `indexOf` finds the position of any element. */
  lemma IndexOfDistinct<T>(a: seq<T>, i: nat)
    requires Distinct(a) && i < |a|
    ensures IndexOf(a, a[i]) == i
  {
  }

  /** Number of occurrences of `c` in `s`. */
  function CountChar(s: string, c: char): nat {
    if s == [] then 0 else (if s[0] == c then 1 else 0) + CountChar(s[1..], c)
  }

  /** `s.split(c)` for a one-character separator. */
  function Split(s: string, c: char): (parts: seq<string>)
    ensures |parts| == CountChar(s, c) + 1
    ensures forall k :: 0 <= k < |parts| ==> c !in parts[k]
  {
    if s == [] then [[]]
    else
      var rest := Split(s[1..], c);
      if s[0] == c then [[]] + rest
      else [[s[0]] + rest[0]] + rest[1..]
  }

  /** Splitting and joining again with the same separator gives the string back. */
  lemma {:induction false} JoinSplit(s: string, c: char)
    ensures Join(Split(s, c), [c]) == s
  {
    if s != [] {
      var rest := Split(s[1..], c);
      JoinSplit(s[1..], c);
      if s[0] != c {
        var parts := Split(s, c);
        assert parts[1..] == rest[1..];
        if |rest| > 1 {
          assert Join(rest, [c]) == rest[0] + [c] + Join(rest[1..], [c]);
        }
      }
    }
  }

  /** `path.basename`-style last segment: trailing slashes dropped, then everything after the last slash. */
  function StripTrailingSlashes(p: string): (r: string)
    ensures r == [] || r[|r| - 1] != '/'
    ensures r <= p
  {
    if p != [] && p[|p| - 1] == '/' then StripTrailingSlashes(p[..|p| - 1]) else p
  }

  function AfterLastSlash(p: string): (r: string)
    ensures '/' !in r
    ensures '/' !in p ==> r == p
  {
    if p == [] then []
    else if p[|p| - 1] == '/' then []
    else AfterLastSlash(p[..|p| - 1]) + [p[|p| - 1]]
  }

  function BaseName(p: string): string {
    AfterLastSlash(StripTrailingSlashes(p))
  }

  /** Index of the last '.' among the first `n` characters of `s`. */
  function LastDotBefore(s: string, n: nat): (r: Option<nat>)
    requires n <= |s|
    ensures r.None? ==> forall k :: 0 <= k < n ==> s[k] != '.'
    ensures r.Some? ==> r.value < n && s[r.value] == '.' && forall k :: r.value < k < n ==> s[k] != '.'
  {
    if n == 0 then None else if s[n - 1] == '.' then Some(n - 1) else LastDotBefore(s, n - 1)
  }

  /** Index of the last '.' in `s`. */
  function LastDot(s: string): (r: Option<nat>)
    ensures r.None? <==> '.' !in s
    ensures r.Some? ==> r.value < |s| && s[r.value] == '.' && forall k :: r.value < k < |s| ==> s[k] != '.'
  {
    LastDotBefore(s, |s|)
  }

  /** The scan from the end stops at the first '.' it meets. */
  lemma {:induction false} LastDotBeforeAt(s: string, n: nat, m: nat)
    requires m < n <= |s| && s[m] == '.'
    requires forall k :: m < k < n ==> s[k] != '.'
    ensures LastDotBefore(s, n) == Some(m)
    decreases n
  {
    if n - 1 > m {
      LastDotBeforeAt(s, n - 1, m);
    }
  }

  /** Node's `path.extname`: from the last '.' of the last segment, except for a
      leading dot ('.bashrc') and the name '..', which have no extension. */
  function ExtName(p: string): (e: string)
    ensures ExtensionShaped(e)
  {
    var b := BaseName(p);
    match LastDot(b)
    case None => []
    case Some(d) =>
      if d == 0 || b == ".." then []
      else
        assert forall k :: 1 <= k < |b[d..]| ==> b[d..][k] == b[d + k];
        b[d..]
  }

  /** A string shaped like an extension: empty, or a dot followed by no dot or slash. */
  predicate ExtensionShaped(e: string) {
    e == [] || (e[0] == '.' && forall k :: 1 <= k < |e| ==> e[k] != '.' && e[k] != '/')
  }

  /** The last dot of `stem + e` is the first character of `e` when `e` is extension-shaped. */
  lemma LastDotOfExtension(stem: string, e: string)
    requires e != [] && ExtensionShaped(e)
    ensures LastDot(stem + e) == Some(|stem|)
  {
    var p := stem + e;
    forall k | |stem| < k < |p| ensures p[k] != '.' {
      assert p[k] == e[k - |stem|];
    }
    LastDotBeforeAt(p, |p|, |stem|);
  }

  /** Putting a dot-free, slash-free, non-empty stem in front of an extension keeps
      that extension: `path.extname(stem + ext) === ext`. */
  lemma ExtNameOfStem(stem: string, e: string)
    requires stem != [] && '.' !in stem && '/' !in stem
    requires ExtensionShaped(e)
    ensures ExtName(stem + e) == e
  {
    var p := stem + e;
    assert p[|p| - 1] != '/' by {
      if e == [] { assert p[|p| - 1] == stem[|stem| - 1]; }
      else { assert p[|p| - 1] == e[|e| - 1]; }
    }
    assert StripTrailingSlashes(p) == p;
    assert '/' !in p by {
      forall i | 0 <= i < |p| ensures p[i] != '/' {
        if i < |stem| { assert p[i] == stem[i]; } else { assert p[i] == e[i - |stem|]; }
      }
    }
    assert BaseName(p) == p;
    if e == [] {
      assert p == stem;
    } else {
      LastDotOfExtension(stem, e);
      assert p[0] == stem[0] && stem[0] != '.';
      assert p[|stem|..] == e;
    }
  }

  /** Decimal rendering of a natural number, as `${n}` does. */
  function NatToString(n: nat): (s: string)
    ensures s != []
    ensures forall i :: 0 <= i < |s| ==> '0' <= s[i] <= '9'
  {
    var d := [('0' as int + n % 10) as char];
    if n < 10 then d else NatToString(n / 10) + d
  }
}
