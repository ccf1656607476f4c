/** The Python string operations the workflow relies on, written over
    `seq<char>`: `strip`, `lower`, `in` (substring search), `startswith`,
    `split`, `join`, order-preserving de-duplication (`dict.fromkeys`) and
    `sorted` under Python's code-point string order. */
module Text {
  import opened Wrappers

  /** The characters Python's `str.isspace()` accepts, which are those
      `str.strip()` removes: tab to carriage return, the file, group,
      record and unit separators, space, next line, no-break space, and
      the Unicode space separators, line and paragraph separators. */
  predicate IsSpace(c: char) {
    ('\t' <= c <= '\r') || ('\U{001C}' <= c <= ' ') || c == '\U{0085}' || c == '\U{00A0}' ||
    c == '\U{1680}' || ('\U{2000}' <= c <= '\U{200A}') || c == '\U{2028}' || c == '\U{2029}' ||
    c == '\U{202F}' || c == '\U{205F}' || c == '\U{3000}'
  }

  predicate Blank(s: string) {
    forall i :: 0 <= i < |s| ==> IsSpace(s[i])
  }

  function StripLeft(s: string): (r: string)
    ensures |r| <= |s| && r == s[|s| - |r|..]
    ensures r == [] || !IsSpace(r[0])
    ensures forall i :: 0 <= i < |s| - |r| ==> IsSpace(s[i])
  {
    if s != [] && IsSpace(s[0]) then StripLeft(s[1..]) else s
  }

  function StripRight(s: string): (r: string)
    ensures |r| <= |s| && r == s[..|r|]
    ensures r == [] || !IsSpace(r[|r| - 1])
    ensures forall i :: |r| <= i < |s| ==> IsSpace(s[i])
  {
    if s != [] && IsSpace(s[|s| - 1]) then StripRight(s[..|s| - 1]) else s
  }

  /** Python `s.strip()`: the longest slice of `s` that neither starts nor
      ends with whitespace, everything cut away being whitespace. */
  function Strip(s: string): (r: string)
    ensures |r| <= |s|
    ensures r == [] || (!IsSpace(r[0]) && !IsSpace(r[|r| - 1]))
  {
    StripRight(StripLeft(s))
  }

  lemma {:induction false} BlankStripLeft(s: string)
    requires Blank(s)
    ensures StripLeft(s) == []
  {
    if s != [] {
      BlankStripLeft(s[1..]);
    }
  }

  lemma {:induction false} StripRightKeepsFirst(s: string)
    requires s != [] && !IsSpace(s[0])
    ensures StripRight(s) != []
    decreases |s|
  {
    if IsSpace(s[|s| - 1]) {
      assert |s| >= 2;
      StripRightKeepsFirst(s[..|s| - 1]);
    }
  }

  /** `s.strip() == ""` holds exactly for the all-whitespace strings. */
  lemma StripEmptyIffBlank(s: string)
    ensures Strip(s) == [] <==> Blank(s)
  {
    if Blank(s) {
      BlankStripLeft(s);
    } else {
      var l := StripLeft(s);
      var i :| 0 <= i < |s| && !IsSpace(s[i]);
      assert i >= |s| - |l|;
      assert l != [] && !IsSpace(l[0]);
      StripRightKeepsFirst(l);
    }
  }

  /** The no-break space, an em space, the ideographic space and the unit
      separator are stripped like the ASCII blanks. */
  lemma UnicodeSpacesStripped()
    ensures Strip("\U{00A0}\U{2003}\U{3000}\U{001F}") == []
  {
    var s := "\U{00A0}\U{2003}\U{3000}\U{001F}";
    assert |s| == 4 && IsSpace(s[0]) && IsSpace(s[1]) && IsSpace(s[2]) && IsSpace(s[3]);
    assert Blank(s);
    BlankStripLeft(s);
  }

  lemma StripIdempotent(s: string)
    ensures Strip(Strip(s)) == Strip(s)
  {
    var r := Strip(s);
    assert r == [] || !IsSpace(r[0]);
    assert StripLeft(r) == r;
    assert r == [] || !IsSpace(r[|r| - 1]);
    assert StripRight(r) == r;
  }

  /** Python `str.lower()` on the characters the data uses: ASCII and the
      Latin-1 capitals (Danish Æ, Ø, Å among them). */
  function LowerChar(c: char): char {
    if 'A' <= c <= 'Z' then (c as int + 32) as char
    else if '\U{00C0}' <= c <= '\U{00DE}' && c != '\U{00D7}' then (c as int + 32) as char
    else c
  }

  function Lower(s: string): (r: string)
    ensures |r| == |s|
  {
    seq(|s|, i requires 0 <= i < |s| => LowerChar(s[i]))
  }

  lemma LowerIdempotent(s: string)
    ensures Lower(Lower(s)) == Lower(s)
  {
  }

  predicate StartsWith(s: string, p: string) {
    |p| <= |s| && s[..|p|] == p
  }

  /** Python `sub in s`. */
  predicate Contains(s: string, sub: string)
    decreases |s|
  {
    StartsWith(s, sub) || (s != [] && Contains(s[1..], sub))
  }

  /** Python `s.find(sub)`, with `None` for -1. */
  function IndexOf(s: string, sub: string): (r: Option<nat>)
    ensures r.Some? ==> r.value + |sub| <= |s| && s[r.value..r.value + |sub|] == sub
    decreases |s|
  {
    if StartsWith(s, sub) then Some(0)
    else if s == [] then None
    else match IndexOf(s[1..], sub)
      case None => None
      case Some(k) =>
        assert s[k + 1..k + 1 + |sub|] == s[1..][k..k + |sub|];
        Some(k + 1)
  }

  /** `find` succeeds exactly when `sub in s`. */
  lemma {:induction false} IndexOfContains(s: string, sub: string)
    ensures IndexOf(s, sub).Some? <==> Contains(s, sub)
    decreases |s|
  {
    if !StartsWith(s, sub) && s != [] {
      IndexOfContains(s[1..], sub);
    }
  }

  /** `find` returns the first occurrence: no earlier position starts one. */
  lemma {:induction false} IndexOfFirst(s: string, sub: string)
    ensures IndexOf(s, sub).Some? ==> forall j :: 0 <= j < IndexOf(s, sub).value ==> !StartsWith(s[j..], sub)
    decreases |s|
  {
    if !StartsWith(s, sub) && s != [] {
      IndexOfFirst(s[1..], sub);
      match IndexOf(s[1..], sub)
      case None =>
      case Some(k) =>
        ShiftedNoStart(s, sub, k);
    }
  }

  lemma ShiftedNoStart(s: string, sub: string, k: nat)
    requires k < |s| && forall j :: 0 <= j < k ==> !StartsWith(s[1..][j..], sub)
    ensures forall j :: 1 <= j <= k ==> !StartsWith(s[j..], sub)
  {
    forall j | 1 <= j <= k ensures !StartsWith(s[j..], sub) {
      assert s[j..] == s[1..][j - 1..];
    }
  }

  lemma ContainsAt(s: string, sub: string, j: nat)
    requires j + |sub| <= |s| && s[j..j + |sub|] == sub
    ensures Contains(s, sub)
    decreases j
  {
    if j > 0 {
      assert s[1..][j - 1..j - 1 + |sub|] == sub;
      ContainsAt(s[1..], sub, j - 1);
    }
  }

  lemma ContainsPrefix(s: string, sub: string, n: nat)
    requires n <= |s| && Contains(s[..n], sub)
    ensures Contains(s, sub)
  {
    IndexOfContains(s[..n], sub);
    var j := IndexOf(s[..n], sub).value;
    assert s[j..j + |sub|] == s[..n][j..j + |sub|];
    ContainsAt(s, sub, j);
  }

  /** Python `s.split(sep)` for a non-empty separator. */
  function Split(s: string, sep: string): (parts: seq<string>)
    requires |sep| > 0
    ensures |parts| >= 1
    decreases |s|
  {
    match IndexOf(s, sep)
    case None => [s]
    case Some(i) => [s[..i]] + Split(s[i + |sep|..], sep)
  }

  /** Python `sep.join(parts)`. */
  function Join(parts: seq<string>, sep: string): string {
    if |parts| == 0 then ""
    else if |parts| == 1 then parts[0]
    else parts[0] + sep + Join(parts[1..], sep)
  }

  /** One step of `split`: the piece before the first separator, then the
      pieces of what follows it. */
  lemma SplitAt(s: string, sep: string, i: nat)
    requires |sep| > 0 && IndexOf(s, sep) == Some(i) && i + |sep| <= |s|
    ensures Split(s, sep) == [s[..i]] + Split(s[i + |sep|..], sep)
  {
  }

  lemma JoinCons(p: string, tail: seq<string>, sep: string)
    requires |tail| >= 1
    ensures Join([p] + tail, sep) == p + sep + Join(tail, sep)
  {
    assert ([p] + tail)[1..] == tail;
  }

  /** A text containing the separator splits into at least two pieces. */
  lemma SplitContains(s: string, sep: string)
    requires |sep| > 0 && Contains(s, sep)
    ensures |Split(s, sep)| >= 2
  {
    IndexOfContains(s, sep);
    var i := IndexOf(s, sep).value;
    SplitAt(s, sep, i);
  }

  /** Cutting `a + [c] + b` at the character `c`, absent from both sides,
      gives back the two sides. */
  lemma SplitOnceChar(a: string, c: char, b: string)
    requires c !in a && c !in b
    ensures Split(a + [c] + b, [c]) == [a, b]
  {
    SplitAtFirst(a, c, b);
    NoSeparatorChar(b, [c]);
  }

  /** Joining the pieces of a split with the same separator gives the text back. */
  lemma {:induction false} JoinSplit(s: string, sep: string)
    requires |sep| > 0
    ensures Join(Split(s, sep), sep) == s
    decreases |s|
  {
    match IndexOf(s, sep)
    case None =>
      SplitNone(s, sep);
    case Some(i) =>
      JoinSplit(s[i + |sep|..], sep);
      JoinSplitStep(s, sep, i);
  }

  lemma SplitNone(s: string, sep: string)
    requires |sep| > 0 && IndexOf(s, sep).None?
    ensures Split(s, sep) == [s]
  {
  }

  lemma JoinSplitStep(s: string, sep: string, i: nat)
    requires |sep| > 0 && IndexOf(s, sep) == Some(i) && i + |sep| <= |s|
    requires Join(Split(s[i + |sep|..], sep), sep) == s[i + |sep|..]
    ensures Join(Split(s, sep), sep) == s
  {
    var rest := s[i + |sep|..];
    SplitAt(s, sep, i);
    JoinCons(s[..i], Split(rest, sep), sep);
    Around(s, i, sep);
  }

  /** A text is what comes before an occurrence, the occurrence and what follows. */
  lemma Around(s: string, i: nat, sub: string)
    requires i + |sub| <= |s| && s[i..i + |sub|] == sub
    ensures s == s[..i] + sub + s[i + |sub|..]
  {
    assert s == s[..i] + s[i..i + |sub|] + s[i + |sub|..];
  }

  /** A text whose first `i` positions start no occurrence of `sep` has no
      occurrence inside its first `i` characters. */
  lemma {:induction false} NoEarlierOccurrence(s: string, sep: string, i: nat)
    requires |sep| > 0 && i <= |s|
    requires forall j :: 0 <= j < i ==> !StartsWith(s[j..], sep)
    ensures !Contains(s[..i], sep)
    decreases i
  {
    if i > 0 {
      assert s[0..] == s;
      if |sep| <= i {
        assert s[..i][..|sep|] == s[..|sep|];
      }
      forall j | 0 <= j < i - 1
        ensures !StartsWith(s[1..][j..], sep)
      {
        assert s[1..][j..] == s[j + 1..];
      }
      NoEarlierOccurrence(s[1..], sep, i - 1);
      assert s[..i][1..] == s[1..][..i - 1];
    }
  }

  /** No piece of a split contains the separator. */
  lemma {:induction false} SplitPiecesFree(s: string, sep: string)
    requires |sep| > 0
    ensures forall p :: p in Split(s, sep) ==> !Contains(p, sep)
    decreases |s|
  {
    IndexOfContains(s, sep);
    match IndexOf(s, sep)
    case None =>
    case Some(i) =>
      var rest := s[i + |sep|..];
      SplitPiecesFree(rest, sep);
      IndexOfFirst(s, sep);
      NoEarlierOccurrence(s, sep, i);
      SplitAt(s, sep, i);
  }

  /** A string without the separator's character splits into itself. */
  lemma {:induction false} NoSeparatorChar(t: string, sep: string)
    requires |sep| == 1 && forall i :: 0 <= i < |t| ==> t[i] != sep[0]
    ensures !Contains(t, sep)
    ensures IndexOf(t, sep) == None
    ensures Split(t, sep) == [t]
    decreases |t|
  {
    if t != [] {
      assert t[..1][0] == t[0];
      NoSeparatorChar(t[1..], sep);
    }
  }

  /** A string that neither starts nor ends with white space strips to itself. */
  lemma StripKeeps(a: string)
    requires a != [] && !IsSpace(a[0]) && !IsSpace(a[|a| - 1])
    ensures Strip(a) == a
  {
    assert StripLeft(a) == a;
  }

  /** `[t.strip() for t in s.split(sep) if t.strip()]`. */
  function StripAll(parts: seq<string>): (r: seq<string>)
    ensures forall t :: t in r ==> t != [] && Strip(t) == t
  {
    if parts == [] then []
    else
      var t := Strip(parts[0]);
      var rest := StripAll(parts[1..]);
      StripIdempotent(parts[0]);
      if t == [] then rest else [t] + rest
  }

  function Tokens(s: string, sep: string): (r: seq<string>)
    requires |sep| > 0
    ensures forall t :: t in r ==> t != [] && Strip(t) == t
  {
    StripAll(Split(s, sep))
  }

  /** Every character of a piece of a split occurs in the text. */
  lemma {:induction false} SplitPieceWithin(s: string, sep: string, p: string, c: char)
    requires |sep| > 0 && p in Split(s, sep) && c in p
    ensures c in s
    decreases |s|
  {
    match IndexOf(s, sep)
    case None =>
    case Some(i) =>
      var rest := s[i + |sep|..];
      if p == s[..i] {
        var k :| 0 <= k < |p| && p[k] == c;
        assert s[k] == c;
      } else {
        assert p in Split(rest, sep);
        SplitPieceWithin(rest, sep, p, c);
        var k :| 0 <= k < |rest| && rest[k] == c;
        assert s[i + |sep| + k] == c;
      }
  }

  /** Stripping keeps a slice, so it adds no character. */
  lemma StripWithin(p: string, c: char)
    requires c in Strip(p)
    ensures c in p
  {
    var l := StripLeft(p);
    var r := StripRight(l);
    assert r == l[..|r|] && l == p[|p| - |l|..];
    var k :| 0 <= k < |r| && r[k] == c;
    assert l[k] == c;
    assert p[|p| - |l| + k] == c;
  }

  /** Each stripped token comes from one of the pieces. */
  lemma {:induction false} StripAllFrom(parts: seq<string>, tok: string)
    requires tok in StripAll(parts)
    ensures exists p :: p in parts && tok == Strip(p)
  {
    var t := Strip(parts[0]);
    if tok == t && t != [] {
      assert parts[0] in parts;
    } else {
      StripAllFrom(parts[1..], tok);
      var p :| p in parts[1..] && tok == Strip(p);
      assert p in parts;
    }
  }

  /** A text without the one-character substring `[c]` has no `c`. */
  lemma SeparatorFree(p: string, c: char)
    requires !Contains(p, [c])
    ensures c !in p
  {
    CharContains(p, c);
  }

  lemma CharContains(p: string, c: char)
    ensures c in p ==> Contains(p, [c])
  {
    if c in p {
      var k :| 0 <= k < |p| && p[k] == c;
      ContainsAt(p, [c], k);
    }
  }

  /** No token holds the one-character separator it was split on. */
  lemma TokensFree(s: string, c: char)
    ensures forall tok :: tok in Tokens(s, [c]) ==> c !in tok
  {
    SplitPiecesFree(s, [c]);
    forall tok | tok in Tokens(s, [c]) ensures c !in tok {
      StripAllFrom(Split(s, [c]), tok);
      var p :| p in Split(s, [c]) && tok == Strip(p);
      SeparatorFree(p, c);
      if c in tok { StripWithin(p, c); }
    }
  }

  /** Cutting `a + [c] + b` at its first `c`, when `a` has none, leaves
      `a` and the pieces of `b`. */
  lemma SplitAtFirst(a: string, c: char, b: string)
    requires c !in a
    ensures Split(a + [c] + b, [c]) == [a] + Split(b, [c])
  {
    var s := a + [c] + b;
    assert s[|a|..|a| + 1] == [c];
    ContainsAt(s, [c], |a|);
    IndexOfContains(s, [c]);
    IndexOfFirst(s, [c]);
    var v := IndexOf(s, [c]).value;
    assert s[v] == c;
    assert StartsWith(s[|a|..], [c]);
    assert v == |a|;
    assert s[..v] == a && s[v + 1..] == b;
  }

  /** The pieces after the first of a `"; "`-joined list split on `;`. */
  function Spaced(xs: seq<string>): seq<string> {
    if xs == [] then [] else [" " + xs[0]] + Spaced(xs[1..])
  }

  lemma {:induction false} SplitJoined(p: string, xs: seq<string>, c: char)
    requires |xs| >= 1 && c != ' '
    requires c !in p && forall x :: x in xs ==> c !in x
    ensures Split(p + Join(xs, [c, ' ']), [c]) == [p + xs[0]] + Spaced(xs[1..])
    decreases |xs|
  {
    if |xs| == 1 {
      assert c !in p + xs[0];
      NoSeparatorChar(p + xs[0], [c]);
    } else {
      var rest := xs[1..];
      assert forall x :: x in rest ==> x in xs;
      assert p + Join(xs, [c, ' ']) == (p + xs[0]) + [c] + (" " + Join(rest, [c, ' ']));
      assert xs[0] in xs;
      SplitAtFirst(p + xs[0], c, " " + Join(rest, [c, ' ']));
      SplitJoined(" ", rest, c);
      assert [" " + rest[0]] + Spaced(rest[1..]) == Spaced(rest);
    }
  }

  /** A trimmed non-empty text keeps its strip after a leading space. */
  lemma StripSpaced(x: string)
    requires x != [] && Strip(x) == x
    ensures Strip(" " + x) == x
  {
    assert !IsSpace(x[0]) && !IsSpace(x[|x| - 1]);
    assert (" " + x)[1..] == x;
    assert StripLeft(" " + x) == StripLeft(x);
    StripKeeps(x);
    assert StripLeft(x) == x;
  }

  lemma {:induction false} StripAllSpaced(xs: seq<string>)
    requires forall x :: x in xs ==> x != [] && Strip(x) == x
    ensures StripAll(Spaced(xs)) == xs
  {
    if xs != [] {
      assert xs[0] in xs;
      StripSpaced(xs[0]);
      forall x | x in xs[1..] ensures x != [] && Strip(x) == x {
        assert x in xs;
      }
      StripAllSpaced(xs[1..]);
      StripAllCons(" " + xs[0], Spaced(xs[1..]));
      assert xs == [xs[0]] + xs[1..];
    }
  }

  lemma StripAllCons(p: string, rest: seq<string>)
    requires Strip(p) != []
    ensures StripAll([p] + rest) == [Strip(p)] + StripAll(rest)
  {
    assert ([p] + rest)[1..] == rest;
  }

  /** Joining with `c` and a space, then splitting on `c` and trimming,
      gives the list back when every element is trimmed, non-empty and
      free of `c`. */
  lemma TokensJoinSep(xs: seq<string>, c: char)
    requires c != ' '
    requires forall x :: x in xs ==> x != [] && Strip(x) == x && c !in x
    ensures Tokens(Join(xs, [c, ' ']), [c]) == xs
  {
    if xs == [] {
      NoSeparatorChar("", [c]);
      assert Strip("") == "";
      assert StripAll([""]) == [];
    } else {
      TokensJoinNonEmpty(xs, c);
    }
  }

  lemma TokensJoinNonEmpty(xs: seq<string>, c: char)
    requires c != ' ' && xs != []
    requires forall x :: x in xs ==> x != [] && Strip(x) == x && c !in x
    ensures Tokens(Join(xs, [c, ' ']), [c]) == xs
  {
    var pieces := Split(Join(xs, [c, ' ']), [c]);
    SplitJoined("", xs, c);
    assert pieces == [xs[0]] + Spaced(xs[1..]) by {
      assert "" + Join(xs, [c, ' ']) == Join(xs, [c, ' ']);
      assert "" + xs[0] == xs[0];
    }
    assert xs[0] in xs;
    StripAllSpaced(xs[1..]);
    assert StripAll(pieces) == [xs[0]] + StripAll(Spaced(xs[1..])) by {
      assert pieces[1..] == Spaced(xs[1..]);
    }
  }

  /** `'; '.join(xs)` re-splits on `;` into `xs`. */
  lemma TokensJoin(xs: seq<string>)
    requires forall x :: x in xs ==> x != [] && Strip(x) == x && ';' !in x
    ensures Tokens(Join(xs, "; "), ";") == xs
  {
    TokensJoinSep(xs, ';');
  }

  predicate Distinct<T(==)>(s: seq<T>) {
    forall i, j :: 0 <= i < j < |s| ==> s[i] != s[j]
  }

  /** `list(dict.fromkeys(acc + xs))` for a duplicate-free `acc`: walk `xs`
      and append each element not already present. */
  function DedupFrom<T(==)>(xs: seq<T>, acc: seq<T>): seq<T>
    decreases |xs|
  {
    if xs == [] then acc
    else if xs[0] in acc then DedupFrom(xs[1..], acc)
    else DedupFrom(xs[1..], acc + [xs[0]])
  }

  function Dedup<T(==)>(xs: seq<T>): seq<T> {
    DedupFrom(xs, [])
  }

  lemma {:induction false} DedupFromSpec<T>(xs: seq<T>, acc: seq<T>)
    requires Distinct(acc)
    ensures Distinct(DedupFrom(xs, acc))
    ensures forall x :: x in DedupFrom(xs, acc) <==> x in acc || x in xs
    ensures |acc| <= |DedupFrom(xs, acc)| && DedupFrom(xs, acc)[..|acc|] == acc
    decreases |xs|
  {
    if xs != [] {
      if xs[0] in acc {
        DedupFromSpec(xs[1..], acc);
        assert xs == [xs[0]] + xs[1..];
      } else {
        DedupFromSpec(xs[1..], acc + [xs[0]]);
        assert xs == [xs[0]] + xs[1..];
        assert (acc + [xs[0]])[..|acc|] == acc;
      }
    }
  }

  /** `list(dict.fromkeys(xs))` keeps every element once and nothing else. */
  lemma DedupSpec<T>(xs: seq<T>)
    ensures Distinct(Dedup(xs))
    ensures forall x :: x in Dedup(xs) <==> x in xs
  {
    DedupFromSpec(xs, []);
  }

  lemma {:induction false} DedupFromLength<T>(xs: seq<T>, acc: seq<T>)
    ensures |DedupFrom(xs, acc)| <= |acc| + |xs|
    decreases |xs|
  {
    if xs != [] {
      DedupFromLength(xs[1..], acc);
      DedupFromLength(xs[1..], acc + [xs[0]]);
    }
  }

  /** Python's `<` on `str`: lexicographic by code point. */
  predicate LexLess(a: string, b: string) {
    if a == [] then b != []
    else if b == [] then false
    else if a[0] != b[0] then a[0] < b[0]
    else LexLess(a[1..], b[1..])
  }

  predicate LexLe(a: string, b: string) {
    a == b || LexLess(a, b)
  }

  lemma {:induction false} LexLessIrreflexive(a: string)
    ensures !LexLess(a, a)
  {
    if a != [] { LexLessIrreflexive(a[1..]); }
  }

  lemma {:induction false} LexLessTransitive(a: string, b: string, c: string)
    requires LexLess(a, b) && LexLess(b, c)
    ensures LexLess(a, c)
  {
    if a != [] && b != [] && c != [] && a[0] == b[0] && b[0] == c[0] {
      LexLessTransitive(a[1..], b[1..], c[1..]);
    }
  }

  lemma {:induction false} LexLessTotal(a: string, b: string)
    ensures a == b || LexLess(a, b) || LexLess(b, a)
  {
    if a != [] && b != [] && a[0] == b[0] {
      LexLessTotal(a[1..], b[1..]);
      if a[1..] == b[1..] {
        assert a == [a[0]] + a[1..] && b == [b[0]] + b[1..];
      }
    }
  }

  lemma {:induction false} LexLessAsymmetric(a: string, b: string)
    requires LexLess(a, b)
    ensures !LexLess(b, a)
  {
    if a != [] && b != [] && a[0] == b[0] {
      LexLessAsymmetric(a[1..], b[1..]);
    }
  }

  predicate Sorted(s: seq<string>) {
    forall i, j :: 0 <= i < j < |s| ==> LexLe(s[i], s[j])
  }

  function Insert(x: string, s: seq<string>): seq<string> {
    if s == [] then [x]
    else if LexLe(x, s[0]) then [x] + s
    else [s[0]] + Insert(x, s[1..])
  }

  /** Inserting adds exactly the one element. */
  lemma {:induction false} InsertPermutes(x: string, s: seq<string>)
    ensures multiset(Insert(x, s)) == multiset(s) + multiset{x}
  {
    if s != [] && !LexLe(x, s[0]) {
      InsertPermutes(x, s[1..]);
      assert s == [s[0]] + s[1..];
    }
  }

  /** Inserting into a sorted list keeps it sorted. */
  lemma {:induction false} InsertSorted(x: string, s: seq<string>)
    requires Sorted(s)
    ensures Sorted(Insert(x, s))
  {
    if s == [] {
    } else if LexLe(x, s[0]) {
      forall j | 0 < j < |s| ensures LexLe(x, s[j]) {
        if x != s[0] && s[0] != s[j] { LexLessTransitive(x, s[0], s[j]); }
      }
    } else {
      InsertSorted(x, s[1..]);
      InsertPermutes(x, s[1..]);
      LexLessTotal(x, s[0]);
      var r := Insert(x, s[1..]);
      forall k | 0 <= k < |r| ensures LexLe(s[0], r[k]) {
        assert r[k] in multiset(r);
        if r[k] != x {
          assert r[k] in multiset(s[1..]);
          assert r[k] in s[1..];
          var m :| 0 <= m < |s[1..]| && s[1..][m] == r[k];
          assert s[m + 1] == r[k];
        }
      }
    }
  }

  /** Python `sorted(xs)` for strings. */
  function Sort(s: seq<string>): seq<string> {
    if s == [] then [] else Insert(s[0], Sort(s[1..]))
  }

  lemma {:induction false} SortSpec(s: seq<string>)
    ensures Sorted(Sort(s))
    ensures multiset(Sort(s)) == multiset(s)
  {
    if s != [] {
      SortSpec(s[1..]);
      InsertSorted(s[0], Sort(s[1..]));
      InsertPermutes(s[0], Sort(s[1..]));
      assert s == [s[0]] + s[1..];
    }
  }

  /** `sorted(set(xs))`: each element once, in increasing order. */
  function SortedUnique(xs: seq<string>): seq<string> {
    Sort(Dedup(xs))
  }

  lemma SortedUniqueSpec(xs: seq<string>)
    ensures Sorted(SortedUnique(xs)) && Distinct(SortedUnique(xs))
    ensures forall x :: x in SortedUnique(xs) <==> x in xs
  {
    DedupSpec(xs);
    var d := Dedup(xs);
    SortSpec(d);
    var r := Sort(d);
    forall x ensures x in r <==> x in xs {
      SameMembers(r, d, x);
    }
    forall i, j | 0 <= i < j < |r| ensures r[i] != r[j] {
      if r[i] == r[j] {
        RepeatedCount(r, i, j);
        DistinctCount(d, r[i]);
        assert false;
      }
    }
  }

  lemma SameMembers<T>(a: seq<T>, b: seq<T>, x: T)
    requires multiset(a) == multiset(b)
    ensures x in a <==> x in b
  {
    assert x in a <==> x in multiset(a);
    assert x in b <==> x in multiset(b);
  }

  /** An element at two positions occurs at least twice. */
  lemma RepeatedCount<T>(r: seq<T>, i: nat, j: nat)
    requires i < j < |r| && r[i] == r[j]
    ensures multiset(r)[r[i]] >= 2
  {
    assert r == r[..i] + [r[i]] + r[i + 1..j] + [r[j]] + r[j + 1..];
  }

  /** Sorting keeps the length, so `sorted(set(xs))` has one entry per distinct element. */
  lemma SortedUniqueLength(xs: seq<string>)
    ensures |SortedUnique(xs)| == |Dedup(xs)|
  {
    SortSpec(Dedup(xs));
    assert |multiset(Sort(Dedup(xs)))| == |multiset(Dedup(xs))|;
  }

  lemma {:induction false} DistinctCount(s: seq<string>, x: string)
    requires Distinct(s)
    ensures multiset(s)[x] <= 1
  {
    if s != [] {
      DistinctCount(s[1..], x);
      assert s == [s[0]] + s[1..];
      if s[0] == x {
        assert x !in s[1..];
      }
    }
  }

  /** Decimal digits of a natural number, as Python's `str(n)`. */
  function NatToString(n: nat): (r: string)
    ensures |r| >= 1 && forall i :: 0 <= i < |r| ==> '0' <= r[i] <= '9'
    decreases n
  {
    var d := [('0' as int + n % 10) as char];
    if n < 10 then d else NatToString(n / 10) + d
  }
}
