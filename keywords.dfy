/** The keyword-matching engine shared by the substance categorisers:
    keyword tables, accent folding, first-match and longest-match search,
    and the compound-specific distance overrides. */
module Keywords {
  import opened Wrappers
  import opened Text

  /** One entry of a keyword table: the category, its distance in metres
      and its keywords, in the order the table lists them. */
  datatype Category = Category(name: string, distance: real, keywords: seq<string>)

  /** What a categoriser returns: a category and, where the categoriser gives
      one, a distance. */
  datatype Verdict = Verdict(category: string, distance: Option<real>)

  /** `DEFAULT_DISTANCE` of the Step 5 categorisers. */
  const DefaultDistance: real := 500.0

  function Names(t: seq<Category>): (ns: seq<string>)
    ensures |ns| == |t| && forall i :: 0 <= i < |t| ==> ns[i] == t[i].name
  {
    seq(|t|, i requires 0 <= i < |t| => t[i].name)
  }

  // ---------------------------------------------------------------------
  // Accent folding: `unicodedata.normalize('NFKD', s).encode('ascii',
  // 'ignore').decode('ascii').lower()`
  // ---------------------------------------------------------------------

  predicate Ascii(c: char) {
    c < '\U{0080}'
  }

  /** The ASCII characters of the compatibility decomposition of `c`. Every
      Latin-1 character is listed (letters keep their base letter, spacing
      accents become a space, superscripts and fractions their digits);
      above Latin-1 only the spacing tilde U+02DC is, and every other
      character counts as having no ASCII part. */
  function FoldChar(c: char): (r: string)
    ensures forall i :: 0 <= i < |r| ==> Ascii(r[i])
  {
    if Ascii(c) then [c]
    else if c == '\U{00A0}' || c == '\U{00A8}' || c == '\U{00AF}' || c == '\U{00B4}' || c == '\U{00B8}' || c == '\U{02DC}' then " "
    else if c == '\U{00AA}' then "a"
    else if c == '\U{00BA}' then "o"
    else if c == '\U{00B9}' then "1"
    else if c == '\U{00B2}' then "2"
    else if c == '\U{00B3}' then "3"
    else if c == '\U{00BC}' then "14"
    else if c == '\U{00BD}' then "12"
    else if c == '\U{00BE}' then "34"
    else if '\U{00C0}' <= c <= '\U{00C5}' then "A"
    else if c == '\U{00C7}' then "C"
    else if '\U{00C8}' <= c <= '\U{00CB}' then "E"
    else if '\U{00CC}' <= c <= '\U{00CF}' then "I"
    else if c == '\U{00D1}' then "N"
    else if '\U{00D2}' <= c <= '\U{00D6}' then "O"
    else if '\U{00D9}' <= c <= '\U{00DC}' then "U"
    else if c == '\U{00DD}' then "Y"
    else if '\U{00E0}' <= c <= '\U{00E5}' then "a"
    else if c == '\U{00E7}' then "c"
    else if '\U{00E8}' <= c <= '\U{00EB}' then "e"
    else if '\U{00EC}' <= c <= '\U{00EF}' then "i"
    else if c == '\U{00F1}' then "n"
    else if '\U{00F2}' <= c <= '\U{00F6}' then "o"
    else if '\U{00F9}' <= c <= '\U{00FC}' then "u"
    else if c == '\U{00FD}' || c == '\U{00FF}' then "y"
    else ""
  }

  function Fold(s: string): (r: string)
    ensures forall i :: 0 <= i < |r| ==> Ascii(r[i])
  {
    if s == [] then [] else FoldChar(s[0]) + Fold(s[1..])
  }

  /** `_normalize` of `compound_categories.py` and `compound_matching.py`. */
  function Normalize(s: string): string {
    Lower(Fold(s))
  }

  predicate AsciiLower(s: string) {
    forall i :: 0 <= i < |s| ==> Ascii(s[i]) && !('A' <= s[i] <= 'Z')
  }

  lemma {:induction false} FoldAscii(s: string)
    requires forall i :: 0 <= i < |s| ==> Ascii(s[i])
    ensures Fold(s) == s
  {
    if s != [] {
      FoldAscii(s[1..]);
      assert s == [s[0]] + s[1..];
    }
  }

  /** Folding leaves only ASCII without capitals, it is idempotent, and it
      is the identity on ASCII text without capitals (such as the override
      compounds 'benzen', 'cod' and 'cyanid'). */
  lemma NormalizeSpec(s: string)
    ensures AsciiLower(Normalize(s))
    ensures Normalize(Normalize(s)) == Normalize(s)
  {
    var f := Fold(s);
    FoldAscii(Lower(f));
  }

  lemma NormalizeKeeps(s: string)
    requires AsciiLower(s)
    ensures Normalize(s) == s
  {
    FoldAscii(s);
  }

  /** The table with every keyword folded. */
  function NormTable(t: seq<Category>): (r: seq<Category>)
    ensures |r| == |t|
    ensures forall i :: 0 <= i < |t| ==>
      (r[i].name == t[i].name && r[i].distance == t[i].distance && |r[i].keywords| == |t[i].keywords| &&
       forall k :: 0 <= k < |t[i].keywords| ==> r[i].keywords[k] == Normalize(t[i].keywords[k]))
  {
    seq(|t|, i requires 0 <= i < |t| =>
      Category(t[i].name, t[i].distance,
        seq(|t[i].keywords|, k requires 0 <= k < |t[i].keywords| => Normalize(t[i].keywords[k]))))
  }

  // ---------------------------------------------------------------------
  // First match: the first category, in table order, with a keyword that
  // is a substring of the text
  // ---------------------------------------------------------------------

  predicate AnyKeyword(keywords: seq<string>, text: string) {
    exists k :: 0 <= k < |keywords| && Contains(text, keywords[k])
  }

  /** The index of the first category with a matching keyword. */
  function FirstCategory(t: seq<Category>, text: string): (r: Option<nat>)
    ensures r.Some? ==> r.value < |t| && AnyKeyword(t[r.value].keywords, text)
    ensures r.Some? ==> forall j :: 0 <= j < r.value ==> !AnyKeyword(t[j].keywords, text)
    ensures r.None? <==> forall j :: 0 <= j < |t| ==> !AnyKeyword(t[j].keywords, text)
  {
    if t == [] then None
    else if AnyKeyword(t[0].keywords, text) then Some(0)
    else match FirstCategory(t[1..], text)
      case None =>
        assert forall j :: 1 <= j < |t| ==> t[j] == t[1..][j - 1];
        None
      case Some(k) =>
        assert forall j :: 1 <= j <= k ==> t[j] == t[1..][j - 1];
        Some(k + 1)
  }

  /** The search loop `for category in table: for keyword in keywords: if
      keyword in text: return category`. */
  method FindFirstCategory(t: seq<Category>, text: string) returns (r: Option<nat>)
    ensures r == FirstCategory(t, text)
  {
    var i := 0;
    while i < |t|
      invariant 0 <= i <= |t|
      invariant forall j :: 0 <= j < i ==> !AnyKeyword(t[j].keywords, text)
    {
      var k := 0;
      while k < |t[i].keywords|
        invariant 0 <= k <= |t[i].keywords|
        invariant forall q :: 0 <= q < k ==> !Contains(text, t[i].keywords[q])
      {
        if Contains(text, t[i].keywords[k]) {
          var f := FirstCategory(t, text);
          assert f.Some? && f.value <= i;
          return Some(i);
        }
        k := k + 1;
      }
      i := i + 1;
    }
    return None;
  }

  /** A first-match categoriser: the first matching category with its own
      distance, else `fallback` without a distance. */
  function FirstMatchVerdict(t: seq<Category>, text: string, fallback: string): (v: Verdict)
    ensures v.category != fallback ==> exists i :: 0 <= i < |t| && v == Verdict(t[i].name, Some(t[i].distance))
  {
    match FirstCategory(t, text)
    case Some(i) => Verdict(t[i].name, Some(t[i].distance))
    case None => Verdict(fallback, None)
  }

  /** The fallback exactly when no keyword matches (for a table that does
      not itself name the fallback); otherwise the first matching category. */
  lemma FirstMatchVerdictSpec(t: seq<Category>, text: string, fallback: string)
    requires forall i :: 0 <= i < |t| ==> t[i].name != fallback
    ensures FirstMatchVerdict(t, text, fallback) == Verdict(fallback, None) <==>
      forall j :: 0 <= j < |t| ==> !AnyKeyword(t[j].keywords, text)
    ensures forall i :: (0 <= i < |t| && AnyKeyword(t[i].keywords, text) &&
      (forall j :: 0 <= j < i ==> !AnyKeyword(t[j].keywords, text))) ==>
      FirstMatchVerdict(t, text, fallback) == Verdict(t[i].name, Some(t[i].distance))
  {
  }

  // ---------------------------------------------------------------------
  // Longest match: `matches.sort(reverse=True); matches[0]` over the
  // tuples (len(keyword), category, distance)
  // ---------------------------------------------------------------------

  datatype Match = Match(len: nat, category: string, distance: real)

  /** Python's `<` on `(len, category, distance)` tuples. */
  predicate TupleLess(a: Match, b: Match) {
    a.len < b.len ||
    (a.len == b.len && (LexLess(a.category, b.category) || (a.category == b.category && a.distance < b.distance)))
  }

  /** The matches one category contributes: its non-empty keywords that
      occur in the text, in keyword order. */
  function KeywordMatches(c: Category, kws: seq<string>, text: string): seq<Match>
    decreases |kws|
  {
    if kws == [] then []
    else
      var kw := kws[|kws| - 1];
      KeywordMatches(c, kws[..|kws| - 1], text) +
      (if kw != "" && Contains(text, kw) then [Match(|kw|, c.name, c.distance)] else [])
  }

  /** The `matches` list, in table order. */
  function MatchesOf(t: seq<Category>, text: string): seq<Match>
    decreases |t|
  {
    if t == [] then []
    else MatchesOf(t[..|t| - 1], text) + KeywordMatches(t[|t| - 1], t[|t| - 1].keywords, text)
  }

  predicate IsMatch(t: seq<Category>, text: string, m: Match) {
    exists i, k :: 0 <= i < |t| && 0 <= k < |t[i].keywords| &&
      t[i].keywords[k] != "" && Contains(text, t[i].keywords[k]) &&
      m == Match(|t[i].keywords[k]|, t[i].name, t[i].distance)
  }

  lemma {:induction false} KeywordMatchesSpec(c: Category, kws: seq<string>, text: string, m: Match)
    ensures m in KeywordMatches(c, kws, text) <==>
      exists k :: 0 <= k < |kws| && kws[k] != "" && Contains(text, kws[k]) && m == Match(|kws[k]|, c.name, c.distance)
    decreases |kws|
  {
    if kws != [] {
      var init := kws[..|kws| - 1];
      KeywordMatchesSpec(c, init, text, m);
      assert forall k :: 0 <= k < |init| ==> init[k] == kws[k];
    }
  }

  /** A tuple is in `matches` exactly when it comes from a non-empty
      keyword of some category that occurs in the text. */
  lemma {:induction false} MatchesOfSpec(t: seq<Category>, text: string, m: Match)
    ensures m in MatchesOf(t, text) <==> IsMatch(t, text, m)
    decreases |t|
  {
    if t != [] {
      var init := t[..|t| - 1];
      var last := t[|t| - 1];
      MatchesOfSpec(init, text, m);
      KeywordMatchesSpec(last, last.keywords, text, m);
      assert forall i :: 0 <= i < |init| ==> init[i] == t[i];
      if IsMatch(t, text, m) {
        var i, k :| 0 <= i < |t| && 0 <= k < |t[i].keywords| &&
          t[i].keywords[k] != "" && Contains(text, t[i].keywords[k]) &&
          m == Match(|t[i].keywords[k]|, t[i].name, t[i].distance);
        if i < |init| {
          assert IsMatch(init, text, m);
        }
      }
    }
  }

  /** The loops that fill `matches`. */
  method CollectMatches(t: seq<Category>, text: string) returns (ms: seq<Match>)
    ensures ms == MatchesOf(t, text)
  {
    ms := [];
    var i := 0;
    while i < |t|
      invariant 0 <= i <= |t|
      invariant ms == MatchesOf(t[..i], text)
    {
      assert t[..i + 1][..i] == t[..i];
      var kws := t[i].keywords;
      var k := 0;
      while k < |kws|
        invariant 0 <= k <= |kws|
        invariant ms == MatchesOf(t[..i], text) + KeywordMatches(t[i], kws[..k], text)
      {
        assert kws[..k + 1][..k] == kws[..k];
        if kws[k] != "" && Contains(text, kws[k]) {
          ms := ms + [Match(|kws[k]|, t[i].name, t[i].distance)];
        }
        k := k + 1;
      }
      assert kws[..|kws|] == kws;
      i := i + 1;
    }
    assert t[..|t|] == t;
  }

  /** The first element after a descending sort: a greatest tuple. */
  function Best(ms: seq<Match>): (b: Match)
    requires ms != []
    ensures b in ms
  {
    if |ms| == 1 then ms[0]
    else
      var rest := Best(ms[1..]);
      if TupleLess(ms[0], rest) then rest else ms[0]
  }

  /** Not-less is transitive on the tuples: they are totally ordered. */
  lemma NotLessTransitive(a: Match, b: Match, c: Match)
    requires !TupleLess(a, b) && !TupleLess(b, c)
    ensures !TupleLess(a, c)
  {
    if a.len == b.len && b.len == c.len {
      LexLessTotal(a.category, b.category);
      LexLessTotal(b.category, c.category);
      LexLessIrreflexive(a.category);
      if LexLess(b.category, a.category) && LexLess(c.category, b.category) {
        LexLessTransitive(c.category, b.category, a.category);
        LexLessAsymmetric(c.category, a.category);
      } else if LexLess(b.category, a.category) {
        LexLessAsymmetric(b.category, a.category);
      } else if LexLess(c.category, b.category) {
        LexLessAsymmetric(c.category, b.category);
      }
    }
  }

  lemma TupleLessAsymmetric(a: Match, b: Match)
    requires TupleLess(a, b)
    ensures !TupleLess(b, a)
  {
    if a.len == b.len && LexLess(a.category, b.category) {
      LexLessAsymmetric(a.category, b.category);
    }
    if a.len == b.len && a.category == b.category {
      LexLessIrreflexive(a.category);
    }
  }

  /** Two tuples neither of which is less than the other are equal, so the
      greatest tuple does not depend on the sort's tie order. */
  lemma NotLessBothEqual(a: Match, b: Match)
    requires !TupleLess(a, b) && !TupleLess(b, a)
    ensures a == b
  {
    LexLessTotal(a.category, b.category);
  }

  /** No tuple of the list is greater than `Best`: it has a longest keyword
      and, among equally long ones, the greatest category name. */
  lemma {:induction false} BestIsGreatest(ms: seq<Match>)
    requires ms != []
    ensures forall m :: m in ms ==> !TupleLess(Best(ms), m)
    ensures forall m :: m in ms ==> m.len <= Best(ms).len
    ensures forall m :: m in ms && m.len == Best(ms).len ==> LexLe(m.category, Best(ms).category)
  {
    LexLessIrreflexive(Best(ms).category);
    if |ms| > 1 {
      var rest := Best(ms[1..]);
      BestIsGreatest(ms[1..]);
      assert ms == [ms[0]] + ms[1..];
      if !TupleLess(ms[0], rest) {
        forall m | m in ms[1..] ensures !TupleLess(ms[0], m) {
          NotLessTransitive(ms[0], rest, m);
        }
      } else {
        TupleLessAsymmetric(ms[0], rest);
      }
    }
    forall m | m in ms && m.len == Best(ms).len ensures LexLe(m.category, Best(ms).category) {
      LexLessTotal(m.category, Best(ms).category);
    }
  }

  // ---------------------------------------------------------------------
  // Compound-specific distance overrides
  // ---------------------------------------------------------------------

  /** `COMPOUND_SPECIFIC_DISTANCES`, in dictionary order. */
  const SpecificDistances: seq<(string, real)> := [("benzen", 200.0), ("cod", 500.0), ("cyanid", 100.0)]

  /** The 'benzen' override fires only for 'benzen' itself or 'benzen'
      followed by a space, hyphen, comma or semicolon. */
  predicate BenzenGuard(s: string) {
    s == "benzen" || StartsWith(s, "benzen ") || StartsWith(s, "benzen-") ||
    StartsWith(s, "benzen,") || StartsWith(s, "benzen;")
  }

  /** Whether an override compound fires: the guard for 'benzen', a
      substring test for every other compound. */
  predicate Fires(compound: string, s: string) {
    if compound == "benzen" then BenzenGuard(s) else Contains(s, compound)
  }

  /** The index of the first override compound that fires. */
  function FirstFiring(specifics: seq<(string, real)>, s: string): (r: Option<nat>)
    ensures r.Some? ==> r.value < |specifics| && Fires(specifics[r.value].0, s)
    ensures r.Some? ==> forall j :: 0 <= j < r.value ==> !Fires(specifics[j].0, s)
    ensures r.None? <==> forall j :: 0 <= j < |specifics| ==> !Fires(specifics[j].0, s)
  {
    if specifics == [] then None
    else if Fires(specifics[0].0, s) then Some(0)
    else match FirstFiring(specifics[1..], s)
      case None =>
        assert forall j :: 1 <= j < |specifics| ==> specifics[j] == specifics[1..][j - 1];
        None
      case Some(k) =>
        assert forall j :: 1 <= j <= k ==> specifics[j] == specifics[1..][j - 1];
        Some(k + 1)
  }

  /** The override loop: for each compound in order, when it fires and some
      category has a matching keyword, return the first such category with
      the compound's distance; when no category matches, go on to the next
      compound. */
  function Override(t: seq<Category>, specifics: seq<(string, real)>, s: string): Option<Verdict>
    decreases |specifics|
  {
    if specifics == [] then None
    else
      var hit := FirstCategory(t, s);
      if Fires(specifics[0].0, s) && hit.Some? then Some(Verdict(t[hit.value].name, Some(specifics[0].1)))
      else Override(t, specifics[1..], s)
  }

  /** An override applies exactly when some keyword matches and some
      compound fires; it keeps the first-match category and takes the
      distance of the first compound that fires. */
  lemma {:induction false} OverrideSpec(t: seq<Category>, specifics: seq<(string, real)>, s: string)
    ensures Override(t, specifics, s).Some? <==> FirstCategory(t, s).Some? && FirstFiring(specifics, s).Some?
    ensures Override(t, specifics, s).Some? ==>
      (FirstCategory(t, s).Some? && FirstFiring(specifics, s).Some? &&
       Override(t, specifics, s).value ==
         Verdict(t[FirstCategory(t, s).value].name, Some(specifics[FirstFiring(specifics, s).value].1)))
    decreases |specifics|
  {
    if specifics != [] && !(Fires(specifics[0].0, s) && FirstCategory(t, s).Some?) {
      OverrideSpec(t, specifics[1..], s);
    }
  }

  /** 'trichlorbenzen' does not pass the guard, while 'benzen' and
      'benzen, toluen' do. */
  lemma BenzenGuardExamples()
    ensures !BenzenGuard("trichlorbenzen")
    ensures BenzenGuard("benzen") && BenzenGuard("benzen, toluen")
  {
    var s := "trichlorbenzen";
    assert s[..6][0] == 't' && s[..7][0] == 't';
    assert "benzen, toluen"[..7] == "benzen,";
  }

  // ---------------------------------------------------------------------
  // Category lookup
  // ---------------------------------------------------------------------

  /** `table.get(name)`: the entry named `name`, or nothing. */
  function CategoryInfo(t: seq<Category>, name: string): (r: Option<Category>)
    ensures r.Some? ==> r.value in t && r.value.name == name
    ensures r.None? <==> forall i :: 0 <= i < |t| ==> t[i].name != name
  {
    if t == [] then None
    else if t[0].name == name then Some(t[0])
    else
      var r := CategoryInfo(t[1..], name);
      assert forall i :: 1 <= i < |t| ==> t[i] == t[1..][i - 1];
      r
  }

  /** `get_category_distance` / `get_default_distance`: a known category's
      distance, else the default. */
  function CategoryDistance(t: seq<Category>, name: string): (d: real)
    ensures (forall i :: 0 <= i < |t| ==> t[i].name != name) ==> d == DefaultDistance
    ensures (exists i :: 0 <= i < |t| && t[i].name == name) ==>
      exists i :: 0 <= i < |t| && t[i].name == name && d == t[i].distance
  {
    match CategoryInfo(t, name)
    case Some(c) => c.distance
    case None => DefaultDistance
  }
}
