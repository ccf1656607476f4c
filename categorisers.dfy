/** The substance categorisers. All of them search a keyword table for
    keywords that are substrings of the substance text; they differ in how
    the text is prepared, which match wins, how the compound-specific
    distance overrides apply, and what the fallback is:

    - `compound_categories.categorize_substance` (the one Step 5 uses):
      accent-folded text; guarded overrides that keep the first-match
      category; otherwise the longest keyword; fallback ('ANDRE', 500).
    - `compound_matching.categorize_substance`: accent-folded text; the
      longest keyword; then the first override compound found anywhere in
      the text replaces the distance, and 'cod' also the category.
    - `refined_compound_analysis.categorize_contamination_substance_refined`:
      lower-cased, stripped text; guarded overrides; otherwise the first
      match; fallback ('ANDRE', no distance).
    - `compound_categorization.categorize_contamination_substance` and its
      copy in `step5_compound_threshold_counts.py`: lower-cased, stripped
      text; the first match; fallback ('UNCATEGORIZED', no distance).

    A text that is not a string (NaN) is `None`. */
module Categorisers {
  import opened Wrappers
  import opened Text
  import opened Keywords

  const Andre: string := "ANDRE"
  const Uncategorized: string := "UNCATEGORIZED"

  /** `substance_text.lower().strip()`. */
  function Prepare(text: string): string {
    Strip(Lower(text))
  }

  /** `_normalize`, which maps a non-string to ''. */
  function Folded(text: Option<string>): string {
    Normalize(if text.Some? then text.value else "")
  }

  // ---------------------------------------------------------------------
  // compound_categories.categorize_substance
  // ---------------------------------------------------------------------

  /** The longest-match step with its ANDRE fallback, over a folded table. */
  function LongestMatch(nt: seq<Category>, n: string): Verdict {
    var ms := MatchesOf(nt, n);
    if ms == [] then Verdict(Andre, Some(DefaultDistance))
    else Verdict(Best(ms).category, Some(Best(ms).distance))
  }

  function Categorize(t: seq<Category>, text: Option<string>): Verdict {
    var n := Folded(text);
    if n == "" then Verdict(Andre, Some(DefaultDistance))
    else match Override(NormTable(t), SpecificDistances, n)
      case Some(o) => o
      case None => LongestMatch(NormTable(t), n)
  }

  /** The override loop with its early returns, then the `matches` loop
      and the pick of the greatest tuple. */
  method CategorizeSubstance(t: seq<Category>, text: Option<string>) returns (v: Verdict)
    ensures v == Categorize(t, text)
  {
    var n := Folded(text);
    if n == "" {
      return Verdict(Andre, Some(DefaultDistance));
    }
    var nt := NormTable(t);
    var j := 0;
    while j < |SpecificDistances|
      invariant 0 <= j <= |SpecificDistances|
      invariant Override(nt, SpecificDistances, n) == Override(nt, SpecificDistances[j..], n)
    {
      assert SpecificDistances[j..][1..] == SpecificDistances[j + 1..];
      var (compound, d) := SpecificDistances[j];
      if Fires(compound, n) {
        var hit := FindFirstCategory(nt, n);
        if hit.Some? {
          return Verdict(nt[hit.value].name, Some(d));
        }
      }
      j := j + 1;
    }
    var ms := CollectMatches(nt, n);
    if ms == [] {
      return Verdict(Andre, Some(DefaultDistance));
    }
    var b := Best(ms);
    return Verdict(b.category, Some(b.distance));
  }

  /** Always a distance; the category is a table category or ANDRE; empty
      folded text gives ('ANDRE', 500); when a keyword matches and an
      override compound fires, the first matching category with the first
      firing compound's distance. */
  lemma CategorizeSpec(t: seq<Category>, text: Option<string>)
    ensures Categorize(t, text).distance.Some?
    ensures Categorize(t, text).category == Andre || Categorize(t, text).category in Names(t)
    ensures Folded(text) == "" ==> Categorize(t, text) == Verdict(Andre, Some(DefaultDistance))
    ensures var n := Folded(text); var nt := NormTable(t);
      n != "" && FirstCategory(nt, n).Some? && FirstFiring(SpecificDistances, n).Some? ==>
        Categorize(t, text) ==
          Verdict(t[FirstCategory(nt, n).value].name, Some(SpecificDistances[FirstFiring(SpecificDistances, n).value].1))
  {
    var n := Folded(text);
    var nt := NormTable(t);
    if n != "" {
      OverrideSpec(nt, SpecificDistances, n);
      var ms := MatchesOf(nt, n);
      if Override(nt, SpecificDistances, n).None? && ms != [] {
        MatchesOfSpec(nt, n, Best(ms));
      }
    }
  }

  /** Without an override, the verdict is the greatest (length, category,
      distance) tuple among the matching non-empty keywords: the longest
      keyword decides, and an equally long keyword of a greater category
      name beats it. */
  lemma CategorizeLongest(t: seq<Category>, text: Option<string>)
    requires Folded(text) != ""
    requires FirstCategory(NormTable(t), Folded(text)).None? || FirstFiring(SpecificDistances, Folded(text)).None?
    requires MatchesOf(NormTable(t), Folded(text)) != []
    ensures exists m ::
      (IsMatch(NormTable(t), Folded(text), m) &&
       Categorize(t, text) == Verdict(m.category, Some(m.distance)) &&
       forall m' :: IsMatch(NormTable(t), Folded(text), m') ==> !TupleLess(m, m') && m'.len <= m.len)
  {
    var n := Folded(text);
    var nt := NormTable(t);
    OverrideSpec(nt, SpecificDistances, n);
    var ms := MatchesOf(nt, n);
    var b := Best(ms);
    BestIsGreatest(ms);
    MatchesOfSpec(nt, n, b);
    forall m' | IsMatch(nt, n, m') ensures !TupleLess(b, m') && m'.len <= b.len {
      MatchesOfSpec(nt, n, m');
    }
  }

  /** No folded keyword in the folded text gives ('ANDRE', 500). */
  lemma CategorizeNoMatch(t: seq<Category>, text: Option<string>)
    requires forall i, k :: 0 <= i < |t| && 0 <= k < |t[i].keywords| ==>
      !Contains(Folded(text), Normalize(t[i].keywords[k]))
    ensures Categorize(t, text) == Verdict(Andre, Some(DefaultDistance))
  {
    var n := Folded(text);
    var nt := NormTable(t);
    if n != "" {
      assert FirstCategory(nt, n).None?;
      OverrideSpec(nt, SpecificDistances, n);
      var ms := MatchesOf(nt, n);
      assert ms == [] by {
        if ms != [] {
          var m := ms[0];
          MatchesOfSpec(nt, n, m);
          assert false;
        }
      }
    }
  }

  // ---------------------------------------------------------------------
  // compound_matching.categorize_substance
  // ---------------------------------------------------------------------

  /** `SPECIFIC_CATEGORY_HINTS`. */
  const SpecificCategoryHints: map<string, string> := map["cod" := "LOSSEPLADS"]

  /** A `_SPECIFIC_DISTANCE_INDEX` entry that applies: its folded compound
      is non-empty and occurs in the text (with no prefix guard). */
  predicate SpecificHit(compound: string, n: string) {
    Normalize(compound) != "" && Contains(n, Normalize(compound))
  }

  function FirstSpecific(specifics: seq<(string, real)>, n: string): (r: Option<nat>)
    ensures r.Some? ==> r.value < |specifics| && SpecificHit(specifics[r.value].0, n)
    ensures r.Some? ==> forall j :: 0 <= j < r.value ==> !SpecificHit(specifics[j].0, n)
    ensures r.None? <==> forall j :: 0 <= j < |specifics| ==> !SpecificHit(specifics[j].0, n)
  {
    if specifics == [] then None
    else if SpecificHit(specifics[0].0, n) then Some(0)
    else match FirstSpecific(specifics[1..], n)
      case None =>
        assert forall j :: 1 <= j < |specifics| ==> specifics[j] == specifics[1..][j - 1];
        None
      case Some(k) =>
        assert forall j :: 1 <= j <= k ==> specifics[j] == specifics[1..][j - 1];
        Some(k + 1)
  }

  function MatchingCategorize(t: seq<Category>, text: Option<string>): Verdict {
    var n := Folded(text);
    if n == "" then Verdict(Andre, Some(DefaultDistance))
    else
      var base := LongestMatch(NormTable(t), n);
      match FirstSpecific(SpecificDistances, n)
      case None => base
      case Some(j) =>
        var kw := Normalize(SpecificDistances[j].0);
        Verdict(if kw in SpecificCategoryHints then SpecificCategoryHints[kw] else base.category,
                Some(SpecificDistances[j].1))
  }

  /** The longest-match comprehension, then the override loop that
      reassigns category and distance and breaks. */
  method CategorizeMatching(t: seq<Category>, text: Option<string>) returns (v: Verdict)
    ensures v == MatchingCategorize(t, text)
  {
    var n := Folded(text);
    if n == "" {
      return Verdict(Andre, Some(DefaultDistance));
    }
    var nt := NormTable(t);
    var ms := CollectMatches(nt, n);
    var category, distance := Andre, DefaultDistance;
    if ms != [] {
      var b := Best(ms);
      category, distance := b.category, b.distance;
    }
    var found := FindSpecific(SpecificDistances, n);
    if found.Some? {
      var kw := Normalize(SpecificDistances[found.value].0);
      category := if kw in SpecificCategoryHints then SpecificCategoryHints[kw] else category;
      distance := SpecificDistances[found.value].1;
    }
    return Verdict(category, Some(distance));
  }

  /** The override loop's search: the first compound that applies, at
      which the loop breaks. */
  method FindSpecific(specifics: seq<(string, real)>, n: string) returns (r: Option<nat>)
    ensures r == FirstSpecific(specifics, n)
  {
    for j := 0 to |specifics|
      invariant forall q :: 0 <= q < j ==> !SpecificHit(specifics[q].0, n)
    {
      var kw := Normalize(specifics[j].0);
      if kw != "" && Contains(n, kw) {
        FirstSpecificAt(specifics, n, j);
        return Some(j);
      }
    }
    return None;
  }

  /** The compound that applies after none before it did is the first. */
  lemma FirstSpecificAt(specifics: seq<(string, real)>, n: string, j: nat)
    requires j < |specifics| && SpecificHit(specifics[j].0, n)
    requires forall q :: 0 <= q < j ==> !SpecificHit(specifics[q].0, n)
    ensures FirstSpecific(specifics, n) == Some(j)
  {
    var r := FirstSpecific(specifics, n);
    assert r.Some?;
    assert !(r.value < j);
    assert !(r.value > j);
  }

  /** Empty folded text gives ('ANDRE', 500); without a specific compound
      in the text, the longest match; with one, the first such compound's
      distance, and its hinted category if it has a hint. */
  lemma MatchingSpec(t: seq<Category>, text: Option<string>)
    ensures Folded(text) == "" ==> MatchingCategorize(t, text) == Verdict(Andre, Some(DefaultDistance))
    ensures var n := Folded(text);
      n != "" && FirstSpecific(SpecificDistances, n).None? ==> MatchingCategorize(t, text) == LongestMatch(NormTable(t), n)
    ensures var n := Folded(text);
      n != "" && FirstSpecific(SpecificDistances, n).Some? ==>
        MatchingCategorize(t, text).distance == Some(SpecificDistances[FirstSpecific(SpecificDistances, n).value].1)
    ensures MatchingCategorize(t, text).category == Andre ||
      MatchingCategorize(t, text).category in Names(t) ||
      MatchingCategorize(t, text).category in SpecificCategoryHints.Values
  {
    var n := Folded(text);
    var nt := NormTable(t);
    var ms := MatchesOf(nt, n);
    if n != "" && ms != [] {
      MatchesOfSpec(nt, n, Best(ms));
    }
  }

  /** Any 'benzen' in the folded text, even inside 'trichlorbenzen', gives
      distance 200 here. */
  lemma MatchingBenzenAnywhere(t: seq<Category>, text: Option<string>)
    requires Contains(Folded(text), "benzen")
    ensures MatchingCategorize(t, text).distance == Some(200.0)
  {
    NormalizeKeeps("benzen");
    assert SpecificHit(SpecificDistances[0].0, Folded(text));
  }

  /** 'cod' without 'benzen' forces ('LOSSEPLADS', 500). */
  lemma MatchingCodIsLandfill(t: seq<Category>, text: Option<string>)
    requires Contains(Folded(text), "cod") && !Contains(Folded(text), "benzen")
    ensures MatchingCategorize(t, text) == Verdict("LOSSEPLADS", Some(500.0))
  {
    NormalizeKeeps("benzen");
    NormalizeKeeps("cod");
    assert !SpecificHit(SpecificDistances[0].0, Folded(text));
    assert SpecificHit(SpecificDistances[1].0, Folded(text));
    assert FirstSpecific(SpecificDistances, Folded(text)) == Some(1);
  }

  /** The two accent-folding categorisers part on 'trichlorbenzen': it
      contains 'benzen', so `compound_matching` gives it distance 200
      (`MatchingBenzenAnywhere`), but no override compound fires on it, so
      `compound_categories` takes the longest match (`CategorizeNoFiring`). */
  lemma TrichlorbenzenOverrides()
    ensures Contains("trichlorbenzen", "benzen")
    ensures FirstFiring(SpecificDistances, "trichlorbenzen").None?
  {
    BenzenGuardExamples();
    TrichlorbenzenBenzen();
    TrichlorbenzenCod();
    TrichlorbenzenCyanid();
  }

  /** When no override compound fires, the longest match decides. */
  lemma CategorizeNoFiring(t: seq<Category>, text: Option<string>)
    requires Folded(text) != "" && FirstFiring(SpecificDistances, Folded(text)).None?
    ensures Categorize(t, text) == LongestMatch(NormTable(t), Folded(text))
  {
    OverrideSpec(NormTable(t), SpecificDistances, Folded(text));
  }

  lemma TrichlorbenzenBenzen()
    ensures Contains("trichlorbenzen", "benzen")
  {
    var s := "trichlorbenzen";
    assert s[8..8 + |"benzen"|] == "benzen";
    ContainsAt(s, "benzen", 8);
  }

  lemma TrichlorbenzenCod()
    ensures !Contains("trichlorbenzen", "cod")
  {
    NoSubstring("trichlorbenzen", "cod");
  }

  lemma TrichlorbenzenCyanid()
    ensures !Contains("trichlorbenzen", "cyanid")
  {
    NoSubstring("trichlorbenzen", "cyanid");
  }

  /** `sub` is not in `s` when no letter of `s` is followed by the first
      two letters of `sub`. */
  lemma {:induction false} NoSubstring(s: string, sub: string)
    requires |sub| >= 2
    requires forall i :: 0 <= i < |s| - 1 ==> s[i] != sub[0] || s[i + 1] != sub[1]
    ensures !Contains(s, sub)
    decreases |s|
  {
    if s != [] {
      if |sub| <= |s| {
        assert s[..|sub|][0] == s[0] && s[..|sub|][1] == s[1];
      }
      NoSubstring(s[1..], sub);
    }
  }

  // ---------------------------------------------------------------------
  // refined_compound_analysis.categorize_contamination_substance_refined
  // ---------------------------------------------------------------------

  function RefinedCategorize(t: seq<Category>, text: Option<string>): Verdict {
    if text.None? then Verdict(Andre, None)
    else
      var s := Prepare(text.value);
      match Override(t, SpecificDistances, s)
      case Some(o) => o
      case None => FirstMatchVerdict(t, s, Andre)
  }

  /** The nested loops with early returns. */
  method CategorizeRefined(t: seq<Category>, text: Option<string>) returns (v: Verdict)
    ensures v == RefinedCategorize(t, text)
  {
    if text.None? {
      return Verdict(Andre, None);
    }
    var s := Prepare(text.value);
    var j := 0;
    while j < |SpecificDistances|
      invariant 0 <= j <= |SpecificDistances|
      invariant Override(t, SpecificDistances, s) == Override(t, SpecificDistances[j..], s)
    {
      assert SpecificDistances[j..][1..] == SpecificDistances[j + 1..];
      var (compound, d) := SpecificDistances[j];
      if Fires(compound, s) {
        var hit := FindFirstCategory(t, s);
        if hit.Some? {
          return Verdict(t[hit.value].name, Some(d));
        }
      }
      j := j + 1;
    }
    var hit := FindFirstCategory(t, s);
    if hit.Some? {
      return Verdict(t[hit.value].name, Some(t[hit.value].distance));
    }
    return Verdict(Andre, None);
  }

  /** The overrides never change the category: a matching text gets the
      first matching category, with the first firing compound's distance
      or else the category's own; a text without a match, and a
      non-string, get ('ANDRE', no distance). */
  lemma RefinedSpec(t: seq<Category>, text: Option<string>)
    ensures text.None? ==> RefinedCategorize(t, text) == Verdict(Andre, None)
    ensures text.Some? && FirstCategory(t, Prepare(text.value)).None? ==> RefinedCategorize(t, text) == Verdict(Andre, None)
    ensures text.Some? && FirstCategory(t, Prepare(text.value)).Some? ==>
      var s := Prepare(text.value);
      var i := FirstCategory(t, s).value;
      var f := FirstFiring(SpecificDistances, s);
      RefinedCategorize(t, text) == Verdict(t[i].name, Some(if f.Some? then SpecificDistances[f.value].1 else t[i].distance))
  {
    if text.Some? {
      OverrideSpec(t, SpecificDistances, Prepare(text.value));
    }
  }

  // ---------------------------------------------------------------------
  // compound_categorization.categorize_contamination_substance (and the
  // identical one in step5_compound_threshold_counts.py)
  // ---------------------------------------------------------------------

  function FirstMatchCategorize(t: seq<Category>, text: Option<string>): Verdict {
    if text.None? then Verdict(Uncategorized, None)
    else FirstMatchVerdict(t, Prepare(text.value), Uncategorized)
  }

  method CategorizeFirstMatch(t: seq<Category>, text: Option<string>) returns (v: Verdict)
    ensures v == FirstMatchCategorize(t, text)
  {
    if text.None? {
      return Verdict(Uncategorized, None);
    }
    var hit := FindFirstCategory(t, Prepare(text.value));
    if hit.Some? {
      return Verdict(t[hit.value].name, Some(t[hit.value].distance));
    }
    return Verdict(Uncategorized, None);
  }

  /** A non-string or a text without a match is UNCATEGORIZED without a
      distance; otherwise the first matching category (table order) with
      its own distance. */
  lemma FirstMatchSpec(t: seq<Category>, text: Option<string>)
    requires forall i :: 0 <= i < |t| ==> t[i].name != Uncategorized
    ensures FirstMatchCategorize(t, text) == Verdict(Uncategorized, None) <==>
      text.None? || forall j :: 0 <= j < |t| ==> !AnyKeyword(t[j].keywords, Prepare(text.value))
    ensures text.Some? ==> forall i :: (0 <= i < |t| && AnyKeyword(t[i].keywords, Prepare(text.value)) &&
      (forall j :: 0 <= j < i ==> !AnyKeyword(t[j].keywords, Prepare(text.value)))) ==>
      FirstMatchCategorize(t, text) == Verdict(t[i].name, Some(t[i].distance))
  {
    if text.Some? {
      FirstMatchVerdictSpec(t, Prepare(text.value), Uncategorized);
    }
  }
}
