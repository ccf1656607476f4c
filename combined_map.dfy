/** The non-rendering helpers of the combined step-6 map
    (tilstandsvurdering/step6_combined_map.py): the Q-point lookup, the
    multi-value field helpers, the length-limited output path and the
    connection style. The SHA-1 digest is a parameter. */
module CombinedMap {
  import opened Wrappers
  import opened Text
  import opened Grouping

  // ---------------------------------------------------------------------
  // _build_qpoint_lookup
  // ---------------------------------------------------------------------

  /** A gauging point: the segment it belongs to, its Q95 flow and its geometry. */
  datatype QPoint = QPoint(ovId: Option<string>, q95: real, geometry: int)

  function OvKey(q: QPoint): string {
    if q.ovId.Some? then q.ovId.value else ""
  }

  /** `qpoints_gdf[qpoints_gdf["ov_id"].notna()]`. */
  function ValidQPoints(qs: seq<QPoint>): seq<QPoint> {
    Flatten(qs, (q: QPoint) => if q.ovId.Some? then [q] else [])
  }

  /** `idxmax`: the first point with the largest Q95. */
  function FirstMax(group: seq<QPoint>): (best: nat)
    requires group != []
    ensures best < |group|
    ensures forall i :: 0 <= i < |group| ==> group[i].q95 <= group[best].q95
    ensures forall i :: 0 <= i < best ==> group[i].q95 < group[best].q95
    decreases |group|
  {
    if |group| == 1 then 0
    else
      var prev := FirstMax(group[..|group| - 1]);
      assert forall i :: 0 <= i < |group| - 1 ==> group[..|group| - 1][i] == group[i];
      if group[|group| - 1].q95 > group[prev].q95 then |group| - 1 else prev
  }

  /** The lookup after the first keys have been entered. */
  function LookupOf(valid: seq<QPoint>, ks: seq<string>): map<string, QPoint>
    decreases |ks|
  {
    if ks == [] then map[]
    else
      var k := ks[|ks| - 1];
      var group := Members(valid, OvKey, k);
      var m := LookupOf(valid, ks[..|ks| - 1]);
      if group == [] then m else m[k := group[FirstMax(group)]]
  }

  function QPointLookup(qs: seq<QPoint>): map<string, QPoint> {
    var valid := ValidQPoints(qs);
    LookupOf(valid, GroupKeys(valid, OvKey))
  }

  method BuildQPointLookup(qs: seq<QPoint>) returns (lookup: map<string, QPoint>)
    ensures lookup == QPointLookup(qs)
  {
    var valid := ValidQPoints(qs);
    if valid == [] {
      return map[];
    }
    var ids := GroupKeys(valid, OvKey);
    lookup := map[];
    for i := 0 to |ids|
      invariant lookup == LookupOf(valid, ids[..i])
    {
      assert ids[..i + 1][..i] == ids[..i];
      var group := Members(valid, OvKey, ids[i]);
      if group != [] {
        var best := FirstMax(group);
        lookup := lookup[ids[i] := group[best]];
      }
    }
    assert ids[..|ids|] == ids;
  }

  lemma {:induction false} LookupOfSpec(valid: seq<QPoint>, ks: seq<string>, k: string)
    requires forall x :: x in ks ==> x in Column(valid, OvKey)
    ensures k in LookupOf(valid, ks) <==> k in ks
    ensures k in ks ==>
      Members(valid, OvKey, k) != [] &&
      LookupOf(valid, ks)[k] == Members(valid, OvKey, k)[FirstMax(Members(valid, OvKey, k))]
    decreases |ks|
  {
    if ks != [] {
      var init := ks[..|ks| - 1];
      assert forall x :: x in init ==> x in ks;
      LookupOfSpec(valid, init, k);
      assert ks == init + [ks[|ks| - 1]];
      MembersFirst(valid, OvKey, ks[|ks| - 1]);
      if k in ks {
        MembersFirst(valid, OvKey, k);
      }
    }
  }

  lemma ValidQPointsSpec(qs: seq<QPoint>)
    ensures forall q :: q in ValidQPoints(qs) <==> q in qs && q.ovId.Some?
  {
    var f := (q: QPoint) => if q.ovId.Some? then [q] else [];
    FlattenFrom(qs, f);
    forall q | q in qs && q.ovId.Some? ensures q in ValidQPoints(qs) {
      FlattenContains(qs, f, q, q);
    }
  }

  /** A valid point's key is its id. */
  lemma ValidKeyIff(qs: seq<QPoint>, k: string)
    ensures k in Column(ValidQPoints(qs), OvKey) <==> exists q :: q in qs && q.ovId == Some(k)
  {
    var valid := ValidQPoints(qs);
    ValidQPointsSpec(qs);
    if k in Column(valid, OvKey) {
      var i :| 0 <= i < |valid| && Column(valid, OvKey)[i] == k;
      assert valid[i] in valid;
    }
    if exists q :: q in qs && q.ovId == Some(k) {
      var q :| q in qs && q.ovId == Some(k);
      assert q in valid;
      var i :| 0 <= i < |valid| && valid[i] == q;
      assert Column(valid, OvKey)[i] == k;
    }
  }

  /** A segment id is a key exactly when some point with that id exists;
      its entry is such a point, with a Q95 no smaller than any other
      point of the segment; points without an id play no part. */
  lemma QPointLookupSpec(qs: seq<QPoint>, k: string)
    ensures k in QPointLookup(qs) <==> exists q :: q in qs && q.ovId == Some(k)
    ensures k in QPointLookup(qs) ==>
      var best := QPointLookup(qs)[k];
      best in qs && best.ovId == Some(k) &&
      forall q :: q in qs && q.ovId == Some(k) ==> q.q95 <= best.q95
  {
    var valid := ValidQPoints(qs);
    var ks := GroupKeys(valid, OvKey);
    forall x | x in ks ensures x in Column(valid, OvKey) {
      GroupKeyInColumn(valid, OvKey, x);
    }
    LookupOfSpec(valid, ks, k);
    GroupKeysSpec(valid, OvKey);
    ValidKeyIff(qs, k);
    if k in ks {
      ValidQPointsSpec(qs);
      var group := Members(valid, OvKey, k);
      MembersSpec(valid, OvKey, k);
      var b := FirstMax(group);
      assert group[b] in group;
      forall q | q in qs && q.ovId == Some(k) ensures q.q95 <= group[b].q95 {
        assert q in group;
        var i :| 0 <= i < |group| && group[i] == q;
      }
    }
  }

  /** No point with an id gives the empty lookup. */
  lemma QPointLookupEmpty(qs: seq<QPoint>)
    ensures QPointLookup(qs) == map[] <==> forall q :: q in qs ==> q.ovId.None?
  {
    if exists q :: q in qs && q.ovId.Some? {
      var q :| q in qs && q.ovId.Some?;
      QPointLookupSpec(qs, q.ovId.value);
    } else {
      forall k | k in QPointLookup(qs) ensures false {
        QPointLookupSpec(qs, k);
      }
    }
  }

  // ---------------------------------------------------------------------
  // _split_multi_value, _count_unique_values, _normalize_gvfk_id
  // ---------------------------------------------------------------------

  /** The trimmed non-empty ','-tokens; none for None or NaN. */
  function SplitMultiValue(v: Option<string>): seq<string> {
    if v.None? then [] else Tokens(v.value, ",")
  }

  function CountUniqueValues(v: Option<string>): nat {
    |set t | t in SplitMultiValue(v)|
  }

  /** Every token is trimmed, non-empty and free of ','. */
  lemma SplitMultiValueTokens(v: Option<string>)
    ensures forall t :: t in SplitMultiValue(v) ==> t != "" && Strip(t) == t && ',' !in t
  {
    if v.Some? {
      TokensFree(v.value, ',');
    }
  }

  /** The unique count is the number of distinct tokens, at most the number
      of tokens, and 0 exactly when there is none. */
  lemma CountUniqueValuesSpec(v: Option<string>)
    ensures CountUniqueValues(v) == |Dedup(SplitMultiValue(v))| <= |SplitMultiValue(v)|
    ensures CountUniqueValues(v) == 0 <==> SplitMultiValue(v) == []
  {
    var ts := SplitMultiValue(v);
    SetCardDedup(ts);
    DedupFromLength(ts, []);
    if ts != [] {
      DedupSpec(ts);
      assert ts[0] in Dedup(ts);
    }
  }

  lemma SetCardDedup(ts: seq<string>)
    ensures |set t | t in ts| == |Dedup(ts)|
  {
    DedupSpec(ts);
    assert (set t | t in ts) == (set t | t in Dedup(ts));
    DistinctSetCard(Dedup(ts));
  }

  lemma {:induction false} DistinctSetCard(xs: seq<string>)
    requires Distinct(xs)
    ensures |set x | x in xs| == |xs|
  {
    if xs != [] {
      var rest := xs[1..];
      assert Distinct(rest) by {
        forall i, j | 0 <= i < j < |rest| ensures rest[i] != rest[j] {
          assert rest[i] == xs[i + 1] && rest[j] == xs[j + 1];
        }
      }
      DistinctSetCard(rest);
      assert xs[0] !in rest by {
        forall i | 0 <= i < |rest| ensures rest[i] != xs[0] {
          assert rest[i] == xs[i + 1];
        }
      }
      assert (set x | x in xs) == (set x | x in rest) + {xs[0]} by {
        assert xs == [xs[0]] + rest;
      }
    }
  }

  /** `str(value).strip()`, and "" for None or NaN. */
  function NormalizeGvfkId(v: Option<string>): string {
    if v.None? then "" else Strip(v.value)
  }

  /** Normalising twice is normalising once. */
  lemma NormalizeGvfkIdIdempotent(v: Option<string>)
    ensures NormalizeGvfkId(Some(NormalizeGvfkId(v))) == NormalizeGvfkId(v)
  {
    if v.Some? {
      StripIdempotent(v.value);
    }
  }

  // ---------------------------------------------------------------------
  // _build_output_path
  // ---------------------------------------------------------------------

  /** The defaults of the map writer. */
  const MaxTotalLength: int := 240
  const ScenarioPrefix: string := "scenario_"
  const HtmlSuffix: string := ".html"

  /** `str(output_dir / filename)`. */
  function InDir(dir: string, filename: string): string {
    dir + "/" + filename
  }

  function Available(dir: string, maxLen: int, prefix: string, dynamicSuffix: string): int {
    maxLen - |dir| - 1 - |prefix| - |dynamicSuffix|
  }

  /** `safe_name[:max(0, available)]`. */
  function Trimmed(name: string, available: int): string {
    if available <= 0 then "" else if available >= |name| then name else name[..available]
  }

  /** The path for a map file; `hash8` is the first eight hex digits of the
      SHA-1 of the name. */
  function BuildOutputPath(dir: string, name: string, maxLen: int, prefix: string, suffix: string, hash8: string): string {
    var candidate := InDir(dir, prefix + name + suffix);
    if |candidate| <= maxLen then candidate
    else
      var dynamicSuffix := "_" + hash8 + suffix;
      var trimmed := Trimmed(name, Available(dir, maxLen, prefix, dynamicSuffix));
      var fallback := InDir(dir, prefix + trimmed + dynamicSuffix);
      if |fallback| <= maxLen then fallback
      else InDir(dir, prefix + hash8 + suffix)
  }

  /** A path that fits is used unchanged. Otherwise the name is cut to a
      prefix of itself and tagged with the hash, which always fits when
      there is room for the tag; only when there is not does the path
      drop to the bare hash, and then it fits if anything of the kind
      does. */
  lemma BuildOutputPathSpec(dir: string, name: string, maxLen: int, prefix: string, suffix: string, hash8: string)
    ensures var p := BuildOutputPath(dir, name, maxLen, prefix, suffix, hash8);
      var dynamicSuffix := "_" + hash8 + suffix;
      var available := Available(dir, maxLen, prefix, dynamicSuffix);
      (|InDir(dir, prefix + name + suffix)| <= maxLen ==> p == InDir(dir, prefix + name + suffix)) &&
      (|InDir(dir, prefix + name + suffix)| > maxLen && available >= 0 ==>
        exists n: nat :: n <= |name| && p == InDir(dir, prefix + name[..n] + dynamicSuffix) && |p| <= maxLen) &&
      (|InDir(dir, prefix + name + suffix)| > maxLen && available < 0 ==>
        p == InDir(dir, prefix + hash8 + suffix) || p == InDir(dir, prefix + dynamicSuffix)) &&
      (|InDir(dir, prefix + hash8 + suffix)| <= maxLen ==> |p| <= maxLen)
  {
    var dynamicSuffix := "_" + hash8 + suffix;
    var available := Available(dir, maxLen, prefix, dynamicSuffix);
    var trimmed := Trimmed(name, available);
    if available >= 0 {
      var n: nat := |trimmed|;
      assert trimmed == name[..n];
    } else {
      assert trimmed == name[..0];
    }
  }

  // ---------------------------------------------------------------------
  // _get_connection_style
  // ---------------------------------------------------------------------

  const Gray: string := "#CCCCCC"

  /** Line colour and weight by flux in kg/year; NaN is `None`. */
  function ConnectionStyle(fluxKg: Option<real>): (string, nat) {
    if fluxKg.None? || fluxKg.value <= 0.0 then (Gray, 1)
    else if fluxKg.value < 1.0 then ("#FFB366", 1)
    else if fluxKg.value < 10.0 then ("#FF8C1A", 2)
    else if fluxKg.value < 100.0 then ("#E64D1A", 3)
    else ("#B30000", 4)
  }

  /** Missing or non-positive flux is thin gray; the weight lies in 1..4
      and never decreases as the flux grows. */
  lemma ConnectionStyleSpec(a: Option<real>, b: real)
    ensures (a.None? || a.value <= 0.0) <==> ConnectionStyle(a) == (Gray, 1)
    ensures 1 <= ConnectionStyle(a).1 <= 4
    ensures a.Some? && a.value <= b ==> ConnectionStyle(a).1 <= ConnectionStyle(Some(b)).1
  {
  }
}
