/** DK-modellag layer strings and the GVD raster file names built from them.

    A GVFK's `DK-modellag` cell lists the model layers the groundwater body
    lies in, e.g. "Kalk: kalk; Ks2: ks2", "kvs_0200/kvs_0400" or "ks2". The
    workflow turns it into lower-case layer codes and reads one infiltration
    raster per code, "dk16_gvd_<code>.tif" or "dk7_gvd_<code>.tif" by model
    region. A legacy script instead expands ranges such as "ks1 - ks3". */
module Layers {
  import opened Wrappers
  import opened Text

  /** How a cell is cut into parts: Step 6 tries ';', then '/', then keeps
      the whole cell; Steps 3b and 5c only cut at ';'. */
  datatype Separators = SemicolonThenSlash | SemicolonOnly

  function StripEach(parts: seq<string>): (r: seq<string>)
    ensures |r| == |parts|
    ensures forall i :: 0 <= i < |r| ==> r[i] == Strip(parts[i])
  {
    if parts == [] then []
    else
      var rest := StripEach(parts[1..]);
      assert forall j :: 0 <= j < |rest| ==> rest[j] == Strip(parts[j + 1]);
      [Strip(parts[0])] + rest
  }

  /** The trimmed parts of a cell. */
  function Parts(text: string, seps: Separators): seq<string> {
    match seps
    case SemicolonOnly => StripEach(Split(text, ";"))
    case SemicolonThenSlash =>
      var t := Strip(text);
      if Contains(t, ";") then StripEach(Split(t, ";"))
      else if Contains(t, "/") then StripEach(Split(t, "/"))
      else [t]
  }

  lemma LowerKeepsStripped(s: string)
    requires s == [] || (!IsSpace(s[0]) && !IsSpace(s[|s| - 1]))
    ensures Lower(s) == [] || (!IsSpace(Lower(s)[0]) && !IsSpace(Lower(s)[|s| - 1]))
  {
  }

  /** The layer code of one part: the text after its first ':' (and before
      a second one) when it has one, else the whole part; trimmed and
      lower-cased. */
  function LayerCode(part: string): (code: string)
    ensures Lower(code) == code
    ensures code == [] || (!IsSpace(code[0]) && !IsSpace(code[|code| - 1]))
  {
    var raw := if Contains(part, ":") then (SplitContains(part, ":"); Split(part, ":")[1]) else part;
    LowerIdempotent(Strip(raw));
    LowerKeepsStripped(Strip(raw));
    Lower(Strip(raw))
  }

  /** A labelled part "Label: code" yields the trimmed, lower-cased code. */
  lemma LabelledPartCode(tag: string, value: string)
    requires ':' !in tag && ':' !in value
    ensures LayerCode(tag + ":" + value) == Lower(Strip(value))
  {
    SplitOnceChar(tag, ':', value);
    assert tag + ":" + value == tag + [':'] + value;
    ContainsAt(tag + ":" + value, ":", |tag|);
  }

  /** The code of every part, in order. */
  function RawCodes(parts: seq<string>): (codes: seq<string>)
    ensures |codes| == |parts|
    ensures forall i :: 0 <= i < |parts| ==> codes[i] == LayerCode(parts[i])
  {
    if parts == [] then [] else [LayerCode(parts[0])] + RawCodes(parts[1..])
  }

  function NonEmpty(xs: seq<string>): seq<string> {
    if xs == [] then []
    else if xs[0] == [] then NonEmpty(xs[1..])
    else [xs[0]] + NonEmpty(xs[1..])
  }

  lemma {:induction false} NonEmptyExactly(xs: seq<string>, c: string)
    ensures c in NonEmpty(xs) <==> c != [] && c in xs
  {
    if xs != [] {
      NonEmptyExactly(xs[1..], c);
      assert xs == [xs[0]] + xs[1..];
    }
  }

  /** The non-empty codes of the parts, in order, repeats included. */
  function Codes(parts: seq<string>): (codes: seq<string>)
    ensures forall c :: c in codes <==> c != [] && c in RawCodes(parts)
    ensures forall c :: c in codes ==>
      c != [] && Lower(c) == c && !IsSpace(c[0]) && !IsSpace(c[|c| - 1])
  {
    var raw := RawCodes(parts);
    forall c ensures c in NonEmpty(raw) <==> c != [] && c in raw {
      NonEmptyExactly(raw, c);
    }
    NonEmpty(raw)
  }

  /** The layers of a cell: nothing for a missing or empty cell, otherwise
      every non-empty code once, in order of first appearance. */
  function LayerList(cell: Option<string>, seps: Separators): seq<string> {
    if cell.None? || cell.value == [] then []
    else Dedup(Codes(Parts(cell.value, seps)))
  }

  /** `_parse_dk_modellag`: walk the parts and append each new non-empty code. */
  method ParseDkModellag(cell: Option<string>, seps: Separators) returns (layers: seq<string>)
    ensures layers == LayerList(cell, seps)
    ensures cell.None? || cell.value == [] ==> layers == []
    ensures Distinct(layers)
    ensures cell.Some? && cell.value != [] ==>
      forall c :: c in layers <==> c in Codes(Parts(cell.value, seps))
  {
    layers := [];
    if cell.None? || cell.value == [] {
      return;
    }
    var parts := Parts(cell.value, seps);
    var i := 0;
    while i < |parts|
      invariant 0 <= i <= |parts|
      invariant DedupFrom(Codes(parts[i..]), layers) == Dedup(Codes(parts))
    {
      var code := LayerCode(parts[i]);
      assert parts[i..][1..] == parts[i + 1..];
      assert RawCodes(parts[i..]) == [code] + RawCodes(parts[i + 1..]);
      if code != [] && code !in layers {
        layers := layers + [code];
      }
      i := i + 1;
    }
    assert parts[i..] == [];
    DedupSpec(Codes(parts));
  }

  /** Every layer is a non-empty lower-case code without surrounding
      whitespace, each at most once. */
  lemma LayerListSpec(cell: Option<string>, seps: Separators)
    ensures Distinct(LayerList(cell, seps))
    ensures forall c :: c in LayerList(cell, seps) ==>
      c != [] && Lower(c) == c && !IsSpace(c[0]) && !IsSpace(c[|c| - 1])
  {
    if cell.Some? && cell.value != [] {
      var codes := Codes(Parts(cell.value, seps));
      DedupSpec(codes);
    }
  }

  /** Steps 3b and 5c never cut at '/': a cell without ';' is one part. */
  lemma SemicolonOnlyIgnoresSlash(text: string)
    requires !Contains(text, ";")
    ensures Parts(text, SemicolonOnly) == [Strip(text)]
  {
  }

  /** Step 6 cuts at '/' only when the trimmed cell has no ';'. */
  lemma SlashSplitInStep6(text: string)
    requires !Contains(Strip(text), ";") && Contains(Strip(text), "/")
    ensures |Parts(text, SemicolonThenSlash)| >= 2
  {
    SplitContains(Strip(text), "/");
  }

  // ---------------------------------------------------------------------
  // Raster file names

  /** "dk7" when the lower-cased region starts with "dk7", else "dk16"; a
      missing region counts as "". */
  function RegionPrefix(region: Option<string>): string {
    if StartsWith(Lower(region.GetOr("")), "dk7") then "dk7" else "dk16"
  }

  /** `_build_raster_filename` in Step 6: no file for an empty layer. */
  function RasterFilename(layer: string, region: Option<string>): (name: Option<string>)
    ensures name.None? <==> layer == []
  {
    if layer == [] then None else Some(RegionPrefix(region) + "_gvd_" + layer + ".tif")
  }

  /** The Step 3b variant lower-cases the layer itself. */
  function RasterFilenameLowered(layer: string, region: Option<string>): (name: Option<string>)
    ensures name.None? <==> layer == []
  {
    RasterFilename(Lower(layer), region)
  }

  /** The name starts with "dk7_" exactly for a region starting with "dk7"
      (any case), and with "dk16_" otherwise; it ends in the layer and
      ".tif". */
  lemma RasterFilenamePrefix(layer: string, region: Option<string>)
    requires layer != []
    ensures var name := RasterFilename(layer, region).value;
      (StartsWith(name, "dk7_") <==> StartsWith(Lower(region.GetOr("")), "dk7")) &&
      (StartsWith(name, "dk16_") <==> !StartsWith(Lower(region.GetOr("")), "dk7")) &&
      name[|name| - |layer| - 4..] == layer + ".tif"
  {
    var name := RasterFilename(layer, region).value;
    if StartsWith(Lower(region.GetOr("")), "dk7") {
      assert name == "dk7_gvd_" + layer + ".tif";
      assert name[2] == '7' && "dk16_"[2] == '1';
    } else {
      assert name == "dk16_gvd_" + layer + ".tif";
      assert name[2] == '1' && "dk7_"[2] == '7';
    }
  }

  /** The mainland raster for a layer. */
  function MainlandRaster(layer: string): string {
    "dk16_gvd_" + layer + ".tif"
  }

  /** The file actually read for a (lower-cased) layer, given the set of
      files present: the regional file if present, else the mainland file
      if the regional one was not already the mainland one, else nothing. */
  function ResolveRaster(layer: string, region: Option<string>, existing: set<string>): (file: Option<string>)
    ensures file.Some? ==> file.value in existing
    ensures file.Some? ==> file == RasterFilename(layer, region) || file.value == MainlandRaster(layer)
    ensures layer != [] && RasterFilename(layer, region).value in existing ==> file == RasterFilename(layer, region)
    ensures file.None? <==>
      layer == [] || (RasterFilename(layer, region).value !in existing && MainlandRaster(layer) !in existing)
  {
    match RasterFilename(layer, region)
    case None => None
    case Some(name) =>
      if name in existing then Some(name)
      else if !StartsWith(name, "dk16_") && MainlandRaster(layer) in existing then Some(MainlandRaster(layer))
      else
        assert StartsWith(name, "dk16_") ==> name == MainlandRaster(layer) by {
          RasterFilenamePrefix(layer, region);
        }
        None
  }

  /** The raster Step 5c reads for a layer. */
  function Step5cRaster(layer: string): string {
    "DKM_gvd_" + layer + ".tif"
  }

  // ---------------------------------------------------------------------
  // Range-expanding parser of the legacy Step 6 script

  predicate IsDigits(s: string) {
    s != [] && forall i :: 0 <= i < |s| ==> '0' <= s[i] <= '9'
  }

  /** Python `int(s)` for a string of decimal digits. */
  function DigitsValue(s: string): (n: nat)
    requires forall i :: 0 <= i < |s| ==> '0' <= s[i] <= '9'
    decreases |s|
  {
    if s == [] then 0 else DigitsValue(s[..|s| - 1]) * 10 + (s[|s| - 1] as int - '0' as int)
  }

  lemma {:induction false} DigitsValueOfNat(n: nat)
    ensures DigitsValue(NatToString(n)) == n
    decreases n
  {
    if n >= 10 {
      DigitsValueOfNat(n / 10);
      var r := NatToString(n);
      assert r[..|r| - 1] == NatToString(n / 10);
    }
  }

  /** `int(x[2:]) if x[2:].isdigit() else 0`. */
  function SuffixNumber(s: string): nat {
    var rest := if |s| >= 2 then s[2..] else [];
    if IsDigits(rest) then DigitsValue(rest) else 0
  }

  function Prefix2(s: string): string {
    if |s| >= 2 then s[..2] else s
  }

  /** `[f"{prefix}{i}" for i in range(a, b + 1)]`. */
  function ExpandRange(prefix: string, a: nat, b: nat): (r: seq<string>)
    ensures |r| == if a <= b then b - a + 1 else 0
    ensures forall k :: 0 <= k < |r| ==> r[k] == prefix + NatToString(a + k)
    decreases b + 1 - a
  {
    if a > b then [] else [prefix + NatToString(a)] + ExpandRange(prefix, a + 1, b)
  }

  /** `_parse_dk_modellag` of the legacy script: nothing for a missing
      cell; a range "p<a> - p<b>" whose two ends share their first two
      characters expands to every layer from a to b; any other text is one
      layer. Cutting at " - " into other than two pieces raises ValueError,
      as Python's tuple unpacking does. */
  function ParseLayerRange(cell: Option<string>): (r: Result<seq<string>>)
    ensures cell.None? ==> r == Ok([])
    ensures cell.Some? && !Contains(Strip(cell.value), " - ") ==> r == Ok([Strip(cell.value)])
    ensures cell.Some? && Contains(Strip(cell.value), " - ") ==>
      (r.Err? <==> |Split(Strip(cell.value), " - ")| != 2)
  {
    if cell.None? then Ok([])
    else
      var t := Strip(cell.value);
      if !Contains(t, " - ") then Ok([t])
      else
        var pieces := Split(t, " - ");
        if |pieces| != 2 then Err(ValueError(t))
        else
          var start, end := Strip(pieces[0]), Strip(pieces[1]);
          if Prefix2(start) == Prefix2(end) then
            Ok(ExpandRange(Prefix2(start), SuffixNumber(start), SuffixNumber(end)))
          else Ok([t])
  }

  /** A cell "x - y" with two plain ends: when the ends share their first
      two characters p, the layers p<m>, ..., p<n> for the numbers m and n
      after p; otherwise the cell itself as the only layer. */
  lemma RangeOfEnds(x: string, y: string)
    requires x != [] && !IsSpace(x[0]) && !IsSpace(x[|x| - 1])
    requires y != [] && !IsSpace(y[0]) && !IsSpace(y[|y| - 1])
    requires ' ' !in x && '-' !in x && ' ' !in y && '-' !in y
    ensures ParseLayerRange(Some(x + " - " + y)) ==
      if Prefix2(x) == Prefix2(y) then Ok(ExpandRange(Prefix2(x), SuffixNumber(x), SuffixNumber(y)))
      else Ok([x + " - " + y])
  {
    var cell := x + " - " + y;
    assert cell[0] == x[0] && cell[|cell| - 1] == y[|y| - 1];
    StrippedKeeps(cell);
    SplitOnceSep(x, y);
    StrippedKeeps(x);
    StrippedKeeps(y);
    var pieces := Split(cell, " - ");
    assert Strip(pieces[0]) == x && Strip(pieces[1]) == y;
  }

  /** "ks<a> - ks<b>" gives ks<a>, ..., ks<b>, inclusive; a > b gives none. */
  lemma RangeExpansion(p: string, a: nat, b: nat)
    requires |p| == 2 && !IsSpace(p[0]) && ' ' !in p && '-' !in p
    ensures ParseLayerRange(Some(p + NatToString(a) + " - " + p + NatToString(b))) ==
      Ok(ExpandRange(p, a, b))
  {
    var x, y := p + NatToString(a), p + NatToString(b);
    NoSeparatorInCode(p, a);
    NoSeparatorInCode(p, b);
    assert p + NatToString(a) + " - " + p + NatToString(b) == x + " - " + y;
    RangeOfEnds(x, y);
    assert x[2..] == NatToString(a) && y[2..] == NatToString(b);
    DigitsValueOfNat(a);
    DigitsValueOfNat(b);
  }

  lemma StrippedKeeps(s: string)
    requires s != [] && !IsSpace(s[0]) && !IsSpace(s[|s| - 1])
    ensures Strip(s) == s
  {
    assert StripLeft(s) == s;
  }

  lemma NoSeparatorInCode(p: string, n: nat)
    requires |p| == 2 && ' ' !in p && '-' !in p
    ensures var x := p + NatToString(n);
      ' ' !in x && '-' !in x && !IsSpace(x[|x| - 1]) && x[..2] == p && Prefix2(x) == p
  {
    var d := NatToString(n);
    assert forall i :: 0 <= i < |d| ==> d[i] != ' ' && d[i] != '-';
  }

  /** `(x + " - " + y).split(" - ") == [x, y]` when neither side has a
      space or a hyphen. */
  lemma SplitOnceSep(x: string, y: string)
    requires ' ' !in x && '-' !in x && ' ' !in y && '-' !in y
    ensures Contains(x + " - " + y, " - ") && Split(x + " - " + y, " - ") == [x, y]
  {
    var s := x + " - " + y;
    assert s[|x|..|x| + 3] == " - ";
    ContainsAt(s, " - ", |x|);
    IndexOfContains(s, " - ");
    var v := IndexOf(s, " - ").value;
    var w := s[v..v + 3];
    assert w[0] == s[v] && w[1] == s[v + 1];
    assert s[|x|..][..3] == " - ";
    assert v == |x|;
    assert s[..v] == x && s[v + 3..] == y;
  }
}
