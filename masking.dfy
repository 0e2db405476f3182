/** Valid-range masking and unit normalisation, as `VIIRSJRRFileHandler._mask_invalid`
    and the units step of `get_dataset` do them. */
module Masking {
  import opened Wrappers
  import opened Data

  /** The cell keeps a value inside the closed interval `[lo, hi]`. */
  predicate InRange(c: Cell, lo: real, hi: real)
  {
    CellValue(c).Some? && lo <= CellValue(c).value <= hi
  }

  /** `data_arr.where((lo <= data_arr) & (data_arr <= hi))` on one grid. */
  function MaskToRange(g: seq<seq<Cell>>, lo: real, hi: real): (r: seq<seq<Cell>>)
    ensures |r| == |g| && forall i :: 0 <= i < |g| ==> |r[i]| == |g[i]|
    ensures forall i, j :: 0 <= i < |g| && 0 <= j < |g[i]| ==>
      CellValue(r[i][j]) == (if InRange(g[i][j], lo, hi) then CellValue(g[i][j]) else None)
  {
    seq(|g|, i requires 0 <= i < |g| =>
      seq(|g[i]|, j requires 0 <= j < |g[i]| =>
        if InRange(g[i][j], lo, hi) then AsFloat(g[i][j]) else Missing))
  }

  /** Masking twice with the same range changes nothing more. */
  lemma MaskToRangeIdempotent(g: seq<seq<Cell>>, lo: real, hi: real)
    ensures MaskToRange(MaskToRange(g, lo, hi), lo, hi) == MaskToRange(g, lo, hi)
  {
    var once := MaskToRange(g, lo, hi);
    var twice := MaskToRange(once, lo, hi);
    forall i | 0 <= i < |g| ensures twice[i] == once[i] {
      forall j | 0 <= j < |g[i]| ensures twice[i][j] == once[i][j] {
        if InRange(g[i][j], lo, hi) {
          assert InRange(once[i][j], lo, hi);
        }
      }
    }
  }

  /** Masking with one range and then another is masking with their intersection. */
  lemma MaskToRangeCompose(g: seq<seq<Cell>>, lo1: real, hi1: real, lo2: real, hi2: real)
    ensures MaskToRange(MaskToRange(g, lo1, hi1), lo2, hi2)
         == MaskToRange(g, if lo1 < lo2 then lo2 else lo1, if hi1 < hi2 then hi1 else hi2)
  {
    var lo := if lo1 < lo2 then lo2 else lo1;
    var hi := if hi1 < hi2 then hi1 else hi2;
    var both := MaskToRange(MaskToRange(g, lo1, hi1), lo2, hi2);
    var direct := MaskToRange(g, lo, hi);
    forall i | 0 <= i < |g| ensures both[i] == direct[i] {
      forall j | 0 <= j < |g[i]| ensures both[i][j] == direct[i][j] {
        var c := g[i][j];
        if InRange(c, lo1, hi1) {
          assert MaskToRange(g, lo1, hi1)[i][j] == AsFloat(c);
        }
      }
    }
  }

  /** The bounds of a `valid_range` value: `valid_range[0]` and `valid_range[1]`. */
  function RangeBounds(vr: Attr): (r: Outcome<(real, real)>)
    ensures r.Ok? <==> vr.Reals? && |vr.xs| >= 2
    ensures r.Ok? ==> r.value == (vr.xs[0], vr.xs[1])
    ensures vr.Reals? && |vr.xs| < 2 ==> r == Err(IndexError)
    ensures r.Err? ==> r.error in {IndexError, TypeError}
    ensures vr.Int? || vr.Real? ==> r == Err(TypeError)
    ensures vr.Str? ==> r == Err(if |vr.s| == 0 then IndexError else TypeError)
    ensures vr.Strs? ==> r == Err(if |vr.items| == 0 then IndexError else TypeError)
  {
    match vr
    case Reals(xs) => if |xs| < 2 then Err(IndexError) else Ok((xs[0], xs[1]))
    case Str(s) => if |s| == 0 then Err(IndexError) else Err(TypeError)
    case Strs(items) => if |items| == 0 then Err(IndexError) else Err(TypeError)
    case _ => Err(TypeError)
  }

  /** The range `_mask_invalid` masks with: `valid_range` from the dataset's configuration,
      else the `valid_range` attribute, else `(valid_min, valid_max)` from the attributes;
      `None` when there is none of these. */
  function ValidRange(info: Info, attrs: Info): (r: Outcome<Option<(real, real)>>)
    ensures "valid_range" in info ==> r == (match RangeBounds(info["valid_range"])
                                            case Ok(b) => Ok(Some(b))
                                            case Err(e) => Err(e))
    ensures "valid_range" !in info && "valid_range" in attrs ==>
              r == (match RangeBounds(attrs["valid_range"])
                    case Ok(b) => Ok(Some(b))
                    case Err(e) => Err(e))
    ensures r == Ok(None) <==>
              "valid_range" !in info && "valid_range" !in attrs && "valid_min" !in attrs
    ensures "valid_range" !in info && "valid_range" !in attrs && "valid_min" in attrs && "valid_max" !in attrs ==>
              r == Err(KeyError(Str("valid_max")))
    ensures "valid_range" !in info && "valid_range" !in attrs && "valid_min" in attrs && "valid_max" in attrs ==>
              r == (if AsReal(attrs["valid_min"]).Some? && AsReal(attrs["valid_max"]).Some?
                    then Ok(Some((AsReal(attrs["valid_min"]).value, AsReal(attrs["valid_max"]).value)))
                    else Err(TypeError))
  {
    var configured := if "valid_range" in info then Some(info["valid_range"])
                      else if "valid_range" in attrs then Some(attrs["valid_range"])
                      else None;
    if configured.Some? then
      var b :- RangeBounds(configured.value);
      Ok(Some(b))
    else if "valid_min" in attrs then
      if "valid_max" !in attrs then Err(KeyError(Str("valid_max")))
      else if AsReal(attrs["valid_min"]).None? || AsReal(attrs["valid_max"]).None? then Err(TypeError)
      else Ok(Some((AsReal(attrs["valid_min"]).value, AsReal(attrs["valid_max"]).value)))
    else Ok(None)
  }

  /** `VIIRSJRRFileHandler._mask_invalid`: every value outside the valid range becomes
      missing; with no valid range the variable is returned as it is. */
  function MaskValidRange(v: Variable, info: Info): (r: Outcome<Variable>)
    ensures r.Ok? <==> ValidRange(info, v.attrs).Ok?
    ensures r.Err? ==> r.error == ValidRange(info, v.attrs).error
    ensures ValidRange(info, v.attrs) == Ok(None) ==> r == Ok(v)
    ensures r.Ok? ==> (r.value.dims == v.dims && r.value.shape == v.shape &&
                       r.value.attrs == v.attrs && r.value.coords == v.coords)
    ensures r.Ok? && ValidRange(info, v.attrs).value.Some? ==>
      var (lo, hi) := ValidRange(info, v.attrs).value.value;
      && |r.value.data| == |v.data|
      && r.value.data == MaskToRange(v.data, lo, hi)
      && forall i, j :: 0 <= i < |v.data| && 0 <= j < |v.data[i]| ==>
           |r.value.data[i]| == |v.data[i]| &&
           (r.value.data[i][j] != Missing <==> InRange(v.data[i][j], lo, hi))
  {
    var range :- ValidRange(info, v.attrs);
    if range.None? then Ok(v)
    else Ok(v.(data := MaskToRange(v.data, range.value.0, range.value.1)))
  }

  /** The units `get_dataset` gives the dataset: those configured for it, else the file's
      own, with a missing or `"unitless"` unit written `"1"`. */
  function TargetUnits(info: Info, fileAttrs: Info): (u: Attr)
    ensures u != Str("unitless")
    ensures "units" in info ==>
              u == (if info["units"] == Str("unitless") then Str("1") else info["units"])
    ensures "units" !in info && "units" in fileAttrs ==>
              u == (if fileAttrs["units"] == Str("unitless") then Str("1") else fileAttrs["units"])
    ensures "units" !in info && "units" !in fileAttrs ==> u == Str("1")
  {
    var chosen := if "units" in info then Some(info["units"])
                  else if "units" in fileAttrs then Some(fileAttrs["units"])
                  else None;
    if chosen.None? || chosen.value == Str("unitless") then Str("1") else chosen.value
  }

  /** Whether the data are turned into percentages: the target unit is `"%"` while the
      file stores a fraction (units `"1"` or `"unitless"`). */
  predicate ScalesToPercent(units: Attr, fileAttrs: Info)
  {
    units == Str("%") && "units" in fileAttrs && fileAttrs["units"] in {Str("1"), Str("unitless")}
  }

  /** A conversion to percent only ever happens because the configuration asks for `"%"`
      explicitly: the file's own units never lead to one. */
  lemma PercentOnlyWhenConfigured(info: Info, fileAttrs: Info)
    ensures ScalesToPercent(TargetUnits(info, fileAttrs), fileAttrs) <==>
      "units" in info && info["units"] == Str("%") &&
      "units" in fileAttrs && fileAttrs["units"] in {Str("1"), Str("unitless")}
  {
  }

  /** `data_arr *= 100.0`: every value multiplied by 100, missing values left missing. */
  function Percent(g: seq<seq<Cell>>): (r: seq<seq<Cell>>)
    ensures |r| == |g| && forall i :: 0 <= i < |g| ==> |r[i]| == |g[i]|
    ensures forall i, j :: 0 <= i < |g| && 0 <= j < |g[i]| ==>
      CellValue(r[i][j]) == (if CellValue(g[i][j]).Some? then Some(100.0 * CellValue(g[i][j]).value) else None)
  {
    seq(|g|, i requires 0 <= i < |g| =>
      seq(|g[i]|, j requires 0 <= j < |g[i]| =>
        (match g[i][j]
         case Missing => Missing
         case Float(x) => Float(100.0 * x)
         case Byte(b) => Float(100.0 * (b as int as real)))))
  }
}
