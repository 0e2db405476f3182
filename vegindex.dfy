/** The vegetation-index quality filter of `VIIRSSurfaceReflectanceWithVIHandler`: eight
    bit-field tests on three 8-bit surface-reflectance quality-flag grids at M-band
    (750 m) resolution, combined into one "bad pixel" test and upsampled 2x2 to I-band
    (375 m) resolution, where NDVI and EVI live. */
module VegIndex {
  import opened Wrappers
  import opened Data
  import opened Masking

  const QF1_NAME: string := "QF1 Surface Reflectance"
  const QF2_NAME: string := "QF2 Surface Reflectance"
  const QF7_NAME: string := "QF7 Surface Reflectance"

  // ---------------------------------------------------------------------------------
  // The tests, written as the handler writes them: mask, then compare.

  predicate HasSunGlint(qf1: bv8) { (qf1 & 0xC0) > 0 }              // 0b11000000
  predicate IsCloudy(qf1: bv8) { (qf1 & 0x0C) > 0 }                 // 0b00001100
  predicate PoorCloudQuality(qf1: bv8) { (qf1 & 0x03) < 0x02 }      // 0b00000011 < 0b10
  predicate HasSnowOrIce(qf2: bv8) { (qf2 & 0x20) > 0 }             // 0b00100000
  predicate HasCloudShadow(qf2: bv8) { (qf2 & 0x08) > 0 }           // 0b00001000
  predicate HasWater(qf2: bv8) { (qf2 & 0x07) <= 0x02 || (qf2 & 0x07) == 0x05 }
  predicate HasAerosols(qf7: bv8) { (qf7 & 0x0C) > 0x08 }           // 0b00001100 > 0b1000
  predicate AdjacentToCloud(qf7: bv8) { (qf7 & 0x02) > 0 }          // 0b00000010

  /** An M-band pixel is unacceptable for the vegetation indexes. */
  predicate IsBadPixel(qf1: bv8, qf2: bv8, qf7: bv8)
  {
    HasSunGlint(qf1) || IsCloudy(qf1) || PoorCloudQuality(qf1) ||
    HasSnowOrIce(qf2) || HasCloudShadow(qf2) || HasWater(qf2) ||
    HasAerosols(qf7) || AdjacentToCloud(qf7)
  }

  // ---------------------------------------------------------------------------------
  // The same tests, stated independently as values of bit fields.

  /** Bits `lo .. lo + width - 1` of a flag byte, shifted down to the low end. */
  function Field(b: bv8, lo: nat, width: nat): bv8
    requires lo + width <= 8
  {
    (b >> lo) & ((1 << width) - 1)
  }

  /** The quality rules, by field: sun glint (QF1 bits 6-7) or any cloud (QF1 bits 2-3)
      present, cloud-mask quality (QF1 bits 0-1) below "medium", snow or ice (QF2 bit 5),
      cloud shadow (QF2 bit 3), a land/water class (QF2 bits 0-2) of 0, 1, 2 or 5, high
      aerosol quantity (QF7 bits 2-3 both set) or adjacent cloud (QF7 bit 1). */
  ghost predicate BadByFields(qf1: bv8, qf2: bv8, qf7: bv8)
  {
    Field(qf1, 6, 2) != 0 || Field(qf1, 2, 2) != 0 || Field(qf1, 0, 2) < 2 ||
    Field(qf2, 5, 1) == 1 || Field(qf2, 3, 1) == 1 || Field(qf2, 0, 3) in {0, 1, 2, 5} ||
    Field(qf7, 2, 2) == 3 || Field(qf7, 1, 1) == 1
  }

  /** The masks the handler writes test exactly the listed bit fields. */
  lemma BadPixelByFields(qf1: bv8, qf2: bv8, qf7: bv8)
    ensures IsBadPixel(qf1, qf2, qf7) <==> BadByFields(qf1, qf2, qf7)
  {
  }

  // ---------------------------------------------------------------------------------
  // Grids

  /** The two grids have the same shape. */
  predicate SameShape<S, T>(a: seq<seq<S>>, b: seq<seq<T>>)
  {
    |a| == |b| && forall i :: 0 <= i < |a| ==> |a[i]| == |b[i]|
  }

  /** numpy's `repeat(2)` along one axis: every element twice, in order. */
  function RepeatTwice<T>(s: seq<T>): (r: seq<T>)
    ensures |r| == 2 * |s|
    ensures forall k :: 0 <= k < |r| ==> r[k] == s[k / 2]
  {
    if |s| == 0 then [] else [s[0], s[0]] + RepeatTwice(s[1..])
  }

  /** `has_sun_glint | is_cloudy | ... | adjacent_to_cloud`, element-wise. */
  function BadMask(qf1: seq<seq<bv8>>, qf2: seq<seq<bv8>>, qf7: seq<seq<bv8>>): (bad: seq<seq<bool>>)
    requires SameShape(qf1, qf2) && SameShape(qf1, qf7)
    ensures SameShape(bad, qf1)
    ensures forall i, j :: 0 <= i < |qf1| && 0 <= j < |qf1[i]| ==>
      bad[i][j] == IsBadPixel(qf1[i][j], qf2[i][j], qf7[i][j])
  {
    seq(|qf1|, i requires 0 <= i < |qf1| =>
      seq(|qf1[i]|, j requires 0 <= j < |qf1[i]| => IsBadPixel(qf1[i][j], qf2[i][j], qf7[i][j])))
  }

  /** `~bad.repeat(2, axis=1).repeat(2, axis=0)`. */
  function UpsampleNegated(bad: seq<seq<bool>>): seq<seq<bool>>
  {
    var wide := seq(|bad|, i requires 0 <= i < |bad| => RepeatTwice(bad[i]));
    var tall := RepeatTwice(wide);
    seq(|tall|, i requires 0 <= i < |tall| => seq(|tall[i]|, j requires 0 <= j < |tall[i]| => !tall[i][j]))
  }

  /** `_get_veg_index_good_mask` on the flag values: an I-band grid twice as tall and twice
      as wide as the M-band flags, in which pixel (i, j) is good exactly when M-band pixel
      (i / 2, j / 2) passes every quality test. */
  function GoodMask(qf1: seq<seq<bv8>>, qf2: seq<seq<bv8>>, qf7: seq<seq<bv8>>): (good: seq<seq<bool>>)
    requires IsRectangular(qf1) && SameShape(qf1, qf2) && SameShape(qf1, qf7)
    ensures |qf1| > 0 ==> IsGrid(good, 2 * |qf1|, 2 * |qf1[0]|)
    ensures |qf1| == 0 ==> good == []
    ensures forall i, j :: 0 <= i < |good| && 0 <= j < |good[i]| ==>
      good[i][j] == !IsBadPixel(qf1[i / 2][j / 2], qf2[i / 2][j / 2], qf7[i / 2][j / 2])
  {
    UpsampleNegated(BadMask(qf1, qf2, qf7))
  }

  /** The values of a quality-flag variable; bitwise `&` is a `TypeError` on anything but
      integers, which a missing (NaN) or floating-point cell is not. */
  function FlagGrid(v: Variable): (r: Outcome<seq<seq<bv8>>>)
    ensures r.Ok? <==> forall i, j :: 0 <= i < |v.data| && 0 <= j < |v.data[i]| ==> v.data[i][j].Byte?
    ensures r.Err? ==> r.error == TypeError
    ensures r.Ok? ==> SameShape(r.value, v.data)
    ensures r.Ok? ==>
      forall i, j :: 0 <= i < |v.data| && 0 <= j < |v.data[i]| ==> v.data[i][j] == Byte(r.value[i][j])
  {
    if forall i, j :: 0 <= i < |v.data| && 0 <= j < |v.data[i]| ==> v.data[i][j].Byte? then
      Ok(seq(|v.data|, i requires 0 <= i < |v.data| =>
        seq(|v.data[i]|, j requires 0 <= j < |v.data[i]| => v.data[i][j].b)))
    else Err(TypeError)
  }

  /** `_get_veg_index_good_mask`: read the three quality-flag variables (a `KeyError` if
      one is absent), combine them (a `ValueError` if their shapes differ) and upsample the
      result (a `ValueError` unless it is 2-D). */
  function VegIndexGoodMask(nc: Dataset): (r: Outcome<seq<seq<bool>>>)
    requires ValidDataset(nc)
    ensures QF1_NAME !in nc.vars ==> r == Err(KeyError(Str(QF1_NAME)))
    ensures QF1_NAME in nc.vars && FlagGrid(nc.vars[QF1_NAME]).Err? ==> r == Err(TypeError)
    ensures QF1_NAME in nc.vars && FlagGrid(nc.vars[QF1_NAME]).Ok? && QF2_NAME !in nc.vars ==>
              r == Err(KeyError(Str(QF2_NAME)))
    ensures QF1_NAME in nc.vars && FlagGrid(nc.vars[QF1_NAME]).Ok? &&
            QF2_NAME in nc.vars && FlagGrid(nc.vars[QF2_NAME]).Err? ==>
              r == Err(TypeError)
    ensures QF1_NAME in nc.vars && FlagGrid(nc.vars[QF1_NAME]).Ok? &&
            QF2_NAME in nc.vars && FlagGrid(nc.vars[QF2_NAME]).Ok? && QF7_NAME !in nc.vars ==>
              r == Err(KeyError(Str(QF7_NAME)))
    ensures QF1_NAME in nc.vars && FlagGrid(nc.vars[QF1_NAME]).Ok? &&
            QF2_NAME in nc.vars && FlagGrid(nc.vars[QF2_NAME]).Ok? &&
            QF7_NAME in nc.vars && FlagGrid(nc.vars[QF7_NAME]).Err? ==>
              r == Err(TypeError)
    ensures QF1_NAME in nc.vars && QF2_NAME in nc.vars && QF7_NAME in nc.vars &&
            FlagGrid(nc.vars[QF1_NAME]).Ok? && FlagGrid(nc.vars[QF2_NAME]).Ok? && FlagGrid(nc.vars[QF7_NAME]).Ok? &&
            (nc.vars[QF2_NAME].shape != nc.vars[QF1_NAME].shape || nc.vars[QF7_NAME].shape != nc.vars[QF1_NAME].shape ||
             |nc.vars[QF1_NAME].shape| != 2) ==>
              r == Err(ValueError)
    ensures r.Ok? <==>
      && QF1_NAME in nc.vars && QF2_NAME in nc.vars && QF7_NAME in nc.vars
      && FlagGrid(nc.vars[QF1_NAME]).Ok? && FlagGrid(nc.vars[QF2_NAME]).Ok? && FlagGrid(nc.vars[QF7_NAME]).Ok?
      && nc.vars[QF2_NAME].shape == nc.vars[QF1_NAME].shape && nc.vars[QF7_NAME].shape == nc.vars[QF1_NAME].shape
      && |nc.vars[QF1_NAME].shape| == 2
    ensures r.Err? ==> r.error in {KeyError(Str(QF1_NAME)), KeyError(Str(QF2_NAME)), KeyError(Str(QF7_NAME)),
                                   TypeError, ValueError}
    ensures r.Ok? ==>
      && QF1_NAME in nc.vars && QF2_NAME in nc.vars && QF7_NAME in nc.vars
      && var v1, v2, v7 := nc.vars[QF1_NAME], nc.vars[QF2_NAME], nc.vars[QF7_NAME];
      && |v1.shape| == 2 && v2.shape == v1.shape && v7.shape == v1.shape
      && IsGrid(r.value, 2 * v1.shape[0], 2 * v1.shape[1])
      && forall i, j :: 0 <= i < |r.value| && 0 <= j < |r.value[i]| ==>
           && v1.data[i / 2][j / 2].Byte? && v2.data[i / 2][j / 2].Byte? && v7.data[i / 2][j / 2].Byte?
           && (r.value[i][j] <==>
                !IsBadPixel(v1.data[i / 2][j / 2].b, v2.data[i / 2][j / 2].b, v7.data[i / 2][j / 2].b))
  {
    if QF1_NAME !in nc.vars then Err(KeyError(Str(QF1_NAME)))
    else
      var qf1 :- FlagGrid(nc.vars[QF1_NAME]);
      if QF2_NAME !in nc.vars then Err(KeyError(Str(QF2_NAME)))
      else
        var qf2 :- FlagGrid(nc.vars[QF2_NAME]);
        if QF7_NAME !in nc.vars then Err(KeyError(Str(QF7_NAME)))
        else
          var qf7 :- FlagGrid(nc.vars[QF7_NAME]);
          var shape := nc.vars[QF1_NAME].shape;
          if nc.vars[QF2_NAME].shape != shape || nc.vars[QF7_NAME].shape != shape then Err(ValueError)
          else if |shape| != 2 then Err(ValueError)
          else Ok(GoodMask(qf1, qf2, qf7))
  }

  /** `new_data_arr.where(good_mask)`: cells where the mask is false become missing; the
      mask must have the data's shape. */
  function ApplyGoodMask(data: seq<seq<Cell>>, good: seq<seq<bool>>): (r: Outcome<seq<seq<Cell>>>)
    ensures r.Ok? <==> SameShape(data, good)
    ensures r.Err? ==> r.error == ValueError
    ensures r.Ok? ==> SameShape(r.value, data)
    ensures r.Ok? ==>
      forall i, j :: 0 <= i < |data| && 0 <= j < |data[i]| ==>
        r.value[i][j] == (if good[i][j] then AsFloat(data[i][j]) else Missing)
  {
    if SameShape(data, good) then
      Ok(seq(|data|, i requires 0 <= i < |data| =>
        seq(|data[i]|, j requires 0 <= j < |data[i]| => if good[i][j] then AsFloat(data[i][j]) else Missing)))
    else Err(ValueError)
  }

  /** `VIIRSSurfaceReflectanceWithVIHandler._mask_invalid`: the valid-range mask, then,
      for NDVI and EVI when filtering is on, the vegetation-index quality mask. */
  function MaskInvalidWithVI(nc: Dataset, filterVeg: bool, v: Variable, info: Info): (r: Outcome<Variable>)
    requires ValidDataset(nc)
    ensures "file_key" !in info && MaskValidRange(v, info).Ok? ==> r == Err(KeyError(Str("file_key")))
    ensures "file_key" in info && !(filterVeg && info["file_key"] in {Str("NDVI"), Str("EVI")}) ==>
              r == MaskValidRange(v, info)
    ensures MaskValidRange(v, info).Err? ==> r == MaskValidRange(v, info)
    ensures r.Ok? ==> MaskValidRange(v, info).Ok?
    ensures r.Ok? ==>
      var base := MaskValidRange(v, info).value;
      (r.value.dims == base.dims && r.value.shape == base.shape &&
       r.value.attrs == base.attrs && r.value.coords == base.coords)
    ensures "file_key" in info && filterVeg && info["file_key"] in {Str("NDVI"), Str("EVI")} &&
            MaskValidRange(v, info).Ok? ==>
      (r.Ok? <==> VegIndexGoodMask(nc).Ok? && SameShape(MaskValidRange(v, info).value.data, VegIndexGoodMask(nc).value))
    ensures "file_key" in info && filterVeg && info["file_key"] in {Str("NDVI"), Str("EVI")} &&
            MaskValidRange(v, info).Ok? && VegIndexGoodMask(nc).Err? ==>
              r == Err(VegIndexGoodMask(nc).error)
    ensures "file_key" in info && filterVeg && info["file_key"] in {Str("NDVI"), Str("EVI")} &&
            MaskValidRange(v, info).Ok? && VegIndexGoodMask(nc).Ok? &&
            !SameShape(MaskValidRange(v, info).value.data, VegIndexGoodMask(nc).value) ==>
              r == Err(ValueError)
    ensures r.Ok? && filterVeg && info["file_key"] in {Str("NDVI"), Str("EVI")} ==>
      var base := MaskValidRange(v, info).value;
      var good := VegIndexGoodMask(nc);
      good.Ok? && SameShape(base.data, good.value) && SameShape(r.value.data, base.data) &&
      forall i, j :: 0 <= i < |base.data| && 0 <= j < |base.data[i]| ==>
        r.value.data[i][j] == (if good.value[i][j] then AsFloat(base.data[i][j]) else Missing)
  {
    var base :- MaskValidRange(v, info);
    if "file_key" !in info then Err(KeyError(Str("file_key")))
    else if info["file_key"] in {Str("NDVI"), Str("EVI")} && filterVeg then
      var good :- VegIndexGoodMask(nc);
      var data :- ApplyGoodMask(base.data, good);
      Ok(base.(data := data))
    else Ok(base)
  }
}
