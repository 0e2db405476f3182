/** The dataset preparation `VIIRSJRRFileHandler.__init__` does once the file is open:
    renaming the swath dimensions to `y`/`x` and giving the geolocation variables the
    `standard_name` some files omit. */
module Dims {
  import opened Wrappers
  import opened Data

  function RenameDim(d: string, renames: map<string, string>): string
  {
    if d in renames then renames[d] else d
  }

  /** `w` is `v` with its dimensions renamed and nothing else changed. */
  ghost predicate Renamed(v: Variable, w: Variable, renames: map<string, string>)
  {
    && w.shape == v.shape && w.attrs == v.attrs && w.data == v.data && w.coords == v.coords
    && |w.dims| == |v.dims|
    && forall k :: 0 <= k < |v.dims| ==> w.dims[k] == RenameDim(v.dims[k], renames)
  }

  /** Every name to rename is a dimension or a variable of the dataset. */
  predicate CanRename(ds: Dataset, renames: map<string, string>)
  {
    forall from :: from in renames ==> HasDim(ds, from) || from in ds.vars
  }

  /** `ds.rename(renames)` on dimension names: every key must name a dimension or a
      variable of the dataset (otherwise xarray raises `ValueError`), and every dimension
      named by a key is renamed in every variable. */
  function RenameDims(ds: Dataset, renames: map<string, string>): (r: Outcome<Dataset>)
    ensures r.Ok? <==> CanRename(ds, renames)
    ensures r.Err? ==> r.error == ValueError
    ensures r.Ok? ==> r.value.names == ds.names && r.value.vars.Keys == ds.vars.Keys
    ensures r.Ok? ==> forall n :: n in ds.vars ==> Renamed(ds.vars[n], r.value.vars[n], renames)
  {
    if !CanRename(ds, renames) then Err(ValueError)
    else
      Ok(Dataset(ds.names, map n | n in ds.vars ::
        ds.vars[n].(dims := seq(|ds.vars[n].dims|, k requires 0 <= k < |ds.vars[n].dims| =>
                                  RenameDim(ds.vars[n].dims[k], renames)))))
  }

  /** Renaming keeps a dataset well formed. */
  lemma RenameDimsValid(ds: Dataset, renames: map<string, string>)
    requires ValidDataset(ds)
    requires RenameDims(ds, renames).Ok?
    ensures ValidDataset(RenameDims(ds, renames).value)
  {
    var r := RenameDims(ds, renames).value;
    forall n | n in r.vars ensures WellFormed(r.vars[n]) {
      assert WellFormed(ds.vars[n]);
    }
  }

  /** A renamed dimension is gone afterwards, unless some renaming brings the name back. */
  lemma RenameDimsRemoves(ds: Dataset, renames: map<string, string>, d: string)
    requires RenameDims(ds, renames).Ok?
    requires d in renames && forall from :: from in renames ==> renames[from] != d
    ensures !HasDim(RenameDims(ds, renames).value, d)
  {
  }

  const M_RENAMES: map<string, string> := map["Columns" := "x", "Rows" := "y"]
  const I_RENAMES: map<string, string> := map["Along_Scan_375m" := "x", "Along_Track_375m" := "y"]
  const M_RENAMES_SR: map<string, string> := map["Along_Scan_750m" := "x", "Along_Track_750m" := "y"]

  /** The dimension renaming of `__init__`: files with `Columns` have `Columns`/`Rows`
      renamed; files with `Along_Track_375m` have both the 375 m and the 750 m swath
      dimensions renamed, in two steps; other files are left as they are. */
  function NormalizeDims(ds: Dataset): (r: Outcome<Dataset>)
    ensures !HasDim(ds, "Columns") && !HasDim(ds, "Along_Track_375m") ==> r == Ok(ds)
    ensures HasDim(ds, "Columns") ==> r == RenameDims(ds, M_RENAMES)
    ensures !HasDim(ds, "Columns") && HasDim(ds, "Along_Track_375m") ==>
              r == (if RenameDims(ds, I_RENAMES).Err? then Err(ValueError)
                    else RenameDims(RenameDims(ds, I_RENAMES).value, M_RENAMES_SR))
    ensures r.Err? ==> r.error == ValueError
  {
    if HasDim(ds, "Columns") then RenameDims(ds, M_RENAMES)
    else if HasDim(ds, "Along_Track_375m") then
      var once :- RenameDims(ds, I_RENAMES);
      RenameDims(once, M_RENAMES_SR)
    else Ok(ds)
  }

  /** A renaming introduces no dimension name other than its new names. */
  lemma RenameDimsKeepsAbsent(ds: Dataset, renames: map<string, string>, d: string)
    requires RenameDims(ds, renames).Ok?
    requires !HasDim(ds, d) && forall from :: from in renames ==> renames[from] != d
    ensures !HasDim(RenameDims(ds, renames).value, d)
  {
  }

  /** Files with `Columns`: neither `Columns` nor `Rows` is left. */
  lemma NormalizeColumnsResult(ds: Dataset)
    requires ValidDataset(ds)
    requires RenameDims(ds, M_RENAMES).Ok?
    ensures ValidDataset(RenameDims(ds, M_RENAMES).value)
    ensures !HasDim(RenameDims(ds, M_RENAMES).value, "Columns")
    ensures !HasDim(RenameDims(ds, M_RENAMES).value, "Rows")
  {
    RenameDimsValid(ds, M_RENAMES);
    RenameDimsRemoves(ds, M_RENAMES, "Columns");
    RenameDimsRemoves(ds, M_RENAMES, "Rows");
  }

  /** Files with 375 m and 750 m swath dimensions: none of the four is left. */
  lemma NormalizeSwathResult(ds: Dataset)
    requires ValidDataset(ds)
    requires RenameDims(ds, I_RENAMES).Ok?
    requires RenameDims(RenameDims(ds, I_RENAMES).value, M_RENAMES_SR).Ok?
    ensures var twice := RenameDims(RenameDims(ds, I_RENAMES).value, M_RENAMES_SR).value;
      && ValidDataset(twice)
      && !HasDim(twice, "Along_Scan_375m") && !HasDim(twice, "Along_Track_375m")
      && !HasDim(twice, "Along_Scan_750m") && !HasDim(twice, "Along_Track_750m")
  {
    var once := RenameDims(ds, I_RENAMES).value;
    RenameDimsValid(ds, I_RENAMES);
    RenameDimsValid(once, M_RENAMES_SR);
    SwathIBandGone(ds, once);
    SwathMBandGone(once);
  }

  lemma SwathIBandGone(ds: Dataset, once: Dataset)
    requires RenameDims(ds, I_RENAMES) == Ok(once)
    requires RenameDims(once, M_RENAMES_SR).Ok?
    ensures !HasDim(RenameDims(once, M_RENAMES_SR).value, "Along_Scan_375m")
    ensures !HasDim(RenameDims(once, M_RENAMES_SR).value, "Along_Track_375m")
  {
    RenameDimsRemoves(ds, I_RENAMES, "Along_Scan_375m");
    RenameDimsRemoves(ds, I_RENAMES, "Along_Track_375m");
    RenameDimsKeepsAbsent(once, M_RENAMES_SR, "Along_Scan_375m");
    RenameDimsKeepsAbsent(once, M_RENAMES_SR, "Along_Track_375m");
  }

  lemma SwathMBandGone(once: Dataset)
    requires RenameDims(once, M_RENAMES_SR).Ok?
    ensures !HasDim(RenameDims(once, M_RENAMES_SR).value, "Along_Scan_750m")
    ensures !HasDim(RenameDims(once, M_RENAMES_SR).value, "Along_Track_750m")
  {
    RenameDimsRemoves(once, M_RENAMES_SR, "Along_Scan_750m");
    RenameDimsRemoves(once, M_RENAMES_SR, "Along_Track_750m");
  }

  /** After a successful renaming the dataset is still well formed and none of the
      renamed swath dimensions is left. */
  lemma NormalizeDimsResult(ds: Dataset)
    requires ValidDataset(ds)
    requires NormalizeDims(ds).Ok?
    ensures ValidDataset(NormalizeDims(ds).value)
    ensures HasDim(ds, "Columns") ==>
      !HasDim(NormalizeDims(ds).value, "Columns") && !HasDim(NormalizeDims(ds).value, "Rows")
    ensures !HasDim(ds, "Columns") && HasDim(ds, "Along_Track_375m") ==>
      && !HasDim(NormalizeDims(ds).value, "Along_Scan_375m")
      && !HasDim(NormalizeDims(ds).value, "Along_Track_375m")
      && !HasDim(NormalizeDims(ds).value, "Along_Scan_750m")
      && !HasDim(NormalizeDims(ds).value, "Along_Track_750m")
  {
    if HasDim(ds, "Columns") {
      NormalizeColumnsResult(ds);
    } else if HasDim(ds, "Along_Track_375m") {
      NormalizeSwathResult(ds);
    }
  }

  /** `nc[name].attrs.update({'standard_name': standard})` when the variable exists. */
  function SetStandardName(ds: Dataset, name: string, standard: string): (r: Dataset)
    ensures r.names == ds.names && r.vars.Keys == ds.vars.Keys
    ensures name in ds.vars ==> r.vars[name] == ds.vars[name].(attrs := ds.vars[name].attrs["standard_name" := Str(standard)])
    ensures forall n :: n in ds.vars && n != name ==> r.vars[n] == ds.vars[n]
  {
    if name in ds.vars then
      Dataset(ds.names, ds.vars[name := ds.vars[name].(attrs := ds.vars[name].attrs["standard_name" := Str(standard)])])
    else ds
  }

  /** `Latitude` and `Longitude` are given the standard names `latitude` and `longitude`. */
  function WithGeolocationNames(ds: Dataset): (r: Dataset)
    ensures r.names == ds.names && r.vars.Keys == ds.vars.Keys
    ensures "Latitude" in ds.vars ==>
      r.vars["Latitude"].attrs == ds.vars["Latitude"].attrs["standard_name" := Str("latitude")]
    ensures "Longitude" in ds.vars ==>
      r.vars["Longitude"].attrs == ds.vars["Longitude"].attrs["standard_name" := Str("longitude")]
    ensures forall n :: n in ds.vars ==>
      var (v, w) := (ds.vars[n], r.vars[n]);
      w.dims == v.dims && w.shape == v.shape && w.data == v.data && w.coords == v.coords
    ensures forall n :: n in ds.vars && n != "Latitude" && n != "Longitude" ==> r.vars[n] == ds.vars[n]
  {
    SetStandardName(SetStandardName(ds, "Latitude", "latitude"), "Longitude", "longitude")
  }

  lemma WithGeolocationNamesValid(ds: Dataset)
    requires ValidDataset(ds)
    ensures ValidDataset(WithGeolocationNames(ds))
  {
    var r := WithGeolocationNames(ds);
    forall n | n in r.vars ensures WellFormed(r.vars[n]) {
      assert WellFormed(ds.vars[n]);
    }
  }
}
