/** The file handlers of the VIIRS JRR EDR reader: `VIIRSJRRFileHandler` and its
    surface-reflectance subclass `VIIRSSurfaceReflectanceWithVIHandler`, over a file
    already opened into a `Dataset`. */
module Handler {
  import opened Wrappers
  import opened Data
  import opened Strings
  import Masking
  import Metadata
  import VegIndex
  import Dims
  import opened Availability

  /** Which handler class reads the file; the surface-reflectance handler carries its
      `filter_veg` switch. */
  datatype HandlerKind = Jrr | SurfaceReflectanceWithVI(filterVeg: bool)

  /** The attributes `get_dataset` gives a variable whose own attributes are `attrs`:
      normalised units, the configured standard name, decoded flag meanings, and the
      platform, sensor and rows per scan; every other attribute is kept. */
  function DatasetAttrs(attrs: Info, info: Info, platform: string, sensor: string, rowsPerScan: int): (r: Info)
    ensures r.Keys == attrs.Keys + {"units", "platform_name", "sensor", "rows_per_scan"}
                      + (if "standard_name" in info then {"standard_name"} else {})
    ensures "units" in r && r["units"] == Masking.TargetUnits(info, attrs) && r["units"] != Str("unitless")
    ensures "platform_name" in r && r["platform_name"] == Str(platform)
    ensures "sensor" in r && r["sensor"] == Str(sensor)
    ensures "rows_per_scan" in r && r["rows_per_scan"] == Int(rowsPerScan)
    ensures "standard_name" in info ==> r["standard_name"] == info["standard_name"]
    ensures "standard_name" !in info && "standard_name" in attrs ==> r["standard_name"] == attrs["standard_name"]
    ensures forall k :: (k in attrs && k !in {"units", "standard_name", "flag_meanings",
                                             "platform_name", "sensor", "rows_per_scan"}) ==> r[k] == attrs[k]
    ensures "flag_meanings" in attrs && attrs["flag_meanings"].Str? && '\n' !in attrs["flag_meanings"].s ==>
      && r["flag_meanings"].Strs?
      && Join(r["flag_meanings"].items, ' ') == attrs["flag_meanings"].s
      && forall k :: 0 <= k < |r["flag_meanings"].items| ==> ' ' !in r["flag_meanings"].items[k]
    ensures "flag_meanings" in attrs && !(attrs["flag_meanings"].Str? && '\n' !in attrs["flag_meanings"].s) ==>
      r["flag_meanings"] == attrs["flag_meanings"]
  {
    var withUnits := attrs["units" := Masking.TargetUnits(info, attrs)];
    var withName := if "standard_name" in info then withUnits["standard_name" := info["standard_name"]]
                    else withUnits;
    Metadata.DecodeFlagMeanings(withName)["platform_name" := Str(platform)]["sensor" := Str(sensor)]
                                         ["rows_per_scan" := Int(rowsPerScan)]
  }

  class FileHandler {
    /** The opened file, after the dimension renaming and geolocation naming of `__init__`. */
    const nc: Dataset
    const filenameInfo: Info
    /** `filetype_info["file_type"]`. */
    const fileType: string
    const algorithmVersion: Attr
    const sensorName: string
    const kind: HandlerKind
    /** `BaseFileHandler.file_type_matches`, answering whether a configured `file_type`
        is this handler's. */
    const fileTypeMatches: Attr -> bool

    ghost predicate Valid()
    {
      && ValidDataset(nc)
      && "platform_shortname" in filenameInfo
      && algorithmVersion == filenameInfo["platform_shortname"]
      && sensorName == "viirs"
    }

    constructor (nc: Dataset, filenameInfo: Info, fileType: string, kind: HandlerKind,
                 fileTypeMatches: Attr -> bool)
      requires ValidDataset(nc) && "platform_shortname" in filenameInfo
      ensures Valid()
      ensures this.nc == nc && this.filenameInfo == filenameInfo && this.fileType == fileType
      ensures this.kind == kind && this.fileTypeMatches == fileTypeMatches
    {
      this.nc := nc;
      this.filenameInfo := filenameInfo;
      this.fileType := fileType;
      this.algorithmVersion := filenameInfo["platform_shortname"];
      this.sensorName := "viirs";
      this.kind := kind;
      this.fileTypeMatches := fileTypeMatches;
    }

    /** `__init__` once the file is open: the swath dimensions are renamed to `y`/`x`
        (xarray's `ValueError` when a name to rename is absent), `Latitude` and
        `Longitude` get their standard names, and the platform short name of the file
        name becomes the algorithm version (a `KeyError` when it is missing). */
    static method Open(raw: Dataset, filenameInfo: Info, fileType: string, kind: HandlerKind,
                       fileTypeMatches: Attr -> bool) returns (r: Outcome<FileHandler>)
      requires ValidDataset(raw)
      ensures Dims.NormalizeDims(raw).Err? ==> r == Err(ValueError)
      ensures Dims.NormalizeDims(raw).Ok? && "platform_shortname" !in filenameInfo ==>
                r == Err(KeyError(Str("platform_shortname")))
      ensures r.Ok? <==> Dims.NormalizeDims(raw).Ok? && "platform_shortname" in filenameInfo
      ensures r.Ok? ==>
        && fresh(r.value) && r.value.Valid()
        && r.value.nc == Dims.WithGeolocationNames(Dims.NormalizeDims(raw).value)
        && r.value.algorithmVersion == filenameInfo["platform_shortname"]
        && r.value.kind == kind && r.value.fileType == fileType
        && r.value.fileTypeMatches == fileTypeMatches
    {
      var renamed := Dims.NormalizeDims(raw);
      if renamed.Err? {
        return Err(renamed.error);
      }
      var nc := renamed.value;
      Dims.NormalizeDimsResult(raw);
      nc := Dims.WithGeolocationNames(nc);
      Dims.WithGeolocationNamesValid(renamed.value);
      if "platform_shortname" !in filenameInfo {
        return Err(KeyError(Str("platform_shortname")));
      }
      var h := new FileHandler(nc, filenameInfo, fileType, kind, fileTypeMatches);
      r := Ok(h);
    }

    /** `_mask_invalid`, as the handler's class defines it. */
    function MaskInvalid(v: Variable, info: Info): (r: Outcome<Variable>)
      requires Valid()
      ensures r.Ok? ==> Masking.MaskValidRange(v, info).Ok?
      ensures r.Ok? ==> r.value.dims == v.dims && r.value.shape == v.shape &&
                        r.value.attrs == v.attrs && r.value.coords == v.coords
      ensures kind.Jrr? ==> r == Masking.MaskValidRange(v, info)
      ensures kind.SurfaceReflectanceWithVI? ==> r == VegIndex.MaskInvalidWithVI(nc, kind.filterVeg, v, info)
    {
      if kind.Jrr? then Masking.MaskValidRange(v, info)
      else VegIndex.MaskInvalidWithVI(nc, kind.filterVeg, v, info)
    }

    /** `platform_name`: the long name of the platform the file name's short name
        stands for. */
    function PlatformName(): (r: Outcome<string>)
      ensures "platform_shortname" !in filenameInfo ==> r == Err(KeyError(Str("platform_shortname")))
      ensures "platform_shortname" in filenameInfo ==> r == Metadata.PlatformName(filenameInfo["platform_shortname"])
      ensures r.Ok? ==> r.value in {"Suomi-NPP", "NOAA-20", "NOAA-21"}
    {
      if "platform_shortname" !in filenameInfo then Err(KeyError(Str("platform_shortname")))
      else
        Metadata.PlatformNameRange(filenameInfo["platform_shortname"]);
        Metadata.PlatformName(filenameInfo["platform_shortname"])
    }

    /** `get_dataset`: the variable `file_key` names, masked, with its units normalised
        (fractions scaled to percent when asked for), its standard name from the
        configuration, its flag meanings decoded, the platform, sensor and rows per scan
        recorded, and, for longitude and latitude, its coordinates dropped. */
    method GetDataset(info: Info) returns (r: Outcome<Variable>)
      requires Valid()
      ensures "file_key" !in info ==> r == Err(KeyError(Str("file_key")))
      ensures "file_key" in info && !(info["file_key"].Str? && info["file_key"].s in nc.vars) ==>
                r == Err(KeyError(info["file_key"]))
      ensures r.Ok? ==> "file_key" in info && info["file_key"].Str? && info["file_key"].s in nc.vars
      ensures r.Ok? <==>
        && "file_key" in info && info["file_key"].Str? && info["file_key"].s in nc.vars
        && MaskInvalid(nc.vars[info["file_key"].s], info).Ok?
        && PlatformName().Ok?
        && |nc.vars[info["file_key"].s].shape| >= 2
      ensures "file_key" in info && info["file_key"].Str? && info["file_key"].s in nc.vars ==>
        var v := nc.vars[info["file_key"].s];
        && (MaskInvalid(v, info).Err? ==> r == Err(MaskInvalid(v, info).error))
        && (MaskInvalid(v, info).Ok? && PlatformName().Err? ==> r == Err(PlatformName().error))
        && (MaskInvalid(v, info).Ok? && PlatformName().Ok? && |v.shape| < 2 ==> r == Err(IndexError))
      ensures r.Ok? ==>
        var v := nc.vars[info["file_key"].s];
        var masked := MaskInvalid(v, info).value;
        && r.value.dims == v.dims && r.value.shape == v.shape
        && r.value.data == (if Masking.ScalesToPercent(Masking.TargetUnits(info, v.attrs), v.attrs)
                            then Masking.Percent(masked.data) else masked.data)
        && r.value.attrs == DatasetAttrs(v.attrs, info, PlatformName().value, "viirs",
                                         if v.shape[1] == Metadata.M_COLS then 16 else 32)
      ensures r.Ok? ==>
        var v := nc.vars[info["file_key"].s];
        var geolocation := "standard_name" in r.value.attrs &&
                           r.value.attrs["standard_name"] in {Str("longitude"), Str("latitude")};
        r.value.coords == (if geolocation then {} else v.coords)
    {
      if "file_key" !in info {
        return Err(KeyError(Str("file_key")));
      }
      var key := info["file_key"];
      if !(key.Str? && key.s in nc.vars) {
        return Err(KeyError(key));
      }
      var v := nc.vars[key.s];
      var masked := MaskInvalid(v, info);
      if masked.Err? {
        return Err(masked.error);
      }
      var dataArr := masked.value;
      var units := Masking.TargetUnits(info, dataArr.attrs);
      if Masking.ScalesToPercent(units, dataArr.attrs) {
        dataArr := dataArr.(data := Masking.Percent(dataArr.data));
      }
      var attrs := dataArr.attrs["units" := units];
      if "standard_name" in info {
        attrs := attrs["standard_name" := info["standard_name"]];
      }
      attrs := Metadata.DecodeFlagMeanings(attrs);
      var platform := PlatformName();
      if platform.Err? {
        return Err(platform.error);
      }
      attrs := attrs["platform_name" := Str(platform.value)];
      attrs := attrs["sensor" := Str(sensorName)];
      var rows := Metadata.RowsPerScan(dataArr.shape);
      if rows.Err? {
        return Err(rows.error);
      }
      attrs := attrs["rows_per_scan" := Int(rows.value)];
      assert attrs == DatasetAttrs(v.attrs, info, platform.value, sensorName, rows.value);
      dataArr := dataArr.(attrs := attrs);
      if "standard_name" in attrs && attrs["standard_name"] in {Str("longitude"), Str("latitude")} {
        dataArr := dataArr.(coords := {});
      }
      r := Ok(dataArr);
    }

    /** `_dynamic_variables_from_file`: walks the file's variables in order and yields a
        generated description for each 2-D one the configuration does not already cover. */
    method DynamicVariablesFromFile(handled: set<Attr>) returns (out: seq<Availability>)
      requires Valid()
      ensures out == DynamicOutputs(nc.names, nc.vars, handled, fileType)
    {
      var mLon, mLat := "longitude_" + fileType, "latitude_" + fileType;
      var iLon, iLat := "longitude_i_" + fileType, "latitude_i_" + fileType;
      out := [];
      var names := nc.names;
      var i := 0;
      while i < |names|
        invariant 0 <= i <= |names|
        invariant out == DynamicOutputs(names[..i], nc.vars, handled, fileType)
      {
        var name := names[i];
        var dataArr := nc.vars[name];
        var isLon := Contains(Lower(name), "longitude");
        var isLat := Contains(Lower(name), "latitude");
        assert names[..i + 1][..i] == names[..i];
        if Str(name) in handled && !(isLon || isLat) {
          i := i + 1;
          continue;
        }
        if |dataArr.shape| != 2 {
          i := i + 1;
          continue;
        }
        var res := if dataArr.shape[1] == Metadata.M_COLS then 750 else 375;
        var dsInfo: Info := map[
          "file_key" := Str(name),
          "file_type" := Str(fileType),
          "name" := Str(name),
          "resolution" := Int(res),
          "coordinates" := Strs(if res == 750 then [mLon, mLat] else [iLon, iLat])];
        if isLon {
          dsInfo := dsInfo["standard_name" := Str("longitude")];
          dsInfo := dsInfo["units" := Str("degrees_east")];
          dsInfo := dsInfo["name" := Str(if res == 750 then mLon else iLon)];
          dsInfo := dsInfo - {"coordinates"};
        } else if isLat {
          dsInfo := dsInfo["standard_name" := Str("latitude")];
          dsInfo := dsInfo["units" := Str("degrees_north")];
          dsInfo := dsInfo["name" := Str(if res == 750 then mLat else iLat)];
          dsInfo := dsInfo - {"coordinates"};
        }
        out := out + [Availability(Some(true), dsInfo)];
        i := i + 1;
      }
      assert names[..i] == names;
    }

    /** `available_datasets`: the configured entries, passed on or answered for this file,
        then the datasets discovered in the file. The pairs yielded before an exception
        are in `out` and the exception in `err`. As in the source, an unclaimed entry of
        another file type is yielded twice: unclaimed, and then with its presence in the
        file. */
    method AvailableDatasets(entries: seq<Availability>) returns (out: seq<Availability>, err: Option<Error>)
      requires Valid()
      ensures var p := ConfiguredAsWritten(entries, nc.vars.Keys, fileTypeMatches);
        && err == p.error
        && out == p.items + (if p.error.None? then DynamicOutputs(nc.names, nc.vars, p.handled, fileType) else [])
    {
      var handledVarNames: set<Attr> := {};
      out := [];
      var i := 0;
      while i < |entries|
        invariant 0 <= i <= |entries|
        invariant ConfiguredAsWritten(entries[..i], nc.vars.Keys, fileTypeMatches) == Progress(out, handledVarNames, None)
      {
        var isAvail, dsInfo := entries[i].avail, entries[i].info;
        assert entries[..i + 1][..i] == entries[..i];
        ghost var q := ConfiguredStepAsWritten(Progress(out, handledVarNames, None), entries[i], nc.vars.Keys,
                                               fileTypeMatches);
        assert ConfiguredAsWritten(entries[..i + 1], nc.vars.Keys, fileTypeMatches) == q;
        var fileKey := FileKey(dsInfo);
        if fileKey.Err? {
          ConfiguredAsWrittenStopsAtError(entries, i + 1, nc.vars.Keys, fileTypeMatches);
          return out, Some(fileKey.error);
        }
        handledVarNames := handledVarNames + {fileKey.value};
        if isAvail.Some? {
          out := out + [entries[i]];
          i := i + 1;
          continue;
        }
        if "file_type" !in dsInfo {
          ConfiguredAsWrittenStopsAtError(entries, i + 1, nc.vars.Keys, fileTypeMatches);
          return out, Some(KeyError(Str("file_type")));
        }
        if !fileTypeMatches(dsInfo["file_type"]) {
          out := out + [Availability(None, dsInfo)];
        }
        out := out + [Availability(Some(fileKey.value.Str? && fileKey.value.s in nc.vars), dsInfo)];
        i := i + 1;
      }
      assert entries[..i] == entries;
      var dynamic := DynamicVariablesFromFile(handledVarNames);
      out := out + dynamic;
      err := None;
    }
  }
}
