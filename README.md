# VIIRS JRR EDR file handler, modelled in Dafny

This project models the decision logic of satpy's reader for VIIRS Enterprise
Environmental Data Records (`satpy/readers/viirs_edr.py`), with the NetCDF file taken
as already open. It covers:

- how `VIIRSJRRFileHandler` prepares the opened file: swath dimensions renamed to
  `y`/`x`, and `Latitude`/`Longitude` given standard names;
- how it turns one variable into a dataset (`get_dataset`): valid-range masking,
  units normalisation and percent scaling, standard name, CF flag meanings, platform,
  sensor and rows per scan, and dropping coordinates from geolocation;
- how it reports available datasets: the configured entries first, then the 2-D
  variables it discovers in the file, each with a generated description;
- the vegetation-index quality mask of `VIIRSSurfaceReflectanceWithVIHandler`. It
  applies eight bit-field tests on three 8-bit quality-flag grids and upsamples the
  result 2×2 from M-band (750 m) to I-band (375 m) resolution.

Modules, one per concern:

| file | module | what |
|---|---|---|
| `wrappers.dfy` | `Wrappers` | `Option`, `Result` |
| `strings.dfy` | `Strings` | `str.split(' ')`/`' '.join`, ASCII `upper`/`lower`, `in` on strings |
| `data.dfy` | `Data` | attributes, cells, variables, the opened file, Python exceptions |
| `masking.dfy` | `Masking` | `_mask_invalid`, units normalisation |
| `metadata.dfy` | `Metadata` | `rows_per_scans`, resolution, `_decode_flag_meanings`, `platform_name` |
| `vegindex.dfy` | `VegIndex` | `_get_veg_index_good_mask` and the subclass's `_mask_invalid` |
| `dims.dfy` | `Dims` | the dimension renaming and geolocation naming of `__init__` |
| `availability.dfy` | `Availability` | what `available_datasets` and `_dynamic_variables_from_file` yield |
| `handler.dfy` | `Handler` | the `FileHandler` class: `Open`, `GetDataset`, `DynamicVariablesFromFile`, `AvailableDatasets` |

Modelling choices:

- **Exceptions.** Python exceptions are the `Err` values of `Outcome` (`KeyError`,
  `IndexError`, `TypeError`, `ValueError`, `AttributeError`), raised in the order the
  source raises them.
- **Array cells.** A cell is a float, an 8-bit flag value, or missing (NaN). `where`
  turns the cells it keeps into floats.
- **The file.** It is an ordered list of variable names plus a map from name to
  variable. The order matters because datasets are discovered in file order.
- **The two handler classes.** They are one class with a `HandlerKind` field, which
  carries the surface-reflectance handler's `filter_veg` switch.
- **`file_type_matches`.** It belongs to `BaseFileHandler`
  (`satpy/readers/file_handlers.py`), which is not part of this model. It is a field
  `fileTypeMatches: Attr -> bool`, where `false` stands for the `None` it returns for
  another file type.
- **The generator.** `available_datasets` is a method returning the pairs it yields and
  the exception that ended it, if any.
- **Configured entries.** `ConfiguredAsWritten` describes the loop over them as the
  source writes it, and `DynamicOutputs` the loop over the file's variables. These are
  the specification functions the handler's loops are proved against. `Configured` is
  the same loop with the `continue` the source lacks (see Findings). It is the
  reference the lemmas about each entry's answer are stated on, and
  `ConfiguredAsWrittenAgrees` carries its error and handled set over to the loop as
  written.
- **Eager default.** `ds_info.get("file_key", ds_info["name"])` evaluates its default
  first, so an entry without `name` raises `KeyError` even when it has `file_key`
  (`Availability.FileKey`).

## Model

| member | source | states |
|---|---|---|
| Metadata.RowsPerScan | satpy/readers/viirs_edr.py:112-114 | 16 rows per scan exactly when the second dimension is 3200, else 32; `IndexError` for fewer than two dimensions |
| Metadata.Resolution | satpy/readers/viirs_edr.py:241 | a discovered variable's resolution is 750 m exactly when it has 3200 columns, and 375 m otherwise |
| Metadata.ScanGeometry | satpy/readers/viirs_edr.py:112-114 | rows per scan is 16 exactly when the resolution is 750 m, and rows × resolution is always 12 km |
| Masking.MaskToRange | satpy/readers/viirs_edr.py:145 | every cell keeps its value when it lies in `[lo, hi]` and becomes missing otherwise, shape kept |
| Masking.MaskToRangeIdempotent | satpy/readers/viirs_edr.py:145 | masking twice with one range equals masking once |
| Masking.MaskToRangeCompose | satpy/readers/viirs_edr.py:145 | masking with two ranges in turn equals masking with their intersection |
| Masking.RangeBounds | satpy/readers/viirs_edr.py:145 | `valid_range[0]` and `valid_range[1]` of a numeric array of at least two; `IndexError` for a shorter array or an empty string or list; `TypeError` for a number (not subscriptable) and for a non-empty string or list (its first element does not compare with numbers) |
| Masking.ValidRange | satpy/readers/viirs_edr.py:141-143 | the range comes from the configuration's `valid_range`, else the attribute `valid_range`, else `(valid_min, valid_max)` when both are numbers (`TypeError` otherwise); none exactly when none of them is present; `KeyError` when `valid_max` is missing |
| Masking.MaskValidRange | satpy/readers/viirs_edr.py:139-146 | succeeds exactly when the range can be read, and fails with the exception reading it raises (`KeyError('valid_max')`, `IndexError`, `TypeError`); with no range the variable is unchanged; otherwise the data are `MaskToRange` of the range (a cell keeps its value iff it lies in the range); dims, shape, attributes and coordinates kept |
| Masking.TargetUnits | satpy/readers/viirs_edr.py:120-122 | configured units win over the file's; missing or `"unitless"` becomes `"1"`; the result is never `"unitless"` |
| Masking.ScalesToPercent | satpy/readers/viirs_edr.py:123 | the target unit is `"%"` and the file's own units are `"1"` or `"unitless"` |
| Masking.PercentOnlyWhenConfigured | satpy/readers/viirs_edr.py:123-124 | data are scaled to percent exactly when the configuration asks for `"%"` and the file's units are `"1"` or `"unitless"` |
| Masking.Percent | satpy/readers/viirs_edr.py:124 | every value multiplied by 100, missing values stay missing, shape kept |
| Strings.Split | satpy/readers/viirs_edr.py:153 | at least one part, and no part contains the separator |
| Strings.JoinSplit | satpy/readers/viirs_edr.py:153 | joining the split parts with the separator gives the string back |
| Strings.SplitJoin | satpy/readers/viirs_edr.py:153 | splitting the join of separator-free parts gives the parts back |
| Strings.ContainsAt | satpy/readers/viirs_edr.py:232-233 | `sub in s` holds exactly when `sub` occurs at some offset of `s` |
| Metadata.DecodeFlagMeanings | satpy/readers/viirs_edr.py:148-153 | a single-line string becomes blank-free words that join back to it; any other value, and every other attribute, is unchanged |
| Metadata.DecodeFlagMeaningsIdempotent | satpy/readers/viirs_edr.py:149-153 | decoding twice equals decoding once |
| Metadata.DecodeEncodedFlagMeanings | satpy/readers/viirs_edr.py:149-153 | decoding the CF string of a list of blank-free meanings gives the list back |
| Metadata.NoNewlineInJoin | satpy/readers/viirs_edr.py:151 | a join of single-line words is single-line, so it is decoded |
| Metadata.PlatformName | satpy/readers/viirs_edr.py:165-174 | the long name of the upper-cased short name; `KeyError` for an unknown one; `AttributeError` for a non-string |
| Metadata.PlatformNameIgnoresCase | satpy/readers/viirs_edr.py:174 | a short name and its upper-cased form give the same answer |
| Metadata.PlatformNames | satpy/readers/viirs_edr.py:169-174 | npp → Suomi-NPP, j01/JPSS-1 → NOAA-20, J02/jpss-2 → NOAA-21, n20 → error |
| Metadata.PlatformNameRange | satpy/readers/viirs_edr.py:169-173 | every successful lookup is one of the three platforms |
| VegIndex.HasSunGlint | satpy/readers/viirs_edr.py:282 | `qf1 & 0b11000000` is non-zero |
| VegIndex.IsCloudy | satpy/readers/viirs_edr.py:283 | `qf1 & 0b00001100` is non-zero |
| VegIndex.PoorCloudQuality | satpy/readers/viirs_edr.py:284 | `qf1 & 0b00000011` is below `0b10` |
| VegIndex.HasSnowOrIce | satpy/readers/viirs_edr.py:287 | `qf2 & 0b00100000` is non-zero |
| VegIndex.HasCloudShadow | satpy/readers/viirs_edr.py:288 | `qf2 & 0b00001000` is non-zero |
| VegIndex.HasWater | satpy/readers/viirs_edr.py:289-290 | `qf2 & 0b111` is at most `0b010` or equal to `0b101` |
| VegIndex.HasAerosols | satpy/readers/viirs_edr.py:293 | `qf7 & 0b00001100` exceeds `0b1000` |
| VegIndex.AdjacentToCloud | satpy/readers/viirs_edr.py:294 | `qf7 & 0b00000010` is non-zero |
| VegIndex.IsBadPixel | satpy/readers/viirs_edr.py:296-305 | a pixel is bad when any of the eight tests holds |
| VegIndex.BadPixelByFields | satpy/readers/viirs_edr.py:281-305 | the masks as written test exactly the bit fields: QF1 6-7 ≠ 0, QF1 2-3 ≠ 0, QF1 0-1 < 2, QF2 bit 5, QF2 bit 3, QF2 0-2 ∈ {0,1,2,5}, QF7 2-3 = 3, QF7 bit 1 |
| VegIndex.RepeatTwice | satpy/readers/viirs_edr.py:307 | `repeat(2)` doubles the length and element k is element k/2 of the input |
| VegIndex.BadMask | satpy/readers/viirs_edr.py:296-305 | element-wise OR of the eight tests, shape of the flags |
| VegIndex.GoodMask | satpy/readers/viirs_edr.py:306-309 | a (2r, 2c) grid whose pixel (i, j) is good exactly when M-band pixel (i/2, j/2) passes every test |
| VegIndex.FlagGrid | satpy/readers/viirs_edr.py:281-282 | the flag values of a variable whose cells are all integers; `TypeError` otherwise |
| VegIndex.VegIndexGoodMask | satpy/readers/viirs_edr.py:279-309 | QF1, QF2 and QF7 read and tested in turn: `KeyError` for the first absent one and `TypeError` for the first with non-integer flags, in that order; `ValueError` when all three are integer but differ in shape or are not 2-D; succeeds exactly when none of these happens, with the upsampled good mask of the three flag grids |
| VegIndex.ApplyGoodMask | satpy/readers/viirs_edr.py:276 | a cell is kept exactly where the mask is good; `ValueError` when the shapes differ |
| VegIndex.MaskInvalidWithVI | satpy/readers/viirs_edr.py:272-277 | the valid-range mask first, whose exception is raised as it is; then `KeyError('file_key')` without a file key; for NDVI/EVI with `filter_veg` the good mask's exception, or `ValueError` when it does not have the data's shape, and otherwise the data masked by it; for any other dataset exactly the valid-range result |
| Dims.RenameDims | satpy/readers/viirs_edr.py:97 | succeeds exactly when every name to rename is a dimension or variable; renames every dimension and changes nothing else |
| Dims.RenameDimsValid | satpy/readers/viirs_edr.py:97 | renaming keeps the dataset well formed |
| Dims.RenameDimsRemoves | satpy/readers/viirs_edr.py:97 | a renamed dimension is gone afterwards |
| Dims.RenameDimsKeepsAbsent | satpy/readers/viirs_edr.py:100 | a renaming brings in no dimension but its new names |
| Dims.NormalizeDims | satpy/readers/viirs_edr.py:96-100 | files with `Columns` get `Columns`/`Rows` renamed; other files with `Along_Track_375m` get the 375 m and then the 750 m swath dimensions renamed; files with neither are unchanged; failures are `ValueError` |
| Dims.NormalizeColumnsResult | satpy/readers/viirs_edr.py:96-97 | neither `Columns` nor `Rows` is left |
| Dims.NormalizeSwathResult | satpy/readers/viirs_edr.py:98-100 | none of the four 375 m and 750 m swath dimensions is left |
| Dims.SwathIBandGone | satpy/readers/viirs_edr.py:99-100 | the 375 m dimensions are gone after both renamings |
| Dims.SwathMBandGone | satpy/readers/viirs_edr.py:100 | the 750 m dimensions are gone after the second renaming |
| Dims.NormalizeDimsResult | satpy/readers/viirs_edr.py:96-100 | after either branch the dataset is well formed and the renamed dimensions are gone |
| Dims.SetStandardName | satpy/readers/viirs_edr.py:105 | only the named variable's `standard_name` changes |
| Dims.WithGeolocationNames | satpy/readers/viirs_edr.py:102-107 | `Latitude`/`Longitude` get standard names `latitude`/`longitude`; nothing else changes |
| Dims.WithGeolocationNamesValid | satpy/readers/viirs_edr.py:104-107 | the dataset stays well formed |
| Availability.FileKey | satpy/readers/viirs_edr.py:203 | `file_key` if present, else `name`; `KeyError` whenever `name` is missing |
| Availability.InFile | satpy/readers/viirs_edr.py:218 | `file_key in self.nc` holds only for a string key, and for one exactly when it names a variable of the file |
| Availability.ConfiguredStepAsWritten | satpy/readers/viirs_edr.py:203-218 | one entry as written: raises without `name`, or when unclaimed without `file_type`, and yields nothing more; otherwise appends the entry itself when its availability is known, `(file_key in nc, info)` for an entry of this file type, and `(None, info)` followed by `(file_key in nc, info)` for one of another file type |
| Availability.ConfiguredAsWritten | satpy/readers/viirs_edr.py:201-218 | the loop as written over all entries, stopping at the first exception |
| Availability.ConfiguredAsWrittenStopsAtError | satpy/readers/viirs_edr.py:202-218 | as written, once an entry raises, later entries are not looked at |
| Availability.ConfiguredAsWrittenAgrees | satpy/readers/viirs_edr.py:203-218 | the loop as written and the corrected loop raise the same exception and record the same handled set |
| Availability.ConfiguredAsWrittenHandled | satpy/readers/viirs_edr.py:203-208 | as written too, the handled set is exactly the configured entries' file keys, so nothing else is excluded from discovery |
| Availability.ConfiguredAsWrittenPerEntry | satpy/readers/viirs_edr.py:202-218 | as written, entry k is answered by the pairs right after those of the entries before it: a known entry once and unchanged, an entry of this file type once with `file_key in nc`, an entry of another file type as `(None, info)` then `(file_key in nc, info)`; nothing else is yielded |
| Availability.ConfiguredDropsSecondYield | satpy/readers/viirs_edr.py:215-218 | the corrected loop yields, for each entry, the first pair the loop as written yields for it |
| Availability.ConfiguredEntryWellFormed | satpy/readers/viirs_edr.py:203-213 | when the loop raises nothing, every entry has a name and, when unclaimed, a `file_type` |
| Availability.ConfiguredStep | satpy/readers/viirs_edr.py:203-218 | one entry with the `continue`: raises in the same cases, and otherwise appends exactly one pair carrying the entry's metadata |
| Availability.Configured | satpy/readers/viirs_edr.py:201-218 | the corrected loop over all entries, stopping at the first exception |
| Availability.ConfiguredStopsAtError | satpy/readers/viirs_edr.py:202-218 | once an entry raises, later entries are not looked at |
| Availability.ConfiguredHandled | satpy/readers/viirs_edr.py:203-208 | in the corrected loop, every configured entry has a name, and the handled set is exactly the entries' file keys |
| Availability.StepHandled | satpy/readers/viirs_edr.py:208 | one entry adds its file key to the handled set and removes none |
| Availability.ConfiguredPassesKnownThrough | satpy/readers/viirs_edr.py:209-214 | entries with a known availability are yielded unchanged and in order |
| Availability.StepKnown | satpy/readers/viirs_edr.py:209-214 | one known entry is yielded as it is |
| Availability.ConfiguredOnePerEntry | satpy/readers/viirs_edr.py:202-218 | each entry yields one pair, in order: a known entry itself; an entry of another file type unclaimed; otherwise whether its file key is in the file |
| Availability.ConfiguredAsWrittenCount | satpy/readers/viirs_edr.py:215-218 | as written, each entry yields one or two pairs |
| Availability.ForeignEntryYieldedTwice | satpy/readers/viirs_edr.py:215-218 | as written, an unclaimed entry of another file type yields `(None, info)` and then `(file_key in nc, info)`; the corrected loop yields only the first |
| Availability.DynamicInfo | satpy/readers/viirs_edr.py:241-260 | the generated description carries the variable as `file_key`, the file type and the resolution, and has `coordinates` exactly when the name mentions neither longitude nor latitude |
| Availability.IsLongitude | satpy/readers/viirs_edr.py:232 | `"longitude" in name.lower()`: the lower-cased name has `longitude` at some offset |
| Availability.IsLatitude | satpy/readers/viirs_edr.py:233 | `"latitude" in name.lower()`: the lower-cased name has `latitude` at some offset |
| Availability.IsDynamic | satpy/readers/viirs_edr.py:234-240 | only 2-D variables are reported; a 2-D variable no entry handles is; a handled one is skipped unless its name mentions longitude or latitude |
| Availability.DynamicOutputs | satpy/readers/viirs_edr.py:230-261 | the loop over the file's variables in order; at most as many datasets as variables, each with a `file_key` |
| Availability.DynamicOutputsDescribeFileVariables | satpy/readers/viirs_edr.py:230-261 | every discovered dataset is available, names a 2-D variable of the file that is not configured (unless lon/lat), and carries the generated description |
| Availability.DynamicOutputsComplete | satpy/readers/viirs_edr.py:230-240 | every 2-D variable that is not configured, or is lon/lat, is discovered |
| Availability.DynamicOutputsInFileOrder | satpy/readers/viirs_edr.py:230-261 | of two discovered datasets, the earlier names an earlier variable of the file |
| Availability.DynamicOutputsDistinct | satpy/readers/viirs_edr.py:230-261 | with the file's distinct variable names, no variable is reported twice |
| Availability.DynamicInfoNaming | satpy/readers/viirs_edr.py:241-260 | lon/lat get standard name, units and `longitude[_i]_{ftype}`/`latitude[_i]_{ftype}` by resolution and no coordinates, longitude winning; others get the coordinate pair of their resolution |
| Availability.ConfiguredNotRediscovered | satpy/readers/viirs_edr.py:234-237 | with the handled set the loop as written builds, a configured variable that is not lon/lat is never discovered again |
| Availability.UnconfiguredDiscovered | satpy/readers/viirs_edr.py:203-240 | with the handled set the loop as written builds, a 2-D variable no configured entry names is discovered |
| Handler.DatasetAttrs | satpy/readers/viirs_edr.py:120-131 | units normalised, configured standard name, decoded flag meanings, platform, sensor and rows per scan set, every other attribute kept |
| Handler.FileHandler.Open | satpy/readers/viirs_edr.py:78-110 | `ValueError` when renaming fails, `KeyError` without `platform_shortname`; otherwise a handler over the renamed, geolocation-named file |
| Handler.FileHandler.MaskInvalid | satpy/readers/viirs_edr.py:139-146 | the base class's mask for the JRR handler, the vegetation-index one for the surface-reflectance handler; dims, shape, attributes kept |
| Handler.FileHandler.PlatformName | satpy/readers/viirs_edr.py:165-174 | the platform of the file name's short name, one of the three platforms |
| Handler.FileHandler.GetDataset | satpy/readers/viirs_edr.py:116-137 | `KeyError` without `file_key` or for a variable not in the file; then the masking exception, then the platform lookup's (`KeyError`/`AttributeError`), then `IndexError` for fewer than two dimensions, in that order; succeeds exactly when none is raised; the data are the masked data, in percent when converted; the attributes are `DatasetAttrs`; lon/lat lose their coordinates |
| Handler.FileHandler.DynamicVariablesFromFile | satpy/readers/viirs_edr.py:222-261 | yields exactly `DynamicOutputs` over the file's variables in order |
| Handler.FileHandler.AvailableDatasets | satpy/readers/viirs_edr.py:176-220 | the configured pairs as the source yields them (`ConfiguredAsWritten`, twice for an unclaimed entry of another file type), then, if nothing raised, the discovered ones for the handled set; the exception if one was raised |

## Left out

- Opening the file (`xr.open_dataset`), dask chunking and `get_chunk_size_limit`: these are I/O and lazy-array plumbing. The file is an input.
- `VIIRSLSTHandler` and its `_scale_data`: floating-point rescaling of file arrays, not part of this model.
- `start_time`, `end_time` and logging: pass-throughs of `filename_info`.
- `BaseFileHandler.file_type_matches` (`satpy/readers/file_handlers.py`) is not part of this model: it is a field of the handler.
- Handler.FileHandler.GetDataset: the variable read from the file is copied rather than shared. In the source, when no valid range applies (and no vegetation mask), `data_arr` is the file's own variable. The attribute updates then also change the file's copy, and `data_arr *= 100.0` also rescales the file's own values.
- Masking.Percent: cells hold exact `real` values, so `data_arr *= 100.0` is exact; floating-point rounding is not modelled.
- `Attr` has no `None`, so a configured `units: null` or `valid_range: null` cannot be written. In the source, `ds_info.get` at viirs_edr.py:120 and :141 then returns `None` instead of falling back to the file's attribute; the model covers only a present value and an absent key.
- Handler.FileHandler.GetDataset: `reset_coords(drop=True)` is modelled as emptying the coordinate set. The variable's own values are not re-derived.
- Dims.RenameDims: renaming variables whose names match (`Dataset.rename` also renames variables and coordinates) is not modelled; only dimensions are renamed.
- VegIndex.ApplyGoodMask: xarray's broadcasting of mismatched dimension names is not modelled; a good mask of another shape is a `ValueError`.
- Strings.Upper: `str.upper()` and `str.lower()` are modelled on ASCII letters only.
- Availability.FileKey: a `file_key` of a list type, which `set.add` rejects as unhashable, is accepted.
- Multi-dimensional arrays are modelled as rows of cells (all axes but the last flattened). The veg-index upsampling and masking assume 2-D flag arrays, as the files have.

## Findings

| source | as written | input that shows it | evidently intended | confidence | as-written member | corrected member |
|---|---|---|---|---|---|---|
| satpy/readers/viirs_edr.py:215-218 | after `yield None, ds_info` for an entry of another file type there is no `continue`, so the entry is also yielded as `(file_key in self.nc, ds_info)`, claiming it for this handler | one unclaimed entry `{"name": "x", "file_type": "other"}` with `file_type_matches("other")` returning `None`: two pairs are yielded | the entry is yielded once, unclaimed, as the comment "this is not the file type for this dataset" says | not executed; high | Availability.ForeignEntryYieldedTwice | Availability.ConfiguredOnePerEntry |
