/** Metadata decoding: CF `flag_meanings` (section 3.5, "Flags", of the CF Metadata
    Conventions), the platform's long name, and the scan geometry that follows from the
    number of columns. */
module Metadata {
  import opened Wrappers
  import opened Data
  import opened Strings

  /** Number of columns of a VIIRS M-band (750 m) swath. */
  const M_COLS: nat := 3200

  /** `rows_per_scans`: an M-band scan is 16 detector rows tall, an I-band (375 m) scan 32;
      an array with fewer than two dimensions has no `shape[1]`. */
  function RowsPerScan(shape: seq<nat>): (r: Outcome<int>)
    ensures r.Err? <==> |shape| < 2
    ensures r.Err? ==> r.error == IndexError
    ensures r.Ok? ==> (r.value == 16 <==> shape[1] == M_COLS) && (r.value == 32 <==> shape[1] != M_COLS)
  {
    if |shape| < 2 then Err(IndexError)
    else if shape[1] == M_COLS then Ok(16) else Ok(32)
  }

  /** The resolution, in metres, given to a dynamically discovered 2-D variable. */
  function Resolution(cols: nat): (res: int)
    ensures res == 750 || res == 375
    ensures res == 750 <==> cols == M_COLS
  {
    if cols == M_COLS then 750 else 375
  }

  /** Both rules tell M-band from I-band by the same test, and agree on the scan footprint:
      16 rows of 750 m and 32 rows of 375 m both span 12 km along track. */
  lemma ScanGeometry(shape: seq<nat>)
    requires |shape| >= 2
    ensures RowsPerScan(shape).Ok?
    ensures RowsPerScan(shape).value == 16 <==> Resolution(shape[1]) == 750
    ensures RowsPerScan(shape).value * Resolution(shape[1]) == 12000
  {
  }

  // ---------------------------------------------------------------------------------
  // flag_meanings

  /** `_decode_flag_meanings`: a single-line string `flag_meanings` attribute becomes the
      list of its blank-separated words; anything else is left as it is. */
  function DecodeFlagMeanings(attrs: Info): (r: Info)
    ensures r.Keys == attrs.Keys
    ensures forall k :: k in attrs && k != "flag_meanings" ==> r[k] == attrs[k]
    ensures "flag_meanings" in attrs && attrs["flag_meanings"].Str? && '\n' !in attrs["flag_meanings"].s ==>
      && r["flag_meanings"].Strs?
      && |r["flag_meanings"].items| >= 1
      && Join(r["flag_meanings"].items, ' ') == attrs["flag_meanings"].s
      && forall k :: 0 <= k < |r["flag_meanings"].items| ==> ' ' !in r["flag_meanings"].items[k]
    ensures !("flag_meanings" in attrs && attrs["flag_meanings"].Str? && '\n' !in attrs["flag_meanings"].s) ==>
      r == attrs
  {
    if "flag_meanings" in attrs && attrs["flag_meanings"].Str? && '\n' !in attrs["flag_meanings"].s then
      JoinSplit(attrs["flag_meanings"].s, ' ');
      attrs["flag_meanings" := Strs(Split(attrs["flag_meanings"].s, ' '))]
    else attrs
  }

  /** Decoding is idempotent: once decoded, the attribute is a list, which is left alone. */
  lemma DecodeFlagMeaningsIdempotent(attrs: Info)
    ensures DecodeFlagMeanings(DecodeFlagMeanings(attrs)) == DecodeFlagMeanings(attrs)
  {
  }

  /** Encoding a list of blank-free meanings as the CF string and decoding it gives the
      list back. */
  lemma {:induction false} DecodeEncodedFlagMeanings(attrs: Info, meanings: seq<string>)
    requires |meanings| >= 1
    requires forall k :: 0 <= k < |meanings| ==> ' ' !in meanings[k] && '\n' !in meanings[k]
    ensures DecodeFlagMeanings(attrs["flag_meanings" := Str(Join(meanings, ' '))])["flag_meanings"]
            == Strs(meanings)
  {
    NoNewlineInJoin(meanings);
    SplitJoin(meanings, ' ');
  }

  lemma {:induction false} NoNewlineInJoin(parts: seq<string>)
    requires forall k :: 0 <= k < |parts| ==> '\n' !in parts[k]
    ensures '\n' !in Join(parts, ' ')
  {
    if |parts| > 1 {
      NoNewlineInJoin(parts[1..]);
    }
  }

  // ---------------------------------------------------------------------------------
  // platform_name

  /** The platform short names in file names, upper-cased, and the platforms' long names. */
  const PLATFORMS: map<string, string> := map[
    "NPP" := "Suomi-NPP",
    "JPSS-1" := "NOAA-20",
    "J01" := "NOAA-20",
    "JPSS-2" := "NOAA-21",
    "J02" := "NOAA-21"]

  /** `platform_name`: the long name of the platform a short name stands for, looked up
      without regard to case; an unknown short name is a `KeyError`, and a short name that
      is not a string has no `upper()`. */
  function PlatformName(shortName: Attr): (r: Outcome<string>)
    ensures !shortName.Str? ==> r == Err(AttributeError)
    ensures shortName.Str? ==>
      (r.Ok? <==> Upper(shortName.s) in PLATFORMS) &&
      (r.Ok? ==> r.value == PLATFORMS[Upper(shortName.s)]) &&
      (r.Err? ==> r.error == KeyError(Str(Upper(shortName.s))))
  {
    if !shortName.Str? then Err(AttributeError)
    else
      var key := Upper(shortName.s);
      if key in PLATFORMS then Ok(PLATFORMS[key]) else Err(KeyError(Str(key)))
  }

  lemma UpperIdempotent(s: string)
    ensures Upper(Upper(s)) == Upper(s)
  {
  }

  /** The lookup ignores case: a short name and its upper-cased form name the same platform. */
  lemma PlatformNameIgnoresCase(s: string)
    ensures PlatformName(Str(Upper(s))) == PlatformName(Str(s))
  {
    UpperIdempotent(s);
  }

  /** The five short names and what they resolve to, in any case. */
  lemma PlatformNames()
    ensures PlatformName(Str("npp")) == Ok("Suomi-NPP")
    ensures PlatformName(Str("j01")) == Ok("NOAA-20") && PlatformName(Str("JPSS-1")) == Ok("NOAA-20")
    ensures PlatformName(Str("J02")) == Ok("NOAA-21") && PlatformName(Str("jpss-2")) == Ok("NOAA-21")
    ensures PlatformName(Str("n20")).Err?
  {
    assert Upper("npp") == "NPP";
    assert Upper("j01") == "J01";
    assert Upper("JPSS-1") == "JPSS-1";
    assert Upper("J02") == "J02";
    assert Upper("jpss-2") == "JPSS-2";
    assert Upper("n20") == "N20";
  }

  /** Every successful lookup yields one of the three platforms. */
  lemma PlatformNameRange(a: Attr)
    ensures PlatformName(a).Ok? ==> PlatformName(a).value in {"Suomi-NPP", "NOAA-20", "NOAA-21"}
  {
  }
}
