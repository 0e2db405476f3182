/** What `available_datasets` reports: configured datasets passed on or answered for
    this file, then the 2-D variables found in the file that the configuration does not
    already cover, each with a generated description. */
module Availability {
  import opened Wrappers
  import opened Data
  import opened Strings
  import opened Metadata

  /** One `(is_avail, ds_info)` pair: `Some(true)`/`Some(false)` when a file handler knows
      whether the dataset is available, `None` when none has claimed it. */
  datatype Availability = Availability(avail: Option<bool>, info: Info)

  /** `ds_info.get("file_key", ds_info["name"])`: Python evaluates the default first, so
      an entry without `name` is a `KeyError` even when it has a `file_key`. */
  function FileKey(info: Info): (r: Outcome<Attr>)
    ensures r.Err? <==> "name" !in info
    ensures r.Err? ==> r.error == KeyError(Str("name"))
    ensures r.Ok? ==> r.value == (if "file_key" in info then info["file_key"] else info["name"])
  {
    if "name" !in info then Err(KeyError(Str("name")))
    else if "file_key" in info then Ok(info["file_key"])
    else Ok(info["name"])
  }

  /** `file_key in self.nc`: only a string can name a variable of the file. */
  predicate InFile(fileKey: Attr, varNames: set<string>)
    ensures InFile(fileKey, varNames) ==> fileKey.Str?
    ensures fileKey.Str? ==> (InFile(fileKey, varNames) <==> fileKey.s in varNames)
  {
    fileKey.Str? && fileKey.s in varNames
  }

  /** The state of the loop over the configured datasets: the pairs yielded so far, the
      file keys seen so far, and the exception that stopped the loop, if any. */
  datatype Progress = Progress(items: seq<Availability>, handled: set<Attr>, error: Option<Error>)

  /** The answer for one configured entry once its file key `key` is known: a known
      availability is passed on; an unclaimed entry without `file_type` raises; an
      unclaimed entry of another file type is left unclaimed, and one of this file type
      is answered by whether `key` names a variable of the file. */
  function ConfiguredStep(p: Progress, e: Availability, varNames: set<string>,
                          fileTypeMatches: Attr -> bool): (q: Progress)
    requires p.error.None?
    ensures q.error.None? <==> "name" in e.info && (e.avail.Some? || "file_type" in e.info)
    ensures q.error.None? ==>
      |q.items| == |p.items| + 1 && q.items[..|p.items|] == p.items && q.items[|p.items|].info == e.info
    ensures q.error.Some? ==> q.items == p.items
  {
    match FileKey(e.info)
    case Err(err) => p.(error := Some(err))
    case Ok(key) =>
      var handled := p.handled + {key};
      if e.avail.Some? then Progress(p.items + [e], handled, None)
      else if "file_type" !in e.info then Progress(p.items, handled, Some(KeyError(Str("file_type"))))
      else if !fileTypeMatches(e.info["file_type"]) then
        Progress(p.items + [Availability(None, e.info)], handled, None)
      else Progress(p.items + [Availability(Some(InFile(key, varNames)), e.info)], handled, None)
  }

  /** The loop over all configured datasets, stopping at the first exception. */
  function Configured(entries: seq<Availability>, varNames: set<string>,
                      fileTypeMatches: Attr -> bool): Progress
  {
    if |entries| == 0 then Progress([], {}, None)
    else
      var p := Configured(entries[..|entries| - 1], varNames, fileTypeMatches);
      if p.error.Some? then p
      else ConfiguredStep(p, entries[|entries| - 1], varNames, fileTypeMatches)
  }

  /** Once an entry raises, the entries after it are never looked at. */
  lemma {:induction false} ConfiguredStopsAtError(entries: seq<Availability>, n: nat, varNames: set<string>,
                                                  fileTypeMatches: Attr -> bool)
    requires n <= |entries|
    requires Configured(entries[..n], varNames, fileTypeMatches).error.Some?
    ensures Configured(entries, varNames, fileTypeMatches) == Configured(entries[..n], varNames, fileTypeMatches)
  {
    if n < |entries| {
      var init := entries[..|entries| - 1];
      assert init[..n] == entries[..n];
      ConfiguredStopsAtError(init, n, varNames, fileTypeMatches);
    } else {
      assert entries[..n] == entries;
    }
  }

  /** The file keys of those entries that have one. */
  ghost function FileKeys(entries: seq<Availability>): set<Attr>
  {
    set k | 0 <= k < |entries| && FileKey(entries[k].info).Ok? :: FileKey(entries[k].info).value
  }

  /** Every configured entry has a name, and the handled set is exactly the entries'
      file keys. */
  lemma {:induction false} ConfiguredHandled(entries: seq<Availability>, varNames: set<string>,
                                             fileTypeMatches: Attr -> bool)
    requires Configured(entries, varNames, fileTypeMatches).error.None?
    ensures forall k :: 0 <= k < |entries| ==>
      FileKey(entries[k].info).Ok? &&
      FileKey(entries[k].info).value in Configured(entries, varNames, fileTypeMatches).handled
    ensures Configured(entries, varNames, fileTypeMatches).handled == FileKeys(entries)
  {
    if |entries| > 0 {
      var init := entries[..|entries| - 1];
      var e := entries[|entries| - 1];
      var p := Configured(init, varNames, fileTypeMatches);
      ConfiguredHandled(init, varNames, fileTypeMatches);
      StepHandled(p, e, varNames, fileTypeMatches);
      assert forall k :: 0 <= k < |init| ==> init[k] == entries[k];
      FileKeysSnoc(init, e);
      assert entries == init + [e];
    }
  }

  lemma FileKeysSnoc(init: seq<Availability>, e: Availability)
    requires FileKey(e.info).Ok?
    ensures FileKeys(init + [e]) == FileKeys(init) + {FileKey(e.info).value}
  {
    var entries := init + [e];
    assert forall k :: 0 <= k < |init| ==> entries[k] == init[k];
    assert entries[|init|] == e;
  }

  /** A step that raises nothing records the entry's file key and forgets none. */
  lemma StepHandled(p: Progress, e: Availability, varNames: set<string>, fileTypeMatches: Attr -> bool)
    requires p.error.None?
    requires ConfiguredStep(p, e, varNames, fileTypeMatches).error.None?
    ensures FileKey(e.info).Ok?
    ensures ConfiguredStep(p, e, varNames, fileTypeMatches).handled == p.handled + {FileKey(e.info).value}
  {
  }

  /** Every entry has a name and a known availability. */
  predicate AllKnown(entries: seq<Availability>)
  {
    forall k :: 0 <= k < |entries| ==> entries[k].avail.Some? && "name" in entries[k].info
  }

  /** Entries whose availability is already known are passed on unchanged and in order. */
  lemma {:induction false} ConfiguredPassesKnownThrough(entries: seq<Availability>, varNames: set<string>,
                                                        fileTypeMatches: Attr -> bool)
    requires AllKnown(entries)
    ensures Configured(entries, varNames, fileTypeMatches).error.None?
    ensures Configured(entries, varNames, fileTypeMatches).items == entries
  {
    if |entries| > 0 {
      var init := entries[..|entries| - 1];
      var e := entries[|entries| - 1];
      assert entries == init + [e];
      assert AllKnown(init) by {
        assert forall k :: 0 <= k < |init| ==> init[k] == entries[k];
      }
      ConfiguredPassesKnownThrough(init, varNames, fileTypeMatches);
      var p := Configured(init, varNames, fileTypeMatches);
      StepKnown(p, e, varNames, fileTypeMatches);
      assert Configured(entries, varNames, fileTypeMatches) == ConfiguredStep(p, e, varNames, fileTypeMatches);
    }
  }

  lemma StepKnown(p: Progress, e: Availability, varNames: set<string>, fileTypeMatches: Attr -> bool)
    requires p.error.None? && e.avail.Some? && "name" in e.info
    ensures ConfiguredStep(p, e, varNames, fileTypeMatches).error.None?
    ensures ConfiguredStep(p, e, varNames, fileTypeMatches).items == p.items + [e]
  {
  }

  /** The answer one entry gets: itself when its availability is known, unclaimed when
      it is of another file type, and otherwise whether its file key names a variable of
      the file. */
  ghost predicate Answers(out: Availability, e: Availability, varNames: set<string>, fileTypeMatches: Attr -> bool)
  {
    && out.info == e.info
    && (e.avail.Some? ==> out == e)
    && (e.avail.None? && "file_type" in e.info && !fileTypeMatches(e.info["file_type"]) ==> out.avail.None?)
    && (e.avail.None? && "file_type" in e.info && fileTypeMatches(e.info["file_type"]) && FileKey(e.info).Ok? ==>
          out.avail == Some(InFile(FileKey(e.info).value, varNames)))
  }

  /** Every configured entry yields exactly one pair, in order, with the answer it gets. */
  lemma {:induction false} ConfiguredOnePerEntry(entries: seq<Availability>, varNames: set<string>,
                                                 fileTypeMatches: Attr -> bool)
    requires Configured(entries, varNames, fileTypeMatches).error.None?
    ensures |Configured(entries, varNames, fileTypeMatches).items| == |entries|
    ensures forall k :: 0 <= k < |entries| ==>
      Answers(Configured(entries, varNames, fileTypeMatches).items[k], entries[k], varNames, fileTypeMatches)
  {
    if |entries| > 0 {
      var init := entries[..|entries| - 1];
      ConfiguredOnePerEntry(init, varNames, fileTypeMatches);
      assert forall k :: 0 <= k < |init| ==> init[k] == entries[k];
    }
  }

  /** One turn of the loop exactly as the source writes it: there is no `continue` after
      `yield None, ds_info`, so an unclaimed entry of another file type is yielded as not
      this handler's and then once more with its presence in this file. */
  function ConfiguredStepAsWritten(p: Progress, e: Availability, varNames: set<string>,
                                   fileTypeMatches: Attr -> bool): (q: Progress)
    requires p.error.None?
    ensures q.error.None? <==> "name" in e.info && (e.avail.Some? || "file_type" in e.info)
    ensures q.error.None? ==> |p.items| + 1 <= |q.items| <= |p.items| + 2 && q.items[..|p.items|] == p.items
    ensures q.error.None? && e.avail.None? && !fileTypeMatches(e.info["file_type"]) ==>
              |q.items| == |p.items| + 2 && q.items[|p.items|].avail.None? && q.items[|p.items| + 1].avail.Some?
    ensures q.error.Some? ==> q.items == p.items
    ensures q.error.None? ==>
      q.items == p.items +
        (if e.avail.Some? then [e]
         else if !fileTypeMatches(e.info["file_type"])
         then [Availability(None, e.info), Availability(Some(InFile(FileKey(e.info).value, varNames)), e.info)]
         else [Availability(Some(InFile(FileKey(e.info).value, varNames)), e.info)])
  {
    match FileKey(e.info)
    case Err(err) => p.(error := Some(err))
    case Ok(key) =>
      var handled := p.handled + {key};
      if e.avail.Some? then Progress(p.items + [e], handled, None)
      else if "file_type" !in e.info then Progress(p.items, handled, Some(KeyError(Str("file_type"))))
      else
        var present := Availability(Some(InFile(key, varNames)), e.info);
        if !fileTypeMatches(e.info["file_type"]) then
          Progress(p.items + [Availability(None, e.info), present], handled, None)
        else Progress(p.items + [present], handled, None)
  }

  function ConfiguredAsWritten(entries: seq<Availability>, varNames: set<string>,
                               fileTypeMatches: Attr -> bool): Progress
  {
    if |entries| == 0 then Progress([], {}, None)
    else
      var p := ConfiguredAsWritten(entries[..|entries| - 1], varNames, fileTypeMatches);
      if p.error.Some? then p
      else ConfiguredStepAsWritten(p, entries[|entries| - 1], varNames, fileTypeMatches)
  }

  /** As written too, once an entry raises, the entries after it are never looked at. */
  lemma {:induction false} ConfiguredAsWrittenStopsAtError(entries: seq<Availability>, n: nat, varNames: set<string>,
                                                           fileTypeMatches: Attr -> bool)
    requires n <= |entries|
    requires ConfiguredAsWritten(entries[..n], varNames, fileTypeMatches).error.Some?
    ensures ConfiguredAsWritten(entries, varNames, fileTypeMatches)
         == ConfiguredAsWritten(entries[..n], varNames, fileTypeMatches)
  {
    if n < |entries| {
      var init := entries[..|entries| - 1];
      assert init[..n] == entries[..n];
      ConfiguredAsWrittenStopsAtError(init, n, varNames, fileTypeMatches);
    } else {
      assert entries[..n] == entries;
    }
  }

  /** The missing `continue` changes only what is yielded: the loop as written raises the
      same exception and records the same handled file keys as the corrected one. */
  lemma {:induction false} ConfiguredAsWrittenAgrees(entries: seq<Availability>, varNames: set<string>,
                                                     fileTypeMatches: Attr -> bool)
    ensures ConfiguredAsWritten(entries, varNames, fileTypeMatches).error
         == Configured(entries, varNames, fileTypeMatches).error
    ensures ConfiguredAsWritten(entries, varNames, fileTypeMatches).handled
         == Configured(entries, varNames, fileTypeMatches).handled
  {
    if |entries| > 0 {
      ConfiguredAsWrittenAgrees(entries[..|entries| - 1], varNames, fileTypeMatches);
    }
  }

  /** As written too, the handled set is exactly the entries' file keys. */
  lemma ConfiguredAsWrittenHandled(entries: seq<Availability>, varNames: set<string>, fileTypeMatches: Attr -> bool)
    requires ConfiguredAsWritten(entries, varNames, fileTypeMatches).error.None?
    ensures forall k :: 0 <= k < |entries| ==> FileKey(entries[k].info).Ok?
    ensures ConfiguredAsWritten(entries, varNames, fileTypeMatches).handled == FileKeys(entries)
  {
    ConfiguredAsWrittenAgrees(entries, varNames, fileTypeMatches);
    ConfiguredHandled(entries, varNames, fileTypeMatches);
  }

  /** An unclaimed entry of another file type, which the loop as written yields twice. */
  predicate Foreign(e: Availability, fileTypeMatches: Attr -> bool)
  {
    e.avail.None? && "file_type" in e.info && !fileTypeMatches(e.info["file_type"])
  }

  /** How many pairs the loop as written yields for `entries` that raise nothing. */
  function YieldedAsWritten(entries: seq<Availability>, fileTypeMatches: Attr -> bool): nat
  {
    if |entries| == 0 then 0
    else YieldedAsWritten(entries[..|entries| - 1], fileTypeMatches) +
         (if Foreign(entries[|entries| - 1], fileTypeMatches) then 2 else 1)
  }

  /** The pairs starting at `at` are the loop's answer to `e` as written: the answer `e`
      gets, followed, for a foreign entry, by its presence in the file. */
  ghost predicate AnsweredAsWritten(items: seq<Availability>, at: nat, e: Availability,
                                    varNames: set<string>, fileTypeMatches: Attr -> bool)
  {
    && at < |items| && Answers(items[at], e, varNames, fileTypeMatches)
    && (Foreign(e, fileTypeMatches) ==>
          && at + 1 < |items| && FileKey(e.info).Ok?
          && items[at + 1] == Availability(Some(InFile(FileKey(e.info).value, varNames)), e.info))
  }

  lemma AnsweredAsWrittenPrefix(items: seq<Availability>, longer: seq<Availability>, at: nat, e: Availability,
                                varNames: set<string>, fileTypeMatches: Attr -> bool)
    requires |items| <= |longer| && longer[..|items|] == items
    requires AnsweredAsWritten(items, at, e, varNames, fileTypeMatches)
    ensures AnsweredAsWritten(longer, at, e, varNames, fileTypeMatches)
  {
    assert longer[at] == items[at];
    if Foreign(e, fileTypeMatches) {
      assert longer[at + 1] == items[at + 1];
    }
  }

  /** As written, entry `k` is answered by the pairs starting after those of the entries
      before it: a known availability once and unchanged, an entry of this file type once
      with whether its file key names a variable of the file, and an entry of another
      file type twice; nothing else is yielded. */
  lemma {:induction false} ConfiguredAsWrittenPerEntry(entries: seq<Availability>, varNames: set<string>,
                                                       fileTypeMatches: Attr -> bool)
    requires ConfiguredAsWritten(entries, varNames, fileTypeMatches).error.None?
    ensures |ConfiguredAsWritten(entries, varNames, fileTypeMatches).items| == YieldedAsWritten(entries, fileTypeMatches)
    ensures forall k :: 0 <= k < |entries| ==>
      AnsweredAsWritten(ConfiguredAsWritten(entries, varNames, fileTypeMatches).items,
                        YieldedAsWritten(entries[..k], fileTypeMatches), entries[k], varNames, fileTypeMatches)
  {
    if |entries| > 0 {
      var init := entries[..|entries| - 1];
      var e := entries[|entries| - 1];
      var p := ConfiguredAsWritten(init, varNames, fileTypeMatches);
      var q := ConfiguredAsWritten(entries, varNames, fileTypeMatches);
      assert p.error.None?;
      assert q == ConfiguredStepAsWritten(p, e, varNames, fileTypeMatches);
      ConfiguredAsWrittenPerEntry(init, varNames, fileTypeMatches);
      forall k | 0 <= k < |entries|
        ensures AnsweredAsWritten(q.items, YieldedAsWritten(entries[..k], fileTypeMatches), entries[k],
                                  varNames, fileTypeMatches)
      {
        if k < |init| {
          assert entries[..k] == init[..k];
          assert entries[k] == init[k];
          AnsweredAsWrittenPrefix(p.items, q.items, YieldedAsWritten(init[..k], fileTypeMatches), init[k],
                                  varNames, fileTypeMatches);
        } else {
          assert entries[..k] == init;
        }
      }
    }
  }

  /** A pair answers an entry in only one way, once the entry raises nothing. */
  lemma AnswersUnique(a: Availability, b: Availability, e: Availability, varNames: set<string>,
                      fileTypeMatches: Attr -> bool)
    requires "name" in e.info && (e.avail.Some? || "file_type" in e.info)
    requires Answers(a, e, varNames, fileTypeMatches) && Answers(b, e, varNames, fileTypeMatches)
    ensures a == b
  {
  }

  /** The corrected loop yields, for each entry, the first pair the loop as written
      yields for it: the `continue` only drops the second pair of a foreign entry. */
  lemma ConfiguredDropsSecondYield(entries: seq<Availability>, varNames: set<string>, fileTypeMatches: Attr -> bool)
    requires ConfiguredAsWritten(entries, varNames, fileTypeMatches).error.None?
    ensures |Configured(entries, varNames, fileTypeMatches).items| == |entries|
    ensures forall k :: 0 <= k < |entries| ==>
      YieldedAsWritten(entries[..k], fileTypeMatches) < |ConfiguredAsWritten(entries, varNames, fileTypeMatches).items| &&
      Configured(entries, varNames, fileTypeMatches).items[k]
        == ConfiguredAsWritten(entries, varNames, fileTypeMatches).items[YieldedAsWritten(entries[..k], fileTypeMatches)]
  {
    ConfiguredAsWrittenAgrees(entries, varNames, fileTypeMatches);
    ConfiguredOnePerEntry(entries, varNames, fileTypeMatches);
    ConfiguredAsWrittenPerEntry(entries, varNames, fileTypeMatches);
    ConfiguredHandled(entries, varNames, fileTypeMatches);
    var fixed := Configured(entries, varNames, fileTypeMatches).items;
    var written := ConfiguredAsWritten(entries, varNames, fileTypeMatches).items;
    forall k | 0 <= k < |entries|
      ensures YieldedAsWritten(entries[..k], fileTypeMatches) < |written| &&
              fixed[k] == written[YieldedAsWritten(entries[..k], fileTypeMatches)]
    {
      var at := YieldedAsWritten(entries[..k], fileTypeMatches);
      assert AnsweredAsWritten(written, at, entries[k], varNames, fileTypeMatches);
      ConfiguredEntryWellFormed(entries, k, varNames, fileTypeMatches);
      AnswersUnique(fixed[k], written[at], entries[k], varNames, fileTypeMatches);
    }
  }

  /** In a loop that raises nothing, every entry has a name and, when unclaimed, a
      `file_type`. */
  lemma {:induction false} ConfiguredEntryWellFormed(entries: seq<Availability>, k: nat, varNames: set<string>,
                                                     fileTypeMatches: Attr -> bool)
    requires k < |entries|
    requires Configured(entries, varNames, fileTypeMatches).error.None?
    ensures "name" in entries[k].info && (entries[k].avail.Some? || "file_type" in entries[k].info)
  {
    var init := entries[..|entries| - 1];
    if k < |init| {
      assert entries[k] == init[k];
      ConfiguredEntryWellFormed(init, k, varNames, fileTypeMatches);
    }
  }

  /** As written, each configured entry yields one pair or two. */
  lemma {:induction false} ConfiguredAsWrittenCount(entries: seq<Availability>, varNames: set<string>,
                                                    fileTypeMatches: Attr -> bool)
    requires ConfiguredAsWritten(entries, varNames, fileTypeMatches).error.None?
    ensures |entries| <= |ConfiguredAsWritten(entries, varNames, fileTypeMatches).items| <= 2 * |entries|
  {
    if |entries| > 0 {
      ConfiguredAsWrittenCount(entries[..|entries| - 1], varNames, fileTypeMatches);
    }
  }

  /** As written, an unclaimed entry of another file type is reported twice: first as
      not this handler's and then as present or absent in this file, which claims it;
      with the `continue` it is reported once, unclaimed. */
  lemma ForeignEntryYieldedTwice(info: Info, varNames: set<string>, fileTypeMatches: Attr -> bool)
    requires "name" in info && "file_type" in info && !fileTypeMatches(info["file_type"])
    ensures ConfiguredAsWritten([Availability(None, info)], varNames, fileTypeMatches).items
            == [Availability(None, info),
                Availability(Some(InFile(FileKey(info).value, varNames)), info)]
    ensures Configured([Availability(None, info)], varNames, fileTypeMatches).items
            == [Availability(None, info)]
  {
    assert [Availability(None, info)][..0] == [];
  }

  // ---------------------------------------------------------------------------------
  // Variables discovered in the file

  /** `"longitude" in name.lower()`. */
  predicate IsLongitude(name: string)
    ensures IsLongitude(name) <==> exists k: nat :: OccursAt(Lower(name), "longitude", k)
    ensures IsLongitude(name) ==> |name| >= 9
  {
    ContainsAt(Lower(name), "longitude");
    Contains(Lower(name), "longitude")
  }

  /** `"latitude" in name.lower()`. */
  predicate IsLatitude(name: string)
    ensures IsLatitude(name) <==> exists k: nat :: OccursAt(Lower(name), "latitude", k)
    ensures IsLatitude(name) ==> |name| >= 8
  {
    ContainsAt(Lower(name), "latitude");
    Contains(Lower(name), "latitude")
  }

  /** The description `_dynamic_variables_from_file` builds for a 2-D variable at the
      given resolution: longitude and latitude variables are named after the file type
      and resolution and carry no `coordinates`; any other variable points at the
      longitude/latitude pair of its resolution. */
  function DynamicInfo(name: string, fileType: string, res: int): (info: Info)
    ensures "file_key" in info && info["file_key"] == Str(name)
    ensures "file_type" in info && info["file_type"] == Str(fileType)
    ensures "resolution" in info && info["resolution"] == Int(res)
    ensures "name" in info
    ensures "coordinates" in info <==> !IsLongitude(name) && !IsLatitude(name)
  {
    var lonName := if res == 750 then "longitude_" + fileType else "longitude_i_" + fileType;
    var latName := if res == 750 then "latitude_" + fileType else "latitude_i_" + fileType;
    var base := map[
      "file_key" := Str(name),
      "file_type" := Str(fileType),
      "name" := Str(name),
      "resolution" := Int(res),
      "coordinates" := Strs([lonName, latName])];
    if IsLongitude(name) then
      base["standard_name" := Str("longitude")]["units" := Str("degrees_east")]["name" := Str(lonName)] - {"coordinates"}
    else if IsLatitude(name) then
      base["standard_name" := Str("latitude")]["units" := Str("degrees_north")]["name" := Str(latName)] - {"coordinates"}
    else base
  }

  /** A variable is reported when it is 2-D and the configuration does not already cover
      it, geolocation variables being reported in any case. */
  predicate IsDynamic(name: string, v: Variable, handled: set<Attr>)
    ensures IsDynamic(name, v, handled) ==> |v.shape| == 2
    ensures |v.shape| == 2 && Str(name) !in handled ==> IsDynamic(name, v, handled)
    ensures IsLongitude(name) || IsLatitude(name) ==> (IsDynamic(name, v, handled) <==> |v.shape| == 2)
    ensures Str(name) in handled && !IsLongitude(name) && !IsLatitude(name) ==> !IsDynamic(name, v, handled)
  {
    (Str(name) !in handled || IsLongitude(name) || IsLatitude(name)) && |v.shape| == 2
  }

  /** What the loop over the file's variables yields for the first `names`. */
  function DynamicOutputs(names: seq<string>, vars: map<string, Variable>, handled: set<Attr>,
                          fileType: string): (found: seq<Availability>)
    requires forall n :: n in names ==> n in vars
    ensures |found| <= |names|
    ensures forall m :: 0 <= m < |found| ==> "file_key" in found[m].info
  {
    if |names| == 0 then []
    else
      var name := names[|names| - 1];
      var v := vars[name];
      DynamicOutputs(names[..|names| - 1], vars, handled, fileType) +
        (if IsDynamic(name, v, handled)
         then [Availability(Some(true), DynamicInfo(name, fileType, Resolution(v.shape[1])))]
         else [])
  }

  /** Every discovered variable is reported available, with `file_key` naming a 2-D
      variable of the file that the configuration does not cover (or a geolocation one),
      with the file's type and with the resolution its column count gives. */
  lemma {:induction false} DynamicOutputsDescribeFileVariables(names: seq<string>, vars: map<string, Variable>,
                                                               handled: set<Attr>, fileType: string)
    requires forall n :: n in names ==> n in vars
    ensures forall k :: 0 <= k < |DynamicOutputs(names, vars, handled, fileType)| ==>
      var out := DynamicOutputs(names, vars, handled, fileType)[k];
      && out.avail == Some(true)
      && "file_key" in out.info && out.info["file_key"].Str?
      && var name := out.info["file_key"].s;
      && name in names
      && IsDynamic(name, vars[name], handled)
      && out.info == DynamicInfo(name, fileType, Resolution(vars[name].shape[1]))
  {
    if |names| > 0 {
      var init := names[..|names| - 1];
      DynamicOutputsDescribeFileVariables(init, vars, handled, fileType);
      assert forall n :: n in init ==> n in names;
    }
  }

  /** Conversely, every 2-D variable the configuration does not cover (and every 2-D
      geolocation variable) is reported. */
  lemma {:induction false} DynamicOutputsComplete(names: seq<string>, vars: map<string, Variable>,
                                                  handled: set<Attr>, fileType: string, name: string)
    requires forall n :: n in names ==> n in vars
    requires name in names && IsDynamic(name, vars[name], handled)
    ensures exists k :: (0 <= k < |DynamicOutputs(names, vars, handled, fileType)| &&
      "file_key" in DynamicOutputs(names, vars, handled, fileType)[k].info &&
      DynamicOutputs(names, vars, handled, fileType)[k].info["file_key"] == Str(name))
  {
    var out := DynamicOutputs(names, vars, handled, fileType);
    var last := names[|names| - 1];
    if name == last {
      var k := |out| - 1;
      assert out[k].info == DynamicInfo(name, fileType, Resolution(vars[name].shape[1]));
    } else {
      var init := names[..|names| - 1];
      assert name in init by { assert names == init + [last]; }
      DynamicOutputsComplete(init, vars, handled, fileType, name);
      var k :| 0 <= k < |DynamicOutputs(init, vars, handled, fileType)| &&
               "file_key" in DynamicOutputs(init, vars, handled, fileType)[k].info &&
               DynamicOutputs(init, vars, handled, fileType)[k].info["file_key"] == Str(name);
      assert out[k] == DynamicOutputs(init, vars, handled, fileType)[k];
    }
  }

  /** The description of a longitude or latitude variable: its standard name and units,
      the generated name for its resolution (longitude winning when a name mentions
      both), and no `coordinates`; any other variable gets the coordinate pair of its
      resolution. */
  lemma DynamicInfoNaming(name: string, fileType: string, cols: nat)
    ensures var info := DynamicInfo(name, fileType, Resolution(cols));
      && info["file_key"] == Str(name) && info["file_type"] == Str(fileType)
      && info["resolution"] == Int(if cols == M_COLS then 750 else 375)
      && (IsLongitude(name) ==>
            && info["standard_name"] == Str("longitude") && info["units"] == Str("degrees_east")
            && info["name"] == Str(if cols == M_COLS then "longitude_" + fileType else "longitude_i_" + fileType)
            && "coordinates" !in info)
      && (!IsLongitude(name) && IsLatitude(name) ==>
            && info["standard_name"] == Str("latitude") && info["units"] == Str("degrees_north")
            && info["name"] == Str(if cols == M_COLS then "latitude_" + fileType else "latitude_i_" + fileType)
            && "coordinates" !in info)
      && (!IsLongitude(name) && !IsLatitude(name) ==>
            && info["name"] == Str(name) && "standard_name" !in info && "units" !in info
            && info["coordinates"] == Strs(if cols == M_COLS
                                           then ["longitude_" + fileType, "latitude_" + fileType]
                                           else ["longitude_i_" + fileType, "latitude_i_" + fileType]))
  {
  }

  /** A variable a configured entry names is not discovered again, unless it is a
      longitude or latitude variable. */
  lemma ConfiguredNotRediscovered(entries: seq<Availability>, varNames: set<string>, fileTypeMatches: Attr -> bool,
                                  names: seq<string>, vars: map<string, Variable>, fileType: string,
                                  k: nat, name: string)
    requires forall n :: n in names ==> n in vars
    requires ConfiguredAsWritten(entries, varNames, fileTypeMatches).error.None?
    requires k < |entries| && FileKey(entries[k].info) == Ok(Str(name))
    requires !IsLongitude(name) && !IsLatitude(name)
    ensures var found := DynamicOutputs(names, vars, ConfiguredAsWritten(entries, varNames, fileTypeMatches).handled, fileType);
      forall m :: 0 <= m < |found| ==> "file_key" in found[m].info && found[m].info["file_key"] != Str(name)
  {
    var handled := ConfiguredAsWritten(entries, varNames, fileTypeMatches).handled;
    ConfiguredAsWrittenAgrees(entries, varNames, fileTypeMatches);
    ConfiguredHandled(entries, varNames, fileTypeMatches);
    DynamicOutputsDescribeFileVariables(names, vars, handled, fileType);
  }

  /** The file key `found[i]` names is `names[a]`, and the one `found[j]` names is the
      later `names[b]`. */
  ghost predicate NamedInOrder(found: seq<Availability>, i: int, j: int, names: seq<string>)
    requires 0 <= i < |found| && 0 <= j < |found|
  {
    exists a, b :: 0 <= a < b < |names| &&
      "file_key" in found[i].info && found[i].info["file_key"] == Str(names[a]) &&
      "file_key" in found[j].info && found[j].info["file_key"] == Str(names[b])
  }

  /** The discovered datasets follow the file's order: of two of them, the earlier
      names an earlier variable. */
  lemma {:induction false} DynamicOutputsInFileOrder(names: seq<string>, vars: map<string, Variable>,
                                                     handled: set<Attr>, fileType: string)
    requires forall n :: n in names ==> n in vars
    ensures forall i, j :: 0 <= i < j < |DynamicOutputs(names, vars, handled, fileType)| ==>
      NamedInOrder(DynamicOutputs(names, vars, handled, fileType), i, j, names)
  {
    if |names| > 0 {
      var found := DynamicOutputs(names, vars, handled, fileType);
      var init := names[..|names| - 1];
      var before := DynamicOutputs(init, vars, handled, fileType);
      assert forall n :: n in init ==> n in names;
      DynamicOutputsInFileOrder(init, vars, handled, fileType);
      forall i, j | 0 <= i < j < |found|
        ensures NamedInOrder(found, i, j, names)
      {
        if j < |before| {
          InFileOrderSnoc(names, before, found, i, j);
        } else {
          DynamicOutputsDescribeFileVariables(init, vars, handled, fileType);
          var name := before[i].info["file_key"].s;
          assert name in init;
          var a :| 0 <= a < |init| && init[a] == name;
          assert found[i] == before[i] && names[a] == init[a];
          assert found[j].info["file_key"] == Str(names[|names| - 1]);
        }
      }
    }
  }

  lemma InFileOrderSnoc(names: seq<string>, before: seq<Availability>, found: seq<Availability>, i: int, j: int)
    requires |names| > 0 && 0 <= i < j < |before| <= |found| && found[..|before|] == before
    requires NamedInOrder(before, i, j, names[..|names| - 1])
    ensures NamedInOrder(found, i, j, names)
  {
    var init := names[..|names| - 1];
    var a, b :| 0 <= a < b < |init| &&
      "file_key" in before[i].info && before[i].info["file_key"] == Str(init[a]) &&
      "file_key" in before[j].info && before[j].info["file_key"] == Str(init[b]);
    assert found[i] == before[i] && found[j] == before[j];
    assert names[a] == init[a] && names[b] == init[b];
  }

  /** In a file whose variable names are distinct, as a dictionary's keys are, no
      variable is reported twice. */
  lemma DynamicOutputsDistinct(names: seq<string>, vars: map<string, Variable>, handled: set<Attr>, fileType: string)
    requires forall n :: n in names ==> n in vars
    requires forall a, b :: 0 <= a < b < |names| ==> names[a] != names[b]
    ensures var found := DynamicOutputs(names, vars, handled, fileType);
      forall i, j :: 0 <= i < j < |found| ==> found[i].info["file_key"] != found[j].info["file_key"]
  {
    var found := DynamicOutputs(names, vars, handled, fileType);
    DynamicOutputsInFileOrder(names, vars, handled, fileType);
    forall i, j | 0 <= i < j < |found|
      ensures found[i].info["file_key"] != found[j].info["file_key"]
    {
      assert NamedInOrder(found, i, j, names);
    }
  }

  /** A 2-D variable that no configured entry names is discovered. */
  lemma UnconfiguredDiscovered(entries: seq<Availability>, varNames: set<string>, fileTypeMatches: Attr -> bool,
                               names: seq<string>, vars: map<string, Variable>, fileType: string, name: string)
    requires forall n :: n in names ==> n in vars
    requires ConfiguredAsWritten(entries, varNames, fileTypeMatches).error.None?
    requires forall k :: 0 <= k < |entries| ==> FileKey(entries[k].info) != Ok(Str(name))
    requires name in names && |vars[name].shape| == 2
    ensures var found := DynamicOutputs(names, vars, ConfiguredAsWritten(entries, varNames, fileTypeMatches).handled, fileType);
      exists m :: 0 <= m < |found| && found[m].info["file_key"] == Str(name)
  {
    var handled := ConfiguredAsWritten(entries, varNames, fileTypeMatches).handled;
    ConfiguredAsWrittenHandled(entries, varNames, fileTypeMatches);
    assert Str(name) !in handled;
    DynamicOutputsComplete(names, vars, handled, fileType, name);
  }
}
