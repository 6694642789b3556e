/**
  `ESTConfig._load_config`: the configuration file is read as JSON and every
  top-level key of the default configuration that the file lacks is added
  with its default value. A JSON object is modelled as its list of
  `(key, value)` pairs in insertion order, which is the order a Python dict
  keeps and `json.dump` writes; the values themselves are left abstract.
 */
module Config {
  import opened Wrappers

  type Dict<V> = seq<(string, V)>

  /** The top-level keys of the default configuration, in order. */
  const DefaultKeys: seq<string> := ["version", "smtp_server", "scenarios", "temp_email_services", "reporting"]

  /** The default configuration for the given values of its five keys. */
  function DefaultConfig<V>(version: V, smtpServer: V, scenarios: V, tempEmailServices: V, reporting: V): (d: Dict<V>)
    ensures KeysOf(d) == DefaultKeys
  {
    [("version", version), ("smtp_server", smtpServer), ("scenarios", scenarios),
     ("temp_email_services", tempEmailServices), ("reporting", reporting)]
  }

  function KeysOf<V>(d: Dict<V>): (ks: seq<string>)
    ensures |ks| == |d|
    ensures forall j :: 0 <= j < |d| ==> ks[j] == d[j].0
  {
    seq(|d|, j requires 0 <= j < |d| => d[j].0)
  }

  predicate HasKey<V>(d: Dict<V>, k: string) {
    k in KeysOf(d)
  }

  predicate DistinctKeys<V>(d: Dict<V>) {
    forall a, b :: 0 <= a < b < |d| ==> d[a].0 != d[b].0
  }

  /** `d[k]`: the value stored under `k`, or nothing when `k` is absent. */
  function Lookup<V>(d: Dict<V>, k: string): (r: Option<V>)
    ensures r.None? <==> !HasKey(d, k)
    ensures r.Some? ==> exists j :: 0 <= j < |d| && d[j] == (k, r.value)
    decreases |d|
  {
    if d == [] then None
    else if d[0].0 == k then Some(d[0].1)
    else
      assert forall j :: 0 <= j < |d| - 1 ==> d[1..][j] == d[j + 1];
      Lookup(d[1..], k)
  }

  /** The dict `_load_config` returns after its merge loop: the keys of
      `defaults`, in their order, each added with its default value when the
      dict does not yet hold it. */
  function WithDefaults<V>(loaded: Dict<V>, defaults: Dict<V>): Dict<V>
    decreases |defaults|
  {
    if defaults == [] then loaded
    else
      var merged := WithDefaults(loaded, defaults[..|defaults| - 1]);
      var (k, v) := defaults[|defaults| - 1];
      if HasKey(merged, k) then merged else merged + [(k, v)]
  }

  /** The merge loop, inserting into the loaded dict in place. */
  method MergeDefaults<V>(loaded: Dict<V>, defaults: Dict<V>) returns (config: Dict<V>)
    ensures config == WithDefaults(loaded, defaults)
  {
    config := loaded;
    for i := 0 to |defaults|
      invariant config == WithDefaults(loaded, defaults[..i])
    {
      var (key, value) := defaults[i];
      assert defaults[..i + 1][..i] == defaults[..i];
      if !HasKey(config, key) {
        config := config + [(key, value)];
      }
    }
    assert defaults[..|defaults|] == defaults;
  }

  /** The loaded entries come first and are kept as they are. */
  lemma {:induction false} MergeKeepsLoaded<V>(loaded: Dict<V>, defaults: Dict<V>)
    ensures |loaded| <= |WithDefaults(loaded, defaults)|
    ensures WithDefaults(loaded, defaults)[..|loaded|] == loaded
    decreases |defaults|
  {
    if defaults == [] {
      assert loaded[..|loaded|] == loaded;
    } else {
      var init := defaults[..|defaults| - 1];
      MergeKeepsLoaded(loaded, init);
      var merged := WithDefaults(loaded, init);
      var (k, v) := defaults[|defaults| - 1];
      assert (merged + [(k, v)])[..|loaded|] == merged[..|loaded|];
    }
  }

  lemma HasKeyAppend<V>(d: Dict<V>, k: string, v: V, key: string)
    ensures HasKey(d + [(k, v)], key) <==> HasKey(d, key) || key == k
  {
    assert KeysOf(d + [(k, v)]) == KeysOf(d) + [k];
  }

  /** After the merge the dict holds exactly the keys that were loaded or
      are default keys. */
  lemma {:induction false} MergeKeys<V>(loaded: Dict<V>, defaults: Dict<V>, key: string)
    ensures HasKey(WithDefaults(loaded, defaults), key) <==> HasKey(loaded, key) || HasKey(defaults, key)
    decreases |defaults|
  {
    if defaults != [] {
      var init := defaults[..|defaults| - 1];
      MergeKeys(loaded, init, key);
      var (k, v) := defaults[|defaults| - 1];
      HasKeyAppend(init, k, v, key);
      assert defaults == init + [(k, v)];
      HasKeyAppend(WithDefaults(loaded, init), k, v, key);
    }
  }

  lemma LookupAppend<V>(d: Dict<V>, k: string, v: V, key: string)
    ensures Lookup(d + [(k, v)], key)
         == if HasKey(d, key) then Lookup(d, key) else if key == k then Some(v) else None
    decreases |d|
  {
    if d != [] {
      assert (d + [(k, v)])[1..] == d[1..] + [(k, v)];
      LookupAppend(d[1..], k, v, key);
    }
  }

  /** A key the file holds keeps the file's value; a missing default key
      gets the default value; any other key stays absent. */
  lemma {:induction false} MergeLookup<V>(loaded: Dict<V>, defaults: Dict<V>, key: string)
    ensures Lookup(WithDefaults(loaded, defaults), key)
         == if HasKey(loaded, key) then Lookup(loaded, key) else Lookup(defaults, key)
    decreases |defaults|
  {
    if defaults != [] {
      var init := defaults[..|defaults| - 1];
      MergeLookup(loaded, init, key);
      var merged := WithDefaults(loaded, init);
      var (k, v) := defaults[|defaults| - 1];
      assert defaults == init + [(k, v)];
      LookupAppend(init, k, v, key);
      LookupAppend(merged, k, v, key);
      MergeKeys(loaded, init, key);
      MergeKeys(loaded, init, k);
    }
  }

  /** The merge never introduces a duplicate key. */
  lemma {:induction false} MergeDistinct<V>(loaded: Dict<V>, defaults: Dict<V>)
    requires DistinctKeys(loaded)
    ensures DistinctKeys(WithDefaults(loaded, defaults))
    decreases |defaults|
  {
    if defaults != [] {
      var init := defaults[..|defaults| - 1];
      MergeDistinct(loaded, init);
      var merged := WithDefaults(loaded, init);
      var (k, v) := defaults[|defaults| - 1];
      if !HasKey(merged, k) {
        var d := merged + [(k, v)];
        forall a, b | 0 <= a < b < |d| ensures d[a].0 != d[b].0 {
          if b == |merged| {
            assert KeysOf(merged)[a] == merged[a].0;
          }
        }
      }
    }
  }

  /** Merging a second time changes nothing. */
  lemma MergeIdempotent<V>(loaded: Dict<V>, defaults: Dict<V>)
    ensures WithDefaults(WithDefaults(loaded, defaults), defaults) == WithDefaults(loaded, defaults)
  {
    forall j | 0 <= j < |defaults|
      ensures HasKey(WithDefaults(loaded, defaults), defaults[j].0)
    {
      MergeKeys(loaded, defaults, defaults[j].0);
    }
    MergeAgain(WithDefaults(loaded, defaults), defaults);
  }

  /** Merging defaults into a dict that already holds each of their keys
      adds nothing: the case of the file an earlier run wrote with the
      defaults, or an edited file that holds all five keys. */
  lemma {:induction false} MergeAgain<V>(config: Dict<V>, defaults: Dict<V>)
    requires forall j :: 0 <= j < |defaults| ==> HasKey(config, defaults[j].0)
    ensures WithDefaults(config, defaults) == config
    decreases |defaults|
  {
    if defaults != [] {
      MergeAgain(config, defaults[..|defaults| - 1]);
    }
  }

  // ---------------------------------------------------------------------
  // `_load_config`

  /** What reading the configuration file can give: no file; a file that
      cannot be read or parsed; a JSON object; or another JSON value, with
      the default keys for which Python's `key in value` holds, or nothing
      when `in` itself raises (numbers, booleans, `null`). */
  datatype Stored<V> =
    | NoFile
    | Unreadable
    | Object(fields: Dict<V>)
    | NonObject(value: V, contains: Option<set<string>>)

  /** What `_load_config` returns: a dict, or the non-object value itself
      when the merge loop found nothing missing in it. */
  datatype Loaded<V> = Mapping(entries: Dict<V>) | Verbatim(value: V)

  /** `_load_config`: the result, and whether the defaults are written out
      (which happens only when no file exists). For a non-object value the
      item assignment raises unless nothing is missing, which falls back
      to the defaults. */
  function LoadConfig<V>(stored: Stored<V>, defaults: Dict<V>): (Loaded<V>, bool) {
    match stored
    case NoFile => (Mapping(defaults), true)
    case Unreadable => (Mapping(defaults), false)
    case Object(fields) => (Mapping(WithDefaults(fields, defaults)), false)
    case NonObject(value, contains) =>
      if contains.Some? && forall j :: 0 <= j < |defaults| ==> defaults[j].0 in contains.value
      then (Verbatim(value), false)
      else (Mapping(defaults), false)
  }

  /** Loading always yields a dict holding every default key, except for a
      non-object file value that `in` reports as holding them all; loaded
      values win over defaults; only a missing file writes the defaults. */
  lemma LoadConfigComplete<V>(stored: Stored<V>, defaults: Dict<V>, key: string)
    ensures var (r, writes) := LoadConfig(stored, defaults);
            && (writes <==> stored.NoFile?)
            && (r.Verbatim? <==>
                  && stored.NonObject? && stored.contains.Some?
                  && forall j :: 0 <= j < |defaults| ==> defaults[j].0 in stored.contains.value)
            && (r.Mapping? && HasKey(defaults, key) ==> HasKey(r.entries, key))
            && (stored.Object? ==>
                  Lookup(r.entries, key)
                  == if HasKey(stored.fields, key) then Lookup(stored.fields, key) else Lookup(defaults, key))
            && (!stored.Object? && r.Mapping? ==> r.entries == defaults)
  {
    if stored.Object? {
      MergeKeys(stored.fields, defaults, key);
      MergeLookup(stored.fields, defaults, key);
    }
  }
}
