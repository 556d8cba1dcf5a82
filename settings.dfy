/**
 * `Config`: the parser's settings as a nested dictionary, the built-in defaults, the
 * recursive merge of a loaded settings file into them, and the lookup of a setting by
 * a dotted path such as `parsing.ignore_case`.
 *
 * Values have value semantics here: the merge produces the new dictionary of each
 * level, which the object then holds.
 */
module Settings {
  import opened Wrappers
  import opened Text

  /** A settings value as JSON or YAML loads it: a leaf, a list or a nested dictionary. */
  datatype Value =
    | Null
    | Bool(b: bool)
    | Int(i: int)
    | Str(s: string)
    | List(items: seq<Value>)
    | Dict(entries: map<string, Value>)

  /** The `parsing` section of `Config.DEFAULT_CONFIG`. */
  const ParsingDefaults: map<string, Value> := map[
    "ignore_case" := Bool(true),
    "max_tag_length" := Int(50),
    "custom_tag_patterns" := List([]),
    "custom_todo_patterns" := List([Str("TODO:"), Str("FIXME:"), Str("NOTE:")]),
    "extract_urls" := Bool(true),
    "extract_emails" := Bool(false)]

  /** The `export` section of `Config.DEFAULT_CONFIG`. */
  const ExportDefaults: map<string, Value> := map[
    "default_format" := Str("json"),
    "csv_delimiter" := Str(","),
    "include_content" := Bool(false),
    "max_content_preview" := Int(100)]

  /** The `summary` section of `Config.DEFAULT_CONFIG`. */
  const SummaryDefaults: map<string, Value> := map[
    "max_tags_shown" := Int(10),
    "max_keywords_shown" := Int(8),
    "include_word_count" := Bool(true),
    "include_structure" := Bool(true)]

  /** `Config.DEFAULT_CONFIG`. */
  const DefaultConfig: map<string, Value> :=
    map["parsing" := Dict(ParsingDefaults), "export" := Dict(ExportDefaults), "summary" := Dict(SummaryDefaults)]

  // ---------------------------------------------------------------- merge

  /**
   * What `merge_dict(default, loaded)` leaves in `default`: every loaded key holds the
   * loaded value, except that a dictionary loaded over a dictionary is merged into it
   * one level down; keys only the defaults have keep their values.
   */
  function Merged(default: map<string, Value>, loaded: map<string, Value>): (r: map<string, Value>)
    ensures r.Keys == default.Keys + loaded.Keys
    decreases Dict(loaded)
  {
    map k | k in default.Keys + loaded.Keys ::
      if k !in loaded then default[k]
      else if k in default && default[k].Dict? && loaded[k].Dict? then
        Dict(Merged(default[k].entries, loaded[k].entries))
      else loaded[k]
  }

  /** What `merge_dict` stores at `key` when it meets the loaded `value` there. */
  function MergedEntry(current: map<string, Value>, key: string, value: Value): Value
    decreases value, 1
  {
    if key in current && current[key].Dict? && value.Dict? then Dict(Merged(current[key].entries, value.entries))
    else value
  }

  /**
   * `merge_dict(default, loaded)`: the loaded keys, one at a time, each overwriting the
   * default or, for a dictionary over a dictionary, merged into it recursively.
   */
  method MergeDict(default: map<string, Value>, loaded: map<string, Value>) returns (r: map<string, Value>)
    ensures r == Merged(default, loaded)
    decreases Dict(loaded), 0
  {
    r := default;
    var pending := loaded.Keys;
    while pending != {}
      invariant pending <= loaded.Keys
      invariant forall k :: k in r <==> k in default || (k in loaded && k !in pending)
      invariant forall k :: k in r ==> r[k] == if k in loaded && k !in pending then MergedEntry(default, k, loaded[k]) else default[k]
      decreases |pending|
    {
      var key :| key in pending;
      r := MergeKey(r, key, loaded[key]);
      pending := pending - {key};
    }
    MergedPointwise(default, loaded, r);
  }

  /** A dictionary that agrees with the merge key by key is the merge. */
  lemma MergedPointwise(default: map<string, Value>, loaded: map<string, Value>, r: map<string, Value>)
    requires forall k :: k in r <==> k in default || k in loaded
    requires forall k :: k in r ==> r[k] == if k in loaded then MergedEntry(default, k, loaded[k]) else default[k]
    ensures r == Merged(default, loaded)
  {
  }

  /** One iteration of `merge_dict`'s loop: recurse into a dictionary over a dictionary, else overwrite. */
  method MergeKey(current: map<string, Value>, key: string, value: Value) returns (r: map<string, Value>)
    ensures r == current[key := MergedEntry(current, key, value)]
    decreases value, 1
  {
    if key in current && current[key].Dict? && value.Dict? {
      var inner := MergeDict(current[key].entries, value.entries);
      r := current[key := Dict(inner)];
    } else {
      r := current[key := value];
    }
  }

  // ---------------------------------------------------------------- lookup

  /** The value reached from `v` by following `keys` through nested dictionaries, if every step exists. */
  function Descend(v: Value, keys: seq<string>): Option<Value>
  {
    if keys == [] then Some(v)
    else if v.Dict? && keys[0] in v.entries then Descend(v.entries[keys[0]], keys[1..])
    else None
  }

  /** `get(key_path, default)` on the dictionary `v`. */
  function GetOr(v: Value, keyPath: string, default: Value): Value
  {
    match Descend(v, SplitOn(keyPath, '.'))
    case Some(w) => w
    case None => default
  }

  /** Following a path in two parts is following the first part, then the second from there. */
  lemma {:induction false} DescendAppend(v: Value, a: seq<string>, b: seq<string>)
    ensures Descend(v, a + b) == if Descend(v, a).Some? then Descend(Descend(v, a).value, b) else None
    decreases |a|
  {
    if a == [] {
      assert a + b == b;
    } else {
      assert (a + b)[0] == a[0] && (a + b)[1..] == a[1..] + b;
      if v.Dict? && a[0] in v.entries {
        DescendAppend(v.entries[a[0]], a[1..], b);
      }
    }
  }

  /** The walk stops at segment `i`: the value reached so far is not a dictionary holding `keys[i]`. */
  predicate StopsAt(v: Value, keys: seq<string>, i: nat)
  {
    i < |keys| && Descend(v, keys[..i]).Some?
    && !(Descend(v, keys[..i]).value.Dict? && keys[i] in Descend(v, keys[..i]).value.entries)
  }

  /**
   * The walk fails exactly when some segment is missing or some value on the way is not
   * a dictionary; then `get` answers its default.
   */
  lemma {:induction false} DescendFails(v: Value, keys: seq<string>)
    ensures Descend(v, keys).None? <==> exists i: nat :: StopsAt(v, keys, i)
    decreases |keys|
  {
    if keys != [] {
      assert keys[..0] == [];
      if v.Dict? && keys[0] in v.entries {
        var w := v.entries[keys[0]];
        DescendFails(w, keys[1..]);
        forall i: nat | 1 <= i <= |keys| ensures Descend(v, keys[..i]) == Descend(w, keys[1..][..i - 1]) {
          assert keys[..i][0] == keys[0] && keys[..i][1..] == keys[1..][..i - 1];
        }
        if exists i: nat :: StopsAt(w, keys[1..], i) {
          var i: nat :| StopsAt(w, keys[1..], i);
          assert StopsAt(v, keys, i + 1);
        }
        if exists i: nat :: StopsAt(v, keys, i) {
          var i: nat :| StopsAt(v, keys, i);
          assert i >= 1;
          assert StopsAt(w, keys[1..], i - 1);
        }
      } else {
        assert StopsAt(v, keys, 0);
      }
    }
  }

  /**
   * `get` splits its path at the dots and follows every segment: for dot-free segments,
   * the lookup of their dotted join is the value at the end of the path, or the default.
   */
  lemma GetFollowsSegments(v: Value, keys: seq<string>, default: Value)
    requires |keys| >= 1 && forall i :: 0 <= i < |keys| ==> Lacks(keys[i], '.')
    ensures GetOr(v, JoinWith(keys, '.'), default) == if Descend(v, keys).Some? then Descend(v, keys).value else default
  {
    SplitJoin(keys, '.');
  }

  /**
   * Along a path on which the defaults and the loaded settings both have dictionaries,
   * the merged settings have the merge of those two dictionaries.
   */
  lemma {:induction false} MergedAlongPath(
    d: map<string, Value>, l: map<string, Value>, keys: seq<string>, dm: map<string, Value>, lm: map<string, Value>)
    requires Descend(Dict(d), keys) == Some(Dict(dm)) && Descend(Dict(l), keys) == Some(Dict(lm))
    ensures Descend(Dict(Merged(d, l)), keys) == Some(Dict(Merged(dm, lm)))
    decreases |keys|
  {
    if keys != [] {
      var k := keys[0];
      var dv, lv := d[k], l[k];
      assert dv.Dict? && lv.Dict? by {
        if keys[1..] != [] {
        } else {
          assert Descend(dv, keys[1..]) == Some(dv);
          assert Descend(lv, keys[1..]) == Some(lv);
        }
      }
      assert Merged(d, l)[k] == Dict(Merged(dv.entries, lv.entries));
      MergedAlongPath(dv.entries, lv.entries, keys[1..], dm, lm);
    }
  }

  /** A key only the defaults have, at any depth, keeps its default value after the merge. */
  lemma DefaultKeptAtDepth(
    d: map<string, Value>, l: map<string, Value>, keys: seq<string>, dm: map<string, Value>, lm: map<string, Value>, k: string)
    requires Descend(Dict(d), keys) == Some(Dict(dm)) && Descend(Dict(l), keys) == Some(Dict(lm))
    requires k in dm && k !in lm
    ensures Descend(Dict(Merged(d, l)), keys + [k]) == Some(dm[k])
  {
    MergedAlongPath(d, l, keys, dm, lm);
    DescendAppend(Dict(Merged(d, l)), keys, [k]);
  }

  /**
   * A loaded key, at any depth, holds the loaded value after the merge unless it puts
   * a dictionary over a dictionary.
   */
  lemma LoadedWinsAtDepth(
    d: map<string, Value>, l: map<string, Value>, keys: seq<string>, dm: map<string, Value>, lm: map<string, Value>, k: string)
    requires Descend(Dict(d), keys) == Some(Dict(dm)) && Descend(Dict(l), keys) == Some(Dict(lm))
    requires k in lm && !(k in dm && dm[k].Dict? && lm[k].Dict?)
    ensures Descend(Dict(Merged(d, l)), keys + [k]) == Some(lm[k])
  {
    MergedAlongPath(d, l, keys, dm, lm);
    DescendAppend(Dict(Merged(d, l)), keys, [k]);
  }

  /** Merging a dictionary into itself changes nothing. */
  lemma {:induction false} MergedSelf(m: map<string, Value>)
    ensures Merged(m, m) == m
    decreases Dict(m)
  {
    forall k | k in m ensures Merged(m, m)[k] == m[k] {
      if m[k].Dict? {
        MergedSelf(m[k].entries);
      }
    }
  }

  /** Loading the same settings a second time changes nothing. */
  lemma {:induction false} MergeIdempotent(d: map<string, Value>, l: map<string, Value>)
    ensures Merged(Merged(d, l), l) == Merged(d, l)
    decreases Dict(l)
  {
    var r := Merged(d, l);
    forall k | k in r ensures Merged(r, l)[k] == r[k] {
      if k in l && r[k].Dict? && l[k].Dict? {
        if k in d && d[k].Dict? {
          MergeIdempotent(d[k].entries, l[k].entries);
        } else {
          MergedSelf(l[k].entries);
        }
      }
    }
  }

  // ---------------------------------------------------------------- the settings object

  /** The dictionary `get_custom_patterns` returns. */
  datatype Patterns = Patterns(tags: Value, todos: Value)

  /** The settings the object holds after construction: the defaults, merged with a loaded dictionary if there is one. */
  function Initial(loaded: Option<Value>): map<string, Value>
  {
    if loaded.Some? && loaded.value.Dict? then Merged(DefaultConfig, loaded.value.entries) else DefaultConfig
  }

  class Config {
    var config: map<string, Value>

    /**
     * `Config(config_path)`, given what loading the settings file produced: `None` when
     * no file was found or it could not be read; a loaded value that is not a
     * dictionary is reported and ignored.
     */
    constructor (loaded: Option<Value>)
      ensures config == Initial(loaded)
    {
      var settings := DefaultConfig;
      if loaded.Some? && loaded.value.Dict? {
        settings := MergeDict(DefaultConfig, loaded.value.entries);
      }
      config := settings;
    }

    /** `_merge_config(loaded_config)`. */
    method MergeConfig(loaded: map<string, Value>)
      modifies this
      ensures config == Merged(old(config), loaded)
    {
      config := MergeDict(config, loaded);
    }

    /** `get(key_path, default)`: walk the dotted path segment by segment. */
    method Get(keyPath: string, default: Value) returns (r: Value)
      ensures r == GetOr(Dict(config), keyPath, default)
    {
      var keys := SplitOn(keyPath, '.');
      var value := Dict(config);
      var i := 0;
      while i < |keys|
        invariant 0 <= i <= |keys|
        invariant Descend(Dict(config), keys) == Descend(value, keys[i..])
      {
        var key := keys[i];
        assert keys[i..][0] == key && keys[i..][1..] == keys[i + 1..];
        if value.Dict? && key in value.entries {
          value := value.entries[key];
        } else {
          return default;
        }
        i := i + 1;
      }
      assert keys[i..] == [];
      return value;
    }

    /** `get_custom_patterns()`: the custom tag and todo patterns, empty lists when unset. */
    method GetCustomPatterns() returns (p: Patterns)
      ensures p.tags == GetOr(Dict(config), "parsing.custom_tag_patterns", List([]))
      ensures p.todos == GetOr(Dict(config), "parsing.custom_todo_patterns", List([]))
    {
      var tags := Get("parsing.custom_tag_patterns", List([]));
      var todos := Get("parsing.custom_todo_patterns", List([]));
      p := Patterns(tags, todos);
    }
  }

  // ---------------------------------------------------------------- the defaults

  /** A dotted path of two dot-free segments splits into those segments. */
  lemma DottedPair(keyPath: string, a: string, b: string)
    requires keyPath == a + ['.'] + b && Lacks(a, '.') && Lacks(b, '.')
    ensures SplitOn(keyPath, '.') == [a, b]
  {
    SplitJoin([a, b], '.');
  }

  /** Looking up a two-segment path, once the dotted path is known to split into it. */
  lemma GetPair(v: Value, keyPath: string, a: string, b: string, default: Value)
    requires SplitOn(keyPath, '.') == [a, b]
    requires v.Dict? && a in v.entries && v.entries[a].Dict? && b in v.entries[a].entries
    ensures GetOr(v, keyPath, default) == v.entries[a].entries[b]
  {
    var ks := [a, b];
    var w := v.entries[a];
    assert ks[0] == a && ks[1..] == [b];
    assert Descend(v, ks) == Descend(w, [b]);
    assert [b][0] == b && [b][1..] == [];
    assert Descend(w, [b]) == Descend(w.entries[b], []);
    assert Descend(v, SplitOn(keyPath, '.')) == Some(w.entries[b]);
  }

  lemma ParsingSection()
    ensures "parsing" in DefaultConfig && DefaultConfig["parsing"] == Dict(ParsingDefaults)
  {
  }

  lemma SummarySection()
    ensures "summary" in DefaultConfig && DefaultConfig["summary"] == Dict(SummaryDefaults)
  {
  }

  /** With no settings file the custom tag patterns are an empty list. */
  lemma DefaultTagPatterns(keyPath: string, default: Value)
    requires keyPath == "parsing.custom_tag_patterns"
    ensures GetOr(Dict(DefaultConfig), keyPath, default) == List([])
  {
    assert SplitOn(keyPath, '.') == ["parsing", "custom_tag_patterns"] by {
      DottedPair(keyPath, "parsing", "custom_tag_patterns");
    }
    ParsingSection();
    assert ParsingDefaults["custom_tag_patterns"] == List([]) by {
      assert "custom_tag_patterns" != "custom_todo_patterns" by {
        assert "custom_tag_patterns"[8] != "custom_todo_patterns"[8];
      }
    }
    GetPair(Dict(DefaultConfig), keyPath, "parsing", "custom_tag_patterns", default);
  }

  /** With no settings file the custom todo patterns are `TODO:`, `FIXME:` and `NOTE:`. */
  lemma DefaultTodoPatterns(keyPath: string, default: Value)
    requires keyPath == "parsing.custom_todo_patterns"
    ensures GetOr(Dict(DefaultConfig), keyPath, default) == List([Str("TODO:"), Str("FIXME:"), Str("NOTE:")])
  {
    assert SplitOn(keyPath, '.') == ["parsing", "custom_todo_patterns"] by {
      DottedPair(keyPath, "parsing", "custom_todo_patterns");
    }
    ParsingSection();
    assert ParsingDefaults["custom_todo_patterns"] == List([Str("TODO:"), Str("FIXME:"), Str("NOTE:")]);
    GetPair(Dict(DefaultConfig), keyPath, "parsing", "custom_todo_patterns", default);
  }

  /** With no settings file the summary shows at most ten tags. */
  lemma DefaultMaxTagsShown(keyPath: string, default: Value)
    requires keyPath == "summary.max_tags_shown"
    ensures GetOr(Dict(DefaultConfig), keyPath, default) == Int(10)
  {
    assert SplitOn(keyPath, '.') == ["summary", "max_tags_shown"] by {
      DottedPair(keyPath, "summary", "max_tags_shown");
    }
    SummarySection();
    assert SummaryDefaults["max_tags_shown"] == Int(10);
    GetPair(Dict(DefaultConfig), keyPath, "summary", "max_tags_shown", default);
  }
}
