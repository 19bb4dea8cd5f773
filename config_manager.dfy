/** The configuration manager (scripts/config_manager.py): a JSON-like
    configuration tree, dot-path reads and writes, and the recursive merge
    of a loaded file over the defaults. Reading and writing the files
    themselves (`json`/`yaml`) is outside the model: the constructor is
    given the already-parsed top-level object of the file, if there is one. */
module ConfigManager {
  import opened Text
  import opened JsonValue

  /** `DEFAULT_CONFIG`: five sections, each a dict. */
  function DefaultConfig(): (r: map<string, Val>)
    ensures r.Keys == {"project", "paths", "extraction", "dataset", "formatting"}
    ensures forall k :: k in r ==> r[k].Obj?
  {
    map[
      "project" := Obj(map[
        "name" := Str("ProjectNekoMuseMeta"),
        "version" := Str("1.0.0"),
        "description" := Str("Neko Muse Character Meta Distillation")]),
      "paths" := Obj(map[
        "data_dir" := Str("data"),
        "output_dir" := Str("output"),
        "templates_dir" := Str("templates")]),
      "extraction" := Obj(map[
        "include_personality" := Bool(true),
        "include_dialogue" := Bool(true),
        "include_relationships" := Bool(true),
        "max_dialogue_samples" := Int(100)]),
      "dataset" := Obj(map[
        "train_split" := Float(0.8),
        "val_split" := Float(0.1),
        "test_split" := Float(0.1),
        "shuffle" := Bool(true)]),
      "formatting" := Obj(map[
        "default_format" := Str("alpaca"),
        "ensure_ascii" := Bool(false),
        "indent" := Int(2)])
    ]
  }

  /** The value at a path of keys: the default as soon as a key is missing
      or the value reached so far is not a dict. */
  function Lookup(v: Val, keys: seq<string>, default: Val): (r: Val)
    ensures |keys| == 1 ==> r == (if v.Obj? && keys[0] in v.fields then v.fields[keys[0]] else default)
    decreases |keys|
  {
    if keys == [] then v
    else if v.Obj? && keys[0] in v.fields then Lookup(v.fields[keys[0]], keys[1..], default)
    else default
  }

  /** What `set` walks into at key k of dict m: the existing value, or the
      empty dict it inserts for a missing key. */
  function ChildOf(m: map<string, Val>, k: string): Val {
    if k in m then m[k] else Obj(map[])
  }

  /** `set` on the tree m with the non-empty path `keys`: `None` when an
      intermediate value that exists is not a dict, for which Python raises
      TypeError before anything has been changed. */
  function SetPath(m: map<string, Val>, keys: seq<string>, v: Val): (r: Option<map<string, Val>>)
    requires |keys| >= 1
    ensures r.Some? ==> r.value.Keys == m.Keys + {keys[0]}
    decreases |keys|
  {
    if |keys| == 1 then Some(m[keys[0] := v])
    else
      var child := ChildOf(m, keys[0]);
      if !child.Obj? then None
      else
        match SetPath(child.fields, keys[1..], v)
        case None => None
        case Some(c) => Some(m[keys[0] := Obj(c)])
  }

  /** `_merge_configs(base, updates)` on values: a key of `updates` replaces
      the base value unless both are dicts, which are merged in turn; keys
      only in `base` keep their values. */
  function Merge(base: map<string, Val>, updates: map<string, Val>): (r: map<string, Val>)
    ensures r.Keys == base.Keys + updates.Keys
    decreases Obj(updates), 1
  {
    map k | k in base.Keys + updates.Keys :: MergedValue(base, updates, k)
  }

  /** The merged value of one key. */
  function MergedValue(base: map<string, Val>, updates: map<string, Val>, k: string): (r: Val)
    requires k in base || k in updates
    ensures k !in updates ==> r == base[k]
    ensures k in updates && !updates[k].Obj? ==> r == updates[k]
    ensures k in updates && updates[k].Obj? ==> r.Obj?
    decreases Obj(updates), 0
  {
    if k in updates then
      if k in base && base[k].Obj? && updates[k].Obj? then
        assert updates[k] < Obj(updates);
        Obj(Merge(base[k].fields, updates[k].fields))
      else updates[k]
    else base[k]
  }

  /** A manager and its configuration tree. */
  class Manager {
    var config: map<string, Val>

    /** `ConfigManager(config_path)`: a copy of the defaults, with the
        object parsed from the file merged over it when the file exists. */
    constructor (loaded: Option<map<string, Val>>)
      ensures loaded.None? ==> config == DefaultConfig()
      ensures loaded.Some? ==> config == Merge(DefaultConfig(), loaded.value)
    {
      var c := DefaultConfig();
      if loaded.Some? {
        c := MergeInto(c, loaded.value);
      }
      config := c;
    }

    /** `get(key_path, default)` */
    method Get(keyPath: string, default: Val) returns (v: Val)
      ensures v == Lookup(Obj(config), Split(keyPath, '.'), default)
    {
      var keys := Split(keyPath, '.');
      v := Obj(config);
      var i := 0;
      while i < |keys|
        invariant 0 <= i <= |keys|
        invariant Lookup(Obj(config), keys, default) == Lookup(v, keys[i..], default)
      {
        assert keys[i..][1..] == keys[i + 1..];
        if v.Obj? && keys[i] in v.fields {
          v := v.fields[keys[i]];
        } else {
          return default;
        }
        i := i + 1;
      }
    }

    /** `set(key_path, value)`: walks down the path inserting empty dicts
        for missing keys, then stores the value under the last key. `ok` is
        false where Python raises TypeError, and then nothing has changed. */
    method Set(keyPath: string, value: Val) returns (ok: bool)
      modifies this
      ensures ok == SetPath(old(config), Split(keyPath, '.'), value).Some?
      ensures ok ==> config == SetPath(old(config), Split(keyPath, '.'), value).value
      ensures !ok ==> config == old(config)
    {
      var keys := Split(keyPath, '.');
      var last := |keys| - 1;
      // the dicts along the path, outermost first
      var stack: seq<map<string, Val>> := [config];
      var i := 0;
      while i < last
        invariant 0 <= i <= last && |stack| == i + 1 && stack[0] == config
        invariant forall j :: 0 <= j < i ==> ChildOf(stack[j], keys[j]) == Obj(stack[j + 1])
      {
        var child := ChildOf(stack[i], keys[i]);
        if !child.Obj? {
          ChainFails(stack, keys, value, i, 0);
          return false;
        }
        stack := stack + [child.fields];
        i := i + 1;
      }
      var cur := stack[last][keys[last] := value];
      assert keys[last..] == [keys[last]];
      while i > 0
        invariant 0 <= i <= last
        invariant SetPath(stack[i], keys[i..], value) == Some(cur)
      {
        i := i - 1;
        assert keys[i..][1..] == keys[i + 1..];
        cur := stack[i][keys[i] := Obj(cur)];
      }
      config := cur;
      ok := true;
    }
  }

  /** A non-dict met on the way down makes every enclosing `set` fail. */
  lemma {:induction false} ChainFails(stack: seq<map<string, Val>>, keys: seq<string>, v: Val, i: nat, j: nat)
    requires j <= i < |keys| - 1 && |stack| == i + 1
    requires forall l :: 0 <= l < i ==> ChildOf(stack[l], keys[l]) == Obj(stack[l + 1])
    requires !ChildOf(stack[i], keys[i]).Obj?
    ensures SetPath(stack[j], keys[j..], v) == None
    decreases i - j
  {
    assert keys[j..][1..] == keys[j + 1..];
    if j < i {
      ChainFails(stack, keys, v, i, j + 1);
    }
  }

  /** `_merge_configs` as it runs: a loop over the keys of `updates` that
      assigns or recurses into dicts present on both sides. */
  method MergeInto(base: map<string, Val>, updates: map<string, Val>) returns (r: map<string, Val>)
    ensures r == Merge(base, updates)
    decreases Obj(updates)
  {
    r := base;
    var todo := updates.Keys;
    while todo != {}
      invariant todo <= updates.Keys
      invariant forall k :: k in r <==> k in base || (k in updates && k !in todo)
      invariant forall k :: k in r ==> r[k] == if k in updates && k !in todo then MergedValue(base, updates, k) else base[k]
      decreases |todo|
    {
      var key :| key in todo;
      var value := updates[key];
      assert key in r <==> key in base;
      assert key in r ==> r[key] == base[key];
      if key in r && r[key].Obj? && value.Obj? {
        assert value < Obj(updates);
        var sub := MergeInto(r[key].fields, value.fields);
        assert Obj(sub) == MergedValue(base, updates, key);
        r := r[key := Obj(sub)];
      } else {
        assert value == MergedValue(base, updates, key);
        r := r[key := value];
      }
      todo := todo - {key};
    }
    MergeByKeys(base, updates, r);
  }

  /** A map with the merge's keys and each key's merged value is the merge. */
  lemma MergeByKeys(base: map<string, Val>, updates: map<string, Val>, r: map<string, Val>)
    requires forall k :: k in r <==> k in base || k in updates
    requires forall k :: k in r ==> r[k] == MergedValue(base, updates, k)
    ensures r == Merge(base, updates)
  {
  }

  /** After a successful `set`, `get` of the same path gives the value set. */
  lemma {:induction false} GetAfterSet(m: map<string, Val>, keys: seq<string>, v: Val, default: Val)
    requires |keys| >= 1 && SetPath(m, keys, v).Some?
    ensures Lookup(Obj(SetPath(m, keys, v).value), keys, default) == v
    decreases |keys|
  {
    if |keys| > 1 {
      GetAfterSet(ChildOf(m, keys[0]).fields, keys[1..], v, default);
    }
  }

  /** `set` succeeds exactly when every value that already exists at a
      proper prefix of the path is a dict (a missing one reads as the empty
      dict that `set` would insert). */
  lemma {:induction false} SetSucceedsIff(m: map<string, Val>, keys: seq<string>, v: Val)
    requires |keys| >= 1
    ensures SetPath(m, keys, v).Some? <==>
              forall j :: 0 <= j < |keys| ==> Lookup(Obj(m), keys[..j], Obj(map[])).Obj?
    decreases |keys|
  {
    var empty := Obj(map[]);
    assert Lookup(Obj(m), keys[..0], empty) == Obj(m);
    if |keys| > 1 {
      var child := ChildOf(m, keys[0]);
      // Lookup of keys[..j] from m is Lookup of keys[1..][..j-1] from the child
      forall j | 1 <= j < |keys|
        ensures Lookup(Obj(m), keys[..j], empty) == Lookup(child, keys[1..][..j - 1], empty)
      {
        assert keys[..j][1..] == keys[1..][..j - 1];
        if keys[0] !in m {
          LookupMissing(keys[1..][..j - 1], empty);
        }
      }
      if child.Obj? {
        SetSucceedsIff(child.fields, keys[1..], v);
        if forall j :: 0 <= j < |keys| - 1 ==> Lookup(Obj(child.fields), keys[1..][..j], empty).Obj? {
          forall j | 0 <= j < |keys| ensures Lookup(Obj(m), keys[..j], empty).Obj? {
            if j >= 1 {
              assert Lookup(Obj(m), keys[..j], empty) == Lookup(child, keys[1..][..j - 1], empty);
            }
          }
        } else {
          var j :| 0 <= j < |keys| - 1 && !Lookup(Obj(child.fields), keys[1..][..j], empty).Obj?;
          assert Lookup(Obj(m), keys[..j + 1], empty) == Lookup(child, keys[1..][..j], empty);
        }
      } else {
        assert Lookup(Obj(m), keys[..1], empty) == Lookup(child, keys[1..][..0], empty);
      }
    }
  }

  /** Below a missing key every lookup gives the empty-dict default. */
  lemma {:induction false} LookupMissing(keys: seq<string>, empty: Val)
    requires empty == Obj(map[])
    ensures Lookup(empty, keys, empty) == empty
  {
  }

  /** After a successful `set`, every proper prefix of the path holds a
      dict: the missing intermediates have been created. */
  lemma {:induction false} SetCreatesIntermediates(m: map<string, Val>, keys: seq<string>, v: Val, j: nat)
    requires |keys| >= 1 && SetPath(m, keys, v).Some? && j < |keys|
    ensures Lookup(Obj(SetPath(m, keys, v).value), keys[..j], Null).Obj?
    decreases |keys|
  {
    if j > 0 {
      var child := ChildOf(m, keys[0]);
      SetCreatesIntermediates(child.fields, keys[1..], v, j - 1);
      assert keys[..j][1..] == keys[1..][..j - 1];
    }
  }

  /** `set` changes nothing at a path that leaves the set path: one that
      differs from it at some position before either ends. */
  lemma {:induction false} SetKeepsOtherPaths(m: map<string, Val>, keys: seq<string>, v: Val,
                                              other: seq<string>, j: nat, default: Val)
    requires |keys| >= 1 && SetPath(m, keys, v).Some?
    requires j < |keys| && j < |other| && other[j] != keys[j]
    ensures Lookup(Obj(SetPath(m, keys, v).value), other, default) == Lookup(Obj(m), other, default)
    decreases |keys|
  {
    var m' := SetPath(m, keys, v).value;
    if other[0] != keys[0] {
      SetKeepsOtherKey(m, keys, v, other[0]);
      assert Lookup(Obj(m'), other, default) ==
             if other[0] in m' then Lookup(m'[other[0]], other[1..], default) else default;
    } else {
      var child := ChildOf(m, keys[0]);
      assert m' == m[keys[0] := Obj(SetPath(child.fields, keys[1..], v).value)];
      SetKeepsOtherPaths(child.fields, keys[1..], v, other[1..], j - 1, default);
      if keys[0] !in m {
        LookupMissing(other[1..], Obj(map[]));
        assert Lookup(Obj(child.fields), other[1..], default) == Lookup(Obj(map[]), other[1..], default);
        EmptyLookup(other[1..], default);
      }
    }
  }

  /** A successful `set` leaves every top-level key other than the path's
      first one as it was. */
  lemma SetKeepsOtherKey(m: map<string, Val>, keys: seq<string>, v: Val, k: string)
    requires |keys| >= 1 && SetPath(m, keys, v).Some? && k != keys[0]
    ensures k in SetPath(m, keys, v).value <==> k in m
    ensures k in m ==> SetPath(m, keys, v).value[k] == m[k]
  {
  }

  /** Looking up below the empty dict finds nothing. */
  lemma EmptyLookup(keys: seq<string>, default: Val)
    requires keys != []
    ensures Lookup(Obj(map[]), keys, default) == default
  {
  }

  /** A key of `updates` overwrites the base value unless both values are
      dicts, which are merged; a key absent from `updates` keeps its base
      value. */
  lemma MergeKeys(base: map<string, Val>, updates: map<string, Val>, k: string)
    ensures k in updates && !(k in base && base[k].Obj? && updates[k].Obj?) ==>
              Merge(base, updates)[k] == updates[k]
    ensures k in updates && k in base && base[k].Obj? && updates[k].Obj? ==>
              Merge(base, updates)[k] == Obj(Merge(base[k].fields, updates[k].fields))
    ensures k !in updates && k in base ==> Merge(base, updates)[k] == base[k]
  {
  }

  /** Merging an empty update changes nothing. */
  lemma MergeEmpty(base: map<string, Val>)
    ensures Merge(base, map[]) == base
  {
  }

  /** Merging the same update a second time changes nothing more. */
  lemma {:induction false} MergeIdempotent(base: map<string, Val>, updates: map<string, Val>)
    ensures Merge(Merge(base, updates), updates) == Merge(base, updates)
    decreases Obj(updates)
  {
    var once := Merge(base, updates);
    forall k | k in once ensures once[k] == MergedValue(once, updates, k) {
      if k in updates && once[k].Obj? && updates[k].Obj? {
        assert updates[k] < Obj(updates);
        if k in base && base[k].Obj? {
          MergeIdempotent(base[k].fields, updates[k].fields);
        } else {
          MergeSelf(updates[k].fields);
        }
      }
    }
    MergeByKeys(once, updates, once);
  }

  /** A dict merged over itself is itself. */
  lemma {:induction false} MergeSelf(m: map<string, Val>)
    ensures Merge(m, m) == m
    decreases Obj(m)
  {
    forall k | k in m ensures m[k] == MergedValue(m, m, k) {
      if m[k].Obj? {
        assert m[k] < Obj(m);
        MergeSelf(m[k].fields);
      }
    }
    MergeByKeys(m, m, m);
  }

  /** A manager created without a configuration file reads the defaults,
      for example the default output format,
      `get("formatting.default_format") == "alpaca"`. */
  lemma DefaultFormat(default: Val)
    ensures Lookup(Obj(DefaultConfig()), ["formatting", "default_format"], default) == Str("alpaca")
  {
    var keys := ["formatting", "default_format"];
    assert keys[1..][1..] == [];
  }

  /** A dotted path of two keys without dots splits into those keys. */
  lemma SplitDotted(a: string, b: string)
    requires forall i :: 0 <= i < |a| ==> a[i] != '.'
    requires forall i :: 0 <= i < |b| ==> b[i] != '.'
    ensures Split(a + "." + b, '.') == [a, b]
  {
    SplitAt(a, '.', b);
    SplitNoSep(b, '.');
  }
}
