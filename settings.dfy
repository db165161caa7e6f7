/** The plugin's display settings (libs/class-settings.php): two field tables
    with defaults, the merge that overwrites allowed keys, the precedence of
    per-user over global settings, the recursive sanitiser, and the updates
    that persist settings in WordPress' option and user-meta stores. */
module Settings {
  import opened Php

  /** A settings array: field name to value. */
  type Record = map<string, Value>

  /** Name of the option and of the user-meta entry holding the settings. */
  const OptionKey: string := "_kwlm_settings"

  /** Default global settings. */
  const GlobalFields: Record := map[
    "view" := Str("group"),
    "sort" := Str("newest"),
    "query" := Str(""),
    "custom_errors" := Str(""),
    "legends" := Str(""),
    "fold_sidebar" := Int(1),
    "truncate_download" := Int(1),
    "log_limit" := Int(0)
  ]

  /** `array_keys($this->global_fields)`. */
  const GlobalKeys: seq<string> :=
    ["view", "sort", "query", "custom_errors", "legends", "fold_sidebar", "truncate_download", "log_limit"]

  /** Default per-user settings: the global ones without `custom_errors`. */
  const UserFields: Record := map[
    "view" := Str("group"),
    "sort" := Str("newest"),
    "query" := Str(""),
    "legends" := Str(""),
    "fold_sidebar" := Int(1),
    "truncate_download" := Int(1),
    "log_limit" := Int(0)
  ]

  /** `array_keys($this->user_fields)`. */
  const UserKeys: seq<string> :=
    ["view", "sort", "query", "legends", "fold_sidebar", "truncate_download", "log_limit"]

  /** The field tables agree with their key lists, the user table is the
      global one minus `custom_errors`, and the defaults agree on the shared
      keys. */
  lemma FieldTables()
    ensures forall k :: k in GlobalFields <==> k in GlobalKeys
    ensures forall k :: k in UserFields <==> k in UserKeys
    ensures UserFields.Keys == GlobalFields.Keys - {"custom_errors"}
    ensures forall k :: k in UserFields ==> UserFields[k] == GlobalFields[k]
  {
    GlobalKeyList();
    UserKeyList();
    UserDefaultsAreGlobal();
  }

  lemma GlobalKeyList()
    ensures forall k :: k in GlobalFields <==> k in GlobalKeys
  {
  }

  lemma UserKeyList()
    ensures forall k :: k in UserFields <==> k in UserKeys
  {
  }

  lemma UserDefaultsAreGlobal()
    ensures UserFields == GlobalFields - {"custom_errors"}
  {
  }

  /** The user fields are the global fields but `custom_errors`. */
  lemma UserKeysAreGlobal()
    ensures forall k :: k in UserKeys ==> k in GlobalFields
    ensures "custom_errors" !in UserFields && "custom_errors" in GlobalFields
    ensures UserFields.Keys + {"custom_errors"} == GlobalFields.Keys
  {
    UserKeyList();
    UserDefaultsAreGlobal();
  }

  /** Whether merging `incoming` under `allowed` overwrites key `k`: only a
      non-empty array is merged, and only its allowed keys. */
  predicate Overwrites(incoming: Value, allowed: seq<string>, k: string) {
    incoming.Arr? && |incoming.entries| > 0 && k in incoming.entries && k in allowed
  }

  /** The result of `merge_settings($base, $incoming, $allowed)`. */
  function Merged(base: Record, incoming: Value, allowed: seq<string>): (r: Record)
    ensures !(incoming.Arr? && |incoming.entries| > 0) ==> r == base
    ensures forall k :: k in r <==> k in base || Overwrites(incoming, allowed, k)
    ensures forall k :: k in r ==> r[k] == (if Overwrites(incoming, allowed, k) then incoming.entries[k] else base[k])
  {
    if incoming.Arr? && |incoming.entries| > 0 then
      base + map k | k in incoming.entries && k in allowed :: incoming.entries[k]
    else base
  }

  /** `merge_settings`: walks the incoming array and overwrites each allowed
      key of the base in turn. */
  method MergeSettings(global: Record, incoming: Value, allowed: seq<string>) returns (r: Record)
    ensures r == Merged(global, incoming, allowed)
    ensures forall k :: k in r ==> k in global || k in allowed
  {
    r := global;
    if incoming.Arr? && |incoming.entries| > 0 {
      var m := incoming.entries;
      var todo := m.Keys;
      while todo != {}
        invariant todo <= m.Keys
        invariant forall k :: k in r <==> k in global || (k in m && k !in todo && k in allowed)
        invariant forall k :: k in r ==> r[k] == if k in m && k !in todo && k in allowed then m[k] else global[k]
        decreases |todo|
      {
        var key :| key in todo;
        if key in allowed {
          r := r[key := m[key]];
        }
        todo := todo - {key};
      }
    }
    var spec := Merged(global, incoming, allowed);
    assert r.Keys == spec.Keys;
  }

  /** Merging the same input twice changes nothing the first merge did not. */
  lemma MergeIdempotent(base: Record, incoming: Value, allowed: seq<string>)
    ensures Merged(Merged(base, incoming, allowed), incoming, allowed) == Merged(base, incoming, allowed)
  {
  }

  /** `array_merge($user, array_diff_key($global, $user))`: the user record,
      extended with the global keys it lacks. */
  function Overlay(user: Record, global: Record): (r: Record)
    ensures r.Keys == user.Keys + global.Keys
    ensures forall k :: k in user ==> r[k] == user[k]
    ensures forall k :: k in global && k !in user ==> r[k] == global[k]
  {
    user + map k | k in global && k !in user :: global[k]
  }

  /** Whether a stored settings value supplies field `k` of a scope. */
  predicate Supplies(stored: Value, keys: seq<string>, k: string) {
    Overwrites(stored, keys, k)
  }

  /** The global settings: the stored global option merged over the global
      defaults, restricted to the global fields. */
  function GlobalSettings(stored: Value): (r: Record)
    ensures r.Keys == GlobalFields.Keys
    ensures forall k :: k in r ==>
      r[k] == (if Supplies(stored, GlobalKeys, k) then stored.entries[k] else GlobalFields[k])
  {
    GlobalKeyList();
    Merged(GlobalFields, stored, GlobalKeys)
  }

  /** A user's own settings: the stored user meta merged over the user
      defaults, restricted to the user fields. */
  function UserSettings(stored: Value): (r: Record)
    ensures r.Keys == UserFields.Keys
    ensures forall k :: k in r ==>
      r[k] == (if Supplies(stored, UserKeys, k) then stored.entries[k] else UserFields[k])
  {
    UserKeyList();
    Merged(UserFields, stored, UserKeys)
  }

  /** `get_settings($user_id)` over the stored global option and user meta
      (each already read as `get_global_settings`/`get_user_settings` do):
      the global settings for no user, else the user's own settings with
      `custom_errors`, the one global-only field, taken from the global ones. */
  function EffectiveSettings(storedGlobal: Value, storedUser: Value, userId: int): (r: Record)
    ensures r.Keys == GlobalFields.Keys
    ensures userId <= 0 ==> r == GlobalSettings(storedGlobal)
    ensures userId > 0 ==> forall k :: k in UserFields ==> r[k] == UserSettings(storedUser)[k]
    ensures userId > 0 ==> r["custom_errors"] == GlobalSettings(storedGlobal)["custom_errors"]
  {
    UserKeysAreGlobal();
    var global := GlobalSettings(storedGlobal);
    if userId > 0 then Overlay(UserSettings(storedUser), global) else global
  }

  /** With nothing stored, every user (and the global scope) sees exactly the
      global defaults. */
  lemma {:induction false} DefaultsWhenNothingStored(userId: int)
    ensures EffectiveSettings(Bool(false), Bool(false), userId) == GlobalFields
  {
    var r := EffectiveSettings(Bool(false), Bool(false), userId);
    UserKeysAreGlobal();
    UserDefaultsAreGlobal();
    forall k | k in r ensures r[k] == GlobalFields[k] {
      if userId > 0 && k != "custom_errors" {
        assert k in UserFields;
      }
    }
  }

  /** Reading back what `update_global_settings` stores gives exactly the
      merged record: every allowed incoming field, and nothing else new. */
  lemma {:induction false} GlobalRoundTrip(current: Record, incoming: Value, storedUser: Value)
    requires current.Keys == GlobalFields.Keys
    ensures var saved := Merged(current, incoming, GlobalKeys);
      EffectiveSettings(Arr(saved), storedUser, 0) == saved
  {
    GlobalKeyList();
    var saved := Merged(current, incoming, GlobalKeys);
    MergedKeys(current, incoming, GlobalKeys);
    assert "view" in GlobalFields;
    MergedOverFull(GlobalFields, saved, GlobalKeys);
    assert (map k | k in GlobalFields.Keys :: saved[k]) == saved;
  }

  /** Reading back what `update_user_settings` stores for a user gives exactly
      the merged record, provided the `custom_errors` it carried came from the
      global scope (as `get_settings` guarantees). */
  lemma {:induction false} UserRoundTrip(storedGlobal: Value, current: Record, incoming: Value, userId: int)
    requires userId > 0
    requires current.Keys == GlobalFields.Keys
    requires current["custom_errors"] == GlobalSettings(storedGlobal)["custom_errors"]
    ensures var saved := Merged(current, incoming, UserKeys);
      EffectiveSettings(storedGlobal, Arr(saved), userId) == saved
  {
    var saved := Merged(current, incoming, UserKeys);
    UserKeysAreGlobal();
    MergedKeys(current, incoming, UserKeys);
    SavedUserFields(saved);
    UserMergeKeepsCustomErrors(current, incoming);
    var global := GlobalSettings(storedGlobal);
    OverlayRestores(saved, global, UserFields.Keys, "custom_errors");
  }

  /** Merging only allowed keys that the base already has keeps its keys. */
  lemma MergedKeys(base: Record, incoming: Value, allowed: seq<string>)
    requires forall k :: k in allowed ==> k in base
    ensures Merged(base, incoming, allowed).Keys == base.Keys
  {
  }

  /** Overlaying a restriction of `saved` on a record that agrees with
      `saved` on the one missing key gives `saved` back. */
  lemma OverlayRestores(saved: Record, global: Record, keys: set<string>, missing: string)
    requires missing !in keys
    requires saved.Keys == global.Keys == keys + {missing}
    requires global[missing] == saved[missing]
    ensures Overlay(map k | k in keys :: saved[k], global) == saved
  {
    var r := Overlay(map k | k in keys :: saved[k], global);
    assert r.Keys == saved.Keys;
  }

  /** A user update never touches `custom_errors`. */
  lemma UserMergeKeepsCustomErrors(current: Record, incoming: Value)
    requires "custom_errors" in current
    ensures var saved := Merged(current, incoming, UserKeys);
      "custom_errors" in saved && saved["custom_errors"] == current["custom_errors"]
  {
    assert "custom_errors" !in UserKeys;
  }

  /** A stored record with every global field supplies every user field. */
  lemma SavedUserFields(saved: Record)
    requires saved.Keys == GlobalFields.Keys
    ensures UserSettings(Arr(saved)) == map k | k in UserFields.Keys :: saved[k]
  {
    UserKeyList();
    UserKeysAreGlobal();
    assert "view" in UserFields;
    MergedOverFull(UserFields, saved, UserKeys);
  }

  /** Merging a record that holds every allowed key over a base with exactly
      the allowed keys replaces the whole base. */
  lemma MergedOverFull(base: Record, stored: Record, allowed: seq<string>)
    requires forall k :: k in base <==> k in allowed
    requires forall k :: k in base ==> k in stored
    requires base != map[]
    ensures Merged(base, Arr(stored), allowed) == map k | k in base.Keys :: stored[k]
  {
    var k0 :| k0 in base;
    assert k0 in stored;
  }

  /** `clean_settings` on one value: the callback on a scalar, the array
      cleaned entry by entry otherwise. */
  function Cleaned(v: Value, callback: Value -> Value): (r: Value)
    ensures v.Arr? ==> r.Arr? && r.entries.Keys == v.entries.Keys
    ensures !v.Arr? ==> r == callback(v)
    decreases v
  {
    match v
    case Arr(m) => Arr(map k | k in m :: Cleaned(m[k], callback))
    case _ => callback(v)
  }

  /** `clean_settings($settings, $callback)`: a fresh array built entry by
      entry, recursing into nested arrays. */
  method CleanSettings(settings: Record, callback: Value -> Value) returns (r: Record)
    ensures Arr(r) == Cleaned(Arr(settings), callback)
    decreases Arr(settings)
  {
    r := map[];
    var todo := settings.Keys;
    while todo != {}
      invariant todo <= settings.Keys
      invariant r.Keys == settings.Keys - todo
      invariant forall k :: k in r ==> r[k] == Cleaned(settings[k], callback)
      decreases |todo|
    {
      var key :| key in todo;
      var val := settings[key];
      if val.Arr? {
        var sub := CleanSettings(val.entries, callback);
        r := r[key := Arr(sub)];
      } else {
        r := r[key := callback(val)];
      }
      todo := todo - {key};
    }
    assert Cleaned(Arr(settings), callback).entries == r;
  }

  /** The value reached from `v` by following the keys of `path`. */
  function Lookup(v: Value, path: seq<string>): Option<Value>
    decreases |path|
  {
    if path == [] then Some(v)
    else if v.Arr? && path[0] in v.entries then Lookup(v.entries[path[0]], path[1..])
    else None
  }

  /** Cleaning keeps the nesting: whatever a path reaches in the input, the
      same path reaches its cleaned form in the output; so every array keeps
      its keys and every scalar leaf is replaced by the callback's result. */
  lemma {:induction false} CleanedPaths(v: Value, callback: Value -> Value, path: seq<string>)
    requires Lookup(v, path).Some?
    ensures Lookup(Cleaned(v, callback), path) == Some(Cleaned(Lookup(v, path).value, callback))
    decreases |path|
  {
    if path != [] {
      CleanedPaths(v.entries[path[0]], callback, path[1..]);
    }
  }

  /** The meta entries of one user (none for a user without meta). */
  function MetaOf(userMeta: map<int, map<string, Value>>, userId: int): map<string, Value> {
    if userId in userMeta then userMeta[userId] else map[]
  }

  /** The user's stored settings as `get_user_settings` reads them: an
      empty value (including the missing entry, read as '') is false. */
  function StoredUser(userMeta: map<int, map<string, Value>>, userId: int): (r: Value)
    ensures Truthy(r) || r == Bool(false)
    ensures Truthy(r) ==> OptionKey in MetaOf(userMeta, userId) && r == MetaOf(userMeta, userId)[OptionKey]
    ensures OptionKey in MetaOf(userMeta, userId) && Truthy(MetaOf(userMeta, userId)[OptionKey])
            ==> r == MetaOf(userMeta, userId)[OptionKey]
  {
    var meta := MetaOf(userMeta, userId);
    var raw := if OptionKey in meta then meta[OptionKey] else Str("");
    if Truthy(raw) then raw else Bool(false)
  }

  /** A user who saved a record with every global field reads it back. */
  lemma UserSavedReadBack(storedGlobal: Value, before: Record, incoming: Value,
                          userId: int, userMeta: map<int, map<string, Value>>)
    requires userId > 0
    requires before.Keys == GlobalFields.Keys
    requires before["custom_errors"] == GlobalSettings(storedGlobal)["custom_errors"]
    ensures var saved := Merged(before, incoming, UserKeys);
      var meta := userMeta[userId := MetaOf(userMeta, userId)[OptionKey := Arr(saved)]];
      EffectiveSettings(storedGlobal, StoredUser(meta, userId), userId) == saved
  {
    var saved := Merged(before, incoming, UserKeys);
    var meta := userMeta[userId := MetaOf(userMeta, userId)[OptionKey := Arr(saved)]];
    assert "view" in GlobalFields;
    assert StoredUser(meta, userId) == Arr(saved);
    UserRoundTrip(storedGlobal, before, incoming, userId);
  }

  /** The WordPress stores the settings live in: the options table and the
      user-meta table, each reduced to the entries this plugin touches. */
  class Store {
    /** Options by name. */
    var options: map<string, Value>
    /** User meta by user id, then by meta key. */
    var userMeta: map<int, map<string, Value>>

    constructor (options: map<string, Value>, userMeta: map<int, map<string, Value>>)
      ensures this.options == options && this.userMeta == userMeta
    {
      this.options := options;
      this.userMeta := userMeta;
    }

    /** `get_option('_kwlm_settings', false)`. */
    function GetGlobalSettings(): (r: Value)
      reads this
      ensures OptionKey in options ==> r == options[OptionKey]
      ensures OptionKey !in options ==> r == Bool(false)
    {
      if OptionKey in options then options[OptionKey] else Bool(false)
    }

    /** `get_user_meta($user_id, '_kwlm_settings', true)`, with an empty
      value (including the missing entry, read as '') reported as false. */
    function GetUserSettings(userId: int): (r: Value)
      reads this
      ensures Truthy(r) || r == Bool(false)
      ensures Truthy(r) ==> userId in userMeta && OptionKey in userMeta[userId] && r == userMeta[userId][OptionKey]
      ensures userId in userMeta && OptionKey in userMeta[userId] && Truthy(userMeta[userId][OptionKey])
              ==> r == userMeta[userId][OptionKey]
    {
      StoredUser(userMeta, userId)
    }

    /** `get_settings($user_id)`. */
    function GetSettings(userId: int): (r: Record)
      reads this
      ensures r.Keys == GlobalFields.Keys
    {
      EffectiveSettings(GetGlobalSettings(), GetUserSettings(userId), userId)
    }

    /** `update_option($name, $value)`: whether the store accepted the write
      (it refuses an unchanged value or a failing database) is `accepted`. */
    method UpdateOption(name: string, value: Value, accepted: bool) returns (ok: bool)
      modifies this
      ensures ok == accepted
      ensures options == if ok then old(options)[name := value] else old(options)
      ensures userMeta == old(userMeta)
    {
      ok := accepted;
      if ok {
        options := options[name := value];
      }
    }

    /** `update_user_meta($user_id, $key, $value)`, with the store's answer
      given as `accepted`. */
    method UpdateUserMeta(userId: int, key: string, value: Value, accepted: bool) returns (ok: bool)
      modifies this
      ensures ok == accepted
      ensures options == old(options)
      ensures userMeta == if ok then old(userMeta)[userId := MetaOf(old(userMeta), userId)[key := value]] else old(userMeta)
    {
      ok := accepted;
      if ok {
        userMeta := userMeta[userId := MetaOf(userMeta, userId)[key := value]];
      }
    }

    /** `update_global_settings($new)`: the current global settings with
      the incoming global fields applied are written back. */
    method UpdateGlobalSettings(incoming: Value, accepted: bool) returns (ok: bool)
      modifies this
      ensures ok == accepted
      ensures userMeta == old(userMeta)
      ensures ok ==> options == old(options)[OptionKey := Arr(Merged(old(GetSettings(0)), incoming, GlobalKeys))]
      ensures !ok ==> options == old(options)
      ensures ok ==> GetSettings(0) == Merged(old(GetSettings(0)), incoming, GlobalKeys)
    {
      var settings := GetSettings(0);
      settings := MergeSettings(settings, incoming, GlobalKeys);
      ok := UpdateOption(OptionKey, Arr(settings), accepted);
      if ok {
        GlobalRoundTrip(old(GetSettings(0)), incoming, GetUserSettings(0));
      }
    }

    /** `update_user_settings($user_id, $new)`: the user's current settings
      with the incoming user fields applied (never `custom_errors`) are
      written to that user's meta. */
    method UpdateUserSettings(userId: int, incoming: Value, accepted: bool) returns (ok: bool)
      modifies this
      ensures ok == accepted
      ensures options == old(options)
      ensures userMeta == if ok then
          old(userMeta)[userId := MetaOf(old(userMeta), userId)[OptionKey := Arr(Merged(old(GetSettings(userId)), incoming, UserKeys))]]
        else old(userMeta)
      ensures ok && userId > 0 ==> GetSettings(userId) == Merged(old(GetSettings(userId)), incoming, UserKeys)
    {
      var settings := GetSettings(userId);
      ghost var before := settings;
      settings := MergeSettings(settings, incoming, UserKeys);
      ok := UpdateUserMeta(userId, OptionKey, Arr(settings), accepted);
      if ok && userId > 0 {
        UserSavedReadBack(old(GetGlobalSettings()), before, incoming, userId, old(userMeta));
      }
    }
  }
}
