/** The device's secure key/value store as the client uses it: a map from key
    names to strings, read with `getItemAsync`, written with `setItemAsync` and
    cleared with `deleteItemAsync`. */
module SecureStore {
  import opened Common

  type Store = map<string, string>

  const AccessKey: string := "accessToken"
  const RefreshKey: string := "refreshToken"

  /** `getItemAsync`: the stored string, or `null` when the key is absent. */
  function Get(s: Store, key: string): (r: Option<string>)
    ensures r.Some? <==> key in s
    ensures r.Some? ==> r.value == s[key]
  {
    if key in s then Some(s[key]) else None
  }

  /** `if (token)` on the value read back: present and not the empty string. */
  predicate Holds(s: Store, key: string)
  {
    key in s && s[key] != ""
  }

  /** `setItemAsync`: a string value is stored under the key and nothing else
      changes; a value that is not a string (`undefined`) makes the call reject
      (`None`). */
  function Set(s: Store, key: string, v: Option<string>): (r: Option<Store>)
    ensures r.None? <==> v.None?
    ensures r.Some? ==> key in r.value && r.value[key] == v.value
    ensures r.Some? ==> forall k :: k in s && k != key ==> k in r.value && r.value[k] == s[k]
    ensures r.Some? ==> r.value.Keys == s.Keys + {key}
  {
    if v.Some? then Some(s[key := v.value]) else None
  }

  /** `deleteItemAsync`: the key is gone and every other entry is kept. */
  function Delete(s: Store, key: string): (r: Store)
    ensures key !in r
    ensures r.Keys == s.Keys - {key}
    ensures forall k :: k in r ==> r[k] == s[k]
  {
    map k | k in s && k != key :: s[k]
  }

  /** Deleting both tokens, as logout and a failed refresh do. */
  function ClearTokens(s: Store): (r: Store)
    ensures AccessKey !in r && RefreshKey !in r
    ensures r.Keys == s.Keys - {AccessKey, RefreshKey}
    ensures forall k :: k in r ==> r[k] == s[k]
  {
    Delete(Delete(s, AccessKey), RefreshKey)
  }

  /** Clearing the tokens a second time changes nothing. */
  lemma ClearTokensIdempotent(s: Store)
    ensures ClearTokens(ClearTokens(s)) == ClearTokens(s)
  {
    var once := ClearTokens(s);
    var twice := ClearTokens(once);
    assert twice.Keys == once.Keys;
    forall k | k in twice
      ensures twice[k] == once[k]
    {
    }
  }
}
