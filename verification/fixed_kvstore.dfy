/**
 * The secrets key/value store and its fixed-key wrapper. The wrapper holds
 * one org, namespace and type and forwards each call with them to the
 * store it wraps; renaming moves the wrapper to the new namespace only
 * when the store reports success.
 */
module FixedKVStore {
  import opened Wrappers

  /** Wildcard org id: a query for keys in every organization. */
  const AllOrganizations: int := -1

  datatype Key = Key(orgId: int, namespace: string, keyType: string)

  datatype KVOp = GetOp | SetOp | DelOp | KeysOp | RenameOp

  /** One call as the wrapped store received it. */
  datatype KVCall = KVCall(op: KVOp, orgId: int, namespace: string, keyType: string, argument: string)

  datatype KVError = StoreError(op: KVOp)

  /** Keys of `values` that a Keys query for (orgId, namespace, type) selects. */
  ghost predicate KeySelected(k: Key, orgId: int, namespace: string, keyType: string) {
    (orgId == AllOrganizations || k.orgId == orgId) && k.namespace == namespace && k.keyType == keyType
  }

  /**
   * The store being wrapped, as a map from key to value whose calls are
   * logged and can be told to fail per operation.
   */
  class SecretsKVStore {
    var values: map<Key, string>
    var failing: set<KVOp>
    var calls: seq<KVCall>

    constructor ()
      ensures values == map[] && failing == {} && calls == []
    {
      values := map[];
      failing := {};
      calls := [];
    }

    method Get(orgId: int, namespace: string, keyType: string) returns (value: string, found: bool, err: Option<KVError>)
      modifies this`calls
      ensures calls == old(calls) + [KVCall(GetOp, orgId, namespace, keyType, "")]
      ensures GetOp in failing ==> err == Some(StoreError(GetOp)) && value == "" && !found
      ensures GetOp !in failing ==> err.None? && found == (Key(orgId, namespace, keyType) in values)
      ensures err.None? && found ==> value == values[Key(orgId, namespace, keyType)]
      ensures !found ==> value == ""
    {
      calls := calls + [KVCall(GetOp, orgId, namespace, keyType, "")];
      if GetOp in failing {
        return "", false, Some(StoreError(GetOp));
      }
      var k := Key(orgId, namespace, keyType);
      if k in values {
        return values[k], true, None;
      }
      return "", false, None;
    }

    method Set(orgId: int, namespace: string, keyType: string, value: string) returns (err: Option<KVError>)
      modifies this`calls, this`values
      ensures calls == old(calls) + [KVCall(SetOp, orgId, namespace, keyType, value)]
      ensures SetOp in failing ==> err == Some(StoreError(SetOp)) && values == old(values)
      ensures SetOp !in failing ==> err.None? && values == old(values)[Key(orgId, namespace, keyType) := value]
    {
      calls := calls + [KVCall(SetOp, orgId, namespace, keyType, value)];
      if SetOp in failing {
        return Some(StoreError(SetOp));
      }
      values := values[Key(orgId, namespace, keyType) := value];
      return None;
    }

    method Del(orgId: int, namespace: string, keyType: string) returns (err: Option<KVError>)
      modifies this`calls, this`values
      ensures calls == old(calls) + [KVCall(DelOp, orgId, namespace, keyType, "")]
      ensures DelOp in failing ==> err == Some(StoreError(DelOp)) && values == old(values)
      ensures DelOp !in failing ==> err.None? && values == old(values) - {Key(orgId, namespace, keyType)}
    {
      calls := calls + [KVCall(DelOp, orgId, namespace, keyType, "")];
      if DelOp in failing {
        return Some(StoreError(DelOp));
      }
      values := values - {Key(orgId, namespace, keyType)};
      return None;
    }

    method Keys(orgId: int, namespace: string, keyType: string) returns (keys: set<Key>, err: Option<KVError>)
      modifies this`calls
      ensures calls == old(calls) + [KVCall(KeysOp, orgId, namespace, keyType, "")]
      ensures KeysOp in failing ==> err == Some(StoreError(KeysOp)) && keys == {}
      ensures KeysOp !in failing ==> err.None? && forall k :: k in keys <==> k in values && KeySelected(k, orgId, namespace, keyType)
    {
      calls := calls + [KVCall(KeysOp, orgId, namespace, keyType, "")];
      if KeysOp in failing {
        return {}, Some(StoreError(KeysOp));
      }
      keys := set k | k in values && (orgId == AllOrganizations || k.orgId == orgId) && k.namespace == namespace && k.keyType == keyType;
      return keys, None;
    }

    /** Moves the value under (org, namespace, type) to (org, newNamespace, type). */
    method Rename(orgId: int, namespace: string, keyType: string, newNamespace: string) returns (err: Option<KVError>)
      modifies this`calls, this`values
      ensures calls == old(calls) + [KVCall(RenameOp, orgId, namespace, keyType, newNamespace)]
      ensures RenameOp in failing ==> err == Some(StoreError(RenameOp)) && values == old(values)
      ensures RenameOp !in failing ==> err.None? && values == RenamedValues(old(values), Key(orgId, namespace, keyType), newNamespace)
    {
      calls := calls + [KVCall(RenameOp, orgId, namespace, keyType, newNamespace)];
      if RenameOp in failing {
        return Some(StoreError(RenameOp));
      }
      values := RenamedValues(values, Key(orgId, namespace, keyType), newNamespace);
      return None;
    }
  }

  /** The store after moving `k`'s value to namespace `newNamespace` (nothing moves when `k` is absent). */
  function RenamedValues(values: map<Key, string>, k: Key, newNamespace: string): (r: map<Key, string>)
    ensures k in values ==> k.(namespace := newNamespace) in r && r[k.(namespace := newNamespace)] == values[k]
    ensures k in values && newNamespace != k.namespace ==> k !in r
    ensures k !in values ==> r == values
    ensures forall o :: o != k && o != k.(namespace := newNamespace) ==> (o in r <==> o in values)
    ensures forall o :: o != k && o != k.(namespace := newNamespace) && o in r ==> r[o] == values[o]
  {
    if k in values then (values - {k})[k.(namespace := newNamespace) := values[k]] else values
  }

  /** A wrapper with a fixed org and type and a namespace only Rename changes. */
  class FixedKVStore {
    const kvStore: SecretsKVStore
    const OrgId: int
    var Namespace: string
    const Type: string

    /** `With`: a wrapper holding exactly the given org, namespace and type. */
    constructor With(kv: SecretsKVStore, orgId: int, namespace: string, typ: string)
      ensures kvStore == kv && OrgId == orgId && Namespace == namespace && Type == typ
    {
      kvStore := kv;
      OrgId := orgId;
      Namespace := namespace;
      Type := typ;
    }

    method Get() returns (value: string, found: bool, err: Option<KVError>)
      modifies kvStore`calls
      ensures kvStore.calls == old(kvStore.calls) + [KVCall(GetOp, OrgId, Namespace, Type, "")]
      ensures err.None? && found ==> Key(OrgId, Namespace, Type) in kvStore.values && value == kvStore.values[Key(OrgId, Namespace, Type)]
      ensures GetOp !in kvStore.failing ==> err.None? && found == (Key(OrgId, Namespace, Type) in kvStore.values)
      ensures GetOp in kvStore.failing ==> err.Some?
    {
      value, found, err := kvStore.Get(OrgId, Namespace, Type);
    }

    method Set(value: string) returns (err: Option<KVError>)
      modifies kvStore`calls, kvStore`values
      ensures kvStore.calls == old(kvStore.calls) + [KVCall(SetOp, OrgId, Namespace, Type, value)]
      ensures SetOp in kvStore.failing ==> err.Some? && kvStore.values == old(kvStore.values)
      ensures SetOp !in kvStore.failing ==> err.None? && kvStore.values == old(kvStore.values)[Key(OrgId, Namespace, Type) := value]
    {
      err := kvStore.Set(OrgId, Namespace, Type, value);
    }

    method Del() returns (err: Option<KVError>)
      modifies kvStore`calls, kvStore`values
      ensures kvStore.calls == old(kvStore.calls) + [KVCall(DelOp, OrgId, Namespace, Type, "")]
      ensures DelOp in kvStore.failing ==> err.Some? && kvStore.values == old(kvStore.values)
      ensures DelOp !in kvStore.failing ==> err.None? && kvStore.values == old(kvStore.values) - {Key(OrgId, Namespace, Type)}
    {
      err := kvStore.Del(OrgId, Namespace, Type);
    }

    method Keys() returns (keys: set<Key>, err: Option<KVError>)
      modifies kvStore`calls
      ensures kvStore.calls == old(kvStore.calls) + [KVCall(KeysOp, OrgId, Namespace, Type, "")]
      ensures KeysOp in kvStore.failing ==> err.Some? && keys == {}
      ensures KeysOp !in kvStore.failing ==> err.None? && forall k :: k in keys <==> k in kvStore.values && KeySelected(k, OrgId, Namespace, Type)
    {
      keys, err := kvStore.Keys(OrgId, Namespace, Type);
    }

    /** Rename: forwards, then moves this wrapper to the new namespace only if the store succeeded. */
    method Rename(newNamespace: string) returns (err: Option<KVError>)
      modifies this`Namespace, kvStore`calls, kvStore`values
      ensures kvStore.calls == old(kvStore.calls) + [KVCall(RenameOp, OrgId, old(Namespace), Type, newNamespace)]
      ensures err.None? <==> RenameOp !in kvStore.failing
      ensures Namespace == if err.None? then newNamespace else old(Namespace)
      ensures err.None? ==> kvStore.values == RenamedValues(old(kvStore.values), Key(OrgId, old(Namespace), Type), newNamespace)
      ensures err.Some? ==> kvStore.values == old(kvStore.values)
    {
      err := kvStore.Rename(OrgId, Namespace, Type, newNamespace);
      if err.Some? {
        return;
      }
      Namespace := newNamespace;
    }
  }

  /**
   * Through a wrapper: a value set, renamed to another namespace and read
   * back is found where the wrapper now points, and the old namespace
   * no longer holds it.
   */
  method SetRenameGetScenario(orgId: int, namespace: string, typ: string, newNamespace: string, secret: string)
    returns (value: string, found: bool, oldFound: bool)
    requires namespace != newNamespace
    ensures found && value == secret
    ensures !oldFound
  {
    var kv := new SecretsKVStore();
    var fixed := new FixedKVStore.With(kv, orgId, namespace, typ);
    var err := fixed.Set(secret);
    err := fixed.Rename(newNamespace);
    var getErr;
    value, found, getErr := fixed.Get();
    var other := new FixedKVStore.With(kv, orgId, namespace, typ);
    var v;
    v, oldFound, getErr := other.Get();
  }
}
