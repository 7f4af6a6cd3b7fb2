/** Reading a contract's global or per-account state through the node, and
    an account's holding of an asset through the indexer.

    The node reports state as a list of key/value entries: the key is base64
    text, the value carries a `type` (2 for an integer), an integer `uint`
    and base64 `bytes`. The reader folds that list into a JavaScript object
    from decoded key to value. The browser's `atob` is a parameter of the
    model: `None` stands for the exception it throws on malformed input. */
module StateReader {

  datatype Option<T> = None | Some(value: T)

  /** What an awaited request produced: a value or a thrown error. */
  datatype Response<T> = Returns(value: T) | Throws(message: string)

  /** A TEAL value as the node reports it. */
  datatype TealValue = TealValue(typ: int, bytes: string, uint: int)

  datatype KeyValue = KeyValue(key: string, value: TealValue)

  /** A decoded value: the raw integer, or the decoded byte string. */
  datatype StateValue = UintValue(n: int) | BytesValue(s: string)

  /** The `type` tag of an integer value. */
  const UINT_TYPE: int := 2

  /** Assigning a string or a number to this property of a plain object
      leaves the object as it is, so such an entry never appears. */
  const PROTO_KEY: string := "__proto__"

  /** `atob`: base64 text to a binary string; `None` when it throws. */
  type Decoder = string -> Option<string>

  /** The value stored for one entry: the integer for type 2, the decoded
      bytes for any other type. */
  function DecodeValue(v: TealValue, atob: Decoder): (r: Option<StateValue>)
    ensures v.typ == UINT_TYPE ==> r == Some(UintValue(v.uint))
    ensures v.typ != UINT_TYPE ==> (r.Some? <==> atob(v.bytes).Some?)
    ensures v.typ != UINT_TYPE && r.Some? ==> r.value == BytesValue(atob(v.bytes).value)
  {
    if v.typ == UINT_TYPE then Some(UintValue(v.uint))
    else match atob(v.bytes)
      case None => None
      case Some(s) => Some(BytesValue(s))
  }

  /** `state[key] = value` on a plain object. */
  function Assign(state: map<string, StateValue>, key: string, value: StateValue): map<string, StateValue>
  {
    if key == PROTO_KEY then state else state[key := value]
  }

  /** The key of entry `i`, decoded. */
  function KeyAt(entries: seq<KeyValue>, i: int, atob: Decoder): Option<string>
    requires 0 <= i < |entries|
  {
    atob(entries[i].key)
  }

  /** Entry `i` decodes without an exception. */
  predicate Decodes(entries: seq<KeyValue>, i: int, atob: Decoder)
    requires 0 <= i < |entries|
  {
    KeyAt(entries, i, atob).Some? && DecodeValue(entries[i].value, atob).Some?
  }

  /** The object the loop builds from `entries`, or `None` when an `atob`
      inside it throws (which abandons the whole read). */
  function Fold(entries: seq<KeyValue>, atob: Decoder): Option<map<string, StateValue>>
    decreases |entries|
  {
    if entries == [] then Some(map[])
    else
      var last := |entries| - 1;
      match Fold(entries[..last], atob)
      case None => None
      case Some(state) =>
        match atob(entries[last].key)
        case None => None
        case Some(k) =>
          match DecodeValue(entries[last].value, atob)
          case None => None
          case Some(v) => Some(Assign(state, k, v))
  }

  // ----- The loop ------------------------------------------------------------

  /** The `for...of` loop over the entries, with the exception that ends
      it returned as `None`. */
  method DecodeEntries(entries: seq<KeyValue>, atob: Decoder) returns (r: Option<map<string, StateValue>>)
    ensures r == Fold(entries, atob)
  {
    var state: map<string, StateValue> := map[];
    var i := 0;
    while i < |entries|
      invariant 0 <= i <= |entries|
      invariant Fold(entries[..i], atob) == Some(state)
    {
      assert entries[..i + 1][..i] == entries[..i];
      var kv := entries[i];
      var key := atob(kv.key);
      if key.None? {
        FailureIsFinal(entries, i + 1, atob);
        return None;
      }
      var value := DecodeValue(kv.value, atob);
      if value.None? {
        FailureIsFinal(entries, i + 1, atob);
        return None;
      }
      state := Assign(state, key.value, value.value);
      i := i + 1;
    }
    assert entries[..i] == entries;
    r := Some(state);
  }

  /** Node reply to `GET /v2/applications/{id}`: `params['global-state']`,
      either of which may be absent. */
  datatype AppInfo = AppInfo(params: Option<AppParams>)
  datatype AppParams = AppParams(globalState: Option<seq<KeyValue>>)

  /** Node reply to `GET /v2/accounts/{address}/applications/{id}`:
      `['app-local-state']['key-value']`, either of which may be absent. */
  datatype AccountAppInfo = AccountAppInfo(appLocalState: Option<LocalState>)
  datatype LocalState = LocalState(keyValue: Option<seq<KeyValue>>)

  /** The object a read returns for an entry list that may be missing: the
      empty object when it is missing or when decoding throws. */
  function StateOf(entries: Option<seq<KeyValue>>, atob: Decoder): (state: map<string, StateValue>)
    ensures entries.None? ==> state == map[]
    ensures entries.Some? && Fold(entries.value, atob).Some? ==> state == Fold(entries.value, atob).value
    ensures entries.Some? && Fold(entries.value, atob).None? ==> state == map[]
  {
    match entries
    case None => map[]
    case Some(es) =>
      match Fold(es, atob)
      case None => map[]
      case Some(m) => m
  }

  /** `readGlobalState(appId)`: any failure, of the request or of decoding,
      yields the empty object. */
  method ReadGlobalState(reply: Response<AppInfo>, atob: Decoder) returns (state: map<string, StateValue>)
    ensures reply.Throws? ==> state == map[]
    ensures reply.Returns? && reply.value.params.None? ==> state == map[]
    ensures reply.Returns? && reply.value.params.Some? ==> state == StateOf(reply.value.params.value.globalState, atob)
  {
    if reply.Throws? {
      return map[];
    }
    state := map[];
    if reply.value.params.Some? && reply.value.params.value.globalState.Some? {
      var decoded := DecodeEntries(reply.value.params.value.globalState.value, atob);
      if decoded.None? {
        return map[];
      }
      state := decoded.value;
    }
  }

  /** `readLocalState(appId, address)`: the same rule applied to the
      account's local key/value list. */
  method ReadLocalState(reply: Response<AccountAppInfo>, atob: Decoder) returns (state: map<string, StateValue>)
    ensures reply.Throws? ==> state == map[]
    ensures reply.Returns? && reply.value.appLocalState.None? ==> state == map[]
    ensures reply.Returns? && reply.value.appLocalState.Some? ==>
      state == StateOf(reply.value.appLocalState.value.keyValue, atob)
  {
    if reply.Throws? {
      return map[];
    }
    state := map[];
    if reply.value.appLocalState.Some? && reply.value.appLocalState.value.keyValue.Some? {
      var decoded := DecodeEntries(reply.value.appLocalState.value.keyValue.value, atob);
      if decoded.None? {
        return map[];
      }
      state := decoded.value;
    }
  }

  // ----- What the fold computes ----------------------------------------------

  /** Once an entry fails to decode, the whole read fails, whatever follows. */
  lemma {:induction false} FailureIsFinal(entries: seq<KeyValue>, n: nat, atob: Decoder)
    requires n <= |entries|
    requires Fold(entries[..n], atob).None? || (0 < n && !Decodes(entries, n - 1, atob))
    ensures Fold(entries, atob).None?
    decreases |entries| - n
  {
    if 0 < n && !Decodes(entries, n - 1, atob) {
      assert entries[..n][..n - 1] == entries[..n - 1];
      assert entries[..n][n - 1] == entries[n - 1];
    }
    if n == |entries| {
      assert entries[..n] == entries;
    } else {
      assert entries[..n + 1][..n] == entries[..n];
      FailureIsFinal(entries, n + 1, atob);
    }
  }

  /** The read fails exactly when some entry's key or bytes fail to decode. */
  lemma {:induction false} FoldFailsIff(entries: seq<KeyValue>, atob: Decoder)
    ensures Fold(entries, atob).None? <==> exists i :: 0 <= i < |entries| && !Decodes(entries, i, atob)
    decreases |entries|
  {
    if entries != [] {
      var last := |entries| - 1;
      var prefix := entries[..last];
      FoldFailsIff(prefix, atob);
      forall i | 0 <= i < last
        ensures Decodes(prefix, i, atob) == Decodes(entries, i, atob)
      {
        assert prefix[i] == entries[i];
      }
      if !Decodes(entries, last, atob) {
        FailureIsFinal(entries, |entries|, atob);
      }
    }
  }

  /** A decoded key is present exactly when some entry decodes to it, except
      `__proto__`, which never is. */
  lemma {:induction false} FoldKeys(entries: seq<KeyValue>, atob: Decoder, k: string)
    requires Fold(entries, atob).Some?
    ensures k in Fold(entries, atob).value <==>
      k != PROTO_KEY && exists i :: 0 <= i < |entries| && KeyAt(entries, i, atob) == Some(k)
    decreases |entries|
  {
    if entries != [] {
      var last := |entries| - 1;
      var prefix := entries[..last];
      var m := Fold(prefix, atob).value;
      var key := KeyAt(entries, last, atob).value;
      assert Fold(entries, atob).value == Assign(m, key, DecodeValue(entries[last].value, atob).value);
      FoldKeys(prefix, atob, k);
      forall i | 0 <= i < last
        ensures KeyAt(prefix, i, atob) == KeyAt(entries, i, atob)
      {
        assert prefix[i] == entries[i];
      }
      if exists i :: 0 <= i < |entries| && KeyAt(entries, i, atob) == Some(k) {
        var i :| 0 <= i < |entries| && KeyAt(entries, i, atob) == Some(k);
        if i < last {
          assert KeyAt(prefix, i, atob) == Some(k);
        }
      }
    }
  }

  /** When keys repeat, the value stored is that of the LAST entry whose key
      decodes to `k`. */
  lemma {:induction false} FoldLastWins(entries: seq<KeyValue>, atob: Decoder, i: int, k: string)
    requires Fold(entries, atob).Some?
    requires 0 <= i < |entries| && KeyAt(entries, i, atob) == Some(k) && k != PROTO_KEY
    requires forall j :: i < j < |entries| ==> KeyAt(entries, j, atob) != Some(k)
    ensures Decodes(entries, i, atob)
    ensures k in Fold(entries, atob).value
    ensures Fold(entries, atob).value[k] == DecodeValue(entries[i].value, atob).value
    decreases |entries|
  {
    var last := |entries| - 1;
    var prefix := entries[..last];
    FoldFailsIff(entries, atob);
    if i < last {
      assert prefix[i] == entries[i];
      assert KeyAt(prefix, i, atob) == Some(k);
      forall j | i < j < last
        ensures KeyAt(prefix, j, atob) != Some(k)
      {
        assert prefix[j] == entries[j];
        assert KeyAt(entries, j, atob) != Some(k);
      }
      FoldLastWins(prefix, atob, i, k);
      assert KeyAt(entries, last, atob) != Some(k);
    }
  }

  // ----- getAssetBalance -----------------------------------------------------

  /** One entry of the indexer's `assets` list for an account. */
  datatype AssetHolding = AssetHolding(assetId: int, amount: int)

  /** `assets.find(a => a['asset-id'] === assetId)`, as the index found. */
  function FindAsset(assets: seq<AssetHolding>, assetId: int): (r: Option<nat>)
    ensures r.Some? ==> r.value < |assets| && assets[r.value].assetId == assetId
    ensures r.Some? ==> forall j :: 0 <= j < r.value ==> assets[j].assetId != assetId
    ensures r.None? ==> forall j :: 0 <= j < |assets| ==> assets[j].assetId != assetId
    decreases |assets|
  {
    if assets == [] then None
    else if assets[0].assetId == assetId then Some(0)
    else
      match FindAsset(assets[1..], assetId)
      case None => None
      case Some(i) => Some(i + 1)
  }

  /** `getAssetBalance(account, assetId)`: the amount of the first holding of
      the asset; 0 when there is none or when the lookup throws. */
  function AssetBalance(reply: Response<seq<AssetHolding>>, assetId: int): (amount: int)
    ensures reply.Throws? ==> amount == 0
    ensures reply.Returns? && (forall j :: 0 <= j < |reply.value| ==> reply.value[j].assetId != assetId) ==> amount == 0
    ensures amount != 0 ==>
      reply.Returns? && exists i :: 0 <= i < |reply.value| && reply.value[i].assetId == assetId && reply.value[i].amount == amount
    ensures reply.Returns? ==>
      forall i ::
        (0 <= i < |reply.value| && reply.value[i].assetId == assetId &&
         (forall j :: 0 <= j < i ==> reply.value[j].assetId != assetId))
        ==> amount == reply.value[i].amount
  {
    match reply
    case Throws(_) => 0
    case Returns(assets) =>
      match FindAsset(assets, assetId)
      case None => 0
      case Some(i) => assets[i].amount
  }

  /** The FIRST holding of the asset decides, whatever later entries say. */
  lemma FirstHoldingWins(assets: seq<AssetHolding>, assetId: int, i: int)
    requires 0 <= i < |assets| && assets[i].assetId == assetId
    requires forall j :: 0 <= j < i ==> assets[j].assetId != assetId
    ensures AssetBalance(Returns(assets), assetId) == assets[i].amount
  {
  }
}
