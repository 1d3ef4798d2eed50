/** The older key-value stores of botleague_helpers/key_value_store.py: a
    Firestore store with one document per key, which uses the same
    document codec as `DBFirestore` (`Db.Simplify` / `Db.Expand`) but no
    boxing, and an in-memory store private to each instance. */
module KvStore {
  import opened Py
  import opened Db

  /** `SimpleKeyValueStoreFirestore`: `kv` is the server-side collection
      `simple_key_value_store`, shared by every instance. */
  class FirestoreStore {
    const kv: RemoteCollection

    constructor (kv: RemoteCollection)
      ensures this.kv == kv
    {
      this.kv := kv;
    }

    /** `get`: a missing document gives `to_dict()` None, and `key in None`
        raises TypeError; a present document is simplified. */
    function Get(key: string): (r: Result<Value>)
      reads kv
      ensures key !in kv.docs <==> r == Err(TypeError)
      ensures key in kv.docs ==> r == Ok(Simplify(key, kv.docs[key]))
    {
      if key in kv.docs then Ok(Simplify(key, kv.docs[key])) else Err(TypeError)
    }

    /** `set`: a dict is stored as the document, anything else as the
        one-field document `{key: value}`; a non-dict reads back as itself,
        and a dict unless it is a Box or has exactly the one field `key`. */
    method Set(key: string, value: Value)
      modifies kv
      ensures kv.docs == old(kv.docs)[key := Expand(key, value)]
      ensures Get(key) == Ok(value) <==> (!value.Dict? || (!value.boxed && value.fields.Keys != {key}))
    {
      kv.docs := kv.docs[key := Expand(key, value)];
      SimplifyExpand(key, value);
    }
  }

  /** `SimpleKeyValueStoreLocal`: a dict of its own. */
  class LocalStore {
    var kv: map<string, Value>

    constructor ()
      ensures kv == map[]
    {
      kv := map[];
    }

    /** `get`: `self.kv[key]`, a KeyError for a key never set. */
    function Get(key: string): (r: Result<Value>)
      reads this
      ensures key !in kv <==> r == Err(KeyError(key))
      ensures key in kv ==> r == Ok(kv[key])
    {
      if key in kv then Ok(kv[key]) else Err(KeyError(key))
    }

    /** `set`: `self.kv[key] = value`; reads back as `value`, other keys
        untouched. */
    method Set(key: string, value: Value)
      modifies this
      ensures kv == old(kv)[key := value]
      ensures Get(key) == Ok(value)
      ensures forall other :: other != key ==> Get(other) == old(Get(other))
    {
      kv := kv[key := value];
    }
  }

  /** Two local stores share nothing: a write to one is not seen by the
      other, which still raises KeyError for the key. */
  method LocalStoresAreSeparate(key: string, value: Value) returns (written: Result<Value>, other: Result<Value>)
    ensures written == Ok(value)
    ensures other == Err(KeyError(key))
  {
    var a := new LocalStore();
    var b := new LocalStore();
    a.Set(key, value);
    written := a.Get(key);
    other := b.Get(key);
  }

  /** The string round trip: whatever the store held, `get` after `set` of
      a string gives the string back. */
  method FirestoreStringRoundTrip(kv: RemoteCollection, key: string, text: string) returns (r: Result<Value>)
    modifies kv
    ensures r == Ok(Str(text))
  {
    var store := new FirestoreStore(kv);
    store.Set(key, Str(text));
    r := store.Get(key);
  }
}
