/** The key-value stores of gcp_helpers/key_value_store.py. The Firestore
    store keeps every key in one document, named after the collection, and
    each `set` replaces that whole document with `{key: value}`; the local
    store is a dict of its own. */
module GcpKvStore {
  import opened Py
  import opened Db

  /** `SimpleKeyValueStoreFirestore`: `kv` is the server-side collection
      `simple_key_value_store`, shared by every instance; all keys live in
      its document of the same name, absent until the first `set`. */
  class FirestoreStore {
    const collectionName: string
    const kv: RemoteCollection

    constructor (kv: RemoteCollection)
      ensures collectionName == "simple_key_value_store"
      ensures this.kv == kv
    {
      collectionName := "simple_key_value_store";
      this.kv := kv;
    }

    /** `get`: `to_dict()[key]` on the shared document; a missing document
        (None) raises TypeError, a missing field KeyError. */
    function Get(key: string): (r: Result<Value>)
      reads kv
      ensures collectionName !in kv.docs <==> r == Err(TypeError)
      ensures collectionName in kv.docs && key !in kv.docs[collectionName] <==> r == Err(KeyError(key))
      ensures collectionName in kv.docs && key in kv.docs[collectionName] ==> r == Ok(kv.docs[collectionName][key])
    {
      if collectionName !in kv.docs then Err(TypeError)
      else if key in kv.docs[collectionName] then Ok(kv.docs[collectionName][key])
      else Err(KeyError(key))
    }

    /** `set`: the shared document becomes `{key: value}`, so `value` reads
        back unchanged (dicts included) and every other key is gone. */
    method Set(key: string, value: Value)
      modifies kv
      ensures kv.docs == old(kv.docs)[collectionName := map[key := value]]
      ensures Get(key) == Ok(value)
      ensures forall other :: other != key ==> Get(other) == Err(KeyError(other))
    {
      kv.docs := kv.docs[collectionName := map[key := value]];
    }
  }

  /** `SimpleKeyValueStoreLocal`: a dict of its own. */
  class LocalStore {
    var kv: map<string, Value>

    constructor ()
      ensures kv == map[]
    {
      kv := map[];
    }

    /** `get`: `self.kv[key]`, a KeyError for a key never set. */
    function Get(key: string): (r: Result<Value>)
      reads this
      ensures key !in kv <==> r == Err(KeyError(key))
      ensures key in kv ==> r == Ok(kv[key])
    {
      if key in kv then Ok(kv[key]) else Err(KeyError(key))
    }

    /** `set`: `self.kv[key] = value`; reads back as `value`, other keys
        untouched. */
    method Set(key: string, value: Value)
      modifies this
      ensures kv == old(kv)[key := value]
      ensures Get(key) == Ok(value)
      ensures forall other :: other != key ==> Get(other) == old(Get(other))
    {
      kv := kv[key := value];
    }
  }

  /** Two Firestore stores see one document: what one sets the other
      gets, and a `set` through the other erases it. */
  method StoresShareOneDocument(kv: RemoteCollection, a: string, b: string, x: Value, y: Value)
    returns (seen: Result<Value>, lost: Result<Value>)
    requires a != b
    modifies kv
    ensures seen == Ok(x)
    ensures lost == Err(KeyError(a))
  {
    var first := new FirestoreStore(kv);
    var second := new FirestoreStore(kv);
    first.Set(a, x);
    seen := second.Get(a);
    second.Set(b, y);
    lost := first.Get(a);
  }

  /** `set(a, x); set(b, y)` with `a != b`: the Firestore store has lost
      `a` (KeyError) while the local store still returns `x`. */
  method SecondSetForgetsFirst(kv: RemoteCollection, a: string, b: string, x: Value, y: Value)
    returns (remote: Result<Value>, local: Result<Value>)
    requires a != b
    modifies kv
    ensures remote == Err(KeyError(a))
    ensures local == Ok(x)
  {
    var f := new FirestoreStore(kv);
    f.Set(a, x);
    f.Set(b, y);
    remote := f.Get(a);
    var l := new LocalStore();
    l.Set(a, x);
    l.Set(b, y);
    local := l.Get(a);
  }
}
