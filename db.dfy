/** The key-value store with compare-and-swap that the coordinators run on
    (botleague_helpers/db.py): the `DB` front end with its box
    serialization, the in-process backend `DBLocal` over the shared
    `LOCAL_COLLECTIONS` registry, and the Firestore backend `DBFirestore`
    with its document codec. A Firestore transaction is modelled as one
    atomic step on a map from document name to document. */
module Db {
  import opened Py

  const DEFAULT_COLLECTION := "simple_key_value_store"

  /** A Firestore document: its fields. */
  type Doc = map<string, Value>

  // ---------------------------------------------------------------------------
  // Box (de)serialization and the Firestore document codec
  // ---------------------------------------------------------------------------

  /** `DB._serialize`: with `use_boxes`, a Box or BoxList is stored as the
      plain dict or list it holds; everything else is stored as given. */
  function Serialize(useBoxes: bool, v: Value): (r: Value)
    ensures !useBoxes ==> r == v
    ensures !v.IsComposite() ==> r == v
    ensures useBoxes && v.IsComposite() ==> !r.IsBoxed()
    ensures Equal(r, v)
  {
    if useBoxes && v.IsBoxed() then PlainIdempotent(v); Plain(v) else v
  }

  /** `DB._deserialize`: with `use_boxes`, a stored list or dict is handed
      back as a BoxList or Box; scalars come back unchanged. */
  function Deserialize(useBoxes: bool, v: Value): (r: Value)
    ensures !useBoxes ==> r == v
    ensures !v.IsComposite() ==> r == v
    ensures useBoxes && v.IsComposite() ==> r.IsBoxed()
    ensures Truthy(r) <==> Truthy(v)
    ensures Equal(r, v)
  {
    if useBoxes && v.IsComposite() then PlainBoxUp(v); BoxUp(v) else v
  }

  /** `DBFirestore._simplify_value`: a document whose only field is named
      after the document reads as the bare value of that field. */
  function Simplify(key: string, doc: Doc): (r: Value)
  {
    if |doc| > 0 && key in doc && |doc| == 1 then doc[key] else Dict(doc, false)
  }

  /** `DBFirestore._expand_value`: a value that is not a dict (a Box is a
      dict) is stored as the one-field document `{key: value}`. */
  function Expand(key: string, v: Value): (r: Doc)
  {
    if v.Dict? then v.fields else map[key := v]
  }

  /** Simplify picks out the field exactly when the document has one field,
      named after the document; otherwise it hands the document back whole. */
  lemma SimplifyPicksLoneField(key: string, doc: Doc)
    ensures (key in doc && Simplify(key, doc) == doc[key]) <==> (doc.Keys == {key})
    ensures doc.Keys != {key} ==> Simplify(key, doc) == Dict(doc, false)
  {
    if key in doc && doc.Keys != {key} {
      var other :| other in doc.Keys && other != key;
      assert doc.Keys == {key, other} + (doc.Keys - {key, other});
      assert |doc.Keys| >= 2;
      assert doc[key] in doc.Values;
    }
    if doc.Keys == {key} {
      assert |doc.Keys| == |{key}| == 1;
    }
  }

  /** Writing then reading a document gives the value back, except a dict
      whose only field is named after the key (which reads as that field),
      and except that a Box reads back as the plain dict it equals. */
  lemma {:induction false} SimplifyExpand(key: string, v: Value)
    ensures Simplify(key, Expand(key, v)) == v
        <==> (!v.Dict? || (!v.boxed && v.fields.Keys != {key}))
  {
    if v.Dict? {
      SimplifyPicksLoneField(key, v.fields);
      if v.fields.Keys == {key} {
        assert v.fields[key] in v.fields.Values;
      }
    } else {
      assert |map[key := v]| == 1;
    }
  }

  /** Reading then writing a document gives it back, except a document
      `{key: <dict>}`, which is rewritten as the inner dict. */
  lemma {:induction false} ExpandSimplify(key: string, doc: Doc)
    ensures Expand(key, Simplify(key, doc)) == doc
        <==> !(doc.Keys == {key} && doc[key].Dict?)
  {
    SimplifyPicksLoneField(key, doc);
    if doc.Keys == {key} {
      if doc[key].Dict? {
        // the inner dict is strictly smaller than the document holding it
        assert doc[key] in doc.Values;
      } else {
        assert map[key := doc[key]] == doc;
      }
    }
  }

  // ---------------------------------------------------------------------------
  // The store, as a value: what each backend holds
  // ---------------------------------------------------------------------------

  /** What a backend holds: the local dict of stored values, or the
      Firestore collection as a map from document name to document. */
  datatype Snapshot =
    | LocalSnapshot(entries: map<string, Value>)
    | RemoteSnapshot(docs: map<string, Doc>)

  /** Whether `compare_and_swap` and `delete` can look the key up without a
      KeyError: always on Firestore, only for a present key locally. */
  predicate Present(s: Snapshot, key: string) {
    s.RemoteSnapshot? || key in s.entries
  }

  /** `_get`: the local value or None; the simplified Firestore document, a
      missing document reading as `{}`. */
  function Raw(s: Snapshot, key: string): Value {
    match s
    case LocalSnapshot(e) => if key in e then e[key] else Null
    case RemoteSnapshot(d) => Simplify(key, if key in d then d[key] else map[])
  }

  /** `DB.get`. */
  function Read(s: Snapshot, useBoxes: bool, key: string): (r: Value)
    ensures s.LocalSnapshot? && key !in s.entries ==> r == Null
    ensures s.RemoteSnapshot? && key !in s.docs ==> r == Dict(map[], useBoxes)
  {
    Deserialize(useBoxes, Raw(s, key))
  }

  /** The store after `DB.set(key, v)`. */
  function Written(s: Snapshot, useBoxes: bool, key: string, v: Value): Snapshot {
    var w := Serialize(useBoxes, v);
    match s
    case LocalSnapshot(e) => LocalSnapshot(e[key := w])
    case RemoteSnapshot(d) => RemoteSnapshot(d[key := Expand(key, w)])
  }

  /** The outcome of `DB.compare_and_swap(key, expected, replacement)`: whether it
      swapped (or the KeyError it raised) and the store afterwards. */
  function Swap(s: Snapshot, useBoxes: bool, key: string, expected: Value, replacement: Value)
    : (Result<bool>, Snapshot)
  {
    if !Present(s, key) then (Err(KeyError(key)), s)
    else if Equal(Raw(s, key), Serialize(useBoxes, expected)) then (Ok(true), Written(s, useBoxes, key, replacement))
    else (Ok(false), s)
  }

  /** The store after `DB.delete(key)`, or the KeyError it raised. */
  function Deleted(s: Snapshot, key: string): Result<Snapshot> {
    match s
    case LocalSnapshot(e) => if key in e then Ok(LocalSnapshot(e - {key})) else Err(KeyError(key))
    case RemoteSnapshot(d) => Ok(RemoteSnapshot(d - {key}))
  }

  // ---------------------------------------------------------------------------
  // Properties of the store
  // ---------------------------------------------------------------------------

  /** A set changes only its own key; every other key reads as before. */
  lemma WriteIsolation(s: Snapshot, useBoxes: bool, key: string, v: Value, other: string)
    requires other != key
    ensures Read(Written(s, useBoxes, key, v), useBoxes, other) == Read(s, useBoxes, other)
    ensures Present(Written(s, useBoxes, key, v), key)
    ensures Present(s, other) <==> Present(Written(s, useBoxes, key, v), other)
  {
  }

  /** Locally, `get(k)` after `set(k, v)` is `deserialize(serialize(v))`,
      which Python compares equal to `v`. */
  lemma LocalReadAfterWrite(e: map<string, Value>, useBoxes: bool, key: string, v: Value)
    ensures Read(Written(LocalSnapshot(e), useBoxes, key, v), useBoxes, key)
         == Deserialize(useBoxes, Serialize(useBoxes, v))
    ensures Equal(Read(Written(LocalSnapshot(e), useBoxes, key, v), useBoxes, key), v)
  {
  }

  /** On Firestore, `get(k)` after `set(k, v)` compares equal to `v` exactly
      when `v` is not a dict whose only field is named `k`. */
  lemma {:induction false} RemoteReadAfterWrite(d: map<string, Doc>, useBoxes: bool, key: string, v: Value)
    ensures Equal(Read(Written(RemoteSnapshot(d), useBoxes, key, v), useBoxes, key), v)
        <==> !(v.Dict? && v.fields.Keys == {key})
  {
    var w := Serialize(useBoxes, v);
    var got := Read(Written(RemoteSnapshot(d), useBoxes, key, v), useBoxes, key);
    assert got == Deserialize(useBoxes, Simplify(key, Expand(key, w)));
    assert Equal(got, Simplify(key, Expand(key, w)));
    if v.Dict? {
      SimplifyPicksLoneField(key, w.fields);
      if v.fields.Keys == {key} {
        var inner := w.fields[key];
        assert Simplify(key, Expand(key, w)) == inner;
        assert inner in w.fields.Values;
        // the field is strictly smaller than the dict holding it
        assert Plain(w).fields[key] == Plain(inner);
        assert Plain(inner) in Plain(w).fields.Values;
      } else {
        assert Simplify(key, Expand(key, w)) == Dict(w.fields, false);
        PlainIdempotent(v);
        assert Plain(Dict(w.fields, false)) == Plain(w);
      }
    } else {
      assert |map[key := w]| == 1;
      assert Simplify(key, Expand(key, w)) == w;
    }
  }

  /** A missing key reads as None locally and as an empty dict on Firestore. */
  lemma MissingKeyReads(s: Snapshot, useBoxes: bool, key: string)
    requires s.LocalSnapshot? ==> key !in s.entries
    requires s.RemoteSnapshot? ==> key !in s.docs
    ensures s.LocalSnapshot? ==> Read(s, useBoxes, key) == Null
    ensures s.RemoteSnapshot? ==> Read(s, useBoxes, key) == Dict(map[], useBoxes) && !Truthy(Read(s, useBoxes, key))
  {
  }

  /** On Firestore an empty dict (or Box) is stored as an empty document,
      which reads exactly as a missing document does. */
  lemma EmptyDictReadsLikeMissing(d: map<string, Doc>, useBoxes: bool, key: string, boxed: bool)
    ensures Read(Written(RemoteSnapshot(d), useBoxes, key, Dict(map[], boxed)), useBoxes, key)
         == Read(RemoteSnapshot(d - {key}), useBoxes, key)
  {
  }

  /** A set of a string reads back as that string on either backend. */
  lemma ReadWrittenStr(s: Snapshot, useBoxes: bool, key: string, text: string)
    ensures Read(Written(s, useBoxes, key, Str(text)), useBoxes, key) == Str(text)
  {
    if s.RemoteSnapshot? {
      assert |map[key := Str(text)]| == 1;
    }
  }

  /** Compare-and-swap succeeds exactly when the current value compares
      equal to the serialized expected value; it then stores the new value,
      and otherwise leaves the store as it was. */
  lemma SwapSemantics(s: Snapshot, useBoxes: bool, key: string, expected: Value, replacement: Value)
    requires Present(s, key)
    ensures Swap(s, useBoxes, key, expected, replacement).0 == Ok(Equal(Read(s, useBoxes, key), expected))
    ensures Swap(s, useBoxes, key, expected, replacement).1
         == if Equal(Read(s, useBoxes, key), expected) then Written(s, useBoxes, key, replacement) else s
  {
    var raw := Raw(s, key);
    assert Equal(Read(s, useBoxes, key), raw);
    assert Equal(Serialize(useBoxes, expected), expected);
  }

  /** Compare-and-swap against a string expected value succeeds exactly when
      `get` returns that string. */
  lemma SwapStr(s: Snapshot, useBoxes: bool, key: string, expected: string, replacement: Value)
    requires Present(s, key)
    ensures Swap(s, useBoxes, key, Str(expected), replacement).0 == Ok(Read(s, useBoxes, key) == Str(expected))
  {
    SwapSemantics(s, useBoxes, key, Str(expected), replacement);
    EqualStr(Read(s, useBoxes, key), expected);
  }

  /** The in-process backend raises KeyError, rather than answering false,
      for a compare-and-swap or a delete of an absent key. */
  lemma LocalAbsentKeyRaises(e: map<string, Value>, useBoxes: bool, key: string, expected: Value, replacement: Value)
    requires key !in e
    ensures Swap(LocalSnapshot(e), useBoxes, key, expected, replacement) == (Err(KeyError(key)), LocalSnapshot(e))
    ensures Deleted(LocalSnapshot(e), key) == Err(KeyError(key))
  {
  }

  /** The live-database test: after `set('yo', 1)`, `compare_and_swap('yo',
      2, 2)` answers false and `get('yo')` still returns 1. */
  lemma RemoteSwapMismatch(d: map<string, Doc>, useBoxes: bool)
    ensures var s := Written(RemoteSnapshot(d), useBoxes, "yo", Int(1));
            Swap(s, useBoxes, "yo", Int(2), Int(2)) == (Ok(false), s)
            && Read(s, useBoxes, "yo") == Int(1)
  {
    var s := Written(RemoteSnapshot(d), useBoxes, "yo", Int(1));
    assert s.docs["yo"] == map["yo" := Int(1)];
    assert |s.docs["yo"]| == 1;
  }

  /** A missing Firestore document reads as `{}`, so a compare-and-swap
      expecting `{}` creates it with the expanded new value. */
  lemma RemoteSwapCreatesMissing(d: map<string, Doc>, useBoxes: bool, key: string, empty: bool, replacement: Value)
    requires key !in d
    ensures Swap(RemoteSnapshot(d), useBoxes, key, Dict(map[], empty), replacement)
         == (Ok(true), RemoteSnapshot(d[key := Expand(key, Serialize(useBoxes, replacement))]))
  {
    assert Raw(RemoteSnapshot(d), key) == Dict(map[], false);
  }

  // ---------------------------------------------------------------------------
  // The stateful store
  // ---------------------------------------------------------------------------

  /** A dict held in `LOCAL_COLLECTIONS`, shared by every `DBLocal` created
      with its name while it is registered. */
  class Collection {
    var entries: map<string, Value>

    constructor ()
      ensures entries == map[]
    {
      entries := map[];
    }
  }

  /** The process-wide `LOCAL_COLLECTIONS` registry. */
  class Registry {
    var collections: map<string, Collection>

    constructor ()
      ensures collections == map[]
    {
      collections := map[];
    }
  }

  /** A Firestore collection on the server. */
  class RemoteCollection {
    var docs: map<string, Doc>

    constructor ()
      ensures docs == map[]
    {
      docs := map[];
    }
  }

  datatype Backend =
    | LocalBackend(registry: Registry, collection: Collection)
    | FirestoreBackend(remote: RemoteCollection)

  /** `DB` with its two subclasses: the backend chosen at construction
      decides what `_get`, `_set`, `_delete` and `_compare_and_swap` do. */
  class DB {
    const collectionName: string
    const useBoxes: bool
    const backend: Backend

    /** The objects whose fields the key operations change. */
    function Store(): set<object> {
      match backend
      case LocalBackend(_, c) => {c}
      case FirestoreBackend(r) => {r}
    }

    /** What the backend holds now. */
    function State(): (s: Snapshot)
      reads Store()
      ensures backend.LocalBackend? <==> s.LocalSnapshot?
    {
      match backend
      case LocalBackend(_, c) => LocalSnapshot(c.entries)
      case FirestoreBackend(r) => RemoteSnapshot(r.docs)
    }

    /** `DBLocal(collection_name, use_boxes)`: reuses the dict registered
        under that name, or registers a new empty one. */
    constructor Local(registry: Registry, name: string, useBoxes: bool)
      modifies registry
      ensures this.useBoxes == useBoxes
      ensures collectionName == if name == "" then DEFAULT_COLLECTION else name
      ensures backend.LocalBackend? && backend.registry == registry
      ensures name in old(registry.collections) ==> backend.collection == old(registry.collections[name])
      ensures name !in old(registry.collections) ==> fresh(backend.collection) && backend.collection.entries == map[]
      ensures registry.collections == old(registry.collections)[name := backend.collection]
    {
      var c: Collection;
      if name in registry.collections {
        c := registry.collections[name];
      } else {
        c := new Collection();
        registry.collections := registry.collections[name := c];
      }
      collectionName := if name == "" then DEFAULT_COLLECTION else name;
      this.useBoxes := useBoxes;
      backend := LocalBackend(registry, c);
    }

    /** `DBFirestore(collection_name, use_boxes)` over the server collection
        the client hands back for that name. */
    constructor Firestore(remote: RemoteCollection, name: string, useBoxes: bool)
      ensures this.useBoxes == useBoxes
      ensures collectionName == if name == "" then DEFAULT_COLLECTION else name
      ensures backend == FirestoreBackend(remote)
    {
      collectionName := if name == "" then DEFAULT_COLLECTION else name;
      this.useBoxes := useBoxes;
      backend := FirestoreBackend(remote);
    }

    /** `DB.get`: an absent key reads as None locally, as an empty dict (a
        Box with `use_boxes`) on Firestore. */
    function Get(key: string): (r: Value)
      reads Store()
      ensures backend.LocalBackend? && key !in backend.collection.entries ==> r == Null
      ensures backend.FirestoreBackend? && key !in backend.remote.docs ==> r == Dict(map[], useBoxes)
      ensures Equal(r, Raw(State(), key))
    {
      Read(State(), useBoxes, key)
    }

    /** `DB.set`: stores the serialized value (expanded into a document on
        Firestore). */
    method Set(key: string, value: Value)
      modifies Store()
      ensures State() == Written(old(State()), useBoxes, key, value)
    {
      var w := Serialize(useBoxes, value);
      match backend
      case LocalBackend(_, c) =>
        c.entries := c.entries[key := w];
      case FirestoreBackend(r) =>
        r.docs := r.docs[key := Expand(key, w)];
    }

    /** `DB.delete`: removes the key; the in-process backend raises KeyError
        for an absent key. */
    method Delete(key: string) returns (r: Result<()>)
      modifies Store()
      ensures var after := Deleted(old(State()), key);
              (r.Ok? <==> after.Ok?)
              && (after.Ok? ==> State() == after.value)
              && (after.Err? ==> r == Err(after.error) && State() == old(State()))
    {
      match backend
      case LocalBackend(_, c) =>
        if key !in c.entries {
          return Err(KeyError(key));
        }
        c.entries := c.entries - {key};
        r := Ok(());
      case FirestoreBackend(remote) =>
        remote.docs := remote.docs - {key};
        r := Ok(());
    }

    /** `DB.compare_and_swap`: one atomic step that compares the current
        value with the serialized expected value and, when they are equal,
        stores the new value. */
    method CompareAndSwap(key: string, expected: Value, replacement: Value) returns (r: Result<bool>)
      modifies Store()
      ensures (r, State()) == Swap(old(State()), useBoxes, key, expected, replacement)
    {
      var newValue := Serialize(useBoxes, replacement);
      var expectedValue := Serialize(useBoxes, expected);
      match backend
      case LocalBackend(_, c) =>
        if key !in c.entries {
          return Err(KeyError(key));
        }
        if Equal(c.entries[key], expectedValue) {
          c.entries := c.entries[key := newValue];
          r := Ok(true);
        } else {
          r := Ok(false);
        }
      case FirestoreBackend(remote) =>
        var snapshot := Simplify(key, if key in remote.docs then remote.docs[key] else map[]);
        if Equal(snapshot, expectedValue) {
          remote.docs := remote.docs[key := Expand(key, newValue)];
          r := Ok(true);
        } else {
          r := Ok(false);
        }
    }

    /** The objects `delete_all_test_data` changes. */
    function Admin(): set<object> {
      match backend
      case LocalBackend(registry, _) => {registry}
      case FirestoreBackend(r) => {r}
    }

    /** `delete_all_test_data`: the in-process backend unregisters every
        local collection (dicts already handed to a `DBLocal` stay with it)
        and returns None; Firestore deletes every document, and returns
        True, only when the collection name starts with `test_`. */
    method DeleteAllTestData() returns (r: Value)
      modifies Admin()
      ensures backend.LocalBackend? ==> r == Null && backend.registry.collections == map[]
      ensures backend.FirestoreBackend? ==>
                r == Bool(StartsWith(collectionName, "test_"))
                && backend.remote.docs == if StartsWith(collectionName, "test_") then map[] else old(backend.remote.docs)
    {
      match backend
      case LocalBackend(registry, _) =>
        var keys := registry.collections.Keys;
        while keys != {}
          invariant registry.collections.Keys == keys
          decreases keys
        {
          var k :| k in keys;
          registry.collections := registry.collections - {k};
          keys := keys - {k};
        }
        r := Null;
      case FirestoreBackend(remote) =>
        if StartsWith(collectionName, "test_") {
          remote.docs := map[];
          r := Bool(true);
        } else {
          r := Bool(false);
        }
    }
  }

  /** Two `DBLocal` stores opened with the same name see each other's writes. */
  method SharedByName(registry: Registry, name: string, key: string, v: Value)
    returns (first: DB, second: DB)
    modifies registry, registry.collections.Values
    ensures first.backend.LocalBackend? && second.backend.LocalBackend?
    ensures first.backend.collection == second.backend.collection
    ensures second.Get(key) == Deserialize(true, Serialize(true, v))
  {
    first := new DB.Local(registry, name, true);
    second := new DB.Local(registry, name, true);
    first.Set(key, v);
  }
}
