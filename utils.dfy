/** The pure helpers of botleague_helpers/utils.py: `find_replace`, the
    recursive search (and optional replacement) of a field value through
    nested dicts and the dicts directly inside lists, `get_str_or_box` and
    `dbox`. */
module Utils {
  import opened Py

  // ---------------------------------------------------------------------------
  // find_replace: what is found
  // ---------------------------------------------------------------------------

  /** What searching one field's value contributes: the value itself when it
      equals the target (and then nothing inside it is searched), else the
      findings inside a dict, else those inside the dicts of a list. */
  ghost function FoundAt(v: Value, target: Value): (r: multiset<Value>)
    decreases v, 2, 0
  {
    if Equal(v, target) then multiset{v}
    else if v.Dict? then FoundIn(v, v.fields.Keys, target)
    else if v.List? then FoundItems(v, |v.items|, target)
    else multiset{}
  }

  /** The findings in the fields `keys` of the dict `d`, in no particular
      order (`FoundInSplit` shows the order does not matter). */
  ghost function FoundIn(d: Value, keys: set<string>, target: Value): (r: multiset<Value>)
    requires d.Dict? && keys <= d.fields.Keys
    decreases d, 1, |keys|
  {
    if keys == {} then multiset{}
    else
      var k :| k in keys;
      assert d.fields[k] in d.fields.Values;
      FoundAt(d.fields[k], target) + FoundIn(d, keys - {k}, target)
  }

  /** All the findings in the dict `d`. */
  ghost function Found(d: Value, target: Value): (r: multiset<Value>)
    requires d.Dict?
    decreases d, 1, |d.fields.Keys| + 1
  {
    FoundIn(d, d.fields.Keys, target)
  }

  /** The findings in the first `n` items of the list `l`: only the items
      that are dicts are searched. */
  ghost function FoundItems(l: Value, n: nat, target: Value): (r: multiset<Value>)
    requires l.List? && n <= |l.items|
    decreases l, 1, n
  {
    if n == 0 then multiset{}
    else
      FoundItems(l, n - 1, target) + (if l.items[n - 1].Dict? then Found(l.items[n - 1], target) else multiset{})
  }

  /** Picking any key first gives the same findings. */
  lemma {:induction false} FoundInSplit(d: Value, keys: set<string>, k: string, target: Value)
    requires d.Dict? && keys <= d.fields.Keys && k in keys
    ensures FoundIn(d, keys, target) == FoundAt(d.fields[k], target) + FoundIn(d, keys - {k}, target)
    decreases |keys|
  {
    var j :| j in keys && FoundIn(d, keys, target) == FoundAt(d.fields[j], target) + FoundIn(d, keys - {j}, target);
    if j != k {
      FoundInSplit(d, keys - {j}, k, target);
      FoundInSplit(d, keys - {k}, j, target);
      assert keys - {j} - {k} == keys - {k} - {j};
    }
  }

  // ---------------------------------------------------------------------------
  // find_replace: what the structure becomes
  // ---------------------------------------------------------------------------

  /** A field's value after the search: a match becomes `replace` when that
      is truthy and stays as it was otherwise; a dict and the dicts of a
      list are searched in turn; anything else is untouched. */
  function ReplacedAt(v: Value, target: Value, replace: Value): (r: Value)
    decreases v, 1
  {
    if Equal(v, target) then (if Truthy(replace) then replace else v)
    else if v.Dict? then Replaced(v, target, replace)
    else if v.List? then ReplacedList(v, target, replace)
    else v
  }

  /** A list after the search: each item as `ReplacedItem` says. */
  function ReplacedList(l: Value, target: Value, replace: Value): (r: Value)
    requires l.List?
    decreases l, 0
  {
    List(seq(|l.items|, i requires 0 <= i < |l.items| => ReplacedItem(l.items[i], target, replace)), l.boxed)
  }

  /** A list item after the search: only dicts are searched. */
  function ReplacedItem(item: Value, target: Value, replace: Value): (r: Value)
    decreases item, 2
  {
    if item.Dict? then Replaced(item, target, replace) else item
  }

  /** The dict `d` after the search: the same keys, each value as
      `ReplacedAt` says. */
  function Replaced(d: Value, target: Value, replace: Value): (r: Value)
    requires d.Dict?
    ensures r.Dict? && r.boxed == d.boxed && r.fields.Keys == d.fields.Keys
    decreases d, 0
  {
    Dict(map k | k in d.fields :: ReplacedAt(d.fields[k], target, replace), d.boxed)
  }

  /** `find_replace(search_dict, field_value, replace)`: returns the values
      found, one per matching field, and the dict as the in-place updates
      leave it. */
  method FindReplace(d: Value, target: Value, replace: Value) returns (found: seq<Value>, updated: Value)
    requires d.Dict?
    ensures multiset(found) == Found(d, target)
    ensures updated == Replaced(d, target, replace)
    decreases d, 1
  {
    var fields := d.fields;
    var keys := d.fields.Keys;
    found := [];
    SearchedNone(d, target, replace);
    while keys != {}
      invariant Searched(d, target, replace, keys, fields, found)
      decreases |keys|
    {
      var k :| k in keys;
      assert d.fields[k] in d.fields.Values;
      var results, value := SearchField(d.fields[k], target, replace);
      SearchedOneMore(d, target, replace, keys, fields, found, k, results, value);
      found, fields, keys := found + results, fields[k := value], keys - {k};
    }
    SearchedAll(d, target, replace, fields, found);
    updated := Dict(fields, d.boxed);
  }

  /** The state of the loop of `find_replace` with the fields `keys` still
      to search: the others are updated and their findings collected. */
  ghost predicate Searched(d: Value, target: Value, replace: Value, keys: set<string>,
                           fields: map<string, Value>, found: seq<Value>)
    requires d.Dict?
  {
    && keys <= d.fields.Keys && fields.Keys == d.fields.Keys
    && (forall k | k in fields :: fields[k] == if k in keys then d.fields[k] else ReplacedAt(d.fields[k], target, replace))
    && multiset(found) == FoundIn(d, d.fields.Keys - keys, target)
  }

  lemma SearchedNone(d: Value, target: Value, replace: Value)
    requires d.Dict?
    ensures Searched(d, target, replace, d.fields.Keys, d.fields, [])
  {
    assert d.fields.Keys - d.fields.Keys == {};
  }

  lemma SearchedOneMore(d: Value, target: Value, replace: Value, keys: set<string>,
                        fields: map<string, Value>, found: seq<Value>,
                        k: string, results: seq<Value>, value: Value)
    requires d.Dict? && Searched(d, target, replace, keys, fields, found) && k in keys
    requires multiset(results) == FoundAt(d.fields[k], target) && value == ReplacedAt(d.fields[k], target, replace)
    ensures Searched(d, target, replace, keys - {k}, fields[k := value], found + results)
  {
    FoundStep(d, keys, k, target);
  }

  lemma SearchedAll(d: Value, target: Value, replace: Value, fields: map<string, Value>, found: seq<Value>)
    requires d.Dict? && Searched(d, target, replace, {}, fields, found)
    ensures multiset(found) == Found(d, target)
    ensures Dict(fields, d.boxed) == Replaced(d, target, replace)
  {
    assert d.fields.Keys - {} == d.fields.Keys;
    DictKept(d, fields, target, replace);
  }

  /** A map of the dict's keys holding each field's value after the search
      is the searched dict's map. */
  lemma DictKept(d: Value, fields: map<string, Value>, target: Value, replace: Value)
    requires d.Dict? && fields.Keys == d.fields.Keys
    requires forall k | k in fields :: fields[k] == ReplacedAt(d.fields[k], target, replace)
    ensures Dict(fields, d.boxed) == Replaced(d, target, replace)
  {
    var goal := Replaced(d, target, replace).fields;
    forall k | k in fields
      ensures fields[k] == goal[k]
    {
    }
    assert fields == goal;
  }

  /** The same for the items of a list. */
  lemma ListKept(l: Value, items: seq<Value>, target: Value, replace: Value)
    requires l.List? && |items| == |l.items|
    requires forall i | 0 <= i < |items| :: items[i] == ReplacedItem(l.items[i], target, replace)
    ensures List(items, l.boxed) == ReplacedList(l, target, replace)
  {
  }

  /** Taking the field `k` out of the keys still to search adds exactly
      its findings to those of the keys already searched. */
  lemma FoundStep(d: Value, keys: set<string>, k: string, target: Value)
    requires d.Dict? && keys <= d.fields.Keys && k in keys
    ensures FoundIn(d, d.fields.Keys - (keys - {k}), target)
         == FoundIn(d, d.fields.Keys - keys, target) + FoundAt(d.fields[k], target)
  {
    FoundInSplit(d, d.fields.Keys - (keys - {k}), k, target);
    assert d.fields.Keys - (keys - {k}) - {k} == d.fields.Keys - keys;
  }

  /** One pass of the loop of `find_replace`, for the field value `value`:
      a match is recorded (and overwritten when `replace` is truthy); a dict
      is searched; in a list each dict item is searched in place. */
  method SearchField(value: Value, target: Value, replace: Value) returns (found: seq<Value>, updated: Value)
    ensures multiset(found) == FoundAt(value, target)
    ensures updated == ReplacedAt(value, target, replace)
    decreases value, 2
  {
    if Equal(value, target) {
      found := [value];
      updated := if Truthy(replace) then replace else value;
    } else if value.Dict? {
      found, updated := FindReplace(value, target, replace);
    } else if value.List? {
      found, updated := SearchItems(value, target, replace);
    } else {
      found, updated := [], value;
    }
  }

  /** The list branch of that pass: each item that is a dict is searched
      (and updated in place); other items, nested lists included, are
      skipped. */
  method SearchItems(l: Value, target: Value, replace: Value) returns (found: seq<Value>, updated: Value)
    requires l.List?
    ensures multiset(found) == FoundItems(l, |l.items|, target)
    ensures updated == ReplacedList(l, target, replace)
    decreases l, 1
  {
    var items := l.items;
    found := [];
    var i := 0;
    while i < |l.items|
      invariant ItemsSearched(l, target, replace, i, items, found)
    {
      if l.items[i].Dict? {
        var more, sub := FindReplace(l.items[i], target, replace);
        ItemSearched(l, target, replace, i, items, found, more, sub);
        found, items := found + more, items[i := sub];
      } else {
        ItemSkipped(l, target, replace, i, items, found);
      }
      i := i + 1;
    }
    ItemsSearchedAll(l, target, replace, items, found);
    updated := List(items, l.boxed);
  }

  /** The state of the list loop of `find_replace` after `i` items. */
  ghost predicate ItemsSearched(l: Value, target: Value, replace: Value, i: nat, items: seq<Value>, found: seq<Value>)
    requires l.List?
  {
    && i <= |l.items| && |items| == |l.items|
    && (forall j | 0 <= j < |items| :: items[j] == if j < i then ReplacedItem(l.items[j], target, replace) else l.items[j])
    && multiset(found) == FoundItems(l, i, target)
  }

  lemma ItemSearched(l: Value, target: Value, replace: Value, i: nat, items: seq<Value>, found: seq<Value>,
                     more: seq<Value>, sub: Value)
    requires l.List? && i < |l.items| && l.items[i].Dict? && ItemsSearched(l, target, replace, i, items, found)
    requires multiset(more) == Found(l.items[i], target) && sub == Replaced(l.items[i], target, replace)
    ensures ItemsSearched(l, target, replace, i + 1, items[i := sub], found + more)
  {
  }

  lemma ItemsSearchedAll(l: Value, target: Value, replace: Value, items: seq<Value>, found: seq<Value>)
    requires l.List? && ItemsSearched(l, target, replace, |l.items|, items, found)
    ensures List(items, l.boxed) == ReplacedList(l, target, replace)
  {
    ListKept(l, items, target, replace);
  }

  lemma ItemSkipped(l: Value, target: Value, replace: Value, i: nat, items: seq<Value>, found: seq<Value>)
    requires l.List? && i < |l.items| && !l.items[i].Dict? && ItemsSearched(l, target, replace, i, items, found)
    ensures ItemsSearched(l, target, replace, i + 1, items, found)
  {
  }

  // ---------------------------------------------------------------------------
  // find_replace: properties
  // ---------------------------------------------------------------------------

  /** With a falsy `replace` (None, '', 0, False, an empty container) the
      structure is left exactly as it was, whatever is found. */
  lemma {:induction false} FalsyReplaceKeeps(v: Value, target: Value, replace: Value)
    requires !Truthy(replace)
    ensures ReplacedAt(v, target, replace) == v
    decreases v, 1
  {
    if v.Dict? {
      FalsyReplaceKeepsDict(v, target, replace);
    } else if v.List? {
      forall i | 0 <= i < |v.items|
        ensures ReplacedItem(v.items[i], target, replace) == v.items[i]
      {
        if v.items[i].Dict? {
          FalsyReplaceKeepsDict(v.items[i], target, replace);
        }
      }
      ListKept(v, v.items, target, replace);
    }
  }

  /** The same for a dict searched field by field. */
  lemma {:induction false} FalsyReplaceKeepsDict(d: Value, target: Value, replace: Value)
    requires !Truthy(replace) && d.Dict?
    ensures Replaced(d, target, replace) == d
    decreases d, 0
  {
    forall k | k in d.fields
      ensures ReplacedAt(d.fields[k], target, replace) == d.fields[k]
    {
      assert d.fields[k] in d.fields.Values;
      FalsyReplaceKeeps(d.fields[k], target, replace);
    }
    DictKept(d, d.fields, target, replace);
  }

  /** Everything found equals the target (as Python `==` compares). */
  lemma {:induction false} FoundMatches(v: Value, target: Value)
    ensures forall w | w in FoundAt(v, target) :: Equal(w, target)
    decreases v, 2
  {
    if !Equal(v, target) {
      if v.Dict? {
        FoundInMatches(v, v.fields.Keys, target);
      } else if v.List? {
        FoundItemsMatch(v, |v.items|, target);
      }
    }
  }

  lemma {:induction false} FoundInMatches(d: Value, keys: set<string>, target: Value)
    requires d.Dict? && keys <= d.fields.Keys
    ensures forall w | w in FoundIn(d, keys, target) :: Equal(w, target)
    decreases d, 1, |keys|
  {
    if keys != {} {
      var k :| k in keys;
      assert d.fields[k] in d.fields.Values;
      FoundInSplit(d, keys, k, target);
      FoundMatches(d.fields[k], target);
      FoundInMatches(d, keys - {k}, target);
    }
  }

  lemma {:induction false} FoundItemsMatch(l: Value, n: nat, target: Value)
    requires l.List? && n <= |l.items|
    ensures forall w | w in FoundItems(l, n, target) :: Equal(w, target)
    decreases l, 1, n
  {
    if n > 0 {
      FoundItemsMatch(l, n - 1, target);
      if l.items[n - 1].Dict? {
        FoundInMatches(l.items[n - 1], l.items[n - 1].fields.Keys, target);
      }
    }
  }

  /** Every item a list contributes is among the list's findings. */
  lemma {:induction false} FoundItemsCovers(l: Value, n: nat, j: nat, target: Value)
    requires l.List? && j < n <= |l.items| && l.items[j].Dict?
    ensures Found(l.items[j], target) <= FoundItems(l, n, target)
    decreases n
  {
    if j < n - 1 {
      FoundItemsCovers(l, n - 1, j, target);
    }
  }

  /** Where nothing is found nothing changes, whatever `replace` is. */
  lemma {:induction false} NothingFoundKeeps(v: Value, target: Value, replace: Value)
    requires FoundAt(v, target) == multiset{}
    ensures ReplacedAt(v, target, replace) == v
    decreases v, 1
  {
    if v.Dict? {
      NothingFoundKeepsDict(v, target, replace);
    } else if v.List? {
      forall i | 0 <= i < |v.items|
        ensures ReplacedItem(v.items[i], target, replace) == v.items[i]
      {
        if v.items[i].Dict? {
          FoundItemsCovers(v, |v.items|, i, target);
          NothingFoundKeepsDict(v.items[i], target, replace);
        }
      }
      ListKept(v, v.items, target, replace);
    }
  }

  /** The same for a dict searched field by field. */
  lemma {:induction false} NothingFoundKeepsDict(d: Value, target: Value, replace: Value)
    requires d.Dict? && Found(d, target) == multiset{}
    ensures Replaced(d, target, replace) == d
    decreases d, 0
  {
    forall k | k in d.fields
      ensures ReplacedAt(d.fields[k], target, replace) == d.fields[k]
    {
      assert d.fields[k] in d.fields.Values;
      FoundInSplit(d, d.fields.Keys, k, target);
      NothingFoundKeeps(d.fields[k], target, replace);
    }
    DictKept(d, d.fields, target, replace);
  }

  /** A list none of whose items is a dict (a list of lists, say) is never
      searched: it contributes nothing and stays as it was, unless the list
      as a whole equals the target. */
  lemma {:induction false} ListWithoutDictsIsSkipped(l: Value, target: Value, replace: Value)
    requires l.List? && !Equal(l, target)
    requires forall i | 0 <= i < |l.items| :: !l.items[i].Dict?
    ensures FoundAt(l, target) == multiset{}
    ensures ReplacedAt(l, target, replace) == l
  {
    NoDictItemsFindNothing(l, |l.items|, target);
    NothingFoundKeeps(l, target, replace);
  }

  /** The first `n` items of a list without dict items contribute nothing. */
  lemma {:induction false} NoDictItemsFindNothing(l: Value, n: nat, target: Value)
    requires l.List? && n <= |l.items|
    requires forall i | 0 <= i < |l.items| :: !l.items[i].Dict?
    ensures FoundItems(l, n, target) == multiset{}
    decreases n
  {
    if n > 0 {
      NoDictItemsFindNothing(l, n - 1, target);
    }
  }

  /** A matching field is among the findings and, with a truthy `replace`,
      is overwritten. */
  lemma MatchReplaced(d: Value, k: string, target: Value, replace: Value)
    requires d.Dict? && k in d.fields && Truthy(replace)
    ensures Equal(d.fields[k], target) ==>
              Replaced(d, target, replace).fields[k] == replace && d.fields[k] in Found(d, target)
  {
    FoundInSplit(d, d.fields.Keys, k, target);
  }

  // ---------------------------------------------------------------------------
  // get_str_or_box and dbox
  // ---------------------------------------------------------------------------

  /** `get_str_or_box`: the content of a non-empty `.json` file is parsed
      and boxed; anything else is returned as the string it is. `parse`
      stands for `json.loads` (an error for malformed JSON). */
  function GetStrOrBox(content: string, filename: string, parse: string -> Result<map<string, Value>>): (r: Result<Value>)
    ensures !(EndsWith(filename, ".json") && content != "") ==> r == Ok(Str(content))
    ensures EndsWith(filename, ".json") && content != "" && parse(content).Err? ==> r == Err(parse(content).error)
    ensures EndsWith(filename, ".json") && content != "" && parse(content).Ok? ==>
              r.Ok? && r.value.Dict? && r.value.IsBoxed() && Equal(r.value, Dict(parse(content).value, false))
  {
    if EndsWith(filename, ".json") && content != "" then
      match parse(content)
      case Ok(fields) =>
        PlainBoxUp(Dict(fields, false));
        Ok(BoxUp(Dict(fields, false)))
      case Err(e) => Err(e)
    else Ok(Str(content))
  }

  /** `dbox(obj, **kwargs)`: keyword arguments, when there are any, replace
      `obj` entirely; a missing (None) `obj` becomes `{}`; the result is a
      Box equal to the chosen dict. */
  function Dbox(obj: Option<map<string, Value>>, kwargs: map<string, Value>): (r: Value)
    ensures r.Dict? && r.IsBoxed()
    ensures |kwargs| > 0 ==> Equal(r, Dict(kwargs, false))
    ensures |kwargs| == 0 && obj.Some? ==> Equal(r, Dict(obj.value, false))
    ensures |kwargs| == 0 && obj.None? ==> r.fields == map[]
  {
    var fields := if |kwargs| > 0 then kwargs else if obj.Some? then obj.value else map[];
    PlainBoxUp(Dict(fields, false));
    BoxUp(Dict(fields, false))
  }
}
