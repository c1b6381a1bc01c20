/**
 * The key store: one sled tree per upstream, named `u:<id>`, whose keys are
 * the upstream's API keys (values are empty). A tree is modelled as the set
 * of its keys and the database as a map from tree name to tree; a tree that
 * was never opened reads as empty, as `open_tree` creates it on demand.
 * Flushing and I/O errors are not modelled.
 */
module Storage {
  import opened Common
  import opened Text
  import opened Seqs
  import opened StrOrder

  type Tree = set<string>
  type Db = map<string, Tree>

  const TREE_PREFIX: string := "u:"

  /** `KeyStore::tree_name`. */
  function TreeName(upstreamId: string): (r: string)
    ensures StartsWith(r, TREE_PREFIX)
    ensures r[|TREE_PREFIX|..] == upstreamId
  {
    TREE_PREFIX + upstreamId
  }

  lemma TreeNameInjective(a: string, b: string)
    requires TreeName(a) == TreeName(b)
    ensures a == b
  {
    assert a == TreeName(a)[2..];
  }

  function TreeOf(db: Db, name: string): Tree {
    if name in db then db[name] else {}
  }

  /** Only the tree called `name` differs between `db` and `db'`. */
  ghost predicate OnlyTreeChanged(db: Db, db': Db, name: string) {
    && name in db'
    && (forall n :: n != name ==> (n in db' <==> n in db))
    && (forall n :: n in db && n != name ==> db'[n] == db[n])
  }

  /** One pass of `add_keys` over a tree: inserts each key in turn. */
  method InsertAll(t0: Tree, keys: seq<string>)
    returns (t: Tree, inserted: nat, existed: nat, insertedKeys: seq<string>)
    ensures t == t0 + SetOf(keys)
    ensures inserted + existed == |keys|
    ensures insertedKeys == FirstOccurrences(t0, keys)
    ensures inserted == |insertedKeys|
    ensures |t| == |t0| + inserted
  {
    t := t0;
    inserted, existed, insertedKeys := 0, 0, [];
    var i := 0;
    while i < |keys|
      invariant 0 <= i <= |keys|
      invariant InsertedUpTo(t0, keys[..i], t, inserted, existed, insertedKeys)
    {
      assert keys[..i + 1] == keys[..i] + [keys[i]];
      t, inserted, existed, insertedKeys := InsertNext(t0, keys[..i], keys[i], t, inserted, existed, insertedKeys);
      i := i + 1;
    }
    assert keys[..|keys|] == keys;
  }

  /** The state of `InsertAll` after the keys of `prefix`. */
  ghost predicate InsertedUpTo(t0: Tree, prefix: seq<string>, t: Tree, inserted: nat, existed: nat, ins: seq<string>) {
    && t == t0 + SetOf(prefix)
    && inserted + existed == |prefix|
    && ins == FirstOccurrences(t0, prefix)
    && inserted == |ins|
    && |t| == |t0| + inserted
  }

  /** One insertion: a new key is counted as inserted, a present one as existed. */
  method InsertNext(t0: Tree, prefix: seq<string>, k: string, t: Tree, inserted: nat, existed: nat, ins: seq<string>)
    returns (t': Tree, inserted': nat, existed': nat, ins': seq<string>)
    requires InsertedUpTo(t0, prefix, t, inserted, existed, ins)
    ensures InsertedUpTo(t0, prefix + [k], t', inserted', existed', ins')
  {
    AddStep(t0, prefix, k, t, ins);
    if k !in t {
      inserted', existed', ins' := inserted + 1, existed, ins + [k];
    } else {
      inserted', existed', ins' := inserted, existed + 1, ins;
    }
    t' := t + {k};
  }

  lemma AddStep(t0: Tree, prefix: seq<string>, k: string, t: Tree, ins: seq<string>)
    requires t == t0 + SetOf(prefix) && ins == FirstOccurrences(t0, prefix)
    ensures t + {k} == t0 + SetOf(prefix + [k])
    ensures k !in t ==> FirstOccurrences(t0, prefix + [k]) == ins + [k]
    ensures k in t ==> FirstOccurrences(t0, prefix + [k]) == ins && t + {k} == t
  {
    FirstOccurrencesSnoc(t0, prefix, k);
    assert SetOf(prefix + [k]) == SetOf(prefix) + {k};
  }

  /**
   * `add_keys`: inserts each key in turn into the upstream's tree; a key
   * already present (before the call or earlier in the list) counts as
   * `existed`, and `insertedKeys` lists the others in input order.
   */
  method AddKeys(db: Db, upstreamId: string, keys: seq<string>)
    returns (db': Db, inserted: nat, existed: nat, insertedKeys: seq<string>)
    ensures OnlyTreeChanged(db, db', TreeName(upstreamId))
    ensures db'[TreeName(upstreamId)] == TreeOf(db, TreeName(upstreamId)) + SetOf(keys)
    ensures inserted + existed == |keys|
    ensures insertedKeys == FirstOccurrences(TreeOf(db, TreeName(upstreamId)), keys)
    ensures inserted == |insertedKeys|
    ensures |db'[TreeName(upstreamId)]| == |TreeOf(db, TreeName(upstreamId))| + inserted
  {
    var name := TreeName(upstreamId);
    var t;
    t, inserted, existed, insertedKeys := InsertAll(TreeOf(db, name), keys);
    db' := db[name := t];
  }

  /** `replace_keys`: clears the tree, then inserts every key of the list. */
  method ReplaceKeys(db: Db, upstreamId: string, keys: seq<string>) returns (db': Db)
    ensures OnlyTreeChanged(db, db', TreeName(upstreamId))
    ensures db'[TreeName(upstreamId)] == SetOf(keys)
  {
    var t: Tree := {};
    var i := 0;
    while i < |keys|
      invariant 0 <= i <= |keys|
      invariant t == SetOf(keys[..i])
    {
      assert keys[..i + 1] == keys[..i] + [keys[i]];
      t := t + {keys[i]};
      i := i + 1;
    }
    assert keys[..|keys|] == keys;
    db' := db[TreeName(upstreamId) := t];
  }

  /** One pass of `delete_keys` over a tree: removes each key, counting the removals that found it. */
  method RemoveAll(t0: Tree, keys: seq<string>) returns (t: Tree, removed: nat)
    ensures t == t0 - SetOf(keys)
    ensures removed == |t0 * SetOf(keys)|
  {
    t := t0;
    removed := 0;
    var i := 0;
    while i < |keys|
      invariant 0 <= i <= |keys|
      invariant t == t0 - SetOf(keys[..i])
      invariant removed == |t0 * SetOf(keys[..i])|
    {
      var k := keys[i];
      assert keys[..i + 1] == keys[..i] + [k];
      RemoveStep(t0, keys[..i], k, t);
      if k in t {
        removed := removed + 1;
      }
      t := t - {k};
      i := i + 1;
    }
    assert keys[..|keys|] == keys;
  }

  lemma RemoveStep(t0: Tree, prefix: seq<string>, k: string, t: Tree)
    requires t == t0 - SetOf(prefix)
    ensures t - {k} == t0 - SetOf(prefix + [k])
    ensures k in t ==> |t0 * SetOf(prefix + [k])| == |t0 * SetOf(prefix)| + 1
    ensures k !in t ==> |t0 * SetOf(prefix + [k])| == |t0 * SetOf(prefix)|
  {
    assert SetOf(prefix + [k]) == SetOf(prefix) + {k};
    if k in t {
      assert t0 * SetOf(prefix + [k]) == t0 * SetOf(prefix) + {k};
    } else {
      assert t0 * SetOf(prefix + [k]) == t0 * SetOf(prefix);
    }
  }

  /**
   * `delete_keys`: `removed` counts the distinct listed keys that were in
   * the tree, that is the distinct keys minus those that were absent.
   */
  method DeleteKeys(db: Db, upstreamId: string, keys: seq<string>) returns (db': Db, removed: nat)
    ensures OnlyTreeChanged(db, db', TreeName(upstreamId))
    ensures db'[TreeName(upstreamId)] == TreeOf(db, TreeName(upstreamId)) - SetOf(keys)
    ensures removed == |TreeOf(db, TreeName(upstreamId)) * SetOf(keys)|
    ensures removed == |FirstOccurrences({}, keys)| - |SetOf(keys) - TreeOf(db, TreeName(upstreamId))|
  {
    var name := TreeName(upstreamId);
    var t;
    t, removed := RemoveAll(TreeOf(db, name), keys);
    DistinctCount(TreeOf(db, name), keys);
    db' := db[name := t];
  }

  lemma DistinctCount(t0: Tree, keys: seq<string>)
    ensures |FirstOccurrences({}, keys)| == |t0 * SetOf(keys)| + |SetOf(keys) - t0|
  {
    FirstOccurrencesSpec({}, keys);
    DistinctCardinality(FirstOccurrences({}, keys));
    assert SetOf(FirstOccurrences({}, keys)) == SetOf(keys);
    assert SetOf(keys) == (t0 * SetOf(keys)) + (SetOf(keys) - t0);
  }

  lemma {:induction false} DistinctCardinality(xs: seq<string>)
    requires Distinct(xs)
    ensures |SetOf(xs)| == |xs|
  {
    if |xs| > 0 {
      var init := xs[..|xs| - 1];
      assert Distinct(init);
      DistinctCardinality(init);
      assert xs == init + [xs[|xs| - 1]];
      assert SetOf(xs) == SetOf(init) + {xs[|xs| - 1]};
      assert xs[|xs| - 1] !in SetOf(init);
    }
  }

  /** `load_all_keys`: the tree's keys, once each, in sled's (byte-wise) order. */
  function LoadAllKeys(db: Db, upstreamId: string): (r: seq<string>)
    ensures StrictlySorted(r)
    ensures forall k :: k in r <==> k in TreeOf(db, TreeName(upstreamId))
    ensures |r| == |TreeOf(db, TreeName(upstreamId))|
  {
    SortedElements(TreeOf(db, TreeName(upstreamId)))
  }

  // ---- JSON export and import ----

  /** The upstream id `export_json` files a tree under: the name with every leading `u:` removed. */
  function ExportId(name: string): (r: string)
    ensures !StartsWith(r, TREE_PREFIX)
  {
    TrimStartMatches(name, TREE_PREFIX)
  }

  /** An id survives export exactly when it does not itself begin with `u:`. */
  lemma ExportIdOfTreeName(id: string)
    ensures ExportId(TreeName(id)) == id <==> !StartsWith(id, TREE_PREFIX)
  {
    var name := TreeName(id);
    assert StartsWith(name, TREE_PREFIX);
    assert name[|TREE_PREFIX|..] == id;
    assert ExportId(name) == TrimStartMatches(id, TREE_PREFIX);
  }

  /** The id `u:x` is exported as `x`, so it cannot be re-imported under its own name. */
  lemma ExportIdLosesPrefix()
    ensures ExportId(TreeName("u:x")) == "x"
  {
    assert StartsWith(TreeName("u:x"), TREE_PREFIX);
    assert TreeName("u:x")[2..] == "u:x";
    assert StartsWith("u:x", TREE_PREFIX);
    assert "u:x"[2..] == "x";
    assert !StartsWith("x", TREE_PREFIX);
  }

  /**
   * `export_json`: for each tree name in the order `tree_names` lists them,
   * an upstream tree is filed under its exported id with its sorted keys;
   * a later tree with the same exported id replaces an earlier one.
   */
  function Export(db: Db, names: seq<string>): (r: map<string, seq<string>>)
    ensures forall id :: id in r ==>
      exists j :: 0 <= j < |names| && StartsWith(names[j], TREE_PREFIX) && ExportId(names[j]) == id
    ensures forall id :: id in r ==> StrictlySorted(r[id])
  {
    if |names| == 0 then map[]
    else
      var name := names[|names| - 1];
      var earlier := Export(db, names[..|names| - 1]);
      assert forall id :: id in earlier ==>
        exists j :: 0 <= j < |names| && StartsWith(names[j], TREE_PREFIX) && ExportId(names[j]) == id by {
        forall id | id in earlier
          ensures exists j :: 0 <= j < |names| && StartsWith(names[j], TREE_PREFIX) && ExportId(names[j]) == id {
          var j :| 0 <= j < |names[..|names| - 1]| && StartsWith(names[..|names| - 1][j], TREE_PREFIX)
            && ExportId(names[..|names| - 1][j]) == id;
          assert names[j] == names[..|names| - 1][j];
        }
      }
      if StartsWith(name, TREE_PREFIX) then earlier[ExportId(name) := SortedElements(TreeOf(db, name))]
      else earlier
  }

  /** With no two upstream trees sharing an exported id, each is exported under its own id with its keys. */
  lemma {:induction false} ExportContents(db: Db, names: seq<string>, j: nat)
    requires j < |names| && StartsWith(names[j], TREE_PREFIX)
    requires forall i :: 0 <= i < |names| && i != j && StartsWith(names[i], TREE_PREFIX) ==>
      ExportId(names[i]) != ExportId(names[j])
    ensures ExportId(names[j]) in Export(db, names)
    ensures Export(db, names)[ExportId(names[j])] == SortedElements(TreeOf(db, names[j]))
  {
    if j < |names| - 1 {
      var init := names[..|names| - 1];
      assert init[j] == names[j];
      forall i | 0 <= i < |init| && i != j && StartsWith(init[i], TREE_PREFIX)
        ensures ExportId(init[i]) != ExportId(init[j]) {
        assert init[i] == names[i];
      }
      ExportContents(db, init, j);
    }
  }

  /**
   * `import_json`: `replace_keys` for every upstream listed in the file, in
   * the file's (sorted) order; trees of unlisted upstreams are untouched.
   */
  method Import(db: Db, file: map<string, seq<string>>) returns (db': Db)
    ensures forall id :: id in file ==> TreeName(id) in db' && db'[TreeName(id)] == SetOf(file[id])
    ensures forall n :: (forall id :: id in file ==> n != TreeName(id)) ==>
      (n in db' <==> n in db) && (n in db ==> db'[n] == db[n])
  {
    var ids := SortedElements(file.Keys);
    StrictlySortedIsDistinct(ids);
    db' := db;
    var i := 0;
    while i < |ids|
      invariant 0 <= i <= |ids|
      invariant ImportedUpTo(db, file, ids, i, db')
    {
      db' := ImportNext(db, file, ids, i, db');
      i := i + 1;
    }
    ImportedAll(db, file, ids, db');
  }

  /** The state of `Import` after the first `i` ids. */
  ghost predicate ImportedUpTo(db: Db, file: map<string, seq<string>>, ids: seq<string>, i: nat, db': Db)
    requires i <= |ids| && forall j :: 0 <= j < |ids| ==> ids[j] in file
  {
    && (forall j :: 0 <= j < i ==> TreeName(ids[j]) in db' && db'[TreeName(ids[j])] == SetOf(file[ids[j]]))
    && (forall n :: (forall j :: 0 <= j < i ==> n != TreeName(ids[j])) ==>
          (n in db' <==> n in db) && (n in db ==> db'[n] == db[n]))
  }

  /** Replacing the keys of the next listed upstream. */
  method ImportNext(db: Db, file: map<string, seq<string>>, ids: seq<string>, i: nat, cur: Db) returns (next: Db)
    requires i < |ids| && (forall j :: 0 <= j < |ids| ==> ids[j] in file)
    requires Distinct(ids)
    requires ImportedUpTo(db, file, ids, i, cur)
    ensures ImportedUpTo(db, file, ids, i + 1, next)
  {
    var id := ids[i];
    next := ReplaceKeys(cur, id, file[id]);
    forall j | 0 <= j < i
      ensures TreeName(ids[j]) in next && next[TreeName(ids[j])] == SetOf(file[ids[j]]) {
      assert ids[j] != id;
    }
  }

  /** Once every id is done, the invariant is the contract of `Import`. */
  lemma ImportedAll(db: Db, file: map<string, seq<string>>, ids: seq<string>, db': Db)
    requires ids == SortedElements(file.Keys)
    requires ImportedUpTo(db, file, ids, |ids|, db')
    ensures forall id :: id in file ==> TreeName(id) in db' && db'[TreeName(id)] == SetOf(file[id])
    ensures forall n :: (forall id :: id in file ==> n != TreeName(id)) ==>
      (n in db' <==> n in db) && (n in db ==> db'[n] == db[n])
  {
    forall id | id in file ensures TreeName(id) in db' && db'[TreeName(id)] == SetOf(file[id]) {
      assert id in ids;
    }
    forall n | (forall id :: id in file ==> n != TreeName(id))
      ensures (n in db' <==> n in db) && (n in db ==> db'[n] == db[n]) {
      forall j | 0 <= j < |ids| ensures n != TreeName(ids[j]) {
        assert ids[j] in file;
      }
    }
  }
}
