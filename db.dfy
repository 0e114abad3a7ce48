/** The document store: each document is one YAML file `<root>/<id>.yml`
    under the database directory, read through a lazily filled data cache,
    and written back by `save`. The catalog ("index") is the document with
    id `index`, holding the lists of recipe and menu ids. */
module Db {
  import opened Common
  import opened Text
  import opened Yaml
  import opened Files
  import opened Feedem

  /** The id of the catalog document. */
  const IndexId: string := "index"

  /** The catalog a freshly initialised database starts with. */
  const EmptyCatalog: Value := Mapping(map["recipes" := List([]), "menus" := List([])])

  /** What reading `data` yields: the cached value when there is one,
      otherwise the document file parsed. A file that parses to `None`
      leaves the cache empty. */
  function LoadData(cache: Value, tree: Tree, path: string, codec: Codec): (r: Result<Value>)
  {
    if cache != Null then Ok(cache)
    else
      var text :- tree.Read(path);
      codec.parse(text)
  }

  /** `data[key].append(item)`: the list under `key` grows by `item` at its
      end; a missing key, a non-mapping or a non-list value is an error. */
  function Appended(data: Value, key: string, item: Value): (r: Result<Value>)
    ensures r.Ok? <==> data.Mapping? && key in data.entries && data.entries[key].List?
    ensures r.Ok? ==> r.value == Mapping(data.entries[key := List(data.entries[key].items + [item])])
    ensures data.Mapping? && key !in data.entries ==> r == Err(KeyError(key))
  {
    var v :- Lookup(data, key);
    match v
    case List(items) => Store(data, key, List(items + [item]))
    case _ => Err(AttributeError)
  }

  /** Appending several items, one after another. */
  function AppendedAll(data: Value, key: string, items: seq<Value>): Result<Value>
    decreases |items|
  {
    if items == [] then Ok(data)
    else
      var d :- Appended(data, key, items[0]);
      AppendedAll(d, key, items[1..])
  }

  /** The catalog only ever grows at the end of one list: appending ids one
      by one leaves that list equal to the old list followed by the ids, and
      every other list as it was. */
  lemma {:induction false} CatalogGrowth(data: Value, key: string, items: seq<Value>)
    requires data.Mapping? && key in data.entries && data.entries[key].List?
    ensures AppendedAll(data, key, items).Ok?
    ensures AppendedAll(data, key, items).value ==
              Mapping(data.entries[key := List(data.entries[key].items + items)])
    decreases |items|
  {
    if items != [] {
      var d := Appended(data, key, items[0]).value;
      CatalogGrowth(d, key, items[1..]);
      assert data.entries[key].items + [items[0]] + items[1..] == data.entries[key].items + items;
      assert d.entries[key := List(d.entries[key].items + items[1..])]
          == data.entries[key := List(data.entries[key].items + items)];
    } else {
      assert data.entries[key].items + items == data.entries[key].items;
      assert data.entries[key := List(data.entries[key].items)] == data.entries;
    }
  }

  // ---------------------------------------------------------------------
  // Recipe.preparation_time
  // ---------------------------------------------------------------------

  /** `step.get('time', 0)` for every step: each step must be a mapping. */
  function StepTimes(steps: seq<Value>): (r: Result<seq<Value>>)
    ensures r.Ok? <==> forall k :: 0 <= k < |steps| ==> steps[k].Mapping?
    ensures r.Ok? ==> |r.value| == |steps|
    ensures r.Ok? ==> forall k :: 0 <= k < |steps| ==>
              r.value[k] == (if "time" in steps[k].entries then steps[k].entries["time"] else Num(0.0))
  {
    if steps == [] then Ok([])
    else
      match steps[0]
      case Mapping(m) =>
        var rest :- StepTimes(steps[1..]);
        Ok([if "time" in m then m["time"] else Num(0.0)] + rest)
      case _ => Err(AttributeError)
  }

  /** `sum(values)`, left to right: every value must be a number. */
  function Sum(values: seq<Value>): (r: Result<real>)
    ensures r.Ok? <==> forall k :: 0 <= k < |values| ==> values[k].Num?
  {
    if values == [] then Ok(0.0)
    else
      var init :- Sum(values[..|values| - 1]);
      match values[|values| - 1]
      case Num(n) => Ok(init + n)
      case _ => Err(TypeError)
  }

  /** The sum of a concatenation is the sum of the two parts. */
  lemma {:induction false} SumAppend(a: seq<Value>, b: seq<Value>)
    requires Sum(a).Ok? && Sum(b).Ok?
    ensures Sum(a + b) == Ok(Sum(a).value + Sum(b).value)
    decreases |b|
  {
    if b != [] {
      var b' := b[..|b| - 1];
      assert (a + b)[..|a + b| - 1] == a + b';
      assert Sum(b').Ok? by {
        assert forall k :: 0 <= k < |b'| ==> b'[k] == b[k];
      }
      SumAppend(a, b');
    } else {
      assert a + b == a;
    }
  }

  /** One more number adds itself to the sum. */
  lemma SumSnoc(values: seq<Value>, x: Value)
    requires Sum(values).Ok? && x.Num?
    ensures Sum(values + [x]) == Ok(Sum(values).value + x.n)
  {
    assert (values + [x])[..|values|] == values;
  }

  /** `Recipe.preparation_time`: the sum of the steps' `time` values, a step
      without one counting as 0. Iterating an empty mapping or string gives
      no steps; a non-empty one yields keys or characters, which have no
      `get`. */
  function PreparationTime(recipe: Value): Result<real>
  {
    var steps :- Lookup(recipe, "steps");
    match steps
    case List(items) =>
      var times :- StepTimes(items);
      Sum(times)
    case Mapping(m) => if m == map[] then Ok(0.0) else Err(AttributeError)
    case Str(s) => if s == "" then Ok(0.0) else Err(AttributeError)
    case _ => Err(TypeError)
  }

  /** A recipe whose steps all are mappings takes the sum of their
      times. */
  lemma PreparationTimeOfSteps(steps: seq<Value>)
    requires StepTimes(steps).Ok?
    ensures PreparationTime(Mapping(map["steps" := List(steps)])) == Sum(StepTimes(steps).value)
  {
  }

  /** The time a step contributes: its `time`, or 0 without one. */
  function StepTime(step: map<string, Value>): Value
  {
    if "time" in step then step["time"] else Num(0.0)
  }

  /** One more step adds its time at the end of the list of times. */
  lemma StepTimesAppend(steps: seq<Value>, step: map<string, Value>)
    requires StepTimes(steps).Ok?
    ensures StepTimes(steps + [Mapping(step)]) == Ok(StepTimes(steps).value + [StepTime(step)])
  {
    var after := StepTimes(steps + [Mapping(step)]);
    assert forall k :: 0 <= k < |steps| ==> (steps + [Mapping(step)])[k] == steps[k];
    assert after.Ok?;
    assert after.value == StepTimes(steps).value + [StepTime(step)];
  }

  /** Adding a step to a recipe adds its time. */
  lemma PreparationTimeAddStep(steps: seq<Value>, step: map<string, Value>)
    requires PreparationTime(Mapping(map["steps" := List(steps)])).Ok? && StepTime(step).Num?
    ensures PreparationTime(Mapping(map["steps" := List(steps + [Mapping(step)])]))
              == Ok(PreparationTime(Mapping(map["steps" := List(steps)])).value + StepTime(step).n)
  {
    var t := StepTime(step);
    var before := StepTimes(steps).value;
    assert PreparationTime(Mapping(map["steps" := List(steps)])) == Sum(before) by {
      PreparationTimeOfSteps(steps);
    }
    assert PreparationTime(Mapping(map["steps" := List(steps + [Mapping(step)])])) == Ok(Sum(before).value + t.n) by {
      StepTimesAppend(steps, step);
      PreparationTimeOfSteps(steps + [Mapping(step)]);
      SumSnoc(before, t);
    }
  }

  /** A step without a `time` adds nothing. */
  lemma PreparationTimeUntimedStep(steps: seq<Value>, step: map<string, Value>)
    requires PreparationTime(Mapping(map["steps" := List(steps)])).Ok? && "time" !in step
    ensures PreparationTime(Mapping(map["steps" := List(steps + [Mapping(step)])]))
              == PreparationTime(Mapping(map["steps" := List(steps)]))
  {
    PreparationTimeAddStep(steps, step);
  }

  /** An id that does not start with `/` gives a relative file name. */
  lemma RelativeFileName(did: string)
    requires !StartsWith(did, "/")
    ensures !StartsWith(did + ".yml", "/")
  {
    if |did| > 0 {
      assert did[..1] == [did[0]];
      assert (did + ".yml")[..1] == did[..1];
    } else {
      assert (did + ".yml")[..1] == ".";
    }
  }

  // ---------------------------------------------------------------------
  // Document and DB
  // ---------------------------------------------------------------------

  /** One YAML document of the store. `cache` is the parsed data, `Null`
      when nothing is cached; `dirty` is the flag `save` consults. */
  class Document {
    const db: DB
    const id: string
    var cache: Value
    var dirty: bool

    /** `Document.get(db, id)` (and the plain constructor): nothing is
        loaded and nothing is cached. */
    constructor Get(db: DB, id: string)
      ensures this.db == db && this.id == id && cache == Null && !dirty
    {
      this.db := db;
      this.id := id;
      cache := Null;
      dirty := false;
    }

    /** `Document.new(db, id)`: the cache holds an empty mapping and the
        file is not touched. */
    constructor New(db: DB, id: string)
      ensures this.db == db && this.id == id && cache == Mapping(map[]) && !dirty
    {
      this.db := db;
      this.id := id;
      cache := Mapping(map[]);
      dirty := false;
    }

    /** The file this document lives in. */
    function Path(): string
    {
      db.DocumentPath(id)
    }

    /** What a read of `data` would yield now. */
    function Loaded(): Result<Value>
      reads this, db.fs
    {
      LoadData(cache, db.fs.tree, Path(), db.codec)
    }

    /** Reading `raw`: the text of the document file. */
    method GetRaw() returns (r: Result<string>)
      ensures r == db.fs.tree.Read(Path())
      ensures r.Ok? ==> Path() in db.fs.tree.files && r.value == db.fs.tree.files[Path()]
    {
      r := db.fs.tree.Read(Path());
    }

    /** Writing `raw`: the document file holds exactly `text`, every other
        file is as it was, and the cache is emptied so that the next read
        of `data` parses the new text. */
    method SetRaw(text: string)
      modifies db.fs, this
      ensures db.fs.tree == old(db.fs.tree).Write(Path(), text)
      ensures db.fs.tree.Read(Path()) == Ok(text)
      ensures cache == Null && dirty == old(dirty)
      ensures Loaded() == db.codec.parse(text)
    {
      db.fs.tree := db.fs.tree.Write(Path(), text);
      SetData(Null);
    }

    /** Reading `data`: the file is parsed only when nothing is cached, and
        a parsed value other than `None` is kept in the cache. */
    method GetData() returns (r: Result<Value>)
      modifies this
      ensures r == old(Loaded())
      ensures cache == (if r.Ok? then r.value else old(cache))
      ensures dirty == old(dirty)
      ensures r.Ok? ==> Loaded() == r
    {
      if cache == Null {
        var text := db.fs.tree.Read(Path());
        if text.Err? {
          return Err(text.error);
        }
        r := db.codec.parse(text.value);
        if r.Err? {
          return;
        }
        cache := r.value;
      }
      r := Ok(cache);
    }

    /** Assigning `data`. */
    method SetData(value: Value)
      modifies this
      ensures cache == value && dirty == old(dirty)
    {
      cache := value;
    }

    /** `doc[key]`. */
    method GetItem(key: string) returns (r: Result<Value>)
      modifies this
      ensures old(Loaded()).Err? ==> r == Err(old(Loaded()).error)
      ensures old(Loaded()).Ok? ==> r == Lookup(old(Loaded()).value, key)
      ensures cache == (if old(Loaded()).Ok? then old(Loaded()).value else old(cache))
      ensures dirty == old(dirty)
    {
      var data :- GetData();
      r := Lookup(data, key);
    }

    /** `doc[key] = value`: the cached data is changed in place; `dirty` is
        not set, so a later `save` without force writes nothing. */
    method SetItem(key: string, value: Value) returns (r: Result<()>)
      modifies this
      ensures old(Loaded()).Err? ==> r == Err(old(Loaded()).error) && cache == old(cache)
      ensures old(Loaded()).Ok? && Store(old(Loaded()).value, key, value).Ok? ==>
                r == Ok(()) && cache == Store(old(Loaded()).value, key, value).value
      ensures old(Loaded()).Ok? && Store(old(Loaded()).value, key, value).Err? ==>
                r == Err(TypeError) && cache == old(Loaded()).value
      ensures dirty == old(dirty)
    {
      var data :- GetData();
      var updated := Store(data, key, value);
      if updated.Err? {
        return Err(updated.error);
      }
      cache := updated.value;
      r := Ok(());
    }

    /** An explicit `doc.__hasitem__(key)` call. Python's `in` operator does
        not look this method up (it uses `__contains__`), and nothing in the
        program calls it. */
    method HasItem(key: string) returns (r: Result<bool>)
      modifies this
      ensures old(Loaded()).Err? ==> r == Err(old(Loaded()).error)
      ensures old(Loaded()).Ok? ==> r == ContainsText(old(Loaded()).value, key)
      ensures cache == (if old(Loaded()).Ok? then old(Loaded()).value else old(cache))
      ensures dirty == old(dirty)
    {
      var data :- GetData();
      r := ContainsText(data, key);
    }

    /** `doc[key].append(item)`: the list object inside the cached data
        grows in place. */
    method AppendToItem(key: string, item: Value) returns (r: Result<()>)
      modifies this
      ensures old(Loaded()).Err? ==> r == Err(old(Loaded()).error) && cache == old(cache)
      ensures old(Loaded()).Ok? && Appended(old(Loaded()).value, key, item).Ok? ==>
                r == Ok(()) && cache == Appended(old(Loaded()).value, key, item).value
      ensures old(Loaded()).Ok? && Appended(old(Loaded()).value, key, item).Err? ==>
                r == Err(Appended(old(Loaded()).value, key, item).error) && cache == old(Loaded()).value
      ensures dirty == old(dirty)
    {
      var data :- GetData();
      var updated := Appended(data, key, item);
      if updated.Err? {
        return Err(updated.error);
      }
      cache := updated.value;
      r := Ok(());
    }

    /** `save(force)`: nothing happens unless the document is dirty or
        `force` is exactly `True`; then the cache must hold data, which is
        serialised over the document file, and `dirty` is cleared. */
    method Save(force: Flag) returns (r: Result<()>)
      modifies db.fs, this
      ensures !old(dirty) && !force.IsTrue() ==>
                r == Ok(()) && db.fs.tree == old(db.fs.tree) && cache == old(cache) && dirty == old(dirty)
      ensures (old(dirty) || force.IsTrue()) && old(cache) == Null ==>
                r == Err(AssertionFailed) && db.fs.tree == old(db.fs.tree) && cache == old(cache) && dirty == old(dirty)
      ensures (old(dirty) || force.IsTrue()) && old(cache) != Null ==>
                r == Ok(()) && cache == old(cache) && !dirty &&
                db.fs.tree == old(db.fs.tree).Write(ExpandUser(Path(), db.home), db.codec.serialize(old(cache)))
    {
      if !dirty && !force.IsTrue() {
        return Ok(());
      }
      if cache == Null {
        return Err(AssertionFailed);
      }
      assert Path() != "";
      db.fs.tree := DumpYaml(cache, Path(), db.fs.tree, db.home, db.codec).value;
      dirty := false;
      r := Ok(());
    }
  }

  /** The database: a directory `root` of document files on `fs`, with the
      catalog document created on first use and then kept. */
  class DB {
    const fs: FileSystem
    const root: string
    const home: string
    const codec: Codec
    var index: Document?

    constructor (fs: FileSystem, root: string, home: string, codec: Codec)
      ensures this.fs == fs && this.root == root && this.home == home && this.codec == codec
      ensures index == null
    {
      this.fs := fs;
      this.root := root;
      this.home := home;
      this.codec := codec;
      index := null;
    }

    /** `document_path(did)`: `<root>/<did>.yml`. */
    function DocumentPath(did: string): string
    {
      PathJoin(root, did + ".yml")
    }

    /** A database opened through `normalize_path`: its root is non-empty
        and already expanded, under a home directory that does not start
        with `~`. */
    predicate Valid()
    {
      root != "" && SaneHome(home) && ExpandUser(root, home) == root
    }

    /** Every document path ends in `.yml` and the catalog lives at
        `<root>/index.yml`. */
    lemma DocumentPathShape(did: string)
      ensures EndsWith(DocumentPath(did), ".yml")
      ensures DocumentPath(IndexId) == PathJoin(root, "index.yml")
    {
      assert IndexId + ".yml" == "index.yml";
      EndsWithConcat(did, ".yml", ".yml");
      PathJoinEndsWith(root, did + ".yml", ".yml");
    }

    /** Distinct relative ids give distinct document paths. */
    lemma DocumentPathInjective(a: string, b: string)
      requires !StartsWith(a, "/") && !StartsWith(b, "/")
      ensures DocumentPath(a) == DocumentPath(b) <==> a == b
    {
      RelativeFileName(a);
      RelativeFileName(b);
      PathJoinInjective(root, a + ".yml", b + ".yml");
      assert a + ".yml" == b + ".yml" ==> a == (a + ".yml")[..|a|] == (b + ".yml")[..|b|] == b;
    }

    /** In a valid database `save` writes exactly where `raw` reads: the
        expansion `dump_yaml` applies changes nothing. */
    lemma SavePathIsDocumentPath(did: string)
      requires Valid() && !StartsWith(did, "/")
      ensures ExpandUser(DocumentPath(did), home) == DocumentPath(did)
    {
      RelativeFileName(did);
      ExpandUserJoin(root, home, did + ".yml");
    }

    /** The `index` property: the catalog document is created on first use
        and the same object is handed out afterwards. */
    method Index() returns (d: Document)
      modifies this
      ensures old(index) != null ==> d == old(index)
      ensures old(index) == null ==> fresh(d) && d.db == this && d.id == IndexId && d.cache == Null && !d.dirty
      ensures index == d
    {
      if index == null {
        index := new Document.Get(this, IndexId);
      }
      d := index;
    }

    /** `DB(path)`: the path is normalised (it must exist) and becomes the
        root; no catalog is loaded yet. */
    static method Open(fs: FileSystem, path: string, home: string, codec: Codec) returns (r: Result<DB>)
      ensures NormalizePath(path, OtherValue, fs.tree, home).Err? ==>
                r == Err(NormalizePath(path, OtherValue, fs.tree, home).error)
      ensures NormalizePath(path, OtherValue, fs.tree, home).Ok? ==>
                r.Ok? && fresh(r.value) && r.value.fs == fs && r.value.root == ExpandUser(path, home) &&
                r.value.home == home && r.value.codec == codec && r.value.index == null
      ensures r.Ok? && SaneHome(home) ==> r.value.Valid()
    {
      var root :- NormalizePath(path, OtherValue, fs.tree, home);
      if SaneHome(home) {
        ExpandUserIdempotent(path, home);
      }
      var db := new DB(fs, root, home, codec);
      r := Ok(db);
    }

    /** `DB.initialize(path)`: the directory is created when it is missing,
        the database is opened on it, and the catalog with empty recipe and
        menu lists is saved with force. */
    static method Initialize(fs: FileSystem, path: string, home: string, codec: Codec) returns (r: Result<DB>)
      modifies fs
      ensures var made := if old(fs.tree).Exists(path) then old(fs.tree) else old(fs.tree).MakeDir(path);
              if !old(fs.tree).Exists(path) && path == "" then
                r == Err(FileMissing(path)) && fs.tree == old(fs.tree)
              else if NormalizePath(path, OtherValue, made, home).Err? then
                r == Err(NormalizePath(path, OtherValue, made, home).error) && fs.tree == made
              else
                var root := ExpandUser(path, home);
                r.Ok? && fresh(r.value) && r.value.fs == fs && r.value.root == root && r.value.index == null &&
                r.value.home == home && r.value.codec == codec && (SaneHome(home) ==> r.value.Valid()) &&
                fs.tree == made.Write(ExpandUser(PathJoin(root, "index.yml"), home), codec.serialize(EmptyCatalog))
    {
      if !fs.tree.Exists(path) {
        if path == "" {
          return Err(FileMissing(path));
        }
        fs.tree := fs.tree.MakeDir(path);
      }
      var db :- Open(fs, path, home, codec);
      var index := new Document.Get(db, IndexId);
      index.SetData(EmptyCatalog);
      assert index.Path() == PathJoin(db.root, "index.yml") by {
        assert IndexId + ".yml" == "index.yml";
      }
      var saved := index.Save(ExactlyTrue);
      r := Ok(db);
    }
  }

  /** Writing `raw` and then reading `data` gives the new text parsed. */
  method WriteThenRead(doc: Document, text: string) returns (r: Result<Value>)
    modifies doc.db.fs, doc
    ensures r == doc.db.codec.parse(text)
  {
    doc.SetRaw(text);
    r := doc.GetData();
  }

  /** Once `data` has been read, a second read returns the cached value,
      even when the file was rewritten in between through another
      document object; only a file that parsed to `None` is read again. */
  method CachedReadIgnoresFile(doc: Document, other: Document, text: string) returns (first: Result<Value>, second: Result<Value>)
    requires doc != other
    modifies doc, other, doc.db.fs, other.db.fs
    ensures first.Ok? && first.value != Null ==> second == first
  {
    first := doc.GetData();
    other.SetRaw(text);
    second := doc.GetData();
  }

  /** Changing an item and saving without force writes nothing: item
      assignment never marks the document dirty. */
  method EditWithoutForceIsNotSaved(doc: Document, key: string, value: Value) returns (r: Result<()>)
    requires !doc.dirty
    modifies doc, doc.db.fs
    ensures doc.db.fs.tree == old(doc.db.fs.tree)
  {
    r := doc.SetItem(key, value);
    if r.Ok? {
      r := doc.Save(OtherValue);
    }
  }

  /** After `initialize`, the catalog read back through a codec that
      round-trips it is the empty catalog. */
  method InitializeThenLoadCatalog(fs: FileSystem, path: string, home: string, codec: Codec)
    returns (r: Result<Value>)
    requires SaneHome(home)
    requires codec.parse(codec.serialize(EmptyCatalog)) == Ok(EmptyCatalog)
    modifies fs
    ensures var made := if old(fs.tree).Exists(path) then old(fs.tree) else old(fs.tree).MakeDir(path);
            path != "" && NormalizePath(path, OtherValue, made, home).Ok? ==> r == Ok(EmptyCatalog)
  {
    var db := DB.Initialize(fs, path, home, codec);
    if db.Err? {
      return Err(db.error);
    }
    db.value.SavePathIsDocumentPath(IndexId);
    db.value.DocumentPathShape(IndexId);
    var index := db.value.Index();
    r := index.Loaded();
    assert r == Ok(EmptyCatalog);
    r := index.GetData();
  }
}
