/** The command-line layer shared by all commands: the global context that
    opens the database, and the two editing flows, creating a new document
    (and listing it in the catalog) and editing an existing one. The text
    coming back from the interactive editor is an input here: `None` when
    the user dropped the changes. */
module Commands {
  import opened Common
  import opened Text
  import opened Yaml
  import opened Files
  import opened Feedem
  import opened Db

  /** The `--database-path` default. */
  const DefaultDatabasePath: string := "~/.feed-em"

  /** What `open_database` does with the path it holds: a missing path
      aborts the command, otherwise `DB(path)` normalises it again. */
  function OpenedRoot(tree: Tree, databasePath: string, home: string): (r: Result<string>)
    ensures !tree.Exists(databasePath) <==> r == Err(DatabaseMissing(databasePath))
    ensures r.Ok? ==> r.value == ExpandUser(databasePath, home) && tree.Exists(r.value)
  {
    if !tree.Exists(databasePath) then Err(DatabaseMissing(databasePath))
    else NormalizePath(databasePath, OtherValue, tree, home)
  }

  /** The path `cli` stores is normalised once more by `DB(path)`; that
      second normalisation changes nothing, so the database opens exactly
      when the expanded path exists. */
  lemma OpenAfterCli(tree: Tree, path: string, home: string)
    requires SaneHome(home) && path != ""
    ensures var stored := NormalizePath(path, ExactlyTrue, tree, home).value;
            OpenedRoot(tree, stored, home) ==
              (if tree.Exists(stored) then Ok(stored) else Err(DatabaseMissing(stored)))
  {
    ExpandUserIdempotent(path, home);
  }

  /** A uuid4 `hex` string: 32 lower-case hexadecimal digits. */
  predicate IsHexId(id: string)
  {
    |id| == 32 && forall k :: 0 <= k < |id| ==> id[k] in "0123456789abcdef"
  }

  /** The file system after `cmd_new_document` has written `text` under the
      new id, and its outcome. The document is written first; the catalog
      is then loaded from its file, the id is appended to the collection's
      list, and the catalog is saved with force. A failure after the first
      write leaves that write in place. */
  function NewDocumentEffect(tree: Tree, root: string, home: string, codec: Codec,
                             collection: string, text: string, id: string): (Tree, Result<()>)
  {
    var written := tree.Write(PathJoin(root, id + ".yml"), text);
    var indexPath := PathJoin(root, "index.yml");
    match LoadData(Null, written, indexPath, codec)
    case Err(e) => (written, Err(e))
    case Ok(catalog) =>
      match Appended(catalog, collection, Str(id))
      case Err(e) => (written, Err(e))
      case Ok(updated) => (written.Write(ExpandUser(indexPath, home), codec.serialize(updated)), Ok(()))
  }

  /** Whatever happens to the catalog, the new document's file holds
      exactly the edited text. */
  lemma NewDocumentWritesText(tree: Tree, root: string, home: string, codec: Codec,
                              collection: string, text: string, id: string)
    requires root != "" && SaneHome(home) && ExpandUser(root, home) == root && IsHexId(id)
    ensures NewDocumentEffect(tree, root, home, codec, collection, text, id).0.Read(PathJoin(root, id + ".yml"))
            == Ok(text)
  {
    HexIdIsRelative(id);
    RelativeFileName(id);
    assert !StartsWith("index.yml", "/") by { assert "index.yml"[..1] == "i"; }
    ExpandUserJoin(root, home, "index.yml");
    assert id + ".yml" != "index.yml" by {
      assert |id + ".yml"| == 36;
    }
    PathJoinInjective(root, id + ".yml", "index.yml");
  }

  /** On success the catalog file holds the serialised catalog in which the
      collection's list gained the id at its end and nothing else changed;
      with a codec that reads back what it writes, loading the catalog
      again gives exactly that. A catalog without the collection fails with
      a missing key and writes no catalog. */
  lemma NewDocumentCatalog(tree: Tree, root: string, home: string, codec: Codec,
                           collection: string, text: string, id: string)
    requires root != "" && SaneHome(home) && ExpandUser(root, home) == root && IsHexId(id)
    ensures var written := tree.Write(PathJoin(root, id + ".yml"), text);
            var indexPath := PathJoin(root, "index.yml");
            var (after, r) := NewDocumentEffect(tree, root, home, codec, collection, text, id);
            var catalog := LoadData(Null, written, indexPath, codec);
            (r.Ok? <==> catalog.Ok? && catalog.value.Mapping? && collection in catalog.value.entries &&
                        catalog.value.entries[collection].List?) &&
            (r.Ok? ==>
               var old_ := catalog.value.entries;
               var new_ := Mapping(old_[collection := List(old_[collection].items + [Str(id)])]);
               after.Read(indexPath) == Ok(codec.serialize(new_)) &&
               (codec.parse(codec.serialize(new_)) == Ok(new_) ==> LoadData(Null, after, indexPath, codec) == Ok(new_))) &&
            (r.Err? ==> after == written)
  {
    assert !StartsWith("index.yml", "/") by { assert "index.yml"[..1] == "i"; }
    ExpandUserJoin(root, home, "index.yml");
  }

  /** Hex digits never include `/`. */
  lemma HexIdIsRelative(id: string)
    requires IsHexId(id)
    ensures !StartsWith(id, "/")
  {
    assert id[0] in "0123456789abcdef";
    assert id[..1] == [id[0]];
  }

  /** The state every command shares: the file system, the normalised
      database path, the home directory used for `~`, the YAML codec, and
      the database once opened. */
  class GlobalContext {
    const fs: FileSystem
    const databasePath: string
    const home: string
    const codec: Codec
    var db: DB?

    constructor (fs: FileSystem, databasePath: string, home: string, codec: Codec)
      ensures this.fs == fs && this.databasePath == databasePath && this.home == home && this.codec == codec
      ensures db == null
    {
      this.fs := fs;
      this.databasePath := databasePath;
      this.home := home;
      this.codec := codec;
      db := null;
    }

    /** `cli`: the `--database-path` option type first refuses a value that
        names an existing regular file, as given and before any `~`
        expansion; the value is then normalised with a missing path
        allowed, so an empty one is refused. */
    static method Cli(fs: FileSystem, path: string, home: string, codec: Codec) returns (r: Result<GlobalContext>)
      ensures path in fs.tree.files <==> r == Err(BadParameter(path))
      ensures path !in fs.tree.files ==> (path == "" <==> r == Err(PathInvalid(path)))
      ensures r.Ok? ==> fresh(r.value) && r.value.fs == fs && r.value.home == home && r.value.codec == codec &&
                        r.value.databasePath == ExpandUser(path, home) && r.value.db == null
    {
      if path in fs.tree.files {
        return Err(BadParameter(path));
      }
      var stored :- NormalizePath(path, ExactlyTrue, fs.tree, home);
      var ctx := new GlobalContext(fs, stored, home, codec);
      r := Ok(ctx);
    }

    /** `open_database`: aborts when the database path does not exist,
        otherwise binds a new `DB` to it and remembers it. */
    method OpenDatabase() returns (r: Result<DB>)
      modifies this
      ensures OpenedRoot(fs.tree, databasePath, home).Err? ==>
                r == Err(OpenedRoot(fs.tree, databasePath, home).error) && db == old(db)
      ensures OpenedRoot(fs.tree, databasePath, home).Ok? ==>
                r.Ok? && fresh(r.value) && db == r.value &&
                r.value.fs == fs && r.value.root == OpenedRoot(fs.tree, databasePath, home).value &&
                r.value.home == home && r.value.codec == codec && r.value.index == null &&
                (SaneHome(home) ==> r.value.Valid())
    {
      if !fs.tree.Exists(databasePath) {
        return Err(DatabaseMissing(databasePath));
      }
      var database :- DB.Open(fs, databasePath, home, codec);
      db := database;
      r := Ok(database);
    }
  }

  /** `cmd_new_document`: a dropped edit writes nothing; otherwise the
      document is written under the new id and the id is appended to the
      catalog's list for `collection`, which is saved with force. */
  method NewDocument(ctx: GlobalContext, collection: string, edited: Option<string>, newId: string)
    returns (r: Result<()>)
    requires IsHexId(newId)
    modifies ctx, ctx.fs
    ensures var root := OpenedRoot(old(ctx.fs.tree), ctx.databasePath, ctx.home);
            if root.Err? then
              r == Err(root.error) && ctx.fs.tree == old(ctx.fs.tree)
            else if edited.None? then
              r == Ok(()) && ctx.fs.tree == old(ctx.fs.tree)
            else
              (ctx.fs.tree, r) ==
                NewDocumentEffect(old(ctx.fs.tree), root.value, ctx.home, ctx.codec, collection, edited.value, newId)
  {
    var db :- ctx.OpenDatabase();
    if edited.None? {
      return Ok(());
    }
    var document := new Document.New(db, newId);
    document.SetRaw(edited.value);
    db.DocumentPathShape(IndexId);
    var index := db.Index();
    var appended := index.AppendToItem(collection, Str(newId));
    if appended.Err? {
      return appended;
    }
    r := index.Save(ExactlyTrue);
  }

  /** `cmd_edit_document`: the database must open and the document's text
      must be readable (it is what the editor starts from); a dropped edit
      changes nothing, otherwise the document's raw text becomes exactly
      the edited text. */
  method EditDocument(ctx: GlobalContext, document: Document, edited: Option<string>) returns (r: Result<()>)
    modifies ctx, document, document.db.fs
    ensures var root := OpenedRoot(old(ctx.fs.tree), ctx.databasePath, ctx.home);
            var raw := old(document.db.fs.tree).Read(document.Path());
            if root.Err? then r == Err(root.error) && document.db.fs.tree == old(document.db.fs.tree)
            else if raw.Err? then r == Err(raw.error) && document.db.fs.tree == old(document.db.fs.tree)
            else if edited.None? then r == Ok(()) && document.db.fs.tree == old(document.db.fs.tree)
            else
              r == Ok(()) && document.db.fs.tree == old(document.db.fs.tree).Write(document.Path(), edited.value) &&
              document.cache == Null
  {
    var _ :- ctx.OpenDatabase();
    var _ :- document.GetRaw();
    if edited.None? {
      return Ok(());
    }
    document.SetRaw(edited.value);
    r := Ok(());
  }
}
