/** The `recipes` and `menus` commands: the ids in the catalog's list are
    walked in order, each document is fetched, the optional `--tag` filter
    decides whether it is listed, and a table row is built for every listed
    document while a counter goes up. Table layout and colours are
    presentation and are not part of this model; a row keeps the values its
    columns are made from. */
module Listing {
  import opened Common
  import opened Yaml
  import opened Files
  import opened Feedem
  import opened Db
  import opened Commands

  // ---------------------------------------------------------------------
  // recipe_list_view / menu_list_view
  // ---------------------------------------------------------------------

  /** `any(fn(doc) for fn in filters)`: the filters are tried in order, the
      first that accepts settles it, and one that raises ends the walk. */
  function AnyAccepts<D>(doc: D, filters: seq<D -> Result<bool>>): Result<bool>
  {
    if filters == [] then Ok(false)
    else
      var accepted :- filters[0](doc);
      if accepted then Ok(true) else AnyAccepts(doc, filters[1..])
  }

  /** The test the list views apply: with no filters every document is
      listed, otherwise one accepting filter is enough. */
  function Accepts<D>(doc: D, filters: seq<D -> Result<bool>>): Result<bool>
  {
    if filters == [] then Ok(true) else AnyAccepts(doc, filters)
  }

  /** The pairs the list-view generator yields: every id with its document,
      in order, skipping the documents the filters turn down. */
  function ListView<D>(ids: seq<string>, get: string -> D, filters: seq<D -> Result<bool>>): (r: Result<seq<(string, D)>>)
    ensures r.Ok? ==> |r.value| <= |ids|
  {
    if ids == [] then Ok([])
    else
      var doc := get(ids[0]);
      var keep :- Accepts(doc, filters);
      var rest :- ListView(ids[1..], get, filters);
      if keep then Ok([(ids[0], doc)] + rest) else Ok(rest)
  }

  /** The filters accept a document exactly when one of them does and none
      before it raised; they turn it down exactly when all of them return
      false. */
  lemma {:induction false} AnyAcceptsMeaning<D>(doc: D, filters: seq<D -> Result<bool>>)
    ensures AnyAccepts(doc, filters) == Ok(true) <==>
              exists k :: 0 <= k < |filters| && filters[k](doc) == Ok(true) &&
                          forall j :: 0 <= j < k ==> filters[j](doc) == Ok(false)
    ensures AnyAccepts(doc, filters) == Ok(false) <==>
              forall k :: 0 <= k < |filters| ==> filters[k](doc) == Ok(false)
  {
    if filters != [] {
      var tail := filters[1..];
      AnyAcceptsMeaning(doc, tail);
      assert forall k :: 0 <= k < |tail| ==> tail[k] == filters[k + 1];
      if filters[0](doc) == Ok(false) && AnyAccepts(doc, filters) == Ok(true) {
        var k :| 0 <= k < |tail| && tail[k](doc) == Ok(true) &&
                 forall j :: 0 <= j < k ==> tail[j](doc) == Ok(false);
        assert filters[k + 1](doc) == Ok(true);
        assert forall j :: 0 <= j < k + 1 ==> filters[j](doc) == Ok(false) by {
          forall j | 0 <= j < k + 1 ensures filters[j](doc) == Ok(false) {
            if j > 0 { assert filters[j] == tail[j - 1]; }
          }
        }
      }
      if exists k :: 0 <= k < |filters| && filters[k](doc) == Ok(true) &&
                     forall j :: 0 <= j < k ==> filters[j](doc) == Ok(false) {
        var k :| 0 <= k < |filters| && filters[k](doc) == Ok(true) &&
                 forall j :: 0 <= j < k ==> filters[j](doc) == Ok(false);
        if k > 0 {
          assert tail[k - 1](doc) == Ok(true);
          assert forall j :: 0 <= j < k - 1 ==> tail[j](doc) == Ok(false);
        }
      }
    }
  }

  /** With no filters every id is listed, in order, with its document. */
  lemma {:induction false} ListViewNoFilters<D>(ids: seq<string>, get: string -> D)
    ensures ListView(ids, get, []).Ok?
    ensures |ListView(ids, get, []).value| == |ids|
    ensures forall k :: 0 <= k < |ids| ==> ListView(ids, get, []).value[k] == (ids[k], get(ids[k]))
  {
    if ids != [] {
      ListViewNoFilters(ids[1..], get);
    }
  }

  /** The first components of a sequence of pairs. */
  function Firsts<D>(pairs: seq<(string, D)>): (r: seq<string>)
    ensures |r| == |pairs| && forall k :: 0 <= k < |pairs| ==> r[k] == pairs[k].0
  {
    seq(|pairs|, k requires 0 <= k < |pairs| => pairs[k].0)
  }

  /** `a` is `b` with some elements left out and the rest in order. */
  predicate IsSubsequence(a: seq<string>, b: seq<string>)
    decreases |b|
  {
    if a == [] then true
    else if b == [] then false
    else if a[0] == b[0] then IsSubsequence(a[1..], b[1..])
    else IsSubsequence(a, b[1..])
  }

  /** What the list view yields: a subsequence of the ids, each paired with
      its own document; an id is listed exactly when the filters accept its
      document. */
  lemma {:induction false} ListViewFilters<D>(ids: seq<string>, get: string -> D, filters: seq<D -> Result<bool>>)
    requires ListView(ids, get, filters).Ok?
    ensures IsSubsequence(Firsts(ListView(ids, get, filters).value), ids)
    ensures forall p :: p in ListView(ids, get, filters).value ==>
              p.0 in ids && p.1 == get(p.0) && Accepts(get(p.0), filters) == Ok(true)
    ensures forall k :: 0 <= k < |ids| ==>
              (Accepts(get(ids[k]), filters) == Ok(true) <==> (ids[k], get(ids[k])) in ListView(ids, get, filters).value)
  {
    if ids != [] {
      var doc := get(ids[0]);
      var rest := ListView(ids[1..], get, filters);
      assert rest.Ok?;
      ListViewFilters(ids[1..], get, filters);
      var r := ListView(ids, get, filters).value;
      assert forall k :: 1 <= k < |ids| ==> ids[k] == ids[1..][k - 1];
      if Accepts(doc, filters) == Ok(true) {
        assert r == [(ids[0], doc)] + rest.value;
        assert Firsts(r) == [ids[0]] + Firsts(rest.value);
        assert Firsts(r)[1..] == Firsts(rest.value);
      } else {
        assert r == rest.value;
        SubsequenceDropHead(Firsts(r), ids);
        forall k | 0 <= k < |ids| && (ids[k], get(ids[k])) in r
          ensures Accepts(get(ids[k]), filters) == Ok(true)
        {
        }
      }
    }
  }

  /** Leaving out the head of the longer sequence keeps a subsequence. */
  lemma {:induction false} SubsequenceDropHead(a: seq<string>, b: seq<string>)
    requires b != [] && IsSubsequence(a, b[1..])
    ensures IsSubsequence(a, b)
    decreases |b|, 0
  {
    if a != [] && a[0] == b[0] {
      SubsequenceWeaken(a, b[1..]);
    }
  }

  /** A subsequence stays one after its head is dropped. */
  lemma {:induction false} SubsequenceWeaken(a: seq<string>, b: seq<string>)
    requires a != [] && IsSubsequence(a, b)
    ensures IsSubsequence(a[1..], b)
    decreases |b|, 1
  {
    if a[0] != b[0] {
      SubsequenceWeaken(a, b[1..]);
    }
    SubsequenceDropHead(a[1..], b);
  }

  // ---------------------------------------------------------------------
  // The listing loop of cmd_recipes / cmd_menus
  // ---------------------------------------------------------------------

  /** The rows the command loop produces: documents are fetched, filtered
      and turned into rows one id at a time, so the first failure in that
      order, whether of a filter or of a row, is the outcome. */
  function Listed<D, R>(ids: seq<string>, get: string -> D, filters: seq<D -> Result<bool>>,
                        row: (string, D) -> Result<R>): (r: Result<seq<R>>)
  {
    if ids == [] then Ok([])
    else
      var doc := get(ids[0]);
      var keep :- Accepts(doc, filters);
      if keep then
        var first :- row(ids[0], doc);
        var rest :- Listed(ids[1..], get, filters, row);
        Ok([first] + rest)
      else Listed(ids[1..], get, filters, row)
  }

  /** A listing that succeeds is the list view with a row built from every
      pair it yields, one row per pair and in the same order. */
  lemma {:induction false} ListedIsRowsOfView<D, R>(ids: seq<string>, get: string -> D, filters: seq<D -> Result<bool>>,
                                                    row: (string, D) -> Result<R>)
    requires Listed(ids, get, filters, row).Ok?
    ensures ListView(ids, get, filters).Ok?
    ensures |Listed(ids, get, filters, row).value| == |ListView(ids, get, filters).value|
    ensures forall k :: 0 <= k < |ListView(ids, get, filters).value| ==>
              var p := ListView(ids, get, filters).value[k];
              row(p.0, p.1) == Ok(Listed(ids, get, filters, row).value[k])
  {
    if ids != [] {
      ListedIsRowsOfView(ids[1..], get, filters, row);
      var doc := get(ids[0]);
      if Accepts(doc, filters) == Ok(true) {
        var rows := Listed(ids, get, filters, row).value;
        var view := ListView(ids, get, filters).value;
        var restRows := Listed(ids[1..], get, filters, row).value;
        var restView := ListView(ids[1..], get, filters).value;
        assert rows == [rows[0]] + restRows;
        assert view == [(ids[0], doc)] + restView;
        forall k | 0 <= k < |view|
          ensures row(view[k].0, view[k].1) == Ok(rows[k])
        {
          if k > 0 {
            assert view[k] == restView[k - 1] && rows[k] == restRows[k - 1];
          }
        }
      }
    }
  }

  /** `done` followed by the outcome `r`. */
  function PrependRows<R>(done: seq<R>, r: Result<seq<R>>): Result<seq<R>>
  {
    match r
    case Ok(rest) => Ok(done + rest)
    case Err(e) => Err(e)
  }

  /** The `for ... in list_view(...)` loop: each listed document adds one to
      the count and one row to the table. */
  method Tabulate<D, R>(ids: seq<string>, get: string -> D, filters: seq<D -> Result<bool>>,
                        row: (string, D) -> Result<R>) returns (r: Result<seq<R>>, count: nat)
    ensures r == Listed(ids, get, filters, row)
    ensures r.Ok? ==> count == |r.value|
  {
    var table: seq<R> := [];
    count := 0;
    var i := 0;
    assert ids[0..] == ids;
    match Listed(ids, get, filters, row) {
      case Ok(all) => assert [] + all == all;
      case Err(_) =>
    }
    while i < |ids|
      invariant 0 <= i <= |ids|
      invariant Listed(ids, get, filters, row) == PrependRows(table, Listed(ids[i..], get, filters, row))
      invariant count == |table|
    {
      assert ids[i..][0] == ids[i] && ids[i..][1..] == ids[i + 1..];
      var doc := get(ids[i]);
      var keep := Accepts(doc, filters);
      if keep.Err? {
        return Err(keep.error), count;
      }
      if keep.value {
        var built := row(ids[i], doc);
        if built.Err? {
          return Err(built.error), count;
        }
        var rest := Listed(ids[i + 1..], get, filters, row);
        if rest.Ok? {
          assert table + ([built.value] + rest.value) == (table + [built.value]) + rest.value;
        }
        count := count + 1;
        table := table + [built.value];
      }
      i := i + 1;
    }
    assert ids[i..] == [] && table + [] == table;
    r := Ok(table);
  }

  // ---------------------------------------------------------------------
  // The two commands
  // ---------------------------------------------------------------------

  /** The ids in a catalog list. Every id must be a string here. */
  function CatalogIds(list: Value): (r: Result<seq<string>>)
    ensures r.Ok? ==> list.List? && |r.value| == |list.items| &&
                      forall k :: 0 <= k < |list.items| ==> list.items[k] == Str(r.value[k])
    ensures list.List? && (forall k :: 0 <= k < |list.items| ==> list.items[k].Str?) ==> r.Ok?
  {
    match list
    case List(items) =>
      if forall k :: 0 <= k < |items| ==> items[k].Str? then
        Ok(seq(|items|, k requires 0 <= k < |items| => items[k].s))
      else Err(TypeError)
    case _ => Err(TypeError)
  }

  /** `Recipe.get(db, id)` / `Menu.get(db, id)` followed by the first read of
      its data: nothing is cached, so the document file is loaded. The
      data read later for the same document is the same, as nothing writes
      in between. */
  function Loader(tree: Tree, root: string, codec: Codec): string -> Result<Value>
  {
    id => LoadData(Null, tree, PathJoin(root, id + ".yml"), codec)
  }

  /** `tag in doc['tags']`. */
  function HasTag(doc: Result<Value>, tag: string): Result<bool>
  {
    var data :- doc;
    var tags :- Lookup(data, "tags");
    ContainsText(tags, tag)
  }

  /** The filters `--tag` installs: none, or the one tag test. */
  function TagFilters(tag: Option<string>): (r: seq<Result<Value> -> Result<bool>>)
  {
    match tag
    case None => []
    case Some(t) => [doc => HasTag(doc, t)]
  }

  /** The tags column is made by iterating the tags: a number or `None`
      cannot be iterated. */
  function TagsColumn(tags: Value): (r: Result<Value>)
  {
    if tags.Num? || tags.Null? then Err(TypeError) else Ok(tags)
  }

  /** One row of the recipes table. */
  datatype RecipeRow = RecipeRow(title: Value, portions: Value, minutes: real, tags: Value, id: string)

  /** One row of the menus table. */
  datatype MenuRow = MenuRow(title: Value, tags: Value, id: string)

  /** The recipes row, its cells computed left to right: title, portions,
      the summed step times, the tags. */
  function RecipeRowOf(id: string, doc: Result<Value>): Result<RecipeRow>
  {
    var data :- doc;
    var title :- Lookup(data, "title");
    var portions :- Lookup(data, "portions");
    var minutes :- PreparationTime(data);
    var tags :- Lookup(data, "tags");
    var column :- TagsColumn(tags);
    Ok(RecipeRow(title, portions, minutes, column, id))
  }

  /** The menus row: title and tags. */
  function MenuRowOf(id: string, doc: Result<Value>): Result<MenuRow>
  {
    var data :- doc;
    var title :- Lookup(data, "title");
    var tags :- Lookup(data, "tags");
    var column :- TagsColumn(tags);
    Ok(MenuRow(title, column, id))
  }

  /** A menus row exists exactly when the document has a title and
      iterable tags, and then it holds them with the id; a recipes row also
      needs iterable tags, and holds them unchanged. */
  lemma RowsNeedIterableTags(id: string, data: Value)
    requires data.Mapping? && "title" in data.entries && "tags" in data.entries
    ensures var tags := data.entries["tags"];
            MenuRowOf(id, Ok(data)) ==
              if tags.Num? || tags.Null? then Err(TypeError) else Ok(MenuRow(data.entries["title"], tags, id))
    ensures var tags := data.entries["tags"];
            RecipeRowOf(id, Ok(data)).Ok? ==>
              !tags.Num? && !tags.Null? && RecipeRowOf(id, Ok(data)).value.tags == tags &&
              RecipeRowOf(id, Ok(data)).value.title == data.entries["title"] && RecipeRowOf(id, Ok(data)).value.id == id
  {
  }

  /** What a listing command computes from the database at `root`: the
      catalog is loaded, the ids come from its `collection` list, and the
      documents are listed through the tag filter. */
  function CatalogListing<R>(tree: Tree, root: string, codec: Codec, collection: string,
                             tag: Option<string>, row: (string, Result<Value>) -> Result<R>): Result<seq<R>>
  {
    var catalog :- LoadData(Null, tree, PathJoin(root, "index.yml"), codec);
    var list :- Lookup(catalog, collection);
    var ids :- CatalogIds(list);
    Listed(ids, Loader(tree, root, codec), TagFilters(tag), row)
  }

  /** With `--tag`, a listed document is exactly one whose tags hold the
      tag; without it, every document is listed. */
  lemma TagListingExact(ids: seq<string>, get: string -> Result<Value>, tag: Option<string>)
    requires ListView(ids, get, TagFilters(tag)).Ok?
    ensures forall k :: 0 <= k < |ids| ==>
              ((ids[k], get(ids[k])) in ListView(ids, get, TagFilters(tag)).value <==>
               tag.None? || HasTag(get(ids[k]), tag.value) == Ok(true))
  {
    ListViewFilters(ids, get, TagFilters(tag));
    var filters := TagFilters(tag);
    forall k | 0 <= k < |ids|
      ensures Accepts(get(ids[k]), filters) == Ok(true) <==> tag.None? || HasTag(get(ids[k]), tag.value) == Ok(true)
    {
      if tag.Some? {
        AnyAcceptsMeaning(get(ids[k]), filters);
      }
    }
  }

  /** The shared body of `cmd_recipes` and `cmd_menus`: open the database,
      take the catalog's list for `collection`, and tabulate. */
  method ListCollection<R>(ctx: GlobalContext, collection: string, tag: Option<string>,
                           row: (string, Result<Value>) -> Result<R>) returns (r: Result<seq<R>>, count: nat)
    modifies ctx
    ensures var root := OpenedRoot(ctx.fs.tree, ctx.databasePath, ctx.home);
            (root.Err? ==> r == Err(root.error)) &&
            (root.Ok? ==> r == CatalogListing(ctx.fs.tree, root.value, ctx.codec, collection, tag, row))
    ensures r.Ok? ==> count == |r.value|
  {
    count := 0;
    var database :- ctx.OpenDatabase();
    var index := database.Index();
    database.DocumentPathShape(IndexId);
    var list := index.GetItem(collection);
    if list.Err? {
      return Err(list.error), count;
    }
    var ids := CatalogIds(list.value);
    if ids.Err? {
      return Err(ids.error), count;
    }
    r, count := Tabulate(ids.value, Loader(ctx.fs.tree, database.root, ctx.codec), TagFilters(tag), row);
  }

  /** `cmd_recipes`: the rows and the reported count. */
  method CmdRecipes(ctx: GlobalContext, tag: Option<string>) returns (r: Result<seq<RecipeRow>>, count: nat)
    modifies ctx
    ensures var root := OpenedRoot(ctx.fs.tree, ctx.databasePath, ctx.home);
            (root.Err? ==> r == Err(root.error)) &&
            (root.Ok? ==> r == CatalogListing(ctx.fs.tree, root.value, ctx.codec, "recipes", tag, RecipeRowOf))
    ensures r.Ok? ==> count == |r.value|
  {
    r, count := ListCollection(ctx, "recipes", tag, RecipeRowOf);
  }

  /** `cmd_menus`: the rows and the reported count. */
  method CmdMenus(ctx: GlobalContext, tag: Option<string>) returns (r: Result<seq<MenuRow>>, count: nat)
    modifies ctx
    ensures var root := OpenedRoot(ctx.fs.tree, ctx.databasePath, ctx.home);
            (root.Err? ==> r == Err(root.error)) &&
            (root.Ok? ==> r == CatalogListing(ctx.fs.tree, root.value, ctx.codec, "menus", tag, MenuRowOf))
    ensures r.Ok? ==> count == |r.value|
  {
    r, count := ListCollection(ctx, "menus", tag, MenuRowOf);
  }
}
