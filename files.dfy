/** The file system the store lives on, as a map from path to text plus the
    set of directories, and the two `os.path` helpers the core uses. */
module Files {
  import opened Common
  import opened Text

  datatype Tree = Tree(files: map<string, string>, dirs: set<string>)
  {
    /** `os.path.exists`. */
    predicate Exists(path: string) { path in files || path in dirs }

    /** Opening `path` for reading and reading it whole. */
    function Read(path: string): Result<string>
    {
      if path in files then Ok(files[path]) else Err(FileMissing(path))
    }

    /** Opening `path` for writing (truncating) and writing `text`. */
    function Write(path: string, text: string): (t: Tree)
      ensures t.Read(path) == Ok(text)
      ensures forall p :: p != path ==> t.Read(p) == Read(p)
    {
      this.(files := files[path := text])
    }

    /** `os.mkdir`. */
    function MakeDir(path: string): (t: Tree)
      ensures t.Exists(path) && t.files == files
      ensures forall p :: p != path ==> (t.Exists(p) <==> Exists(p))
    {
      this.(dirs := dirs + {path})
    }
  }

  /** The one file system every component of a run shares. */
  class FileSystem {
    var tree: Tree

    constructor (tree: Tree)
      ensures this.tree == tree
    {
      this.tree := tree;
    }
  }

  /** `os.path.join(a, b)` for POSIX paths: an absolute `b` replaces `a`;
      otherwise a separator is added unless `a` is empty or ends in one. */
  function PathJoin(a: string, b: string): (r: string)
    ensures |r| >= |b|
  {
    if StartsWith(b, "/") then b
    else if a == "" || EndsWith(a, "/") then a + b
    else a + "/" + b
  }

  /** A join ends the way the joined name ends. */
  lemma PathJoinEndsWith(a: string, b: string, suffix: string)
    requires EndsWith(b, suffix)
    ensures EndsWith(PathJoin(a, b), suffix)
  {
    if !StartsWith(b, "/") {
      var sep := if a == "" || EndsWith(a, "/") then "" else "/";
      assert PathJoin(a, b) == (a + sep) + b;
      EndsWithConcat(a + sep, b, suffix);
    }
  }

  /** A relative name can be read back from a join: joining distinct
      relative names onto the same directory gives distinct paths. */
  lemma PathJoinInjective(a: string, b1: string, b2: string)
    requires !StartsWith(b1, "/") && !StartsWith(b2, "/")
    ensures PathJoin(a, b1) == PathJoin(a, b2) <==> b1 == b2
  {
    var prefix := a + (if a == "" || EndsWith(a, "/") then "" else "/");
    assert PathJoin(a, b1) == prefix + b1;
    assert PathJoin(a, b2) == prefix + b2;
    if PathJoin(a, b1) == PathJoin(a, b2) {
      assert b1 == (prefix + b1)[|prefix|..];
      assert b2 == (prefix + b2)[|prefix|..];
    }
  }

  /** `home.rstrip('/')`. */
  function StripTrailingSlashes(home: string): (r: string)
    ensures |r| <= |home| && r == home[..|r|]
  {
    if |home| > 0 && home[|home| - 1] == '/' then StripTrailingSlashes(home[..|home| - 1]) else home
  }

  /** `os.path.expanduser` on POSIX: a leading `~` (alone or followed by `/`)
      becomes the home directory without its trailing slashes, and an empty
      result becomes "/". The `~user` form is not expanded here. */
  function ExpandUser(path: string, home: string): (r: string)
    ensures path != "" ==> r != ""
  {
    if !StartsWith(path, "~") then path
    else if |path| == 1 || path[1] == '/' then
      var expanded := StripTrailingSlashes(home) + path[1..];
      if expanded == "" then "/" else expanded
    else path
  }

  /** A home directory that does not itself start with `~`. */
  predicate SaneHome(home: string)
  {
    !StartsWith(home, "~")
  }

  /** Expanding an expanded path changes nothing. */
  lemma ExpandUserIdempotent(path: string, home: string)
    requires SaneHome(home)
    ensures ExpandUser(ExpandUser(path, home), home) == ExpandUser(path, home)
  {
    if StartsWith(path, "~") && (|path| == 1 || path[1] == '/') {
      var h := StripTrailingSlashes(home);
      var e := ExpandUser(path, home);
      if h != "" {
        assert e[0] == h[0] == home[0];
        assert home[..1] == [home[0]];
      } else {
        assert e == "/" || e[0] == '/' by {
          if path[1..] != "" { assert path[1..][0] == path[1]; }
        }
      }
      assert e[..1] == [e[0]];
      assert !StartsWith(e, "~");
    }
  }

  /** A relative name joined onto an already expanded, non-empty root is
      left alone by a further expansion. */
  lemma ExpandUserJoin(root: string, home: string, name: string)
    requires SaneHome(home) && root != "" && ExpandUser(root, home) == root
    requires !StartsWith(name, "/")
    ensures ExpandUser(PathJoin(root, name), home) == PathJoin(root, name)
  {
    var p := PathJoin(root, name);
    assert p[0] == root[0];
    if root[0] == '~' {
      assert StartsWith(root, "~");
      if |root| == 1 || root[1] == '/' {
        assert false;
      }
      assert |p| > 1 && p[1] == root[1];
    } else {
      assert !StartsWith(p, "~");
    }
  }
}
