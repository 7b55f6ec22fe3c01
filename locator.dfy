/**
 * The file locator (`getFiles` / `_getFiles`): a depth-first walk of a directory
 * tree that collects every regular file whose absolute path ends with
 * `.<metadata>-meta.xml`, as `{name, path}` records in listing order.
 */
module Locator {
  import opened Wrappers
  import opened Strings
  import opened Sequences

  /** A directory entry: a regular file with its text, or a directory with its listing. */
  datatype Entry = File(name: string, content: string) | Dir(name: string, children: seq<Entry>)

  /** The directory tree below a root path: the root's path and its listing, in listing order. */
  datatype FileSystem = FileSystem(root: string, entries: seq<Entry>)

  /** The `{name, path}` record the walk pushes. */
  datatype LocatedFile = LocatedFile(name: string, path: string)

  /** A regular file found under the root: the directory it sits in, its name and its text. */
  datatype ListedFile = ListedFile(parent: string, name: string, content: string) {
    /** The absolute path the walk builds for it, `${directory}/${file}`. */
    function Path(): string {
      parent + "/" + name
    }

    function Located(): LocatedFile {
      LocatedFile(name, Path())
    }
  }

  /** The file-name suffix for a metadata kind. */
  function Suffix(metadata: string): string {
    "." + metadata + "-meta.xml"
  }

  /** Every regular file, at any depth, below directory `dir` whose listing is `entries`, depth first. */
  function Listing(dir: string, entries: seq<Entry>): seq<ListedFile>
    decreases entries
  {
    if entries == [] then []
    else
      var here := match entries[0]
        case File(name, content) => [ListedFile(dir, name, content)]
        case Dir(name, children) => Listing(dir + "/" + name, children);
      here + Listing(dir, entries[1..])
  }

  /** The records for the listed files whose path ends with `suffix`, in order. */
  function Candidates(listed: seq<ListedFile>, suffix: string): seq<LocatedFile> {
    if listed == [] then []
    else
      (if EndsWith(listed[0].Path(), suffix) then [listed[0].Located()] else [])
      + Candidates(listed[1..], suffix)
  }

  /** What `getFiles(fs.root, metadata)` returns. */
  function Locate(fs: FileSystem, metadata: string): seq<LocatedFile> {
    Candidates(Listing(fs.root, fs.entries), Suffix(metadata))
  }

  /** `fs.readFileSync(path)`: the text of the first listed regular file with that path. */
  function ReadFile(fs: FileSystem, path: string): Option<string> {
    Lookup(Listing(fs.root, fs.entries), path)
  }

  function Lookup(listed: seq<ListedFile>, path: string): Option<string> {
    if listed == [] then None
    else if listed[0].Path() == path then Some(listed[0].content)
    else Lookup(listed[1..], path)
  }

  /** A path can be read exactly when some listed file has it, and then it reads as the first such file. */
  lemma {:induction false} LookupFinds(listed: seq<ListedFile>, path: string)
    ensures Lookup(listed, path).Some? <==> exists f :: f in listed && f.Path() == path
    ensures Lookup(listed, path).Some? ==>
      exists i :: 0 <= i < |listed| && listed[i].Path() == path && Lookup(listed, path).value == listed[i].content &&
        forall j :: 0 <= j < i ==> listed[j].Path() != path
  {
    if listed != [] {
      LookupFinds(listed[1..], path);
      assert forall f :: f in listed <==> f == listed[0] || f in listed[1..];
      if listed[0].Path() != path && Lookup(listed, path).Some? {
        var i :| 0 <= i < |listed[1..]| && listed[1..][i].Path() == path && Lookup(listed[1..], path).value == listed[1..][i].content &&
          forall j :: 0 <= j < i ==> listed[1..][j].Path() != path;
        assert listed[i + 1].Path() == path;
        assert forall j :: 0 <= j < i + 1 ==> listed[j].Path() != path by {
          assert forall j :: 1 <= j < i + 1 ==> listed[j] == listed[1..][j - 1];
        }
      }
    }
  }

  lemma {:induction false} ListingAppend(dir: string, a: seq<Entry>, b: seq<Entry>)
    ensures Listing(dir, a + b) == Listing(dir, a) + Listing(dir, b)
    decreases a
  {
    if a != [] {
      assert (a + b)[1..] == a[1..] + b;
      ListingAppend(dir, a[1..], b);
    } else {
      assert a + b == b;
    }
  }

  lemma {:induction false} CandidatesAppend(a: seq<ListedFile>, b: seq<ListedFile>, suffix: string)
    ensures Candidates(a + b, suffix) == Candidates(a, suffix) + Candidates(b, suffix)
  {
    if a != [] {
      assert (a + b)[1..] == a[1..] + b;
      CandidatesAppend(a[1..], b, suffix);
    } else {
      assert a + b == b;
    }
  }

  /**
   * The walk returns exactly the regular files, at any depth, whose absolute
   * path ends with the suffix (both directions of membership), and no more of
   * them than there are files.
   */
  lemma {:induction false} CandidatesExact(listed: seq<ListedFile>, suffix: string)
    ensures forall r :: r in Candidates(listed, suffix) <==>
      exists f :: f in listed && EndsWith(f.Path(), suffix) && r == f.Located()
    ensures |Candidates(listed, suffix)| <= |listed|
  {
    if listed != [] {
      CandidatesExact(listed[1..], suffix);
      assert forall f :: f in listed <==> f == listed[0] || f in listed[1..];
    }
  }

  /** The `{name, path}` records of all listed files, in listing order. */
  function LocatedAll(listed: seq<ListedFile>): (r: seq<LocatedFile>)
    ensures |r| == |listed|
    ensures forall k :: 0 <= k < |listed| ==> r[k] == listed[k].Located()
  {
    if listed == [] then [] else [listed[0].Located()] + LocatedAll(listed[1..])
  }

  /** The walk keeps the listing order: its records are a subsequence of all listed records. */
  lemma {:induction false} CandidatesOrdered(listed: seq<ListedFile>, suffix: string)
    ensures IsSubsequence(Candidates(listed, suffix), LocatedAll(listed))
  {
    if listed != [] {
      var head, rest := listed[0].Located(), Candidates(listed[1..], suffix);
      CandidatesOrdered(listed[1..], suffix);
      SubsequenceCons(head, rest, LocatedAll(listed[1..]));
      assert LocatedAll(listed) == [head] + LocatedAll(listed[1..]);
      if EndsWith(listed[0].Path(), suffix) {
        assert Candidates(listed, suffix) == [head] + rest;
      } else {
        assert Candidates(listed, suffix) == rest;
      }
    }
  }

  /** Every listed file lies strictly below the directory the walk started from. */
  lemma {:induction false} ListingUnder(dir: string, entries: seq<Entry>)
    ensures forall f :: f in Listing(dir, entries) ==> StartsWith(f.Path(), dir + "/")
    decreases entries
  {
    if entries != [] {
      ListingUnder(dir, entries[1..]);
      match entries[0]
      case File(name, content) =>
        var f := ListedFile(dir, name, content);
        assert f.Path()[..|dir + "/"|] == dir + "/";
      case Dir(name, children) =>
        var sub := dir + "/" + name;
        ListingUnder(sub, children);
        forall f | f in Listing(sub, children)
          ensures StartsWith(f.Path(), dir + "/")
        {
          assert StartsWith(f.Path(), sub + "/");
          assert f.Path()[..|dir + "/"|] == (sub + "/")[..|dir + "/"|];
        }
    }
  }

  /**
   * Every located path is the parent directory, a slash and the record's name, lies
   * below the root, ends with the suffix, and can be read back.
   */
  lemma LocatedShape(fs: FileSystem, metadata: string)
    ensures forall r :: r in Locate(fs, metadata) ==>
      && (exists parent :: r.path == parent + "/" + r.name)
      && StartsWith(r.path, fs.root + "/")
      && EndsWith(r.path, Suffix(metadata))
      && ReadFile(fs, r.path).Some?
  {
    var listed := Listing(fs.root, fs.entries);
    CandidatesExact(listed, Suffix(metadata));
    ListingUnder(fs.root, fs.entries);
    forall r | r in Locate(fs, metadata)
      ensures exists parent :: r.path == parent + "/" + r.name
      ensures ReadFile(fs, r.path).Some?
    {
      var f :| f in listed && EndsWith(f.Path(), Suffix(metadata)) && r == f.Located();
      assert r.path == f.parent + "/" + r.name;
      LookupFinds(listed, r.path);
    }
  }

  /** A suffix longer than the last path component reaches back over its slash. */
  lemma SlashInsideSuffix(parent: string, name: string, suffix: string)
    requires |name| < |suffix|
    requires EndsWith(parent + "/" + name, suffix)
    ensures '/' in suffix
  {
    var p := parent + "/" + name;
    var k := |parent| - (|p| - |suffix|);
    assert suffix[k] == p[|parent|] == '/';
  }

  /** A suffix with no slash that ends `parent/name` ends `name` itself. */
  lemma SuffixOfLastComponent(parent: string, name: string, suffix: string)
    requires '/' !in suffix
    requires EndsWith(parent + "/" + name, suffix)
    ensures EndsWith(name, suffix)
  {
    var p := parent + "/" + name;
    if |name| < |suffix| {
      SlashInsideSuffix(parent, name, suffix);
      assert false;
    }
    assert p[|p| - |suffix|..] == name[|name| - |suffix|..];
  }

  /**
   * For a kind without a slash in it, the record's own name ends with the suffix
   * (the walk tests the absolute path, not the name).
   */
  lemma LocatedNameEndsWithSuffix(fs: FileSystem, metadata: string)
    requires '/' !in metadata
    ensures forall r :: r in Locate(fs, metadata) ==> EndsWith(r.name, Suffix(metadata))
  {
    var suffix := Suffix(metadata);
    assert '/' !in suffix by {
      assert suffix == ['.'] + metadata + "-meta.xml";
    }
    CandidatesExact(Listing(fs.root, fs.entries), suffix);
    forall r | r in Locate(fs, metadata)
      ensures EndsWith(r.name, suffix)
    {
      var f :| f in Listing(fs.root, fs.entries) && EndsWith(f.Path(), suffix) && r == f.Located();
      SuffixOfLastComponent(f.parent, f.name, suffix);
    }
  }

  /** The walk's output over the entries from `i` on: what entry `i` contributes, then the rest. */
  lemma CandidatesRest(dir: string, entries: seq<Entry>, i: nat, suffix: string)
    requires i < |entries|
    ensures entries[i].Dir? ==>
      Candidates(Listing(dir, entries[i..]), suffix) ==
        Candidates(Listing(dir + "/" + entries[i].name, entries[i].children), suffix) + Candidates(Listing(dir, entries[i + 1..]), suffix)
    ensures entries[i].File? ==>
      Candidates(Listing(dir, entries[i..]), suffix) ==
        (if EndsWith(dir + "/" + entries[i].name, suffix) then [LocatedFile(entries[i].name, dir + "/" + entries[i].name)] else [])
        + Candidates(Listing(dir, entries[i + 1..]), suffix)
  {
    var e := entries[i];
    assert entries[i..][1..] == entries[i + 1..];
    assert entries[i..] == [e] + entries[i + 1..];
    ListingAppend(dir, [e], entries[i + 1..]);
    CandidatesAppend(Listing(dir, [e]), Listing(dir, entries[i + 1..]), suffix);
    CandidatesOfEntry(dir, e, suffix);
  }

  /** What one entry of a listing contributes to the walk's output. */
  lemma CandidatesOfEntry(dir: string, e: Entry, suffix: string)
    ensures e.Dir? ==>
      Candidates(Listing(dir, [e]), suffix) == Candidates(Listing(dir + "/" + e.name, e.children), suffix)
    ensures e.File? ==>
      Candidates(Listing(dir, [e]), suffix) ==
        if EndsWith(dir + "/" + e.name, suffix) then [LocatedFile(e.name, dir + "/" + e.name)] else []
  {
    assert [e][1..] == [];
    if e.Dir? {
      assert Listing(dir, [e]) == Listing(dir + "/" + e.name, e.children) + [];
      assert Listing(dir, [e]) == Listing(dir + "/" + e.name, e.children);
    } else {
      var listed := [ListedFile(dir, e.name, e.content)];
      assert Listing(dir, [e]) == listed + [];
      assert listed[1..] == [];
    }
  }

  /**
   * The array shared by the recursive `_getFiles` calls: each call pushes the
   * matching files of one directory, recursing into subdirectories in place.
   */
  class FileCollector {
    var files: seq<LocatedFile>

    constructor ()
      ensures files == []
    {
      files := [];
    }

    method Collect(dir: string, entries: seq<Entry>, suffix: string)
      modifies this
      ensures files == old(files) + Candidates(Listing(dir, entries), suffix)
      decreases entries
    {
      var i := 0;
      while i < |entries|
        invariant 0 <= i <= |entries|
        invariant old(files) + Candidates(Listing(dir, entries), suffix)
               == files + Candidates(Listing(dir, entries[i..]), suffix)
      {
        var entry := entries[i];
        var absolute := dir + "/" + entry.name;
        CandidatesRest(dir, entries, i, suffix);
        match entry {
          case Dir(_, children) =>
            Collect(absolute, children, suffix);
          case File(name, _) =>
            if EndsWith(absolute, suffix) {
              files := files + [LocatedFile(name, absolute)];
            }
        }
        i := i + 1;
      }
    }
  }

  /** `getFiles(directory, metadata)`. */
  method GetFiles(fs: FileSystem, metadata: string) returns (files: seq<LocatedFile>)
    ensures files == Locate(fs, metadata)
  {
    var collector := new FileCollector();
    collector.Collect(fs.root, fs.entries, Suffix(metadata));
    files := collector.files;
  }
}
