/**
 * The usage matcher of the `find` handler: reads every located file, keeps those
 * whose text uses the field, strips the kind suffix from the kept records' names
 * in place and collects the stripped names in order.
 */
module Matcher {
  import opened Wrappers
  import opened Strings
  import opened Sequences
  import opened Locator
  import opened Options

  /** The tag whose presence strict mode rejects: `<field>Object.Field</field>`. */
  function Marker(objectName: string, field: string): string {
    "<field>" + objectName + "." + field + "</field>"
  }

  /** The usage test on one file's text. */
  predicate IsUsed(content: string, objectName: string, field: string, strict: bool) {
    Contains(content, field) && (!strict || !Contains(content, Marker(objectName, field)))
  }

  /** The marker spells out the field, so a file holding the marker also holds the field. */
  lemma MarkerMentionsField(content: string, objectName: string, field: string)
    ensures Contains(content, Marker(objectName, field)) ==> Contains(content, field)
  {
    var marker := Marker(objectName, field);
    if Contains(content, marker) {
      var i: nat :| OccursAt(content, marker, i);
      var j := |"<field>" + objectName + "."|;
      assert marker[j..j + |field|] == field;
      OccursInside(content, field, i, marker, j);
    }
  }

  /**
   * Strict mode only narrows: it keeps a subset of what the plain test keeps, and
   * what it drops is exactly the files holding the marker.
   */
  lemma StrictDropsExactlyMarked(content: string, objectName: string, field: string)
    ensures IsUsed(content, objectName, field, true) ==> IsUsed(content, objectName, field, false)
    ensures (IsUsed(content, objectName, field, false) && !IsUsed(content, objectName, field, true))
            <==> Contains(content, Marker(objectName, field))
  {
    MarkerMentionsField(content, objectName, field);
  }

  /** Every record can be read back from the file system. */
  predicate Readable(fs: FileSystem, files: seq<LocatedFile>) {
    forall i :: 0 <= i < |files| ==> ReadFile(fs, files[i].path).Some?
  }

  /**
   * The text `fs.readFileSync(f.path)` returns passes the usage test. (A path that
   * cannot be read never reaches the test: `MatchFiles` requires every record to be
   * readable, and every record the walk produces is.)
   */
  predicate Keep(fs: FileSystem, f: LocatedFile, args: Args) {
    match ReadFile(fs, f.path)
    case Some(content) => IsUsed(content, args.objectName, args.field, args.strict)
    case None => false
  }

  /** The records the reduce keeps, in order. */
  function Kept(fs: FileSystem, files: seq<LocatedFile>, args: Args): seq<LocatedFile> {
    if files == [] then []
    else (if Keep(fs, files[0], args) then [files[0]] else []) + Kept(fs, files[1..], args)
  }

  /** `name.replace(`.${metadata}-meta.xml`, '')`. */
  function StripName(name: string, metadata: string): string {
    ReplaceFirst(name, Suffix(metadata), "")
  }

  /** The stripped names of some records. */
  function Names(files: seq<LocatedFile>, metadata: string): seq<string> {
    if files == [] then [] else [StripName(files[0].name, metadata)] + Names(files[1..], metadata)
  }

  lemma {:induction false} NamesAppend(a: seq<LocatedFile>, b: seq<LocatedFile>, metadata: string)
    ensures Names(a + b, metadata) == Names(a, metadata) + Names(b, metadata)
  {
    if a == [] {
      assert a + b == b;
    } else {
      assert (a + b)[1..] == a[1..] + b;
      NamesAppend(a[1..], b, metadata);
    }
  }

  /** There is one name per record. */
  lemma {:induction false} NamesLength(files: seq<LocatedFile>, metadata: string)
    ensures |Names(files, metadata)| == |files|
  {
    if files != [] {
      NamesLength(files[1..], metadata);
    }
  }

  /** The k-th name is the k-th record's name, stripped. */
  lemma {:induction false} NamesAt(files: seq<LocatedFile>, metadata: string, k: nat)
    requires k < |files|
    ensures |Names(files, metadata)| == |files|
    ensures Names(files, metadata)[k] == StripName(files[k].name, metadata)
  {
    NamesLength(files, metadata);
    if k > 0 {
      NamesAt(files[1..], metadata, k - 1);
    }
  }

  /** `filesNameWhereFieldIsUsed`: the value the reduce accumulates. */
  function UsedNames(fs: FileSystem, files: seq<LocatedFile>, args: Args): seq<string> {
    Names(Kept(fs, files, args), args.metadata)
  }

  /** A record after the reduce has visited it: renamed when kept, untouched otherwise. */
  function Renamed(fs: FileSystem, f: LocatedFile, args: Args): LocatedFile {
    if Keep(fs, f, args) then f.(name := StripName(f.name, args.metadata)) else f
  }

  lemma {:induction false} KeptAppend(fs: FileSystem, a: seq<LocatedFile>, b: seq<LocatedFile>, args: Args)
    ensures Kept(fs, a + b, args) == Kept(fs, a, args) + Kept(fs, b, args)
  {
    if a != [] {
      assert (a + b)[1..] == a[1..] + b;
      KeptAppend(fs, a[1..], b, args);
    } else {
      assert a + b == b;
    }
  }

  /** The reduce's accumulator after visiting one more record. */
  lemma UsedNamesStep(fs: FileSystem, files: seq<LocatedFile>, i: nat, args: Args)
    requires i < |files|
    ensures UsedNames(fs, files[..i + 1], args) ==
      UsedNames(fs, files[..i], args) + (if Keep(fs, files[i], args) then [StripName(files[i].name, args.metadata)] else [])
  {
    assert files[..i + 1] == files[..i] + [files[i]];
    assert [files[i]][1..] == [];
    KeptAppend(fs, files[..i], [files[i]], args);
    var kept := Kept(fs, files[..i], args);
    var more := if Keep(fs, files[i], args) then [files[i]] else [];
    assert Kept(fs, [files[i]], args) == more + [];
    NamesAppend(kept, more, args.metadata);
    if Keep(fs, files[i], args) {
      assert more[1..] == [];
      assert Names(more, args.metadata) == [StripName(files[i].name, args.metadata)] + Names([], args.metadata);
    } else {
      assert Names(more, args.metadata) == [];
    }
    assert Kept(fs, files[..i + 1], args) == kept + more;
  }

  /**
   * The kept records are the located records whose text passes the usage test,
   * in their original order, and there are no more of them than located records.
   */
  lemma {:induction false} KeptExact(fs: FileSystem, files: seq<LocatedFile>, args: Args)
    ensures IsSubsequence(Kept(fs, files, args), files)
    ensures forall f :: f in Kept(fs, files, args) <==> f in files && Keep(fs, f, args)
    ensures |UsedNames(fs, files, args)| <= |files|
  {
    if files != [] {
      var rest := files[1..];
      KeptExact(fs, rest, args);
      var k := Kept(fs, files, args);
      if Keep(fs, files[0], args) {
        assert k == [files[0]] + Kept(fs, rest, args);
        SubsequenceCons(files[0], Kept(fs, rest, args), rest);
      } else {
        assert k == Kept(fs, rest, args);
        SubsequenceCons(files[0], Kept(fs, rest, args), rest);
      }
      assert files == [files[0]] + rest;
      assert forall f :: f in files <==> f == files[0] || f in rest;
      SubsequenceBounds(k, files);
    }
  }

  /** The strict result is always a subsequence of the plain result. */
  lemma {:induction false} StrictIsSubsequence(fs: FileSystem, files: seq<LocatedFile>, args: Args)
    ensures IsSubsequence(UsedNames(fs, files, args.(strict := true)), UsedNames(fs, files, args.(strict := false)))
  {
    var strict, plain := args.(strict := true), args.(strict := false);
    if files != [] {
      var f, rest := files[0], files[1..];
      StrictIsSubsequence(fs, rest, args);
      if ReadFile(fs, f.path).Some? {
        StrictDropsExactlyMarked(ReadFile(fs, f.path).value, args.objectName, args.field);
      }
      UnfoldUsedNames(fs, files, strict);
      UnfoldUsedNames(fs, files, plain);
      var name := StripName(f.name, args.metadata);
      var s, p := UsedNames(fs, rest, strict), UsedNames(fs, rest, plain);
      SubsequenceCons(name, s, p);
      if Keep(fs, f, strict) {
        assert Keep(fs, f, plain);
        assert UsedNames(fs, files, strict) == [name] + s;
        assert UsedNames(fs, files, plain) == [name] + p;
      } else if Keep(fs, f, plain) {
        assert UsedNames(fs, files, strict) == s;
        assert UsedNames(fs, files, plain) == [name] + p;
      } else {
        assert UsedNames(fs, files, strict) == s;
        assert UsedNames(fs, files, plain) == p;
      }
    }
  }

  /** `UsedNames` one record at a time, from the front. */
  lemma UnfoldUsedNames(fs: FileSystem, files: seq<LocatedFile>, args: Args)
    requires files != []
    ensures UsedNames(fs, files, args) ==
      (if Keep(fs, files[0], args) then [StripName(files[0].name, args.metadata)] else []) + UsedNames(fs, files[1..], args)
  {
    var rest := files[1..];
    var more := if Keep(fs, files[0], args) then [files[0]] else [];
    var k := Kept(fs, rest, args);
    NamesAppend(more, k, args.metadata);
  }

  /**
   * Renaming touches only the name of a kept record; when the name contains the
   * suffix it becomes exactly that many characters shorter, and a name that is a
   * base followed by its only occurrence of the suffix becomes that base.
   */
  lemma RenamedShape(fs: FileSystem, f: LocatedFile, args: Args)
    ensures Renamed(fs, f, args).path == f.path
    ensures !Keep(fs, f, args) ==> Renamed(fs, f, args) == f
    ensures Keep(fs, f, args) && Contains(f.name, Suffix(args.metadata)) ==>
      |Renamed(fs, f, args).name| == |f.name| - |Suffix(args.metadata)|
  {
    ReplaceFirstLength(f.name, Suffix(args.metadata), "");
  }

  /** A name that is a base followed by the suffix, met there for the first time, loses just the suffix. */
  lemma StripNameTrailing(base: string, metadata: string)
    requires forall j: nat :: j < |base| ==> !OccursAt(base + Suffix(metadata), Suffix(metadata), j)
    ensures StripName(base + Suffix(metadata), metadata) == base
  {
    assert base + Suffix(metadata) + [] == base + Suffix(metadata);
    ReplaceFirstSplits(base, Suffix(metadata), [], "");
    assert base + "" + [] == base;
  }

  /** Every record of a supported kind the walk finds loses exactly the suffix's length when stripped. */
  lemma StripLocatedName(fs: FileSystem, metadata: string)
    requires metadata in MetadataSupport
    ensures forall r :: r in Locate(fs, metadata) ==>
      |StripName(r.name, metadata)| == |r.name| - |Suffix(metadata)|
  {
    LocatedNameEndsWithSuffix(fs, metadata);
    forall r | r in Locate(fs, metadata)
      ensures |StripName(r.name, metadata)| == |r.name| - |Suffix(metadata)|
    {
      var suffix := Suffix(metadata);
      assert OccursAt(r.name, suffix, |r.name| - |suffix|);
      ReplaceFirstLength(r.name, suffix, "");
    }
  }

  /**
   * The reducer callback on record `i`: reads its file and, when the text passes
   * the usage test, rewrites the record's name in place and pushes it onto `acc`.
   */
  method Visit(fs: FileSystem, files: array<LocatedFile>, i: nat, args: Args, acc: seq<string>) returns (total: seq<string>)
    requires i < files.Length && ReadFile(fs, files[i].path).Some?
    modifies files
    ensures total == acc + (if Keep(fs, old(files[i]), args) then [StripName(old(files[i]).name, args.metadata)] else [])
    ensures files[i] == Renamed(fs, old(files[i]), args)
    ensures forall j :: 0 <= j < files.Length && j != i ==> files[j] == old(files[j])
  {
    total := acc;
    var r := files[i];
    var fileContent := ReadFile(fs, r.path).value;
    if IsUsed(fileContent, args.objectName, args.field, args.strict) {
      r := r.(name := StripName(r.name, args.metadata));
      files[i] := r;
      total := total + [r.name];
    }
  }

  /**
   * The reduce of the `find` handler: runs the callback on every record in order,
   * starting from an empty accumulator.
   */
  method MatchFiles(fs: FileSystem, files: array<LocatedFile>, args: Args) returns (total: seq<string>)
    requires Readable(fs, files[..])
    modifies files
    ensures total == UsedNames(fs, old(files[..]), args)
    ensures forall i :: 0 <= i < files.Length ==> files[i] == Renamed(fs, old(files[i]), args)
  {
    ghost var original := files[..];
    total := [];
    for i := 0 to files.Length
      invariant total == UsedNames(fs, original[..i], args)
      invariant forall j :: 0 <= j < i ==> files[j] == Renamed(fs, original[j], args)
      invariant forall j :: i <= j < files.Length ==> files[j] == original[j]
    {
      UsedNamesStep(fs, original, i, args);
      assert ReadFile(fs, files[i].path).Some?;
      total := Visit(fs, files, i, args, total);
    }
    assert original[..files.Length] == original;
  }
}
