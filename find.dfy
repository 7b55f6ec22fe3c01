/**
 * The function yargs runs for the `find` command (passed to `.command` as its
 * builder, which is why it can destructure `argv`): locate the candidate files, keep those using the
 * field, and print the query and the count, or fail with the no-match or
 * unsupported-kind error.
 */
module Find {
  import opened Wrappers
  import opened Strings
  import opened Sequences
  import opened Options
  import opened Errors
  import opened Locator
  import opened Matcher
  import opened Query

  /** The two lines printed on success. */
  datatype Output = Output(soql: string, countLine: string)

  /** The text before the count: `${metadata}s found: `. */
  function CountPrefix(metadata: string): string {
    metadata + "s found: "
  }

  /** `${metadata}s found: ${n}`. */
  function CountLine(metadata: string, n: nat): string {
    CountPrefix(metadata) + NatToString(n)
  }

  /** The count line is the prefix followed by digits that read back as the count. */
  lemma CountLineReadsBack(metadata: string, n: nat)
    ensures StartsWith(CountLine(metadata, n), CountPrefix(metadata))
    ensures IsDigits(CountLine(metadata, n)[|CountPrefix(metadata)|..])
    ensures ParseDecimal(CountLine(metadata, n)[|CountPrefix(metadata)|..]) == n
  {
    var prefix, digits := CountPrefix(metadata), NatToString(n);
    assert (prefix + digits)[..|prefix|] == prefix;
    assert (prefix + digits)[|prefix|..] == digits;
    ParseNatToString(n);
  }

  /** The directory tree `args.path` names, with `entries` as its listing. */
  function Tree(args: Args, entries: seq<Entry>): FileSystem {
    FileSystem(args.path, entries)
  }

  /** The names the handler's reduce collects. */
  function Matches(args: Args, entries: seq<Entry>): seq<string> {
    var fs := Tree(args, entries);
    UsedNames(fs, Locate(fs, args.metadata), args)
  }

  /** What the handler ends with: the two output lines, or the error it exits on. */
  function Outcome(args: Args, entries: seq<Entry>): Result<Output, Error> {
    var names := Matches(args, entries);
    if |names| == 0 then Failure(NoMatches(args.field, args.metadata, args.strict))
    else
      match GenerateSoql(WhereClause(names), args.metadata)
      case Failure(e) => Failure(e)
      case Success(soql) => Success(Output(soql, CountLine(args.metadata, |names|)))
  }

  /** The function yargs runs for the `find` command. */
  method FindCommand(args: Args, entries: seq<Entry>) returns (r: Result<Output, Error>)
    ensures r == Outcome(args, entries)
  {
    var fs := Tree(args, entries);
    var located := GetFiles(fs, args.metadata);
    LocatedShape(fs, args.metadata);
    var files := new LocatedFile[|located|](i requires 0 <= i < |located| => located[i]);
    assert files[..] == located;
    var filesNameWhereFieldIsUsed := MatchFiles(fs, files, args);
    if |filesNameWhereFieldIsUsed| == 0 {
      return Failure(NoMatches(args.field, args.metadata, args.strict));
    }
    var filesNamesForSoql := WhereClause(filesNameWhereFieldIsUsed);
    var soql := GenerateSoql(filesNamesForSoql, args.metadata);
    if soql.Failure? {
      return Failure(soql.error);
    }
    r := Success(Output(soql.value, CountLine(args.metadata, |filesNameWhereFieldIsUsed|)));
  }

  /**
   * The handler fails exactly when nothing matches (the no-match error, even for
   * a kind without a template) or when the kind has no template.
   */
  lemma OutcomeErrors(args: Args, entries: seq<Entry>)
    ensures Outcome(args, entries).Success? <==> Matches(args, entries) != [] && args.metadata in MetadataSupport
    ensures Matches(args, entries) == [] ==>
      Outcome(args, entries) == Failure(NoMatches(args.field, args.metadata, args.strict))
    ensures Matches(args, entries) != [] && args.metadata !in MetadataSupport ==>
      Outcome(args, entries) == Failure(UnsupportedKind(args.metadata))
  {
  }

  /**
   * On success the query is the kind's template around `(` + the quoted names joined
   * by commas + `)`, and the count line reports how many names there are.
   */
  lemma OutcomeReport(args: Args, entries: seq<Entry>)
    ensures Outcome(args, entries).Success? ==>
      var names := Matches(args, entries);
      var out := Outcome(args, entries).value;
      && out.soql == Opening(args.metadata) + ("(" + Joined(names) + ")") + Closing(args.metadata)
      && StartsWith(out.countLine, CountPrefix(args.metadata))
      && IsDigits(out.countLine[|CountPrefix(args.metadata)|..])
      && ParseDecimal(out.countLine[|CountPrefix(args.metadata)|..]) == |names|
  {
    if Outcome(args, entries).Success? {
      var names := Matches(args, entries);
      var clause := WhereClause(names);
      WhereClauseShape(names);
      SoqlShape(clause, args.metadata);
      CountLineReadsBack(args.metadata, |names|);
    }
  }

  /**
   * Every reported name is the stripped name of a located file whose text uses the
   * field, the names keep the order of the walk, and strict mode reports a
   * subsequence of what the plain mode reports.
   */
  lemma MatchesAreUsedFiles(args: Args, entries: seq<Entry>)
    ensures var fs := Tree(args, entries);
      var located := Locate(fs, args.metadata);
      && |Matches(args, entries)| <= |located|
      && IsSubsequence(Kept(fs, located, args), located)
      && Matches(args, entries) == Names(Kept(fs, located, args), args.metadata)
      && (forall f :: f in Kept(fs, located, args) <==> f in located && Keep(fs, f, args))
      && IsSubsequence(Matches(args.(strict := true), entries), Matches(args.(strict := false), entries))
  {
    var fs := Tree(args, entries);
    KeptExact(fs, Locate(fs, args.metadata), args);
    StrictIsSubsequence(fs, Locate(fs, args.metadata), args);
  }
}
