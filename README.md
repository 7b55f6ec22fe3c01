# get-field-usage-soql, modelled in Dafny

`main.js` is a command-line tool for a Salesforce project. Its `find` command
walks the project directory for report or dashboard definition files
(`*.report-meta.xml`, `*.dashboard-meta.xml`). It keeps the files whose text
mentions a given field. In strict mode it also drops every file that holds the
tag `<field>Object.Field</field>`. It strips the kind suffix from each kept
file's name. It then prints a SOQL query that selects those developer names,
followed by a count line. It exits with status 1 when nothing matches or when
the kind has no query template.

This project models that core:

- `locator.dfy` (module `Locator`) models `getFiles` / `_getFiles`. The file
  system is a tree of `Entry` values: `File(name, content)` or
  `Dir(name, children)`. `FileCollector` is the array shared by the recursive
  walk. Its method `Collect` is the recursive `forEach`, a `while` loop that
  pushes `{name, path}` records. The walk is proved against a reference
  definition: every regular file at any depth (`Listing`), filtered by suffix
  (`Candidates`).
- `matcher.dfy` (module `Matcher`) models the handler's `reduce` at
  main.js:16-23. `MatchFiles` works on an `array` of records and runs the
  callback `Visit` on each in order. `Visit` reads the record's file, renames a
  kept record in place and pushes its stripped name onto the accumulator. The
  reference is `UsedNames`. The lemmas cover membership, order, the strict and
  plain modes, and name stripping.
- `query.dfy` (module `Query`) models the string fold that builds the `IN`
  clause and `generateSoql`.
- `errors.dfy` (module `Errors`) models the two fatal outcomes and their
  messages. `find.dfy` (module `Find`) models the whole handler, the function yargs runs for `find`
  (passed to `.command` as its builder), as `FindCommand`,
  with `Outcome` as its specification.
- `strings.dfy`, `sequences.dfy`, `wrappers.dfy` and `options.dfy` hold the
  JavaScript string primitives (`includes`, `endsWith`, `replace` with a
  string pattern and a replacement without `$`, number rendering), the subsequence relation, `Option`/`Result`,
  and the parsed arguments.

Behaviour of main.js that the model keeps:

- Strict mode excludes files that contain the one marker
  `<field>${object}.${field}</field>` (main.js:18).
- Both query templates put `\n\n` on each side of the clause
  (main.js:102-110).
- No path is checked for existence before it is read (main.js:17).

## Model

| member | source | states |
|---|---|---|
| `Strings.Contains` | main.js:18 | `includes` is true exactly when the pattern occurs at some position of the text |
| `Strings.IndexFrom` | main.js:19 | the position found holds the pattern and no earlier position does; `None` means no position holds it |
| `Strings.EndsWith` | main.js:84 | `endsWith`: the text's last characters are the pattern (a definition; `Locator.LocatedShape` and `Locator.CandidatesExact` state it of the walk's records) |
| `Strings.ReplaceFirst` | main.js:19 | `replace` with a string pattern and a replacement holding no `$` (main.js:19 passes `''`): the text up to the first occurrence found by `IndexOf`, the replacement, then the rest; the text itself when there is none (a definition; its contract is in `Strings.ReplaceFirstLength` and `Strings.ReplaceFirstSplits`) |
| `Strings.ReplaceFirstLength` | main.js:19 | `replace` with a string pattern and the `''` replacement of main.js:19 shortens the text by exactly the pattern's length when the pattern occurs, and leaves it unchanged otherwise |
| `Strings.ReplaceFirstSplits` | main.js:19 | on `a + pat + b` with no earlier occurrence of `pat`, `replace` with a `$`-free replacement yields `a + rep + b`: only the first occurrence is replaced |
| `Strings.NatToString` | main.js:41 | a count renders as a non-empty run of decimal digits with no leading zero |
| `Strings.ParseNatToString` | main.js:41 | reading the rendered count back as a decimal number gives the count |
| `Locator.Listing` | main.js:79-91 | the regular files below a directory, depth first in listing order, each with the directory it sits in (the reference of the walk; its contract is in `Locator.ListingUnder` and `Locator.LocatedShape`) |
| `Locator.Candidates` | main.js:84-88 | the `{name, path}` records of the listed files whose `${directory}/${file}` path ends with the suffix (the reference of the filter; its contract is in `Locator.CandidatesExact` and `Locator.CandidatesOrdered`) |
| `Locator.Locate` | main.js:76-96 | what `getFiles(root, metadata)` returns: the candidates of the whole tree for the kind's suffix (its contract is in `Locator.LocatedShape` and `Locator.GetFiles`) |
| `Locator.Suffix` | main.js:84 | `.${metadata}-meta.xml`, the suffix the walk filters on and (at main.js:19) the text stripped from kept names (a definition; its contract is in `Locator.LocatedNameEndsWithSuffix` and `Matcher.StripLocatedName`) |
| `Locator.ReadFile` | main.js:17 | `fs.readFileSync(path, 'utf-8')`: the text of the first listed regular file with that path, or `None` when there is none (a definition; its contract is in `Locator.LookupFinds` and `Locator.LocatedShape`) |
| `Locator.LookupFinds` | main.js:17 | a path can be read exactly when some regular file in the tree has it, and it reads as the text of the first such file in listing order |
| `Locator.CandidatesExact` | main.js:80-89 | the walk returns exactly the regular files, at any depth, whose `${directory}/${file}` path ends with the suffix, as `{name, path}` records; it returns no more records than there are files |
| `Locator.CandidatesOrdered` | main.js:80-88 | the walk keeps listing order: its records are a subsequence of the records of all listed files |
| `Locator.ListingUnder` | main.js:81-83 | every file found lies below the starting directory: its path starts with that directory and a slash |
| `Locator.LocatedShape` | main.js:80-89 | every record's path is a parent directory, a slash and the record's name; it lies under the root, ends with the suffix, and can be read by `readFileSync` |
| `Locator.LocatedNameEndsWithSuffix` | main.js:84-88 | for a kind without a slash, the record's name (not only its path) ends with the suffix |
| `Locator.SuffixOfLastComponent` | main.js:81-84 | a suffix with no slash that ends `parent/name` also ends `name` |
| `Locator.FileCollector.Collect` | main.js:79-91 | the recursive walk appends to the shared array exactly the suffix-matching files of the directory, depth first, in listing order, after what it already held |
| `Locator.GetFiles` | main.js:76-96 | `getFiles` returns exactly the reference list of suffix-matching files |
| `Matcher.Marker` | main.js:18 | the strict-mode tag `<field>${object}.${field}</field>` (a definition; its contract is in `Matcher.MarkerMentionsField` and `Matcher.StrictDropsExactlyMarked`) |
| `Matcher.IsUsed` | main.js:18 | the usage test: the text includes the field and, in strict mode, does not include `<field>Object.Field</field>` (a definition; its contract is in `Matcher.StrictDropsExactlyMarked`) |
| `Matcher.Keep` | main.js:17-18 | the usage test applied to the text `readFileSync` returns for the record's path (a definition; its contract is in `Matcher.KeptExact` and `Matcher.RenamedShape`) |
| `Matcher.StripName` | main.js:19 | `name.replace(`.${metadata}-meta.xml`, '')` (a definition; its contract is in `Matcher.StripNameTrailing`, `Matcher.StripLocatedName` and `Matcher.RenamedShape`) |
| `Matcher.Kept` | main.js:16-23 | the records the reduce keeps, in order (a definition; its contract is in `Matcher.KeptExact`) |
| `Matcher.UsedNames` | main.js:16-23 | the reduce's accumulator: the stripped names of the kept records, in order (a definition; its contract is in `Matcher.KeptExact`, `Matcher.NamesAt` and `Matcher.StrictIsSubsequence`) |
| `Matcher.Renamed` | main.js:19 | a record after the callback: `r.name = r.name.replace(...)` when kept, untouched otherwise (a definition; its contract is in `Matcher.RenamedShape`) |
| `Matcher.MarkerMentionsField` | main.js:18 | a text that holds `<field>Object.Field</field>` also holds the field |
| `Matcher.StrictDropsExactlyMarked` | main.js:18 | whatever strict mode keeps, plain mode keeps too; plain mode keeps a file that strict mode drops exactly when the file holds the marker |
| `Matcher.KeptExact` | main.js:16-23 | a record is kept exactly when it was located and its text passes the usage test; kept records keep the located order; there are no more names than located records |
| `Matcher.StrictIsSubsequence` | main.js:16-23 | the strict result is always a subsequence of the plain result |
| `Matcher.NamesAt` | main.js:19-20 | the k-th collected name is the k-th kept record's name with its suffix stripped |
| `Matcher.RenamedShape` | main.js:19 | the in-place rename never touches `path` and leaves an unkept record unchanged; a kept name containing the suffix becomes exactly the suffix's length shorter |
| `Matcher.StripNameTrailing` | main.js:19 | a name made of a base and then the suffix, with no earlier occurrence of the suffix, is stripped to the base |
| `Matcher.StripLocatedName` | main.js:19 | for a supported kind, every located name loses exactly the suffix's length when it is stripped |
| `Matcher.Visit` | main.js:16-22 | the reducer callback on one record pushes its stripped name exactly when the record is kept, leaves that array slot renamed when kept and untouched otherwise, and leaves every other slot unchanged |
| `Matcher.MatchFiles` | main.js:16-23 | the reduce returns `UsedNames` of the original records, and leaves each array slot as that record renamed when kept and untouched otherwise |
| `Errors.Message` | main.js:27 | the text printed before each exit (the second one at main.js:114): `"${field}" is not used in any ${metadata}s [strict=${strict}]` and `${metadata} is not supported` (its contract is in the two lemmas below) |
| `Errors.NoMatchesMessageNames` | main.js:27 | the no-match message contains the quoted field, the kind and `strict=` followed by the flag |
| `Errors.UnsupportedMessageNames` | main.js:114 | the unsupported-kind message starts with the kind |
| `Query.WhereClause` | main.js:32-37 | the clause builder: fold `'${name}',` onto `(`, drop the last character, append `)` (its contract is in `Query.WhereClauseShape` and `Query.UnescapedQuotesCollide`) |
| `Query.QuoteEach` | main.js:32-35 | the fold never loses what it started from: the result starts with the initial accumulator |
| `Query.WhereClauseShape` | main.js:32-37 | for a non-empty list, the clause is `(`, the single-quoted names joined by `,`, then `)`, with no trailing comma; an empty list gives `)` |
| `Query.UnescapedQuotesCollide` | main.js:33 | embedded quotes are not escaped: `["a','b"]` and `["a", "b"]` give the same clause `('a','b')` |
| `Query.TemplateOf` | main.js:100-111 | the two query templates, report and dashboard, each as the text before and after the clause, and none for any other kind (its contract is in `Query.TemplateOfSupported`, `Query.OpeningNonEmpty` and `Query.SoqlShape`) |
| `Query.TemplateOfSupported` | main.js:100-111 | a kind has a template exactly when it is `report` or `dashboard` |
| `Query.OpeningNonEmpty` | main.js:100-113 | every template's opening text is non-empty, so a query built from a template never trips the `!soql` test |
| `Query.GenerateSoql` | main.js:98-119 | the query fails with the unsupported-kind error exactly for kinds other than `report` and `dashboard`; otherwise it is longer than the clause and the clause reads back out of it unchanged |
| `Query.SoqlShape` | main.js:100-111 | a successful query is the kind's opening text, then the clause, then the kind's closing text |
| `Find.Matches` | main.js:14-23 | `filesNameWhereFieldIsUsed`: the reduce run over what `getFiles` returns for the tree (a definition; its contract is in `Find.MatchesAreUsedFiles`) |
| `Find.Outcome` | main.js:11-42 | the handler's result as a function of its arguments and the tree: the no-match error, the unsupported-kind error, or the two printed lines (its contract is in `Find.OutcomeErrors`, `Find.OutcomeReport` and `Find.MatchesAreUsedFiles`) |
| `Find.FindCommand` | main.js:11-42 | the handler's result is `Outcome` of its arguments and the tree |
| `Find.OutcomeErrors` | main.js:26-29 | the handler succeeds exactly when some name matched and the kind has a template; with no match it fails with the no-match error, even for an unknown kind; otherwise an unknown kind fails with the unsupported-kind error |
| `Find.CountLine` | main.js:41 | `${metadata}s found: ${n}` (a definition; its contract is in `Find.CountLineReadsBack`) |
| `Find.CountLineReadsBack` | main.js:41 | the count line is `${metadata}s found: ` followed by digits that read back as the count |
| `Find.OutcomeReport` | main.js:32-41 | on success, the query is the template around `(` + the quoted names joined by `,` + `)`, and the count line is `${metadata}s found: ` followed by digits that read as the number of names |
| `Find.MatchesAreUsedFiles` | main.js:14-23 | the reported names are the stripped names of the located files that use the field, in walk order; there are no more of them than located files; the strict names are a subsequence of the plain names |

## Left out

- The `yargs` command and option declarations (main.js:2-10, 43-73) are not modelled. The model takes the already-parsed `{path, metadata, object, field, strict}` as an `Args` value. `metadata` stays a free string, so the unsupported-kind branch of `generateSoql` can be reached. The command line's `choices` check is not modelled.
- `strict` is a `bool`. The value an absent `--strict` flag takes is decided by `yargs`, which is not part of this model.
- The file system is a value: a root path and a tree of `Entry` values whose child order is the listing order. `readdirSync`, `statSync` and `readFileSync` are not modelled as calls. These failure cases are out of scope: a root path that does not exist or is not a directory, and files that vanish or change during the run. Symbolic links are not modelled either: `statSync` (main.js:82) follows them, so a linked directory is walked as a directory, and a link cycle or a broken link makes the script throw; a tree of `Entry` values can express none of these. In each failure case the script would throw.
- `MatchFiles` requires every record to be readable, because `readFileSync` throws otherwise. `LocatedShape` proves this for every record the walk produces.
- `Keep` counts a record whose path cannot be read as not kept. The script never reaches that case: it would throw.
- Reading a path gives the first regular file in listing order that has that path. Two entries can share a path only when names repeat or contain `/`, which a real directory does not allow.
- Files are read as text (`seq<char>`). UTF-8 decoding is not modelled.
- `console.log`, `console.error` and `process.exit` are not modelled as output. The handler returns a `Result` instead: the two printed lines (`Output`) or the error it exits on (`Error`, with its message text in `Message`).
- The `async` wrapper of the handler is not modelled; nothing in the handler awaits.
- Strings.ReplaceFirst: takes the replacement literally. JavaScript's `replace` expands the patterns `$$`, `$&`, `` $` `` and `$'` in it, so for a replacement holding `$` the model (and `Strings.ReplaceFirstLength`, `Strings.ReplaceFirstSplits`) does not describe `replace`. main.js:19 only passes `''`, which holds no `$`.
