/**
 * The query builder: the `IN (...)` list built by a string fold over the matched
 * names, and `generateSoql`, which wraps it in the template of the metadata kind.
 */
module Query {
  import opened Wrappers
  import opened Strings
  import opened Options
  import opened Errors

  /** A name in single quotes, with no escaping of quotes inside it. */
  function Quoted(name: string): string {
    "'" + name + "'"
  }

  /** The fold: appends `'name',` to `acc` for every name, in order. */
  function QuoteEach(acc: string, names: seq<string>): (r: string)
    ensures StartsWith(r, acc)
    decreases |names|
  {
    if names == [] then acc else QuoteEach(acc + Quoted(names[0]) + ",", names[1..])
  }

  /** The fold from `(`, its last character sliced off, then `)`. */
  function WhereClause(names: seq<string>): string {
    var folded := QuoteEach("(", names);
    folded[..|folded| - 1] + ")"
  }

  /** The quoted names separated by commas: the reference shape of the list. */
  function Joined(names: seq<string>): string
    decreases |names|
  {
    if names == [] then ""
    else if |names| == 1 then Quoted(names[0])
    else Quoted(names[0]) + "," + Joined(names[1..])
  }

  lemma {:induction false} QuoteEachJoins(acc: string, names: seq<string>)
    requires names != []
    ensures QuoteEach(acc, names) == acc + Joined(names) + ","
    decreases |names|
  {
    var next := acc + Quoted(names[0]) + ",";
    assert QuoteEach(acc, names) == QuoteEach(next, names[1..]);
    if |names| == 1 {
      assert names[1..] == [];
    } else {
      QuoteEachJoins(next, names[1..]);
      var rest := Joined(names[1..]);
      assert Joined(names) == Quoted(names[0]) + "," + rest;
      assert next + rest + "," == acc + (Quoted(names[0]) + "," + rest) + ",";
    }
  }

  /**
   * For a non-empty list the clause is `(` + the quoted names joined by commas +
   * `)`: no trailing comma, nothing escaped. An empty list gives a lone `)`.
   */
  lemma WhereClauseShape(names: seq<string>)
    ensures names != [] ==> WhereClause(names) == "(" + Joined(names) + ")"
    ensures names == [] ==> WhereClause(names) == ")"
  {
    if names != [] {
      QuoteEachJoins("(", names);
      var folded := QuoteEach("(", names);
      assert folded[..|folded| - 1] == "(" + Joined(names);
    }
  }

  /** Quotes are not escaped, so two different name lists can give the same clause. */
  lemma UnescapedQuotesCollide()
    ensures WhereClause(["a','b"]) == WhereClause(["a", "b"]) == "('a','b')"
  {
    WhereClauseShape(["a','b"]);
    WhereClauseShape(["a", "b"]);
    assert ["a", "b"][1..] == ["b"];
  }

  /** A kind's query template: the text before the clause and the text after it. */
  datatype Template = Template(opening: string, closing: string)

  /** The query template of each kind `generateSoql` knows, and `None` for any other kind. */
  function TemplateOf(metadata: string): Option<Template> {
    if metadata == "report" then
      Some(Template("SELECT Id, DeveloperName, LastRunDate FROM Report WHERE DeveloperName IN \n\n",
                    "\n\nORDER BY LastRunDate DESC"))
    else if metadata == "dashboard" then
      Some(Template("SELECT Id, DeveloperName, LastViewedDate FROM Dashboard WHERE DeveloperName IN \n\n",
                    "\n\nORDER BY LastViewedDate DESC"))
    else None
  }

  /** The kinds with a template are exactly the supported kinds. */
  lemma TemplateOfSupported(metadata: string)
    ensures TemplateOf(metadata).Some? <==> metadata in MetadataSupport
  {
  }

  /** Every template's opening text is non-empty, so a query built from it is never empty. */
  lemma OpeningNonEmpty(metadata: string)
    ensures TemplateOf(metadata).Some? ==> |TemplateOf(metadata).value.opening| > 0
  {
  }

  /** The text of a kind's query before the clause (empty for a kind without a template). */
  function Opening(metadata: string): string {
    match TemplateOf(metadata)
    case Some(t) => t.opening
    case None => ""
  }

  /** The text of a kind's query after the clause (empty for a kind without a template). */
  function Closing(metadata: string): string {
    match TemplateOf(metadata)
    case Some(t) => t.closing
    case None => ""
  }

  /** Reads the clause back out of a query of a supported kind. */
  function ClauseOf(query: string, metadata: string): Option<string> {
    var head, tail := Opening(metadata), Closing(metadata);
    if metadata in MetadataSupport && StartsWith(query, head) && |head| + |tail| <= |query| && EndsWith(query, tail)
    then Some(query[|head|..|query| - |tail|])
    else None
  }

  lemma FrameRoundTrip(head: string, clause: string, tail: string)
    ensures StartsWith(head + clause + tail, head) && EndsWith(head + clause + tail, tail)
    ensures (head + clause + tail)[|head|..|head + clause + tail| - |tail|] == clause
  {
    var q := head + clause + tail;
    assert q[..|head|] == head;
    assert q[|q| - |tail|..] == tail;
  }

  /**
   * `generateSoql(filesNamesForSoql, metadata)`: fails exactly for a kind without a
   * template, and otherwise returns a longer query from which the clause reads back
   * unchanged.
   */
  function GenerateSoql(clause: string, metadata: string): (r: Result<string, Error>)
    ensures r.Success? <==> metadata in MetadataSupport
    ensures r.Failure? ==> r.error == UnsupportedKind(metadata)
    ensures r.Success? ==> ClauseOf(r.value, metadata) == Some(clause)
    ensures r.Success? ==> |r.value| > |clause|
  {
    var soql :=
      match TemplateOf(metadata)
      case Some(t) => t.opening + clause + t.closing
      case None => "";
    TemplateOfSupported(metadata);
    OpeningNonEmpty(metadata);
    FrameRoundTrip(Opening(metadata), clause, Closing(metadata));
    if soql == "" then Failure(UnsupportedKind(metadata)) else Success(soql)
  }

  /** A successful query is the kind's opening text, the clause and the kind's closing text. */
  lemma SoqlShape(clause: string, metadata: string)
    requires metadata in MetadataSupport
    ensures GenerateSoql(clause, metadata) == Success(Opening(metadata) + clause + Closing(metadata))
  {
  }
}
