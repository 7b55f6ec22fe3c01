/** The fatal outcomes of the `find` command and the lines it prints for them. */
module Errors {
  import opened Strings

  datatype Error =
    | NoMatches(field: string, metadata: string, strict: bool)
    | UnsupportedKind(metadata: string)

  /** `${strict}` for a boolean. */
  function BoolText(b: bool): string {
    if b then "true" else "false"
  }

  /** The text printed before exiting with status 1. */
  function Message(e: Error): string {
    match e
    case NoMatches(field, metadata, strict) =>
      "\"" + field + "\"" + " is not used in any " + metadata + "s [" + "strict=" + BoolText(strict) + "]"
    case UnsupportedKind(metadata) =>
      metadata + " is not supported"
  }

  /** The no-match message names the quoted field, the kind and the strict flag. */
  lemma NoMatchesMessageNames(field: string, metadata: string, strict: bool)
    ensures Contains(Message(NoMatches(field, metadata, strict)), "\"" + field + "\"")
    ensures Contains(Message(NoMatches(field, metadata, strict)), metadata)
    ensures Contains(Message(NoMatches(field, metadata, strict)), "strict=" + BoolText(strict))
  {
    var m := Message(NoMatches(field, metadata, strict));
    var quoted := "\"" + field + "\"";
    var middle := " is not used in any ";
    var flag := "strict=" + BoolText(strict);
    assert m == quoted + middle + metadata + "s [" + flag + "]";
    assert OccursAt(m, quoted, 0);
    var at := |quoted + middle|;
    assert m[at..at + |metadata|] == metadata;
    assert OccursAt(m, metadata, at);
    var at' := |quoted + middle + metadata + "s ["|;
    assert m[at'..at' + |flag|] == flag;
    assert OccursAt(m, flag, at');
  }

  /** The unsupported-kind message starts with the kind. */
  lemma UnsupportedMessageNames(metadata: string)
    ensures StartsWith(Message(UnsupportedKind(metadata)), metadata)
  {
    var m := Message(UnsupportedKind(metadata));
    assert m[..|metadata|] == metadata;
  }
}
