/** The write path after the operations are built (`applyRandomMutations`): operations are
    submitted in order and, once the session has drained, the first pending row error, if
    any, fails the call. */
module BatchApply {
  import opened Wrappers
  import opened KuduClient
  import opened Errors

  const StatusPrefix: string := "Kudu output error '"
  const OperationPrefix: string := " during operation '"
  const ServerPrefix: string := " at tablet server '"

  /** The message built from a row error: its status, its operation and the tablet server
      that rejected it, each in single quotes. */
  function RowErrorMessage(e: RowError): string {
    StatusPrefix + e.errorStatus + "'" + OperationPrefix + e.operation + "'" + ServerPrefix + e.tsUuid + "'"
  }

  /** The call's outcome once the session has drained with `pending` row errors. */
  function DrainOutcome(pending: seq<RowError>): Outcome<Error> {
    if |pending| > 0 then Fail(OutputError(RowErrorMessage(pending[0]))) else Pass
  }

  /** The call fails exactly when some error is pending, reporting the first one only:
      whatever follows it is neither reported nor changes the outcome. */
  lemma FirstErrorWins(pending: seq<RowError>, later: seq<RowError>)
    ensures DrainOutcome(pending).Pass? <==> |pending| == 0
    ensures |pending| > 0 ==>
      DrainOutcome(pending + later) == DrainOutcome(pending) == DrainOutcome([pending[0]])
      && DrainOutcome(pending).error == OutputError(RowErrorMessage(pending[0]))
  {
    if |pending| > 0 {
      assert (pending + later)[0] == pending[0];
    }
  }

  /** The text before the first single quote, and the text after it. */
  function SplitAtQuote(s: string): Option<(string, string)> {
    if |s| == 0 then None
    else if s[0] == '\'' then Some(([], s[1..]))
    else
      var parts :- SplitAtQuote(s[1..]);
      Some(([s[0]] + parts.0, parts.1))
  }

  lemma {:induction false} SplitAtQuoteOf(a: string, b: string)
    requires '\'' !in a
    ensures SplitAtQuote(a + "'" + b) == Some((a, b))
  {
    if |a| == 0 {
      assert a + "'" + b == "'" + b;
    } else {
      assert (a + "'" + b)[1..] == a[1..] + "'" + b;
      SplitAtQuoteOf(a[1..], b);
      assert [a[0]] + a[1..] == a;
    }
  }

  /** What follows `prefix` in `s`, if `s` starts with it. */
  function AfterPrefix(s: string, prefix: string): Option<string> {
    if |prefix| <= |s| && s[..|prefix|] == prefix then Some(s[|prefix|..]) else None
  }

  lemma AfterPrefixOf(prefix: string, rest: string)
    ensures AfterPrefix(prefix + rest, prefix) == Some(rest)
  {
    assert (prefix + rest)[..|prefix|] == prefix;
    assert (prefix + rest)[|prefix|..] == rest;
  }

  /** `s` without its closing single quote, if it ends with one. */
  function BeforeClosingQuote(s: string): Option<string> {
    if |s| > 0 && s[|s| - 1] == '\'' then Some(s[..|s| - 1]) else None
  }

  /** Reads the three fields back out of a row-error message. */
  function ParseRowErrorMessage(m: string): Option<RowError> {
    var afterStatusPrefix :- AfterPrefix(m, StatusPrefix);
    var status :- SplitAtQuote(afterStatusPrefix);
    var afterOperationPrefix :- AfterPrefix(status.1, OperationPrefix);
    var operation :- SplitAtQuote(afterOperationPrefix);
    var afterServerPrefix :- AfterPrefix(operation.1, ServerPrefix);
    var server :- BeforeClosingQuote(afterServerPrefix);
    Some(RowError(status.0, operation.0, server))
  }

  /** The message format loses nothing: when the status and the operation description
      contain no single quote, the three fields can be read back from the message. */
  lemma RowErrorMessageParses(e: RowError)
    requires '\'' !in e.errorStatus && '\'' !in e.operation
    ensures ParseRowErrorMessage(RowErrorMessage(e)) == Some(e)
  {
    var serverPart := e.tsUuid + "'";
    var operationPart := e.operation + "'" + (ServerPrefix + serverPart);
    var statusPart := e.errorStatus + "'" + (OperationPrefix + operationPart);
    assert RowErrorMessage(e) == StatusPrefix + statusPart;
    AfterPrefixOf(StatusPrefix, statusPart);
    SplitAtQuoteOf(e.errorStatus, OperationPrefix + operationPart);
    AfterPrefixOf(OperationPrefix, operationPart);
    SplitAtQuoteOf(e.operation, ServerPrefix + serverPart);
    AfterPrefixOf(ServerPrefix, serverPart);
    assert BeforeClosingQuote(serverPart) == Some(e.tsUuid);
  }

  /** The session operations are submitted to, as far as the output sees it. */
  class Session {
    var submitted: seq<Operation>

    constructor ()
      ensures submitted == []
    {
      submitted := [];
    }

    /** `session.apply(operation)`. */
    method Apply(op: Operation)
      modifies this
      ensures submitted == old(submitted) + [op]
    {
      submitted := submitted + [op];
    }
  }
}
