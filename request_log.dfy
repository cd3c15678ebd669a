/** The bundled server's request-logging middleware: which requests are logged and how long a line may be. */
module RequestLog {
  import opened Wrappers
  import opened Text

  const MaxLineLength := 80

  /** A line longer than the limit keeps its first 79 characters and ends in an ellipsis. */
  function Truncate(line: string): (r: string)
    ensures |r| <= MaxLineLength
    ensures |line| <= MaxLineLength ==> r == line
    ensures |line| > MaxLineLength ==>
      |r| == MaxLineLength && r[..MaxLineLength - 1] == line[..MaxLineLength - 1] && r[MaxLineLength - 1] == '\U{2026}'
  {
    if |line| > MaxLineLength then line[..MaxLineLength - 1] + "\U{2026}" else line
  }

  /** Truncating a logged line again changes nothing. */
  lemma TruncateIdempotent(line: string)
    ensures Truncate(Truncate(line)) == Truncate(line)
  {
  }

  /** The line before truncation; `body` is the serialised JSON response, None when nothing truthy was sent. */
  function RawLine(verb: string, path: string, status: nat, durationMs: nat, body: Option<string>): string {
    verb + " " + path + " " + NatToString(status) + " in " + NatToString(durationMs) + "ms"
    + (if body.Some? then " :: " + body.value else "")
  }

  /** The `finish` handler: only `/api` requests produce a line, and it is at most 80 characters. */
  method FormatLogLine(verb: string, path: string, status: nat, durationMs: nat, body: Option<string>)
    returns (line: Option<string>)
    ensures !StartsWith(path, "/api") ==> line == None
    ensures StartsWith(path, "/api") ==> line == Some(Truncate(RawLine(verb, path, status, durationMs, body)))
    ensures line.Some? ==> |line.value| <= MaxLineLength && StartsWith(line.value, (verb + " " + path)[..Min(|verb| + 1 + |path|, MaxLineLength - 1)])
  {
    if !StartsWith(path, "/api") {
      return None;
    }
    var logLine := verb + " " + path + " " + NatToString(status) + " in " + NatToString(durationMs) + "ms";
    if body.Some? {
      logLine := logLine + " :: " + body.value;
    }
    assert logLine == RawLine(verb, path, status, durationMs, body);
    if |logLine| > MaxLineLength {
      logLine := logLine[..MaxLineLength - 1] + "\U{2026}";
    }
    line := Some(logLine);
  }

  function Min(a: int, b: int): int { if a < b then a else b }
}
