/** The line level of the POP3 session: how a received line becomes a command
    and its parameters, and how every reply is terminated with CRLF. */
module Wire {
  import opened Py

  const CRLF: string := "\r\n"

  predicate EndsWithCrlf(s: string) {
    |s| >= 2 && s[|s| - 2..] == CRLF
  }

  /** `_rwrite`: send `message`, adding CRLF unless it already ends with one. */
  function RWrite(message: string): (r: string)
    ensures EndsWithCrlf(r)
    ensures message <= r && |r| <= |message| + 2
    ensures EndsWithCrlf(message) <==> r == message
    ensures !EndsWithCrlf(message) ==> r == message + CRLF
  {
    if EndsWithCrlf(message) then message else message + CRLF
  }

  /** `_write`: a reply line is its text followed by exactly one CRLF. */
  function Write(line: string): (r: string)
    ensures EndsWithCrlf(r)
    ensures |r| == |line| + 2 && r[..|line|] == line
  {
    RWrite(line + CRLF)
  }

  /** Writing the same text twice through `_rwrite` adds nothing the second time. */
  lemma RWriteIdempotent(message: string)
    ensures RWrite(RWrite(message)) == RWrite(message)
  {
  }

  /** A command line as the session loop sees it: `parts[0]` and `parts[1:]`. */
  datatype CommandLine = CommandLine(command: string, params: seq<string>)

  /** The line with trailing whitespace removed, split on single spaces. */
  function Parse(line: string): (r: CommandLine)
    ensures Join(" ", [r.command] + r.params) == RStrip(line)
    ensures ' ' !in r.command
    ensures forall i :: 0 <= i < |r.params| ==> ' ' !in r.params[i]
  {
    var parts := Split(RStrip(line), ' ');
    CommandLine(parts[0], parts[1..])
  }

  /** Parsing recovers the command and parameters of any line built from them,
      whatever trailing whitespace follows. */
  lemma {:induction false} ParseFormat(command: string, params: seq<string>, trailer: string)
    requires ' ' !in command && forall i :: 0 <= i < |params| ==> ' ' !in params[i]
    requires var fields := [command] + params; |Join(" ", fields)| > 0 ==> !IsSpace(Join(" ", fields)[|Join(" ", fields)| - 1])
    requires forall i :: 0 <= i < |trailer| ==> IsSpace(trailer[i])
    ensures Parse(Join(" ", [command] + params) + trailer) == CommandLine(command, params)
  {
    var fields := [command] + params;
    var text := Join(" ", fields);
    TrimEndTrailer(text, trailer, IsSpace);
    assert forall i :: 0 <= i < |fields| ==> ' ' !in fields[i] by {
      forall i | 0 <= i < |fields| ensures ' ' !in fields[i] {
        if i > 0 { assert fields[i] == params[i - 1]; }
      }
    }
    SplitJoin(fields, ' ');
    assert fields[1..] == params;
  }

  const Greeting: string := Write("+OK POP3 server ready")

  /** The reply to CAPA: a status line, five capabilities and the terminator. */
  const Capabilities: seq<string> := [
    Write("+OK Capability list follows"),
    Write("USER"),
    Write("LOGIN-DELAY 900"),
    Write("EXPIRE NEVER"),
    Write("UIDL"),
    Write("TOP"),
    Write(".")
  ]
}
