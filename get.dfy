/**
 * cmd/get.go: the `get` command. Its Run picks the output, sets it up, then
 * decides between the configured server with the raw argument as the key and
 * the server and key parsed from a URL, before handing over to the retrieval.
 */
module Cmd {
  import opened Wrappers
  import opened Util
  import Client
  import opened Server

  /**
   * cmd/get.go:41-48 as a value: the server to ask and the key to ask for.
   * Only the URL of the configured record may change, and only to a parsed
   * server part; otherwise the raw argument is the key.
   */
  function Resolve(arg: string, configured: HasteServer): (r: (HasteServer, string))
    ensures r.0 == configured.(URL := r.0.URL)
    ensures r.1 == "" <==> arg == ""
    ensures r == (configured, arg) || (IsServerPart(r.0.URL) && IsKeyPart(r.1))
  {
    ParseURLParts(arg);
    var (serverURL, key) := ParseURL(arg);
    if serverURL == "" || key == "" then (configured, arg)
    else (configured.(URL := serverURL), key)
  }

  /** Fallback: when either parsed part is empty, the configured server and the raw argument are used. */
  lemma ResolveFallback(arg: string, configured: HasteServer)
    requires ParseURL(arg).0 == "" || ParseURL(arg).1 == ""
    ensures Resolve(arg, configured) == (configured, arg)
  {
  }

  /** Override: when both parsed parts are non-empty, they replace the URL and the key. */
  lemma ResolveOverride(arg: string, configured: HasteServer)
    requires ParseURL(arg).0 != "" && ParseURL(arg).1 != ""
    ensures Resolve(arg, configured) == (configured.(URL := ParseURL(arg).0), ParseURL(arg).1)
  {
  }

  /** An argument with neither '?' nor '$' is always taken as a bare key. */
  lemma {:induction false} ResolveBareKey(arg: string, configured: HasteServer)
    requires forall q :: 0 <= q < |arg| ==> !IsTerminator(arg[q])
    ensures Resolve(arg, configured) == (configured, arg)
  {
    ParseURLWithoutTerminator(arg);
  }

  /**
   * A URL built from a server part, a non-empty key part and a terminator
   * overrides the server with that server part and yields that key.
   */
  lemma {:induction false} ResolveURL(server: string, key: string, t: char, rest: string, configured: HasteServer)
    requires IsServerPart(server) && IsKeyPart(key) && key != "" && IsTerminator(t)
    ensures Resolve(server + "/" + key + [t] + rest, configured) == (configured.(URL := server), key)
  {
    ParseURLBuild(server, key, t, rest);
  }

  /**
   * On a newline-free argument, an overriding resolution means the argument
   * begins with URL + "/" + key followed by '?' or '$'.
   */
  lemma {:induction false} ResolveOverridePrefix(arg: string, configured: HasteServer)
    requires forall q :: 0 <= q < |arg| ==> arg[q] != '\n'
    ensures var (server, key) := Resolve(arg, configured);
      (server, key) == (configured, arg) || StartsWithURL(arg, server.URL, key)
  {
    ParseURLPrefix(arg);
    var (serverURL, key) := ParseURL(arg);
    if serverURL == "" || key == "" {
      ResolveFallback(arg, configured);
    } else {
      ResolveOverride(arg, configured);
    }
  }

  /** Resolving the resolved key against the resolved server changes nothing. */
  lemma {:induction false} ResolveIdempotent(arg: string, configured: HasteServer)
    ensures var (server, key) := Resolve(arg, configured);
      Resolve(key, server) == (server, key)
  {
    var (server, key) := Resolve(arg, configured);
    if (server, key) != (configured, arg) {
      ResolveBareKey(key, server);
    }
  }

  /** What one run of `get` amounts to: an exit with a message, or a retrieval to perform. */
  datatype GetOutcome<H> = Exit(code: int, stderr: string) | Retrieve(key: string, server: HasteServer, output: H)

  /** cmd/get.go:28-33: the path of the `out` flag, or "" when the command has no such flag. */
  function OutPath(outFlag: Option<string>): (p: string)
    ensures outFlag.Some? ==> p == outFlag.value
    ensures p == "" <==> outFlag.None? || outFlag.value == ""
  {
    if outFlag.None? then "" else outFlag.value
  }

  /**
   * cmd/get.go:24-50, up to the retrieval: the output is set up first, and a
   * setup error ends the run with exit code 1 and the message on stderr
   * whatever the argument; otherwise the argument is resolved and the
   * retrieval is handed the resolved key, server and output.
   */
  method Run<H>(outFlag: Option<string>, arg: string, configured: HasteServer,
                fileOpener: Client.FileOpener<H>, stdout: H) returns (outcome: GetOutcome<H>)
    ensures outcome.Exit? <==>
      OutPath(outFlag) != "" && fileOpener.openFile(OutPath(outFlag), Client.O_CREATE, Client.MODE_PERM).Error?
    ensures outcome.Exit? ==>
      outcome == Exit(1, Client.CreateOutputPrefix +
                         fileOpener.openFile(OutPath(outFlag), Client.O_CREATE, Client.MODE_PERM).message + "\n")
    ensures outcome.Retrieve? ==> (outcome.server, outcome.key) == Resolve(arg, configured)
    ensures outcome.Retrieve? && OutPath(outFlag) == "" ==> outcome.output == stdout
    ensures outcome.Retrieve? && OutPath(outFlag) != "" ==>
      Client.File(outcome.output) == fileOpener.openFile(OutPath(outFlag), Client.O_CREATE, Client.MODE_PERM)
  {
    var filepath: string;
    if outFlag.None? {
      filepath := "";
    } else {
      filepath := outFlag.value;
    }

    var setup := Client.SetupGetOutput(filepath, fileOpener, stdout);
    if setup.err.Some? {
      return Exit(1, setup.err.value + "\n");
    }
    var output := setup.stream.value;

    var server := configured;
    var serverURL, key := ParseURL(arg).0, ParseURL(arg).1;
    if serverURL == "" || key == "" {
      key := arg;
    } else {
      server := server.(URL := serverURL);
    }

    return Retrieve(key, server, output);
  }
}
