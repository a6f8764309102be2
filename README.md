# haste-client-go: the decision logic of the hastebin client, in Dafny

haste-client-go is a command-line client for a hastebin paste service. `haste get <key or URL>`
fetches a paste. `haste [file]` uploads one. Almost all of the program is HTTP, TLS and
command-line glue. This project models the small deterministic decisions in between:

- **`ParseURL`** (util/util.go) splits a possible paste URL into a server and a key, or returns
  `("", "")`. It is one Go regular expression, `(.*?//.*?)/(.*?)[\?$]`, used with
  `FindStringSubmatch`. Module `Util` models the matcher itself. A chain of lazy searches tries
  start positions, then the `//`, then the `/` after the host, then the terminator, in the order a
  backtracking matcher would. Its contract says the reported match is the least match in that
  order. That is Go's leftmost-first rule. The pattern's details are kept exactly:
  - `[\?$]` is a character class, a literal `?` or `$`, not an end-of-input anchor;
  - `.` does not match a newline;
  - the scheme is never looked at.
- **Resolution in `get`** (cmd/get.go). `Cmd.Resolve` is the block that keeps the configured server
  and uses the raw argument as the key, or replaces the server URL with the parsed one.
  `Cmd.Run` is the command's `Run` up to the retrieval: it picks the output path, sets up the
  output, aborts on a setup error, then resolves.
- **`CanProvideClientCertificate`** (config/config.go). A certificate is presented only when both
  paths are set.
- **`SetupGetOutput` / `SetupCreateInput`** (client/client_setup.go). Each picks stdout or stdin
  for an empty path, or else a file from the injected opener, and wraps opener errors with a fixed
  prefix. The opener is a pair of total functions, so the test doubles of
  client/client_setup_test.go are ordinary values.

Modules: `Wrappers` (Option), `Util`, `UtilTest` (the table of util/util_test.go), `Config`,
`Server` (the `HasteServer` record), `Client`, `Cmd`.

The source's types become these datatypes:

- `Config.Config` is the configuration record of config/config.go:4-8.
- `Server.HasteServer` is the server record that `get` fills in and overrides (cmd/get.go:25-26,
  47). Its fields are the ones server/server_test.go:43-48 sets.
- `Client.FileOpener` is the `FileOpener` interface of client/client_setup.go:9-13. Its two methods
  become two function fields, and `Client.Opened` stands for their `(*os.File, error)` result.
- `Cmd.GetOutcome` is how one run of `get` ends: an exit with a message, or the retrieval to perform.

### Where the code and its tests part ways

The model follows the code in every case below.

- The table in util/util_test.go:12-20 expects `ftp://hastebin/abcdef` (line 13) and
  `https://hastebin/path/abcdef` (line 16) to give `("", "")`. They do, but only because neither
  has a `?` or a `$` (`Util.ParseURLWithoutTerminator`). With a query:
  - any scheme matches (`UtilTest.ParseURLAnyScheme`);
  - a nested path becomes the key (`UtilTest.ParseURLLongPathWithQuery`).
- The help text of `get` asks for the complete URL, "protocol required!" (cmd/get.go:19-20). The
  pattern only needs a `//` after any text, an empty scheme included (`Util.ParseURLBuild` accepts
  every server part).
- The same table expects a match for `http://hastebin/abcdef`, `https://hastebin/abcdef` and
  `https://hastebin/abcdef.yaml` (lines 17, 18 and 20). Without a `?` or a `$` the pattern never
  matches, so these three rows get `("", "")`. The test's `&&` reports a row only when both parts
  differ, and these three rows do. `UtilTest.ReportedTestRows` proves these are exactly the rows
  the test reports.
- `server/key` parses back only with `?` or `$` appended (`Util.ParseURLRoundTrip`).
- The key may be empty: `http://hastebin/$` matches (`UtilTest.ParseURLEmptyKey`).
- One certificate path alone means no certificate, not an error
  (`Config.NoCertificateUnlessBothPaths`).

## Model

| member | source | states |
|---|---|---|
| `Util.FindTerm` | util/util.go:7 | The lazy key group and `[\?$]`: the result is a terminator reached over newline-free text, and no earlier terminator is reachable; None exactly when none is. |
| `Util.FindSlash` | util/util.go:7 | The lazy host group: the result is the first `/` reached over newline-free text after which the key group succeeds, and every such `/` lies at or after it. |
| `Util.FindSep` | util/util.go:7 | The lazy group before `//`: the result is the first `//` after which host and key succeed, and every complete continuation starts at or after it. |
| `Util.FindStart` | util/util.go:7-8 | Unanchored search: the result is the first start position from which the pattern matches, and every match starts at or after it. |
| `Util.Find` | util/util.go:7-8 | The reported span is a match, and it is the least match in backtracking order (leftmost, then shortest lazy groups). None exactly when the input has no match. |
| `Util.FindStringSubmatch` | util/util.go:8 | Empty exactly when nothing matches, otherwise three entries. |
| `Util.FindStringSubmatchOfLeftmostFirst` | util/util.go:8 | For the leftmost-first match, the entries are the whole match, the first group (start to the slash after the host) and the second group (after that slash up to the terminator). |
| `Util.ParseURL` | util/util.go:6-16 | `("", "")` exactly when the pattern does not match. An empty server part implies an empty key, so the server alone tells a failed match. |
| `Util.ParseURLOfFind` | util/util.go:8-15 | `ParseURL` gives `("", "")` when no match is reported, and otherwise entries 1 and 2 of the reported match: the text before the slash after the host, and the text after it up to the terminator. |
| `Util.ParseURLOfLeftmostFirst` | util/util.go:6-16 | For any leftmost-first match of the input, `ParseURL` returns its two groups: server from the match start to the slash after the host, key from after that slash to the terminator. |
| `Util.ParseURLWithoutTerminator` | util/util.go:7-13 | An input containing neither `?` nor `$` gives `("", "")`. |
| `Util.LeftmostFirstParts` | util/util.go:7 | In the leftmost-first match, the server's first `//` is followed by a host without `/`, and the key holds no `?`, `$` or newline. |
| `Util.LeftmostFirstStartsLine` | util/util.go:7 | The leftmost-first match begins at the start of the input or right after a newline. |
| `Util.ParseURLParts` | util/util.go:7-15 | Every result is `("", "")` or a server part (contains `//`, no `/` after its first `//`, no newline) with a key part (no `?`, `$`, newline). |
| `Util.LeftmostFirstPrefix` | util/util.go:7 | On newline-free input, the leftmost-first match's server and key, joined by "/", begin the input, and a `?` or `$` follows them. |
| `Util.ParseURLPrefix` | util/util.go:7-15 | On newline-free input, a successful parse means the input begins with server + "/" + key and the next character is `?` or `$`. |
| `Util.BuiltIsLeftmostFirst` | util/util.go:7 | For server + "/" + key + terminator + rest, the span from position 0, through the first `//` and the slash after the server, to the terminator, is the leftmost-first match. |
| `Util.ParseURLBuild` | util/util.go:6-16 | Any server part, "/", key part, terminator and arbitrary rest parses back to exactly that server and key: the query is cut at the first terminator. |
| `Util.ParseURLRoundTrip` | util/util.go:6-16 | Re-parsing server + "/" + key + a terminator gives the same pair back. |
| `UtilTest.ParseURLOnRowsWithoutTerminator` | util/util_test.go:12-20 | The eight table inputs without `?` or `$` give `("", "")`, including the three rows that expect a URL. |
| `UtilTest.ParseURLOnRowWithQuery` | util/util_test.go:19 | `https://hastebin/abcdef?q=s` gives `("https://hastebin", "abcdef")`. |
| `UtilTest.ReportedTestRows` | util/util_test.go:23-29 | Under the test's `&&` comparison, exactly rows 5, 6 and 8 of the table (source lines 17, 18, 20) are reported. |
| `UtilTest.ParseURLAnyScheme` | util/util.go:7 | An `ftp://` URL with a query matches: the scheme is never checked. |
| `UtilTest.ParseURLLongPathWithQuery` | util/util.go:7 | With a query, `https://hastebin/path/abcdef` yields the key `path/abcdef`. |
| `UtilTest.ParseURLEmptyKey` | util/util.go:7 | `http://hastebin/$` matches with an empty key. |
| `Config.CanProvideClientCertificate` | config/config.go:11-13 | True exactly when both the certificate path and the key path are non-empty. |
| `Config.NoCertificateUnlessBothPaths` | config/config.go:12 | Exactly one path set, or none, gives false: no certificate, not an error. |
| `Config.CertificateIgnoresServer` | config/config.go:4-13 | The decision does not depend on the `Server` field. |
| `Client.SetupGetOutput` | client/client_setup.go:29-41 | Exactly one of stream and error is present. An empty path gives stdout, whatever the opener. Otherwise the result is the file opened with O_CREATE and ModePerm, or no stream and `"Error creating output file: " + message`. |
| `Client.SetupCreateInput` | client/client_setup.go:44-55 | Exactly one of stream and error is present. An empty path gives stdin, whatever the opener. Otherwise the result is the file opened for reading, or no stream and `"Error reading input file: " + message`. |
| `Client.SetupErrorsCarryCause` | client/client_setup.go:34-51 | A setup error starts with its function's fixed prefix, and stripping the prefix gives back the opener's own message. |
| `Client.FakeFileOpener` | client/client_setup_test.go:9-28 | The test double gives its error when it has one and its file otherwise, for both kinds of call. |
| `Client.SetupTestCases` | client/client_setup_test.go:30-113 | The six test cases: stdout/stdin for an empty path with any opener, the wrapped "Expected error", and the fake's file returned as is. |
| `Cmd.Resolve` | cmd/get.go:41-48 | Only the server URL may change. The key is empty exactly when the argument is. The result is the configured server with the raw argument, or a server part with a key part. |
| `Cmd.ResolveFallback` | cmd/get.go:41-44 | If either parsed part is empty, the configured server is kept and the raw argument is the key. |
| `Cmd.ResolveOverride` | cmd/get.go:45-47 | If both parsed parts are non-empty, the URL becomes the parsed server and the key the parsed key. |
| `Cmd.ResolveBareKey` | cmd/get.go:41-44 | An argument without `?` or `$` always falls back to the configured server and the raw key. |
| `Cmd.ResolveURL` | cmd/get.go:41-47 | A server part + "/" + non-empty key part + terminator (+ anything) overrides the URL with that server and yields that key. |
| `Cmd.ResolveOverridePrefix` | cmd/get.go:41-47 | On a newline-free argument, an override means the argument begins with URL + "/" + key, followed by `?` or `$`. |
| `Cmd.ResolveIdempotent` | cmd/get.go:41-48 | Resolving the resolved key against the resolved server gives the same server and key again. |
| `Cmd.OutPath` | cmd/get.go:28-33 | The path is the `out` flag's value when the command has the flag, and empty otherwise; it is empty exactly when there is no flag or its value is empty. |
| `Cmd.Run` | cmd/get.go:24-50 | The run exits with code 1 and the wrapped error plus a newline on stderr exactly when an output path is set and opening it fails, whatever the argument. Otherwise it retrieves with the resolved server and key, into stdout when no path is set or into the opened file. |

## Left out

- server/server.go `Get`, `Create` and `prepareClientForTLS`: an HTTP client, `crypto/tls` key
  loading and JSON decoding, all foreign library calls. That file also refers to
  `config.GetConfig`, `config.CreateConfig` and `config.HasteConfig`, which config/config.go does
  not define.
- client/client.go `Get`: network input/output ending in `log.Fatalf` or `os.Exit`. Its
  `CanProvideClientCertificate` (client/client.go:20-22) is the same expression over a record of
  the same shape, so it is modelled once, as `Config.CanProvideClientCertificate`.
- cmd/root.go: command wiring, merging of flags, environment and config file, and `os.Open` of
  the input file.
- The rest of cmd/get.go is command-line plumbing and is not modelled:
  - building the command (`NewGetCommand`, `initGetCommand`);
  - `viper.Unmarshal`, for which the configured server is a parameter of `Cmd.Run`;
  - the call to `client.Get`, with its error exit. `Cmd.Run` ends by returning the retrieval to
    perform.
- `OsFileOpener` (client/client_setup.go:16-26): thin wrappers over `os.OpenFile` and `os.Open`.
- The `KeyPairLoader` field of the server record: `Server.HasteServer` keeps only the URL and the
  two certificate paths.
- Client.SetupGetOutput: an opener that returns neither a file nor an error is not modelled,
  because `Client.Opened` always holds one of the two. In Go, such an opener makes the function
  return a nil `*os.File` with no error.
- Client.SetupCreateInput: the same gap. An `Open` that returns neither a file nor an error makes
  the Go function return a nil `*os.File` with no error, which `Client.Opened` cannot express.
- Client.SetupGetOutput: it passes `os.O_CREATE` alone (client/client_setup.go:34). With the
  access mode `O_RDONLY` (0), the output file is created if missing but opened read-only and not
  truncated, so writing to it would fail. The model passes the flag value to the opener and does
  not model what the file handle then allows. The retrieval that would write to it is not part of
  this model.
- `Client.O_CREATE` is the Linux value of `os.O_CREATE`. The flag's value is platform-dependent in
  Go.
- Util.ParseURL: Go strings are byte strings. The model works on characters. Every literal in the
  pattern is ASCII, so split positions agree for valid UTF-8. Invalid UTF-8 bytes are not modelled.
- Util.Find: only the leftmost-first result of Go's regexp engine is modelled, not its automaton.
- server/server_test.go, client/client_test.go and cmd/root_test.go test an API that the shown
  sources do not define, so no property is drawn from them.
