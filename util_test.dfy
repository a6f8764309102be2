/**
 * util/util_test.go: the table of TestParseURL, run against the model of
 * ParseURL. The test reports a row only when BOTH parts differ from the
 * expected ones (`server != test.server && key != test.key`).
 */
module UtilTest {
  import opened Util

  datatype TestRow = TestRow(title: string, url: string, server: string, key: string)

  const Rows: seq<TestRow> := [
    TestRow("No URL", "abcdef", "", ""),
    TestRow("No HTTP URL", "ftp://hastebin/abcdef", "", ""),
    TestRow("URL without path", "https://hastebin", "", ""),
    TestRow("URL with empty path", "https://hastebin/", "", ""),
    TestRow("URL with long path", "https://hastebin/path/abcdef", "", ""),
    TestRow("HTTP URL with path", "http://hastebin/abcdef", "http://hastebin", "abcdef"),
    TestRow("HTTPS URL with path", "https://hastebin/abcdef", "https://hastebin", "abcdef"),
    TestRow("Valid URL with query", "https://hastebin/abcdef?q=s", "https://hastebin", "abcdef"),
    TestRow("Valid URL with language-specific key", "https://hastebin/abcdef.yaml", "https://hastebin", "abcdef.yaml")
  ]

  /** The test's failure condition for one row. */
  predicate Reported(row: TestRow) {
    var (server, key) := ParseURL(row.url);
    server != row.server && key != row.key
  }

  lemma {:induction false} HastebinServerParts()
    ensures IsServerPart("https://hastebin")
    ensures IsServerPart("http://hastebin")
    ensures IsServerPart("ftp://hastebin")
  {
    var https, http, ftp := "https://hastebin", "http://hastebin", "ftp://hastebin";
    assert SlashSlashAt(https, 6) && forall p :: 0 <= p < 6 ==> !SlashSlashAt(https, p);
    assert SlashSlashAt(http, 5) && forall p :: 0 <= p < 5 ==> !SlashSlashAt(http, p);
    assert SlashSlashAt(ftp, 4) && forall p :: 0 <= p < 4 ==> !SlashSlashAt(ftp, p);
  }

  /** The eight rows without '?' or '$' give ("", ""), the three that expect a URL included. */
  lemma {:induction false} ParseURLOnRowsWithoutTerminator(url: string)
    requires url in {"abcdef", "ftp://hastebin/abcdef", "https://hastebin", "https://hastebin/",
                     "https://hastebin/path/abcdef", "http://hastebin/abcdef", "https://hastebin/abcdef",
                     "https://hastebin/abcdef.yaml"}
    ensures ParseURL(url) == ("", "")
  {
    ParseURLWithoutTerminator(url);
  }

  /** The row with a query string matches, and the query is cut off at the '?'. */
  lemma {:induction false} ParseURLOnRowWithQuery(url: string)
    requires url == "https://hastebin" + "/" + "abcdef" + ['?'] + "q=s"
    ensures ParseURL(url) == ("https://hastebin", "abcdef")
  {
    HastebinServerParts();
    ParseURLBuild("https://hastebin", "abcdef", '?', "q=s");
  }

  /**
   * The test reports exactly the rows "HTTP URL with path", "HTTPS URL with
   * path" and "Valid URL with language-specific key" (indices 5, 6 and 8):
   * with `[\?$]` read as a character class, an input without '?' or '$'
   * never matches.
   */
  lemma {:induction false} ReportedTestRows(n: nat)
    requires n < |Rows|
    ensures Reported(Rows[n]) <==> n in {5, 6, 8}
  {
    var row := Rows[n];
    if n == 7 {
      assert row.url == "https://hastebin" + "/" + "abcdef" + ['?'] + "q=s";
      ParseURLOnRowWithQuery(row.url);
    } else {
      ParseURLOnRowsWithoutTerminator(row.url);
    }
  }

  /** The scheme is never checked. */
  lemma {:induction false} ParseURLAnyScheme()
    ensures ParseURL("ftp://hastebin" + "/" + "abcdef" + ['?'] + "x") == ("ftp://hastebin", "abcdef")
  {
    HastebinServerParts();
    ParseURLBuild("ftp://hastebin", "abcdef", '?', "x");
  }

  /** Once a query follows, the key may span several path segments. */
  lemma {:induction false} ParseURLLongPathWithQuery()
    ensures ParseURL("https://hastebin" + "/" + "path/abcdef" + ['?'] + "q=s") == ("https://hastebin", "path/abcdef")
  {
    HastebinServerParts();
    ParseURLBuild("https://hastebin", "path/abcdef", '?', "q=s");
  }

  /** The key group may be empty: a '$' right after the slash still matches. */
  lemma {:induction false} ParseURLEmptyKey()
    ensures ParseURL("http://hastebin" + "/" + "" + ['$'] + "") == ("http://hastebin", "")
  {
    HastebinServerParts();
    ParseURLBuild("http://hastebin", "", '$', "");
  }
}
