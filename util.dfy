/**
 * util/util.go: ParseURL and the regular expression it is built on.
 *
 * The Go code compiles `(.*?//.*?)/(.*?)[\?$]` and calls FindStringSubmatch.
 * Go's regexp package reports the leftmost match and, among the matches that
 * start there, the one a backtracking matcher would reach first (leftmost-first
 * semantics). Every quantifier here is lazy, so the backtracking order tries
 * the shortest pieces first: the chosen match is the lexicographically least
 * tuple (start, position of "//", position of the '/' after the host,
 * position of the terminator) among all matches.
 *
 * Pieces of the pattern:
 *   - `.` without the `s` flag matches every character except '\n';
 *   - `[\?$]` is a character class: a literal '?' or a literal '$' (not the
 *     end-of-input anchor);
 *   - nothing checks the scheme, and the key piece may contain '/'.
 *
 * Strings are sequences of characters; the pattern's literals are all ASCII,
 * so positions in characters correspond to the byte positions Go uses.
 */
module Util {
  import opened Wrappers

  /** `[\?$]` */
  predicate IsTerminator(c: char) {
    c == '?' || c == '$'
  }

  /** `.*?` matches w[lo..hi]: a run of characters none of which is a newline. */
  predicate Dots(w: string, lo: int, hi: int) {
    0 <= lo <= hi <= |w| && forall p :: lo <= p < hi ==> w[p] != '\n'
  }

  /** `.*?//` matches w[s..i+2]: dots from s, then "//" at i. */
  predicate SepAt(w: string, s: int, i: int) {
    Dots(w, s, i) && i + 1 < |w| && w[i] == '/' && w[i + 1] == '/'
  }

  /** `.*?/` matches w[h..j+1]: dots from h, then '/' at j. */
  predicate SlashAt(w: string, h: int, j: int) {
    Dots(w, h, j) && j < |w| && w[j] == '/'
  }

  /** `.*?[\?$]` matches w[p..k+1]: dots from p, then a terminator at k. */
  predicate TermAt(w: string, p: int, k: int) {
    Dots(w, p, k) && k < |w| && IsTerminator(w[k])
  }

  /** After the "//" at i, the host runs up to the '/' at j. */
  predicate HostAt(w: string, i: int, j: int) {
    SlashAt(w, i + 2, j)
  }

  /** After the '/' at j, the key runs up to the terminator at k. */
  predicate KeyAt(w: string, j: int, k: int) {
    TermAt(w, j + 1, k)
  }

  /** The whole pattern matches w[s..k+1], with "//" at i and the host ending at the '/' at j. */
  predicate MatchAt(w: string, s: int, i: int, j: int, k: int) {
    SepAt(w, s, i) && HostAt(w, i, j) && KeyAt(w, j, k)
  }

  ghost predicate HasMatch(w: string) {
    exists s, i, j, k :: MatchAt(w, s, i, j, k)
  }

  /** The positions that delimit a match: its start, the "//", the '/' after the host, the terminator. */
  datatype Span = Span(start: nat, sep: nat, slash: nat, term: nat)

  /** The order in which a backtracking matcher with lazy quantifiers meets matches. */
  predicate LexLe(a: Span, b: Span) {
    a.start < b.start ||
    (a.start == b.start &&
      (a.sep < b.sep ||
        (a.sep == b.sep &&
          (a.slash < b.slash || (a.slash == b.slash && a.term <= b.term)))))
  }

  /** sp delimits a match, and no match comes before it in backtracking order. */
  ghost predicate LeftmostFirst(w: string, sp: Span) {
    MatchAt(w, sp.start, sp.sep, sp.slash, sp.term) &&
    forall s, i, j, k :: MatchAt(w, s, i, j, k) ==> LexLe(sp, Span(s, i, j, k))
  }

  /** The lazy key group from p: extend one character at a time until a terminator. */
  function FindTerm(w: string, p: nat): (r: Option<nat>)
    ensures r.Some? ==> TermAt(w, p, r.value)
    ensures forall k :: TermAt(w, p, k) ==> r.Some? && r.value <= k
    decreases |w| - p
  {
    if p >= |w| || w[p] == '\n' then None
    else if IsTerminator(w[p]) then Some(p)
    else
      assert forall k :: TermAt(w, p, k) ==> TermAt(w, p + 1, k);
      FindTerm(w, p + 1)
  }

  /** The lazy host group from h: stop at the first '/' after which the key group can succeed. */
  function FindSlash(w: string, h: nat): (r: Option<nat>)
    ensures r.Some? ==> SlashAt(w, h, r.value) && FindTerm(w, r.value + 1).Some?
    ensures forall j, k :: SlashAt(w, h, j) && KeyAt(w, j, k) ==> r.Some? && r.value <= j
    decreases |w| - h
  {
    if h >= |w| || w[h] == '\n' then None
    else if w[h] == '/' && FindTerm(w, h + 1).Some? then Some(h)
    else
      assert forall j :: SlashAt(w, h, j) && j != h ==> SlashAt(w, h + 1, j);
      FindSlash(w, h + 1)
  }

  /** The lazy scheme group from s: stop at the first "//" after which the rest can succeed. */
  function FindSep(w: string, s: nat): (r: Option<nat>)
    ensures r.Some? ==> SepAt(w, s, r.value) && FindSlash(w, r.value + 2).Some?
    ensures forall i, j, k :: SepAt(w, s, i) && HostAt(w, i, j) && KeyAt(w, j, k) ==> r.Some? && r.value <= i
    decreases |w| - s
  {
    if s + 1 >= |w| || w[s] == '\n' then None
    else if w[s] == '/' && w[s + 1] == '/' && FindSlash(w, s + 2).Some? then Some(s)
    else
      var r := FindSep(w, s + 1);
      SepStep(w, s, r);
      r
  }

  /** A "//" at s that the rest cannot follow leaves the search from s + 1 in charge. */
  lemma SepStep(w: string, s: nat, r: Option<nat>)
    requires s + 1 < |w| && w[s] != '\n'
    requires forall j, k :: HostAt(w, s, j) && KeyAt(w, j, k) ==> w[s] != '/' || w[s + 1] != '/'
    requires r.Some? ==> SepAt(w, s + 1, r.value)
    requires forall i, j, k :: SepAt(w, s + 1, i) && HostAt(w, i, j) && KeyAt(w, j, k) ==> r.Some? && r.value <= i
    ensures r.Some? ==> SepAt(w, s, r.value)
    ensures forall i, j, k :: SepAt(w, s, i) && HostAt(w, i, j) && KeyAt(w, j, k) ==> r.Some? && r.value <= i
  {
    assert forall i :: SepAt(w, s, i) && i != s ==> SepAt(w, s + 1, i);
  }

  /** An unanchored search tries the start positions from left to right. */
  function FindStart(w: string, s: nat): (r: Option<nat>)
    ensures r.Some? ==> s <= r.value && FindSep(w, r.value).Some?
    ensures forall s', i, j, k :: s <= s' && MatchAt(w, s', i, j, k) ==> r.Some? && r.value <= s'
    decreases |w| - s
  {
    if s >= |w| then None
    else if FindSep(w, s).Some? then Some(s)
    else FindStart(w, s + 1)
  }

  /** The match Go's regexp reports: a match, and the least one in backtracking order. */
  function Find(w: string): (r: Option<Span>)
    ensures r.Some? ==> LeftmostFirst(w, r.value)
    ensures r.None? <==> !HasMatch(w)
  {
    match FindStart(w, 0)
    case None => None
    case Some(s) =>
      var i := FindSep(w, s).value;
      var j := FindSlash(w, i + 2).value;
      var k := FindTerm(w, j + 1).value;
      FoundIsLeast(w, s, i, j, k);
      Some(Span(s, i, j, k))
  }

  /** The four lazy searches, run in turn, meet no match before the one they find. */
  lemma FoundIsLeast(w: string, s: nat, i: nat, j: nat, k: nat)
    requires forall s', i', j', k' :: MatchAt(w, s', i', j', k') ==> s <= s'
    requires forall i', j', k' :: SepAt(w, s, i') && HostAt(w, i', j') && KeyAt(w, j', k') ==> i <= i'
    requires forall j', k' :: HostAt(w, i, j') && KeyAt(w, j', k') ==> j <= j'
    requires forall k' :: KeyAt(w, j, k') ==> k <= k'
    ensures forall s', i', j', k' :: MatchAt(w, s', i', j', k') ==> LexLe(Span(s, i, j, k), Span(s', i', j', k'))
  {
    forall s', i', j', k' | MatchAt(w, s', i', j', k')
      ensures LexLe(Span(s, i, j, k), Span(s', i', j', k'))
    {
      if s' == s && i' == i && j' == j {
        assert KeyAt(w, j, k');
      } else if s' == s && i' == i {
        assert HostAt(w, i, j') && KeyAt(w, j', k');
      } else if s' == s {
        assert SepAt(w, s, i') && HostAt(w, i', j') && KeyAt(w, j', k');
      }
    }
  }

  /** FindStringSubmatch: empty when nothing matches, otherwise the whole match and the two groups. */
  function FindStringSubmatch(w: string): (m: seq<string>)
    ensures |m| == 0 <==> !HasMatch(w)
    ensures |m| == 0 || |m| == 3
  {
    match Find(w)
    case None => []
    case Some(sp) => [w[sp.start..sp.term + 1], w[sp.start..sp.slash], w[sp.slash + 1..sp.term]]
  }

  /**
   * util/util.go:6-16. The pair (server, key) is the two groups of the match,
   * or ("", "") when nothing matches; the server group always holds "//", so a
   * failed match is recognisable from an empty server alone.
   */
  function ParseURL(possibleURL: string): (r: (string, string))
    ensures r == ("", "") <==> !HasMatch(possibleURL)
    ensures r.0 == "" ==> r.1 == ""
  {
    var m := FindStringSubmatch(possibleURL);
    if |m| < 3 then ("", "") else (m[1], m[2])
  }

  /** "//" starts at position n of t. */
  predicate SlashSlashAt(t: string, n: int) {
    0 <= n && n + 1 < |t| && t[n] == '/' && t[n + 1] == '/'
  }

  /**
   * What a server part looks like: no newline, a first "//" at some n, and no
   * '/' after that "//" (the host ends at the first slash).
   */
  ghost predicate IsServerPart(t: string) {
    (forall q :: 0 <= q < |t| ==> t[q] != '\n') &&
    exists n ::
      SlashSlashAt(t, n) &&
      (forall p :: 0 <= p < n ==> !SlashSlashAt(t, p)) &&
      (forall q :: n + 2 <= q < |t| ==> t[q] != '/')
  }

  /** What a key part looks like: no newline, no '?' and no '$' ('/' is allowed). */
  predicate IsKeyPart(t: string) {
    forall q :: 0 <= q < |t| ==> t[q] != '\n' && !IsTerminator(t[q])
  }

  /** Without a '?' or a '$' there is nothing for `[\?$]` to match. */
  lemma ParseURLWithoutTerminator(w: string)
    requires forall q :: 0 <= q < |w| ==> !IsTerminator(w[q])
    ensures ParseURL(w) == ("", "")
  {
  }

  /**
   * The parts of the reported match: the server's first "//" is followed by a
   * slash-free host, and the key holds neither terminator, because each lazy
   * group stops as early as it can.
   */
  lemma {:induction false} LeftmostFirstParts(w: string, sp: Span)
    requires LeftmostFirst(w, sp)
    ensures IsServerPart(w[sp.start..sp.slash]) && IsKeyPart(w[sp.slash + 1..sp.term])
  {
    var s, i, j, k := sp.start, sp.sep, sp.slash, sp.term;
    var server, key := w[s..j], w[j + 1..k];
    var n := i - s;
    assert SlashSlashAt(server, n);
    forall p | 0 <= p < n ensures !SlashSlashAt(server, p) {
      if SlashSlashAt(server, p) {
        assert MatchAt(w, s, s + p, j, k);
      }
    }
    forall q | n + 2 <= q < |server| ensures server[q] != '/' {
      if server[q] == '/' {
        assert MatchAt(w, s, i, s + q, k);
      }
    }
    forall q | 0 <= q < |key| ensures key[q] != '\n' && !IsTerminator(key[q]) {
      if IsTerminator(key[q]) {
        assert MatchAt(w, s, i, j, j + 1 + q);
      }
    }
  }

  /** The reported match begins at the start of the input or just after a newline. */
  lemma {:induction false} LeftmostFirstStartsLine(w: string, sp: Span)
    requires LeftmostFirst(w, sp)
    ensures sp.start == 0 || w[sp.start - 1] == '\n'
  {
    if sp.start > 0 && w[sp.start - 1] != '\n' {
      assert MatchAt(w, sp.start - 1, sp.sep, sp.slash, sp.term);
    }
  }

  /** ParseURL reads its two parts off the reported match. */
  lemma ParseURLOfFind(w: string)
    ensures Find(w).None? ==> ParseURL(w) == ("", "")
    ensures Find(w).Some? ==>
      ParseURL(w) == (w[Find(w).value.start..Find(w).value.slash], w[Find(w).value.slash + 1..Find(w).value.term])
  {
  }

  /**
   * The three entries are the whole leftmost-first match, its first group (up
   * to the slash after the host) and its second group (up to the terminator).
   */
  lemma FindStringSubmatchOfLeftmostFirst(w: string, sp: Span)
    requires LeftmostFirst(w, sp)
    ensures FindStringSubmatch(w) == [w[sp.start..sp.term + 1], w[sp.start..sp.slash], w[sp.slash + 1..sp.term]]
  {
    assert MatchAt(w, sp.start, sp.sep, sp.slash, sp.term);
    var f := Find(w);
    LeftmostFirstUnique(w, f.value, sp);
    FindStringSubmatchOfFind(w);
  }

  /** FindStringSubmatch reads its entries off the reported match. */
  lemma FindStringSubmatchOfFind(w: string)
    ensures Find(w).Some? ==>
      var sp := Find(w).value;
      FindStringSubmatch(w) == [w[sp.start..sp.term + 1], w[sp.start..sp.slash], w[sp.slash + 1..sp.term]]
  {
  }

  /** At most one match is leftmost-first. */
  lemma LeftmostFirstUnique(w: string, a: Span, b: Span)
    requires LeftmostFirst(w, a) && LeftmostFirst(w, b)
    ensures a == b
  {
    assert LexLe(a, b) && LexLe(b, a);
  }

  /** The leftmost-first match, whichever way it was found, determines ParseURL. */
  lemma ParseURLOfLeftmostFirst(w: string, sp: Span, server: string, key: string)
    requires LeftmostFirst(w, sp)
    requires server == w[sp.start..sp.slash] && key == w[sp.slash + 1..sp.term]
    ensures ParseURL(w) == (server, key)
  {
    FindStringSubmatchOfLeftmostFirst(w, sp);
  }

  /**
   * Every successful parse yields a server with its first "//" followed by a
   * slash-free host, and a key with neither terminator nor newline.
   */
  lemma ParseURLParts(w: string)
    ensures ParseURL(w) == ("", "") || (IsServerPart(ParseURL(w).0) && IsKeyPart(ParseURL(w).1))
  {
    ParseURLOfFind(w);
    if Find(w).Some? {
      LeftmostFirstParts(w, Find(w).value);
    }
  }

  /**
   * On input without a newline, a successful parse means the input begins with
   * server + "/" + key, followed by a '?' or a '$'.
   */
  lemma ParseURLPrefix(w: string)
    requires forall q :: 0 <= q < |w| ==> w[q] != '\n'
    ensures ParseURL(w).0 == "" || StartsWithURL(w, ParseURL(w).0, ParseURL(w).1)
  {
    if HasMatch(w) {
      var sp := Find(w).value;
      LeftmostFirstPrefix(w, sp);
      ParseURLOfLeftmostFirst(w, sp, w[sp.start..sp.slash], w[sp.slash + 1..sp.term]);
    }
  }

  /** On input without a newline, the leftmost-first match starts the input. */
  lemma LeftmostFirstPrefix(w: string, sp: Span)
    requires forall q :: 0 <= q < |w| ==> w[q] != '\n'
    requires LeftmostFirst(w, sp)
    ensures StartsWithURL(w, w[sp.start..sp.slash], w[sp.slash + 1..sp.term])
  {
    LeftmostFirstStartsLine(w, sp);
    assert w[sp.start..sp.slash] == w[..sp.slash];
    SplitAtSlash(w, sp.slash, sp.term);
  }

  /** w begins with server + "/" + key, and a '?' or a '$' comes next. */
  predicate StartsWithURL(w: string, server: string, key: string) {
    |server| + 1 + |key| < |w| &&
    w[..|server| + 1 + |key|] == server + "/" + key &&
    IsTerminator(w[|server| + 1 + |key|])
  }

  /** A prefix that has a '/' at j is the text before it, the slash, and the text after it. */
  lemma SplitAtSlash(w: string, j: nat, k: nat)
    requires j < k < |w| && w[j] == '/' && IsTerminator(w[k])
    ensures StartsWithURL(w, w[..j], w[j + 1..k])
  {
    assert w[..k] == w[..j] + "/" + w[j + 1..k];
  }

  /** server + "/" + key + [t] + rest, for a server part, a key part and a terminator, matches at (0, n, |server|, ...). */
  lemma BuiltIsLeftmostFirst(server: string, n: nat, key: string, t: char, rest: string)
    requires SlashSlashAt(server, n)
    requires forall p :: 0 <= p < n ==> !SlashSlashAt(server, p)
    requires forall q :: 0 <= q < |server| ==> server[q] != '\n'
    requires forall q :: n + 2 <= q < |server| ==> server[q] != '/'
    requires IsKeyPart(key) && IsTerminator(t)
    ensures LeftmostFirst(server + "/" + key + [t] + rest, Span(0, n, |server|, |server| + 1 + |key|))
  {
    var w := server + "/" + key + [t] + rest;
    var js, ks := |server|, |server| + 1 + |key|;
    assert MatchAt(w, 0, n, js, ks);
    forall s, i, j, k | MatchAt(w, s, i, j, k) ensures LexLe(Span(0, n, js, ks), Span(s, i, j, k)) {
      if s == 0 {
        assert i >= n by {
          if i < n {
            assert SlashSlashAt(server, i);
          }
        }
        if i == n {
          assert j >= js;
          if j == js {
            assert k >= ks;
          }
        }
      }
    }
  }

  /**
   * Building: a server part, a '/', a key part and a terminator parse back to
   * that server and key, whatever follows the terminator.
   */
  lemma ParseURLBuild(server: string, key: string, t: char, rest: string)
    requires IsServerPart(server) && IsKeyPart(key) && IsTerminator(t)
    ensures ParseURL(server + "/" + key + [t] + rest) == (server, key)
  {
    var w := server + "/" + key + [t] + rest;
    var n :| SlashSlashAt(server, n) &&
      (forall p :: 0 <= p < n ==> !SlashSlashAt(server, p)) &&
      (forall q :: n + 2 <= q < |server| ==> server[q] != '/');
    var sp := Span(0, n, |server|, |server| + 1 + |key|);
    BuiltIsLeftmostFirst(server, n, key, t, rest);
    BuiltSlices(server, key, t, rest);
    ParseURLOfLeftmostFirst(w, sp, server, key);
  }

  lemma BuiltSlices(server: string, key: string, t: char, rest: string)
    ensures var w := server + "/" + key + [t] + rest;
      w[0..|server|] == server && w[|server| + 1..|server| + 1 + |key|] == key
  {
    var w := server + "/" + key + [t] + rest;
    assert w[0..|server|] == server;
    assert w[|server| + 1..|server| + 1 + |key|] == key;
  }

  /**
   * Round trip: rebuilding "server/key" with a terminator and parsing it again
   * gives the same pair.
   */
  lemma ParseURLRoundTrip(w: string, t: char)
    requires IsTerminator(t)
    ensures var (server, key) := ParseURL(w);
      server == "" || ParseURL(server + "/" + key + [t]) == (server, key)
  {
    ParseURLParts(w);
    var (server, key) := ParseURL(w);
    if server != "" {
      ParseURLBuild(server, key, t, "");
      assert server + "/" + key + [t] + "" == server + "/" + key + [t];
    }
  }
}
