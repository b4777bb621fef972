/**
 * Start-up database configuration (app.py): the DATABASE_URL setting is
 * stripped, an empty value counts as unset, and a `postgres://` scheme is
 * rewritten to `postgresql://`. Whether a session factory exists decides
 * whether the broadcast routes are registered and whether a request can get
 * a session.
 */
module DatabaseConfig {
  import opened Wrappers

  /** Python's `str.isspace` for one character: exactly what `str.strip()` removes. */
  predicate IsSpace(c: char) {
    || ('\t' <= c <= '\r')
    || ('\U{1C}' <= c <= '\U{1F}')
    || c == ' ' || c == '\U{85}' || c == '\U{A0}' || c == '\U{1680}'
    || ('\U{2000}' <= c <= '\U{200A}')
    || c == '\U{2028}' || c == '\U{2029}' || c == '\U{202F}' || c == '\U{205F}' || c == '\U{3000}'
  }

  /** Neither the first nor the last character of `s` is whitespace. */
  predicate Trimmed(s: string) {
    s == [] || (!IsSpace(s[0]) && !IsSpace(s[|s| - 1]))
  }

  /** `r` is `s[i..j]`, and everything before `i` and from `j` on is whitespace. */
  ghost predicate CutAt(s: string, r: string, i: int, j: int) {
    && 0 <= i <= j <= |s|
    && r == s[i..j]
    && (forall k :: 0 <= k < i ==> IsSpace(s[k]))
    && (forall k :: j <= k < |s| ==> IsSpace(s[k]))
  }

  /** `r` is `s` with its leading and trailing whitespace removed. */
  ghost predicate IsStripOf(s: string, r: string) {
    Trimmed(r) && exists i, j :: CutAt(s, r, i, j)
  }

  /** `s.lstrip()`. */
  function TrimStart(s: string): (r: string)
    ensures |r| <= |s| && r == s[|s| - |r|..]
    ensures forall k :: 0 <= k < |s| - |r| ==> IsSpace(s[k])
    ensures r == [] || !IsSpace(r[0])
  {
    if s != [] && IsSpace(s[0]) then TrimStart(s[1..]) else s
  }

  /** `s.rstrip()`. */
  function TrimEnd(s: string): (r: string)
    ensures |r| <= |s| && r == s[..|r|]
    ensures forall k :: |r| <= k < |s| ==> IsSpace(s[k])
    ensures r == [] || !IsSpace(r[|r| - 1])
  {
    if s != [] && IsSpace(s[|s| - 1]) then TrimEnd(s[..|s| - 1]) else s
  }

  /** `s.strip()`. */
  function Strip(s: string): (r: string)
    ensures IsStripOf(s, r)
  {
    var t := TrimStart(s);
    var r := TrimEnd(t);
    TrimBothCut(s, t, r);
    r
  }

  /** Trimming the start and then the end cuts `s` at the positions `CutAt` describes. */
  lemma TrimBothCut(s: string, t: string, r: string)
    requires |t| <= |s| && t == s[|s| - |t|..]
    requires forall k :: 0 <= k < |s| - |t| ==> IsSpace(s[k])
    requires |r| <= |t| && r == t[..|r|]
    requires forall k :: |r| <= k < |t| ==> IsSpace(t[k])
    ensures CutAt(s, r, |s| - |t|, |s| - |t| + |r|)
  {
  }

  /** There is only one way to strip a string, so `IsStripOf` specifies `Strip` completely. */
  lemma StripUnique(s: string, r1: string, r2: string)
    requires IsStripOf(s, r1) && IsStripOf(s, r2)
    ensures r1 == r2
  {
  }

  /** Whitespace around a trimmed string is exactly what stripping removes. */
  lemma StripSurrounded(before: string, core: string, after: string)
    requires forall k :: 0 <= k < |before| ==> IsSpace(before[k])
    requires forall k :: 0 <= k < |after| ==> IsSpace(after[k])
    requires Trimmed(core)
    ensures Strip(before + core + after) == core
  {
    var s := before + core + after;
    assert CutAt(s, core, |before|, |before| + |core|);
    StripUnique(s, Strip(s), core);
  }

  /** A string of whitespace only strips to the empty string. */
  lemma StripBlank(s: string)
    requires forall k :: 0 <= k < |s| ==> IsSpace(s[k])
    ensures Strip(s) == ""
  {
  }

  /** Stripping an already stripped string changes nothing. */
  lemma StripIdempotent(s: string)
    ensures Strip(Strip(s)) == Strip(s)
  {
  }

  predicate StartsWith(s: string, prefix: string) {
    |prefix| <= |s| && s[..|prefix|] == prefix
  }

  /** `pattern` occurs in `s` starting at position `i`. */
  predicate OccursAt(s: string, pattern: string, i: int) {
    0 <= i && i + |pattern| <= |s| && s[i..i + |pattern|] == pattern
  }

  /** No occurrence of `pattern` in `s` starts before position `i`. */
  predicate NoneBefore(s: string, pattern: string, i: int) {
    forall j :: 0 <= j < i ==> !OccursAt(s, pattern, j)
  }

  /** The first occurrence of `pattern` in `s` starts at `i`. */
  predicate FirstAt(s: string, pattern: string, i: int) {
    OccursAt(s, pattern, i) && NoneBefore(s, pattern, i)
  }

  /** `s.replace(pattern, replacement, 1)`: only the first occurrence is replaced. */
  function ReplaceFirst(s: string, pattern: string, replacement: string): (r: string)
    requires pattern != []
    ensures NoneBefore(s, pattern, |s|) ==> r == s
    ensures forall i :: FirstAt(s, pattern, i) ==> r == s[..i] + replacement + s[i + |pattern|..]
    decreases |s|
  {
    if |s| < |pattern| then s
    else if s[..|pattern|] == pattern then
      assert FirstAt(s, pattern, 0);
      assert forall i :: FirstAt(s, pattern, i) ==> i == 0;
      replacement + s[|pattern|..]
    else
      var rest := ReplaceFirst(s[1..], pattern, replacement);
      assert !OccursAt(s, pattern, 0);
      assert NoneBefore(s, pattern, |s|) ==> [s[0]] + rest == s by {
        if NoneBefore(s, pattern, |s|) {
          NoneBeforeShift(s, pattern, |s|);
        }
      }
      assert forall i :: FirstAt(s, pattern, i) ==> [s[0]] + rest == s[..i] + replacement + s[i + |pattern|..] by {
        forall i | FirstAt(s, pattern, i)
          ensures [s[0]] + rest == s[..i] + replacement + s[i + |pattern|..]
        {
          NoneBeforeShift(s, pattern, i);
          OccursAtShift(s, pattern, i);
          assert FirstAt(s[1..], pattern, i - 1);
          SpliceAfterHead(s, replacement, i, |pattern|);
        }
      }
      [s[0]] + rest
  }

  /** An occurrence past position 0 is an occurrence in the tail, one position earlier. */
  lemma OccursAtShift(s: string, pattern: string, i: int)
    requires s != [] && 1 <= i
    ensures OccursAt(s, pattern, i) <==> OccursAt(s[1..], pattern, i - 1)
  {
  }

  /** With no occurrence at 0, "none before `i`" in `s` is "none before `i - 1`" in the tail. */
  lemma NoneBeforeShift(s: string, pattern: string, i: int)
    requires s != [] && 1 <= i && !OccursAt(s, pattern, 0)
    ensures NoneBefore(s, pattern, i) <==> NoneBefore(s[1..], pattern, i - 1)
  {
    forall j | 1 <= j < i
      ensures OccursAt(s, pattern, j) <==> OccursAt(s[1..], pattern, j - 1)
    {
      OccursAtShift(s, pattern, j);
    }
    if NoneBefore(s[1..], pattern, i - 1) {
      forall j | 0 <= j < i
        ensures !OccursAt(s, pattern, j)
      {
        if j > 0 {
          assert !OccursAt(s[1..], pattern, j - 1);
        }
      }
    }
    if NoneBefore(s, pattern, i) {
      forall j | 0 <= j < i - 1
        ensures !OccursAt(s[1..], pattern, j)
      {
        assert !OccursAt(s, pattern, j + 1);
      }
    }
  }

  /** Splicing at position `i` of `s` is keeping the head and splicing at `i - 1` of the tail. */
  lemma SpliceAfterHead(s: string, replacement: string, i: int, n: nat)
    requires 1 <= i && i + n <= |s|
    ensures [s[0]] + (s[1..][..i - 1] + replacement + s[1..][i - 1 + n..]) == s[..i] + replacement + s[i + n..]
  {
  }

  const LegacyScheme := "postgres://"
  const Scheme := "postgresql://"

  /** A string without surrounding whitespace is its own strip. */
  lemma StripTrimmed(s: string)
    requires Trimmed(s)
    ensures Strip(s) == s
  {
  }

  /** The rewritten URL keeps the trimmed ends and no longer starts with the legacy scheme. */
  lemma RewriteKeepsTrimmed(url: string)
    requires Trimmed(url) && StartsWith(url, LegacyScheme)
    ensures Trimmed(Scheme + url[|LegacyScheme|..])
    ensures !StartsWith(Scheme + url[|LegacyScheme|..], LegacyScheme)
  {
    var u := Scheme + url[|LegacyScheme|..];
    assert u[0] == 'p';
    if |url| > |LegacyScheme| {
      assert u[|u| - 1] == url[|url| - 1];
    } else {
      assert u[|u| - 1] == '/';
    }
    assert u[..|LegacyScheme|][8] == 'q' != LegacyScheme[8];
  }

  /**
   * The value of DATABASE_URL the engine is built from, or None when the
   * setting is unset, empty, or only whitespace.
   */
  function NormalizeDatabaseUrl(raw: Option<string>): (r: Option<string>)
    ensures r.None? <==> raw.None? || Strip(raw.value) == ""
    ensures raw.Some? && r.Some? && StartsWith(Strip(raw.value), LegacyScheme) ==>
              r.value == Scheme + Strip(raw.value)[|LegacyScheme|..]
    ensures raw.Some? && r.Some? && !StartsWith(Strip(raw.value), LegacyScheme) ==>
              r.value == Strip(raw.value)
    ensures r.Some? ==> !StartsWith(r.value, LegacyScheme)
    ensures r.Some? ==> r.value != "" && Trimmed(r.value)
  {
    if raw.None? || raw.value == "" then
      if raw.Some? then
        StripBlank(raw.value);
        None
      else None
    else
      var url := Strip(raw.value);
      if url == "" then None
      else if StartsWith(url, LegacyScheme) then
        assert FirstAt(url, LegacyScheme, 0);
        RewriteKeepsTrimmed(url);
        Some(ReplaceFirst(url, LegacyScheme, Scheme))
      else Some(url)
  }

  /** Normalising a normalised URL changes nothing. */
  lemma NormalizeIdempotent(raw: Option<string>)
    ensures NormalizeDatabaseUrl(NormalizeDatabaseUrl(raw)) == NormalizeDatabaseUrl(raw)
  {
  }

  /** A session factory: `sessionmaker` bound to an engine built from `url`. */
  datatype SessionFactory = SessionFactory(url: string)

  /**
   * The factory the application starts with. Building the engine and the
   * schema is a collaborator: `engineStarts(url)` says whether
   * `create_engine` and `create_all` succeed for `url`.
   */
  function ConfigureDatabase(raw: Option<string>, engineStarts: string -> bool): (f: Option<SessionFactory>)
    ensures f.Some? <==> NormalizeDatabaseUrl(raw).Some? && engineStarts(NormalizeDatabaseUrl(raw).value)
    ensures f.Some? ==> f.value.url == NormalizeDatabaseUrl(raw).value
  {
    match NormalizeDatabaseUrl(raw)
    case None => None
    case Some(url) => if engineStarts(url) then Some(SessionFactory(url)) else None
  }

  /** The broadcast routes are registered only when a factory exists. */
  predicate RoutesRegistered(factory: Option<SessionFactory>) {
    factory.Some?
  }

  const NotConfiguredMsg := "Database not configured. Please set DATABASE_URL environment variable."

  /** What `get_db_session` gives a request: a session, or the `ValueError` it raises. */
  datatype SessionRequest = Session(url: string) | NotConfigured(message: string)

  /** `get_db_session`: a session from the factory, or an error when there is none. */
  function GetDbSession(factory: Option<SessionFactory>): (r: SessionRequest)
    ensures r.Session? <==> RoutesRegistered(factory)
    ensures r.Session? ==> r.url == factory.value.url
    ensures r.NotConfigured? ==> r.message == NotConfiguredMsg
  {
    match factory
    case None => NotConfigured(NotConfiguredMsg)
    case Some(f) => Session(f.url)
  }

  /** An unset or blank DATABASE_URL leaves no factory, no routes, and a failing `get_db_session`. */
  lemma UnsetOrBlankMeansNoDatabase(raw: Option<string>, engineStarts: string -> bool)
    requires raw.None? || forall k :: 0 <= k < |raw.value| ==> IsSpace(raw.value[k])
    ensures ConfigureDatabase(raw, engineStarts).None?
    ensures !RoutesRegistered(ConfigureDatabase(raw, engineStarts))
    ensures GetDbSession(ConfigureDatabase(raw, engineStarts)) == NotConfigured(NotConfiguredMsg)
  {
  }

  /** Whitespace around the setting is removed before the scheme is examined. */
  lemma SurroundingWhitespaceIgnored(before: string, url: string, after: string)
    requires forall k :: 0 <= k < |before| ==> IsSpace(before[k])
    requires forall k :: 0 <= k < |after| ==> IsSpace(after[k])
    requires Trimmed(url)
    ensures NormalizeDatabaseUrl(Some(before + url + after)) == NormalizeDatabaseUrl(Some(url))
  {
    StripSurrounded(before, url, after);
    StripTrimmed(url);
  }
}
