/** src/asset_cache.py, the three name patterns. Python's `$` also matches before
    one final newline, so each accepts a name with or without it. */
module CacheNames {
  import opened Common
  import opened Patterns

  predicate Letter(c: char) { 'A' <= c <= 'Z' || 'a' <= c <= 'z' }

  predicate Digit(c: char) { '0' <= c <= '9' }

  predicate Alnum(c: char) { Letter(c) || Digit(c) }

  predicate SlugChar(c: char) { Alnum(c) || c == '_' || c == '-' }

  predicate Hex(c: char) { Digit(c) || 'a' <= c <= 'f' }

  predicate AllOf(s: string, p: char -> bool) {
    forall i :: 0 <= i < |s| ==> p(s[i])
  }

  /** What `$` leaves out of account. */
  function Chomp(s: string): string {
    if s != "" && s[|s| - 1] == '\n' then s[..|s| - 1] else s
  }

  predicate Slug(s: string) {
    s != "" && Alnum(s[0]) && AllOf(s[1..], SlugChar)
  }

  /** `^[A-Za-z0-9][A-Za-z0-9_-]*$` */
  predicate SubdirName(s: string) {
    Slug(s) || Slug(Chomp(s))
  }

  /** `^[A-Za-z0-9][A-Za-z0-9_-]{0,63}$` */
  predicate ProjectId(s: string) {
    (Slug(s) && |s| <= 64) || (Slug(Chomp(s)) && |Chomp(s)| <= 64)
  }

  predicate Extension(s: string) {
    |s| >= 2 && s[0] == '.' && AllOf(s[1..], Alnum)
  }

  const ANNOTATIONS := "-annotations"

  predicate Key(s: string) {
    && |s| >= 32
    && AllOf(s[..32], Hex)
    && (|| Extension(s[32..])
        || (&& |s| >= 32 + |ANNOTATIONS|
            && s[32..][..|ANNOTATIONS|] == ANNOTATIONS
            && Extension(s[32..][|ANNOTATIONS|..])))
  }

  /** `^[0-9a-f]{32}(?:-annotations)?\.[A-Za-z0-9]+$` */
  predicate CacheFilename(s: string) {
    Key(s) || Key(Chomp(s))
  }

  /** The name `harvest` copies to before it renames. */
  function TempName(name: string, unique: string): string {
    "." + name + ".tmp-" + unique
  }

  const SLUG_CHARS := Patterns.Run(ALNUM_DASHES, 0, None)
  const SUBDIR_NAME := Then(OneOf(ALNUM), SLUG_CHARS)
  const PROJECT_ID := Then(OneOf(ALNUM), Patterns.Run(ALNUM_DASHES, 0, Some(63)))
  const EXTENSION := Then(Text("."), Patterns.Run(ALNUM, 1, None))
  const CACHE_FILENAME :=
    Then(Patterns.Run(HEX, 32, Some(32)), Then(Maybe(Text(ANNOTATIONS)), EXTENSION))

  lemma SlugIsTheGrammar(s: string)
    ensures Slug(s) <==> Matches(SUBDIR_NAME, s)
    ensures Slug(s) && |s| <= 64 <==> Matches(PROJECT_ID, s)
  {
    forall c: char ensures (In(c, ALNUM) <==> Alnum(c)) && (In(c, ALNUM_DASHES) <==> SlugChar(c)) { Classes(c); }
    SplitAt(OneOf(ALNUM), SLUG_CHARS, s, 1);
    SplitAt(OneOf(ALNUM), Patterns.Run(ALNUM_DASHES, 0, Some(63)), s, 1);
  }

  /** The test of a subdirectory's name is its pattern's. */
  lemma SubdirNameIsTheGrammar(s: string)
    ensures SubdirName(s) <==> MatchesToEnd(SUBDIR_NAME, s)
  {
    SlugIsTheGrammar(s);
    SlugIsTheGrammar(Chomp(s));
  }

  /** And that of a project id. */
  lemma ProjectIdIsTheGrammar(s: string)
    ensures ProjectId(s) <==> MatchesToEnd(PROJECT_ID, s)
  {
    SlugIsTheGrammar(s);
    SlugIsTheGrammar(Chomp(s));
  }

  lemma ExtensionIsTheGrammar(s: string)
    ensures Extension(s) <==> Matches(EXTENSION, s)
  {
    forall c: char ensures In(c, ALNUM) <==> Alnum(c) { Classes(c); }
    SplitAt(Text("."), Patterns.Run(ALNUM, 1, None), s, 1);
    if s != "" { assert s[..1] == [s[0]]; }
  }

  lemma TailIsTheGrammar(s: string)
    ensures Matches(Then(Maybe(Text(ANNOTATIONS)), EXTENSION), s) <==>
            Extension(s) || (|ANNOTATIONS| <= |s| && s[..|ANNOTATIONS|] == ANNOTATIONS && Extension(s[|ANNOTATIONS|..]))
  {
    OptionFirst(ANNOTATIONS, EXTENSION, s);
    hide Extension, Matches;
    ExtensionIsTheGrammar(s);
    if |ANNOTATIONS| <= |s| { ExtensionIsTheGrammar(s[|ANNOTATIONS|..]); }
  }

  lemma KeyIsTheGrammar(s: string)
    ensures Key(s) <==> Matches(CACHE_FILENAME, s)
  {
    forall c: char ensures In(c, HEX) <==> Hex(c) { Classes(c); }
    SplitAt(Patterns.Run(HEX, 32, Some(32)), Then(Maybe(Text(ANNOTATIONS)), EXTENSION), s, 32);
    if |s| >= 32 { TailIsTheGrammar(s[32..]); }
  }

  /** The test of a cache file's name is its pattern's. */
  lemma CacheFilenameIsTheGrammar(s: string)
    ensures CacheFilename(s) <==> MatchesToEnd(CACHE_FILENAME, s)
  {
    KeyIsTheGrammar(s);
    KeyIsTheGrammar(Chomp(s));
  }

  /** A subdirectory name has neither a dot nor a separator. */
  lemma SubdirNameIsPlain(s: string)
    requires SubdirName(s)
    ensures '.' !in s && '/' !in s && s != ""
  {
  }

  /** A cache file name has a dot, and not in front. */
  lemma CacheFilenameShape(s: string)
    requires CacheFilename(s)
    ensures '.' in s && s != "" && s[0] != '.'
  {
  }

  /** So a half-written temporary file never passes for a cache file, nor a
      directory made on the way for one. */
  lemma TempNameIsNoCacheFile(name: string, unique: string)
    ensures !CacheFilename(TempName(name, unique)) && !SubdirName(TempName(name, unique))
  {
    var t := TempName(name, unique);
    assert t[0] == '.' && t[0] in t;
    if CacheFilename(t) { CacheFilenameShape(t); }
    if SubdirName(t) { SubdirNameIsPlain(t); }
  }

  lemma SubdirIsNoCacheFile(s: string)
    requires SubdirName(s)
    ensures !CacheFilename(s)
  {
    SubdirNameIsPlain(s);
    if CacheFilename(s) { CacheFilenameShape(s); }
  }

  /** An accepted project id is one path component: it cannot climb or nest. */
  lemma ProjectIdIsOneComponent(s: string)
    requires ProjectId(s)
    ensures s != "" && s != "." && s != ".." && '/' !in s && s[0] != '.'
  {
  }
}
