/** The regular expressions of the source that test whole names, as the language they
    denote: character classes, runs of them, fixed text, options and sequence. */
module Patterns {
  import opened Common

  type Class = seq<(char, char)>

  datatype Pattern =
    | OneOf(class_: Class)                                  // [...]
    | Run(class_: Class, least: nat, most: Option<nat>)     // [...]*, [...]+, [...]{m,n}
    | Text(text: string)
    | Maybe(option: Pattern)                                // (...)?
    | Then(first: Pattern, second: Pattern)

  predicate In(c: char, ranges: Class) {
    exists i :: 0 <= i < |ranges| && ranges[i].0 <= c <= ranges[i].1
  }

  ghost predicate Matches(p: Pattern, s: string) {
    match p
    case OneOf(class_) => |s| == 1 && In(s[0], class_)
    case Run(class_, least, most) =>
      && least <= |s| && (most.Some? ==> |s| <= most.value)
      && forall i :: 0 <= i < |s| ==> In(s[i], class_)
    case Text(text) => s == text
    case Maybe(option) => s == "" || Matches(option, s)
    case Then(first, second) => exists i :: 0 <= i <= |s| && Matches(first, s[..i]) && Matches(second, s[i..])
  }

  /** `^...$` in Python: `$` also matches before one final newline. */
  ghost predicate MatchesToEnd(p: Pattern, s: string) {
    Matches(p, s) || (s != "" && s[|s| - 1] == '\n' && Matches(p, s[..|s| - 1]))
  }

  const ALNUM: Class := [('A', 'Z'), ('a', 'z'), ('0', '9')]
  const ALNUM_DASH: Class := [('A', 'Z'), ('a', 'z'), ('0', '9'), ('-', '-')]
  const ALNUM_DASHES: Class := [('A', 'Z'), ('a', 'z'), ('0', '9'), ('_', '_'), ('-', '-')]
  const HEX: Class := [('0', '9'), ('a', 'f')]

  lemma Classes(c: char)
    ensures In(c, ALNUM) <==> 'A' <= c <= 'Z' || 'a' <= c <= 'z' || '0' <= c <= '9'
    ensures In(c, ALNUM_DASH) <==> In(c, ALNUM) || c == '-'
    ensures In(c, ALNUM_DASHES) <==> In(c, ALNUM) || c == '_' || c == '-'
    ensures In(c, HEX) <==> '0' <= c <= '9' || 'a' <= c <= 'f'
  {
    assert ALNUM[0] == ('A', 'Z') && ALNUM[1] == ('a', 'z') && ALNUM[2] == ('0', '9');
    assert ALNUM_DASH[0] == ('A', 'Z') && ALNUM_DASH[1] == ('a', 'z') && ALNUM_DASH[2] == ('0', '9');
    assert ALNUM_DASH[3] == ('-', '-');
    assert ALNUM_DASHES[0] == ('A', 'Z') && ALNUM_DASHES[1] == ('a', 'z') && ALNUM_DASHES[2] == ('0', '9');
    assert ALNUM_DASHES[3] == ('_', '_') && ALNUM_DASHES[4] == ('-', '-');
    assert HEX[0] == ('0', '9') && HEX[1] == ('a', 'f');
  }

  /** A first part whose matches all have one length is split off there. */
  lemma SplitAt(first: Pattern, second: Pattern, s: string, k: nat)
    requires forall t :: Matches(first, t) ==> |t| == k
    ensures Matches(Then(first, second), s) <==> k <= |s| && Matches(first, s[..k]) && Matches(second, s[k..])
  {
  }

  /** An optional fixed text in front is there or not. */
  lemma OptionFirst(text: string, second: Pattern, s: string)
    ensures Matches(Then(Maybe(Text(text)), second), s) <==>
            Matches(second, s) || (|text| <= |s| && s[..|text|] == text && Matches(second, s[|text|..]))
  {
    var first := Maybe(Text(text));
    assert s[..0] == "" && s[0..] == s;
    forall i | 0 <= i <= |s| ensures Matches(first, s[..i]) <==> i == 0 || s[..i] == text { }
  }
}
