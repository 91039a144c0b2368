/** egress-proxy/entrypoint.sh: compile EGRESS_ALLOW_HOSTS into tinyproxy's filter
    file, one anchored regular expression per host.

    The meaning of a filter line is a matcher for POSIX basic regular expressions
    (section 9.3 of IEEE Std 1003.1-2017, Base Definitions): ordinary characters,
    `.`, `\c`, `*` and the two anchors. A pattern that needs more (a bracket
    expression, a group, an interval, a back-reference) has no parse here. */
module HostFilter {
  import opened Common
  import opened Patterns

  // ---------------------------------------------------------- the host list

  predicate IsSeparator(c: char) {
    c in [',', ' ', '\t', '\n']
  }

  /** `tr ',' ' '` followed by the shell's field splitting. */
  function Words(s: string): (ws: seq<string>)
    ensures forall w :: w in ws ==> w != "" && forall c :: c in w ==> !IsSeparator(c)
  {
    WordsFrom(s, "")
  }

  function WordsFrom(s: string, word: string): (ws: seq<string>)
    requires forall c :: c in word ==> !IsSeparator(c)
    ensures forall w :: w in ws ==> w != "" && forall c :: c in w ==> !IsSeparator(c)
    decreases |s|
  {
    if s == "" then Field(word)
    else if IsSeparator(s[0]) then Field(word) + WordsFrom(s[1..], "")
    else WordsFrom(s[1..], word + [s[0]])
  }

  function Field(word: string): seq<string> {
    if word == "" then [] else [word]
  }

  // --------------------------------------------------------- the host grammar

  predicate Alnum(c: char) {
    'A' <= c <= 'Z' || 'a' <= c <= 'z' || '0' <= c <= '9'
  }

  /** `[A-Za-z0-9]([A-Za-z0-9-]*[A-Za-z0-9])?`, matched in full. */
  predicate IsLabel(s: string) {
    s != "" && Alnum(s[0]) && Alnum(s[|s| - 1]) && forall c :: c in s ==> Alnum(c) || c == '-'
  }

  predicate AllLabels(labels: seq<string>) {
    forall i :: 0 <= i < |labels| ==> IsLabel(labels[i])
  }

  /** The test the script makes on one host: every dot-separated part is a label. */
  predicate ValidHost(host: string) {
    AllLabels(Split(host, '.'))
  }

  /** `[A-Za-z0-9]([A-Za-z0-9-]*[A-Za-z0-9])?` */
  const LABEL := Then(OneOf(ALNUM), Maybe(Then(Patterns.Run(ALNUM_DASH, 0, None), OneOf(ALNUM))))

  /** The language of `^L(\.L)*$` for the label expression L. */
  ghost predicate InHostGrammar(host: string) {
    exists labels ::
      && labels != [] && (forall i :: 0 <= i < |labels| ==> Matches(LABEL, labels[i]))
      && host == Join(labels, '.')
  }

  lemma LabelIsTheGrammar(s: string)
    ensures IsLabel(s) <==> Matches(LABEL, s)
  {
    LabelClasses();
    LabelByIndex(s);
    SplitAt(OneOf(ALNUM), Maybe(Then(Patterns.Run(ALNUM_DASH, 0, None), OneOf(ALNUM))), s, 1);
    if s != "" {
      LabelTail(s[1..]);
      assert forall i :: 0 < i < |s| ==> s[i] == s[1..][i - 1];
    }
    hide Alnum, In, IsLabel;
  }

  lemma LabelClasses()
    ensures forall c: char :: In(c, ALNUM) <==> Alnum(c)
    ensures forall c: char :: In(c, ALNUM_DASH) <==> Alnum(c) || c == '-'
  {
    forall c: char ensures (In(c, ALNUM) <==> Alnum(c)) && (In(c, ALNUM_DASH) <==> Alnum(c) || c == '-') { Classes(c); }
  }

  lemma LabelByIndex(s: string)
    ensures IsLabel(s) <==>
            s != "" && Alnum(s[0]) && Alnum(s[|s| - 1]) && forall i :: 0 <= i < |s| ==> Alnum(s[i]) || s[i] == '-'
  {
    hide Alnum;
    if IsLabel(s) { assert forall i :: 0 <= i < |s| ==> s[i] in s; }
  }

  lemma LabelTail(t: string)
    ensures Matches(Maybe(Then(Patterns.Run(ALNUM_DASH, 0, None), OneOf(ALNUM))), t) <==>
            t == "" || (In(t[|t| - 1], ALNUM) && forall i :: 0 <= i < |t| - 1 ==> In(t[i], ALNUM_DASH))
  {
    var run := Patterns.Run(ALNUM_DASH, 0, None);
    if t != "" {
      var k := |t| - 1;
      assert t[k..] == [t[k]] && forall i :: 0 <= i < k ==> t[..k][i] == t[i];
      if Matches(Then(run, OneOf(ALNUM)), t) {
        var i :| 0 <= i <= |t| && Matches(run, t[..i]) && Matches(OneOf(ALNUM), t[i..]);
        assert i == k;
      }
      if In(t[k], ALNUM) && forall i :: 0 <= i < k ==> In(t[i], ALNUM_DASH) {
        assert Matches(run, t[..k]) && Matches(OneOf(ALNUM), t[k..]);
      }
    }
  }

  lemma LabelHasNoDot(s: string)
    requires IsLabel(s)
    ensures '.' !in s
  {
  }

  lemma ValidHostIsTheGrammar(host: string)
    ensures ValidHost(host) <==> InHostGrammar(host)
  {
    hide IsLabel, Matches;
    if ValidHost(host) {
      JoinOfSplit(host, '.');
      var labels := Split(host, '.');
      forall i | 0 <= i < |labels| ensures Matches(LABEL, labels[i]) { LabelIsTheGrammar(labels[i]); }
      assert labels != [] && host == Join(labels, '.');
    }
    if InHostGrammar(host) {
      var labels :|
        labels != [] && (forall i :: 0 <= i < |labels| ==> Matches(LABEL, labels[i])) && host == Join(labels, '.');
      forall i | 0 <= i < |labels| ensures IsLabel(labels[i]) && '.' !in labels[i] {
        LabelIsTheGrammar(labels[i]);
        LabelHasNoDot(labels[i]);
      }
      SplitOfJoin(labels, '.');
    }
  }

  predicate HostChar(c: char) {
    Alnum(c) || c == '-' || c == '.'
  }

  predicate HostChars(s: string) {
    forall i :: 0 <= i < |s| ==> HostChar(s[i])
  }

  lemma {:induction false} JoinedLabelsAreHostChars(labels: seq<string>)
    requires AllLabels(labels)
    ensures HostChars(Join(labels, '.'))
  {
    if |labels| > 1 {
      JoinedLabelsAreHostChars(labels[1..]);
    }
    if labels != [] {
      forall i | 0 <= i < |labels[0]| ensures HostChar(labels[0][i]) {
        assert labels[0][i] in labels[0];
      }
    }
  }

  lemma ValidHostIsHostChars(host: string)
    requires ValidHost(host)
    ensures HostChars(host)
  {
    JoinOfSplit(host, '.');
    JoinedLabelsAreHostChars(Split(host, '.'));
  }

  // -------------------------------------------------------- the emitted line

  /** `sed 's/\./\\./g'`. */
  function EscapeDots(s: string): string {
    if s == "" then "" else Escape(s[0]) + EscapeDots(s[1..])
  }

  function Escape(c: char): string {
    if c == '.' then "\\." else [c]
  }

  function Line(host: string): string {
    "^" + EscapeDots(host) + "$"
  }

  // ------------------------------------------------ basic regular expressions

  datatype Atom = Exactly(c: char) | AnyChar

  datatype Item = Begin | End | Once(atom: Atom) | Repeat(atom: Atom)

  /** Where in the pattern the parser stands: `^` is an anchor only at the very
      start, and `*` is ordinary at the start and right after the anchor. */
  datatype Position = Start | AfterAnchor | Inside

  const SPECIAL: string := ".[\\*^$"

  /** The atom at the head of the pattern and the number of characters it takes. */
  function ParseAtom(p: string, at: Position): Option<(Atom, nat)>
    requires p != ""
    ensures ParseAtom(p, at).Some? ==> 1 <= ParseAtom(p, at).value.1 <= |p|
  {
    if p[0] == '\\' then
      if |p| >= 2 && p[1] in SPECIAL then Some((Exactly(p[1]), 2)) else None
    else if p[0] == '[' then None
    else if p[0] == '.' then Some((AnyChar, 1))
    else if p[0] == '*' && at == Inside then None
    else Some((Exactly(p[0]), 1))
  }

  function Parse(p: string, at: Position): Option<seq<Item>>
    decreases |p|
  {
    if p == "" then Some([])
    else if at == Start && p[0] == '^' then Prepend(Begin, Parse(p[1..], AfterAnchor))
    else if p == "$" then Some([End])
    else
      match ParseAtom(p, at)
      case None => None
      case Some((atom, n)) =>
        if n < |p| && p[n] == '*' then Prepend(Repeat(atom), Parse(p[n + 1..], Inside))
        else Prepend(Once(atom), Parse(p[n..], Inside))
  }

  function Prepend(item: Item, rest: Option<seq<Item>>): Option<seq<Item>> {
    match rest
    case None => None
    case Some(items) => Some([item] + items)
  }

  /** ASCII case folding: tinyproxy compiles its filter case-insensitively. */
  function Fold(c: char): char {
    if 'A' <= c <= 'Z' then (c as int + 32) as char else c
  }

  predicate Fits(atom: Atom, c: char) {
    atom.AnyChar? || Fold(atom.c) == Fold(c)
  }

  predicate MatchHere(items: seq<Item>, text: string, atStart: bool)
    decreases |items| + |text|
  {
    if items == [] then true
    else
      match items[0]
      case Begin => atStart && MatchHere(items[1..], text, atStart)
      case End => text == "" && MatchHere(items[1..], text, atStart)
      case Once(atom) => text != "" && Fits(atom, text[0]) && MatchHere(items[1..], text[1..], false)
      case Repeat(atom) =>
        || MatchHere(items[1..], text, atStart)
        || (text != "" && Fits(atom, text[0]) && MatchHere(items, text[1..], false))
  }

  /** `regexec`: the pattern matches somewhere in the text. */
  predicate Accepts(pattern: string, text: string) {
    match Parse(pattern, Start)
    case None => false
    case Some(items) => exists i :: 0 <= i <= |text| && MatchHere(items, text[i..], i == 0)
  }

  predicate EqualIgnoringCase(a: string, b: string) {
    |a| == |b| && forall i :: 0 <= i < |a| ==> a[i] == b[i] || CaseOf(a[i], b[i]) || CaseOf(b[i], a[i])
  }

  predicate CaseOf(upper: char, lower: char) {
    'A' <= upper <= 'Z' && lower as int - upper as int == 'a' as int - 'A' as int
  }

  lemma FoldsAlike(a: char, b: char)
    ensures Fold(a) == Fold(b) <==> a == b || CaseOf(a, b) || CaseOf(b, a)
  {
  }

  // --------------------------------------------------------- one line's meaning

  /** The items of a literal string, then the items of what follows it. */
  function Literally(s: string, after: seq<Item>): seq<Item> {
    if s == "" then after else [Once(Exactly(s[0]))] + Literally(s[1..], after)
  }

  lemma ParseOneEscaped(c: char, next: string, at: Position)
    requires HostChar(c) && (next == "" || next[0] != '*')
    ensures Parse(Escape(c) + next, at) == Prepend(Once(Exactly(c)), Parse(next, Inside))
  {
    var p := Escape(c) + next;
    var n := |Escape(c)|;
    assert p[0] == Escape(c)[0] && p[n..] == next && (n < |p| ==> p[n] == next[0]);
    if c == '.' { assert p[1] == '.'; }
    assert ParseAtom(p, at) == Some((Exactly(c), n));
  }

  lemma {:induction false} ParseEscaped(s: string, tail: string, after: seq<Item>, at: Position)
    requires HostChars(s) && at != Start
    requires tail != "" && tail[0] != '*'
    requires Parse(tail, Inside) == Parse(tail, AfterAnchor) == Some(after)
    ensures Parse(EscapeDots(s) + tail, at) == Some(Literally(s, after))
  {
    if s == "" {
      assert EscapeDots(s) + tail == tail;
    } else {
      ParseEscaped(s[1..], tail, after, Inside);
      var next := EscapeDots(s[1..]) + tail;
      assert next[0] != '*' by {
        if |s| > 1 { assert HostChar(s[1]); assert HostChar(s[1..][0]); }
      }
      assert EscapeDots(s) + tail == Escape(s[0]) + next;
      ParseOneEscaped(s[0], next, at);
    }
  }

  lemma {:induction false} MatchLiterally(s: string, text: string, atStart: bool)
    ensures MatchHere(Literally(s, [End]), text, atStart) <==> EqualIgnoringCase(s, text)
  {
    if s == "" {
      assert MatchHere([End], text, atStart) <==> text == "";
    } else {
      assert Literally(s, [End])[1..] == Literally(s[1..], [End]);
      if text != "" {
        MatchLiterally(s[1..], text[1..], false);
        FoldsAlike(s[0], text[0]);
        assert s == [s[0]] + s[1..] && text == [text[0]] + text[1..];
      }
    }
  }

  /** A line accepts exactly its host, up to case. */
  lemma LineAcceptsExactlyItsHost(host: string, name: string)
    requires ValidHost(host)
    ensures Accepts(Line(host), name) <==> EqualIgnoringCase(host, name)
  {
    ValidHostIsHostChars(host);
    ParseEscaped(host, "$", [End], AfterAnchor);
    assert Line(host)[1..] == EscapeDots(host) + "$";
    var items := [Begin] + Literally(host, [End]);
    assert Parse(Line(host), Start) == Some(items);
    assert items[1..] == Literally(host, [End]);
    MatchLiterally(host, name, true);
    assert name[0..] == name;
    assert MatchHere(items, name[0..], true) <==> EqualIgnoringCase(host, name);
  }

  // ------------------------------------------------ both safeguards are needed

  function Raw(s: string): seq<Item> {
    if s == "" then [End]
    else [Once(if s[0] == '.' then AnyChar else Exactly(s[0]))] + Raw(s[1..])
  }

  lemma {:induction false} ParseUnescaped(s: string, at: Position)
    requires HostChars(s) && at != Start
    ensures Parse(s + "$", at) == Some(Raw(s))
  {
    if s != "" {
      ParseUnescaped(s[1..], Inside);
      assert HostChar(s[0]);
      assert (s + "$")[1..] == s[1..] + "$";
      assert (s + "$")[1] != '*' by {
        if |s| > 1 { assert HostChar(s[1]); }
      }
    }
  }

  lemma {:induction false} RawMatches(s: string, text: string, atStart: bool)
    requires |s| == |text| && forall i :: 0 <= i < |s| ==> s[i] == '.' || s[i] == text[i]
    ensures MatchHere(Raw(s), text, atStart)
  {
    if s == "" {
      assert MatchHere([End], text, atStart);
    } else {
      assert Raw(s)[1..] == Raw(s[1..]);
      RawMatches(s[1..], text[1..], false);
    }
  }

  /** Without the escaping, every host that has a dot would let a second name in. */
  lemma UnescapedDotWidens(host: string, i: nat)
    requires ValidHost(host) && i < |host| && host[i] == '.'
    ensures Accepts("^" + host + "$", host[i := 'x']) && !EqualIgnoringCase(host, host[i := 'x'])
  {
    ValidHostIsHostChars(host);
    ParseUnescaped(host, AfterAnchor);
    var pattern := "^" + host + "$";
    assert pattern[1..] == host + "$";
    var items := [Begin] + Raw(host);
    assert items[1..] == Raw(host);
    var other := host[i := 'x'];
    RawMatches(host, other, true);
    assert other[0..] == other;
    assert MatchHere(items, other[0..], true);
    assert Fold(host[i]) != Fold(other[i]);
  }

  lemma {:induction false} EscapeOfConcat(a: string, b: string)
    ensures EscapeDots(a + b) == EscapeDots(a) + EscapeDots(b)
  {
    if a == "" {
      assert a + b == b;
    } else {
      assert (a + b)[1..] == a[1..] + b;
      EscapeOfConcat(a[1..], b);
    }
  }

  lemma ParseStarred(c: char, at: Position)
    requires Alnum(c) && at != Start
    ensures Parse([c, '*'] + "$", at) == Some([Repeat(Exactly(c)), End])
  {
    var p := [c, '*'] + "$";
    assert ParseAtom(p, at) == Some((Exactly(c), 1));
    assert p[2..] == "$" && p[1] == '*' && |p| == 3;
    assert Parse(p[2..], Inside) == Some([End]);
    assert Parse(p, at) == Prepend(Repeat(Exactly(c)), Parse(p[2..], Inside));
    assert [Repeat(Exactly(c))] + [End] == [Repeat(Exactly(c)), End];
  }

  lemma {:induction false} MatchLiterallyThen(s: string, after: seq<Item>, atStart: bool)
    requires s != "" && MatchHere(after, "", false)
    ensures MatchHere(Literally(s, after), s, atStart)
  {
    assert Literally(s, after)[1..] == Literally(s[1..], after);
    if |s| > 1 {
      MatchLiterallyThen(s[1..], after, false);
    } else {
      assert s[1..] == "" && Literally(s[1..], after) == after;
    }
  }

  lemma {:induction false} ParseUnanchored(s: string, at: Position)
    requires HostChars(s)
    ensures Parse(EscapeDots(s), at) == Some(Literally(s, []))
  {
    if s != "" {
      ParseUnanchored(s[1..], Inside);
      assert HostChar(s[0]);
      var next := EscapeDots(s[1..]);
      assert next != "" ==> next[0] != '*' by {
        if |s| > 1 { assert HostChar(s[1]); assert HostChar(s[1..][0]); }
      }
      assert EscapeDots(s) == Escape(s[0]) + next;
      ParseOneEscaped(s[0], next, at);
    }
  }

  lemma {:induction false} MatchPrefix(s: string, after: string, atStart: bool)
    ensures MatchHere(Literally(s, []), s + after, atStart)
  {
    if s != "" {
      assert Literally(s, [])[1..] == Literally(s[1..], []);
      assert (s + after)[1..] == s[1..] + after;
      MatchPrefix(s[1..], after, false);
    }
  }

  /** Without the anchors, a host would let in every name that it is part of. */
  lemma UnanchoredWidens(host: string, before: string, after: string)
    requires ValidHost(host)
    ensures Accepts(EscapeDots(host), before + host + after)
  {
    ValidHostIsHostChars(host);
    ParseUnanchored(host, Start);
    var name := before + host + after;
    assert name[|before|..] == host + after;
    MatchPrefix(host, after, |before| == 0);
    assert MatchHere(Literally(host, []), name[|before|..], |before| == 0);
  }

  lemma StarredIsNoHost(host: string, c: char)
    ensures !ValidHost(host + [c, '*'])
  {
    var starred := host + [c, '*'];
    assert starred[|host| + 1] == '*' && !HostChar('*');
    if ValidHost(starred) {
      ValidHostIsHostChars(starred);
    }
  }

  lemma HostIsNotEmpty(host: string)
    requires ValidHost(host)
    ensures host != ""
  {
    assert IsLabel(Split(host, '.')[0]);
  }

  lemma StarredParses(host: string, c: char)
    requires ValidHost(host) && host != "" && Alnum(c)
    ensures Parse(Line(host + [c, '*']), Start) == Some([Begin] + Literally(host, [Repeat(Exactly(c)), End]))
  {
    hide ValidHost, Literally;
    ValidHostIsHostChars(host);
    EscapeOfConcat(host, [c, '*']);
    assert EscapeDots([c, '*']) == [c, '*'] by {
      assert [c, '*'][1..] == ['*'];
      assert ['*'][1..] == [];
    }
    ParseStarred(c, Inside);
    ParseStarred(c, AfterAnchor);
    hide Parse;
    ParseEscaped(host, [c, '*'] + "$", [Repeat(Exactly(c)), End], AfterAnchor);
    assert Line(host + [c, '*']) == "^" + (EscapeDots(host) + ([c, '*'] + "$"));
    ParseAnchored(EscapeDots(host) + ([c, '*'] + "$"), Literally(host, [Repeat(Exactly(c)), End]));
  }

  lemma ParseAnchored(p: string, items: seq<Item>)
    requires Parse(p, AfterAnchor) == Some(items)
    ensures Parse("^" + p, Start) == Some([Begin] + items)
  {
    assert ("^" + p)[0] == '^' && ("^" + p)[1..] == p;
  }

  lemma StarredMatchesHost(host: string, c: char)
    requires host != ""
    ensures MatchHere([Begin] + Literally(host, [Repeat(Exactly(c)), End]), host, true)
  {
    var after := [Repeat(Exactly(c)), End];
    assert MatchHere(after, "", false) by {
      assert after[1..] == [End];
      assert MatchHere([End], "", false);
    }
    MatchLiterallyThen(host, after, true);
    assert ([Begin] + Literally(host, after))[1..] == Literally(host, after);
  }

  /** Without the grammar check, a trailing star would let a second name in, dots
      escaped or not: `h` extended by `c*` matches `h` itself. */
  lemma UncheckedHostWidens(host: string, c: char)
    requires ValidHost(host) && Alnum(c)
    ensures !ValidHost(host + [c, '*'])
    ensures Accepts(Line(host + [c, '*']), host) && !EqualIgnoringCase(host + [c, '*'], host)
  {
    hide ValidHost, Literally, EscapeDots, MatchHere, HostChars;
    StarredIsNoHost(host, c);
    HostIsNotEmpty(host);
    StarredParses(host, c);
    var after := [Repeat(Exactly(c)), End];
    var items := [Begin] + Literally(host, after);
    assert items[1..] == Literally(host, after);
    StarredMatchesHost(host, c);
    assert host[0..] == host;
    assert MatchHere(items, host[0..], true);
  }

  // --------------------------------------------------------- the filter file

  /** The text the loop writes for the hosts it has accepted so far. */
  function FileFor(hosts: seq<string>): string {
    if hosts == [] then "" else Line(hosts[0]) + "\n" + FileFor(hosts[1..])
  }

  lemma {:induction false} FileForAppends(hosts: seq<string>, host: string)
    ensures FileFor(hosts + [host]) == FileFor(hosts) + Line(host) + "\n"
  {
    if hosts == [] {
      assert [host][1..] == [];
    } else {
      assert (hosts + [host])[1..] == hosts[1..] + [host];
      FileForAppends(hosts[1..], host);
    }
  }

  function NonBlank(lines: seq<string>): seq<string> {
    if lines == [] then []
    else (if lines[0] == "" then [] else [lines[0]]) + NonBlank(lines[1..])
  }

  /** How tinyproxy reads the file: blank lines say nothing. */
  function FilterLines(file: string): seq<string> {
    NonBlank(Split(file, '\n'))
  }

  function LinesFor(hosts: seq<string>): seq<string> {
    if hosts == [] then [] else [Line(hosts[0])] + LinesFor(hosts[1..])
  }

  lemma {:induction false} EscapedHasNoNewline(s: string)
    requires HostChars(s)
    ensures '\n' !in EscapeDots(s)
  {
    if s != "" {
      assert HostChar(s[0]);
      EscapedHasNoNewline(s[1..]);
    }
  }

  lemma {:induction false} FileReadsBack(hosts: seq<string>)
    requires AllValid(hosts)
    ensures FilterLines(FileFor(hosts)) == LinesFor(hosts)
  {
    if hosts != [] {
      ValidHostIsHostChars(hosts[0]);
      EscapedHasNoNewline(hosts[0]);
      FileReadsBack(hosts[1..]);
      SplitWithoutSeparator(Line(hosts[0]), '\n');
      SplitOfConcat(Line(hosts[0]), FileFor(hosts[1..]), '\n');
      var rest := Split(FileFor(hosts[1..]), '\n');
      assert FileFor(hosts) == Line(hosts[0]) + ['\n'] + FileFor(hosts[1..]);
      assert ([Line(hosts[0])] + rest)[1..] == rest;
    }
  }

  predicate AllValid(hosts: seq<string>) {
    forall i :: 0 <= i < |hosts| ==> ValidHost(hosts[i])
  }

  /** FilterDefaultDeny: a request is let through only by a matching line. */
  ghost predicate Allowed(file: string, name: string) {
    exists line :: line in FilterLines(file) && Accepts(line, name)
  }

  ghost predicate Listed(hosts: seq<string>, name: string) {
    exists i :: 0 <= i < |hosts| && EqualIgnoringCase(hosts[i], name)
  }

  lemma {:induction false} LinesForMembers(hosts: seq<string>, line: string)
    ensures line in LinesFor(hosts) <==> exists i :: 0 <= i < |hosts| && line == Line(hosts[i])
  {
    if hosts != [] {
      LinesForMembers(hosts[1..], line);
      if i :| 0 <= i < |hosts| && line == Line(hosts[i]) && i > 0 {
        assert hosts[1..][i - 1] == hosts[i];
      }
      if line in LinesFor(hosts[1..]) {
        var i :| 0 <= i < |hosts[1..]| && line == Line(hosts[1..][i]);
        assert hosts[i + 1] == hosts[1..][i];
      }
    }
  }

  /** The translation preserves meaning: for every list of valid hosts and every
      name, the emitted file lets the name through exactly when it is listed. */
  lemma FilterIsTheAllowlist(hosts: seq<string>, name: string)
    requires AllValid(hosts)
    ensures Allowed(FileFor(hosts), name) <==> Listed(hosts, name)
  {
    FileReadsBack(hosts);
    if line :| line in LinesFor(hosts) && Accepts(line, name) {
      LinesForMembers(hosts, line);
      var i :| 0 <= i < |hosts| && line == Line(hosts[i]);
      LineAcceptsExactlyItsHost(hosts[i], name);
    }
    if i :| 0 <= i < |hosts| && EqualIgnoringCase(hosts[i], name) {
      LineAcceptsExactlyItsHost(hosts[i], name);
      LinesForMembers(hosts, Line(hosts[i]));
      assert Line(hosts[i]) in FilterLines(FileFor(hosts));
    }
  }

  // ---------------------------------------------------------------- the script

  /** `*`, `?` and `[` make a word a pattern for file names, and `\\` may. */
  predicate IsPattern(word: string) {
    exists i :: 0 <= i < |word| && word[i] in ['*', '?', '[', '\\']
  }

  /** The shell puts the matching file names of its directory in the word's place. */
  predicate Expands(word: string, files: string -> seq<string>) {
    IsPattern(word) && files(word) != []
  }

  /** The words of the unquoted list after pathname expansion, where `files` says what
      a pattern matches; one that matches nothing stays. */
  function Expanded(words: seq<string>, files: string -> seq<string>): seq<string> {
    if words == [] then []
    else (if Expands(words[0], files) then files(words[0]) else [words[0]]) + Expanded(words[1..], files)
  }

  /** What the loop runs over. */
  function ScriptWords(allowHosts: string, files: string -> seq<string>): seq<string> {
    Expanded(Words(allowHosts), files)
  }

  /** The loop of the script. It stops at the first word that is not a host name
      (exit 1, so the proxy does not start); otherwise the file is what the words
      compile to. */
  method WriteFilter(allowHosts: string, files: string -> seq<string>) returns (r: Result<string, string>)
    ensures var words := ScriptWords(allowHosts, files);
            && (r.Ok? <==> AllValid(words))
            && (r.Ok? ==> r.value == FileFor(words))
            && (r.Err? ==> exists i :: 0 <= i < |words| && r.error == words[i] &&
                                       !ValidHost(r.error) && AllValid(words[..i]))
  {
    var filter := "";
    var words := ScriptWords(allowHosts, files);
    for i := 0 to |words|
      invariant AllValid(words[..i])
      invariant filter == FileFor(words[..i])
    {
      var host := words[i];
      if !ValidHost(host) {
        return Err(host);
      }
      filter := filter + Line(host) + "\n";
      FileForAppends(words[..i], host);
      assert words[..i + 1] == words[..i] + [host];
    }
    assert words[..|words|] == words;
    return Ok(filter);
  }

  lemma {:induction false} UnexpandedStay(words: seq<string>, files: string -> seq<string>)
    requires forall i :: 0 <= i < |words| ==> !Expands(words[i], files)
    ensures Expanded(words, files) == words
  {
    if words != [] {
      UnexpandedStay(words[1..], files);
      assert words == [words[0]] + words[1..];
    }
  }

  lemma ValidHostIsNoPattern(host: string)
    requires ValidHost(host)
    ensures !IsPattern(host)
  {
    ValidHostIsHostChars(host);
    assert forall i :: 0 <= i < |host| ==> HostChar(host[i]);
  }

  /** A word that file names take the place of. */
  predicate Replaced(word: string, files: string -> seq<string>) {
    ('*' in word || '?' in word || '[' in word || '\\' in word) && files(word) != []
  }

  /** A word gets past the script's check: as a host, or as file names that all are. */
  predicate Passes(word: string, files: string -> seq<string>) {
    if Replaced(word, files) then forall name :: name in files(word) ==> ValidHost(name) else ValidHost(word)
  }

  lemma ReplacedIsExpanded(word: string, files: string -> seq<string>)
    ensures Replaced(word, files) <==> Expands(word, files)
  {
    if IsPattern(word) {
      var i :| 0 <= i < |word| && word[i] in ['*', '?', '[', '\\'];
      assert word[i] in word;
    }
  }

  lemma ValidConcat(a: seq<string>, b: seq<string>)
    ensures AllValid(a + b) <==> AllValid(a) && AllValid(b)
  {
    assert forall i :: 0 <= i < |a| ==> (a + b)[i] == a[i];
    assert forall i :: 0 <= i < |b| ==> (a + b)[|a| + i] == b[i];
  }

  /** The script starts the proxy exactly if every word of the list passes. */
  lemma {:induction false} AcceptsIffWordsPass(words: seq<string>, files: string -> seq<string>)
    ensures AllValid(Expanded(words, files)) <==> forall i :: 0 <= i < |words| ==> Passes(words[i], files)
    decreases |words|
  {
    if words != [] {
      var first := if Expands(words[0], files) then files(words[0]) else [words[0]];
      ValidConcat(first, Expanded(words[1..], files));
      ReplacedIsExpanded(words[0], files);
      assert AllValid(files(words[0])) <==> forall name :: name in files(words[0]) ==> ValidHost(name);
      AcceptsIffWordsPass(words[1..], files);
      assert AllValid([words[0]]) <==> ValidHost([words[0]][0]);
      assert forall i :: 0 < i < |words| ==> words[i] == words[1..][i - 1];
    }
  }

  /** That is the check of the list itself, unless some word is replaced by file names
      and every word passes: then a list that is not one of hosts is accepted. */
  lemma ChecksTheListUnlessExpanded(words: seq<string>, files: string -> seq<string>)
    ensures (AllValid(Expanded(words, files)) <==> AllValid(words)) <==>
            !(&& (exists i :: 0 <= i < |words| && Replaced(words[i], files))
              && (forall i :: 0 <= i < |words| ==> Passes(words[i], files)))
    ensures AllValid(words) ==> Expanded(words, files) == words
  {
    AcceptsIffWordsPass(words, files);
    forall i | 0 <= i < |words| ensures Replaced(words[i], files) <==> Expands(words[i], files) {
      ReplacedIsExpanded(words[i], files);
    }
    if AllValid(words) {
      forall i | 0 <= i < |words| ensures !Expands(words[i], files) { ValidHostIsNoPattern(words[i]); }
    }
    if forall i :: 0 <= i < |words| ==> !Expands(words[i], files) {
      UnexpandedStay(words, files);
    }
  }

  lemma StarIsAWord()
    ensures Words("*") == ["*"] && IsPattern("*")
  {
    assert "*"[1..] == "" && "" + ['*'] == "*";
    assert WordsFrom("*", "") == WordsFrom("", "*");
    assert "*"[0] == '*';
  }

  lemma FileNamesPassForHosts()
    ensures AllValid(["bin", "dev", "etc"])
  {
    SplitWithoutSeparator("bin", '.');
    SplitWithoutSeparator("dev", '.');
    SplitWithoutSeparator("etc", '.');
  }

  /** `*` in a directory whose files are named like hosts: the list holds no host name,
      and the script starts the proxy with the file names. */
  lemma StarBecomesFileNames(files: string -> seq<string>)
    requires files("*") == ["bin", "dev", "etc"]
    ensures !AllValid(Words("*"))
    ensures ScriptWords("*", files) == ["bin", "dev", "etc"] && AllValid(ScriptWords("*", files))
  {
    hide Words, IsPattern, ValidHost;
    StarIsAWord();
    FileNamesPassForHosts();
    if ValidHost("*") { ValidHostIsNoPattern("*"); }
    assert ["*"][0] == "*" && ["*"][1..] == [];
    assert Expanded([], files) == [];
  }

  lemma {:induction false} WordsFromReads(word: string, s: string, rest: string)
    requires forall c :: c in word ==> !IsSeparator(c)
    requires forall i :: 0 <= i < |s| ==> !IsSeparator(s[i])
    ensures WordsFrom(s + rest, word) == WordsFrom(rest, word + s)
    decreases |s|
  {
    if s == "" {
      assert s + rest == rest && word + s == word;
    } else {
      assert (s + rest)[1..] == s[1..] + rest;
      assert (word + [s[0]]) + s[1..] == word + s;
      WordsFromReads(word + [s[0]], s[1..], rest);
    }
  }

  /** Words set apart by blanks, tabs, line ends and commas, in any number. */
  function Spaced(words: seq<string>, gaps: seq<string>): string
    requires |gaps| == |words| + 1
  {
    if words == [] then gaps[0] else gaps[0] + words[0] + Spaced(words[1..], gaps[1..])
  }

  predicate IsGap(gap: string) {
    forall i :: 0 <= i < |gap| ==> gap[i] == ' ' || gap[i] == '\t' || gap[i] == '\n' || gap[i] == ','
  }

  predicate IsWord(word: string) {
    word != "" && forall i :: 0 <= i < |word| ==> word[i] != ' ' && word[i] != '\t' && word[i] != '\n' && word[i] != ','
  }

  lemma {:induction false} GapSkipped(gap: string, rest: string)
    requires IsGap(gap)
    ensures WordsFrom(gap + rest, "") == WordsFrom(rest, "")
  {
    if gap == "" {
      assert gap + rest == rest;
    } else {
      assert (gap + rest)[1..] == gap[1..] + rest;
      GapSkipped(gap[1..], rest);
    }
  }

  lemma WordEnds(word: string, rest: string)
    requires word != "" && forall c :: c in word ==> !IsSeparator(c)
    requires rest == "" || IsSeparator(rest[0])
    ensures WordsFrom(rest, word) == [word] + WordsFrom(rest, "")
  {
  }

  /** The list is split there, and nowhere else. */
  lemma {:induction false} WordsOfAnyList(words: seq<string>, gaps: seq<string>)
    requires |gaps| == |words| + 1
    requires forall i :: 0 <= i < |words| ==> IsWord(words[i])
    requires forall i :: 0 <= i < |gaps| ==> IsGap(gaps[i]) && (0 < i < |words| ==> gaps[i] != "")
    ensures Words(Spaced(words, gaps)) == words
    decreases |words|
  {
    if words == [] {
      GapSkipped(gaps[0], "");
      assert gaps[0] + "" == gaps[0];
    } else {
      var word := words[0];
      var rest := Spaced(words[1..], gaps[1..]);
      assert IsWord(word);
      GapSkipped(gaps[0], word + rest);
      assert gaps[0] + word + rest == gaps[0] + (word + rest);
      WordsFromReads("", word, rest);
      assert "" + word == word;
      assert rest == "" || IsSeparator(rest[0]) by {
        assert |words| > 1 ==> gaps[1] != "";
        assert IsGap(gaps[1]);
        if gaps[1] != "" { assert rest[0] == gaps[1][0]; }
      }
      WordEnds(word, rest);
      WordsOfAnyList(words[1..], gaps[1..]);
    }
  }

  lemma {:induction false} WordsOfJoin(hosts: seq<string>)
    requires AllValid(hosts)
    ensures Words(Join(hosts, ',')) == hosts
  {
    if hosts != [] {
      var host := hosts[0];
      ValidHostIsHostChars(host);
      forall i | 0 <= i < |host| ensures !IsSeparator(host[i]) { assert HostChar(host[i]); }
      assert host != "" by {
        assert IsLabel(Split(host, '.')[0]);
      }
      if |hosts| == 1 {
        WordsFromReads("", host, "");
        assert host + "" == host && "" + host == host;
      } else {
        var rest := "," + Join(hosts[1..], ',');
        assert Join(hosts, ',') == host + rest;
        WordsFromReads("", host, rest);
        assert "" + host == host;
        assert rest[1..] == Join(hosts[1..], ',');
        WordsOfJoin(hosts[1..]);
        assert WordsFrom(rest, host) == [host] + WordsFrom(rest[1..], "");
      }
    }
  }

  /** End to end, for every comma-separated list of valid hosts and whatever files there
      are: the file the script leaves lets through exactly the listed names; none, for
      no hosts. */
  lemma CompiledListIsExact(hosts: seq<string>, files: string -> seq<string>, name: string)
    requires AllValid(hosts)
    ensures AllValid(ScriptWords(Join(hosts, ','), files))
    ensures Allowed(FileFor(ScriptWords(Join(hosts, ','), files)), name) <==> Listed(hosts, name)
    ensures !Allowed(FileFor(ScriptWords("", files)), name)
  {
    WordsOfJoin(hosts);
    ChecksTheListUnlessExpanded(hosts, files);
    FilterIsTheAllowlist(hosts, name);
    FilterIsTheAllowlist([], name);
    assert Words("") == [];
  }
}
