/** Small vocabulary shared by the models: optional values, error results, Python's
    `str.split` / `str.join` for a one-character separator, and its string order. */
module Common {
  datatype Option<+T> = None | Some(value: T)

  datatype Result<+T, +E> = Ok(value: T) | Err(error: E)

  /** `sep.join(parts)`. */
  function Join(parts: seq<string>, sep: char): string {
    if parts == [] then ""
    else if |parts| == 1 then parts[0]
    else parts[0] + [sep] + Join(parts[1..], sep)
  }

  /** `s.split(sep)`: never empty, and no part holds the separator. */
  function Split(s: string, sep: char): (parts: seq<string>)
    ensures |parts| >= 1
    ensures forall i :: 0 <= i < |parts| ==> sep !in parts[i]
  {
    if s == "" then [""]
    else
      var rest := Split(s[1..], sep);
      if s[0] == sep then [""] + rest
      else [[s[0]] + rest[0]] + rest[1..]
  }

  lemma Associate<T>(a: seq<T>, b: seq<T>, c: seq<T>)
    ensures a + b + c == a + (b + c)
  {
  }

  lemma JoinCons(first: string, rest: seq<string>, sep: char)
    requires rest != []
    ensures Join([first] + rest, sep) == first + [sep] + Join(rest, sep)
  {
  }

  /** Joining the parts of a split gives the string back. */
  lemma {:induction false} JoinOfSplit(s: string, sep: char)
    ensures Join(Split(s, sep), sep) == s
  {
    if s != "" {
      JoinOfSplit(s[1..], sep);
      var rest := Split(s[1..], sep);
      if s[0] == sep {
        JoinCons("", rest, sep);
      } else if |rest| == 1 {
        assert Split(s, sep) == [[s[0]] + rest[0]];
      } else {
        JoinCons(rest[0], rest[1..], sep);
        assert [rest[0]] + rest[1..] == rest;
        JoinCons([s[0]] + rest[0], rest[1..], sep);
      }
    }
  }

  lemma SplitStep(c: char, s: string, sep: char)
    ensures Split([c] + s, sep) ==
            if c == sep then [""] + Split(s, sep) else [[c] + Split(s, sep)[0]] + Split(s, sep)[1..]
  {
    assert ([c] + s)[1..] == s;
  }

  /** Splitting a concatenation around one separator splits both sides. */
  lemma {:induction false} SplitOfConcat(a: string, b: string, sep: char)
    ensures Split(a + [sep] + b, sep) == Split(a, sep) + Split(b, sep)
    decreases |a|
  {
    if a == "" {
      assert a + [sep] + b == [sep] + b;
      SplitStep(sep, b, sep);
    } else {
      var c, tail := a[0], a[1..];
      assert a == [c] + tail && a + [sep] + b == [c] + (tail + [sep] + b);
      SplitStep(c, tail, sep);
      SplitStep(c, tail + [sep] + b, sep);
      SplitOfConcat(tail, b, sep);
      hide Split;
      var left, right := Split(tail, sep), Split(b, sep);
      if c == sep {
        Associate([""], left, right);
      } else {
        assert (left + right)[1..] == left[1..] + right;
        Associate([[c] + left[0]], left[1..], right);
      }
    }
  }

  lemma {:induction false} SplitWithoutSeparator(s: string, sep: char)
    requires sep !in s
    ensures Split(s, sep) == [s]
  {
    if s != "" {
      assert s == [s[0]] + s[1..];
      SplitWithoutSeparator(s[1..], sep);
    }
  }

  /** Splitting a join gives the parts back when none holds the separator. */
  lemma {:induction false} SplitOfJoin(parts: seq<string>, sep: char)
    requires parts != [] && forall i :: 0 <= i < |parts| ==> sep !in parts[i]
    ensures Split(Join(parts, sep), sep) == parts
  {
    SplitWithoutSeparator(parts[0], sep);
    if |parts| > 1 {
      hide Split;
      SplitOfJoin(parts[1..], sep);
      SplitOfConcat(parts[0], Join(parts[1..], sep), sep);
    }
  }

  /** Python's order on strings. */
  predicate StringLess(a: string, b: string) {
    b != "" && (a == "" || a[0] < b[0] || (a[0] == b[0] && StringLess(a[1..], b[1..])))
  }

  lemma {:induction false} StringOrder(a: string, b: string)
    ensures StringLess(a, b) || a == b || StringLess(b, a)
    ensures !(StringLess(a, b) && (a == b || StringLess(b, a)))
  {
    if a != "" && b != "" {
      StringOrder(a[1..], b[1..]);
      assert a == [a[0]] + a[1..] && b == [b[0]] + b[1..];
    }
  }

  lemma {:induction false} StringTransitive(a: string, b: string, c: string)
    requires StringLess(a, b) && StringLess(b, c)
    ensures StringLess(a, c)
  {
    if a != "" && a[0] == b[0] == c[0] {
      StringTransitive(a[1..], b[1..], c[1..]);
    }
  }

  function InsertString(s: string, sorted: seq<string>): seq<string> {
    if sorted == [] || !StringLess(sorted[0], s) then [s] + sorted
    else [sorted[0]] + InsertString(s, sorted[1..])
  }

  /** `sorted(names)`. */
  function SortStrings(names: seq<string>): seq<string> {
    if names == [] then [] else InsertString(names[0], SortStrings(names[1..]))
  }

  ghost predicate SortedStrings(names: seq<string>) {
    forall i, j :: 0 <= i < j < |names| ==> !StringLess(names[j], names[i])
  }

  lemma {:induction false} InsertStringSorts(s: string, sorted: seq<string>)
    requires SortedStrings(sorted)
    ensures SortedStrings(InsertString(s, sorted))
    ensures multiset(InsertString(s, sorted)) == multiset{s} + multiset(sorted)
  {
    if sorted == [] {
    } else if !StringLess(sorted[0], s) {
      forall j | 0 <= j < |sorted| ensures !StringLess(sorted[j], s) {
        StringOrder(sorted[0], s);
        if StringLess(sorted[j], s) && StringLess(s, sorted[0]) {
          StringTransitive(sorted[j], s, sorted[0]);
        }
      }
    } else {
      InsertStringSorts(s, sorted[1..]);
      var rest := InsertString(s, sorted[1..]);
      assert sorted == [sorted[0]] + sorted[1..];
      StringOrder(sorted[0], s);
      forall j | 0 <= j < |rest| ensures !StringLess(rest[j], sorted[0]) {
        assert rest[j] in multiset(rest);
      }
    }
  }

  lemma {:induction false} SortStringsSorts(names: seq<string>)
    ensures SortedStrings(SortStrings(names))
    ensures multiset(SortStrings(names)) == multiset(names)
  {
    if names != [] {
      SortStringsSorts(names[1..]);
      InsertStringSorts(names[0], SortStrings(names[1..]));
      assert names == [names[0]] + names[1..];
    }
  }
}
