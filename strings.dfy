/** The string operations of JavaScript the reporter relies on, for one-character separators. */
module Strings {

  /** `s.split(sep)`: the maximal runs of `s` between occurrences of `sep`. */
  function Split(s: string, sep: char): (parts: seq<string>)
    ensures |parts| >= 1
    ensures forall i :: 0 <= i < |parts| ==> sep !in parts[i]
    decreases |s|
  {
    if s == [] then [""]
    else
      var rest := Split(s[1..], sep);
      if s[0] == sep then [""] + rest
      else [[s[0]] + rest[0]] + rest[1..]
  }

  /** `parts.join(sep)`; the empty list joins to the empty string. */
  function Join(parts: seq<string>, sep: char): string
  {
    if |parts| == 0 then ""
    else if |parts| == 1 then parts[0]
    else parts[0] + [sep] + Join(parts[1..], sep)
  }

  /** Every occurrence of `a` in `s` replaced by `b`. */
  function Replace(s: string, a: char, b: char): (r: string)
    ensures |r| == |s|
    ensures forall i :: 0 <= i < |s| ==> r[i] == (if s[i] == a then b else s[i])
  {
    if s == [] then []
    else [if s[0] == a then b else s[0]] + Replace(s[1..], a, b)
  }

  /** Position of the first `c` in `s`, or `|s|` when there is none. */
  function IndexOf(s: string, c: char): (i: nat)
    ensures i <= |s|
    ensures c !in s[..i]
    ensures i < |s| ==> s[i] == c
    ensures i == |s| <==> c !in s
  {
    if s == [] then 0
    else if s[0] == c then 0
    else 1 + IndexOf(s[1..], c)
  }

  /** `s.includes(t)`, scanning `s` from the left. */
  function Contains(s: string, t: string): bool
    decreases |s|
  {
    StartsWith(s, t) || (|s| > 0 && Contains(s[1..], t))
  }

  /** `s.startsWith(t)`. */
  predicate StartsWith(s: string, t: string)
  {
    |t| <= |s| && s[..|t|] == t
  }

  /** `t` occurs in `s` starting at position `i`. */
  predicate OccursAt(s: string, t: string, i: int)
  {
    0 <= i && i + |t| <= |s| && s[i..i + |t|] == t
  }

  // ---------------------------------------------------------------------------
  // Splitting and joining

  /** A text without the separator is one field. */
  lemma {:induction false} SplitWithoutSeparator(s: string, sep: char)
    requires sep !in s
    ensures Split(s, sep) == [s]
    decreases |s|
  {
    if s != [] {
      SplitWithoutSeparator(s[1..], sep);
      assert [s[0]] + s[1..] == s;
    }
  }

  /** A field followed by the separator splits off as the first field. */
  lemma {:induction false} SplitAfterField(p: string, sep: char, t: string)
    requires sep !in p
    ensures Split(p + [sep] + t, sep) == [p] + Split(t, sep)
    decreases |p|
  {
    var s := p + [sep] + t;
    if p == [] {
      assert s[1..] == t;
    } else {
      assert s[1..] == p[1..] + [sep] + t;
      SplitAfterField(p[1..], sep, t);
      assert [p[0]] + p[1..] == p;
    }
  }

  /** The first field of `s.split(sep)` is the text before the first separator,
      and the other fields are the split of the text after it. */
  lemma SplitAtFirst(s: string, sep: char)
    ensures Split(s, sep)[0] == s[..IndexOf(s, sep)]
    ensures IndexOf(s, sep) == |s| ==> Split(s, sep) == [s]
    ensures IndexOf(s, sep) < |s| ==>
              Split(s, sep)[1..] == Split(s[IndexOf(s, sep) + 1..], sep)
  {
    var i := IndexOf(s, sep);
    if i == |s| {
      SplitWithoutSeparator(s, sep);
    } else {
      assert s == s[..i] + [sep] + s[i + 1..];
      SplitAfterField(s[..i], sep, s[i + 1..]);
    }
  }

  /** Joining a leading field onto a non-empty list puts one separator between them. */
  lemma JoinCons(p: string, rest: seq<string>, sep: char)
    requires |rest| >= 1
    ensures Join([p] + rest, sep) == p + [sep] + Join(rest, sep)
  {
    assert ([p] + rest)[1..] == rest;
  }

  /** Joining a list with one more field at the end puts one separator before it. */
  lemma {:induction false} JoinSnoc(init: seq<string>, last: string, sep: char)
    requires |init| >= 1
    ensures Join(init + [last], sep) == Join(init, sep) + [sep] + last
    decreases |init|
  {
    if |init| == 1 {
      assert init + [last] == [init[0]] + [last];
      JoinCons(init[0], [last], sep);
    } else {
      assert init + [last] == [init[0]] + (init[1..] + [last]);
      JoinCons(init[0], init[1..] + [last], sep);
      JoinSnoc(init[1..], last, sep);
      JoinCons(init[0], init[1..], sep);
    }
  }

  /** A join of at least two fields is the join of all but the last, a separator and the last. */
  lemma JoinInitLast(parts: seq<string>, sep: char)
    requires |parts| >= 2
    ensures Join(parts, sep) == Join(parts[..|parts| - 1], sep) + [sep] + parts[|parts| - 1]
  {
    assert parts == parts[..|parts| - 1] + [parts[|parts| - 1]];
    JoinSnoc(parts[..|parts| - 1], parts[|parts| - 1], sep);
  }

  /** Splitting on `a` and joining with `b` replaces every `a` by `b`. */
  lemma {:induction false} JoinSplitReplaces(s: string, a: char, b: char)
    ensures Join(Split(s, a), b) == Replace(s, a, b)
    decreases |s|
  {
    if s != [] {
      var rest := Split(s[1..], a);
      JoinSplitReplaces(s[1..], a, b);
      if s[0] == a {
        JoinCons("", rest, b);
      } else if |rest| == 1 {
        assert Split(s, a) == [[s[0]] + rest[0]];
      } else {
        assert Split(s, a) == [[s[0]] + rest[0]] + rest[1..];
        JoinCons([s[0]] + rest[0], rest[1..], b);
        JoinCons(rest[0], rest[1..], b);
        assert rest == [rest[0]] + rest[1..];
      }
    }
  }

  /** Replacing a character by itself changes nothing. */
  lemma {:induction false} ReplaceSame(s: string, a: char)
    ensures Replace(s, a, a) == s
  {
    assert forall i :: 0 <= i < |s| ==> Replace(s, a, a)[i] == s[i];
  }

  /** Round trip one way: joining the fields of `s.split(sep)` with `sep` gives `s` back. */
  lemma JoinSplit(s: string, sep: char)
    ensures Join(Split(s, sep), sep) == s
  {
    JoinSplitReplaces(s, sep, sep);
    ReplaceSame(s, sep);
  }

  /** Round trip the other way: fields without the separator come back from splitting their join. */
  lemma {:induction false} SplitJoin(parts: seq<string>, sep: char)
    requires |parts| >= 1
    requires forall i :: 0 <= i < |parts| ==> sep !in parts[i]
    ensures Split(Join(parts, sep), sep) == parts
    decreases |parts|
  {
    if |parts| == 1 {
      SplitWithoutSeparator(parts[0], sep);
    } else {
      SplitJoin(parts[1..], sep);
      SplitAfterField(parts[0], sep, Join(parts[1..], sep));
      assert parts == [parts[0]] + parts[1..];
    }
  }

  /** The split has more than one field exactly when the separator occurs. */
  lemma SplitCount(s: string, sep: char)
    ensures |Split(s, sep)| > 1 <==> sep in s
  {
    SplitAtFirst(s, sep);
    if |Split(s, sep)| > 1 {
      JoinSplit(s, sep);
      var parts := Split(s, sep);
      JoinCons(parts[0], parts[1..], sep);
      assert parts == [parts[0]] + parts[1..];
      assert s[|parts[0]|] == sep;
    }
  }

  // ---------------------------------------------------------------------------
  // Substring search

  /** `Contains` agrees with the positional definition of an occurrence, both ways. */
  lemma {:induction false} ContainsOccurs(s: string, t: string)
    ensures Contains(s, t) <==> exists i :: OccursAt(s, t, i)
    decreases |s|
  {
    if StartsWith(s, t) {
      assert OccursAt(s, t, 0);
    } else if |s| > 0 {
      ContainsOccurs(s[1..], t);
      if Contains(s[1..], t) {
        var i :| OccursAt(s[1..], t, i);
        assert s[i + 1..i + 1 + |t|] == s[1..][i..i + |t|];
        assert OccursAt(s, t, i + 1);
      }
      if i :| OccursAt(s, t, i) {
        assert i != 0;
        assert s[1..][i - 1..i - 1 + |t|] == s[i..i + |t|];
        assert OccursAt(s[1..], t, i - 1);
      }
    }
  }

  /** A text shorter than `t` does not contain it. */
  lemma {:induction false} ShorterDoesNotContain(s: string, t: string)
    requires |s| < |t|
    ensures !Contains(s, t)
    decreases |s|
  {
    if |s| > 0 {
      ShorterDoesNotContain(s[1..], t);
    }
  }

  /** A text of the same length as `t` contains it only by being equal to it. */
  lemma SameLengthContains(s: string, t: string)
    requires |s| == |t|
    ensures Contains(s, t) <==> s == t
  {
    if |s| > 0 {
      ShorterDoesNotContain(s[1..], t);
    }
  }

  /** A text in which the first character of `t` does not occur does not contain `t`. */
  lemma {:induction false} MissingFirstCharacter(s: string, t: string)
    requires |t| > 0 && t[0] !in s
    ensures !Contains(s, t)
    decreases |s|
  {
    if |s| > 0 {
      assert |t| <= |s| ==> s[..|t|][0] == s[0];
      MissingFirstCharacter(s[1..], t);
    }
  }

  /** A text contains its prefixes. */
  lemma ContainsPrefix(t: string, rest: string)
    ensures Contains(t + rest, t)
  {
    assert (t + rest)[..|t|] == t;
  }
}
