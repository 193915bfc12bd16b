/**
 Splitting text at a separator and joining it again, for container paths (src/manifest.py) and host names
 (src/egress_denylist.py).
 */
module Splitting {
  /** Python's split: one part more than there are separators. */
  function Split(sep: char, text: string): (r: seq<string>)
    ensures |r| > 0
  {
    if text == "" then [""] else Prepend(sep, text[0], Split(sep, text[1..]))
  }

  /** A character put before a split text: a separator opens a part. */
  function Prepend(sep: char, c: char, parts: seq<string>): (r: seq<string>)
    requires |parts| > 0
    ensures |r| > 0
  {
    if c == sep then [""] + parts else [[c] + parts[0]] + parts[1..]
  }

  function Join(sep: char, parts: seq<string>): string
    requires |parts| > 0
  {
    if |parts| == 1 then parts[0] else parts[0] + [sep] + Join(sep, parts[1..])
  }

  /** A text is its parts, so texts with the same parts are the same text. */
  lemma {:induction false} SplitRoundTrip(sep: char, text: string)
    ensures Join(sep, Split(sep, text)) == text
  {
    if text != "" {
      SplitRoundTrip(sep, text[1..]);
      var rest := Split(sep, text[1..]);
      if text[0] == sep {
        assert ([""] + rest)[1..] == rest;
      } else {
        assert ([[text[0]] + rest[0]] + rest[1..])[1..] == rest[1..];
      }
    }
  }

  lemma {:induction false} SplitBeforeSep(sep: char, a: string, rest: string)
    requires rest != "" && rest[0] == sep
    ensures Split(sep, a + rest) == Split(sep, a) + Split(sep, rest[1..])
  {
    if a == "" {
      assert a + rest == rest;
    } else {
      SplitBeforeSep(sep, a[1..], rest);
      assert (a + rest)[1..] == a[1..] + rest && (a + rest)[0] == a[0];
      PrependJoins(sep, a[0], Split(sep, a[1..]), Split(sep, rest[1..]));
    }
  }

  lemma PrependJoins(sep: char, c: char, a: seq<string>, b: seq<string>)
    requires |a| > 0
    ensures Prepend(sep, c, a + b) == Prepend(sep, c, a) + b
  {
    assert (a + b)[0] == a[0] && (a + b)[1..] == a[1..] + b;
  }

  /** Joining two texts with a separator puts their parts one after the other. */
  lemma SplitOfJoin(sep: char, a: string, b: string)
    ensures Split(sep, a + [sep] + b) == Split(sep, a) + Split(sep, b)
  {
    assert a + [sep] + b == a + ([sep] + b) && ([sep] + b)[1..] == b;
    SplitBeforeSep(sep, a, [sep] + b);
  }

  lemma {:induction false} PlainPart(sep: char, s: string)
    requires sep !in s
    ensures Split(sep, s) == [s]
  {
    if s != "" {
      PlainPart(sep, s[1..]);
      assert s[0] in s && [s[0]] + s[1..] == s;
    }
  }

  predicate Plain(sep: char, parts: seq<string>) {
    |parts| > 0 && forall i :: 0 <= i < |parts| ==> sep !in parts[i]
  }

  /** Parts without the separator, joined, split into themselves again. */
  lemma {:induction false} PartsRoundTrip(sep: char, parts: seq<string>)
    requires Plain(sep, parts)
    ensures Split(sep, Join(sep, parts)) == parts
  {
    PlainPart(sep, parts[0]);
    if |parts| > 1 {
      PartsRoundTrip(sep, parts[1..]);
      SplitOfJoin(sep, parts[0], Join(sep, parts[1..]));
      assert parts == [parts[0]] + parts[1..];
    }
  }

  lemma {:induction false} JoinOfConcat(sep: char, a: seq<string>, b: seq<string>)
    requires |a| > 0 && |b| > 0
    ensures Join(sep, a + b) == Join(sep, a) + [sep] + Join(sep, b)
  {
    if |a| == 1 {
      assert (a + b)[1..] == b;
    } else {
      JoinOfConcat(sep, a[1..], b);
      assert (a + b)[1..] == a[1..] + b;
      assert a[0] + [sep] + (Join(sep, a[1..]) + [sep] + Join(sep, b))
          == a[0] + [sep] + Join(sep, a[1..]) + [sep] + Join(sep, b);
    }
  }

  predicate Ends(parts: seq<string>, last: seq<string>) {
    |last| <= |parts| && parts[|parts| - |last|..] == last
  }

  /** A text ends in another, right after a separator or as a whole, exactly when its parts end in the other's. */
  lemma EndsInParts(sep: char, text: string, last: string)
    ensures Ends(Split(sep, text), Split(sep, last)) <==> text == last || exists front :: text == front + [sep] + last
  {
    if front :| text == front + [sep] + last { SplitOfJoin(sep, front, last); }
    if Ends(Split(sep, text), Split(sep, last)) {
      var n := |Split(sep, text)| - |Split(sep, last)|;
      SplitRoundTrip(sep, text);
      SplitRoundTrip(sep, last);
      assert Split(sep, text) == Split(sep, text)[..n] + Split(sep, last);
      if n > 0 {
        JoinOfConcat(sep, Split(sep, text)[..n], Split(sep, last));
        assert text == Join(sep, Split(sep, text)[..n]) + [sep] + last;
      }
    }
  }

  lemma PartsOfAStart(sep: char, first: string, rest: string)
    ensures Split(sep, first) <= Split(sep, first + [sep] + rest)
  {
    SplitOfJoin(sep, first, rest);
  }

  lemma StartOfParts(sep: char, text: string, first: string)
    requires Split(sep, first) <= Split(sep, text)
    ensures text == first || first + [sep] <= text
  {
    var parts, more := Split(sep, first), Split(sep, text)[|Split(sep, first)|..];
    SplitRoundTrip(sep, text);
    SplitRoundTrip(sep, first);
    assert Split(sep, text) == parts + more;
    if more == [] {
      assert parts + more == parts;
    } else {
      JoinOfConcat(sep, parts, more);
    }
  }

  /** A text starts with another, up to a separator or as a whole, exactly when its parts start with the other's. */
  lemma StartsInParts(sep: char, text: string, first: string)
    ensures Split(sep, first) <= Split(sep, text) <==> text == first || first + [sep] <= text
  {
    if first + [sep] <= text {
      assert text == first + [sep] + text[|first| + 1..];
      PartsOfAStart(sep, first, text[|first| + 1..]);
    }
    if Split(sep, first) <= Split(sep, text) { StartOfParts(sep, text, first); }
  }
}
