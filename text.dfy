/**
 * The few Python string operations the signature code relies on:
 * `sep.join(parts)`, `s.split(sep)` with a one-character separator,
 * `s.startswith(prefix)`, and a count of the places where a pattern occurs,
 * used to state what the XML payloads contain.
 */
module Text {

  /** `sep.join(parts)`. */
  function Join(sep: string, parts: seq<string>): string
    decreases |parts|
  {
    if |parts| == 0 then ""
    else if |parts| == 1 then parts[0]
    else parts[0] + sep + Join(sep, parts[1..])
  }

  /** `s.startswith(prefix)`. */
  predicate StartsWith(s: string, prefix: string) {
    |prefix| <= |s| && s[..|prefix|] == prefix
  }

  /** A string starts with `prefix` exactly when it is `prefix` followed by some rest; every string starts with `""`. */
  lemma StartsWithMeans(s: string, prefix: string)
    ensures StartsWith(s, prefix) <==> exists rest :: s == prefix + rest
    ensures StartsWith(s, "")
  {
    if StartsWith(s, prefix) {
      assert s == prefix + s[|prefix|..];
    }
    if exists rest :: s == prefix + rest {
      var rest :| s == prefix + rest;
      assert s[..|prefix|] == prefix;
    }
  }

  /**
   * `s.split(c)`: cut at every occurrence of `c`, keeping empty pieces, so that
   * the result is never empty and no piece contains the separator.
   */
  function Split(s: string, c: char): (r: seq<string>)
    ensures |r| > 0
    ensures forall k :: 0 <= k < |r| ==> c !in r[k]
    decreases |s|
  {
    if |s| == 0 then [""]
    else
      var rest := Split(s[1..], c);
      if s[0] == c then [""] + rest
      else [[s[0]] + rest[0]] + rest[1..]
  }

  /** Appending one part to a join adds the separator only when there was something before. */
  lemma {:induction false} JoinAppend(sep: string, parts: seq<string>, p: string)
    ensures Join(sep, parts + [p]) == if |parts| == 0 then p else Join(sep, parts) + sep + p
    decreases |parts|
  {
    if |parts| == 0 {
      assert parts + [p] == [p];
    } else if |parts| == 1 {
      assert parts + [p] == [parts[0], p];
    } else {
      assert (parts + [p])[1..] == parts[1..] + [p];
      JoinAppend(sep, parts[1..], p);
    }
  }

  /** `''.join` distributes over list concatenation. */
  lemma {:induction false} ConcatAppend(a: seq<string>, b: seq<string>)
    ensures Join("", a + b) == Join("", a) + Join("", b)
    decreases |a|
  {
    if |a| == 0 {
      assert a + b == b;
    } else if |a| == 1 {
      if |b| == 0 {
        assert a + b == a;
      } else {
        assert (a + b)[1..] == b;
      }
    } else {
      assert (a + b)[1..] == a[1..] + b;
      ConcatAppend(a[1..], b);
    }
  }

  /** `''.join` of a two-piece list. */
  lemma JoinTwo(a: string, b: string)
    ensures Join("", [a, b]) == a + b
  {
    assert [a, b][1..] == [b];
    assert Join("", [a, b]) == a + "" + b;
  }

  /** `''.join` of a three-piece list. */
  lemma JoinThree(parts: seq<string>)
    requires |parts| == 3
    ensures Join("", parts) == parts[0] + parts[1] + parts[2]
  {
    assert parts[1..][1..] == [parts[2]];
    assert Join("", parts[1..]) == parts[1] + "" + parts[2];
    assert Join("", parts) == parts[0] + "" + (parts[1] + "" + parts[2]);
  }

  /** `''.join` of a head list, a body list and one final piece. */
  lemma JoinAround(head: seq<string>, body: seq<string>, last: string)
    ensures Join("", head + body + [last]) == Join("", head) + Join("", body) + last
  {
    ConcatAppend(head + body, [last]);
    ConcatAppend(head, body);
  }

  /** Joining the pieces of a split with the same separator gives back the string. */
  lemma {:induction false} JoinSplit(s: string, c: char)
    ensures Join([c], Split(s, c)) == s
    decreases |s|
  {
    if |s| > 0 {
      var rest := Split(s[1..], c);
      JoinSplit(s[1..], c);
      if s[0] == c {
        assert ([""] + rest)[1..] == rest;
        assert s == [c] + s[1..];
      } else if |rest| == 1 {
        assert s == [s[0]] + s[1..];
      } else {
        var r := [[s[0]] + rest[0]] + rest[1..];
        assert r[1..] == rest[1..];
        assert s == [s[0]] + s[1..];
      }
    }
  }

  /** Splitting a string that starts with a separator-free piece `x`. */
  lemma {:induction false} SplitAfterPlain(x: string, t: string, c: char)
    requires c !in x
    ensures Split(x + t, c) == [x + Split(t, c)[0]] + Split(t, c)[1..]
    decreases |x|
  {
    if |x| == 0 {
      assert x + t == t;
      assert x + Split(t, c)[0] == Split(t, c)[0];
      assert Split(t, c) == [Split(t, c)[0]] + Split(t, c)[1..];
    } else {
      assert (x + t)[1..] == x[1..] + t;
      assert x[0] in x;
      assert c !in x[1..] by {
        forall i | 0 <= i < |x[1..]| ensures x[1..][i] != c {
          assert x[1..][i] == x[i + 1];
        }
      }
      SplitAfterPlain(x[1..], t, c);
      assert [x[0]] + (x[1..] + Split(t, c)[0]) == x + Split(t, c)[0];
    }
  }

  /** Splitting a join of separator-free pieces gives back the pieces. */
  lemma {:induction false} SplitJoin(parts: seq<string>, c: char)
    requires |parts| > 0
    requires forall k :: 0 <= k < |parts| ==> c !in parts[k]
    ensures Split(Join([c], parts), c) == parts
    decreases |parts|
  {
    if |parts| == 1 {
      SplitAfterPlain(parts[0], "", c);
      assert parts[0] + "" == parts[0];
    } else {
      var tail := Join([c], parts[1..]);
      SplitJoin(parts[1..], c);
      assert Join([c], parts) == parts[0] + ([c] + tail);
      SplitAfterPlain(parts[0], [c] + tail, c);
      assert ([c] + tail)[1..] == tail;
      assert Split([c] + tail, c) == [""] + parts[1..];
      assert parts[0] + "" == parts[0];
      assert parts == [parts[0]] + parts[1..];
    }
  }

  /** The number of positions of `s` at which `p` occurs. */
  function Count(p: string, s: string): nat
    decreases |s|
  {
    if |p| == 0 || |s| < |p| then 0
    else (if s[..|p|] == p then 1 else 0) + Count(p, s[1..])
  }

  /** A pattern that opens a tag occurs nowhere in a text without `<`. */
  lemma {:induction false} CountPlain(p: string, s: string)
    requires |p| > 0 && p[0] == '<'
    requires '<' !in s
    ensures Count(p, s) == 0
    decreases |s|
  {
    if |s| >= |p| {
      assert s[..|p|][0] == s[0];
      assert s[0] in s;
      assert '<' !in s[1..] by {
        forall i | 0 <= i < |s[1..]| ensures s[1..][i] != '<' {
          assert s[1..][i] == s[i + 1];
          assert s[i + 1] in s;
        }
      }
      CountPlain(p, s[1..]);
    }
  }

  /** `s` starts with `<` and holds no other `<`: a tag start followed by text without markup. */
  predicate HeadOnly(s: string) {
    |s| > 0 && s[0] == '<' && forall j :: 1 <= j < |s| ==> s[j] != '<'
  }

  /** A tag start followed by markup-free text is still a tag start. */
  lemma HeadOnlyAppend(lit: string, rest: string)
    requires HeadOnly(lit) && '<' !in rest
    ensures HeadOnly(lit + rest)
  {
    forall j | 1 <= j < |lit + rest| ensures (lit + rest)[j] != '<' {
      if j >= |lit| {
        assert (lit + rest)[j] == rest[j - |lit|];
      }
    }
  }

  /** In a text whose only `<` is its first character, `p` occurs once if the text starts with it. */
  lemma CountHead(p: string, s: string)
    requires |p| > 0 && p[0] == '<'
    requires HeadOnly(s)
    ensures Count(p, s) == if StartsWith(s, p) then 1 else 0
  {
    if |s| >= |p| {
      assert '<' !in s[1..] by {
        forall k | 0 <= k < |s[1..]| ensures s[1..][k] != '<' {
          assert s[1..][k] == s[k + 1];
        }
      }
      CountPlain(p, s[1..]);
    }
  }

  /**
   * Occurrences of a pattern without `>` never straddle the end of a text that
   * ends with `>`, so counts add up across the concatenation.
   */
  lemma {:induction false} CountConcat(p: string, a: string, b: string)
    requires |p| > 0 && '>' !in p
    requires |a| > 0 ==> a[|a| - 1] == '>'
    ensures Count(p, a + b) == Count(p, a) + Count(p, b)
    decreases |a|
  {
    if |a| == 0 {
      assert a + b == b;
    } else if |a + b| >= |p| {
      assert (a + b)[1..] == a[1..] + b;
      assert |a[1..]| > 0 ==> a[1..][|a[1..]| - 1] == a[|a| - 1];
      CountConcat(p, a[1..], b);
      if |a| >= |p| {
        assert (a + b)[..|p|] == a[..|p|];
      } else {
        assert (a + b)[..|p|][|a| - 1] == '>';
        assert '>' in (a + b)[..|p|];
      }
    }
  }

  /** Two texts, the first ending with `>` and the second empty or ending with `>`, end with `>` together. */
  lemma EndsWithTag(a: string, b: string)
    requires |a| > 0 && a[|a| - 1] == '>'
    requires |b| > 0 ==> b[|b| - 1] == '>'
    ensures |a + b| > 0 && (a + b)[|a + b| - 1] == '>'
  {
    if |b| == 0 {
      assert a + b == a;
    }
  }

  /** A text that differs from `p` at some position inside both does not start with `p`. */
  lemma DiffersAt(s: string, p: string, i: nat)
    requires i < |p| && i < |s| && s[i] != p[i]
    ensures !StartsWith(s, p)
  {
    if |p| <= |s| {
      assert s[..|p|][i] == s[i];
    }
  }

  /** A tag whose only `<` is its first character, and which differs from `p` inside both. */
  lemma MismatchCount(p: string, s: string, i: nat)
    requires |p| > 0 && p[0] == '<'
    requires HeadOnly(s)
    requires i < |p| && i < |s| && s[i] != p[i]
    ensures Count(p, s) == 0
  {
    CountHead(p, s);
    DiffersAt(s, p, i);
  }
}
