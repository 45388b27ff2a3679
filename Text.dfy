/** String facilities the projects command relies on: Go's ordering of strings
    and the line structure of the text it prints. */
module Text {

  /** Go's `a < b` on strings: lexicographic order, where a proper prefix comes
      first. Go compares the UTF-8 bytes; comparing code points gives the same
      order, because UTF-8 encoding preserves the order of code points. */
  predicate Less(a: string, b: string)
    ensures Less(a, b) ==> |b| > 0
    ensures |a| < |b| && a == b[..|a|] ==> Less(a, b)
    decreases |a|
  {
    if |a| == 0 then |b| > 0
    else if |b| == 0 then false
    else if a[0] != b[0] then a[0] < b[0]
    else Less(a[1..], b[1..])
  }

  lemma {:induction false} LessIrreflexive(a: string)
    ensures !Less(a, a)
  {
    if |a| > 0 {
      LessIrreflexive(a[1..]);
    }
  }

  lemma {:induction false} LessTransitive(a: string, b: string, c: string)
    requires Less(a, b) && Less(b, c)
    ensures Less(a, c)
    decreases |a|
  {
    if |a| > 0 && a[0] == b[0] && b[0] == c[0] {
      LessTransitive(a[1..], b[1..], c[1..]);
    }
  }

  /** Any two distinct strings are ordered one way or the other. */
  lemma {:induction false} LessTotal(a: string, b: string)
    ensures a == b || Less(a, b) || Less(b, a)
    decreases |a|
  {
    if |a| > 0 && |b| > 0 && a[0] == b[0] {
      LessTotal(a[1..], b[1..]);
      if a[1..] == b[1..] {
        assert a == [a[0]] + a[1..] && b == [b[0]] + b[1..];
      }
    }
  }

  /** Any two strings are not below each other both ways. */
  lemma LessAsymmetric(a: string, b: string)
    ensures !(Less(a, b) && Less(b, a))
  {
    if Less(a, b) && Less(b, a) {
      LessTransitive(a, b, a);
      LessIrreflexive(a);
    }
  }

  /** The textbook definition of lexicographic order: `a` is a proper prefix
      of `b`, or the two agree up to a position where `a` has the smaller
      character. */
  ghost predicate LexBelow(a: string, b: string) {
    (|a| < |b| && a == b[..|a|]) ||
    (exists k :: 0 <= k < |a| && k < |b| && a[..k] == b[..k] && a[k] < b[k])
  }

  /** `Less` is exactly that order. */
  lemma {:induction false} LessIsLexBelow(a: string, b: string)
    ensures Less(a, b) <==> LexBelow(a, b)
    decreases |a|
  {
    if |a| > 0 && |b| > 0 {
      if a[0] != b[0] {
        if a[0] < b[0] {
          assert a[..0] == b[..0];
        }
      } else {
        LessIsLexBelow(a[1..], b[1..]);
        var a', b' := a[1..], b[1..];
        if |a'| < |b'| && a' == b'[..|a'|] {
          assert a == [a[0]] + a';
          assert b[..|a|] == [b[0]] + b[1..][..|a'|];
        }
        if |a| < |b| && a == b[..|a|] {
          assert a' == b'[..|a'|];
        }
        if k :| 0 <= k < |a'| && k < |b'| && a'[..k] == b'[..k] && a'[k] < b'[k] {
          assert a[..k + 1] == [a[0]] + a'[..k] && b[..k + 1] == [b[0]] + b'[..k];
          assert a[k + 1] == a'[k] && b[k + 1] == b'[k];
        }
        if k :| 0 <= k < |a| && k < |b| && a[..k] == b[..k] && a[k] < b[k] {
          assert k > 0;
          assert a'[..k - 1] == a[..k][1..] && b'[..k - 1] == b[..k][1..];
          assert a'[k - 1] == a[k] && b'[k - 1] == b[k];
        }
      }
    }
  }

  /** True when `s` holds no line break. */
  predicate SingleLine(s: string) {
    '\n' !in s
  }

  /** Go's `strings.Join(xs, "\n")`: the strings in order, one line break
      between neighbours and none before the first or after the last. */
  function Join(xs: seq<string>): string {
    if |xs| == 0 then ""
    else if |xs| == 1 then xs[0]
    else xs[0] + "\n" + Join(xs[1..])
  }

  /** Go's `strings.Split(s, "\n")`: the pieces of `s` between line breaks.
      There is always at least one piece. */
  function Split(s: string): (r: seq<string>)
    ensures |r| >= 1
  {
    if |s| == 0 then [""]
    else if s[0] == '\n' then [""] + Split(s[1..])
    else
      var rest := Split(s[1..]);
      [[s[0]] + rest[0]] + rest[1..]
  }

  /** Appending one more string to a non-empty list adds one line break and
      that string at the end. */
  lemma {:induction false} JoinSnoc(xs: seq<string>, x: string)
    requires |xs| > 0
    ensures Join(xs + [x]) == Join(xs) + "\n" + x
  {
    if |xs| == 1 {
      assert xs + [x] == [xs[0], x];
      assert [xs[0], x][1..] == [x];
    } else {
      assert (xs + [x])[1..] == xs[1..] + [x];
      JoinSnoc(xs[1..], x);
    }
  }

  /** A string without a line break is a single piece. */
  lemma {:induction false} SplitSingle(s: string)
    requires SingleLine(s)
    ensures Split(s) == [s]
  {
    if |s| > 0 {
      assert SingleLine(s[1..]) by {
        forall k | 0 <= k < |s[1..]| ensures s[1..][k] != '\n' {
          assert s[1..][k] == s[k + 1];
        }
      }
      SplitSingle(s[1..]);
      assert [s[0]] + s[1..] == s;
    }
  }

  /** A line break after a line-free prefix cuts exactly there. */
  lemma {:induction false} SplitAfter(a: string, b: string)
    requires SingleLine(a)
    ensures Split(a + "\n" + b) == [a] + Split(b)
    decreases |a|
  {
    if |a| == 0 {
      assert a + "\n" + b == ['\n'] + b;
      assert (['\n'] + b)[1..] == b;
    } else {
      var s := a + "\n" + b;
      assert s[0] == a[0] && s[0] != '\n';
      assert s[1..] == a[1..] + "\n" + b;
      assert SingleLine(a[1..]) by {
        forall k | 0 <= k < |a[1..]| ensures a[1..][k] != '\n' {
          assert a[1..][k] == a[k + 1];
        }
      }
      SplitAfter(a[1..], b);
      assert [a[0]] + a[1..] == a;
    }
  }

  /** Splitting undoes joining, for a non-empty list of single lines. */
  lemma {:induction false} SplitJoin(xs: seq<string>)
    requires |xs| > 0
    requires forall k :: 0 <= k < |xs| ==> SingleLine(xs[k])
    ensures Split(Join(xs)) == xs
  {
    if |xs| == 1 {
      SplitSingle(xs[0]);
    } else {
      SplitAfter(xs[0], Join(xs[1..]));
      SplitJoin(xs[1..]);
      assert [xs[0]] + xs[1..] == xs;
    }
  }

  /** A single header line, an empty line, then the joined lines. */
  lemma SplitHeaded(header: string, xs: seq<string>)
    requires SingleLine(header)
    requires |xs| > 0
    requires forall k :: 0 <= k < |xs| ==> SingleLine(xs[k])
    ensures Split(header + "\n" + ("\n" + Join(xs))) == [header, ""] + xs
  {
    var body := Join(xs);
    SplitJoin(xs);
    SplitAfter("", body);
    assert "" + "\n" + body == "\n" + body;
    SplitAfter(header, "\n" + body);
  }
}
