/**
  The handful of Python 2 string operations that `Command.__call__` uses to
  build a command line (`str.strip()`, `' '.join(...)`, and the truthiness test
  that skips empty parts), with `str.split(' ')` as the inverse of the join.
 */
module Text {

  /** The characters Python 2's `str.strip()` removes: space, \t, \n, \v, \f and \r. */
  predicate IsSpace(c: char) {
    c == ' ' || c == '\t' || c == '\n' || c == '\r' || c == 11 as char || c == 12 as char
  }

  /** Neither the first nor the last character is whitespace. */
  predicate Clean(s: string) {
    s == [] || (!IsSpace(s[0]) && !IsSpace(s[|s| - 1]))
  }

  /** A non-empty string without any whitespace character. */
  predicate Word(s: string) {
    s != [] && forall i :: 0 <= i < |s| ==> !IsSpace(s[i])
  }

  /** Removes leading whitespace: the result is the longest suffix that does not start with whitespace. */
  function TrimLeft(s: string): (r: string)
    ensures |r| <= |s| && r == s[|s| - |r|..]
    ensures forall i :: 0 <= i < |s| - |r| ==> IsSpace(s[i])
    ensures r == [] || !IsSpace(r[0])
  {
    if s != [] && IsSpace(s[0]) then TrimLeft(s[1..]) else s
  }

  /** Removes trailing whitespace: the result is the longest prefix that does not end with whitespace. */
  function TrimRight(s: string): (r: string)
    ensures |r| <= |s| && r == s[..|r|]
    ensures forall i :: |r| <= i < |s| ==> IsSpace(s[i])
    ensures r == [] || !IsSpace(r[|r| - 1])
  {
    if s != [] && IsSpace(s[|s| - 1]) then TrimRight(s[..|s| - 1]) else s
  }

  /** Python's `s.strip()`: whitespace dropped from both ends. */
  function Strip(s: string): (r: string)
    ensures Clean(r)
    ensures |r| <= |s|
  {
    TrimRight(TrimLeft(s))
  }

  /** Stripping a clean string changes nothing. */
  lemma StripOfClean(s: string)
    requires Clean(s)
    ensures Strip(s) == s
  {
  }

  /** `str.strip()` is idempotent. */
  lemma StripIdempotent(s: string)
    ensures Strip(Strip(s)) == Strip(s)
  {
    StripOfClean(Strip(s));
  }

  /**
    What `strip()` keeps is one slice of its input, starting after the
    leading whitespace, and everything outside that slice is whitespace.
   */
  lemma {:induction false} StripIsSlice(s: string)
    ensures var i := |s| - |TrimLeft(s)|;
            && i + |Strip(s)| <= |s|
            && Strip(s) == s[i..i + |Strip(s)|]
            && (forall k :: 0 <= k < i ==> IsSpace(s[k]))
            && (forall k :: i + |Strip(s)| <= k < |s| ==> IsSpace(s[k]))
  {
    var l := TrimLeft(s);
    var i := |s| - |l|;
    var r := TrimRight(l);
    assert l == s[i..];
    assert r == l[..|r|];
    assert s[i..][..|r|] == s[i..i + |r|];
    forall k | i + |r| <= k < |s|
      ensures IsSpace(s[k])
    {
      assert s[k] == l[k - i];
    }
  }

  /** Python's `' '.join(parts)`. */
  function Join(parts: seq<string>): (r: string)
  {
    if |parts| == 0 then ""
    else if |parts| == 1 then parts[0]
    else parts[0] + " " + Join(parts[1..])
  }

  /** Python's `s.split(' ')`: the maximal space-free pieces between single spaces, at least one of them. */
  function Split(s: string): (r: seq<string>)
    ensures |r| >= 1
    ensures forall i :: 0 <= i < |r| ==> ' ' !in r[i]
  {
    if s == [] then [""]
    else
      var rest := Split(s[1..]);
      if s[0] == ' ' then [""] + rest else [[s[0]] + rest[0]] + rest[1..]
  }

  /** The parts that Python's truthiness test keeps: the non-empty ones, in order. */
  function NonEmpty(parts: seq<string>): (r: seq<string>)
    ensures |r| <= |parts|
    ensures forall i :: 0 <= i < |r| ==> r[i] != ""
    ensures (forall i :: 0 <= i < |parts| ==> parts[i] != "") ==> r == parts
  {
    if parts == [] then []
    else (if parts[0] == "" then [] else [parts[0]]) + NonEmpty(parts[1..])
  }

  lemma {:induction false} NonEmptyAppend(a: seq<string>, b: seq<string>)
    ensures NonEmpty(a + b) == NonEmpty(a) + NonEmpty(b)
  {
    if a == [] {
      assert a + b == b;
    } else {
      assert (a + b)[1..] == a[1..] + b;
      NonEmptyAppend(a[1..], b);
    }
  }

  /** The one-part filter: a part survives exactly when it is non-empty. */
  lemma NonEmptyOne(x: string)
    ensures NonEmpty([x]) == if x == "" then [] else [x]
  {
    assert [x][1..] == [];
  }

  /** Joining a part in front of a non-empty list puts one space after it. */
  lemma JoinCons(x: string, xs: seq<string>)
    requires |xs| > 0
    ensures Join([x] + xs) == x + " " + Join(xs)
  {
    assert ([x] + xs)[1..] == xs;
  }

  /** A word holds no space. */
  lemma WordHasNoSpace(w: string)
    requires Word(w)
    ensures ' ' !in w
  {
    assert forall k :: 0 <= k < |w| ==> w[k] != ' ';
  }

  /** Joining two non-empty lists of parts puts exactly one space between them. */
  lemma {:induction false} JoinAppend(xs: seq<string>, ys: seq<string>)
    requires |xs| > 0 && |ys| > 0
    ensures Join(xs + ys) == Join(xs) + " " + Join(ys)
  {
    if |xs| == 1 {
      assert (xs + ys)[1..] == ys;
    } else {
      assert (xs + ys)[1..] == xs[1..] + ys;
      JoinAppend(xs[1..], ys);
    }
  }

  /** Joining words gives a clean, non-empty string. */
  lemma {:induction false} JoinWordsClean(ws: seq<string>)
    requires |ws| > 0 && forall i :: 0 <= i < |ws| ==> Word(ws[i])
    ensures Word(ws[0]) && Word(ws[|ws| - 1])
    ensures Join(ws) != [] && Join(ws)[0] == ws[0][0]
    ensures Join(ws)[|Join(ws)| - 1] == ws[|ws| - 1][|ws[|ws| - 1]| - 1]
    ensures Clean(Join(ws))
  {
    if |ws| > 1 {
      JoinWordsClean(ws[1..]);
    }
  }

  /** A string with no space splits into itself. */
  lemma {:induction false} SplitSpaceFree(w: string)
    requires ' ' !in w
    ensures Split(w) == [w]
  {
    if w != [] {
      SplitSpaceFree(w[1..]);
      assert [w[0]] + w[1..] == w;
    }
  }

  /** A space-free piece followed by a space splits off as one piece. */
  lemma {:induction false} SplitSpaceFreePrefix(w: string, t: string)
    requires ' ' !in w
    ensures Split(w + " " + t) == [w] + Split(t)
  {
    if w == [] {
      assert w + " " + t == [' '] + t;
      assert (w + " " + t)[1..] == t;
    } else {
      assert (w + " " + t)[1..] == w[1..] + " " + t;
      SplitSpaceFreePrefix(w[1..], t);
      assert [w[0]] + w[1..] == w;
    }
  }

  /** `' '.join` followed by `split(' ')` gives back the parts when none contains a space. */
  lemma {:induction false} SplitJoin(parts: seq<string>)
    requires |parts| > 0 && forall i :: 0 <= i < |parts| ==> ' ' !in parts[i]
    ensures Split(Join(parts)) == parts
  {
    if |parts| == 1 {
      SplitSpaceFree(parts[0]);
    } else {
      SplitJoin(parts[1..]);
      SplitSpaceFreePrefix(parts[0], Join(parts[1..]));
    }
  }

  /** `split(' ')` followed by `' '.join` gives back the string. */
  lemma {:induction false} JoinSplit(s: string)
    ensures Join(Split(s)) == s
  {
    if s != [] {
      var rest := Split(s[1..]);
      JoinSplit(s[1..]);
      if s[0] == ' ' {
        if |rest| == 1 {
          assert Join([""] + rest) == "" + " " + rest[0];
        } else {
          JoinAppend([""], rest);
        }
      } else {
        if |rest| == 1 {
          assert Join([[s[0]] + rest[0]]) == [s[0]] + rest[0];
        } else {
          assert rest == [rest[0]] + rest[1..];
          JoinAppend([rest[0]], rest[1..]);
          JoinAppend([[s[0]] + rest[0]], rest[1..]);
        }
      }
    }
  }
}
