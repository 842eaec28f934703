/**
 * Splitting a decoded chunk into lines, as `chunk.split('\n')` does in
 * public/main.js: the pieces between newline characters, including an empty
 * piece before a leading newline and after a trailing one.
 */
module Lines {

  /** The lines joined back with a newline between neighbours: the inverse of SplitLines. */
  function JoinLines(ls: seq<string>): string
  {
    if |ls| == 0 then ""
    else if |ls| == 1 then ls[0]
    else ls[0] + "\n" + JoinLines(ls[1..])
  }

  /** No line holds a newline. */
  predicate NoNewlines(ls: seq<string>)
  {
    forall i :: 0 <= i < |ls| ==> '\n' !in ls[i]
  }

  /** Position of the first newline of `s`. */
  function IndexOfNewline(s: string): (k: nat)
    requires '\n' in s
    ensures k < |s| && s[k] == '\n'
    ensures '\n' !in s[..k]
  {
    if s[0] == '\n' then 0
    else
      assert '\n' in s[1..] by { var j :| 0 <= j < |s| && s[j] == '\n'; assert s[1..][j - 1] == '\n'; }
      var k := 1 + IndexOfNewline(s[1..]);
      assert s[..k] == [s[0]] + s[1..][..k - 1];
      k
  }

  /** `s.split('\n')`: the pieces of `s` between newlines, never none. */
  function SplitLines(s: string): (r: seq<string>)
    ensures |r| >= 1
    decreases |s|
  {
    if '\n' in s then
      var k := IndexOfNewline(s);
      [s[..k]] + SplitLines(s[k + 1..])
    else
      [s]
  }

  /** No piece of a split holds a newline, and joining the pieces back gives `s`. */
  lemma {:induction false} JoinSplit(s: string)
    ensures NoNewlines(SplitLines(s))
    ensures JoinLines(SplitLines(s)) == s
    decreases |s|
  {
    if '\n' in s {
      var k := IndexOfNewline(s);
      JoinSplit(s[k + 1..]);
      var rest := SplitLines(s[k + 1..]);
      assert SplitLines(s) == [s[..k]] + rest;
      assert s == s[..k] + "\n" + s[k + 1..];
    }
  }

  /** Splitting undoes joining: SplitLines and JoinLines are inverse on newline-free lines. */
  lemma {:induction false} SplitJoin(ls: seq<string>)
    requires |ls| >= 1 && NoNewlines(ls)
    ensures SplitLines(JoinLines(ls)) == ls
  {
    if |ls| > 1 {
      var s := JoinLines(ls);
      var rest := JoinLines(ls[1..]);
      assert s == ls[0] + "\n" + rest;
      var n := |ls[0]|;
      assert s[n] == '\n';
      assert '\n' in s;
      assert s[..n] == ls[0];
      var k := IndexOfNewline(s);
      assert k == n by {
        assert '\n' !in s[..n];
      }
      assert s[..k] == ls[0];
      assert s[k + 1..] == rest;
      SplitJoin(ls[1..]);
    } else {
      assert '\n' !in ls[0];
    }
  }

  /** Joining a concatenation of two non-empty line lists puts one newline at the seam. */
  lemma {:induction false} JoinAppend(a: seq<string>, b: seq<string>)
    requires |a| >= 1 && |b| >= 1
    ensures JoinLines(a + b) == JoinLines(a) + "\n" + JoinLines(b)
  {
    if |a| == 1 {
      assert (a + b)[1..] == b;
    } else {
      assert (a + b)[1..] == a[1..] + b;
      JoinAppend(a[1..], b);
    }
  }

  /**
   * Merging the last line of `a + [u]` with the first line of `[v] + b` joins
   * to the plain concatenation of the two joined texts.
   */
  lemma JoinSeam(a: seq<string>, u: string, v: string, b: seq<string>)
    ensures JoinLines(a + [u + v] + b) == JoinLines(a + [u]) + JoinLines([v] + b)
  {
    var tail := [u + v] + b;
    assert a + [u + v] + b == a + tail;
    if |b| == 0 {
      assert tail == [u + v];
      assert [v] + b == [v];
    } else {
      JoinAppend([u + v], b);
      JoinAppend([v], b);
    }
    assert JoinLines(tail) == u + JoinLines([v] + b);
    if |a| == 0 {
      assert a + tail == tail;
      assert a + [u] == [u];
    } else {
      JoinAppend(a, tail);
      JoinAppend(a, [u]);
    }
  }

  /**
   * Splitting two chunks separately differs from splitting their concatenation
   * only at the seam: the last piece of `x` and the first piece of `y` form one
   * line of `x + y` but two lines when the chunks are split on their own.
   */
  lemma SplitConcat(x: string, y: string)
    ensures var sx, sy := SplitLines(x), SplitLines(y);
      SplitLines(x + y) == sx[..|sx| - 1] + [sx[|sx| - 1] + sy[0]] + sy[1..]
  {
    var sx, sy := SplitLines(x), SplitLines(y);
    var a, u := sx[..|sx| - 1], sx[|sx| - 1];
    var v, b := sy[0], sy[1..];
    assert sx == a + [u];
    assert sy == [v] + b;
    JoinSplit(x);
    JoinSplit(y);
    var joined := a + [u + v] + b;
    assert NoNewlines(joined) by {
      forall i | 0 <= i < |joined| ensures '\n' !in joined[i] {
        if i < |a| { assert joined[i] == sx[i]; }
        else if i > |a| { assert joined[i] == sy[i - |a|]; }
        else { assert '\n' !in sx[|a|] && '\n' !in sy[0]; }
      }
    }
    JoinSeam(a, u, v, b);
    SplitJoin(joined);
  }
}
