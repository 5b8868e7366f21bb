/** The operations of Go's `strings` package that the program relies on, over sequences of characters. */
module Text {

  predicate StartsWith(s: string, p: string) {
    |p| <= |s| && s[..|p|] == p
  }

  /** Position of the first occurrence of `p` in `s`, or -1. */
  function Index(s: string, p: string): (i: int)
    ensures -1 <= i <= |s|
  {
    if StartsWith(s, p) then 0
    else if s == "" then -1
    else
      var r := Index(s[1..], p);
      if r == -1 then -1 else r + 1
  }

  predicate Contains(s: string, p: string) {
    Index(s, p) != -1
  }

  /** Every occurrence of `pat`, found from left to right without overlap, becomes `by`. */
  function ReplaceAll(s: string, pat: string, sub: string): string
    requires pat != ""
  {
    if s == "" then ""
    else if StartsWith(s, pat) then sub + ReplaceAll(s[|pat|..], pat, sub)
    else [s[0]] + ReplaceAll(s[1..], pat, sub)
  }

  function Join(parts: seq<string>, sep: char): string
    requires |parts| >= 1
  {
    if |parts| == 1 then parts[0] else parts[0] + [sep] + Join(parts[1..], sep)
  }

  /** Splits at every `sep`; joining the parts again gives back the text. */
  function Split(s: string, sep: char): (parts: seq<string>)
    ensures |parts| >= 1
    ensures forall k :: 0 <= k < |parts| ==> sep !in parts[k]
    ensures Join(parts, sep) == s
  {
    if s == "" then [""]
    else
      var rest := Split(s[1..], sep);
      if s[0] == sep then
        assert ([""] + rest)[1..] == rest;
        [""] + rest
      else
        var parts := [[s[0]] + rest[0]] + rest[1..];
        assert parts[1..] == rest[1..];
        assert s == [s[0]] + s[1..];
        assert |rest| > 1 ==> Join(parts, sep) == [s[0]] + rest[0] + [sep] + Join(rest[1..], sep);
        parts
  }

  lemma {:induction false} SplitWhole(s: string, sep: char)
    requires sep !in s
    ensures Split(s, sep) == [s]
  {
    if s != "" { SplitWhole(s[1..], sep); }
  }

  /** A separator-free head followed by a separator is the first part. */
  lemma {:induction false} SplitHead(head: string, tail: string, sep: char)
    requires sep !in head
    ensures Split(head + [sep] + tail, sep) == [head] + Split(tail, sep)
  {
    var s := head + [sep] + tail;
    if head == "" {
      assert s[1..] == tail;
    } else {
      assert s[1..] == head[1..] + [sep] + tail;
      SplitHead(head[1..], tail, sep);
      assert head == [head[0]] + head[1..];
    }
  }

  /** Text without the first character of `pat` passes through a replacement unchanged. */
  lemma {:induction false} ReplaceSkips(prefix: string, rest: string, pat: string, sub: string)
    requires pat != "" && pat[0] !in prefix
    ensures ReplaceAll(prefix + rest, pat, sub) == prefix + ReplaceAll(rest, pat, sub)
  {
    if prefix == "" {
      assert prefix + rest == rest;
    } else {
      var s := prefix + rest;
      assert s[0] == prefix[0] && s[1..] == prefix[1..] + rest;
      assert |pat| <= |s| ==> s[..|pat|][0] == prefix[0];
      ReplaceSkips(prefix[1..], rest, pat, sub);
    }
  }

  /** Text without the first character of `p` in front of `rest` holds no part of an occurrence. */
  lemma {:induction false} ContainsSkips(prefix: string, rest: string, p: string)
    requires p != "" && p[0] !in prefix
    ensures Contains(prefix + rest, p) <==> Contains(rest, p)
  {
    if prefix == "" {
      assert prefix + rest == rest;
    } else {
      var s := prefix + rest;
      assert s[1..] == prefix[1..] + rest && s[0] == prefix[0];
      assert |p| <= |s| ==> s[..|p|][0] == prefix[0];
      ContainsSkips(prefix[1..], rest, p);
    }
  }

  /** An occurrence of `p` at position `i`, character by character. */
  predicate At(s: string, p: string, i: int) {
    0 <= i && i + |p| <= |s| && forall k :: 0 <= k < |p| ==> p[k] == s[i + k]
  }

  predicate FirstAt(s: string, p: string, i: int) {
    At(s, p, i) && forall j :: 0 <= j < i ==> !At(s, p, j)
  }

  lemma AtIsStart(s: string, p: string, i: nat)
    requires i <= |s|
    ensures At(s, p, i) <==> StartsWith(s[i..], p)
  {
    if i + |p| <= |s| {
      assert forall k :: 0 <= k < |p| ==> s[i..][..|p|][k] == s[i + k];
    }
  }

  /** An occurrence later than the first position is one in the rest of the text. */
  lemma AtLater(s: string, p: string, i: int)
    requires s != ""
    ensures i >= 1 ==> (At(s, p, i) <==> At(s[1..], p, i - 1))
  {
    if i >= 1 { AtBack(s[..1], s[1..], p, i - 1); }
    assert s == s[..1] + s[1..];
  }

  /** `Index` finds the first occurrence, if there is one. */
  lemma {:induction false} IndexIsFirst(s: string, p: string)
    ensures Index(s, p) >= 0 ==> FirstAt(s, p, Index(s, p))
    ensures Contains(s, p) <==> exists i :: At(s, p, i)
  {
    hide At;
    AtBounds(s, p);
    AtIsStart(s, p, 0);
    assert s[0..] == s;
    if s != "" {
      IndexIsFirst(s[1..], p);
      forall i ensures i >= 1 ==> (At(s, p, i) <==> At(s[1..], p, i - 1)) { AtLater(s, p, i); }
      forall i ensures At(s[1..], p, i) ==> At(s, p, i + 1) { AtLater(s, p, i + 1); AtBounds(s[1..], p); }
    }
  }

  lemma FirstIsIndex(s: string, p: string, i: int)
    requires FirstAt(s, p, i)
    ensures Index(s, p) == i
  {
    IndexIsFirst(s, p);
    var j := Index(s, p);
    assert j <= i && i <= j;
  }

  /** Text without the last character of `p` behind `front` holds no part of an occurrence. */
  lemma ContainsStops(front: string, suffix: string, p: string)
    requires p != "" && p[|p| - 1] !in suffix
    ensures Contains(front + suffix, p) <==> Contains(front, p)
  {
    hide Contains, Index;
    var s := front + suffix;
    IndexIsFirst(s, p);
    IndexIsFirst(front, p);
    forall i ensures At(s, p, i) <==> At(front, p, i) {
      if |front| < i + |p| <= |s| && i >= 0 {
        assert s[i + (|p| - 1)] == suffix[i + |p| - 1 - |front|] && s[i + (|p| - 1)] != p[|p| - 1];
      }
    }
  }

  lemma AtFront(front: string, more: string, p: string, i: int)
    requires i + |p| <= |front|
    ensures At(front + more, p, i) <==> At(front, p, i)
  {
  }

  lemma AtBack(front: string, back: string, p: string, i: nat)
    ensures At(front + back, p, |front| + i) <==> At(back, p, i)
  {
    if i + |p| <= |back| {
      assert forall k :: 0 <= k < |p| ==> (p[k] == back[i + k] <==> p[k] == (front + back)[|front| + i + k]);
    }
  }

  lemma AtAvoids(s: string, p: string, i: int, j: int)
    requires 0 <= j < |s| && s[j] !in p
    ensures At(s, p, i) ==> j < i || i + |p| <= j
  {
    if 0 <= i <= j < i + |p| {
      assert s[i + (j - i)] != p[j - i];
    }
  }

  /** An occurrence of `p` does not stretch over a character that is not in `p`. */
  lemma ContainsAcross(front: string, c: char, back: string, p: string)
    requires p != "" && c !in p
    ensures Contains(front + [c] + back, p) <==> Contains(front, p) || Contains(back, p)
  {
    hide Contains, Index, At;
    var s, n := front + [c] + back, |front| + 1;
    IndexIsFirst(s, p);
    IndexIsFirst(front, p);
    IndexIsFirst(back, p);
    AtBounds(s, p);
    AtBounds(front, p);
    AtBounds(back, p);
    assert s == front + ([c] + back) && s[|front|] == c;
    forall i ensures At(s, p, i) && i + |p| <= |front| ==> At(front, p, i) && Contains(front, p) {
      if i + |p| <= |front| { AtFront(front, [c] + back, p, i); }
    }
    forall i ensures At(front, p, i) ==> At(s, p, i) {
      if i + |p| <= |front| { AtFront(front, [c] + back, p, i); }
    }
    forall i ensures At(s, p, i) && i >= n ==> At(back, p, i - n) {
      if i >= n { AtBack(front + [c], back, p, i - n); }
    }
    forall i ensures At(back, p, i) ==> At(s, p, n + i) {
      if i >= 0 { AtBack(front + [c], back, p, i); }
    }
    forall i ensures At(s, p, i) ==> i + |p| <= |front| || i >= n {
      AtAvoids(s, p, i, |front|);
    }
  }

  lemma AtBounds(s: string, p: string)
    ensures forall i :: At(s, p, i) ==> 0 <= i && i + |p| <= |s|
  {
  }
}
