/** The handful of System.String operations the core uses, on ASCII text. */
module Strings {

  /** String.Join(sep, parts): the parts with one separator between neighbours. */
  function Join(parts: seq<string>, sep: char): string
  {
    if |parts| == 0 then ""
    else if |parts| == 1 then parts[0]
    else parts[0] + [sep] + Join(parts[1..], sep)
  }

  /** Joining one more part appends a separator and that part. */
  lemma {:induction false} JoinSnoc(parts: seq<string>, last: string, sep: char)
    requires |parts| >= 1
    ensures Join(parts + [last], sep) == Join(parts, sep) + [sep] + last
  {
    if |parts| > 1 {
      JoinSnoc(parts[1..], last, sep);
      assert (parts + [last])[1..] == parts[1..] + [last];
    } else {
      assert (parts + [last])[1..] == [last];
    }
  }

  /** Joining two non-empty lists puts one separator between them. */
  lemma {:induction false} JoinAppend(a: seq<string>, b: seq<string>, sep: char)
    requires |a| >= 1 && |b| >= 1
    ensures Join(a + b, sep) == Join(a, sep) + [sep] + Join(b, sep)
  {
    if |a| > 1 {
      JoinAppend(a[1..], b, sep);
      assert (a + b)[1..] == a[1..] + b;
    } else {
      assert (a + b)[1..] == b;
    }
  }

  /** String.Split(sep): the pieces between the separators, empty pieces kept. */
  function Split(s: string, sep: char): (parts: seq<string>)
    ensures |parts| >= 1
    ensures forall i :: 0 <= i < |parts| ==> sep !in parts[i]
    ensures Join(parts, sep) == s
    ensures |parts| == 1 <==> sep !in s
  {
    if |s| == 0 then [""]
    else if s[0] == sep then [""] + Split(s[1..], sep)
    else
      var rest := Split(s[1..], sep);
      [[s[0]] + rest[0]] + rest[1..]
  }

  /** Splitting at the first separator peels off the text before it. */
  lemma {:induction false} SplitAtFirst(head: string, tail: string, sep: char)
    requires sep !in head
    ensures Split(head + [sep] + tail, sep) == [head] + Split(tail, sep)
  {
    if head == [] {
      assert head + [sep] + tail == [sep] + tail;
      assert ([sep] + tail)[1..] == tail;
    } else {
      var s := head + [sep] + tail;
      assert s[0] == head[0] && s[0] != sep;
      assert s[1..] == head[1..] + [sep] + tail;
      SplitAtFirst(head[1..], tail, sep);
      var r := Split(s[1..], sep);
      assert r[0] == head[1..] && r[1..] == Split(tail, sep);
      assert [s[0]] + r[0] == head;
    }
  }

  /** Split undoes Join when no part holds the separator. */
  lemma {:induction false} SplitJoin(parts: seq<string>, sep: char)
    requires |parts| >= 1
    requires forall i :: 0 <= i < |parts| ==> sep !in parts[i]
    ensures Split(Join(parts, sep), sep) == parts
  {
    if |parts| > 1 {
      SplitJoin(parts[1..], sep);
      SplitAtFirst(parts[0], Join(parts[1..], sep), sep);
      assert [parts[0]] + parts[1..] == parts;
    }
  }

  /** String.StartsWith(prefix), compared character by character. */
  predicate StartsWith(s: string, prefix: string)
  {
    |prefix| <= |s| && s[..|prefix|] == prefix
  }

  /** String.Contains(sub), ordinal comparison. */
  predicate Contains(s: string, sub: string)
    decreases |s|
  {
    StartsWith(s, sub) || (|s| > 0 && Contains(s[1..], sub))
  }

  function LowerChar(c: char): char
  {
    if 'A' <= c <= 'Z' then (c as int + 32) as char else c
  }

  function UpperChar(c: char): char
  {
    if 'a' <= c <= 'z' then (c as int - 32) as char else c
  }

  /** ToLower / ToLowerInvariant on ASCII text. */
  function ToLower(s: string): (r: string)
    ensures |r| == |s|
    ensures forall i :: 0 <= i < |s| ==> r[i] == LowerChar(s[i])
  {
    if s == [] then [] else [LowerChar(s[0])] + ToLower(s[1..])
  }

  /** ToUpper on ASCII text. */
  function ToUpper(s: string): (r: string)
    ensures |r| == |s|
    ensures forall i :: 0 <= i < |s| ==> r[i] == UpperChar(s[i])
  {
    if s == [] then [] else [UpperChar(s[0])] + ToUpper(s[1..])
  }

  lemma {:induction false} ToLowerAppend(a: string, b: string)
    ensures ToLower(a + b) == ToLower(a) + ToLower(b)
  {
    var l, r := ToLower(a + b), ToLower(a) + ToLower(b);
    assert |l| == |r|;
    forall i | 0 <= i < |l| ensures l[i] == r[i] {
      if i < |a| { assert (a + b)[i] == a[i]; } else { assert (a + b)[i] == b[i - |a|]; }
    }
  }

  /** s.Replace(c.ToString(), ""): every occurrence of c removed. */
  function RemoveAll(s: string, c: char): (r: string)
    ensures c !in r
    ensures |r| <= |s|
    ensures forall x :: x in r <==> x in s && x != c
  {
    if s == [] then [] else (if s[0] == c then [] else [s[0]]) + RemoveAll(s[1..], c)
  }

  lemma {:induction false} RemoveAllAppend(a: string, b: string, c: char)
    ensures RemoveAll(a + b, c) == RemoveAll(a, c) + RemoveAll(b, c)
  {
    if a != [] {
      RemoveAllAppend(a[1..], b, c);
      assert (a + b)[0] == a[0];
      assert (a + b)[1..] == a[1..] + b;
      var h: string := if a[0] == c then [] else [a[0]];
      assert RemoveAll(a + b, c) == h + (RemoveAll(a[1..], c) + RemoveAll(b, c));
      assert RemoveAll(a, c) == h + RemoveAll(a[1..], c);
    } else {
      assert a + b == b;
    }
  }

  /** TrimStart(chars): leading characters drawn from cs removed. */
  function TrimStart(s: string, cs: set<char>): (r: string)
    ensures |r| <= |s| && r == s[|s| - |r|..]
    ensures r == "" || r[0] !in cs
    ensures forall i :: 0 <= i < |s| - |r| ==> s[i] in cs
  {
    if |s| > 0 && s[0] in cs then TrimStart(s[1..], cs) else s
  }

  /** TrimEnd(chars): trailing characters drawn from cs removed. */
  function TrimEnd(s: string, cs: set<char>): (r: string)
    ensures |r| <= |s| && r == s[..|r|]
    ensures r == "" || r[|r| - 1] !in cs
    ensures forall i :: |r| <= i < |s| ==> s[i] in cs
  {
    if |s| > 0 && s[|s| - 1] in cs then TrimEnd(s[..|s| - 1], cs) else s
  }

  /** r is s[i..i + |r|] and everything cut off on either side is drawn from cs. */
  ghost predicate TrimmedAt(s: string, cs: set<char>, i: int, r: string)
  {
    0 <= i <= |s| - |r| && r == s[i..i + |r|]
    && (forall k :: 0 <= k < i ==> s[k] in cs)
    && (forall k :: i + |r| <= k < |s| ==> s[k] in cs)
  }

  /**
   * Trim(chars): the longest middle piece of s that neither starts nor ends
   * with a character from cs; only characters from cs are cut away.
   */
  function Trim(s: string, cs: set<char>): (r: string)
    ensures |r| <= |s|
    ensures r == "" || (r[0] !in cs && r[|r| - 1] !in cs)
    ensures (s == "" || (s[0] !in cs && s[|s| - 1] !in cs)) ==> r == s
  {
    var front := TrimStart(s, cs);
    var both := TrimEnd(front, cs);
    TrimPieces(s, cs, front, both);
    both
  }

  /**
   * What Trim promises, from what its two passes promise: a back part of s
   * with only cs before it, then a front part of that with only cs after it.
   */
  lemma TrimPieces(s: string, cs: set<char>, front: string, both: string)
    requires |front| <= |s| && front == s[|s| - |front|..]
    requires front == "" || front[0] !in cs
    requires forall k :: 0 <= k < |s| - |front| ==> s[k] in cs
    requires |both| <= |front| && both == front[..|both|]
    requires both == "" || both[|both| - 1] !in cs
    requires forall k :: |both| <= k < |front| ==> front[k] in cs
    ensures both == "" || (both[0] !in cs && both[|both| - 1] !in cs)
    ensures TrimmedAt(s, cs, |s| - |front|, both)
    ensures (s == "" || (s[0] !in cs && s[|s| - 1] !in cs)) ==> both == s
  {
    SliceOfSuffix(s, front, both, cs);
    if both != "" {
      assert both[0] == front[0];
    }
    if s != "" && s[0] !in cs && s[|s| - 1] !in cs {
      assert |front| == |s|;
      assert |both| == |front|;
    }
  }

  /** Trim cuts a middle slice out of s, and only characters from cs are cut away. */
  lemma TrimIsSlice(s: string, cs: set<char>)
    ensures TrimmedAt(s, cs, |s| - |TrimStart(s, cs)|, Trim(s, cs))
  {
    var front := TrimStart(s, cs);
    var both := TrimEnd(front, cs);
    assert Trim(s, cs) == both;
    TrimPieces(s, cs, front, both);
  }

  /** A prefix of a suffix of s is a middle slice of s, and what the prefix drops lies at the end of s. */
  lemma SliceOfSuffix(s: string, front: string, both: string, cs: set<char>)
    requires |front| <= |s| && front == s[|s| - |front|..]
    requires |both| <= |front| && both == front[..|both|]
    requires forall k :: |both| <= k < |front| ==> front[k] in cs
    ensures both == s[|s| - |front|..|s| - |front| + |both|]
    ensures forall k :: |s| - |front| + |both| <= k < |s| ==> s[k] in cs
  {
    var i := |s| - |front|;
    forall k | i + |both| <= k < |s| ensures s[k] in cs {
      assert s[k] == front[k - i];
    }
  }

  /** The characters Char.IsWhiteSpace accepts, restricted to ASCII. */
  const WhiteSpace: set<char> := {' ', '\t', '\n', '\r', '\U{000B}', '\U{000C}'}

  lemma {:induction false} TrimStartPrefix(pre: string, y: string, cs: set<char>)
    requires forall k :: 0 <= k < |pre| ==> pre[k] in cs
    requires y == "" || y[0] !in cs
    ensures TrimStart(pre + y, cs) == y
  {
    if pre == [] {
      assert pre + y == y;
    } else {
      assert (pre + y)[0] == pre[0];
      assert (pre + y)[1..] == pre[1..] + y;
      TrimStartPrefix(pre[1..], y, cs);
    }
  }

  lemma {:induction false} TrimEndSuffix(y: string, post: string, cs: set<char>)
    requires forall k :: 0 <= k < |post| ==> post[k] in cs
    requires y == "" || y[|y| - 1] !in cs
    ensures TrimEnd(y + post, cs) == y
  {
    if post == [] {
      assert y + post == y;
    } else {
      var s := y + post;
      assert s[|s| - 1] == post[|post| - 1];
      assert s[..|s| - 1] == y + post[..|post| - 1];
      TrimEndSuffix(y, post[..|post| - 1], cs);
    }
  }

  /** Trim removes exactly a surrounding run of cut characters. */
  lemma TrimAround(pre: string, x: string, post: string, cs: set<char>)
    requires forall k :: 0 <= k < |pre| ==> pre[k] in cs
    requires forall k :: 0 <= k < |post| ==> post[k] in cs
    requires x == "" || (x[0] !in cs && x[|x| - 1] !in cs)
    ensures Trim(pre + x + post, cs) == x
  {
    if x == "" {
      var s := pre + x + post;
      assert s == pre + post;
      forall k | 0 <= k < |s| ensures s[k] in cs {
        if k < |pre| { assert s[k] == pre[k]; } else { assert s[k] == post[k - |pre|]; }
      }
    } else {
      assert pre + x + post == pre + (x + post);
      TrimStartPrefix(pre, x + post, cs);
      TrimEndSuffix(x, post, cs);
    }
  }
}
