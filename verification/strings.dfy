/** The two Python string operations the handlers rely on: `str.split(sep)`
    with a one-character separator and `str.strip()` with no argument. */
module Strings {

  /** Number of occurrences of `c` in `s`. */
  function Count(s: string, c: char): nat
  {
    if |s| == 0 then 0 else (if s[0] == c then 1 else 0) + Count(s[1..], c)
  }

  /** Glues `parts` back together with `sep` between neighbours (Python's
      `sep.join(parts)`). */
  function Join(parts: seq<string>, sep: char): string
  {
    if |parts| == 0 then ""
    else if |parts| == 1 then parts[0]
    else parts[0] + [sep] + Join(parts[1..], sep)
  }

  /** Python's `s.split(sep)`: every occurrence of `sep` cuts, so there is
      always one more piece than separators, and pieces may be empty. */
  function Split(s: string, sep: char): (parts: seq<string>)
    ensures |parts| == Count(s, sep) + 1
    ensures forall i :: 0 <= i < |parts| ==> sep !in parts[i]
    ensures Join(parts, sep) == s
  {
    if |s| == 0 then [""]
    else
      var rest := Split(s[1..], sep);
      if s[0] == sep then [""] + rest
      else [[s[0]] + rest[0]] + rest[1..]
  }

  /** Splitting undoes joining when no piece holds the separator. */
  lemma {:induction false} SplitJoin(parts: seq<string>, sep: char)
    requires |parts| >= 1
    requires forall i :: 0 <= i < |parts| ==> sep !in parts[i]
    ensures Split(Join(parts, sep), sep) == parts
    decreases |parts|, |parts[0]|
  {
    if |parts| == 1 {
      SplitNoSep(parts[0], sep);
    } else if |parts[0]| == 0 {
      SplitJoin(parts[1..], sep);
      assert Join(parts, sep) == [sep] + Join(parts[1..], sep);
      assert ([sep] + Join(parts[1..], sep))[1..] == Join(parts[1..], sep);
      assert parts == [""] + parts[1..];
    } else {
      var head := parts[0];
      var shorter := [head[1..]] + parts[1..];
      forall i | 0 <= i < |shorter|
        ensures sep !in shorter[i]
      {
        if i == 0 {
          TailOf(head, sep);
        } else {
          assert shorter[i] == parts[i];
        }
      }
      SplitJoin(shorter, sep);
      var j := Join(parts[1..], sep);
      assert Join(parts, sep) == head + [sep] + j;
      assert shorter[0] == head[1..] && shorter[1..] == parts[1..];
      assert Join(shorter, sep) == head[1..] + [sep] + j;
      Uncons(head, [sep], j);
      assert parts == [head] + shorter[1..];
    }
  }

  /** What is not in a sequence is not in its tail. */
  lemma TailOf<T>(s: seq<T>, x: T)
    requires 0 < |s| && x !in s
    ensures x !in s[1..]
  {
    assert forall k :: 0 <= k < |s[1..]| ==> s[1..][k] == s[k + 1];
  }

  /** The head and tail of a concatenation with a non-empty front. */
  lemma Uncons<T>(x: seq<T>, m: seq<T>, y: seq<T>)
    requires 0 < |x|
    ensures (x + m + y)[0] == x[0]
    ensures (x + m + y)[1..] == x[1..] + m + y
    ensures [x[0]] + x[1..] == x
  {
  }

  /** A string without the separator splits into itself alone. */
  lemma {:induction false} SplitNoSep(s: string, sep: char)
    requires sep !in s
    ensures Split(s, sep) == [s]
    decreases |s|
  {
    if |s| > 0 {
      TailOf(s, sep);
      SplitNoSep(s[1..], sep);
      assert [s[0]] + s[1..] == s;
    }
  }

  /** Cutting at the first separator: the first piece is everything before
      it, and the rest is how the remainder splits. */
  lemma SplitFirst(head: string, sep: char, tail: string)
    requires sep !in head
    ensures Split(head + [sep] + tail, sep) == [head] + Split(tail, sep)
  {
    var parts := [head] + Split(tail, sep);
    assert Join(parts, sep) == head + [sep] + tail by {
      assert parts[1..] == Split(tail, sep);
    }
    SplitJoin(parts, sep);
  }

  /** The characters Python's `str.isspace` accepts, which are the ones
      `str.strip()` removes. */
  predicate IsSpace(c: char)
  {
    || ('\t' <= c <= '\r')
    || ('\U{1C}' <= c <= '\U{1F}')
    || c == ' '
    || c == '\U{85}'
    || c == '\U{A0}'
    || c == '\U{1680}'
    || ('\U{2000}' <= c <= '\U{200A}')
    || c == '\U{2028}'
    || c == '\U{2029}'
    || c == '\U{202F}'
    || c == '\U{205F}'
    || c == '\U{3000}'
  }

  /** Every character of `s` is white space. */
  predicate AllSpace(s: string)
  {
    forall i :: 0 <= i < |s| ==> IsSpace(s[i])
  }

  /** `s` without its leading white space. */
  function TrimStart(s: string): (r: string)
    ensures |r| <= |s| && r == s[|s| - |r|..]
    ensures AllSpace(s[..|s| - |r|])
    ensures r == [] || !IsSpace(r[0])
  {
    if |s| > 0 && IsSpace(s[0]) then
      var r := TrimStart(s[1..]);
      DropFirst(s, |s| - 1 - |r|);
      r
    else s
  }

  /** `s` without its trailing white space. */
  function TrimEnd(s: string): (r: string)
    ensures |r| <= |s| && r == s[..|r|]
    ensures AllSpace(s[|r|..])
    ensures r == [] || !IsSpace(r[|r| - 1])
  {
    if |s| > 0 && IsSpace(s[|s| - 1]) then
      var r := TrimEnd(s[..|s| - 1]);
      DropLast(s, |r|);
      r
    else s
  }

  /** Slicing after dropping the first element. */
  lemma DropFirst<T>(s: seq<T>, k: nat)
    requires 0 < |s| && k < |s|
    ensures s[1..][k..] == s[k + 1..]
    ensures s[..k + 1] == [s[0]] + s[1..][..k]
  {
  }

  /** Slicing after dropping the last element. */
  lemma DropLast<T>(s: seq<T>, k: nat)
    requires 0 < |s| && k < |s|
    ensures s[..|s| - 1][..k] == s[..k]
    ensures s[k..] == s[..|s| - 1][k..] + [s[|s| - 1]]
  {
  }

  /** Cutting `s` at `lead` and then at `lead + n` splits it in three. */
  lemma ThreeWay<T>(s: seq<T>, lead: nat, n: nat)
    requires lead + n <= |s|
    ensures s[lead..][..n] == s[lead..lead + n]
    ensures s[lead..][n..] == s[lead + n..]
    ensures s == s[..lead] + s[lead..lead + n] + s[lead + n..]
  {
  }

  /** Python's `s.strip()`: cuts white space off both ends of `s` and keeps
      what lies between, so only white space is ever removed. */
  function Strip(s: string): (r: string)
    ensures r == [] || (!IsSpace(r[0]) && !IsSpace(r[|r| - 1]))
    ensures var lead := |s| - |TrimStart(s)|;
      && lead + |r| <= |s|
      && s == s[..lead] + r + s[lead + |r|..]
      && AllSpace(s[..lead])
      && AllSpace(s[lead + |r|..])
  {
    var t := TrimStart(s);
    var r := TrimEnd(t);
    ThreeWay(s, |s| - |t|, |r|);
    r
  }

  /** A string without surrounding white space is its own strip. */
  lemma StripTrimmed(s: string)
    requires s == [] || (!IsSpace(s[0]) && !IsSpace(s[|s| - 1]))
    ensures Strip(s) == s
  {
  }

  /** Stripping twice is stripping once. */
  lemma StripIdempotent(s: string)
    ensures Strip(Strip(s)) == Strip(s)
  {
    StripTrimmed(Strip(s));
  }
}
