/**
 The three string operations the review finder relies on, written the way
 Python defines them for the cases that occur here:
 - `Split(s, c)` is `s.split(c)` for a one-character separator (it always
   yields at least one piece, and `"".split(",") == [""]`);
 - `Strip(s)` is `s.strip()` over a fixed ASCII whitespace set;
 - `Join(parts, sep)` is `sep.join(parts)`.
 */
module Text {

  /** The characters `str.strip()` removes that this model recognises:
      space, tab, line feed, carriage return, vertical tab and form feed. */
  predicate IsSpace(ch: char) {
    ch == ' ' || ch == '\t' || ch == '\n' || ch == '\r' || ch == '\U{B}' || ch == '\U{C}'
  }

  /** Number of occurrences of `c` in `s`. */
  function Occurrences(s: string, c: char): nat {
    if s == [] then 0 else (if s[0] == c then 1 else 0) + Occurrences(s[1..], c)
  }

  /** `s.split(c)`: the maximal pieces of `s` between occurrences of `c`. */
  function Split(s: string, c: char): (parts: seq<string>)
    ensures |parts| == Occurrences(s, c) + 1
    ensures forall i :: 0 <= i < |parts| ==> c !in parts[i]
  {
    if s == [] then [""]
    else
      var rest := Split(s[1..], c);
      if s[0] == c then [""] + rest
      else [[s[0]] + rest[0]] + rest[1..]
  }

  /** A string without the separator splits into itself alone. */
  lemma {:induction false} SplitWithoutSeparator(s: string, c: char)
    requires c !in s
    ensures Split(s, c) == [s]
  {
    if s != [] {
      assert s[0] != c && c !in s[1..];
      SplitWithoutSeparator(s[1..], c);
      assert [s[0]] + s[1..] == s;
    }
  }

  /** The first piece runs up to the first separator; the rest is the split of
      what follows it. */
  lemma {:induction false} SplitAtFirst(s: string, c: char, i: nat)
    requires i < |s| && s[i] == c && c !in s[..i]
    ensures Split(s, c) == [s[..i]] + Split(s[i + 1..], c)
  {
    if i > 0 {
      assert s[1..][..i - 1] == s[1..i];
      assert c !in s[1..][..i - 1];
      SplitAtFirst(s[1..], c, i - 1);
      assert s[1..][i - 1 + 1..] == s[i + 1..];
      assert [s[0]] + s[1..i] == s[..i];
    }
  }

  /** `(a + c + b).split(c) == [a, b]` when neither piece holds `c`. */
  lemma SplitTwoPieces(a: string, c: char, b: string)
    requires c !in a && c !in b
    ensures Split(a + [c] + b, c) == [a, b]
  {
    var s := a + [c] + b;
    assert s[|a|] == c && s[..|a|] == a && s[|a| + 1..] == b;
    SplitAtFirst(s, c, |a|);
    SplitWithoutSeparator(b, c);
  }

  /** `sep.join(parts)`. */
  function Join(parts: seq<string>, sep: string): string {
    if |parts| == 0 then ""
    else if |parts| == 1 then parts[0]
    else parts[0] + sep + Join(parts[1..], sep)
  }

  /** Drops leading whitespace: the result is the suffix of `s` that starts
      at its first non-space character. */
  function TrimStart(s: string): (r: string)
    ensures |r| <= |s| && r == s[|s| - |r|..]
    ensures forall k :: 0 <= k < |s| - |r| ==> IsSpace(s[k])
    ensures r == [] || !IsSpace(r[0])
  {
    if |s| > 0 && IsSpace(s[0]) then TrimStart(s[1..]) else s
  }

  /** Drops trailing whitespace: the result is the prefix of `s` that ends
      at its last non-space character. */
  function TrimEnd(s: string): (r: string)
    ensures |r| <= |s| && r == s[..|r|]
    ensures forall k :: |r| <= k < |s| ==> IsSpace(s[k])
    ensures r == [] || !IsSpace(r[|r| - 1])
  {
    if |s| > 0 && IsSpace(s[|s| - 1]) then TrimEnd(s[..|s| - 1]) else s
  }

  /** `s.strip()`. */
  function Strip(s: string): string {
    TrimEnd(TrimStart(s))
  }

  /** `r` is `s` with exactly `i` characters of whitespace cut from the front
      and the rest of the cut, all whitespace, from the back. */
  ghost predicate IsTrimmingOf(r: string, s: string, i: nat) {
    && i + |r| <= |s|
    && s[i..i + |r|] == r
    && (forall k :: 0 <= k < i ==> IsSpace(s[k]))
    && (forall k :: i + |r| <= k < |s| ==> IsSpace(s[k]))
  }

  /** Neither end of `r` is whitespace. */
  predicate IsStripped(r: string) {
    r == [] || (!IsSpace(r[0]) && !IsSpace(r[|r| - 1]))
  }

  /** How many whitespace characters `s` starts with. */
  function LeadingSpace(s: string): nat {
    |s| - |TrimStart(s)|
  }

  /** `Strip(s)` is a contiguous piece of `s` with only whitespace cut away
      (the leading whitespace before it), and it has no whitespace at either
      end. */
  lemma StripMeaning(s: string)
    ensures IsStripped(Strip(s))
    ensures IsTrimmingOf(Strip(s), s, LeadingSpace(s))
  {
    var t := TrimStart(s);
    var r := TrimEnd(t);
    assert IsTrimmingOf(t, s, |s| - |t|);
    assert IsTrimmingOf(r, t, 0);
    TrimmingTrans(r, t, s, |s| - |t|);
    if r != [] {
      assert r[0] == t[0];
    }
  }

  /** Trimming a trimming of `s` from the back is a trimming of `s`. */
  lemma TrimmingTrans(r: string, t: string, s: string, i: nat)
    requires IsTrimmingOf(t, s, i) && IsTrimmingOf(r, t, 0)
    ensures IsTrimmingOf(r, s, i)
  {
    assert s[i..i + |r|] == t[..|r|];
    forall k | i + |r| <= k < |s| ensures IsSpace(s[k]) {
      if k < i + |t| {
        assert s[k] == t[k - i];
      }
    }
  }

  /** Leading whitespace ends exactly where `TrimStart` cuts. */
  lemma {:induction false} TrimStartAt(s: string, i: nat)
    requires i <= |s|
    requires forall k :: 0 <= k < i ==> IsSpace(s[k])
    requires i == |s| || !IsSpace(s[i])
    ensures TrimStart(s) == s[i..]
  {
    if i > 0 {
      TrimStartAt(s[1..], i - 1);
      assert s[1..][i - 1..] == s[i..];
    }
  }

  /** Trailing whitespace starts exactly where `TrimEnd` cuts. */
  lemma {:induction false} TrimEndAt(s: string, j: nat)
    requires j <= |s|
    requires forall k :: j <= k < |s| ==> IsSpace(s[k])
    requires j == 0 || !IsSpace(s[j - 1])
    ensures TrimEnd(s) == s[..j]
  {
    if j < |s| {
      var s' := s[..|s| - 1];
      TrimEndAt(s', j);
      assert s'[..j] == s[..j];
    }
  }

  /** The trimming of `s` is unique: any stripped `r` obtained from `s` by
      cutting only whitespace is `Strip(s)`. */
  lemma {:induction false} StripUnique(s: string, r: string, i: nat)
    requires IsStripped(r) && IsTrimmingOf(r, s, i)
    ensures r == Strip(s)
  {
    if r == [] {
      TrimStartAt(s, |s|);
    } else {
      assert s[i] == r[0];
      TrimStartAt(s, i);
      var t := s[i..];
      assert t[..|r|] == r;
      assert forall k :: |r| <= k < |t| ==> IsSpace(t[k]) by {
        forall k | |r| <= k < |t| ensures IsSpace(t[k]) {
          assert t[k] == s[i + k];
        }
      }
      TrimEndAt(t, |r|);
    }
  }

  /** A string without surrounding whitespace strips to itself. */
  lemma StripOfStripped(s: string)
    requires IsStripped(s)
    ensures Strip(s) == s
  {
    assert IsTrimmingOf(s, s, 0);
    StripUnique(s, s, 0);
  }

  /** Leading whitespace is cut away. */
  lemma StripLeadingSpace(ch: char, s: string)
    requires IsSpace(ch) && IsStripped(s)
    ensures Strip([ch] + s) == s
  {
    var t := [ch] + s;
    assert t[1..] == s;
    assert IsTrimmingOf(s, t, 1);
    StripUnique(t, s, 1);
  }

  /** Stripping twice is stripping once. */
  lemma StripIdempotent(s: string)
    ensures Strip(Strip(s)) == Strip(s)
  {
    StripMeaning(s);
    StripOfStripped(Strip(s));
  }

  /** Split and Join with the same one-character separator are inverse:
      `c.join(s.split(c)) == s`. */
  lemma {:induction false} JoinSplit(s: string, c: char)
    ensures Join(Split(s, c), [c]) == s
  {
    if s != [] {
      var rest := Split(s[1..], c);
      JoinSplit(s[1..], c);
      if s[0] == c {
        assert Split(s, c) == [""] + rest;
        assert ([""] + rest)[1..] == rest;
      } else {
        JoinConsHead(s[0], rest, [c]);
      }
    }
  }

  /** Prepending a character to the first part prepends it to the join. */
  lemma JoinConsHead(ch: char, parts: seq<string>, sep: string)
    requires |parts| >= 1
    ensures Join([[ch] + parts[0]] + parts[1..], sep) == [ch] + Join(parts, sep)
  {
    var ps := [[ch] + parts[0]] + parts[1..];
    assert ps[1..] == parts[1..];
  }
}
