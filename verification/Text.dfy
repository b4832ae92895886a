/** Go strings and the `strings` functions the repository calls. A Go string is a byte
    sequence, so one `char` here stands for one byte and `|s|` is Go's `len(s)`. */
module Text {

  /** True when `c` does not occur in `s`. */
  predicate Lacks(s: string, c: char) {
    forall i :: 0 <= i < |s| ==> s[i] != c
  }

  /** `strings.HasPrefix` */
  predicate HasPrefix(s: string, prefix: string) {
    prefix <= s
  }

  /** `strings.TrimPrefix`: `s` unchanged when the prefix is not there. */
  function TrimPrefix(s: string, prefix: string): (r: string)
    ensures r == s || s == prefix + r
  {
    if prefix <= s then s[|prefix|..] else s
  }

  /** `strings.TrimSuffix` */
  function TrimSuffix(s: string, suffix: string): (r: string)
    ensures r == s || s == r + suffix
  {
    if |suffix| <= |s| && s[|s| - |suffix|..] == suffix then s[..|s| - |suffix|] else s
  }

  /** `strings.Replace(s, from, to, -1)` for one-byte arguments. */
  function ReplaceAll(s: string, from: char, to: char): (r: string)
    ensures |r| == |s|
    ensures forall i :: 0 <= i < |s| ==> r[i] == if s[i] == from then to else s[i]
  {
    seq(|s|, i requires 0 <= i < |s| => if s[i] == from then to else s[i])
  }

  /** `strings.Split` for a one-byte separator. */
  function Split(s: string, sep: char): (parts: seq<string>)
    ensures |parts| >= 1
  {
    if s == "" then [""]
    else
      var rest := Split(s[1..], sep);
      if s[0] == sep then [""] + rest else [[s[0]] + rest[0]] + rest[1..]
  }

  /** `strings.SplitN` for a one-byte separator and a positive count. */
  function SplitN(s: string, sep: char, n: nat): (parts: seq<string>)
    requires n > 0
    ensures 1 <= |parts| <= n
    decreases n
  {
    if n == 1 || Lacks(s, sep) then [s]
    else
      var cut := |Split(s, sep)[0]|;
      SplitHeadLength(s, sep);
      [s[..cut]] + SplitN(s[cut + 1..], sep, n - 1)
  }

  /** The inverse of Split. */
  function Join(parts: seq<string>, sep: char): string
    requires |parts| >= 1
  {
    if |parts| == 1 then parts[0] else parts[0] + [sep] + Join(parts[1..], sep)
  }

  /** The first piece ends where the first separator stands. */
  lemma {:induction false} SplitHeadLength(s: string, sep: char)
    requires !Lacks(s, sep)
    ensures |Split(s, sep)[0]| < |s|
    ensures s[|Split(s, sep)[0]|] == sep
    ensures s[..|Split(s, sep)[0]|] == Split(s, sep)[0]
    ensures Lacks(Split(s, sep)[0], sep)
  {
    if s[0] != sep {
      assert !Lacks(s[1..], sep) by {
        var i :| 0 <= i < |s| && s[i] == sep;
        assert s[1..][i - 1] == sep;
      }
      SplitHeadLength(s[1..], sep);
      var h := Split(s[1..], sep)[0];
      assert s[..|h| + 1] == [s[0]] + s[1..][..|h|];
    }
  }

  /** A separator-free head, a separator and a tail split into the head and the tail's pieces. */
  lemma {:induction false} SplitCons(head: string, sep: char, tail: string)
    requires Lacks(head, sep)
    ensures Split(head + [sep] + tail, sep) == [head] + Split(tail, sep)
  {
    var s := head + [sep] + tail;
    if head == "" {
      assert s[1..] == tail;
    } else {
      assert s[1..] == head[1..] + [sep] + tail;
      SplitCons(head[1..], sep, tail);
      assert [head[0]] + head[1..] == head;
    }
  }

  /** A separator-free string is its own only piece. */
  lemma {:induction false} SplitLacks(s: string, sep: char)
    requires Lacks(s, sep)
    ensures Split(s, sep) == [s]
  {
    if s != "" {
      SplitLacks(s[1..], sep);
      assert [s[0]] + s[1..] == s;
    }
  }

  /** Splitting undoes joining of separator-free pieces. */
  lemma {:induction false} SplitJoin(parts: seq<string>, sep: char)
    requires |parts| >= 1
    requires forall i :: 0 <= i < |parts| ==> Lacks(parts[i], sep)
    ensures Split(Join(parts, sep), sep) == parts
  {
    if |parts| == 1 {
      SplitLacks(parts[0], sep);
    } else {
      SplitJoin(parts[1..], sep);
      SplitCons(parts[0], sep, Join(parts[1..], sep));
    }
  }

  /** And joining undoes splitting. */
  lemma {:induction false} JoinSplit(s: string, sep: char)
    ensures Join(Split(s, sep), sep) == s
  {
    if s != "" {
      JoinSplit(s[1..], sep);
      var rest := Split(s[1..], sep);
      if s[0] == sep {
        assert ([""] + rest)[1..] == rest;
        assert "" + [sep] + Join(rest, sep) == [s[0]] + s[1..];
      } else {
        JoinHead([s[0]], rest, sep);
      }
      assert s == [s[0]] + s[1..];
    }
  }

  lemma JoinHead(head: string, parts: seq<string>, sep: char)
    requires |parts| >= 1
    ensures Join([head + parts[0]] + parts[1..], sep) == head + Join(parts, sep)
  {
    var longer := [head + parts[0]] + parts[1..];
    assert longer[1..] == parts[1..];
    if |parts| > 1 {
      var tail := [sep] + Join(parts[1..], sep);
      assert Join(parts, sep) == parts[0] + tail && Join(longer, sep) == (head + parts[0]) + tail;
    }
  }

  /** There is more than one piece exactly where there is a separator. */
  lemma {:induction false} SplitsIff(s: string, sep: char)
    ensures |Split(s, sep)| == 1 <==> Lacks(s, sep)
  {
    if Lacks(s, sep) {
      SplitLacks(s, sep);
    } else {
      SplitHeadLength(s, sep);
      var cut := |Split(s, sep)[0]|;
      assert s == s[..cut] + [sep] + s[cut + 1..];
      SplitCons(s[..cut], sep, s[cut + 1..]);
    }
  }

  /** SplitN gives the pieces of Split, the last one with whatever is left. */
  lemma {:induction false} SplitNIsSplit(s: string, sep: char, n: nat)
    requires n > 0
    ensures |SplitN(s, sep, n)| == if |Split(s, sep)| < n then |Split(s, sep)| else n
    ensures forall i :: 0 <= i < |SplitN(s, sep, n)| - 1 ==> SplitN(s, sep, n)[i] == Split(s, sep)[i]
    decreases n
  {
    SplitsIff(s, sep);
    if n > 1 && !Lacks(s, sep) {
      var cut := |Split(s, sep)[0]|;
      SplitHeadLength(s, sep);
      assert s == s[..cut] + [sep] + s[cut + 1..];
      SplitCons(s[..cut], sep, s[cut + 1..]);
      SplitNIsSplit(s[cut + 1..], sep, n - 1);
    }
  }

  /** No piece of a split contains the separator. */
  lemma {:induction false} SplitPiecesLack(s: string, sep: char)
    ensures forall i :: 0 <= i < |Split(s, sep)| ==> Lacks(Split(s, sep)[i], sep)
  {
    if s != "" {
      SplitPiecesLack(s[1..], sep);
      var rest := Split(s[1..], sep);
      assert Lacks(rest[0], sep);
    }
  }

  /** One step of SplitN. */
  lemma SplitNCons(head: string, sep: char, tail: string, n: nat)
    requires n > 1 && Lacks(head, sep)
    ensures SplitN(head + [sep] + tail, sep, n) == [head] + SplitN(tail, sep, n - 1)
  {
    var s := head + [sep] + tail;
    assert s[|head|] == sep;
    SplitCons(head, sep, tail);
    assert s[..|head|] == head && s[|head| + 1..] == tail;
  }
}
