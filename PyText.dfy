/** The three Python string operations the event-array parser applies:
    `str.replace`, `str.strip(chars)` and the argument-less `str.split()`,
    with the lemmas that let a caller compute them piece by piece. */
module PyText {

  /** The characters Python's `str.split()` treats as whitespace. */
  predicate IsSpace(c: char) {
    || c == ' ' || c == '\t' || c == '\n' || c == '\r'
    || c == '\U{B}' || c == '\U{C}'
    || ('\U{1C}' <= c <= '\U{1F}')
    || c == '\U{85}' || c == '\U{A0}' || c == '\U{1680}'
    || ('\U{2000}' <= c <= '\U{200A}')
    || c == '\U{2028}' || c == '\U{2029}' || c == '\U{202F}'
    || c == '\U{205F}' || c == '\U{3000}'
  }

  predicate NoSpace(s: string) {
    forall i :: 0 <= i < |s| ==> !IsSpace(s[i])
  }

  predicate AllSpace(s: string) {
    forall i :: 0 <= i < |s| ==> IsSpace(s[i])
  }

  /** `s.replace(pat, rep)`: occurrences of `pat` are found from the left
      and never overlap; scanning resumes after each replaced occurrence. */
  function Replace(s: string, pat: string, rep: string): string
    requires |pat| > 0
    decreases |s|
  {
    if |s| < |pat| then s
    else if s[..|pat|] == pat then rep + Replace(s[|pat|..], pat, rep)
    else [s[0]] + Replace(s[1..], pat, rep)
  }

  /** `pat` occurs in `s` starting at index `i`. */
  predicate OccursAt(s: string, pat: string, i: nat) {
    i + |pat| <= |s| && s[i..i + |pat|] == pat
  }

  /** No occurrence of `pat` starts inside `a` and ends inside `b`. */
  ghost predicate NoStraddle(a: string, b: string, pat: string) {
    forall i: nat :: i < |a| < i + |pat| ==> !OccursAt(a + b, pat, i)
  }

  /** `pat` does not occur in `s` at all. */
  ghost predicate Absent(s: string, pat: string) {
    forall i: nat :: !OccursAt(s, pat, i)
  }

  lemma {:induction false} ReplaceAbsent(s: string, pat: string, rep: string)
    requires |pat| > 0 && Absent(s, pat)
    ensures Replace(s, pat, rep) == s
    decreases |s|
  {
    if |s| >= |pat| {
      assert !OccursAt(s, pat, 0);
      forall i: nat
        ensures !OccursAt(s[1..], pat, i)
      {
        assert !OccursAt(s, pat, i + 1);
        if i + |pat| <= |s[1..]| {
          assert s[1..][i..i + |pat|] == s[i + 1..i + 1 + |pat|];
        }
      }
      ReplaceAbsent(s[1..], pat, rep);
      assert [s[0]] + s[1..] == s;
    }
  }

  /** Replacing in a concatenation replaces in each part, provided no
      occurrence straddles the junction. */
  lemma {:induction false} ReplaceAppend(a: string, b: string, pat: string, rep: string)
    requires |pat| > 0 && NoStraddle(a, b, pat)
    ensures Replace(a + b, pat, rep) == Replace(a, pat, rep) + Replace(b, pat, rep)
    decreases |a|, 1
  {
    var s := a + b;
    if |a| == 0 {
      assert s == b;
    } else if |s| < |pat| {
      assert Replace(a, pat, rep) == a;
      assert Replace(b, pat, rep) == b;
    } else if |a| >= |pat| && a[..|pat|] == pat {
      ReplaceAppendMatch(a, b, pat, rep);
    } else {
      ReplaceAppendSkip(a, b, pat, rep);
    }
  }

  /** `a` starts with an occurrence: it is replaced and the scan resumes
      after it. */
  lemma {:induction false} ReplaceAppendMatch(a: string, b: string, pat: string, rep: string)
    requires |pat| > 0 && NoStraddle(a, b, pat)
    requires |a| >= |pat| && a[..|pat|] == pat
    ensures Replace(a + b, pat, rep) == Replace(a, pat, rep) + Replace(b, pat, rep)
    decreases |a|, 0
  {
    assert (a + b)[..|pat|] == pat;
    NoStraddleDrop(a, b, pat, |pat|);
    ReplaceAppend(a[|pat|..], b, pat, rep);
  }

  /** `a` is non-empty and no occurrence starts at its first character. */
  lemma {:induction false} ReplaceAppendSkip(a: string, b: string, pat: string, rep: string)
    requires |pat| > 0 && NoStraddle(a, b, pat)
    requires |a| > 0 && |a + b| >= |pat|
    requires !(|a| >= |pat| && a[..|pat|] == pat)
    ensures Replace(a + b, pat, rep) == Replace(a, pat, rep) + Replace(b, pat, rep)
    decreases |a|, 0
  {
    var s := a + b;
    if |a| >= |pat| {
      PrefixOfAppend(a, b, |pat|);
    } else {
      assert !OccursAt(s, pat, 0);
    }
    ReplaceHead(s, pat, rep);
    ReplaceHead(a, pat, rep);
    NoStraddleDrop(a, b, pat, 1);
    ReplaceAppend(a[1..], b, pat, rep);
    Assoc([a[0]], Replace(a[1..], pat, rep), Replace(b, pat, rep));
  }

  /** Where no occurrence starts at the first character, that character is
      kept and the scan goes on from the next one. */
  lemma ReplaceHead(s: string, pat: string, rep: string)
    requires |pat| > 0 && |s| > 0 && !(|s| >= |pat| && s[..|pat|] == pat)
    ensures Replace(s, pat, rep) == [s[0]] + Replace(s[1..], pat, rep)
  {
    if |s| < |pat| {
      assert Replace(s[1..], pat, rep) == s[1..];
      HeadTail(s);
    }
  }

  /** Dropping a prefix of `a` keeps the junction free of straddling
      occurrences. */
  lemma NoStraddleDrop(a: string, b: string, pat: string, n: nat)
    requires n <= |a| && NoStraddle(a, b, pat)
    ensures (a + b)[n..] == a[n..] + b
    ensures NoStraddle(a[n..], b, pat)
  {
    var s, a' := a + b, a[n..];
    assert s[n..] == a' + b;
    forall i: nat | i < |a'| < i + |pat|
      ensures !OccursAt(a' + b, pat, i)
    {
      assert !OccursAt(s, pat, i + n);
      if i + |pat| <= |a' + b| {
        assert (a' + b)[i..i + |pat|] == s[i + n..i + n + |pat|];
      }
    }
  }

  /** A junction cannot be straddled when the first character after it
      does not occur in the pattern past its first character. */
  lemma NoStraddleBefore(a: string, b: string, pat: string)
    requires |pat| > 0 && |b| > 0
    requires forall k :: 1 <= k < |pat| ==> pat[k] != b[0]
    ensures NoStraddle(a, b, pat)
  {
    forall i: nat | i < |a| < i + |pat|
      ensures !OccursAt(a + b, pat, i)
    {
      if i + |pat| <= |a| + |b| {
        assert (a + b)[i..i + |pat|][|a| - i] == b[0];
        assert pat[|a| - i] != b[0];
      }
    }
  }

  /** A junction cannot be straddled when the pattern's first character
      does not occur among the last `|pat| - 1` characters before it. */
  lemma NoStraddleAfter(a: string, b: string, pat: string)
    requires |pat| > 0
    requires forall i :: 0 <= i < |a| && |a| < i + |pat| ==> a[i] != pat[0]
    ensures NoStraddle(a, b, pat)
  {
    forall i: nat | i < |a| < i + |pat|
      ensures !OccursAt(a + b, pat, i)
    {
      if i + |pat| <= |a| + |b| {
        assert (a + b)[i..i + |pat|][0] == a[i];
      }
    }
  }

  /** `s.lstrip(chars)`. */
  function StripLeft(s: string, chars: string): (r: string)
    ensures |r| <= |s|
  {
    if |s| > 0 && s[0] in chars then StripLeft(s[1..], chars) else s
  }

  /** `s.rstrip(chars)`. */
  function StripRight(s: string, chars: string): (r: string)
    ensures |r| <= |s|
  {
    if |s| > 0 && s[|s| - 1] in chars then StripRight(s[..|s| - 1], chars) else s
  }

  /** `s.strip(chars)`: every leading and trailing character that belongs
      to `chars` is removed. */
  function Strip(s: string, chars: string): string {
    StripRight(StripLeft(s, chars), chars)
  }

  /** Stripping a string that is wrapped in characters of `chars` yields the
      inside, provided the inside does not itself begin or end with one. */
  lemma StripWrapped(open: char, inner: string, close: char, chars: string)
    requires open in chars && close in chars
    requires |inner| > 0 ==> inner[0] !in chars && inner[|inner| - 1] !in chars
    ensures Strip([open] + inner + [close], chars) == inner
  {
    var s := [open] + inner + [close];
    assert s[1..] == inner + [close];
    if |inner| == 0 {
      assert StripLeft(inner + [close], chars) == [];
    } else {
      assert (inner + [close])[0] == inner[0];
      assert StripLeft(inner + [close], chars) == inner + [close];
      assert (inner + [close])[..|inner|] == inner;
      assert StripRight(inner + [close], chars) == StripRight(inner, chars);
    }
  }

  /** Leading whitespace removed. */
  function DropSpaces(s: string): (r: string)
    ensures |r| <= |s| && r == s[|s| - |r|..]
    ensures |r| > 0 ==> !IsSpace(r[0])
  {
    if |s| > 0 && IsSpace(s[0]) then DropSpaces(s[1..]) else s
  }

  /** Length of the longest whitespace-free prefix. */
  function WordLength(s: string): (n: nat)
    ensures n <= |s| && NoSpace(s[..n])
    ensures n < |s| ==> IsSpace(s[n])
  {
    if |s| > 0 && !IsSpace(s[0]) then
      var n := 1 + WordLength(s[1..]);
      assert s[..n] == [s[0]] + s[1..][..n - 1];
      n
    else 0
  }

  /** `s.split()`: the maximal runs of non-whitespace characters, in
      order. */
  function Split(s: string): (r: seq<string>)
    decreases |s|
  {
    var t := DropSpaces(s);
    if t == [] then []
    else
      var n := WordLength(t);
      [t[..n]] + Split(t[n..])
  }

  /** Every token of `s.split()` is non-empty and free of whitespace. */
  lemma {:induction false} SplitWords(s: string)
    ensures forall k :: 0 <= k < |Split(s)| ==> |Split(s)[k]| > 0 && NoSpace(Split(s)[k])
    decreases |s|
  {
    var t := DropSpaces(s);
    if t != [] {
      var n := WordLength(t);
      assert n > 0;
      SplitWords(t[n..]);
      ConsWords(t[..n], Split(t[n..]));
    }
  }

  lemma ConsWords(w: string, rest: seq<string>)
    requires |w| > 0 && NoSpace(w)
    requires forall k :: 0 <= k < |rest| ==> |rest[k]| > 0 && NoSpace(rest[k])
    ensures forall k :: 0 <= k < |[w] + rest| ==> |([w] + rest)[k]| > 0 && NoSpace(([w] + rest)[k])
  {
    forall k | 0 <= k < |[w] + rest|
      ensures |([w] + rest)[k]| > 0 && NoSpace(([w] + rest)[k])
    {
      if k > 0 {
        assert ([w] + rest)[k] == rest[k - 1];
      }
    }
  }

  lemma {:induction false} DropSpacesAppend(w: string, s: string)
    requires AllSpace(w)
    ensures DropSpaces(w + s) == DropSpaces(s)
    decreases |w|
  {
    if |w| > 0 {
      assert (w + s)[1..] == w[1..] + s;
      DropSpacesAppend(w[1..], s);
    } else {
      assert w + s == s;
    }
  }

  lemma {:induction false} WordLengthAppend(t: string, s: string)
    requires NoSpace(t)
    requires s == [] || IsSpace(s[0])
    ensures WordLength(t + s) == |t|
    decreases |t|
  {
    if |t| > 0 {
      assert (t + s)[1..] == t[1..] + s;
      WordLengthAppend(t[1..], s);
    } else {
      assert t + s == s;
    }
  }

  /** Leading whitespace contributes no token. */
  lemma SplitAfterSpaces(w: string, s: string)
    requires AllSpace(w)
    ensures Split(w + s) == Split(s)
  {
    DropSpacesAppend(w, s);
  }

  /** A whitespace-free word followed by whitespace (or by nothing) is the
      first token. */
  lemma SplitWord(t: string, s: string)
    requires |t| > 0 && NoSpace(t)
    requires s == [] || IsSpace(s[0])
    ensures Split(t + s) == [t] + Split(s)
  {
    assert DropSpaces(t + s) == t + s;
    WordLengthAppend(t, s);
    assert (t + s)[..|t|] == t;
    assert (t + s)[|t|..] == s;
  }

  lemma Assoc<T>(a: seq<T>, b: seq<T>, c: seq<T>)
    ensures a + b + c == a + (b + c)
  {
  }

  lemma AppendEmpty<T>(a: seq<T>)
    ensures a + [] == a
  {
  }

  lemma HeadTail<T>(s: seq<T>)
    requires |s| > 0
    ensures [s[0]] + s[1..] == s
  {
  }

  lemma PrefixOfAppend<T>(a: seq<T>, b: seq<T>, n: nat)
    requires n <= |a|
    ensures (a + b)[..n] == a[..n]
  {
  }

  /** The tokens joined by single spaces. */
  function JoinSpaced(tokens: seq<string>): string {
    if |tokens| == 0 then ""
    else if |tokens| == 1 then tokens[0]
    else tokens[0] + " " + JoinSpaced(tokens[1..])
  }

  /** Splitting undoes joining with spaces, for tokens that are non-empty
      and whitespace-free: exactly the tokens `Split` produces. */
  lemma {:induction false} SplitJoinSpaced(tokens: seq<string>)
    requires forall k :: 0 <= k < |tokens| ==> |tokens[k]| > 0 && NoSpace(tokens[k])
    ensures Split(JoinSpaced(tokens)) == tokens
    decreases |tokens|
  {
    if |tokens| == 1 {
      SplitJoinSingle(tokens[0]);
    } else if |tokens| > 1 {
      SplitJoinSpaced(tokens[1..]);
      SplitJoinCons(tokens);
    }
  }

  lemma SplitJoinSingle(w: string)
    requires |w| > 0 && NoSpace(w)
    ensures Split(JoinSpaced([w])) == [w]
  {
    assert JoinSpaced([w]) == w;
    SplitWord(w, "");
    AppendEmpty(w);
    assert DropSpaces("") == "";
    assert Split("") == [];
  }

  /** Joining one more word in front adds it as the first token. */
  lemma SplitJoinCons(tokens: seq<string>)
    requires |tokens| > 1 && |tokens[0]| > 0 && NoSpace(tokens[0])
    requires Split(JoinSpaced(tokens[1..])) == tokens[1..]
    ensures Split(JoinSpaced(tokens)) == tokens
  {
    var rest := JoinSpaced(tokens[1..]);
    Assoc(tokens[0], " ", rest);
    SplitSpacedWord(tokens[0], rest, tokens[1..]);
    HeadTail(tokens);
  }

  /** A word, a blank, then text that splits into `toks`. */
  lemma SplitSpacedWord(w: string, rest: string, toks: seq<string>)
    requires |w| > 0 && NoSpace(w) && Split(rest) == toks
    ensures Split(w + (" " + rest)) == [w] + toks
  {
    SplitAfterSpaces(" ", rest);
    SplitWord(w, " " + rest);
  }
}
