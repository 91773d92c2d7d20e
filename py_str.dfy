/**
 * The Python `str` operations the models are built from, with Python's own edge cases:
 * `isspace`, `strip`, `lower` (ASCII letters), `startswith`, `in`, `find`/`rfind`,
 * `split()`, `split(sep)`, `splitlines()`, `sep.join(parts)` and `str(n)` for a natural number.
 */
module PyStr {
  import opened PySeq

  /** `c.isspace()`: the characters `str.split()`, `str.strip()` and the regular-expression class `\s` treat as whitespace. */
  predicate IsSpace(c: char) {
    ('\t' <= c <= '\r') || ('\U{1c}' <= c <= ' ') || c == '\U{85}' || c == '\U{a0}' || c == '\U{1680}'
    || ('\U{2000}' <= c <= '\U{200a}') || ('\U{2028}' <= c <= '\U{2029}')
    || c == '\U{202f}' || c == '\U{205f}' || c == '\U{3000}'
  }

  predicate AllSpace(s: string) {
    forall i :: 0 <= i < |s| ==> IsSpace(s[i])
  }

  predicate NoSpace(s: string) {
    forall i :: 0 <= i < |s| ==> !IsSpace(s[i])
  }

  /** What `str.split()` can produce: a non-empty run of non-whitespace characters. */
  predicate IsWord(w: string) {
    w != [] && NoSpace(w)
  }

  /** A string with no whitespace at either end, as `strip()` leaves it. */
  predicate Trimmed(s: string) {
    s == [] || (!IsSpace(s[0]) && !IsSpace(s[|s| - 1]))
  }

  /** `s.lstrip()`. */
  function LStrip(s: string): (r: string)
    ensures |r| <= |s| && r == s[|s| - |r|..]
    ensures AllSpace(s[..|s| - |r|])
    ensures r == [] || !IsSpace(r[0])
  {
    if s != [] && IsSpace(s[0]) then
      var r := LStrip(s[1..]);
      LStripStep(s, r);
      r
    else s
  }

  /** Stripping a leading space keeps what stripping the rest keeps. */
  lemma {:induction false} LStripStep(s: string, r: string)
    requires s != [] && IsSpace(s[0])
    requires |r| <= |s| - 1 && r == s[1..][|s| - 1 - |r|..] && AllSpace(s[1..][..|s| - 1 - |r|])
    ensures r == s[|s| - |r|..] && AllSpace(s[..|s| - |r|])
  {
    assert s[..|s| - |r|] == [s[0]] + s[1..][..|s| - 1 - |r|];
    AllSpaceCons(s[0], s[1..][..|s| - 1 - |r|]);
    assert s[|s| - |r|..] == s[1..][|s| - 1 - |r|..];
  }

  /** Stripping a trailing space keeps what stripping the rest keeps. */
  lemma {:induction false} RStripStep(s: string, r: string)
    requires s != [] && IsSpace(s[|s| - 1])
    requires |r| <= |s| - 1 && r == s[..|s| - 1][..|r|] && AllSpace(s[..|s| - 1][|r|..])
    ensures r == s[..|r|] && AllSpace(s[|r|..])
  {
    assert s[|r|..] == s[..|s| - 1][|r|..] + [s[|s| - 1]];
    AllSpaceSnoc(s[..|s| - 1][|r|..], s[|s| - 1]);
    assert s[..|r|] == s[..|s| - 1][..|r|];
  }

  lemma {:induction false} AllSpaceCons(c: char, t: string)
    requires IsSpace(c) && AllSpace(t)
    ensures AllSpace([c] + t)
  {
    assert forall k :: 1 <= k < |t| + 1 ==> ([c] + t)[k] == t[k - 1];
  }

  lemma {:induction false} AllSpaceSnoc(t: string, c: char)
    requires IsSpace(c) && AllSpace(t)
    ensures AllSpace(t + [c])
  {
    assert forall k :: 0 <= k < |t| ==> (t + [c])[k] == t[k];
  }

  /** `s.rstrip()`. */
  function RStrip(s: string): (r: string)
    ensures |r| <= |s| && r == s[..|r|]
    ensures AllSpace(s[|r|..])
    ensures r == [] || !IsSpace(r[|r| - 1])
  {
    if s != [] && IsSpace(s[|s| - 1]) then
      var r := RStrip(s[..|s| - 1]);
      RStripStep(s, r);
      r
    else s
  }

  /** `s.strip()`: the middle of `s` left once the whitespace at both ends is gone. */
  function Strip(s: string): (r: string)
    ensures Trimmed(r)
    ensures r == [] <==> AllSpace(s)
  {
    var t := LStrip(s);
    var r := RStrip(t);
    StripEnds(s, t, r);
    r
  }

  /** The two steps of `strip` leave a trimmed middle, empty exactly when `s` was all whitespace. */
  lemma {:induction false} StripEnds(s: string, t: string, r: string)
    requires |t| <= |s| && t == s[|s| - |t|..] && AllSpace(s[..|s| - |t|])
    requires t == [] || !IsSpace(t[0])
    requires |r| <= |t| && r == t[..|r|] && AllSpace(t[|r|..])
    requires r == [] || !IsSpace(r[|r| - 1])
    ensures Trimmed(r)
    ensures r == [] <==> AllSpace(s)
  {
    if r == [] {
      assert t[|r|..] == t;
      assert t == [];
      assert s[..|s| - |t|] == s;
    } else {
      assert r[0] == t[0] == s[|s| - |t|];
    }
  }

  /** `[c.strip() for c in ss]`. */
  function StripAll(ss: seq<string>): (r: seq<string>)
    ensures |r| == |ss|
    ensures forall i :: 0 <= i < |r| ==> r[i] == Strip(ss[i])
  {
    if ss == [] then [] else [Strip(ss[0])] + StripAll(ss[1..])
  }

  /** Stripping strings that are already trimmed changes nothing. */
  lemma {:induction false} StripAllTrimmed(ss: seq<string>)
    requires forall i :: 0 <= i < |ss| ==> Trimmed(ss[i])
    ensures StripAll(ss) == ss
  {
    forall i | 0 <= i < |ss|
      ensures StripAll(ss)[i] == ss[i]
    {
      StripTrimmed(ss[i]);
    }
  }

  lemma {:induction false} StripAllConcat(a: seq<string>, b: seq<string>)
    ensures StripAll(a + b) == StripAll(a) + StripAll(b)
    decreases |a|
  {
    if a == [] {
      assert a + b == b;
    } else {
      assert (a + b)[0] == a[0] && (a + b)[1..] == a[1..] + b;
      StripAllConcat(a[1..], b);
    }
  }

  /** Stripping a string that has nothing to strip leaves it unchanged. */
  lemma {:induction false} StripTrimmed(s: string)
    requires Trimmed(s)
    ensures Strip(s) == s
  {
    assert LStrip(s) == s;
    assert RStrip(s) == s;
  }

  /** Stripping a string that has one leading blank, and is trimmed after it, drops just that blank. */
  lemma {:induction false} StripLeadingSpace(c: char, s: string)
    requires IsSpace(c) && Trimmed(s)
    ensures Strip([c] + s) == s
  {
    assert ([c] + s)[1..] == s;
    assert LStrip([c] + s) == LStrip(s);
    StripTrimmed(s);
  }

  /** The ASCII part of `str.lower()`. */
  function LowerChar(c: char): char {
    if 'A' <= c <= 'Z' then (c as int + 32) as char else c
  }

  /** `s.lower()` over ASCII letters: the same length, and character by character. */
  function Lower(s: string): (r: string)
    ensures |r| == |s|
    ensures forall i :: 0 <= i < |s| ==> r[i] == LowerChar(s[i])
  {
    if s == [] then [] else [LowerChar(s[0])] + Lower(s[1..])
  }

  /** `s.startswith(p)`. */
  predicate StartsWith(s: string, p: string) {
    |p| <= |s| && s[..|p|] == p
  }

  /** `t` occurs in `s` at index `i`. */
  predicate IsAt(s: string, t: string, i: int) {
    0 <= i <= |s| - |t| && s[i..i + |t|] == t
  }

  /** `t in s`, the substring test. */
  predicate Contains(s: string, t: string)
    decreases |s|
  {
    StartsWith(s, t) || (s != [] && Contains(s[1..], t))
  }

  /** `t in s` holds exactly when `t` occurs in `s` at some index. */
  lemma {:induction false} ContainsIff(s: string, t: string)
    ensures Contains(s, t) <==> exists i :: IsAt(s, t, i)
    decreases |s|
  {
    if StartsWith(s, t) {
      assert IsAt(s, t, 0);
    } else if s == [] {
    } else {
      ContainsIff(s[1..], t);
      if exists i :: IsAt(s, t, i) {
        var i :| IsAt(s, t, i);
        assert |t| <= |s| && s[0..|t|] == s[..|t|];
        assert s[1..][i - 1..i - 1 + |t|] == s[i..i + |t|];
        assert IsAt(s[1..], t, i - 1);
      }
      if exists j :: IsAt(s[1..], t, j) {
        var j :| IsAt(s[1..], t, j);
        assert s[1..][j..j + |t|] == s[j + 1..j + 1 + |t|];
        assert IsAt(s, t, j + 1);
      }
    }
  }

  /** `s.find(c)` for one character: the first index of `c`, or -1. */
  function Find(s: string, c: char): (r: int)
    ensures -1 <= r < |s|
    ensures r == -1 <==> c !in s
    ensures 0 <= r ==> s[r] == c && c !in s[..r]
  {
    if s == [] then -1
    else if s[0] == c then 0
    else
      var k := Find(s[1..], c);
      assert s[1..] == s[1..] && (k >= 0 ==> s[..k + 1] == [s[0]] + s[1..][..k]);
      if k == -1 then -1 else k + 1
  }

  /** `s.rfind(c)` for one character: the last index of `c`, or -1. */
  function RFind(s: string, c: char): (r: int)
    ensures -1 <= r < |s|
    ensures r == -1 <==> c !in s
    ensures 0 <= r ==> s[r] == c && c !in s[r + 1..]
  {
    if s == [] then -1
    else if s[|s| - 1] == c then |s| - 1
    else
      var k := RFind(s[..|s| - 1], c);
      RFindStep(s, c, k);
      k
  }

  /** An index found in all but the last character, which is not `c`, is still the last `c`. */
  lemma {:induction false} RFindStep(s: string, c: char, k: int)
    requires s != [] && s[|s| - 1] != c
    requires -1 <= k < |s| - 1
    requires k == -1 <==> c !in s[..|s| - 1]
    requires 0 <= k ==> s[..|s| - 1][k] == c && c !in s[..|s| - 1][k + 1..]
    ensures k == -1 <==> c !in s
    ensures 0 <= k ==> s[k] == c && c !in s[k + 1..]
  {
    var init, last := s[..|s| - 1], s[|s| - 1];
    assert s == init + [last];
    if k >= 0 {
      assert s[k + 1..] == init[k + 1..] + [last];
    }
  }

  /** The first index of `c` is `k` when `s[k]` is `c` and no earlier character is. */
  lemma {:induction false} FindIs(s: string, c: char, k: int)
    requires 0 <= k < |s| && s[k] == c && c !in s[..k]
    ensures Find(s, c) == k
  {
    var r := Find(s, c);
    assert c in s by { assert s[k] == c; }
  }

  /** The last index of `c` is `k` when `s[k]` is `c` and no later character is. */
  lemma {:induction false} RFindIs(s: string, c: char, k: int)
    requires 0 <= k < |s| && s[k] == c && c !in s[k + 1..]
    ensures RFind(s, c) == k
  {
    var r := RFind(s, c);
    assert c in s by { assert s[k] == c; }
  }

  /** `s.find(t)` for a non-empty `t`: the first index where `t` occurs, or -1. */
  function FindSub(s: string, t: string): (r: int)
    requires |t| > 0
    ensures r == -1 || 0 <= r <= |s| - |t|
    ensures r >= 0 ==> IsAt(s, t, r)
    ensures forall i :: 0 <= i < (if r < 0 then |s| + 1 else r) ==> !IsAt(s, t, i)
  {
    FindSubFrom(s, t, 0)
  }

  /** `s.find(t, i)`: the first index from `i` on where `t` occurs, or -1. */
  function FindSubFrom(s: string, t: string, i: nat): (r: int)
    requires |t| > 0
    ensures r == -1 || i <= r <= |s| - |t|
    ensures r >= 0 ==> IsAt(s, t, r)
    ensures forall k :: i <= k < (if r < 0 then |s| + 1 else r) ==> !IsAt(s, t, k)
    decreases |s| - i
  {
    if i + |t| > |s| then -1
    else if IsAt(s, t, i) then i
    else FindSubFrom(s, t, i + 1)
  }

  /** The length of the leading run of non-whitespace characters. */
  function WordLen(s: string): (n: nat)
    ensures n <= |s| && NoSpace(s[..n])
    ensures n < |s| ==> IsSpace(s[n])
    ensures s != [] && !IsSpace(s[0]) ==> n >= 1
  {
    if s == [] || IsSpace(s[0]) then 0 else 1 + WordLen(s[1..])
  }

  /** `s.split()` with no separator: the maximal runs of non-whitespace characters, in order. */
  function Words(s: string): (r: seq<string>)
    ensures forall i :: 0 <= i < |r| ==> IsWord(r[i])
    decreases |s|
  {
    if s == [] then []
    else if IsSpace(s[0]) then Words(s[1..])
    else
      var n := WordLen(s);
      [s[..n]] + Words(s[n..])
  }

  lemma {:induction false} WordLenConcat(x: string, z: string)
    ensures WordLen(x + z) == if WordLen(x) < |x| then WordLen(x) else |x| + WordLen(z)
    decreases |x|
  {
    if x == [] {
      assert x + z == z;
    } else {
      assert (x + z)[1..] == x[1..] + z;
      if !IsSpace(x[0]) { WordLenConcat(x[1..], z); }
    }
  }

  /** A single whitespace character splits the words of its two sides apart. */
  lemma {:induction false} WordsSeparated(x: string, c: char, y: string)
    requires IsSpace(c)
    ensures Words(x + [c] + y) == Words(x) + Words(y)
    decreases |x|
  {
    if x == [] {
      WordsSpaceFirst(c, y);
    } else if IsSpace(x[0]) {
      WordsSeparated(x[1..], c, y);
      WordsSpaceStep(x, c, y);
    } else if WordLen(x) == |x| {
      WordsWholeWord(x, c, y);
    } else {
      WordsSeparated(x[WordLen(x)..], c, y);
      WordsWordStep(x, c, y);
    }
  }

  /** With nothing before it, the space is skipped. */
  lemma {:induction false} WordsSpaceFirst(c: char, y: string)
    requires IsSpace(c)
    ensures Words([] + [c] + y) == Words([]) + Words(y)
  {
    assert [] + [c] + y == [c] + y;
    assert ([c] + y)[1..] == y;
  }

  /** A leading space of `x` is skipped on both sides of `WordsSeparated`. */
  lemma {:induction false} WordsSpaceStep(x: string, c: char, y: string)
    requires x != [] && IsSpace(x[0])
    requires Words(x[1..] + [c] + y) == Words(x[1..]) + Words(y)
    ensures Words(x + [c] + y) == Words(x) + Words(y)
  {
    assert (x + [c] + y)[1..] == x[1..] + [c] + y;
  }

  /** A leading word of `x` that stops inside `x` is split off on both sides of `WordsSeparated`. */
  lemma {:induction false} WordsWordStep(x: string, c: char, y: string)
    requires x != [] && !IsSpace(x[0]) && WordLen(x) < |x|
    requires Words(x[WordLen(x)..] + [c] + y) == Words(x[WordLen(x)..]) + Words(y)
    ensures Words(x + [c] + y) == Words(x) + Words(y)
  {
    var n := WordLen(x);
    var w := x[..n];
    WordsWordUnfold(x, c, y);
    AppendAssoc([w], Words(x[n..]), Words(y));
  }

  /** The leading word of `x` is the leading word of `x + [c] + y` when it stops inside `x`. */
  lemma {:induction false} WordsWordUnfold(x: string, c: char, y: string)
    requires x != [] && !IsSpace(x[0]) && WordLen(x) < |x|
    ensures Words(x + [c] + y) == [x[..WordLen(x)]] + Words(x[WordLen(x)..] + [c] + y)
    ensures Words(x) == [x[..WordLen(x)]] + Words(x[WordLen(x)..])
  {
    var s := x + [c] + y;
    var n := WordLen(x);
    WordLenConcat(x, [c] + y);
    assert s == x + ([c] + y);
    assert s[..n] == x[..n];
    assert s[n..] == x[n..] + [c] + y;
  }

  /** When `x` is one word, the space after it ends that word. */
  lemma {:induction false} WordsWholeWord(x: string, c: char, y: string)
    requires IsSpace(c) && x != [] && !IsSpace(x[0]) && WordLen(x) == |x|
    ensures Words(x + [c] + y) == Words(x) + Words(y)
  {
    var s := x + [c] + y;
    var n := |x|;
    WordLenConcat(x, [c] + y);
    assert s == x + ([c] + y);
    assert WordLen([c] + y) == 0;
    assert s[..n] == x && s[n..] == [c] + y;
    assert ([c] + y)[1..] == y;
    assert x[..n] == x && x[n..] == [];
    assert Words(s) == [x] + Words(y);
    assert Words(x) == [x];
  }

  /** `split()` of a single word is that word. */
  lemma {:induction false} WordsOfWord(w: string)
    requires IsWord(w)
    ensures Words(w) == [w]
  {
    WordLenConcat(w, []);
    assert w + [] == w;
    assert w[..|w|] == w && w[|w|..] == [];
  }

  /** `sep.join(parts)`. */
  function Join(sep: string, parts: seq<string>): (r: string)
    ensures parts == [] ==> r == []
    ensures |parts| == 1 ==> r == parts[0]
  {
    if parts == [] then []
    else if |parts| == 1 then parts[0]
    else parts[0] + sep + Join(sep, parts[1..])
  }

  /** Joining one more part adds a separator and the part at the end. */
  lemma {:induction false} JoinSnoc(sep: string, parts: seq<string>, x: string)
    requires parts != []
    ensures Join(sep, parts + [x]) == Join(sep, parts) + sep + x
    decreases |parts|
  {
    if |parts| == 1 {
      assert (parts + [x])[1..] == [x];
    } else {
      assert (parts + [x])[1..] == parts[1..] + [x];
      JoinSnoc(sep, parts[1..], x);
    }
  }

  /** `Words` of every part, concatenated. */
  function WordsOfEach(parts: seq<string>): seq<string> {
    if parts == [] then [] else Words(parts[0]) + WordsOfEach(parts[1..])
  }

  /** Joining with one whitespace character neither merges nor splits words. */
  lemma {:induction false} WordsOfJoin(c: char, parts: seq<string>)
    requires IsSpace(c)
    ensures Words(Join([c], parts)) == WordsOfEach(parts)
    decreases |parts|
  {
    if |parts| == 1 {
      assert parts[1..] == [];
    } else if |parts| > 1 {
      WordsOfJoin(c, parts[1..]);
      WordsSeparated(parts[0], c, Join([c], parts[1..]));
    }
  }

  /** `s.split(sep)` for a non-empty separator: the pieces between the occurrences of `sep`. */
  function SplitOn(s: string, sep: string): (r: seq<string>)
    requires |sep| > 0
    ensures |r| >= 1
    decreases |s|
  {
    var i := FindSub(s, sep);
    if i < 0 then [s] else [s[..i]] + SplitOn(s[i + |sep|..], sep)
  }

  /** Joining the pieces of a split with the same separator gives the string back. */
  lemma {:induction false} SplitOnJoin(s: string, sep: string)
    requires |sep| > 0
    ensures Join(sep, SplitOn(s, sep)) == s
    decreases |s|
  {
    var i := FindSub(s, sep);
    if i >= 0 {
      var rest := s[i + |sep|..];
      SplitOnJoin(rest, sep);
      var tail := SplitOn(rest, sep);
      JoinCons(sep, s[..i], tail);
      AroundOccurrence(s, sep, i);
    }
  }

  /** A string is what comes before an occurrence, the occurrence, and what follows it. */
  lemma {:induction false} AroundOccurrence(s: string, t: string, i: int)
    requires IsAt(s, t, i)
    ensures s == s[..i] + t + s[i + |t|..]
  {
    assert s == s[..i] + s[i..i + |t|] + s[i + |t|..];
  }

  lemma {:induction false} JoinCons(sep: string, a: string, tail: seq<string>)
    requires tail != []
    ensures Join(sep, [a] + tail) == a + sep + Join(sep, tail)
  {
    assert ([a] + tail)[1..] == tail;
  }

  /** No piece of a split contains the separator. */
  lemma {:induction false} SplitOnPieces(s: string, sep: string)
    requires |sep| > 0
    ensures forall k :: 0 <= k < |SplitOn(s, sep)| ==> FindSub(SplitOn(s, sep)[k], sep) == -1
    decreases |s|
  {
    var i := FindSub(s, sep);
    if i >= 0 {
      var rest := s[i + |sep|..];
      SplitOnPieces(rest, sep);
      var head := s[..i];
      HeadBeforeFirst(s, sep, i);
      var tail := SplitOn(rest, sep);
      assert SplitOn(s, sep) == [head] + tail;
      forall k | 0 <= k < |[head] + tail|
        ensures FindSub(([head] + tail)[k], sep) == -1
      {
        if k > 0 {
          assert ([head] + tail)[k] == tail[k - 1];
        }
      }
    }
  }

  /** What comes before the first occurrence holds no occurrence. */
  lemma {:induction false} HeadBeforeFirst(s: string, sep: string, i: int)
    requires |sep| > 0 && i == FindSub(s, sep) && i >= 0
    ensures FindSub(s[..i], sep) == -1
  {
    var head := s[..i];
    var j := FindSub(head, sep);
    if j >= 0 {
      assert head[j..j + |sep|] == s[j..j + |sep|];
      assert IsAt(s, sep, j);
    }
  }

  /** For one character, the substring search finds what the character search finds. */
  lemma {:induction false} FindSubChar(s: string, c: char)
    ensures FindSub(s, [c]) == Find(s, c)
  {
    var k := Find(s, c);
    var r := FindSub(s, [c]);
    if r >= 0 {
      assert s[r] == s[r..r + 1][0];
    }
    if k >= 0 {
      assert s[k..k + 1] == [c];
      assert IsAt(s, [c], k);
      forall i | 0 <= i < k
        ensures !IsAt(s, [c], i)
      {
        assert s[..k][i] == s[i];
      }
    }
  }

  /**
   * When no proper suffix of `t` starts with `t[0]`, an occurrence of `t` cannot overlap the end
   * of `a`: the first occurrence in `a + t + rest`, for an `a` without one, is right after `a`.
   */
  lemma {:induction false} FirstOccurrence(a: string, t: string, rest: string)
    requires |t| > 0 && t[0] !in t[1..]
    requires FindSub(a, t) == -1
    ensures FindSub(a + t + rest, t) == |a|
  {
    OccursFirstAt(a, t, rest);
  }

  /** The same, stated by positions: `t` occurs at `|a|` and at no earlier index. */
  lemma {:induction false} OccursFirstAt(a: string, t: string, rest: string)
    requires |t| > 0 && t[0] !in t[1..]
    requires FindSub(a, t) == -1
    ensures IsAt(a + t + rest, t, |a|)
    ensures forall i :: 0 <= i < |a| ==> !IsAt(a + t + rest, t, i)
  {
    var s := a + t + rest;
    assert s[|a|..|a| + |t|] == t;
    forall i | 0 <= i < |a|
      ensures !IsAt(s, t, i)
    {
      if i + |t| <= |a| {
        assert s[i..i + |t|] == a[i..i + |t|];
        assert !IsAt(a, t, i);
      }
    }
  }

  /**
   * Splitting pieces joined by a separator gives the pieces back, when no piece holds the
   * separator and the separator's first character does not recur in it.
   */
  lemma {:induction false} SplitOnJoinUnique(sep: string, parts: seq<string>)
    requires |sep| > 0 && sep[0] !in sep[1..]
    requires parts != []
    requires forall i :: 0 <= i < |parts| ==> FindSub(parts[i], sep) == -1
    ensures SplitOn(Join(sep, parts), sep) == parts
    decreases |parts|
  {
    var a := parts[0];
    if |parts| > 1 {
      var tail := parts[1..];
      assert parts == [a] + tail;
      JoinCons(sep, a, tail);
      SplitOnStep(a, sep, Join(sep, tail));
      forall i | 0 <= i < |tail|
        ensures FindSub(tail[i], sep) == -1
      {
        assert tail[i] == parts[i + 1];
      }
      SplitOnJoinUnique(sep, tail);
    }
  }

  /** A split of `a + sep + j`, for an `a` without `sep`, starts with `a` and goes on with the split of `j`. */
  lemma {:induction false} SplitOnStep(a: string, sep: string, j: string)
    requires |sep| > 0 && sep[0] !in sep[1..]
    requires FindSub(a, sep) == -1
    ensures SplitOn(a + sep + j, sep) == [a] + SplitOn(j, sep)
  {
    var s := a + sep + j;
    FirstOccurrence(a, sep, j);
    assert s[..|a|] == a && s[|a| + |sep|..] == j;
    assert SplitOn(s, sep) == [a] + SplitOn(j, sep);
  }

  /** The line boundaries `str.splitlines()` recognises (`"\r\n"` counts as one). */
  predicate IsLineBreak(c: char) {
    ('\n' <= c <= '\r') || ('\U{1c}' <= c <= '\U{1e}') || c == '\U{85}' || ('\U{2028}' <= c <= '\U{2029}')
  }

  predicate NoLineBreak(s: string) {
    forall i :: 0 <= i < |s| ==> !IsLineBreak(s[i])
  }

  /** Stripping a line keeps it a line. */
  lemma {:induction false} StripNoLineBreak(l: string)
    requires NoLineBreak(l)
    ensures NoLineBreak(Strip(l))
  {
    var t := LStrip(l);
    NoLineBreakSlice(l, |l| - |t|, |l|);
    NoLineBreakSlice(t, 0, |RStrip(t)|);
  }

  /** A slice of a line is a line. */
  lemma {:induction false} NoLineBreakSlice(l: string, i: nat, j: nat)
    requires i <= j <= |l| && NoLineBreak(l)
    ensures NoLineBreak(l[i..j])
  {
    assert forall k :: 0 <= k < j - i ==> l[i..j][k] == l[i + k];
  }

  /** The length of the first line: the index of the first line boundary, or |s|. */
  function LineLen(s: string): (n: nat)
    ensures n <= |s| && NoLineBreak(s[..n])
    ensures n < |s| ==> IsLineBreak(s[n])
  {
    if s == [] || IsLineBreak(s[0]) then 0 else 1 + LineLen(s[1..])
  }

  /** `s.splitlines()`: the lines of `s` without their boundaries; a final boundary starts no extra line. */
  function SplitLines(s: string): (r: seq<string>)
    ensures r == [] <==> s == []
    ensures forall i :: 0 <= i < |r| ==> NoLineBreak(r[i])
    decreases |s|
  {
    if s == [] then []
    else
      var n := LineLen(s);
      var next := if n == |s| then n
                  else if s[n] == '\r' && n + 1 < |s| && s[n + 1] == '\n' then n + 2
                  else n + 1;
      [s[..n]] + SplitLines(s[next..])
  }

  /** Splitting lines joined by `"\n"` gives them back, provided the last one is not empty. */
  lemma {:induction false} SplitLinesOfJoin(lines: seq<string>)
    requires lines != [] && lines[|lines| - 1] != []
    requires forall i :: 0 <= i < |lines| ==> NoLineBreak(lines[i])
    ensures SplitLines(Join("\n", lines)) == lines
    decreases |lines|
  {
    var l := lines[0];
    if |lines| == 1 {
      SplitLinesOne(l);
    } else {
      var tail := lines[1..];
      SplitLinesOfJoin(tail);
      assert lines == [l] + tail;
      JoinCons("\n", l, tail);
      SplitLinesStep(l, Join("\n", tail));
    }
  }

  /** With a final newline, splitting lines joined by `"\n"` gives them all back. */
  lemma {:induction false} SplitLinesOfJoinNewline(lines: seq<string>)
    requires lines != []
    requires forall i :: 0 <= i < |lines| ==> NoLineBreak(lines[i])
    ensures SplitLines(Join("\n", lines) + "\n") == lines
    decreases |lines|
  {
    var l := lines[0];
    if |lines| == 1 {
      assert l + "\n" + "" == Join("\n", lines) + "\n";
      SplitLinesStep(l, "");
      assert SplitLines("") == [];
    } else {
      JoinNewlineStep(lines);
      SplitLinesStep(l, Join("\n", lines[1..]) + "\n");
      SplitLinesOfJoinNewline(lines[1..]);
    }
    assert [l] + lines[1..] == lines;
  }

  /** A join of two or more lines with a final newline, as its first line, a newline and the rest. */
  lemma {:induction false} JoinNewlineStep(lines: seq<string>)
    requires |lines| >= 2
    ensures Join("\n", lines) + "\n" == lines[0] + "\n" + (Join("\n", lines[1..]) + "\n")
  {
    var j := Join("\n", lines[1..]);
    assert Join("\n", lines) == lines[0] + "\n" + j;
  }

  /** A line followed by a newline splits off as the first line. */
  lemma {:induction false} SplitLinesStep(l: string, rest: string)
    requires NoLineBreak(l)
    ensures SplitLines(l + "\n" + rest) == [l] + SplitLines(rest)
  {
    var s := l + "\n" + rest;
    LineLenStops(l, "\n" + rest);
    assert s == l + ("\n" + rest);
    assert s[..|l|] == l;
    assert s[|l|] == '\n';
    assert s[|l| + 1..] == rest;
  }

  /** A non-empty line on its own splits into just itself. */
  lemma {:induction false} SplitLinesOne(l: string)
    requires NoLineBreak(l) && l != []
    ensures SplitLines(l) == [l]
  {
    LineLenStops(l, []);
    assert l + [] == l;
    assert l[|l|..] == [];
  }

  /** The first line of a text that starts with a line and a newline is that line. */
  lemma {:induction false} FirstLine(l: string, rest: string)
    requires NoLineBreak(l)
    ensures SplitLines(l + "\n" + rest)[0] == l
  {
    var s := l + "\n" + rest;
    LineLenStops(l, "\n" + rest);
    assert s == l + ("\n" + rest);
    assert s[..|l|] == l;
  }

  /** Joining lines with a separator that holds no line boundary makes one line. */
  lemma {:induction false} JoinNoLineBreak(sep: string, parts: seq<string>)
    requires NoLineBreak(sep)
    requires forall i :: 0 <= i < |parts| ==> NoLineBreak(parts[i])
    ensures NoLineBreak(Join(sep, parts))
    decreases |parts|
  {
    if |parts| > 1 {
      JoinNoLineBreak(sep, parts[1..]);
      var a, j := parts[0], Join(sep, parts[1..]);
      forall i | 0 <= i < |a + sep + j|
        ensures !IsLineBreak((a + sep + j)[i])
      {
        if i < |a| {
        } else if i < |a| + |sep| {
          assert (a + sep + j)[i] == sep[i - |a|];
        } else {
          assert (a + sep + j)[i] == j[i - |a| - |sep|];
        }
      }
    }
  }

  lemma {:induction false} LineLenStops(l: string, z: string)
    requires NoLineBreak(l)
    requires z == [] || IsLineBreak(z[0])
    ensures LineLen(l + z) == |l|
    decreases |l|
  {
    if l == [] {
      assert l + z == z;
    } else {
      assert (l + z)[1..] == l[1..] + z;
      LineLenStops(l[1..], z);
    }
  }

  predicate IsDigit(c: char) {
    '0' <= c <= '9'
  }

  function DigitChar(d: nat): (c: char)
    requires d < 10
    ensures IsDigit(c) && c as int - '0' as int == d
  {
    (d + '0' as int) as char
  }

  /** `str(n)` for a natural number: its decimal digits without leading zeros. */
  function NatToString(n: nat): (r: string)
    ensures |r| >= 1 && forall i :: 0 <= i < |r| ==> IsDigit(r[i])
    ensures |r| > 1 ==> r[0] != '0'
    decreases n
  {
    if n < 10 then [DigitChar(n)] else NatToString(n / 10) + [DigitChar(n % 10)]
  }

  /** The number a string of decimal digits denotes. */
  function DigitsValue(s: string): nat
    requires forall i :: 0 <= i < |s| ==> IsDigit(s[i])
  {
    if s == [] then 0
    else
      assert IsDigit(s[|s| - 1]);
      10 * DigitsValue(s[..|s| - 1]) + (s[|s| - 1] as int - '0' as int)
  }

  /** Reading back the digits `str(n)` prints gives `n`. */
  lemma {:induction false} NatToStringValue(n: nat)
    ensures DigitsValue(NatToString(n)) == n
    decreases n
  {
    var r := NatToString(n);
    if n >= 10 {
      NatToStringValue(n / 10);
      assert r[..|r| - 1] == NatToString(n / 10);
    }
  }
}
