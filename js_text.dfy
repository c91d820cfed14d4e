/** The JavaScript string operations the demos rely on: `toLowerCase`,
    `trim`, `includes` and `split(/[\s-]+/)`.  Case mapping covers ASCII
    letters only; white space is the set JavaScript's `\s` and `trim`
    share (the ECMAScript WhiteSpace and LineTerminator code points). */
module JsText {

  /** A code point matched by `\s` and removed by `trim`. */
  predicate IsSpace(c: char)
  {
    var n := c as int;
    n == 9 || n == 10 || n == 11 || n == 12 || n == 13 || n == 32
    || n == 0xA0 || n == 0x1680 || (0x2000 <= n <= 0x200A)
    || n == 0x2028 || n == 0x2029 || n == 0x202F || n == 0x205F
    || n == 0x3000 || n == 0xFEFF
  }

  /* ---------------- case ---------------- */

  function LowerChar(c: char): char
  {
    if 'A' <= c <= 'Z' then (c as int + 32) as char else c
  }

  /** `toLowerCase` on ASCII letters. */
  function ToLower(s: string): (r: string)
    ensures |r| == |s|
    ensures forall i :: 0 <= i < |s| ==> r[i] == LowerChar(s[i])
  {
    if |s| == 0 then "" else [LowerChar(s[0])] + ToLower(s[1..])
  }

  /** Lower-casing a lower-cased string changes nothing. */
  lemma ToLowerIdempotent(s: string)
    ensures ToLower(ToLower(s)) == ToLower(s)
  {
  }

  /* ---------------- trim ---------------- */

  function TrimStart(s: string): (r: string)
    ensures |r| <= |s| && r == s[|s| - |r|..]
    ensures |r| > 0 ==> !IsSpace(r[0])
    ensures forall i :: 0 <= i < |s| - |r| ==> IsSpace(s[i])
  {
    if |s| > 0 && IsSpace(s[0]) then TrimStart(s[1..]) else s
  }

  function TrimEnd(s: string): (r: string)
    ensures |r| <= |s| && r == s[..|r|]
    ensures |r| > 0 ==> !IsSpace(r[|r| - 1])
    ensures forall i :: |r| <= i < |s| ==> IsSpace(s[i])
  {
    if |s| > 0 && IsSpace(s[|s| - 1]) then TrimEnd(s[..|s| - 1]) else s
  }

  /** `trim`: the string without leading and trailing white space. */
  function Trim(s: string): string
  {
    TrimEnd(TrimStart(s))
  }

  /** `s[i..j]` is `s` with white space only before `i` and from `j` on. */
  ghost predicate SpaceAround(s: string, i: int, j: int)
  {
    && 0 <= i <= j <= |s|
    && (forall k :: 0 <= k < i ==> IsSpace(s[k]))
    && (forall k :: j <= k < |s| ==> IsSpace(s[k]))
  }

  /** `trim` removes exactly the white space at both ends: the result is
      the slice of `s` between two runs of white space, and it neither
      starts nor ends with white space. */
  lemma {:induction false} TrimIsSlice(s: string)
    ensures exists i, j :: SpaceAround(s, i, j) && Trim(s) == s[i..j]
    ensures |Trim(s)| > 0 ==> !IsSpace(Trim(s)[0]) && !IsSpace(Trim(s)[|Trim(s)| - 1])
  {
    var i := |s| - |TrimStart(s)|;
    TrimCuts(s, i, i + |Trim(s)|);
    assert SpaceAround(s, i, i + |Trim(s)|);
    if |Trim(s)| > 0 {
      assert Trim(s)[0] == TrimStart(s)[0];
    }
  }

  /** Where `trim` cuts: at `i`, after the leading white space
      `TrimStart` drops, and at `j`, before the trailing white space
      `TrimEnd` drops. */
  lemma TrimCuts(s: string, i: int, j: int)
    requires i == |s| - |TrimStart(s)| && j == i + |Trim(s)|
    ensures SpaceAround(s, i, j) && Trim(s) == s[i..j]
  {
    var t := TrimStart(s);
    var r := TrimEnd(t);
    assert Trim(s) == r;
    PrefixOfSuffix(s, i, |r|);
    SpaceAfterSuffix(s, i, |r|);
  }

  /** A prefix of the suffix from `i` is the slice from `i`. */
  lemma PrefixOfSuffix(s: string, i: nat, n: nat)
    requires i + n <= |s|
    ensures s[i..][..n] == s[i..i + n]
  {
  }

  /** White space from `n` on in the suffix from `i` is white space from
      `i + n` on in `s`. */
  lemma SpaceAfterSuffix(s: string, i: nat, n: nat)
    requires i <= |s| && forall k :: n <= k < |s| - i ==> IsSpace(s[i..][k])
    ensures forall k :: i + n <= k < |s| ==> IsSpace(s[k])
  {
    forall k | i + n <= k < |s|
      ensures IsSpace(s[k])
    {
      assert s[k] == s[i..][k - i];
    }
  }

  /** Trimming twice is trimming once. */
  lemma TrimIdempotent(s: string)
    ensures Trim(Trim(s)) == Trim(s)
  {
    var r := Trim(s);
    assert TrimStart(r) == r;
  }

  /* ---------------- includes ---------------- */

  /** `s.includes(sub)`. */
  predicate Contains(s: string, sub: string)
    decreases |s|
  {
    |sub| <= |s| && (s[..|sub|] == sub || Contains(s[1..], sub))
  }

  /** `sub` occurs in `s` starting at index `i`. */
  predicate OccursAt(s: string, sub: string, i: nat)
  {
    i + |sub| <= |s| && s[i..i + |sub|] == sub
  }

  /** `includes` holds exactly when `sub` occurs at some position. */
  lemma {:induction false} ContainsAt(s: string, sub: string)
    ensures Contains(s, sub) <==> exists i: nat :: OccursAt(s, sub, i)
    decreases |s|
  {
    if |sub| > |s| {
      assert forall i: nat :: !OccursAt(s, sub, i);
    } else if s[..|sub|] == sub {
      assert OccursAt(s, sub, 0);
    } else {
      ContainsAt(s[1..], sub);
      forall i: nat
        ensures OccursAt(s, sub, i + 1) <==> OccursAt(s[1..], sub, i)
      {
        if i + 1 + |sub| <= |s| {
          assert s[1..][i..i + |sub|] == s[i + 1..i + 1 + |sub|];
        }
      }
      if exists i: nat :: OccursAt(s, sub, i) {
        var i: nat :| OccursAt(s, sub, i);
        assert i > 0;
        assert OccursAt(s[1..], sub, i - 1);
      }
    }
  }

  /* ---------------- split(/[\s-]+/) ---------------- */

  /** A separator of `split(/[\s-]+/)`. */
  predicate IsSep(c: char)
  {
    IsSpace(c) || c == '-'
  }

  predicate NoSep(s: string)
  {
    forall i :: 0 <= i < |s| ==> !IsSep(s[i])
  }

  /** The index of the first separator, or `|s|`. */
  function FirstSep(s: string): (i: nat)
    ensures i <= |s| && NoSep(s[..i]) && (i < |s| ==> IsSep(s[i]))
  {
    if |s| == 0 then 0
    else if IsSep(s[0]) then 0
    else
      var i := 1 + FirstSep(s[1..]);
      assert s[..i] == [s[0]] + s[1..][..i - 1];
      i
  }

  /** `s` without its leading run of separators. */
  function DropSeps(s: string): (r: string)
    ensures |r| <= |s| && r == s[|s| - |r|..]
    ensures |r| > 0 ==> !IsSep(r[0])
  {
    if |s| > 0 && IsSep(s[0]) then DropSeps(s[1..]) else s
  }

  /** `s.split(/[\s-]+/)`: the pieces between maximal runs of separators.
      A leading or trailing run gives an empty first or last piece. */
  function Split(s: string): (parts: seq<string>)
    ensures |parts| >= 1
    ensures forall k :: 0 <= k < |parts| ==> NoSep(parts[k])
    decreases |s|
  {
    var i := FirstSep(s);
    if i == |s| then [s]
    else
      var rest := Split(DropSeps(s[i + 1..]));
      PrependWord(s[..i], rest);
      [s[..i]] + rest
  }

  /** A word without separators in front of such words keeps them all
      free of separators. */
  lemma PrependWord(w: string, rest: seq<string>)
    requires NoSep(w) && forall k :: 0 <= k < |rest| ==> NoSep(rest[k])
    ensures forall k :: 0 <= k < |[w] + rest| ==> NoSep(([w] + rest)[k])
  {
  }

  /** The words joined with the given separator characters between them. */
  function JoinWith(words: seq<string>, seps: seq<char>): string
    requires |words| >= 1 && |seps| == |words| - 1
  {
    if |words| == 1 then words[0]
    else words[0] + [seps[0]] + JoinWith(words[1..], seps[1..])
  }

  /** A joined word list starts with the first character of its first word. */
  lemma {:induction false} JoinWithStart(words: seq<string>, seps: seq<char>)
    requires |words| >= 1 && |seps| == |words| - 1 && |words[0]| > 0
    ensures |JoinWith(words, seps)| > 0 && JoinWith(words, seps)[0] == words[0][0]
  {
  }

  lemma {:induction false} FirstSepAfterWord(w: string, t: string)
    requires NoSep(w)
    ensures FirstSep(w + t) == |w| + FirstSep(t)
    decreases |w|
  {
    if |w| > 0 {
      assert (w + t)[0] == w[0] && !IsSep(w[0]);
      assert (w + t)[1..] == w[1..] + t;
      FirstSepAfterWord(w[1..], t);
    } else {
      assert w + t == t;
    }
  }

  /** Splitting undoes joining: words without separators, joined by single
      separator characters, split back into the same words. */
  lemma {:induction false} SplitJoin(words: seq<string>, seps: seq<char>)
    requires |words| >= 1 && |seps| == |words| - 1
    requires forall k :: 0 <= k < |words| ==> |words[k]| > 0 && NoSep(words[k])
    requires forall k :: 0 <= k < |seps| ==> IsSep(seps[k])
    ensures Split(JoinWith(words, seps)) == words
    decreases |words|
  {
    var s := JoinWith(words, seps);
    if |words| == 1 {
      FirstSepAfterWord(words[0], "");
      assert words[0] + "" == words[0];
    } else {
      var rest := JoinWith(words[1..], seps[1..]);
      assert s == words[0] + ([seps[0]] + rest);
      FirstSepAfterWord(words[0], [seps[0]] + rest);
      var i := |words[0]|;
      assert FirstSep(s) == i;
      assert s[..i] == words[0];
      assert s[i + 1..] == rest;
      JoinWithStart(words[1..], seps[1..]);
      assert DropSeps(rest) == rest;
      SplitJoin(words[1..], seps[1..]);
      assert words == [words[0]] + words[1..];
    }
  }
}
