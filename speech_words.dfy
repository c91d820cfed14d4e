/** Reading a spoken guess in the voice number-guessing game
    (8/scripts/speech.js): `parseInt` on the transcript first, then
    `parseWordsToNumber`, which reads English number words with
    "hundred" and "thousand" grouping. */
module SpokenNumbers {
  import opened Wrappers
  import opened JsText

  /** The `wordNumbers` table. */
  const WordNumbers: map<string, nat> := map[
    "zero" := 0, "one" := 1, "two" := 2, "three" := 3, "four" := 4,
    "five" := 5, "six" := 6, "seven" := 7, "eight" := 8, "nine" := 9,
    "ten" := 10, "eleven" := 11, "twelve" := 12, "thirteen" := 13, "fourteen" := 14,
    "fifteen" := 15, "sixteen" := 16, "seventeen" := 17, "eighteen" := 18, "nineteen" := 19,
    "twenty" := 20, "thirty" := 30, "forty" := 40, "fifty" := 50, "sixty" := 60,
    "seventy" := 70, "eighty" := 80, "ninety" := 90, "hundred" := 100, "thousand" := 1000
  ]

  /* ---------------- parseWordsToNumber ---------------- */

  /** The loop of `parseWordsToNumber` over the remaining parts, reading
      each word in `table`, from the running `total` and the current group
      `current`; `None` is NaN. */
  function WordsValue(table: map<string, nat>, parts: seq<string>, total: nat, current: nat): Option<nat>
  {
    if |parts| == 0 then Some(total + current)
    else if parts[0] !in table then None
    else
      var n := table[parts[0]];
      if n == 1000 then WordsValue(table, parts[1..], total + current * 1000, 0)
      else if n == 100 then WordsValue(table, parts[1..], total, current * 100)
      else WordsValue(table, parts[1..], total, current + n)
  }

  /** `parseWordsToNumber` over the word table `table` (the game's
      `wordNumbers`): NaN for the empty string, the table entry for a
      single known word, otherwise the grouped sum of the parts. */
  function ParseWords(table: map<string, nat>, words: string): Option<nat>
  {
    if |words| == 0 then None
    else if words in table then Some(table[words])
    else WordsValue(table, Split(words), 0, 0)
  }

  method ParseWordsToNumber(table: map<string, nat>, words: string) returns (r: Option<nat>)
    ensures r == ParseWords(table, words)
  {
    if |words| == 0 {
      return None;
    }
    if words in table {
      return Some(table[words]);
    }
    r := ReadParts(table, Split(words));
  }

  /** The loop of `parseWordsToNumber` over the split parts. */
  method ReadParts(table: map<string, nat>, parts: seq<string>) returns (r: Option<nat>)
    ensures r == WordsValue(table, parts, 0, 0)
  {
    var total: nat, current: nat := 0, 0;
    for i := 0 to |parts|
      invariant WordsValue(table, parts[i..], total, current) == WordsValue(table, parts, 0, 0)
    {
      WordsValueAt(table, parts, i, total, current);
      if parts[i] !in table {
        return None;
      }
      var n := table[parts[i]];
      if n == 1000 {
        current := current * n;
        total := total + current;
        current := 0;
      } else if n == 100 {
        current := current * n;
      } else {
        current := current + n;
      }
    }
    assert parts[|parts|..] == [];
    return Some(total + current);
  }

  /** One turn of the loop: the reading from part `i` on is NaN on an
      unknown word, and otherwise the reading from part `i + 1` on with the
      word folded into `total` and `current`. */
  lemma WordsValueAt(table: map<string, nat>, parts: seq<string>, i: nat, total: nat, current: nat)
    requires i < |parts|
    ensures parts[i] !in table ==> WordsValue(table, parts[i..], total, current) == None
    ensures parts[i] in table && table[parts[i]] == 1000 ==>
              WordsValue(table, parts[i..], total, current) == WordsValue(table, parts[i + 1..], total + current * 1000, 0)
    ensures parts[i] in table && table[parts[i]] == 100 ==>
              WordsValue(table, parts[i..], total, current) == WordsValue(table, parts[i + 1..], total, current * 100)
    ensures parts[i] in table && table[parts[i]] != 1000 && table[parts[i]] != 100 ==>
              WordsValue(table, parts[i..], total, current) == WordsValue(table, parts[i + 1..], total, current + table[parts[i]])
  {
    assert parts[i..][0] == parts[i] && parts[i..][1..] == parts[i + 1..];
  }

  /** An unknown word anywhere makes the whole reading NaN. */
  lemma {:induction false} UnknownWordIsNaN(table: map<string, nat>, parts: seq<string>, total: nat, current: nat, k: nat)
    requires k < |parts| && parts[k] !in table
    ensures WordsValue(table, parts, total, current) == None
    decreases k
  {
    if k > 0 && parts[0] in table {
      var n := table[parts[0]];
      var t := if n == 1000 then total + current * 1000 else total;
      var c := if n == 1000 then 0 else if n == 100 then current * 100 else current + n;
      UnknownWordIsNaN(table, parts[1..], t, c, k - 1);
    }
  }

  /* ---------------- spelling numbers ---------------- */

  const Units: seq<string> := ["zero", "one", "two", "three", "four", "five", "six", "seven",
    "eight", "nine", "ten", "eleven", "twelve", "thirteen", "fourteen", "fifteen", "sixteen",
    "seventeen", "eighteen", "nineteen"]

  const Tens: seq<string> := ["", "", "twenty", "thirty", "forty", "fifty", "sixty", "seventy",
    "eighty", "ninety"]

  predicate Letters(w: string)
  {
    forall i :: 0 <= i < |w| ==> 'a' <= w[i] <= 'z'
  }

  /** The unit words mean what they say. */
  lemma UnitWord(u: nat)
    requires u < 20
    ensures Units[u] in WordNumbers && WordNumbers[Units[u]] == u
    ensures |Units[u]| > 0 && Letters(Units[u])
  {
    if u < 2 {
      UnitWordFrom0(u);
    } else if u < 4 {
      UnitWordFrom2(u);
    } else if u < 7 {
      UnitWordFrom4(u);
    } else if u < 10 {
      UnitWordFrom7(u);
    } else if u < 15 {
      UnitWordFrom10(u);
    } else {
      UnitWordFrom15(u);
    }
  }

  /** The same, a few unit words at a time. */
  lemma UnitWordFrom0(u: nat)
    requires u < 2
    ensures Units[u] in WordNumbers && WordNumbers[Units[u]] == u
    ensures |Units[u]| > 0 && Letters(Units[u])
  {
    if u == 0 {
      assert Units[0] == "zero";
    } else {
      assert Units[1] == "one";
    }
  }

  lemma UnitWordFrom2(u: nat)
    requires 2 <= u < 4
    ensures Units[u] in WordNumbers && WordNumbers[Units[u]] == u
    ensures |Units[u]| > 0 && Letters(Units[u])
  {
    if u == 2 {
      assert Units[2] == "two";
    } else {
      assert Units[3] == "three";
    }
  }

  lemma UnitWordFrom4(u: nat)
    requires 4 <= u < 7
    ensures Units[u] in WordNumbers && WordNumbers[Units[u]] == u
    ensures |Units[u]| > 0 && Letters(Units[u])
  {
    if u == 4 {
      assert Units[4] == "four";
    } else if u == 5 {
      assert Units[5] == "five";
    } else {
      assert Units[6] == "six";
    }
  }

  lemma UnitWordFrom7(u: nat)
    requires 7 <= u < 10
    ensures Units[u] in WordNumbers && WordNumbers[Units[u]] == u
    ensures |Units[u]| > 0 && Letters(Units[u])
  {
    if u == 7 {
      assert Units[7] == "seven";
    } else if u == 8 {
      assert Units[8] == "eight";
    } else {
      assert Units[9] == "nine";
    }
  }

  lemma UnitWordFrom10(u: nat)
    requires 10 <= u < 15
    ensures Units[u] in WordNumbers && WordNumbers[Units[u]] == u
    ensures |Units[u]| > 0 && Letters(Units[u])
  {
    if u == 10 {
      assert Units[10] == "ten";
    } else if u == 11 {
      assert Units[11] == "eleven";
    } else if u == 12 {
      assert Units[12] == "twelve";
    } else if u == 13 {
      assert Units[13] == "thirteen";
    } else {
      assert Units[14] == "fourteen";
    }
  }

  lemma UnitWordFrom15(u: nat)
    requires 15 <= u < 20
    ensures Units[u] in WordNumbers && WordNumbers[Units[u]] == u
    ensures |Units[u]| > 0 && Letters(Units[u])
  {
    if u == 15 {
      assert Units[15] == "fifteen";
    } else if u == 16 {
      assert Units[16] == "sixteen";
    } else if u == 17 {
      assert Units[17] == "seventeen";
    } else if u == 18 {
      assert Units[18] == "eighteen";
    } else {
      assert Units[19] == "nineteen";
    }
  }

  /** The tens words mean what they say. */
  lemma TenWord(t: nat)
    requires 2 <= t < 10
    ensures Tens[t] in WordNumbers && WordNumbers[Tens[t]] == 10 * t
    ensures |Tens[t]| > 0 && Letters(Tens[t])
  {
  }

  lemma GroupWords()
    ensures "hundred" in WordNumbers && WordNumbers["hundred"] == 100 && Letters("hundred")
    ensures "thousand" in WordNumbers && WordNumbers["thousand"] == 1000 && Letters("thousand")
  {
  }

  /** Every key of the table is a single word of letters. */
  lemma KeysAreWords(w: string)
    requires w in WordNumbers
    ensures |w| > 0 && Letters(w)
  {
    if w in Units {
      var u :| 0 <= u < 20 && Units[u] == w;
      UnitWord(u);
    } else if w in Tens[2..] {
      var t :| 2 <= t < 10 && Tens[t] == w;
      TenWord(t);
    } else {
      GroupWords();
    }
  }

  /** `table` gives every unit, tens and group word its value. */
  predicate Reads(table: map<string, nat>)
  {
    (forall u :: 0 <= u < 20 ==> Units[u] in table && table[Units[u]] == u)
    && (forall t :: 2 <= t < 10 ==> Tens[t] in table && table[Tens[t]] == 10 * t)
    && "hundred" in table && table["hundred"] == 100
    && "thousand" in table && table["thousand"] == 1000
  }

  /** The `wordNumbers` table reads every spelled word. */
  lemma WordNumbersReads()
    ensures Reads(WordNumbers)
  {
    forall u | 0 <= u < 20
      ensures Units[u] in WordNumbers && WordNumbers[Units[u]] == u
    {
      UnitWord(u);
    }
    forall t | 2 <= t < 10
      ensures Tens[t] in WordNumbers && WordNumbers[Tens[t]] == 10 * t
    {
      TenWord(t);
    }
    GroupWords();
  }

  /** English words for 1..99. */
  function Spell2(m: nat): (ws: seq<string>)
    requires 1 <= m <= 99
    ensures 1 <= |ws| <= 2
  {
    if m < 20 then [Units[m]]
    else if m % 10 == 0 then [Tens[m / 10]]
    else [Tens[m / 10], Units[m % 10]]
  }

  /** English words for 1..999. */
  function Spell3(n: nat): (ws: seq<string>)
    requires 1 <= n <= 999
    ensures |ws| >= 1
  {
    if n < 100 then Spell2(n)
    else if n % 100 == 0 then [Units[n / 100], "hundred"]
    else [Units[n / 100], "hundred"] + Spell2(n % 100)
  }

  /** English words for 0..999999, the way a recogniser writes them out. */
  function Spell(n: nat): (ws: seq<string>)
    requires n <= 999999
    ensures |ws| >= 1
  {
    if n == 0 then ["zero"]
    else if n < 1000 then Spell3(n)
    else if n % 1000 == 0 then Spell3(n / 1000) + ["thousand"]
    else Spell3(n / 1000) + ["thousand"] + Spell3(n % 1000)
  }

  /** Reading one word that is neither "hundred" nor "thousand" adds its value. */
  lemma WordsValueAdd(table: map<string, nat>, w: string, rest: seq<string>, total: nat, current: nat)
    requires w in table && table[w] != 100 && table[w] != 1000
    ensures WordsValue(table, [w] + rest, total, current) == WordsValue(table, rest, total, current + table[w])
  {
    assert ([w] + rest)[1..] == rest;
  }

  lemma {:induction false} Spell2Fold(table: map<string, nat>, m: nat, total: nat, current: nat, rest: seq<string>)
    requires Reads(table) && 1 <= m <= 99
    ensures WordsValue(table, Spell2(m) + rest, total, current) == WordsValue(table, rest, total, current + m)
  {
    if m < 20 {
      assert Spell2(m) + rest == [Units[m]] + rest;
      WordsValueAdd(table, Units[m], rest, total, current);
    } else if m % 10 == 0 {
      assert Spell2(m) + rest == [Tens[m / 10]] + rest;
      WordsValueAdd(table, Tens[m / 10], rest, total, current);
    } else {
      var t, u := Tens[m / 10], Units[m % 10];
      assert Spell2(m) + rest == [t] + ([u] + rest);
      WordsValueAdd(table, t, [u] + rest, total, current);
      WordsValueAdd(table, u, rest, total, current + 10 * (m / 10));
    }
  }

  lemma {:induction false} Spell3Fold(table: map<string, nat>, n: nat, total: nat, rest: seq<string>)
    requires Reads(table) && 1 <= n <= 999
    ensures WordsValue(table, Spell3(n) + rest, total, 0) == WordsValue(table, rest, total, n)
  {
    if n < 100 {
      Spell2Fold(table, n, total, 0, rest);
    } else {
      HundredsFold(table, n, total, rest);
    }
  }

  /** The words of `n` from 100 up: a unit word, "hundred", then the
      words of the last two digits. */
  lemma {:induction false} HundredsFold(table: map<string, nat>, n: nat, total: nat, rest: seq<string>)
    requires Reads(table) && 100 <= n <= 999
    ensures WordsValue(table, Spell3(n) + rest, total, 0) == WordsValue(table, rest, total, n)
  {
    var h, m := n / 100, n % 100;
    var tail := if m == 0 then rest else Spell2(m) + rest;
    HundredsSpelled(n, rest);
    HundredsRead(table, h, tail, total);
    TailFold(table, m, total, h * 100, rest);
  }

  /** Reading the unit word of `h` and "hundred" makes the group `h * 100`. */
  lemma HundredsRead(table: map<string, nat>, h: nat, tail: seq<string>, total: nat)
    requires 1 <= h <= 9 && Units[h] in table && table[Units[h]] == h
    requires "hundred" in table && table["hundred"] == 100
    ensures WordsValue(table, [Units[h]] + (["hundred"] + tail), total, 0) == WordsValue(table, tail, total, h * 100)
  {
    WordsValueAdd(table, Units[h], ["hundred"] + tail, total, 0);
    WordsValueHundred(table, tail, total, h);
  }

  /** The words of the last two digits, or none when they are zero, add
      their value to the group. */
  lemma TailFold(table: map<string, nat>, m: nat, total: nat, current: nat, rest: seq<string>)
    requires Reads(table) && m <= 99
    ensures WordsValue(table, if m == 0 then rest else Spell2(m) + rest, total, current)
            == WordsValue(table, rest, total, current + m)
  {
    if m != 0 {
      Spell2Fold(table, m, total, current, rest);
    }
  }

  /** From 100 up, `Spell3` gives the unit word, "hundred" and, unless
      zero, the words of the last two digits. */
  lemma HundredsSpelled(n: nat, rest: seq<string>)
    requires 100 <= n <= 999
    ensures Spell3(n) + rest
            == [Units[n / 100]] + (["hundred"] + (if n % 100 == 0 then rest else Spell2(n % 100) + rest))
  {
  }

  /** Reading "hundred" multiplies the current group by a hundred. */
  lemma WordsValueHundred(table: map<string, nat>, tail: seq<string>, total: nat, current: nat)
    requires "hundred" in table && table["hundred"] == 100
    ensures WordsValue(table, ["hundred"] + tail, total, current) == WordsValue(table, tail, total, current * 100)
  {
    assert (["hundred"] + tail)[1..] == tail;
  }

  /** Reading "thousand" moves the current group, times a thousand, into the total. */
  lemma WordsValueThousand(table: map<string, nat>, rest: seq<string>, total: nat, current: nat)
    requires "thousand" in table && table["thousand"] == 1000
    ensures WordsValue(table, ["thousand"] + rest, total, current) == WordsValue(table, rest, total + current * 1000, 0)
  {
    assert (["thousand"] + rest)[1..] == rest;
  }

  /** The words of a number from 1000 up: a group, "thousand", a group. */
  lemma {:induction false} ThousandsFold(table: map<string, nat>, hi: nat, lo: nat)
    requires Reads(table) && 1 <= hi <= 999 && lo <= 999
    ensures WordsValue(table, Spell3(hi) + ["thousand"] + (if lo == 0 then [] else Spell3(lo)), 0, 0)
              == Some(hi * 1000 + lo)
  {
    var tail := if lo == 0 then [] else Spell3(lo);
    assert Spell3(hi) + ["thousand"] + tail == Spell3(hi) + (["thousand"] + tail);
    Spell3Fold(table, hi, 0, ["thousand"] + tail);
    WordsValueThousand(table, tail, 0, hi);
    if lo != 0 {
      Spell3Fold(table, lo, hi * 1000, []);
      assert Spell3(lo) + [] == Spell3(lo);
    }
  }

  /** Read back, the words of `n` (in `Spell`'s list) come to `n`. */
  lemma {:induction false} SpellFold(table: map<string, nat>, n: nat)
    requires Reads(table) && n <= 999999
    ensures WordsValue(table, Spell(n), 0, 0) == Some(n)
  {
    if n == 0 {
      assert Spell(0) == [Units[0]] + [];
      WordsValueAdd(table, Units[0], [], 0, 0);
    } else if n < 1000 {
      Spell3Fold(table, n, 0, []);
      assert Spell3(n) + [] == Spell3(n);
    } else {
      ThousandsRead(table, n);
    }
  }

  lemma ThousandsRead(table: map<string, nat>, n: nat)
    requires Reads(table) && 1000 <= n <= 999999
    ensures WordsValue(table, Spell(n), 0, 0) == Some(n)
  {
    var hi, lo := n / 1000, n % 1000;
    ThousandsSplit(n);
    var ws := Spell3(hi) + ["thousand"] + (if lo == 0 then [] else Spell3(lo));
    calc {
      WordsValue(table, Spell(n), 0, 0);
      == { ThousandsSpelled(n, hi, lo); }
      WordsValue(table, ws, 0, 0);
      == { ThousandsFold(table, hi, lo); }
      Some(hi * 1000 + lo);
    }
  }

  lemma ThousandsSplit(n: nat)
    requires 1000 <= n <= 999999
    ensures 1 <= n / 1000 <= 999 && n % 1000 <= 999 && n == n / 1000 * 1000 + n % 1000
  {
  }

  /** From 1000 up, `Spell` gives a group, "thousand" and, unless zero, a group. */
  lemma ThousandsSpelled(n: nat, hi: nat, lo: nat)
    requires 1000 <= n <= 999999 && hi == n / 1000 && lo == n % 1000
    ensures Spell(n) == Spell3(hi) + ["thousand"] + (if lo == 0 then [] else Spell3(lo))
  {
    if lo == 0 {
      assert Spell3(hi) + ["thousand"] + [] == Spell3(hi) + ["thousand"];
    }
  }

  lemma {:induction false} Spell2Words(m: nat)
    requires 1 <= m <= 99
    ensures forall k :: 0 <= k < |Spell2(m)| ==> |Spell2(m)[k]| > 0 && Letters(Spell2(m)[k])
  {
    if m < 20 {
      UnitWord(m);
    } else if m % 10 == 0 {
      TenWord(m / 10);
    } else {
      TenWord(m / 10);
      UnitWord(m % 10);
    }
  }

  lemma {:induction false} Spell3Words(n: nat)
    requires 1 <= n <= 999
    ensures forall k :: 0 <= k < |Spell3(n)| ==> |Spell3(n)[k]| > 0 && Letters(Spell3(n)[k])
  {
    if n < 100 {
      Spell2Words(n);
    } else {
      UnitWord(n / 100);
      GroupWords();
      if n % 100 != 0 {
        Spell2Words(n % 100);
      }
    }
  }

  /** Every word of a spelling is a non-empty run of letters. */
  lemma {:induction false} SpellWords(n: nat)
    requires n <= 999999
    ensures forall k :: 0 <= k < |Spell(n)| ==> |Spell(n)[k]| > 0 && Letters(Spell(n)[k])
  {
    if n == 0 {
      UnitWord(0);
    } else if n < 1000 {
      Spell3Words(n);
    } else {
      GroupWords();
      Spell3Words(n / 1000);
      if n % 1000 != 0 {
        Spell3Words(n % 1000);
      }
    }
  }

  /** A number spelled as one word is that word's table entry. */
  lemma SingleWordSpelled(n: nat)
    requires n <= 999999 && |Spell(n)| == 1
    ensures Spell(n)[0] in WordNumbers && WordNumbers[Spell(n)[0]] == n
  {
    if n < 20 {
      UnitWord(n);
    } else {
      TenWord(n / 10);
    }
  }

  /** Two or more words joined by a separator are not a key of the table. */
  lemma JoinedNotKey(ws: seq<string>, seps: seq<char>)
    requires |ws| >= 2 && |seps| == |ws| - 1 && IsSep(seps[0])
    ensures JoinWith(ws, seps) !in WordNumbers
  {
    var s := JoinWith(ws, seps);
    assert s == ws[0] + [seps[0]] + JoinWith(ws[1..], seps[1..]);
    assert s[|ws[0]|] == seps[0];
    if s in WordNumbers {
      KeysAreWords(s);
      assert false;
    }
  }

  /** Spoken numbers round-trip: the words of any `n` up to 999999, joined
      by spaces or hyphens, parse back to `n`. */
  lemma {:induction false} ParseSpelled(n: nat, seps: seq<char>)
    requires n <= 999999
    requires |seps| == |Spell(n)| - 1 && forall k :: 0 <= k < |seps| ==> IsSep(seps[k])
    ensures ParseWords(WordNumbers, JoinWith(Spell(n), seps)) == Some(n)
  {
    var ws := Spell(n);
    SpellWords(n);
    forall k | 0 <= k < |ws|
      ensures |ws[k]| > 0 && NoSep(ws[k])
    {
      assert Letters(ws[k]);
    }
    JoinWithStart(ws, seps);
    if |ws| == 1 {
      SingleWordSpelled(n);
    } else {
      JoinedNotKey(ws, seps);
      SplitJoin(ws, seps);
      WordNumbersReads();
      SpellFold(WordNumbers, n);
    }
  }

  lemma SpellThreeFortyTwo()
    ensures Spell(342) == ["three", "hundred", "forty", "two"]
  {
    assert Units[3] == "three" && Units[2] == "two" && Tens[4] == "forty";
    assert Spell2(42) == ["forty", "two"];
    assert Spell(342) == ["three", "hundred"] + ["forty", "two"];
  }

  lemma JoinThreeFortyTwo()
    ensures JoinWith(["three", "hundred", "forty", "two"], [' ', ' ', '-']) == "three hundred forty-two"
  {
    assert JoinWith(["two"], []) == "two";
    assert JoinWith(["forty", "two"], ['-']) == "forty-two";
    assert JoinWith(["hundred", "forty", "two"], [' ', '-']) == "hundred forty-two";
    var ws: seq<string>, seps := ["three", "hundred", "forty", "two"], [' ', ' ', '-'];
    assert ws[1..] == ["hundred", "forty", "two"] && seps[1..] == [' ', '-'];
    assert JoinWith(ws, seps) == "three" + [' '] + "hundred forty-two";
  }

  /** "three hundred forty-two" reads as 342. */
  lemma ThreeHundredFortyTwo()
    ensures ParseWords(WordNumbers, "three hundred forty-two") == Some(342)
  {
    SpellThreeFortyTwo();
    JoinThreeFortyTwo();
    ParseSpelled(342, [' ', ' ', '-']);
  }

  /* ---------------- parseInt(s, 10) ---------------- */

  predicate IsDigit(c: char)
  {
    '0' <= c <= '9'
  }

  /** The longest prefix of decimal digits. */
  function LeadingDigits(s: string): (d: string)
    ensures |d| <= |s| && d == s[..|d|]
    ensures forall i :: 0 <= i < |d| ==> IsDigit(d[i])
    ensures |d| < |s| ==> !IsDigit(s[|d|])
  {
    if |s| > 0 && IsDigit(s[0]) then
      var d := [s[0]] + LeadingDigits(s[1..]);
      assert d == s[..|d|];
      d
    else ""
  }

  function DigitValue(c: char): nat
    requires IsDigit(c)
  {
    c as int - '0' as int
  }

  /** The value of a string of decimal digits. */
  function DigitsValue(d: string): nat
    requires forall i :: 0 <= i < |d| ==> IsDigit(d[i])
  {
    if |d| == 0 then 0
    else DigitsValue(d[..|d| - 1]) * 10 + DigitValue(d[|d| - 1])
  }

  /** `parseInt(s, 10)`: skip white space, read an optional sign and the
      leading digits; `None` (NaN) when there are no digits. */
  function ParseInt(s: string): Option<int>
  {
    var t := TrimStart(s);
    var neg := |t| > 0 && t[0] == '-';
    var body := if |t| > 0 && (t[0] == '-' || t[0] == '+') then t[1..] else t;
    var d := LeadingDigits(body);
    var v: int := if |d| == 0 then 0 else DigitsValue(d);
    if |d| == 0 then None
    else if neg then Some(-v)
    else Some(v)
  }

  /** The decimal numeral of `n`. */
  function Decimal(n: nat): (d: string)
    ensures |d| > 0 && forall i :: 0 <= i < |d| ==> IsDigit(d[i])
  {
    if n < 10 then [('0' as int + n) as char]
    else Decimal(n / 10) + [('0' as int + n % 10) as char]
  }

  lemma {:induction false} DecimalValue(n: nat)
    ensures DigitsValue(Decimal(n)) == n
  {
    if n >= 10 {
      var d := Decimal(n);
      assert d[..|d| - 1] == Decimal(n / 10);
      DecimalValue(n / 10);
    }
  }

  lemma {:induction false} LeadingDigitsOf(d: string, tail: string)
    requires forall i :: 0 <= i < |d| ==> IsDigit(d[i])
    requires |tail| == 0 || !IsDigit(tail[0])
    ensures LeadingDigits(d + tail) == d
    decreases |d|
  {
    if |d| > 0 {
      assert (d + tail)[1..] == d[1..] + tail;
      LeadingDigitsOf(d[1..], tail);
    } else {
      assert d + tail == tail;
    }
  }

  /** `parseInt` reads back a numeral followed by anything that is not a
      digit, with or without a minus sign. */
  lemma {:induction false} ParseIntDecimal(n: nat, tail: string)
    requires |tail| == 0 || !IsDigit(tail[0])
    ensures ParseInt(Decimal(n) + tail) == Some(n)
  {
    var d := Decimal(n);
    var s := d + tail;
    LeadingDigitsOf(d, tail);
    DecimalValue(n);
    assert s[0] == d[0] && IsDigit(s[0]);
    assert !IsSpace(s[0]);
    assert TrimStart(s) == s;
  }

  /** The same numeral after a minus sign reads as its negation. */
  lemma {:induction false} ParseIntNegative(n: nat, tail: string)
    requires |tail| == 0 || !IsDigit(tail[0])
    ensures ParseInt("-" + Decimal(n) + tail) == Some(-(n as int))
  {
    var d := Decimal(n);
    var m := "-" + d + tail;
    LeadingDigitsOf(d, tail);
    DecimalValue(n);
    assert m[0] == '-' && !IsSpace(m[0]);
    assert TrimStart(m) == m;
    assert m[1..] == d + tail;
  }

  /** A transcript with no leading digit, sign or white space is not a
      numeral, so the game falls back to reading words. */
  lemma ParseIntNeedsDigits(s: string)
    requires |s| > 0 && !IsDigit(s[0]) && !IsSpace(s[0]) && s[0] != '-' && s[0] != '+'
    ensures ParseInt(s) == None
  {
  }

  /** The guess a transcript denotes: `parseInt`, else the words read
      with `table`. */
  function ReadGuess(table: map<string, nat>, transcript: string): (g: Option<int>)
    ensures ParseInt(transcript).Some? ==> g == ParseInt(transcript)
    ensures ParseInt(transcript).None? && ParseWords(table, transcript).Some? ==>
              g == Some(ParseWords(table, transcript).value as int)
    ensures g.None? <==> ParseInt(transcript).None? && ParseWords(table, transcript).None?
  {
    match ParseInt(transcript)
    case Some(n) => Some(n)
    case None => if ParseWords(table, transcript).Some? then Some(ParseWords(table, transcript).value) else None
  }

  /** Saying a number: the spelled words of any n up to 999999, joined by
      spaces or hyphens, start with a letter, so `parseInt` finds no numeral
      and the words are read back as n. */
  lemma ReadGuessSpelled(n: nat, seps: seq<char>)
    requires n <= 999999
    requires |seps| == |Spell(n)| - 1 && forall k :: 0 <= k < |seps| ==> IsSep(seps[k])
    ensures ReadGuess(WordNumbers, JoinWith(Spell(n), seps)) == Some(n)
  {
    SpelledIsNoNumeral(n, seps);
    ParseSpelled(n, seps);
  }

  /** Spelled words start with a letter, which `parseInt` cannot read. */
  lemma SpelledIsNoNumeral(n: nat, seps: seq<char>)
    requires n <= 999999
    requires |seps| == |Spell(n)| - 1
    ensures ParseInt(JoinWith(Spell(n), seps)) == None
  {
    SpellWords(n);
    LetterFirstIsNoNumeral(Spell(n), seps);
  }

  lemma LetterFirstIsNoNumeral(ws: seq<string>, seps: seq<char>)
    requires |ws| >= 1 && |seps| == |ws| - 1 && |ws[0]| > 0 && Letters(ws[0])
    ensures ParseInt(JoinWith(ws, seps)) == None
  {
    JoinWithStart(ws, seps);
    var s := JoinWith(ws, seps);
    assert 'a' <= s[0] <= 'z';
    ParseIntNeedsDigits(s);
  }

  /** Saying digits: a numeral followed by anything that is not a digit is
      read as that number whatever the word table holds. */
  lemma ReadGuessDigits(table: map<string, nat>, n: nat, tail: string)
    requires |tail| == 0 || !IsDigit(tail[0])
    ensures ReadGuess(table, Decimal(n) + tail) == Some(n)
  {
    ParseIntDecimal(n, tail);
  }
}
