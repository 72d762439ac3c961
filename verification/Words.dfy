/** Splitting text at runs of white space, and joining words with single blanks. What white space is differs between
Go's `strings.Fields` and JavaScript's `\s`, so it is a parameter. */
module Words {

  predicate IsWord(space: char -> bool, s: string) { s != "" && forall i :: 0 <= i < |s| ==> !space(s[i]) }

  /** The length of the run of non-space characters at the start of `s`. */
  function WordLength(space: char -> bool, s: string): (n: nat)
    ensures n <= |s|
    ensures forall i :: 0 <= i < n ==> !space(s[i])
    ensures n < |s| ==> space(s[n])
  {
    if s == "" || space(s[0]) then 0 else 1 + WordLength(space, s[1..])
  }

  /** The words of `s`. */
  function Split(space: char -> bool, s: string): (words: seq<string>)
    ensures forall w :: w in words ==> IsWord(space, w)
    decreases |s|
  {
    if s == "" then []
    else if space(s[0]) then Split(space, s[1..])
    else
      var n := WordLength(space, s);
      [s[..n]] + Split(space, s[n..])
  }

  function Join(words: seq<string>): string {
    if words == [] then "" else if |words| == 1 then words[0] else words[0] + " " + Join(words[1..])
  }

  /** Splitting what was joined gives the words back. */
  lemma {:induction false} SplitOfJoin(space: char -> bool, words: seq<string>)
    requires space(' ') && forall w :: w in words ==> IsWord(space, w)
    ensures Split(space, Join(words)) == words
  {
    if words != [] {
      var s := Join(words);
      var rest := if |words| == 1 then "" else " " + Join(words[1..]);
      assert s == words[0] + rest;
      assert IsWord(space, words[0]);
      assert forall i :: 0 <= i < |words[0]| ==> s[i] == words[0][i] && !space(s[i]);
      assert |words| > 1 ==> s[|words[0]|] == ' ';
      var n := WordLength(space, s);
      assert n == |words[0]|;
      assert s[..n] == words[0] && s[n..] == rest;
      if |words| == 1 {
        assert Split(space, rest) == [];
      } else {
        assert rest[1..] == Join(words[1..]);
        SplitOfJoin(space, words[1..]);
      }
      assert words == [words[0]] + words[1..];
    }
  }

  function TrimLeft(space: char -> bool, s: string): (r: string)
    ensures |r| <= |s|
  {
    if s != "" && space(s[0]) then TrimLeft(space, s[1..]) else s
  }

  function TrimRight(space: char -> bool, s: string): (r: string)
    ensures |r| <= |s|
  {
    if s != "" && space(s[|s| - 1]) then TrimRight(space, s[..|s| - 1]) else s
  }

  function Trim(space: char -> bool, s: string): string { TrimRight(space, TrimLeft(space, s)) }

  /** A text is trimmed when neither end is white space. */
  predicate Trimmed(space: char -> bool, s: string) { s == "" || (!space(s[0]) && !space(s[|s| - 1])) }

  lemma {:induction false} TrimRightEnds(space: char -> bool, s: string)
    ensures var r := TrimRight(space, s); r <= s && (r == "" || !space(r[|r| - 1]))
  {
    if s != "" && space(s[|s| - 1]) {
      TrimRightEnds(space, s[..|s| - 1]);
    }
  }

  lemma {:induction false} TrimLeftStarts(space: char -> bool, s: string)
    ensures var r := TrimLeft(space, s); r == "" || !space(r[0])
  {
    if s != "" && space(s[0]) {
      TrimLeftStarts(space, s[1..]);
    }
  }

  /** Trimming leaves exactly the trimmed texts alone. */
  lemma TrimIff(space: char -> bool, s: string)
    ensures Trim(space, s) == s <==> Trimmed(space, s)
    ensures Trimmed(space, Trim(space, s))
  {
    TrimLeftStarts(space, s);
    TrimRightEnds(space, TrimLeft(space, s));
  }

  function Concat(words: seq<string>): string { if words == [] then "" else words[0] + Concat(words[1..]) }

  function Letters(space: char -> bool, s: string): string {
    if s == "" then "" else (if space(s[0]) then "" else [s[0]]) + Letters(space, s[1..])
  }

  /** Splitting loses white space only. */
  lemma {:induction false} SplitKeepsLetters(space: char -> bool, s: string)
    ensures Concat(Split(space, s)) == Letters(space, s)
    decreases |s|
  {
    if s == "" {
    } else if space(s[0]) {
      SplitKeepsLetters(space, s[1..]);
    } else {
      var n := WordLength(space, s);
      SplitKeepsLetters(space, s[n..]);
      LettersOfWord(space, s, n);
      assert ([s[..n]] + Split(space, s[n..]))[1..] == Split(space, s[n..]);
    }
  }

  lemma {:induction false} LettersOfWord(space: char -> bool, s: string, n: nat)
    requires n <= |s| && forall i :: 0 <= i < n ==> !space(s[i])
    ensures Letters(space, s) == s[..n] + Letters(space, s[n..])
  {
    if n == 0 {
      assert s[0..] == s;
    } else {
      LettersOfWord(space, s[1..], n - 1);
      assert s[1..][n - 1..] == s[n..] && s[..n] == [s[0]] + s[1..][..n - 1];
    }
  }

  /** And it splits at every white space. */
  lemma {:induction false} SplitAtSpace(space: char -> bool, a: string, c: char, b: string)
    requires space(c)
    ensures Split(space, a + [c] + b) == Split(space, a) + Split(space, b)
    decreases |a|
  {
    var s := a + [c] + b;
    if a == "" {
      assert s[1..] == b;
      assert Split(space, "") == [];
    } else if space(a[0]) {
      assert s[1..] == a[1..] + [c] + b;
      SplitAtSpace(space, a[1..], c, b);
    } else {
      var n := WordLength(space, a);
      SameWordLength(space, a, c, b);
      SplitFirst(space, a);
      SplitFirst(space, s);
      hide Split;
      assert s[..n] == a[..n] && s[n..] == a[n..] + [c] + b;
      SplitAtSpace(space, a[n..], c, b);
    }
  }

  lemma SplitFirst(space: char -> bool, s: string)
    requires s != "" && !space(s[0])
    ensures var n := WordLength(space, s); n > 0 && Split(space, s) == [s[..n]] + Split(space, s[n..])
  {
  }

  lemma {:induction false} SameWordLength(space: char -> bool, a: string, c: char, b: string)
    requires space(c)
    ensures WordLength(space, a + [c] + b) == WordLength(space, a)
  {
    if a != "" && !space(a[0]) {
      assert (a + [c] + b)[1..] == a[1..] + [c] + b;
      SameWordLength(space, a[1..], c, b);
    }
  }

  /** Trimming cuts white space off both ends. */
  lemma TrimCutsSpace(space: char -> bool, s: string) returns (before: string, after: string)
    ensures s == before + Trim(space, s) + after
    ensures forall c :: c in before || c in after ==> space(c)
  {
    before := CutLeft(space, s);
    after := CutRight(space, TrimLeft(space, s));
    assert s == before + (Trim(space, s) + after);
  }

  lemma {:induction false} CutLeft(space: char -> bool, s: string) returns (before: string)
    ensures s == before + TrimLeft(space, s) && forall c :: c in before ==> space(c)
  {
    if s != "" && space(s[0]) {
      var rest := CutLeft(space, s[1..]);
      before := [s[0]] + rest;
      assert s == [s[0]] + s[1..];
    } else {
      before := "";
    }
  }

  lemma {:induction false} CutRight(space: char -> bool, s: string) returns (after: string)
    ensures s == TrimRight(space, s) + after && forall c :: c in after ==> space(c)
  {
    if s != "" && space(s[|s| - 1]) {
      var rest := CutRight(space, s[..|s| - 1]);
      after := rest + [s[|s| - 1]];
      assert s == s[..|s| - 1] + [s[|s| - 1]];
    } else {
      after := "";
    }
  }
}
