/** Two texts substituted one after the other (enterprise/spdx/builder/builder.go, identifiedBundle): where that changes
anything beside them. */
module Substitution {
  import opened Strings

  datatype Replacement = Replacement(from: string, to: string)

  /** `bytes.ReplaceAll` for a non-empty `from`. */
  function ReplaceAll(s: string, from: string, to: string): string
    requires from != ""
  {
    if |s| < |from| then s
    else if from <= s then to + ReplaceAll(s[|from|..], from, to)
    else [s[0]] + ReplaceAll(s[1..], from, to)
  }

  /** `from` occurs in `s` at `k` and nowhere else. */
  ghost predicate OccursOnlyAt(s: string, from: string, k: nat) {
    At(s, k, from) && forall j :: At(s, j, from) ==> j == k
  }

  lemma {:induction false} KeepsLength(s: string, from: string, to: string)
    requires from != "" && |from| == |to|
    ensures |ReplaceAll(s, from, to)| == |s|
  {
    if |s| < |from| {
    } else if from <= s {
      KeepsLength(s[|from|..], from, to);
    } else {
      KeepsLength(s[1..], from, to);
    }
  }

  lemma AtShift(s: string, n: nat, j: int, from: string)
    requires n <= |s| && 0 <= j
    ensures At(s[n..], j, from) <==> At(s, n + j, from)
  {
    if j + |from| <= |s| - n {
      assert s[n..][j..j + |from|] == s[n + j..n + j + |from|];
    }
  }

  ghost predicate InOccurrence(s: string, from: string, i: nat) {
    exists j :: At(s, j, from) && j <= i < j + |from|
  }

  /** Around `i`, an occurrence of `from` in `s` has become `to` in `r`. */
  ghost predicate BecameAt(s: string, r: string, from: string, to: string, i: nat) {
    exists j :: At(s, j, from) && At(r, j, to) && j <= i < j + |from|
  }

  /** What one replacement changes lies in an occurrence that it replaced. */
  lemma {:induction false} ChangesOnlyOccurrences(s: string, from: string, to: string, i: nat)
    requires from != "" && |from| == |to| && i < |s|
    ensures |ReplaceAll(s, from, to)| == |s|
    ensures ReplaceAll(s, from, to)[i] != s[i] ==> BecameAt(s, ReplaceAll(s, from, to), from, to, i)
  {
    var r := ReplaceAll(s, from, to);
    KeepsLength(s, from, to);
    if |s| < |from| {
    } else if from <= s {
      assert At(s, 0, from) && At(r, 0, to);
      if i >= |from| {
        ChangesOnlyOccurrences(s[|from|..], from, to, i - |from|);
        ShiftBecame(s, r, |from|, from, to, i);
      }
    } else if i > 0 {
      ChangesOnlyOccurrences(s[1..], from, to, i - 1);
      ShiftBecame(s, r, 1, from, to, i);
    }
  }

  lemma ShiftBecame(s: string, r: string, n: nat, from: string, to: string, i: nat)
    requires n <= i < |s| && |r| == |s|
    ensures BecameAt(s[n..], r[n..], from, to, i - n) ==> BecameAt(s, r, from, to, i)
  {
    if j :| At(s[n..], j, from) && At(r[n..], j, to) && j <= i - n < j + |from| {
      AtShift(s, n, j, from);
      AtShift(r, n, j, to);
      assert At(s, n + j, from) && At(r, n + j, to) && n + j <= i < n + j + |from|;
    }
  }

  lemma {:induction false} NoOccurrence(s: string, from: string, to: string)
    requires from != "" && forall j :: !At(s, j, from)
    ensures ReplaceAll(s, from, to) == s
  {
    if |s| >= |from| {
      assert !At(s, 0, from);
      forall j ensures !At(s[1..], j, from) {
        if j >= 0 { AtShift(s, 1, j, from); }
      }
      NoOccurrence(s[1..], from, to);
    }
  }

  /** A text that occurs once is replaced there. */
  lemma {:induction false} OneOccurrence(s: string, from: string, to: string, k: nat)
    requires from != "" && OccursOnlyAt(s, from, k)
    ensures k + |from| <= |s| && ReplaceAll(s, from, to) == s[..k] + to + s[k + |from|..]
  {
    if k == 0 {
      assert from == s[..|from|];
      RestHasNone(s, from);
      NoOccurrence(s[|from|..], from, to);
    } else {
      TailOccursOnlyAt(s, from, k);
      OneOccurrence(s[1..], from, to, k - 1);
      Shifted(s, k, |from|);
      hide OccursOnlyAt;
      assert ReplaceAll(s, from, to) == [s[0]] + ReplaceAll(s[1..], from, to);
    }
  }

  lemma RestHasNone(s: string, from: string)
    requires from != "" && OccursOnlyAt(s, from, 0)
    ensures forall j :: !At(s[|from|..], j, from)
  {
    forall j ensures !At(s[|from|..], j, from) {
      if j >= 0 { AtShift(s, |from|, j, from); }
    }
  }

  lemma TailOccursOnlyAt(s: string, from: string, k: nat)
    requires from != "" && k > 0 && OccursOnlyAt(s, from, k)
    ensures |s| >= |from| && !(from <= s) && OccursOnlyAt(s[1..], from, k - 1)
  {
    PrefixIsOccurrence(s, from);
    AtShift(s, 1, k - 1, from);
    forall j | At(s[1..], j, from) ensures j == k - 1 {
      AtShift(s, 1, j, from);
    }
  }

  lemma PrefixIsOccurrence(s: string, from: string)
    ensures from <= s <==> At(s, 0, from)
  {
  }

  lemma Shifted(s: string, k: nat, n: nat)
    requires 0 < k && k + n <= |s|
    ensures s[1..][..k - 1] == s[1..k] && s[1..][k - 1 + n..] == s[k + n..] && s[..k] == [s[0]] + s[1..k]
  {
  }

  lemma Avoids(s: string, j: int, x: string, q: nat, c: char)
    requires At(s, j, x) && q < |s| && s[q] == c && c !in x
    ensures j + |x| <= q || q < j
  {
    assert forall i :: j <= i < j + |x| ==> s[i] == s[j..j + |x|][i - j];
  }

  lemma CharacterAt(s: string, j: int, x: string, q: nat)
    requires q < |x|
    ensures At(s, j, x) ==> 0 <= j && j + q < |s| && s[j + q] == x[q] && x[q] in s
  {
    if At(s, j, x) {
      assert s[j + q] == s[j..j + |x|][q];
    }
  }

  lemma AtWithin(s: string, k: int, x: string, j: int, y: string)
    requires At(s, k, x) && At(s, j, y)
    ensures k <= j && j + |y| <= k + |x| ==> At(x, j - k, y)
  {
    if k <= j && j + |y| <= k + |x| {
      assert forall i :: 0 <= i < |x| ==> x[i] == s[k..k + |x|][i] == s[k + i];
      assert x[j - k..j - k + |y|] == s[j..j + |y|];
    }
  }

  lemma Within(m: string, k: int, x: string, q: int, y: string)
    requires At(x, q, y)
    ensures At(m, k, x) ==> At(m, k + q, y)
  {
    if At(m, k, x) {
      assert forall i :: 0 <= i < |x| ==> x[i] == m[k..k + |x|][i] == m[k + i];
      assert m[k + q..k + q + |y|] == x[q..q + |y|];
    }
  }

  // ---------------------------------------------------------------- occurrences that do not overlap

  /** No end of `a` begins `b`. */
  predicate Apart(a: string, b: string)
    requires |a| == |b|
  {
    forall e :: 0 < e < |a| ==> a[e..] != b[..|a| - e]
  }

  /** No two occurrences of the text overlap. */
  predicate Unbordered(s: string) { Apart(s, s) }

  lemma BorderOrApart(s: string, from: string, k: nat)
    requires from <= s && At(s, k, from)
    ensures k >= |from| || from[k..] == from[..|from| - k]
  {
    if k < |from| {
      assert from[k..] == s[k..|from|] == from[..|from| - k];
    }
  }

  /** Occurrences that do not overlap are all replaced. */
  lemma {:induction false} ReplacesAt(s: string, from: string, to: string, k: int)
    requires from != "" && |from| == |to| && Unbordered(from) && At(s, k, from)
    ensures At(ReplaceAll(s, from, to), k, to)
  {
    var r := ReplaceAll(s, from, to);
    KeepsLength(s, from, to);
    if from <= s {
      if k > 0 {
        BorderOrApart(s, from, k);
        var rest := k - |from|;
        AtShift(s, |from|, rest, from);
        ReplacesAt(s[|from|..], from, to, rest);
        hide ReplaceAll, Unbordered, At;
        AtShift(r, |from|, rest, to);
      }
    } else {
      assert k > 0;
      AtShift(s, 1, k - 1, from);
      ReplacesAt(s[1..], from, to, k - 1);
      hide ReplaceAll, Unbordered, At;
      AtShift(r, 1, k - 1, to);
    }
  }

  /** The first occurrence is replaced. */
  lemma {:induction false} ReplacesFirst(s: string, from: string, to: string, k: int)
    requires from != "" && |from| == |to| && At(s, k, from) && forall j :: j < k ==> !At(s, j, from)
    ensures At(ReplaceAll(s, from, to), k, to)
  {
    var r := ReplaceAll(s, from, to);
    KeepsLength(s, from, to);
    if k > 0 {
      assert !At(s, 0, from);
      AtShift(s, 1, k - 1, from);
      forall j | j < k - 1 ensures !At(s[1..], j, from) {
        if j >= 0 { AtShift(s, 1, j, from); }
      }
      ReplacesFirst(s[1..], from, to, k - 1);
      hide ReplaceAll, At;
      AtShift(r, 1, k - 1, to);
    }
  }

  predicate Occurs(s: string, x: string) { exists j :: 0 <= j <= |s| && At(s, j, x) }

  /** A text none of whose ends begins it or what replaces it is gone for good once it is replaced. */
  lemma NoneLeft(s: string, from: string, to: string, j: int)
    requires from != "" && |from| == |to| && from != to
    requires Unbordered(from) && Apart(from, to) && Apart(to, from)
    ensures !At(ReplaceAll(s, from, to), j, from)
  {
    var r := ReplaceAll(s, from, to);
    KeepsLength(s, from, to);
    hide ReplaceAll, Apart, Unbordered;
    if At(r, j, from) {
      if p :| j <= p < j + |from| && s[p] != r[p] {
        ChangesOnlyOccurrences(s, from, to, p);
        var k :| At(s, k, from) && At(r, k, to) && k <= p < k + |from|;
        OnePlace(r, j, from, k, to);
      } else {
        assert s[j..j + |from|] == r[j..j + |from|];
        ReplacesAt(s, from, to, j);
      }
    }
  }

  lemma OnePlace(r: string, j: int, a: string, k: int, b: string)
    requires |a| == |b| && Apart(a, b) && Apart(b, a) && At(r, j, a) && At(r, k, b) && -|a| < k - j < |a|
    ensures j == k && a == b
  {
    TwoAt(r, j, a, k, b);
  }

  lemma SamePlace(r: string, j: int, k: int, a: string)
    requires Unbordered(a) && At(r, j, a) && At(r, k, a) && -|a| < k - j < |a|
    ensures j == k
  {
    TwoAt(r, j, a, k, a);
  }

  /** Two texts of one length that overlap begin at one place, or an end of one begins the other. */
  lemma TwoAt(r: string, j: int, a: string, k: int, b: string)
    requires |a| == |b| && At(r, j, a) && At(r, k, b) && -|a| < k - j < |a|
    ensures if j == k then a == b else if j < k then a[k - j..] == b[..|a| - (k - j)]
        else b[j - k..] == a[..|a| - (j - k)]
  {
    var n := |a|;
    if j < k {
      assert a[k - j..] == r[k..j + n] == b[..n - (k - j)];
    } else if k < j {
      assert b[j - k..] == r[j..k + n] == a[..n - (j - k)];
    }
  }

  // ---------------------------------------------------------------- two substitutions in sequence

  /** The substitutions one after the other. */
  function Serve(content: string, replacements: seq<Replacement>): string
    requires forall r :: r in replacements ==> r.from != ""
  {
    if replacements == [] then content
    else
      var last := replacements[|replacements| - 1];
      ReplaceAll(Serve(content, replacements[..|replacements| - 1]), last.from, last.to)
  }

  lemma ServeTwo(content: string, first: Replacement, second: Replacement)
    requires first.from != "" && second.from != ""
    ensures Serve(content, [first, second])
        == ReplaceAll(ReplaceAll(content, first.from, first.to), second.from, second.to)
  {
    assert [first, second][..1] == [first] && [first][..0] == [];
    assert Serve(content, [first][..0]) == content;
    assert Serve(content, [first]) == ReplaceAll(content, first.from, first.to);
  }

  /** `ns` placed `d` after the beginning of `to` shares a place with it, and they agree wherever they do. */
  predicate Overlaps(to: string, ns: string, d: int) {
    -|ns| < d < |to| && forall p :: 0 <= p < |to| && d <= p < d + |ns| ==> to[p] == ns[p - d]
  }

  /** Wherever the new name overlaps the second text and the old one does not, replacing that text changes nothing
  beside the name. */
  ghost predicate Harmless(from: string, to: string, ns: string, ns': string)
    requires |ns| == |ns'|
  {
    forall d, x :: Overlaps(to, ns, d) && !Overlaps(from, ns, d) && 0 <= x < |ns| && !(0 <= d + x < |to|) ==>
      ns[x] == ns'[x]
  }

  /** Serving changes the text at `i`. */
  predicate ChangesAt(content: string, first: Replacement, second: Replacement, i: nat)
    requires first.from != "" && second.from != ""
  {
    var served := Serve(content, [first, second]);
    i < |served| && i < |content| && served[i] != content[i]
  }

  ghost predicate OnlyOccurrences(first: Replacement, second: Replacement)
    requires first.from != "" && second.from != ""
  {
    forall content, i :: ChangesAt(content, first, second, i) ==>
      InOccurrence(content, first.from, i) || InOccurrence(content, second.from, i)
  }

  lemma ServesOnlyOccurrences(from: string, to: string, ns: string, ns': string, content: string, i: nat)
    requires from != "" && |from| == |to| && ns != "" && |ns| == |ns'|
    requires Harmless(from, to, ns, ns') && ChangesAt(content, Replacement(from, to), Replacement(ns, ns'), i)
    ensures InOccurrence(content, from, i) || InOccurrence(content, ns, i)
  {
    ServeTwo(content, Replacement(from, to), Replacement(ns, ns'));
    var m := ReplaceAll(content, from, to);
    ChangesOnlyOccurrences(content, from, to, i);
    ChangesOnlyOccurrences(m, ns, ns', i);
    hide ReplaceAll, Serve, Harmless, At;
    if m[i] == content[i] {
      var r := ReplaceAll(m, ns, ns');
      var k :| At(m, k, ns) && At(r, k, ns') && k <= i < k + |ns|;
      forall p | 0 <= p < |content| && content[p] != m[p] ensures BecameAt(content, m, from, to, p) {
        ChangesOnlyOccurrences(content, from, to, p);
      }
      SecondInFirst(from, to, ns, ns', content, m, r, k, i);
    }
  }

  /** A second text found after the first substitution was there before it, or was completed by the new name. */
  lemma SecondInFirst(from: string, to: string, ns: string, ns': string, content: string, m: string, r: string, k: int,
                      i: nat)
    requires |from| == |to| && |ns| == |ns'| && Harmless(from, to, ns, ns') && |content| == |m| == |r|
    requires forall p :: 0 <= p < |content| && content[p] != m[p] ==> BecameAt(content, m, from, to, p)
    requires At(m, k, ns) && At(r, k, ns') && k <= i < k + |ns| && r[i] != m[i]
    ensures InOccurrence(content, from, i) || InOccurrence(content, ns, i)
  {
    if p :| k <= p < k + |ns| && content[p] != m[p] {
      var j :| At(content, j, from) && At(m, j, to) && j <= p < j + |from|;
      BothOverlap(m, j, to, k, ns);
      OldDoesNot(content, m, j, from, k, ns, p);
      hide Overlaps;
      assert ns[i - k] == m[i] && ns'[i - k] == r[i];
      assert 0 <= (k - j) + (i - k) < |to|;
    } else {
      assert content[k..k + |ns|] == m[k..k + |ns|];
      assert At(content, k, ns);
    }
  }

  lemma OldDoesNot(content: string, m: string, j: int, from: string, k: int, ns: string, p: nat)
    requires |content| == |m| && At(content, j, from) && At(m, k, ns)
    requires j <= p < j + |from| && k <= p < k + |ns| && content[p] != m[p]
    ensures !Overlaps(from, ns, k - j)
  {
    assert content[p] == from[p - j] && m[p] == ns[p - j - (k - j)];
  }

  lemma BothOverlap(m: string, j: int, to: string, k: int, ns: string)
    requires At(m, j, to) && At(m, k, ns) && -|ns| < k - j < |to|
    ensures Overlaps(to, ns, k - j)
  {
    forall p | 0 <= p < |to| && k - j <= p < k - j + |ns| ensures to[p] == ns[p - (k - j)] {
      assert m[j..j + |to|][p] == m[j + p] == m[k..k + |ns|][j + p - k];
    }
  }

  // ---------------------------------------------------------------- a text in which serving does harm

  /** Where a name begins in the text in which it overlaps `ns` that lies `d` after it. */
  function Place(d: int): nat { if d < 0 then -d else 0 }

  /** That text: the name, and of `ns` what the name does not cover. */
  function Around(name: string, ns: string, d: int): string
    requires -|ns| < d < |name|
  {
    ns[..Place(d)] + name + (if d + |ns| > |name| then ns[if |name| - d < 0 then 0 else |name| - d..] else "")
  }

  /** The text is the beginning of `ns`, the name, and the end of `ns`. */
  lemma Pieces(name: string, ns: string, d: int) returns (a: string, b: string)
    requires -|ns| < d < |name|
    ensures var s := Around(name, ns, d);
      && |a| == Place(d) && At(s, 0, a) && At(s, |a|, name) && At(s, |a| + |name|, b) && |s| == |a| + |name| + |b|
      && At(ns, 0, a) && (b != "" ==> At(ns, |name| - d, b) && |name| - d + |b| == |ns|)
      && (b == "" ==> d + |ns| <= |name|)
  {
    a := ns[..Place(d)];
    b := if d + |ns| > |name| then ns[if |name| - d < 0 then 0 else |name| - d..] else "";
    var s := Around(name, ns, d);
    assert s[|a|..|a| + |name|] == name;
  }

  /** In the text around the old name, that name is there once, if it is not in `ns`. */
  lemma OldNameOnce(from: string, ns: string, d: int)
    requires -|ns| < d < |from| && Unbordered(from) && forall j :: !At(ns, j, from)
    ensures OccursOnlyAt(Around(from, ns, d), from, Place(d))
  {
    var s := Around(from, ns, d);
    var a, b := Pieces(from, ns, d);
    hide Around, Unbordered, At;
    forall j | At(s, j, from) ensures j == |a| {
      InRange(s, j, from);
      if j + |from| <= |a| {
        AtWithin(s, 0, a, j, from);
        Within(ns, 0, a, j, from);
      } else if j >= |a| + |from| {
        AtWithin(s, |a| + |from|, b, j, from);
        Within(ns, |from| - d, b, j - |a| - |from|, from);
      } else {
        SamePlace(s, j, |a|, from);
      }
    }
  }

  lemma InRange(s: string, j: int, x: string)
    ensures At(s, j, x) ==> 0 <= j && j + |x| <= |s|
  {
  }

  /** The first or the last slash. */
  predicate Slash(s: string, q: nat) { q < |s| && s[q] == '/' }
  predicate FirstSlash(s: string, q: nat) { Slash(s, q) && forall i :: 0 <= i < q ==> s[i] != '/' }
  predicate LastSlash(s: string, q: nat) { Slash(s, q) && forall i :: q < i < |s| ==> s[i] != '/' }

  lemma {:induction false} Slashes(s: string) returns (first: nat, last: nat)
    requires '/' in s
    ensures FirstSlash(s, first) && LastSlash(s, last)
  {
    first := if s[0] == '/' then 0 else 0;
    last := 0;
    if s[0] == '/' {
      if '/' in s[1..] {
        var f, l := Slashes(s[1..]);
        last := l + 1;
      }
    } else {
      var f, l := Slashes(s[1..]);
      first, last := f + 1, l + 1;
    }
  }

  /** Around a name without slashes, `ns` has its slashes where it had them. */
  lemma SlashesAround(name: string, to: string, ns: string, d: int, first: nat, last: nat)
    requires |name| == |to| && to != "" && '/' !in name && '/' !in to && Overlaps(to, ns, d)
    requires FirstSlash(ns, first) && LastSlash(ns, last)
    ensures var s := Around(name, ns, d);
      && (d >= 0 ==> |s| == d + |ns| && FirstSlash(s, d + first))
      && (d < 0 && |to| - d <= |ns| ==> |s| == |ns|)
      && (d < 0 && |to| - d > |ns| ==> LastSlash(s, last))
  {
    assert forall q :: 0 <= q < |ns| && 0 <= q + d < |to| ==> ns[q] == to[q + d];
    assert forall q :: 0 <= q < |ns| && 0 <= q + d < |to| ==> ns[q] != '/';
  }

  /** Around the old name, `ns` could only be where the new one completes it. */
  lemma OnlyWhereCompleted(from: string, to: string, ns: string, d: int, j: int)
    requires |from| == |to| && to != "" && '/' !in from && '/' !in to && '/' in ns && Overlaps(to, ns, d)
    ensures At(Around(from, ns, d), j, ns) ==> j == Place(d) + d
  {
    var first, last := Slashes(ns);
    SlashesAround(from, to, ns, d, first, last);
    var s := Around(from, ns, d);
    InRange(s, j, ns);
    CharacterAt(s, j, ns, first);
    CharacterAt(s, j, ns, last);
    hide Overlaps, Around, At;
  }

  /** Around the old name, `ns` is not there. */
  lemma NotWithOldName(from: string, to: string, ns: string, d: int, j: int)
    requires |from| == |to| && to != "" && '/' !in from && '/' !in to && '/' in ns
    requires Overlaps(to, ns, d) && !Overlaps(from, ns, d)
    ensures !At(Around(from, ns, d), j, ns)
  {
    assert -|ns| < d < |to|;
    hide Overlaps, Around, At;
    OnlyWhereCompleted(from, to, ns, d, j);
    var a, b := Pieces(from, ns, d);
    if At(Around(from, ns, d), j, ns) {
      BothOverlap(Around(from, ns, d), |a|, from, j, ns);
    }
  }

  /** Around the new name, `ns` is there, and not before. */
  lemma FirstWithNewName(to: string, ns: string, d: int, j: int)
    requires to != "" && '/' !in to && '/' in ns && Overlaps(to, ns, d)
    ensures At(Around(to, ns, d), Place(d) + d, ns)
    ensures j < Place(d) + d ==> !At(Around(to, ns, d), j, ns)
  {
    var s := Around(to, ns, d);
    assert s[Place(d) + d..Place(d) + d + |ns|] == ns;
    var first, last := Slashes(ns);
    SlashesAround(to, to, ns, d, first, last);
    hide Overlaps, Around;
    CharacterAt(s, j, ns, first);
  }

  /** The two texts have one length, and differ in the name only. */
  lemma SameAround(from: string, to: string, ns: string, d: int, i: nat)
    requires |from| == |to| && -|ns| < d < |to|
    ensures var s, t := Around(from, ns, d), Around(to, ns, d);
      |s| == |t| && (i < |s| && !(Place(d) <= i < Place(d) + |from|) ==> s[i] == t[i])
  {
  }

  lemma AroundReplaced(from: string, to: string, ns: string, d: int)
    requires |from| == |to| && -|ns| < d < |to|
    ensures var s := Around(from, ns, d);
      Place(d) + |from| <= |s| && Around(to, ns, d) == s[..Place(d)] + to + s[Place(d) + |from|..]
  {
    assert Around(from, ns, d)[..Place(d)] == ns[..Place(d)];
  }

  lemma Substituted(from: string, to: string, ns: string, d: int)
    requires from != "" && |from| == |to| && -|ns| < d < |to| && OccursOnlyAt(Around(from, ns, d), from, Place(d))
    ensures ReplaceAll(Around(from, ns, d), from, to) == Around(to, ns, d)
  {
    hide Around, ReplaceAll, OccursOnlyAt;
    OneOccurrence(Around(from, ns, d), from, to, Place(d));
    AroundReplaced(from, to, ns, d);
  }

  /** The text around the old name, and a place of it that is in neither and that serving changes. */
  lemma Harms(from: string, to: string, ns: string, ns': string, d: int, i: nat)
    requires from != "" && |from| == |to| && |ns| == |ns'| && '/' !in from && '/' !in to && '/' in ns
    requires Unbordered(from) && forall j :: !At(ns, j, from)
    requires Overlaps(to, ns, d) && !Overlaps(from, ns, d)
    requires var x := i - Place(d) - d; 0 <= x < |ns| && !(0 <= d + x < |to|) && ns[x] != ns'[x]
    ensures ChangesAt(Around(from, ns, d), Replacement(from, to), Replacement(ns, ns'), i)
    ensures !InOccurrence(Around(from, ns, d), from, i) && !InOccurrence(Around(from, ns, d), ns, i)
  {
    assert -|ns| < d < |to|;
    hide Around, ReplaceAll, ChangesAt, At, Overlaps, Unbordered, OccursOnlyAt, InOccurrence;
    AroundBoth(from, to, ns, d);
    SameAround(from, to, ns, d, i);
    HarmsIn(Around(from, ns, d), Around(to, ns, d), from, to, ns, ns', Place(d), Place(d) + d, i);
  }

  /** What the texts around the two names are for. */
  lemma AroundBoth(from: string, to: string, ns: string, d: int)
    requires from != "" && |from| == |to| && '/' !in from && '/' !in to && '/' in ns
    requires Unbordered(from) && forall j :: !At(ns, j, from)
    requires Overlaps(to, ns, d) && !Overlaps(from, ns, d)
    ensures OccursOnlyAt(Around(from, ns, d), from, Place(d))
    ensures ReplaceAll(Around(from, ns, d), from, to) == Around(to, ns, d)
    ensures forall j :: !At(Around(from, ns, d), j, ns)
    ensures Place(d) + d >= 0 && At(Around(to, ns, d), Place(d) + d, ns)
    ensures forall j :: j < Place(d) + d ==> !At(Around(to, ns, d), j, ns)
  {
    assert -|ns| < d < |to|;
    hide Around, ReplaceAll, At, Overlaps, Unbordered, OccursOnlyAt;
    OldNameOnce(from, ns, d);
    Substituted(from, to, ns, d);
    FirstWithNewName(to, ns, d, 0);
    forall j ensures !At(Around(from, ns, d), j, ns) { NotWithOldName(from, to, ns, d, j); }
    forall j | j < Place(d) + d ensures !At(Around(to, ns, d), j, ns) { FirstWithNewName(to, ns, d, j); }
  }

  lemma HarmsIn(content: string, m: string, from: string, to: string, ns: string, ns': string, p: nat, k: nat, i: nat)
    requires from != "" && |from| == |to| && ns != "" && |ns| == |ns'| && |m| == |content|
    requires OccursOnlyAt(content, from, p) && ReplaceAll(content, from, to) == m && forall j :: !At(content, j, ns)
    requires At(m, k, ns) && forall j :: j < k ==> !At(m, j, ns)
    requires k <= i < k + |ns| && !(p <= i < p + |from|) && ns[i - k] != ns'[i - k]
    requires i < |content| ==> content[i] == m[i]
    ensures ChangesAt(content, Replacement(from, to), Replacement(ns, ns'), i)
    ensures !InOccurrence(content, from, i) && !InOccurrence(content, ns, i)
  {
    hide ReplaceAll, ChangesAt, At, OccursOnlyAt, InOccurrence;
    CharacterAt(m, k, ns, i - k);
    InNeither(content, from, ns, p, i);
    ReplacedInSecond(content, from, to, m, ns, ns', k, i);
  }

  lemma InNeither(s: string, from: string, ns: string, p: nat, i: int)
    requires OccursOnlyAt(s, from, p) && (forall j :: !At(s, j, ns)) && !(p <= i < p + |from|) && i >= 0
    ensures !InOccurrence(s, from, i) && !InOccurrence(s, ns, i)
  {
  }

  lemma ReplacedInSecond(content: string, from: string, to: string, m: string, ns: string, ns': string, k: int, i: nat)
    requires from != "" && ns != "" && |ns| == |ns'| && forall j :: j < k ==> !At(m, j, ns)
    requires |m| == |content| && ReplaceAll(content, from, to) == m && At(m, k, ns)
    requires k <= i < k + |ns| && i < |m| && content[i] == m[i] && ns[i - k] != ns'[i - k]
    ensures ChangesAt(content, Replacement(from, to), Replacement(ns, ns'), i)
  {
    var r := ReplaceAll(m, ns, ns');
    ReplacesFirst(m, ns, ns', k);
    KeepsLength(m, ns, ns');
    ServeTwo(content, Replacement(from, to), Replacement(ns, ns'));
    CharacterAt(m, k, ns, i - k);
    CharacterAt(r, k, ns', i - k);
    hide Serve, ReplaceAll, At;
  }

  // ---------------------------------------------------------------- main result

  /** If `ns` contains the old name, the second substitution finds nothing after the first one. */
  lemma SecondFindsNothing(from: string, to: string, ns: string, ns': string, content: string, i: nat)
    requires from != "" && |from| == |to| && from != to && ns != "" && |ns| == |ns'|
    requires Unbordered(from) && Apart(from, to) && Apart(to, from) && Occurs(ns, from)
    requires ChangesAt(content, Replacement(from, to), Replacement(ns, ns'), i)
    ensures InOccurrence(content, from, i)
  {
    var m := ReplaceAll(content, from, to);
    ServeTwo(content, Replacement(from, to), Replacement(ns, ns'));
    ChangesOnlyOccurrences(content, from, to, i);
    var q :| 0 <= q <= |ns| && At(ns, q, from);
    hide At, Unbordered, Apart, ReplaceAll, Serve;
    forall k ensures !At(m, k, ns) {
      NoneLeft(content, from, to, k + q);
      Within(m, k, ns, q, from);
    }
    NoOccurrence(m, ns, ns');
  }

  /** For every content, the two substitutions change it only inside occurrences of what they replace, exactly when the
  second text contains the old name, or no overlap of it with the new name does harm. */
  lemma OnlyOccurrencesIff(from: string, to: string, ns: string, ns': string)
    requires from != "" && |from| == |to| && |ns| == |ns'| && '/' !in from && '/' !in to && '/' in ns
    requires Unbordered(from) && Apart(from, to) && Apart(to, from)
    ensures OnlyOccurrences(Replacement(from, to), Replacement(ns, ns'))
        <==> Occurs(ns, from) || Harmless(from, to, ns, ns')
  {
    var first, second := Replacement(from, to), Replacement(ns, ns');
    hide ChangesAt, Unbordered, Apart, Overlaps;
    if Harmless(from, to, ns, ns') {
      forall content, i | ChangesAt(content, first, second, i)
        ensures InOccurrence(content, from, i) || InOccurrence(content, ns, i)
      {
        ServesOnlyOccurrences(from, to, ns, ns', content, i);
      }
    } else if Occurs(ns, from) {
      forall content, i | ChangesAt(content, first, second, i) ensures InOccurrence(content, from, i) {
        SecondFindsNothing(from, to, ns, ns', content, i);
      }
    } else {
      var d, x :| Overlaps(to, ns, d) && !Overlaps(from, ns, d) && 0 <= x < |ns| && !(0 <= d + x < |to|)
                  && ns[x] != ns'[x];
      Harms(from, to, ns, ns', d, Place(d) + d + x);
    }
  }
}
