/** The handful of Go `strings` functions the factory's parsers are built from, with the facts about
concatenation that make them invertible. */
module Strings {
  datatype Option<+T> = None | Some(value: T)

  predicate HasSuffix(s: string, suffix: string) {
    |suffix| <= |s| && s[|s| - |suffix|..] == suffix
  }

  function CutPrefix(s: string, prefix: string): Option<string> {
    if prefix <= s then Some(s[|prefix|..]) else None
  }

  function CutSuffix(s: string, suffix: string): Option<string> {
    if HasSuffix(s, suffix) then Some(s[..|s| - |suffix|]) else None
  }

  predicate At(s: string, i: int, sep: string) {
    0 <= i && i + |sep| <= |s| && s[i..i + |sep|] == sep
  }

  /** The first position of `sep` in `s`, or -1. */
  function IndexOf(s: string, sep: string): (i: int)
    ensures -1 <= i <= |s|
    ensures i >= 0 ==> At(s, i, sep)
    ensures forall j :: At(s, j, sep) ==> 0 <= i <= j
  {
    if |s| < |sep| then -1
    else if sep <= s then 0
    else
      assert forall j :: At(s, j, sep) ==> j > 0 && At(s[1..], j - 1, sep) by {
        forall j | At(s, j, sep) ensures j > 0 && At(s[1..], j - 1, sep) {
          assert s[1..][j - 1..j - 1 + |sep|] == s[j..j + |sep|];
        }
      }
      var r := IndexOf(s[1..], sep);
      assert r >= 0 ==> s[1..][r..r + |sep|] == s[r + 1..r + 1 + |sep|];
      if r < 0 then -1 else r + 1
  }

  /** `strings.Cut`: the text before and after the first separator. */
  function Cut(s: string, sep: string): Option<(string, string)> {
    var i := IndexOf(s, sep);
    if i < 0 then None else Some((s[..i], s[i + |sep|..]))
  }

  /** A SHA-256 digest in hexadecimal. */
  predicate IsDigest(s: string) { |s| == 64 && forall c :: c in s ==> '0' <= c <= '9' || 'a' <= c <= 'f' }

  predicate NoDash(s: string) { '-' !in s }

  lemma CutSuffixConcat(a: string, b: string)
    ensures CutSuffix(a + b, b) == Some(a)
  {
    assert (a + b)[|a|..] == b;
    assert (a + b)[..|a|] == a;
  }

  lemma CutPrefixConcat(a: string, b: string)
    ensures CutPrefix(a + b, a) == Some(b)
  {
    assert (a + b)[|a|..] == b;
  }

  lemma CutSuffixJoins(s: string, suffix: string)
    requires HasSuffix(s, suffix)
    ensures s == CutSuffix(s, suffix).value + suffix
  {
  }

  /** A character `k` places before the end decides that a suffix does not match. */
  lemma DifferentEnding(s: string, suffix: string, k: nat)
    requires k < |s| && k < |suffix| && s[|s| - 1 - k] != suffix[|suffix| - 1 - k]
    ensures CutSuffix(s, suffix) == None
  {
    if |suffix| <= |s| {
      assert s[|s| - |suffix|..][|suffix| - 1 - k] == s[|s| - 1 - k];
    }
  }

  /** A dash-free field followed by a dash is read back by cutting at the first dash. */
  lemma CutAtDash(field: string, rest: string)
    requires NoDash(field)
    ensures Cut(field + "-" + rest, "-") == Some((field, rest))
  {
    var s := field + "-" + rest;
    assert At(s, |field|, "-");
    var i := IndexOf(s, "-");
    assert s[i] == "-"[0];
    assert s[..i] == field && s[i + 1..] == rest;
  }

  lemma CutDashJoins(s: string)
    requires Cut(s, "-").Some?
    ensures var (field, rest) := Cut(s, "-").value; NoDash(field) && s == field + "-" + rest
  {
    var i := IndexOf(s, "-");
    assert forall j :: 0 <= j < i ==> (s[j] == '-' ==> At(s, j, "-"));
    assert s == s[..i] + s[i..i + 1] + s[i + 1..];
  }

  /** The first dash-separated field of a string is unique. */
  lemma FirstField(a: string, x: string, b: string, y: string)
    requires NoDash(a) && NoDash(b) && a + "-" + x == b + "-" + y
    ensures a == b && x == y
  {
    CutAtDash(a, x);
    CutAtDash(b, y);
  }

  /** What follows the last slash, or everything if there is none. */
  function AfterLastSlash(s: string): (r: string)
    ensures '/' !in r
  {
    if s == "" then "" else if s[|s| - 1] == '/' then "" else AfterLastSlash(s[..|s| - 1]) + [s[|s| - 1]]
  }

  /** What is appended behind the last slash stays. */
  lemma {:induction false} AfterLastSlashAppend(s: string, tail: string)
    requires '/' !in tail
    ensures AfterLastSlash(s + tail) == AfterLastSlash(s) + tail
  {
    if tail == "" {
      assert s + tail == s;
    } else {
      var t := s + tail;
      assert t[..|t| - 1] == s + tail[..|tail| - 1] && t[|t| - 1] == tail[|tail| - 1];
      AfterLastSlashAppend(s, tail[..|tail| - 1]);
    }
  }

  /** The text after the last slash, or all of it. */
  predicate IsLastElement(r: string, ref: string) {
    && '/' !in r && |r| <= |ref| && ref[|ref| - |r|..] == r
    && (|r| < |ref| ==> ref[|ref| - |r| - 1] == '/')
  }

  lemma {:induction false} LastElement(ref: string)
    ensures IsLastElement(AfterLastSlash(ref), ref)
  {
    if '/' in ref {
      var k := LastSlash(ref);
      AfterLastSlashAppend(ref[..k + 1], ref[k + 1..]);
      assert ref[..k + 1] + ref[k + 1..] == ref && ref[..k + 1][k] == '/';
    } else {
      AfterLastSlashAppend("", ref);
      assert "" + ref == ref;
    }
  }

  lemma {:induction false} LastSlash(s: string) returns (k: nat)
    requires '/' in s
    ensures k < |s| && s[k] == '/' && '/' !in s[k + 1..]
  {
    k := |s| - 1;
    if s[k] != '/' {
      k := LastSlash(s[..k]);
      assert s[k + 1..] == s[..|s| - 1][k + 1..] + [s[|s| - 1]];
    }
  }
}
