/** JSON strings as Go's encoder writes them, read back; and the scheme of an external URL
(enterprise/spdx/builder/spdx.go). */
module JsonText {
  import opened Strings
  import opened Reidentify

  // ---------------------------------------------------------------- strings

  function Digit(c: char): Option<nat> {
    if '0' <= c <= '9' then Some(c as nat - '0' as nat)
    else if 'a' <= c <= 'f' then Some(c as nat - 'a' as nat + 10)
    else None
  }

  /** The character whose code four digits give, if there is one. */
  function Coded(a: char, b: char, c: char, d: char): Option<char> {
    match (Digit(a), Digit(b), Digit(c), Digit(d))
    case (Some(i), Some(j), Some(k), Some(l)) =>
      var n := ((i * 16 + j) * 16 + k) * 16 + l;
      if n < 0xD800 || 0xE000 <= n < 0x10000 then Some(n as char) else None
    case _ => None
  }

  /** The character at the start of a JSON string, and how long it is written. */
  function FirstRead(t: string): Option<(char, nat)>
    requires t != ""
  {
    if t[0] < ' ' || t[0] == '"' then None
    else if t[0] != '\\' then Some((t[0], 1))
    else if |t| < 2 then None
    else if t[1] == '"' || t[1] == '\\' || t[1] == '/' then Some((t[1], 2))
    else if t[1] == 'n' then Some(('\n', 2))
    else if t[1] == 'r' then Some(('\r', 2))
    else if t[1] == 't' then Some(('\t', 2))
    else if t[1] == 'b' then Some(('\U{8}', 2))
    else if t[1] == 'f' then Some(('\U{C}', 2))
    else if t[1] != 'u' || |t| < 6 then None
    else
      match Coded(t[2], t[3], t[4], t[5])
      case Some(c) => Some((c, 6))
      case None => None
  }

  /** What is between the quotes of a JSON string, read. */
  function Read(t: string): Option<string>
    decreases |t|
  {
    if t == "" then Some("")
    else
      match FirstRead(t)
      case None => None
      case Some((c, n)) =>
        if n == 0 || n > |t| then None
        else
          match Read(t[n..])
          case None => None
          case Some(rest) => Some([c] + rest)
  }

  lemma CodedBack(c: char)
    requires c < ' ' || Special(c)
    ensures var u := Unicode(c); |u| == 6 && u[0] == '\\' && u[1] == 'u' && Coded(u[2], u[3], u[4], u[5]) == Some(c)
  {
    var n := c as int;
    DigitBack(n / 4096);
    DigitBack(n / 256 % 16);
    DigitBack(n / 16 % 16);
    DigitBack(n % 16);
    Digits(n);
    assert n < 0x10000 && !(0xD800 <= n < 0xE000);
    hide Digit, HexDigit;
  }

  lemma Digits(n: nat)
    ensures n == ((n / 4096 * 16 + n / 256 % 16) * 16 + n / 16 % 16) * 16 + n % 16
  {
    assert n / 16 / 16 == n / 256 && n / 256 / 16 == n / 4096;
  }

  lemma DigitBack(n: nat)
    requires n < 16
    ensures Digit(HexDigit(n)) == Some(n)
  {
  }

  lemma FirstReadBack(c: char, rest: string)
    ensures var t := Escaped(c) + rest; t != "" && FirstRead(t) == Some((c, |Escaped(c)|)) && t[|Escaped(c)|..] == rest
  {
    hide Coded, Unicode;
    if c < ' ' || Special(c) {
      CodedBack(c);
    }
  }

  /** What was encoded is read back, so that texts that differ are stored differently. */
  lemma {:induction false} ReadBack(s: string)
    ensures Read(Encoded(s)) == Some(s)
  {
    hide FirstRead, Escaped;
    if s != "" {
      ReadBack(s[1..]);
      FirstReadBack(s[0], Encoded(s[1..]));
      assert Encoded(s) == Escaped(s[0]) + Encoded(s[1..]);
      assert [s[0]] + s[1..] == s;
    }
  }

  // ---------------------------------------------------------------- the external URL

  const SEPARATOR := "://"

  predicate Occurs(s: string, j: int) { At(s, j, SEPARATOR) }

  predicate Nowhere(s: string) { forall j :: 0 <= j < |s| ==> !Occurs(s, j) }

  predicate Once(s: string) {
    exists f :: 0 <= f < |s| && Occurs(s, f) && forall j :: 0 <= j < |s| && Occurs(s, j) ==> j == f
  }

  /** What is counted once occurs once. */
  lemma {:induction false} CountIs(s: string)
    ensures Count(s, SEPARATOR) == 0 <==> Nowhere(s)
    ensures Count(s, SEPARATOR) == 1 <==> Once(s)
    decreases |s|
  {
    if |s| < 3 {
      assert forall j :: 0 <= j < |s| ==> !Occurs(s, j);
    } else {
      var n := if SEPARATOR <= s then 3 else 1;
      CountIs(s[n..]);
      Start(s);
      hide Occurs, Nowhere, Once;
      Later(s, n, s[n..]);
    }
  }

  lemma Start(s: string)
    requires |s| >= 3
    ensures var n := if SEPARATOR <= s then 3 else 1;
      && Count(s, SEPARATOR) == Count(s[n..], SEPARATOR) + (if n == 3 then 1 else 0)
      && (Occurs(s, 0) <==> n == 3) && forall j :: 0 < j < n ==> !Occurs(s, j)
  {
    if SEPARATOR <= s {
      assert s[0..3] == SEPARATOR && s[1] == '/' && s[2] == '/';
    }
  }

  lemma OccursLater(s: string, n: nat, j: nat)
    requires n <= |s|
    ensures Occurs(s[n..], j) <==> Occurs(s, n + j)
  {
    if n + j + 3 <= |s| {
      assert s[n..][j..j + 3] == s[n + j..n + j + 3];
    }
  }

  lemma Later(s: string, n: nat, t: string)
    requires 0 < n <= |s| && t == s[n..] && forall j :: 0 < j < n ==> !Occurs(s, j)
    ensures Nowhere(s) <==> !Occurs(s, 0) && Nowhere(t)
    ensures Once(s) <==> if Occurs(s, 0) then Nowhere(t) else Once(t)
  {
    hide Occurs;
    forall i | n <= i < |s| ensures Occurs(s, i) <==> Occurs(t, i - n) {
      OccursLater(s, n, i - n);
    }
    forall j | 0 <= j < |t| ensures Occurs(t, j) <==> Occurs(s, n + j) {
      OccursLater(s, n, j);
    }
    if Once(t) && !Occurs(s, 0) {
      var f :| 0 <= f < |t| && Occurs(t, f) && forall j :: 0 <= j < |t| && Occurs(t, j) ==> j == f;
      assert Occurs(s, n + f);
      assert forall i :: 0 <= i < |s| && Occurs(s, i) ==> i == n + f;
    }
    if Once(s) && !Occurs(s, 0) {
      var f :| 0 <= f < |s| && Occurs(s, f) && forall j :: 0 <= j < |s| && Occurs(s, j) ==> j == f;
      assert Occurs(t, f - n);
    }
  }

  /** An external URL is accepted exactly when `://` occurs in it once, and it parses to a scheme and a host. */
  lemma WellFormedIff(parse: string -> Option<Url>, externalURL: string)
    ensures WellFormed(parse, externalURL) <==>
      Once(externalURL) && parse(externalURL).Some?
      && parse(externalURL).value.scheme != "" && parse(externalURL).value.host != ""
  {
    CountIs(externalURL);
  }
}
