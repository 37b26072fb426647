/** The PHP string functions the modelled code relies on: `strtolower`,
    `ltrim` with one character, `explode('.', …)` and printing a
    non-negative integer with `%s`. */
module PhpStrings {

  /** `strtolower` on one character: ASCII letters only. */
  function LowerChar(c: char): char {
    if 'A' <= c <= 'Z' then (c as int + 32) as char else c
  }

  /** `strtolower($s)` */
  function ToLower(s: string): (r: string)
    ensures |r| == |s|
  {
    seq(|s|, i requires 0 <= i < |s| => LowerChar(s[i]))
  }

  /** `ltrim($s, $c)`: the longest run of `c` at the front is removed and
      nothing else. */
  function LTrim(s: string, c: char): (r: string)
    ensures |r| <= |s|
  {
    if |s| > 0 && s[0] == c then LTrim(s[1..], c) else s
  }

  /** What `ltrim` keeps is a suffix that does not start with `c`, and what
      it drops is all `c`. */
  lemma {:induction false} LTrimSpec(s: string, c: char)
    ensures var r := LTrim(s, c);
      && r == s[|s| - |r|..]
      && (r == [] || r[0] != c)
      && (forall i :: 0 <= i < |s| - |r| ==> s[i] == c)
  {
    if |s| > 0 && s[0] == c {
      LTrimSpec(s[1..], c);
    }
  }

  /** Lower-casing and trimming backslashes commute, so storing a rule under
      `ltrim(strtolower($name), '\\')` and looking it up under
      `strtolower(ltrim($name, '\\'))` use the same key. */
  lemma {:induction false} LowerTrimCommute(s: string)
    ensures ToLower(LTrim(s, '\\')) == LTrim(ToLower(s), '\\')
  {
    if |s| > 0 {
      assert ToLower(s)[1..] == ToLower(s[1..]);
      LowerTrimCommute(s[1..]);
    }
  }

  /** `explode('.', $s)`: the pieces between the dots, in order. */
  function Explode(s: string): (r: seq<string>)
    ensures |r| >= 1
    ensures forall i :: 0 <= i < |r| ==> '.' !in r[i]
    ensures |r| == 1 <==> '.' !in s
    ensures '.' !in s ==> r == [s]
  {
    if |s| == 0 then [""]
    else
      var rest := Explode(s[1..]);
      if s[0] == '.' then [""] + rest
      else
        assert '.' !in s ==> [s[0]] + rest[0] == s by {
          if '.' !in s {
            assert '.' !in s[1..];
          }
        }
        [[s[0]] + rest[0]] + rest[1..]
  }

  /** `implode('.', $parts)` */
  function Implode(parts: seq<string>): string
    requires |parts| >= 1
  {
    if |parts| == 1 then parts[0] else parts[0] + "." + Implode(parts[1..])
  }

  /** Exploding loses nothing: joining the pieces with dots gives the key back. */
  lemma {:induction false} ImplodeExplode(s: string)
    ensures Implode(Explode(s)) == s
  {
    if |s| > 0 {
      var rest := Explode(s[1..]);
      ImplodeExplode(s[1..]);
      if s[0] == '.' {
        assert Explode(s) == [""] + rest;
        assert Explode(s)[1..] == rest;
      } else {
        var e := Explode(s);
        assert e == [[s[0]] + rest[0]] + rest[1..];
        if |rest| == 1 {
          assert e == [[s[0]] + rest[0]];
        } else {
          assert e[1..] == rest[1..];
          assert Implode(rest) == rest[0] + "." + Implode(rest[1..]);
        }
      }
    }
  }

  function DigitChar(d: nat): char
    requires d < 10
  {
    ('0' as int + d) as char
  }

  predicate IsDigits(s: string) {
    forall i :: 0 <= i < |s| ==> '0' <= s[i] <= '9'
  }

  /** `sprintf('%s', $n)` for a non-negative integer: its decimal digits. */
  function NatToString(n: nat): (r: string)
    ensures |r| >= 1 && IsDigits(r)
  {
    if n < 10 then [DigitChar(n)] else NatToString(n / 10) + [DigitChar(n % 10)]
  }

  /** `(string)$i` for any integer. */
  function IntToString(i: int): (r: string)
    ensures |r| >= 1
  {
    if i < 0 then "-" + NatToString(-i) else NatToString(i)
  }

  /** The value of a string of decimal digits. */
  function ParseDigits(s: string): nat
    requires IsDigits(s)
  {
    if |s| == 0 then 0 else ParseDigits(s[..|s| - 1]) * 10 + (s[|s| - 1] as int - '0' as int)
  }

  /** Reading the printed digits back gives the number. */
  lemma {:induction false} ParseNatToString(n: nat)
    ensures ParseDigits(NatToString(n)) == n
  {
    if n >= 10 {
      var s := NatToString(n);
      assert s[..|s| - 1] == NatToString(n / 10);
      ParseNatToString(n / 10);
    }
  }

  /** Different numbers print differently. */
  lemma NatToStringInjective(a: nat, b: nat)
    ensures NatToString(a) == NatToString(b) ==> a == b
  {
    ParseNatToString(a);
    ParseNatToString(b);
  }
}
