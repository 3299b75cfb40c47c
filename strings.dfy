/**
 * The JavaScript string operations the source relies on, over
 * `string` = `seq<char>`: `toLowerCase`, `includes`, `startsWith`,
 * `indexOf`, `replace` with a string pattern, `split` on one character,
 * `join`, the emptiness test after `trim`, and decimal digits for
 * `parseInt(_, 10)` and number-to-string conversion.
 */
module Strings {
  import opened Wrappers

  /** `toLowerCase` on one character; only ASCII letters are folded. */
  function LowerChar(c: char): char
  {
    if 'A' <= c <= 'Z' then (c as int + 32) as char else c
  }

  /** `s.toLowerCase()`, ASCII letters only. */
  function Lower(s: string): string
  {
    seq(|s|, i requires 0 <= i < |s| => LowerChar(s[i]))
  }

  /** `s.startsWith(p)`. */
  predicate StartsWith(s: string, p: string)
  {
    |p| <= |s| && s[..|p|] == p
  }

  /** `s` starts with `o + p` when it starts with `o` and `p` follows. */
  lemma StartsWithConcat(s: string, o: string, p: string)
    requires StartsWith(s, o) && StartsWith(s[|o|..], p)
    ensures StartsWith(s, o + p)
  {
    assert s[..|o| + |p|] == s[..|o|] + s[|o|..][..|p|];
  }

  /** `s.includes(p)`: `p` occurs in `s` at some position. */
  predicate Contains(s: string, p: string)
    decreases |s|
  {
    StartsWith(s, p) || (s != [] && Contains(s[1..], p))
  }

  /** An occurrence of `p` at position `i` makes `s` contain `p`. */
  lemma {:induction false} ContainsAt(s: string, i: nat, p: string)
    requires i <= |s| && StartsWith(s[i..], p)
    ensures Contains(s, p)
    decreases i
  {
    if i > 0 {
      assert s[1..][i - 1..] == s[i..];
      ContainsAt(s[1..], i - 1, p);
    }
  }

  /** A position where `p` occurs, for a string that contains `p`. */
  lemma {:induction false} ContainsWitness(s: string, p: string) returns (i: nat)
    requires Contains(s, p)
    ensures i <= |s| && StartsWith(s[i..], p)
    decreases |s|
  {
    if StartsWith(s, p) {
      i := 0;
    } else {
      var k := ContainsWitness(s[1..], p);
      assert s[1..][k..] == s[k + 1..];
      i := k + 1;
    }
  }

  /** `s.indexOf(p)`, with -1 as `None`: the first position where `p` occurs. */
  function IndexOf(s: string, p: string): (r: Option<nat>)
    ensures r.Some? ==> r.value + |p| <= |s| && StartsWith(s[r.value..], p)
    ensures r.Some? ==> forall j :: 0 <= j < r.value ==> !StartsWith(s[j..], p)
    ensures r.None? <==> !Contains(s, p)
    decreases |s|
  {
    if StartsWith(s, p) then Some(0)
    else if s == [] then None
    else match IndexOf(s[1..], p)
      case None => None
      case Some(k) =>
        assert s[1..][k..] == s[k + 1..];
        assert forall j :: 1 <= j <= k ==> s[1..][j - 1..] == s[j..];
        Some(k + 1)
  }

  /**
   * `s.replace(p, '')` with a string pattern: the first occurrence of `p`
   * is removed; without one, `s` is returned unchanged.
   */
  function RemoveFirst(s: string, p: string): string
  {
    match IndexOf(s, p)
    case None => s
    case Some(k) => s[..k] + s[k + |p|..]
  }

  /** On a string that starts with `p`, the removal strips that prefix. */
  lemma RemoveFirstPrefix(s: string, p: string)
    requires StartsWith(s, p)
    ensures RemoveFirst(s, p) == s[|p|..]
  {
  }

  /** `s.split(c)` for a one-character separator. */
  function Split(s: string, c: char): (r: seq<string>)
    ensures |r| >= 1
    ensures forall k :: 0 <= k < |r| ==> c !in r[k]
    decreases |s|
  {
    match IndexOf(s, [c])
    case None =>
      assert c !in s by {
        if c in s {
          var i :| 0 <= i < |s| && s[i] == c;
          assert s[i..][..1] == [c];
          ContainsAt(s, i, [c]);
        }
      }
      [s]
    case Some(k) =>
      assert forall i :: 0 <= i < k ==> s[i..][..1] != [c];
      assert forall i :: 0 <= i < k ==> s[..k][i] == s[i] && s[i..][..1] == [s[i]];
      [s[..k]] + Split(s[k + 1..], c)
  }

  /** `parts[k]`, which is `undefined` past the end. */
  function Element(parts: seq<string>, k: nat): (r: Option<string>)
    ensures r.Some? <==> k < |parts|
  {
    if k < |parts| then Some(parts[k]) else None
  }

  /** `parts.join(sep)`. */
  function Join(parts: seq<string>, sep: string): string
  {
    if parts == [] then ""
    else if |parts| == 1 then parts[0]
    else parts[0] + sep + Join(parts[1..], sep)
  }

  /** Text containing `p` still contains it after anything is put in front. */
  lemma ContainsAfterPrefix(a: string, b: string, p: string)
    requires Contains(b, p)
    ensures Contains(a + b, p)
  {
    var i := ContainsWitness(b, p);
    assert (a + b)[|a| + i..] == b[i..];
    ContainsAt(a + b, |a| + i, p);
  }

  /** Every part occurs in the joined text. */
  lemma {:induction false} JoinContains(parts: seq<string>, sep: string, k: nat)
    requires k < |parts|
    ensures Contains(Join(parts, sep), parts[k])
  {
    var j := Join(parts, sep);
    if k == 0 {
      if |parts| > 1 {
        assert j == parts[0] + (sep + Join(parts[1..], sep));
      }
      assert j[..|parts[0]|] == parts[0];
      ContainsAt(j, 0, parts[0]);
    } else {
      JoinContains(parts[1..], sep, k - 1);
      assert j == (parts[0] + sep) + Join(parts[1..], sep);
      ContainsAfterPrefix(parts[0] + sep, Join(parts[1..], sep), parts[k]);
    }
  }

  /** The characters that JavaScript's `trim` removes, restricted to ASCII. */
  predicate IsWhitespace(c: char)
  {
    c == ' ' || c == '\t' || c == '\n' || c == '\r' || c == '\U{B}' || c == '\U{C}'
  }

  /** `!s.trim()`: the string is empty once surrounding whitespace is removed. */
  predicate IsBlank(s: string)
  {
    forall i :: 0 <= i < |s| ==> IsWhitespace(s[i])
  }

  /** Matches the regular-expression class `\d`. */
  predicate IsDigit(c: char)
  {
    '0' <= c <= '9'
  }

  predicate AllDigits(s: string)
  {
    forall i :: 0 <= i < |s| ==> IsDigit(s[i])
  }

  /** The longest prefix of `s` made of digits: what a greedy `\d+` consumes. */
  function LeadingDigits(s: string): (r: string)
    ensures |r| <= |s| && r == s[..|r|] && AllDigits(r)
    ensures |r| < |s| ==> !IsDigit(s[|r|])
    decreases |s|
  {
    if s != [] && IsDigit(s[0]) then [s[0]] + LeadingDigits(s[1..]) else []
  }

  /** `parseInt(ds, 10)` for a string of decimal digits. */
  function ParseDigits(ds: string): nat
    requires AllDigits(ds)
    decreases |ds|
  {
    if ds == [] then 0
    else ParseDigits(ds[..|ds| - 1]) * 10 + (ds[|ds| - 1] as int - '0' as int)
  }

  /** The decimal text of a non-negative integer, as a template literal prints it. */
  function NatToString(n: nat): (r: string)
    ensures r != [] && AllDigits(r)
  {
    if n < 10 then [('0' as int + n) as char]
    else NatToString(n / 10) + [('0' as int + n % 10) as char]
  }

  /** Parsing the printed decimal text gives the number back. */
  lemma {:induction false} ParseNatToString(n: nat)
    ensures ParseDigits(NatToString(n)) == n
  {
    if n >= 10 {
      var s := NatToString(n);
      assert s[..|s| - 1] == NatToString(n / 10);
      ParseNatToString(n / 10);
    }
  }
}
