/**
 Positional notation in base 10 and 16: printing, the value of a digit run, and
 the saturating decimal parser of TaskHelper/LinuxMain.cpp.
 */
module Digits {
  import opened Common

  predicate IsBase(base: nat) { base == 10 || base == 16 }

  predicate IsDigit(c: char, base: nat)
  {
    || '0' <= c <= '9'
    || (base == 16 && ('A' <= c <= 'F' || 'a' <= c <= 'f'))
  }

  lemma DigitsExact(c: char)
    ensures IsDigit(c, 10) <==> c in "0123456789"
    ensures IsDigit(c, 16) <==> c in "0123456789" || c in "ABCDEF" || c in "abcdef"
  {
    assert "0123456789" == ['0', '1', '2', '3', '4', '5', '6', '7', '8', '9'];
    assert "ABCDEF" == ['A', 'B', 'C', 'D', 'E', 'F'] && "abcdef" == ['a', 'b', 'c', 'd', 'e', 'f'];
  }

  function DigitValue(c: char): nat
    requires IsDigit(c, 16)
  {
    if c <= '9' then c as nat - '0' as nat
    else if c <= 'F' then c as nat - 'A' as nat + 10
    else c as nat - 'a' as nat + 10
  }

  function DigitChar(d: nat): (c: char)
    requires d < 16
    ensures IsDigit(c, 16) && DigitValue(c) == d && (d < 10 ==> IsDigit(c, 10))
  {
    "0123456789ABCDEF"[d]
  }

  predicate AllDigits(s: string, base: nat)
  {
    forall i :: 0 <= i < |s| ==> IsDigit(s[i], base)
  }

  /** The number a digit run denotes, without any width. */
  function Value(s: string, base: nat): nat
    requires IsBase(base) && AllDigits(s, base)
  {
    if s == [] then 0 else Value(s[..|s| - 1], base) * base + DigitValue(s[|s| - 1])
  }

  /** Digits of `n`, most significant first, without leading zeros (%lu, %llu, %X). */
  function Print(n: nat, base: nat): (s: string)
    requires IsBase(base)
    ensures s != [] && AllDigits(s, base)
    decreases n
  {
    if n < base then [DigitChar(n)] else Print(n / base, base) + [DigitChar(n % base)]
  }

  lemma {:induction false} PrintValue(n: nat, base: nat)
    requires IsBase(base)
    ensures Value(Print(n, base), base) == n
  {
    if n >= base {
      PrintValue(n / base, base);
      assert Print(n, base)[..|Print(n, base)| - 1] == Print(n / base, base);
      if base == 10 { assert n == n / 10 * 10 + n % 10; } else { assert n == n / 16 * 16 + n % 16; }
    }
  }

  function Zeros(k: nat): (s: string)
    ensures |s| == k && forall i :: 0 <= i < k ==> s[i] == '0'
  {
    seq(k, _ => '0')
  }

  /** Leading zeros do not change the value. */
  lemma {:induction false} PaddedValue(k: nat, s: string, base: nat)
    requires IsBase(base) && AllDigits(s, base)
    ensures AllDigits(Zeros(k) + s, base) && Value(Zeros(k) + s, base) == Value(s, base)
  {
    var t := Zeros(k) + s;
    if |t| > 0 {
      if s == [] {
        assert t[..|t| - 1] == Zeros(k - 1) + [];
        PaddedValue(k - 1, [], base);
      } else {
        assert t[..|t| - 1] == Zeros(k) + s[..|s| - 1];
        PaddedValue(k, s[..|s| - 1], base);
      }
    }
  }

  function Pow(base: nat, k: nat): nat { if k == 0 then 1 else Pow(base, k - 1) * base }

  lemma {:induction false} PrintLength(n: nat, base: nat, k: nat)
    requires IsBase(base) && k > 0 && n < Pow(base, k)
    ensures |Print(n, base)| <= k
  {
    if n >= base {
      assert k > 1;
      assert n / base < Pow(base, k - 1) by {
        if base == 10 { assert Pow(10, k) == Pow(10, k - 1) * 10; } else { assert Pow(16, k) == Pow(16, k - 1) * 16; }
      }
      PrintLength(n / base, base, k - 1);
    }
  }

  /** Each further digit counts as much as it says, in either case of a letter. */
  lemma ValueExact(s: string, c: char, base: nat)
    requires IsBase(base) && AllDigits(s, base) && IsDigit(c, base)
    ensures AllDigits(s + [c], base) && Value([], base) == 0
    ensures Value(s + [c], base) == Value(s, base) * base +
            (if c <= '9' then c as int - 48 else if c <= 'F' then c as int - 55 else c as int - 87)
  {
    assert (s + [c])[..|s|] == s;
  }

  /** A longer run of digits denotes at least as much. */
  lemma {:induction false} PrefixValue(s: string, k: nat, base: nat)
    requires IsBase(base) && AllDigits(s, base) && k <= |s|
    ensures Value(s[..k], base) <= Value(s, base)
  {
    if k == |s| {
      assert s[..k] == s;
    } else {
      var t := s[..|s| - 1];
      assert t[..k] == s[..k];
      PrefixValue(t, k, base);
      assert Value(t, base) <= Value(t, base) * base;
    }
  }

  // ----- digit runs -----

  predicate IsBlank(c: char) { c == ' ' || c == '\t' }

  function SkipBlanks(s: string): (r: string)
    ensures |r| <= |s| && (r != [] ==> !IsBlank(r[0]))
  {
    if s != [] && IsBlank(s[0]) then SkipBlanks(s[1..]) else s
  }

  /** Length of the longest run of digits `s` starts with. */
  function RunLength(s: string, base: nat): (k: nat)
    ensures k <= |s| && AllDigits(s[..k], base) && (k < |s| ==> !IsDigit(s[k], base))
  {
    if s != [] && IsDigit(s[0], base) then 1 + RunLength(s[1..], base) else 0
  }

  predicate EndsRun(rest: string, base: nat) { rest == [] || !IsDigit(rest[0], base) }

  lemma {:induction false} RunIs(ds: string, rest: string, base: nat)
    requires AllDigits(ds, base) && EndsRun(rest, base)
    ensures RunLength(ds + rest, base) == |ds| && (ds + rest)[..|ds|] == ds && (ds + rest)[|ds|..] == rest
  {
    if ds == [] {
      assert ds + rest == rest;
    } else {
      assert (ds + rest)[1..] == ds[1..] + rest;
      RunIs(ds[1..], rest, base);
    }
  }

  // ----- ParseUInt -----

  const UINT64_MAX: nat := TWO64 - 1

  /** The number in `text`, clamped to 64 bits; `fallback` if there is no digit. */
  function UIntOf(text: string, fallback: nat): nat
  {
    var t := SkipBlanks(text);
    var k := RunLength(t, 10);
    if k == 0 then fallback
    else if Value(t[..k], 10) > UINT64_MAX then UINT64_MAX
    else Value(t[..k], 10)
  }

  /** Lines 442-466. `None` is the null pointer; every intermediate value stays within 64 bits. */
  method ParseUInt(text: Option<string>, fallback: nat) returns (r: nat)
    ensures r == if text.None? then fallback else UIntOf(text.value, fallback)
  {
    if text.None? { return fallback; }
    var s := text.value;
    var p := 0;
    while p < |s| && IsBlank(s[p])
      invariant p <= |s| && SkipBlanks(s[p..]) == SkipBlanks(s)
    {
      p := p + 1;
    }
    ghost var t := SkipBlanks(s);
    assert s[p..] == t;
    if p == |s| || s[p] < '0' || s[p] > '9' { return fallback; }
    ghost var run := t[..RunLength(t, 10)];
    ghost var k: nat := 0;
    var value: nat := 0;
    while p < |s| && '0' <= s[p] <= '9'
      invariant k <= |run| && p <= |s| && s[p..] == t[k..] && k + |s[p..]| == |t|
      invariant value <= UINT64_MAX && value == Value(run[..k], 10)
    {
      InRun(t, k);
      var digit := DigitValue(s[p]);
      OneDigit(run, k);
      if value > (UINT64_MAX - digit) / 10 {
        Saturates(run, k);
        return UINT64_MAX;
      }
      value := value * 10 + digit;
      assert s[p + 1..] == s[p..][1..] && t[k + 1..] == t[k..][1..];
      p, k := p + 1, k + 1;
    }
    InRun(t, k);
    assert run[..k] == run;
    return value;
  }

  /** Inside the text, position `k` belongs to the run exactly when it holds a digit. */
  lemma InRun(t: string, k: nat)
    requires k <= RunLength(t, 10)
    ensures k < RunLength(t, 10) <==> k < |t| && IsDigit(t[k], 10)
    ensures k < RunLength(t, 10) ==> t[..RunLength(t, 10)][k] == t[k]
  {
    var n := RunLength(t, 10);
    if k < n {
      assert t[..n][k] == t[k];
      assert IsDigit(t[..n][k], 10);
    } else {
      assert k == n;
    }
  }

  /** One more digit of a run. */
  lemma OneDigit(run: string, k: nat)
    requires AllDigits(run, 10) && k < |run|
    ensures AllDigits(run[..k], 10) && AllDigits(run[..k + 1], 10)
    ensures Value(run[..k + 1], 10) == Value(run[..k], 10) * 10 + DigitValue(run[k])
  {
    assert run[..k + 1][..k] == run[..k];
  }

  /** The test on line 459 fires only in runs that denote more than 64 bits hold. */
  lemma Saturates(run: string, k: nat)
    requires AllDigits(run, 10) && k < |run|
    requires Value(run[..k], 10) > (UINT64_MAX - DigitValue(run[k])) / 10
    ensures Value(run, 10) > UINT64_MAX
  {
    OneDigit(run, k);
    PrefixValue(run, k + 1, 10);
  }

  /** After blanks and tabs a digit run is read, clamped to 2^64 - 1; without one the fallback is the answer. */
  lemma UIntExact(blanks: string, ds: string, rest: string, fallback: nat)
    requires (forall i :: 0 <= i < |blanks| ==> blanks[i] == ' ' || blanks[i] == '\t') && AllDigits(ds, 10) && EndsRun(rest, 10)
    requires ds == [] && rest != [] ==> rest[0] != ' ' && rest[0] != '\t'
    ensures UIntOf(blanks + (ds + rest), fallback) ==
            if ds == [] then fallback
            else if Value(ds, 10) > 0xFFFF_FFFF_FFFF_FFFF then 0xFFFF_FFFF_FFFF_FFFF else Value(ds, 10)
  {
    assert ds != [] ==> IsDigit((ds + rest)[0], 10);
    BlanksGone(blanks, ds + rest);
    RunIs(ds, rest, 10);
  }

  lemma {:induction false} BlanksGone(blanks: string, s: string)
    requires forall i :: 0 <= i < |blanks| ==> blanks[i] == ' ' || blanks[i] == '\t'
    ensures SkipBlanks(blanks + s) == SkipBlanks(s)
  {
    if blanks == [] {
      assert blanks + s == s;
    } else {
      assert (blanks + s)[1..] == blanks[1..] + s;
      BlanksGone(blanks[1..], s);
    }
  }

  /** Parsing undoes printing, whatever follows the number. */
  lemma ParseUndoesPrint(n: nat, rest: string, fallback: nat)
    requires n <= UINT64_MAX && EndsRun(rest, 10)
    ensures UIntOf(Print(n, 10) + rest, fallback) == n
  {
    var s := Print(n, 10) + rest;
    assert IsDigit(s[0], 10) && SkipBlanks(s) == s;
    RunIs(Print(n, 10), rest, 10);
    PrintValue(n, 10);
  }
}
