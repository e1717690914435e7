/**
  The part of Python's `str` behaviour that the commands rely on: whitespace
  and `strip()`, `startswith`, `find`, `split` with a limit, `replace`,
  `lower()`, `title()`, `isdigit()`, `str()` of an integer and `int()` of
  decimal text. Letters, case and digits are restricted to ASCII.
 */
module PyStr {
  import opened Wrappers

  // ---------------------------------------------------------------------
  // Whitespace and strip()
  // ---------------------------------------------------------------------

  /** `c.isspace()`: the characters Python treats as whitespace. */
  predicate IsSpace(c: char) {
    || c == ' '
    || ('\t' <= c <= '\r')
    || ('\U{1C}' <= c <= '\U{1F}')
    || c == '\U{85}' || c == '\U{A0}' || c == '\U{1680}'
    || ('\U{2000}' <= c <= '\U{200A}')
    || c == '\U{2028}' || c == '\U{2029}' || c == '\U{202F}'
    || c == '\U{205F}' || c == '\U{3000}'
  }

  /** `s.lstrip()`. */
  function LStrip(s: string): (r: string)
    ensures |r| <= |s|
    ensures r == [] || !IsSpace(r[0])
  {
    if s != [] && IsSpace(s[0]) then LStrip(s[1..]) else s
  }

  /** `lstrip()` keeps a suffix of `s` and drops only whitespace. */
  lemma {:induction false} LStripSpec(s: string)
    ensures LStrip(s) == s[|s| - |LStrip(s)|..]
    ensures forall i :: 0 <= i < |s| - |LStrip(s)| ==> IsSpace(s[i])
  {
    if s != [] && IsSpace(s[0]) {
      LStripSpec(s[1..]);
    }
  }

  /** `s.rstrip()`. */
  function RStrip(s: string): (r: string)
    ensures |r| <= |s|
    ensures r == [] || !IsSpace(r[|r| - 1])
  {
    if s != [] && IsSpace(s[|s| - 1]) then RStrip(s[..|s| - 1]) else s
  }

  /** `rstrip()` keeps a prefix of `s` and drops only whitespace. */
  lemma {:induction false} RStripSpec(s: string)
    ensures RStrip(s) == s[..|RStrip(s)|]
    ensures forall i :: |RStrip(s)| <= i < |s| ==> IsSpace(s[i])
  {
    if s != [] && IsSpace(s[|s| - 1]) {
      RStripSpec(s[..|s| - 1]);
    }
  }

  /** `s.strip()`. */
  function Strip(s: string): (r: string)
    ensures |r| <= |s|
    ensures r == [] || (!IsSpace(r[0]) && !IsSpace(r[|r| - 1]))
  {
    RStripSpec(LStrip(s));
    RStrip(LStrip(s))
  }

  /**
    What `strip()` keeps: a slice of `s` whose removed prefix and suffix are
    whitespace only.
   */
  lemma StripIsTrimmedSlice(s: string)
    ensures var a := |s| - |LStrip(s)|;
      && a + |Strip(s)| <= |s|
      && Strip(s) == s[a..a + |Strip(s)|]
      && (forall i :: 0 <= i < a ==> IsSpace(s[i]))
      && (forall i :: a + |Strip(s)| <= i < |s| ==> IsSpace(s[i]))
  {
    var l := LStrip(s);
    var a := |s| - |l|;
    var r := RStrip(l);
    LStripSpec(s);
    RStripSpec(l);
    assert l == s[a..];
    assert r == l[..|r|];
    forall i | a + |r| <= i < |s|
      ensures IsSpace(s[i])
    {
      assert s[i] == l[i - a];
    }
  }

  /** How much leading whitespace `strip()` removes. */
  function LeadingSpace(s: string): nat {
    |s| - |LStrip(s)|
  }

  /**
    `strip()` keeps any occurrence of a text that begins and ends with a
    non-whitespace character, shifted by the whitespace removed in front.
   */
  lemma StripKeepsText(s: string, w: string, m: nat)
    requires |w| > 0 && !IsSpace(w[0]) && !IsSpace(w[|w| - 1])
    requires OccursAt(s, w, m)
    ensures LeadingSpace(s) <= m && OccursAt(Strip(s), w, m - LeadingSpace(s))
  {
    StripIsTrimmedSlice(s);
    TrimmedSliceKeeps(s, Strip(s), LeadingSpace(s), w, m);
  }

  /** The same, for any slice `r == s[a..a + |r|]` trimmed of whitespace only. */
  lemma TrimmedSliceKeeps(s: string, r: string, a: nat, w: string, m: nat)
    requires |w| > 0 && !IsSpace(w[0]) && !IsSpace(w[|w| - 1])
    requires OccursAt(s, w, m)
    requires a + |r| <= |s| && r == s[a..a + |r|]
    requires forall i :: 0 <= i < a ==> IsSpace(s[i])
    requires forall i :: a + |r| <= i < |s| ==> IsSpace(s[i])
    ensures a <= m && OccursAt(r, w, m - a)
  {
    var last := m + |w| - 1;
    assert s[m] == w[0] && s[last] == w[|w| - 1];
    assert !IsSpace(s[m]) && !IsSpace(s[last]);
    assert a <= m && last < a + |r|;
    var d := m - a;
    SliceOfSlice(s, a, a + |r|, d, d + |w|);
    assert r[d..d + |w|] == s[a + d..a + d + |w|];
  }

  /** A slice of a slice is a slice of the original. */
  lemma SliceOfSlice(s: string, lo: nat, hi: nat, i: nat, j: nat)
    requires lo <= hi <= |s| && i <= j <= hi - lo
    ensures s[lo..hi][i..j] == s[lo + i..lo + j]
  {
    forall k | 0 <= k < j - i ensures s[lo..hi][i..j][k] == s[lo + i..lo + j][k] {
      assert s[lo..hi][i..j][k] == s[lo..hi][i + k];
    }
  }

  /** Text without whitespace at either end is left alone by `strip()`. */
  lemma StripTrimmed(s: string)
    requires s == [] || (!IsSpace(s[0]) && !IsSpace(s[|s| - 1]))
    ensures Strip(s) == s
  {
  }

  // ---------------------------------------------------------------------
  // startswith, find, split
  // ---------------------------------------------------------------------

  /** `s.startswith(p)`. */
  predicate StartsWith(s: string, p: string) {
    |p| <= |s| && s[..|p|] == p
  }

  /** `sep` occurs in `s` at index `k`. */
  predicate OccursAt(s: string, sep: string, k: nat) {
    k + |sep| <= |s| && s[k..k + |sep|] == sep
  }

  /** `s.find(sep, start)`: the first index at or after `start` where `sep` occurs. */
  function Find(s: string, sep: string, start: nat): (r: Option<nat>)
    decreases |s| - start
    ensures r.Some? ==> start <= r.value && OccursAt(s, sep, r.value)
  {
    if start + |sep| > |s| then None
    else if s[start..start + |sep|] == sep then Some(start)
    else Find(s, sep, start + 1)
  }

  /** `find` gives the first occurrence at or after `start`, and fails only when there is none. */
  lemma {:induction false} FindFirst(s: string, sep: string, start: nat)
    ensures Find(s, sep, start).Some? ==>
      forall k :: start <= k < Find(s, sep, start).value ==> !OccursAt(s, sep, k)
    ensures Find(s, sep, start).None? ==> forall k :: start <= k ==> !OccursAt(s, sep, k)
    decreases |s| - start
  {
    if start + |sep| <= |s| && s[start..start + |sep|] != sep {
      FindFirst(s, sep, start + 1);
    }
  }

  /** `sep.join(parts)`. */
  function Join(parts: seq<string>, sep: string): string {
    if parts == [] then ""
    else if |parts| == 1 then parts[0]
    else parts[0] + sep + Join(parts[1..], sep)
  }

  lemma OccursInSuffix(s: string, sep: string, start: nat, k: nat)
    requires start <= |s|
    ensures OccursAt(s[start..], sep, k) <==> OccursAt(s, sep, start + k)
  {
    if OccursAt(s, sep, start + k) {
      assert s[start..][k..k + |sep|] == s[start + k..start + k + |sep|];
    }
    if OccursAt(s[start..], sep, k) {
      assert s[start..][k..k + |sep|] == s[start + k..start + k + |sep|];
    }
  }

  /**
    The pieces of `s[start..]` that Python's `split(sep, maxsplit)` returns:
    the separator is searched for from the left and at most `maxsplit`
    splits are made, the rest being kept whole in the last piece.
   */
  function SplitFrom(s: string, sep: string, start: nat, maxsplit: nat): (parts: seq<string>)
    requires |sep| > 0 && start <= |s|
    decreases maxsplit
    ensures 1 <= |parts| <= maxsplit + 1
  {
    if maxsplit == 0 then [s[start..]]
    else match Find(s, sep, start)
      case None => [s[start..]]
      case Some(i) => [s[start..i]] + SplitFrom(s, sep, i + |sep|, maxsplit - 1)
  }

  /** Joining the pieces with the separator gives back the text. */
  lemma {:induction false} SplitFromJoin(s: string, sep: string, start: nat, maxsplit: nat)
    requires |sep| > 0 && start <= |s|
    ensures Join(SplitFrom(s, sep, start, maxsplit), sep) == s[start..]
    decreases maxsplit
  {
    if maxsplit > 0 {
      match Find(s, sep, start)
      case None =>
        assert SplitFrom(s, sep, start, maxsplit) == [s[start..]];
      case Some(i) =>
        assert OccursAt(s, sep, i);
        assert Join(SplitFrom(s, sep, i + |sep|, maxsplit - 1), sep) == s[i + |sep|..] by {
          SplitFromJoin(s, sep, i + |sep|, maxsplit - 1);
        }
        JoinStep(s, sep, start, maxsplit, i);
    } else {
      assert SplitFrom(s, sep, start, maxsplit) == [s[start..]];
    }
  }

  /** The step of `SplitFromJoin` at an occurrence `i`: the first piece, the separator, then the rest. */
  lemma JoinStep(s: string, sep: string, start: nat, maxsplit: nat, i: nat)
    requires |sep| > 0 && start <= |s| && maxsplit > 0 && Find(s, sep, start) == Some(i)
    requires Join(SplitFrom(s, sep, i + |sep|, maxsplit - 1), sep) == s[i + |sep|..]
    ensures Join(SplitFrom(s, sep, start, maxsplit), sep) == s[start..]
  {
    assert start <= i && OccursAt(s, sep, i);
    var rest := SplitFrom(s, sep, i + |sep|, maxsplit - 1);
    assert SplitFrom(s, sep, start, maxsplit) == [s[start..i]] + rest;
    JoinAround(s, sep, start, i, rest);
  }


  /** Joining the text before an occurrence at `i` to pieces that join to the text after it. */
  lemma JoinAround(s: string, sep: string, start: nat, i: nat, rest: seq<string>)
    requires start <= i && OccursAt(s, sep, i) && |rest| >= 1
    requires Join(rest, sep) == s[i + |sep|..]
    ensures Join([s[start..i]] + rest, sep) == s[start..]
  {
    JoinCons(s[start..i], rest, sep);
    SuffixCut(s, i, i + |sep|);
    SuffixCut(s, start, i);
    Assoc(s[start..i], sep, s[i + |sep|..]);
  }

  lemma Assoc<T>(x: seq<T>, y: seq<T>, z: seq<T>)
    ensures x + y + z == x + (y + z)
  {
  }

  /** A suffix of `s` is its slice up to `b` followed by the suffix from `b`. */
  lemma SuffixCut(s: string, a: nat, b: nat)
    requires a <= b <= |s|
    ensures s[a..] == s[a..b] + s[b..]
  {
    forall k | 0 <= k < |s| - a ensures s[a..][k] == (s[a..b] + s[b..])[k] {
      if k < b - a {
        assert (s[a..b] + s[b..])[k] == s[a..b][k];
      } else {
        assert (s[a..b] + s[b..])[k] == s[b..][k - (b - a)];
      }
    }
  }

  /** No piece holds `sep`, except the last when `maxsplit` splits were made. */
  ghost predicate PiecesFree(parts: seq<string>, sep: string, maxsplit: nat) {
    forall j, k ::
      0 <= j < |parts| && (j < |parts| - 1 || |parts| < maxsplit + 1) ==> !OccursAt(parts[j], sep, k)
  }

  /**
    No piece holds the separator, except the last one when all `maxsplit`
    splits were made (the rest is then kept whole).
   */
  lemma {:induction false} SplitFromPieces(s: string, sep: string, start: nat, maxsplit: nat)
    requires |sep| > 0 && start <= |s|
    ensures PiecesFree(SplitFrom(s, sep, start, maxsplit), sep, maxsplit)
    decreases maxsplit
  {
    if maxsplit > 0 {
      match Find(s, sep, start)
      case None =>
        FindNoneFree(s, sep, start);
      case Some(i) =>
        SplitFromPieces(s, sep, i + |sep|, maxsplit - 1);
        PiecesStep(s, sep, start, maxsplit, i);
    }
  }

  /** The step of `SplitFromPieces` at an occurrence `i`: a free first piece before the pieces of the rest. */
  lemma PiecesStep(s: string, sep: string, start: nat, maxsplit: nat, i: nat)
    requires |sep| > 0 && start <= |s| && maxsplit > 0 && Find(s, sep, start) == Some(i)
    requires PiecesFree(SplitFrom(s, sep, i + |sep|, maxsplit - 1), sep, maxsplit - 1)
    ensures PiecesFree(SplitFrom(s, sep, start, maxsplit), sep, maxsplit)
  {
    FindPrefixFree(s, sep, start, i);
    PiecesCons(s[start..i], SplitFrom(s, sep, i + |sep|, maxsplit - 1), sep, maxsplit);
  }

  /** A first piece free of the separator keeps the pieces of the rest free of it. */
  lemma PiecesCons(a: string, rest: seq<string>, sep: string, maxsplit: nat)
    requires maxsplit >= 1 && 1 <= |rest| <= maxsplit
    requires forall k: nat :: !OccursAt(a, sep, k)
    requires PiecesFree(rest, sep, maxsplit - 1)
    ensures PiecesFree([a] + rest, sep, maxsplit)
  {
    var parts := [a] + rest;
    forall j, k | 0 <= j < |parts| && (j < |parts| - 1 || |parts| < maxsplit + 1)
      ensures !OccursAt(parts[j], sep, k)
    {
      if j > 0 {
        assert parts[j] == rest[j - 1];
      }
    }
  }

  /** Where `find` fails from `start`, the separator occurs nowhere in `s[start..]`. */
  lemma FindNoneFree(s: string, sep: string, start: nat)
    requires start <= |s| && Find(s, sep, start).None?
    ensures forall k: nat :: !OccursAt(s[start..], sep, k)
  {
    FindFirst(s, sep, start);
    forall k: nat ensures !OccursAt(s[start..], sep, k) {
      OccursInSuffix(s, sep, start, k);
    }
  }

  /** The text before the first occurrence holds no occurrence. */
  lemma FindPrefixFree(s: string, sep: string, start: nat, i: nat)
    requires |sep| > 0 && start <= |s| && Find(s, sep, start) == Some(i)
    ensures forall k: nat :: !OccursAt(s[start..i], sep, k)
  {
    FindFirst(s, sep, start);
    forall k: nat ensures !OccursAt(s[start..i], sep, k) {
      if k + |sep| <= i - start {
        SliceOfSlice(s, start, i, k, k + |sep|);
        assert !OccursAt(s, sep, start + k);
      }
    }
  }

  /** Joining a first piece in front of at least one more. */
  lemma JoinCons(a: string, rest: seq<string>, sep: string)
    requires |rest| >= 1
    ensures Join([a] + rest, sep) == a + sep + Join(rest, sep)
    ensures forall j :: 1 <= j < |rest| + 1 ==> ([a] + rest)[j] == rest[j - 1]
  {
    assert ([a] + rest)[1..] == rest;
  }

  /** `s.split(sep, maxsplit)`. */
  function Split(s: string, sep: string, maxsplit: nat): (parts: seq<string>)
    requires |sep| > 0
    ensures 1 <= |parts| <= maxsplit + 1
  {
    SplitFrom(s, sep, 0, maxsplit)
  }

  /** `sep.join(s.split(sep, maxsplit)) == s`. */
  lemma SplitJoin(s: string, sep: string, maxsplit: nat)
    requires |sep| > 0
    ensures Join(Split(s, sep, maxsplit), sep) == s
  {
    SplitFromJoin(s, sep, 0, maxsplit);
  }

  /** `s.split(c)[0]`: the text before the first `c`, or all of `s` when there is none. */
  function Before(s: string, c: char): (r: string)
    ensures r <= s
    ensures c !in r
    ensures |r| < |s| ==> s[|r|] == c
  {
    if s == [] || s[0] == c then [] else [s[0]] + Before(s[1..], c)
  }

  /** Where `c` does not occur, `split(c)[0]` is the whole text. */
  lemma {:induction false} BeforeAbsent(s: string, c: char)
    requires c !in s
    ensures Before(s, c) == s
  {
    if s != [] {
      assert s[0] != c && c !in s[1..];
      BeforeAbsent(s[1..], c);
    }
  }

  /** `(s + c + rest).split(c)[0] == s` when `c` does not occur in `s`. */
  lemma {:induction false} BeforeJoined(s: string, c: char, rest: string)
    requires c !in s
    ensures Before(s + [c] + rest, c) == s
  {
    if s != [] {
      assert (s + [c] + rest)[1..] == s[1..] + [c] + rest;
      assert s[0] != c && c !in s[1..];
      BeforeJoined(s[1..], c, rest);
    } else {
      assert (s + [c] + rest)[0] == c;
    }
  }

  // ---------------------------------------------------------------------
  // replace, lower, title
  // ---------------------------------------------------------------------

  /** `s.replace(a, b)` for one-character `a` and `b`. */
  function ReplaceChar(s: string, a: char, b: char): (r: string)
    ensures |r| == |s|
    ensures forall i :: 0 <= i < |s| ==> r[i] == (if s[i] == a then b else s[i])
  {
    if s == [] then [] else [if s[0] == a then b else s[0]] + ReplaceChar(s[1..], a, b)
  }

  /** `s.replace(c, '')`: every `c` removed, every other character kept. */
  function RemoveChar(s: string, c: char): (r: string)
    ensures multiset(r) == multiset(s)[c := 0]
  {
    if s == [] then []
    else if s[0] == c then
      assert s == [s[0]] + s[1..];
      RemoveChar(s[1..], c)
    else
      assert s == [s[0]] + s[1..];
      [s[0]] + RemoveChar(s[1..], c)
  }

  predicate IsUpper(c: char) { 'A' <= c <= 'Z' }

  predicate IsLower(c: char) { 'a' <= c <= 'z' }

  /** A cased character in the sense of `str.title()`. */
  predicate IsLetter(c: char) { IsUpper(c) || IsLower(c) }

  function ToLower(c: char): (d: char)
    ensures IsLetter(d) == IsLetter(c) && !IsUpper(d)
  {
    if IsUpper(c) then (c as int + 32) as char else c
  }

  function ToUpper(c: char): (d: char)
    ensures IsLetter(d) == IsLetter(c) && !IsLower(d)
  {
    if IsLower(c) then (c as int - 32) as char else c
  }

  /** `s.lower()`. */
  function Lower(s: string): (r: string)
    ensures |r| == |s|
    ensures forall i :: 0 <= i < |s| ==> r[i] == ToLower(s[i])
  {
    if s == [] then [] else [ToLower(s[0])] + Lower(s[1..])
  }

  /** `title()` of `s`, where `afterLetter` tells whether the character before `s` was cased. */
  function TitleFrom(s: string, afterLetter: bool): (r: string)
    ensures |r| == |s|
  {
    if s == [] then []
    else
      var c := s[0];
      var d := if !IsLetter(c) then c else if afterLetter then ToLower(c) else ToUpper(c);
      [d] + TitleFrom(s[1..], IsLetter(c))
  }

  /** `s.title()`. */
  function Title(s: string): string {
    TitleFrom(s, false)
  }

  /** The character-by-character reading of `title()` given by Python's documentation. */
  function TitleCharAt(s: string, i: nat): char
    requires i < |s|
  {
    if !IsLetter(s[i]) then s[i]
    else if i > 0 && IsLetter(s[i - 1]) then ToLower(s[i])
    else ToUpper(s[i])
  }

  lemma {:induction false} TitleFromAt(s: string, afterLetter: bool, i: nat)
    requires i < |s|
    ensures TitleFrom(s, afterLetter)[i]
      == if !IsLetter(s[i]) then s[i]
         else if (if i == 0 then afterLetter else IsLetter(s[i - 1])) then ToLower(s[i])
         else ToUpper(s[i])
  {
    if i > 0 {
      TitleFromAt(s[1..], IsLetter(s[0]), i - 1);
      assert s[1..][i - 1] == s[i];
      if i > 1 {
        assert s[1..][i - 2] == s[i - 1];
      }
    }
  }

  /**
    `title()` upper-cases a letter that starts a word and lower-cases every
    other letter; anything that is not a letter is kept and ends the word.
   */
  lemma TitleSpec(s: string)
    ensures |Title(s)| == |s|
    ensures forall i :: 0 <= i < |s| ==> Title(s)[i] == TitleCharAt(s, i)
  {
    forall i | 0 <= i < |s|
      ensures Title(s)[i] == TitleCharAt(s, i)
    {
      TitleFromAt(s, false, i);
    }
  }

  /** Title-casing twice changes nothing more. */
  lemma TitleIdempotent(s: string)
    ensures Title(Title(s)) == Title(s)
  {
    var t := Title(s);
    TitleSpec(s);
    TitleSpec(t);
    forall i | 0 <= i < |t|
      ensures Title(t)[i] == t[i]
    {
      assert IsLetter(t[i]) == IsLetter(s[i]);
      if i > 0 {
        assert IsLetter(t[i - 1]) == IsLetter(s[i - 1]);
      }
    }
  }

  // ---------------------------------------------------------------------
  // Digits, int() and str() of integers
  // ---------------------------------------------------------------------

  predicate IsDigit(c: char) { '0' <= c <= '9' }

  /** `s.isdigit()`: non-empty and made of digits only. */
  predicate IsDigits(s: string) {
    |s| > 0 && forall i :: 0 <= i < |s| ==> IsDigit(s[i])
  }

  function DigitValue(c: char): nat
    requires IsDigit(c)
  {
    c as int - '0' as int
  }

  function DigitChar(d: nat): (c: char)
    requires d < 10
    ensures IsDigit(c) && DigitValue(c) == d
  {
    ('0' as int + d) as char
  }

  /** The number a string of decimal digits denotes. */
  function DigitsValue(s: string): nat
    requires forall i :: 0 <= i < |s| ==> IsDigit(s[i])
  {
    if s == [] then 0 else DigitsValue(s[..|s| - 1]) * 10 + DigitValue(s[|s| - 1])
  }

  /** `int(s)` on decimal text; `None` where Python raises `ValueError`. */
  function ParseInt(s: string): (r: Option<int>)
    ensures r.Some? <==> IsDigits(s)
    ensures r.Some? ==> r.value >= 0
  {
    if IsDigits(s) then Some(DigitsValue(s)) else None
  }

  /** `str(n)` for a natural number. */
  function NatToDecimal(n: nat): (s: string)
    ensures IsDigits(s)
    ensures |s| > 1 ==> s[0] != '0'
    decreases n
  {
    if n < 10 then [DigitChar(n)] else NatToDecimal(n / 10) + [DigitChar(n % 10)]
  }

  /** `str(i)` for an integer. */
  function IntToDecimal(i: int): (s: string)
    ensures |s| > 0
    ensures i < 0 <==> s[0] == '-'
  {
    if i < 0 then "-" + NatToDecimal(-i) else NatToDecimal(i)
  }

  /** `int(str(n)) == n` for every natural number. */
  lemma {:induction false} ParseNatToDecimal(n: nat)
    ensures ParseInt(NatToDecimal(n)) == Some(n)
    decreases n
  {
    var s := NatToDecimal(n);
    if n >= 10 {
      ParseNatToDecimal(n / 10);
      assert s[..|s| - 1] == NatToDecimal(n / 10);
      assert DigitsValue(NatToDecimal(n / 10)) == n / 10;
      assert DigitValue(s[|s| - 1]) == n % 10;
      assert DigitsValue(s) == (n / 10) * 10 + n % 10;
    }
  }

  /** `n` zero characters. */
  function Zeros(n: nat): (z: string)
    ensures |z| == n && forall i :: 0 <= i < n ==> z[i] == '0'
  {
    if n == 0 then [] else Zeros(n - 1) + ['0']
  }

  /** Zero padding on the left, as the `%0Nd` format does. */
  function ZeroPad(s: string, width: nat): (r: string)
    ensures |r| >= width && |r| >= |s|
  {
    if |s| < width then Zeros(width - |s|) + s else s
  }

  lemma {:induction false} DigitsValueZeros(n: nat)
    ensures DigitsValue(Zeros(n)) == 0
  {
    if n > 0 {
      assert Zeros(n)[..n - 1] == Zeros(n - 1);
      DigitsValueZeros(n - 1);
    }
  }

  lemma {:induction false} DigitsValueLeadingZeros(n: nat, s: string)
    requires forall i :: 0 <= i < |s| ==> IsDigit(s[i])
    ensures forall i :: 0 <= i < |Zeros(n) + s| ==> IsDigit((Zeros(n) + s)[i])
    ensures DigitsValue(Zeros(n) + s) == DigitsValue(s)
  {
    var z := Zeros(n);
    assert forall i :: 0 <= i < |z + s| ==> IsDigit((z + s)[i]) by {
      forall i | 0 <= i < |z + s| ensures IsDigit((z + s)[i]) {
        if i < |z| { assert (z + s)[i] == z[i]; } else { assert (z + s)[i] == s[i - |z|]; }
      }
    }
    if s == [] {
      assert z + s == z;
      DigitsValueZeros(n);
    } else {
      var init := s[..|s| - 1];
      DigitsValueLeadingZeros(n, init);
      assert (z + s)[..|z + s| - 1] == z + init;
    }
  }

  /** `int()` ignores zero padding: `int("0950") == 950`. */
  lemma ParseZeroPadded(s: string, width: nat)
    requires IsDigits(s)
    ensures ParseInt(ZeroPad(s, width)) == ParseInt(s)
  {
    if |s| < width {
      DigitsValueLeadingZeros(width - |s|, s);
    }
  }
}
