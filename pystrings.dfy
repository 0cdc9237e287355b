/**
 * The handful of Python `str` operations the server's parser and serialisers
 * rely on, with Python's semantics: `strip()`, `in`, `find`, `split(sep)`,
 * `split(sep, 1)`, `"sep".join`, `endswith`, `casefold()` (ASCII part),
 * `str(int)` and `int(str)` (ASCII digits).
 */
module PyStrings {
  import opened Wrappers

  /** Python's `str.isspace()` on one character. */
  predicate IsSpace(c: char) {
    c == ' ' || ('\t' <= c <= '\r') || ('\U{1c}' <= c <= '\U{1f}')
    || c == '\U{85}' || c == '\U{a0}' || c == '\U{1680}'
    || ('\U{2000}' <= c <= '\U{200a}') || c == '\U{2028}' || c == '\U{2029}'
    || c == '\U{202f}' || c == '\U{205f}' || c == '\U{3000}'
  }

  /** `s.lstrip()`: drops leading whitespace and nothing else. */
  function LStrip(s: string): (r: string)
    ensures |r| <= |s| && r == s[|s| - |r|..]
    ensures forall k :: 0 <= k < |s| - |r| ==> IsSpace(s[k])
    ensures r == [] || !IsSpace(r[0])
    decreases |s|
  {
    if |s| > 0 && IsSpace(s[0]) then LStrip(s[1..]) else s
  }

  /** `s.rstrip()`: drops trailing whitespace and nothing else. */
  function RStrip(s: string): (r: string)
    ensures |r| <= |s| && r == s[..|r|]
    ensures forall k :: |r| <= k < |s| ==> IsSpace(s[k])
    ensures r == [] || !IsSpace(r[|r| - 1])
    decreases |s|
  {
    if |s| > 0 && IsSpace(s[|s| - 1]) then RStrip(s[..|s| - 1]) else s
  }

  /** `s.strip()`. */
  function Strip(s: string): string {
    RStrip(LStrip(s))
  }

  /** No whitespace at either end of `s`. */
  predicate Trimmed(s: string) {
    s == [] || (!IsSpace(s[0]) && !IsSpace(s[|s| - 1]))
  }

  /** `strip()` leaves a trimmed piece of `s`, cutting whitespace only. */
  lemma StripShape(s: string) returns (i: nat)
    ensures Trimmed(Strip(s))
    ensures i + |Strip(s)| <= |s| && Strip(s) == s[i..i + |Strip(s)|]
  {
    var l := LStrip(s);
    var r := RStrip(l);
    i := |s| - |l|;
    assert r == l[..|r|];
    assert l == s[i..];
    assert r == s[i..i + |r|];
    if r != [] {
      assert r[0] == l[0];
    }
  }

  /** A string without surrounding whitespace is its own `strip()`. */
  lemma StripTrimmed(s: string)
    requires Trimmed(s)
    ensures Strip(s) == s
  {
  }

  /** `strip()` is idempotent. */
  lemma StripIdempotent(s: string)
    ensures Strip(Strip(s)) == Strip(s)
  {
    var _ := StripShape(s);
    StripTrimmed(Strip(s));
  }

  /** `sub` occurs in `s` starting at index `i`. */
  predicate OccursAt(s: string, sub: string, i: int) {
    0 <= i && i + |sub| <= |s| && s[i..i + |sub|] == sub
  }

  function FindFrom(s: string, sub: string, i: nat): (r: Option<nat>)
    ensures r.Some? ==> i <= r.value && OccursAt(s, sub, r.value)
    ensures r.Some? ==> forall k :: i <= k < r.value ==> !OccursAt(s, sub, k)
    ensures r.None? ==> forall k :: i <= k ==> !OccursAt(s, sub, k)
    decreases |s| - i
  {
    if i + |sub| > |s| then None
    else if s[i..i + |sub|] == sub then Some(i)
    else FindFrom(s, sub, i + 1)
  }

  /** `s.find(sub)`, with `None` for Python's `-1`. */
  function Find(s: string, sub: string): (r: Option<nat>)
    ensures r.Some? ==> OccursAt(s, sub, r.value)
    ensures r.Some? ==> forall k :: 0 <= k < r.value ==> !OccursAt(s, sub, k)
    ensures r.None? ==> forall k :: !OccursAt(s, sub, k)
  {
    FindFrom(s, sub, 0)
  }

  /** Python's `sub in s`. */
  predicate Contains(s: string, sub: string) {
    Find(s, sub).Some?
  }

  lemma ContainsIff(s: string, sub: string)
    ensures Contains(s, sub) <==> exists k :: OccursAt(s, sub, k)
  {
  }

  /** Python's `s.split(sep)` for a non-empty separator. */
  function Split(s: string, sep: string): (r: seq<string>)
    requires |sep| > 0
    ensures |r| >= 1
    decreases |s|
  {
    match Find(s, sep)
    case None => [s]
    case Some(i) => [s[..i]] + Split(s[i + |sep|..], sep)
  }

  /** Python's `sep.join(parts)`. */
  function Join(parts: seq<string>, sep: string): string
    decreases |parts|
  {
    if |parts| == 0 then ""
    else if |parts| == 1 then parts[0]
    else parts[0] + sep + Join(parts[1..], sep)
  }

  /** Joining the pieces of a split gives back the string. */
  lemma {:induction false} JoinSplit(s: string, sep: string)
    requires |sep| > 0
    ensures Join(Split(s, sep), sep) == s
    decreases |s|
  {
    var f := Find(s, sep);
    if f.Some? {
      var i := f.value;
      var rest := s[i + |sep|..];
      JoinSplit(rest, sep);
      SplitUnfold(s, sep, i);
      JoinCons(s[..i], Split(rest, sep), sep);
      Recompose(s, sep, i);
    }
  }

  lemma SplitUnfold(s: string, sep: string, i: nat)
    requires |sep| > 0 && Find(s, sep) == Some(i)
    ensures i + |sep| <= |s|
    ensures Split(s, sep) == [s[..i]] + Split(s[i + |sep|..], sep)
  {
  }

  lemma Recompose(s: string, sep: string, i: nat)
    requires OccursAt(s, sep, i)
    ensures s == s[..i] + sep + s[i + |sep|..]
  {
    assert s == s[..i] + s[i..i + |sep|] + s[i + |sep|..];
  }

  lemma JoinCons(head: string, tail: seq<string>, sep: string)
    requires |tail| >= 1
    ensures Join([head] + tail, sep) == head + sep + Join(tail, sep)
  {
    assert ([head] + tail)[1..] == tail;
  }

  /** No piece of a split contains the separator. */
  lemma {:induction false} SplitPiecesFree(s: string, sep: string)
    requires |sep| > 0
    ensures forall p :: p in Split(s, sep) ==> !Contains(p, sep)
    decreases |s|
  {
    match Find(s, sep)
    case None =>
    case Some(i) =>
      SplitPiecesFree(s[i + |sep|..], sep);
      HeadBeforeFirstIsFree(s, sep, i);
      assert Split(s, sep) == [s[..i]] + Split(s[i + |sep|..], sep);
  }

  /** `sep` has no border: none of its proper prefixes is also a suffix. */
  predicate Borderless(sep: string) {
    forall b :: 0 < b < |sep| ==> sep[..b] != sep[|sep| - b..]
  }

  /** A one-character separator is borderless. */
  lemma SingleCharBorderless(c: char)
    ensures Borderless([c])
  {
  }

  lemma FirstOccurrenceAfterFreeHead(head: string, sep: string, rest: string)
    requires |sep| > 0 && Borderless(sep) && !Contains(head, sep)
    ensures Find(head + sep + rest, sep) == Some(|head|)
  {
    var s := head + sep + rest;
    assert s[|head|..|head| + |sep|] == sep;
    assert OccursAt(s, sep, |head|);
    forall k | 0 <= k < |head|
      ensures !OccursAt(s, sep, k)
    {
      if k + |sep| <= |head| {
        assert s[k..k + |sep|] == head[k..k + |sep|];
        assert !OccursAt(head, sep, k);
      } else {
        var b := k + |sep| - |head|;
        assert s[|head|..k + |sep|] == sep[..b];
      }
    }
  }

  /**
   * Splitting a join gives back the pieces, when no piece contains the
   * separator and the separator cannot straddle two pieces.
   */
  lemma {:induction false} SplitJoin(parts: seq<string>, sep: string)
    requires |sep| > 0 && Borderless(sep) && |parts| >= 1
    requires forall p :: p in parts ==> !Contains(p, sep)
    ensures Split(Join(parts, sep), sep) == parts
    decreases |parts|
  {
    if |parts| == 1 {
      assert Join(parts, sep) == parts[0];
    } else {
      var head, rest := parts[0], Join(parts[1..], sep);
      assert Join(parts, sep) == head + sep + rest;
      FirstOccurrenceAfterFreeHead(head, sep, rest);
      var s := head + sep + rest;
      assert s[..|head|] == head;
      assert s[|head| + |sep|..] == rest;
      SplitJoin(parts[1..], sep);
      assert parts == [head] + parts[1..];
    }
  }

  /** Concatenation is associative. */
  lemma ConcatAssoc<T>(a: seq<T>, b: seq<T>, c: seq<T>)
    ensures a + (b + c) == (a + b) + c
  {
  }

  /** Joining two non-empty runs of pieces joins each and puts `sep` between them. */
  lemma {:induction false} JoinConcat(a: seq<string>, b: seq<string>, sep: string)
    requires |a| >= 1 && |b| >= 1
    ensures Join(a + b, sep) == Join(a, sep) + sep + Join(b, sep)
    decreases |a|
  {
    if |a| == 1 {
      assert (a + b)[1..] == b;
    } else {
      assert (a + b)[1..] == a[1..] + b;
      JoinConcat(a[1..], b, sep);
    }
  }

  /** A trailing one-character separator adds one empty piece to the split. */
  lemma {:induction false} SplitTrailingSep(s: string, c: char)
    ensures Split(s + [c], [c]) == Split(s, [c]) + [""]
    decreases |s|
  {
    match Find(s, [c])
    case None =>
      SplitTrailingSepNone(s, c);
    case Some(i) =>
      SplitTrailingSep(s[i + 1..], c);
      SplitTrailingSepFound(s, c, i);
  }

  /** `SplitTrailingSep` when `s` holds no `c`. */
  lemma SplitTrailingSepNone(s: string, c: char)
    requires Find(s, [c]).None?
    ensures Split(s + [c], [c]) == Split(s, [c]) + [""]
  {
    var sep, t := [c], s + [c];
    SingleCharBorderless(c);
    FirstOccurrenceAfterFreeHead(s, sep, "");
    assert s + sep + "" == t;
    assert t[..|s|] == s && t[|s| + 1..] == "";
    assert Split("", sep) == [""];
  }

  /** `SplitTrailingSep` when the first `c` of `s` is at `i`, given the claim for the rest after it. */
  lemma SplitTrailingSepFound(s: string, c: char, i: nat)
    requires Find(s, [c]) == Some(i)
    requires Split(s[i + 1..] + [c], [c]) == Split(s[i + 1..], [c]) + [""]
    ensures Split(s + [c], [c]) == Split(s, [c]) + [""]
  {
    FirstStaysFirst(s, c, i);
    SplitUnfold(s + [c], [c], i);
    SplitUnfold(s, [c], i);
  }

  /** Appending `c` keeps the first `c` where it was, and the text after it gains the `c`. */
  lemma FirstStaysFirst(s: string, c: char, i: nat)
    requires Find(s, [c]) == Some(i)
    ensures Find(s + [c], [c]) == Some(i)
    ensures (s + [c])[..i] == s[..i] && (s + [c])[i + 1..] == s[i + 1..] + [c]
  {
    var sep, t := [c], s + [c];
    SingleCharBorderless(c);
    HeadBeforeFirstIsFree(s, sep, i);
    var head, rest := s[..i], s[i + 1..];
    Recompose(s, sep, i);
    FirstOccurrenceAfterFreeHead(head, sep, rest + sep);
    assert t == head + sep + (rest + sep);
  }



  /** The text before the first occurrence of `sep` does not contain `sep`. */
  lemma HeadBeforeFirstIsFree(s: string, sep: string, i: nat)
    requires |sep| > 0 && Find(s, sep) == Some(i)
    ensures !Contains(s[..i], sep)
  {
    if Contains(s[..i], sep) {
      var head := s[..i];
      var k := Find(head, sep).value;
      assert OccursAt(head, sep, k);
      assert k + |sep| <= i;
      assert s[k..k + |sep|] == head[k..k + |sep|];
      assert OccursAt(s, sep, k);
      assert false;
    }
  }

  /** Python's `a, b = s.split(sep, 1)`: fails unless `sep` occurs. */
  function SplitOnce(s: string, sep: string): (r: Option<(string, string)>)
    requires |sep| > 0
    ensures r.Some? <==> Contains(s, sep)
    ensures r.Some? ==> s == r.value.0 + sep + r.value.1 && !Contains(r.value.0, sep)
  {
    match Find(s, sep)
    case None => None
    case Some(i) =>
      assert s == s[..i] + sep + s[i + |sep|..];
      HeadBeforeFirstIsFree(s, sep, i);
      Some((s[..i], s[i + |sep|..]))
  }

  /** Python's `a, b = s.split(sep)`: fails unless the split has exactly two pieces. */
  function SplitPair(s: string, sep: string): (r: Option<(string, string)>)
    requires |sep| > 0
  {
    var parts := Split(s, sep);
    if |parts| == 2 then Some((parts[0], parts[1])) else None
  }

  /** `s.split(sep)` yields exactly two pieces precisely when `sep` occurs once. */
  lemma SplitPairIff(s: string, sep: string)
    requires |sep| > 0
    ensures SplitPair(s, sep).Some? <==>
            (Contains(s, sep) && !Contains(SplitOnce(s, sep).value.1, sep))
    ensures SplitPair(s, sep).Some? ==> SplitPair(s, sep) == SplitOnce(s, sep)
  {
    match Find(s, sep)
    case None =>
    case Some(i) =>
      var rest := s[i + |sep|..];
      assert Split(s, sep) == [s[..i]] + Split(rest, sep);
      assert SplitOnce(s, sep).value.1 == rest;
      match Find(rest, sep)
      case None =>
        assert Split(rest, sep) == [rest];
      case Some(j) =>
        assert |Split(rest, sep)| >= 2;
  }

  /** No character of `s` is `c`. */
  predicate Lacks(s: string, c: char) {
    forall k :: 0 <= k < |s| ==> s[k] != c
  }

  /** A string that lacks the first character of `sub` does not contain `sub`. */
  lemma LacksNotContains(s: string, sub: string)
    requires |sub| > 0 && Lacks(s, sub[0])
    ensures !Contains(s, sub)
  {
  }

  /** Gluing two strings free of a two-character `sep` with a character that is in neither position of `sep` does not create `sep`. */
  lemma {:induction false} GlueNotContains(a: string, c: char, b: string, sep: string)
    requires |sep| == 2 && c != sep[0] && c != sep[1]
    requires !Contains(a, sep) && !Contains(b, sep)
    ensures !Contains(a + [c] + b, sep)
  {
    var t := a + [c] + b;
    assert t[..|a|] == a && t[|a|] == c && t[|a| + 1..] == b;
    ContainsIff(a, sep);
    ContainsIff(b, sep);
    ContainsIff(t, sep);
    forall k | 0 <= k
      ensures !OccursAt(t, sep, k)
    {
      if k + 2 <= |t| {
        if k + 1 < |a| {
          assert t[k..k + 2] == t[..|a|][k..k + 2];
          assert !OccursAt(a, sep, k);
        } else if k > |a| {
          var j := k - |a| - 1;
          assert t[k..k + 2] == t[|a| + 1..][j..j + 2];
          assert !OccursAt(b, sep, j);
        } else {
          assert t[k..k + 2][|a| - k] == c;
        }
      }
    }
  }

  /** A string that lacks the second character of `sub` does not contain `sub`. */
  lemma LacksSecondNotContains(s: string, sub: string)
    requires |sub| > 1 && Lacks(s, sub[1])
    ensures !Contains(s, sub)
  {
  }

  lemma LacksAppend(a: string, b: string, c: char)
    requires Lacks(a, c) && Lacks(b, c)
    ensures Lacks(a + b, c)
  {
    forall k | 0 <= k < |a + b|
      ensures (a + b)[k] != c
    {
      if k >= |a| {
        assert (a + b)[k] == b[k - |a|];
      }
    }
  }

  /** Lines that each lack `c`, put together, still each lack it. */
  lemma ConcatLack(xs: seq<string>, ys: seq<string>, c: char)
    requires forall i :: 0 <= i < |xs| ==> Lacks(xs[i], c)
    requires forall i :: 0 <= i < |ys| ==> Lacks(ys[i], c)
    ensures forall i :: 0 <= i < |xs + ys| ==> Lacks((xs + ys)[i], c)
  {
    forall i | 0 <= i < |xs + ys|
      ensures Lacks((xs + ys)[i], c)
    {
      if i >= |xs| {
        assert (xs + ys)[i] == ys[i - |xs|];
      }
    }
  }

  /** Lines that all lack the first character of `sep` hold no `sep`. */
  lemma AllLackNotContain(lines: seq<string>, sep: string)
    requires |sep| > 0 && forall k :: 0 <= k < |lines| ==> Lacks(lines[k], sep[0])
    ensures forall k :: 0 <= k < |lines| ==> !Contains(lines[k], sep)
  {
    forall k | 0 <= k < |lines|
      ensures !Contains(lines[k], sep)
    {
      LacksNotContains(lines[k], sep);
    }
  }

  /** A separator of two different characters, such as `"\r\n"` or `"; "`, is borderless. */
  lemma PairBorderless(a: char, b: char)
    requires a != b
    ensures Borderless([a, b])
  {
    assert [a, b][..1] == [a] && [a, b][1..] == [b];
  }

  /** `"".join(line + sep for line in lines)`: every line followed by `sep`. */
  function Terminated(lines: seq<string>, sep: string): string
    decreases |lines|
  {
    if lines == [] then "" else Terminated(lines[..|lines| - 1], sep) + lines[|lines| - 1] + sep
  }

  /** Terminating one more line appends it and its separator. */
  lemma TerminatedStep(lines: seq<string>, i: nat, sep: string)
    requires i < |lines|
    ensures Terminated(lines[..i + 1], sep) == Terminated(lines[..i], sep) + lines[i] + sep
  {
    assert lines[..i + 1][..i] == lines[..i];
  }

  lemma {:induction false} JoinSnoc(parts: seq<string>, last: string, sep: string)
    requires |parts| >= 1
    ensures Join(parts + [last], sep) == Join(parts, sep) + sep + last
    decreases |parts|
  {
    if |parts| == 1 {
      assert Join(parts + [last], sep) == parts[0] + sep + Join([last], sep);
    } else {
      assert (parts + [last])[1..] == parts[1..] + [last];
      JoinSnoc(parts[1..], last, sep);
    }
  }

  lemma {:induction false} TerminatedAppend(a: seq<string>, b: seq<string>, sep: string)
    ensures Terminated(a + b, sep) == Terminated(a, sep) + Terminated(b, sep)
    decreases |b|
  {
    if b == [] {
      assert a + b == a;
    } else {
      var n := |b| - 1;
      assert (a + b)[..|a + b| - 1] == a + b[..n];
      TerminatedAppend(a, b[..n], sep);
    }
  }

  lemma TerminatedCons(x: string, rest: seq<string>, sep: string)
    ensures Terminated([x] + rest, sep) == x + sep + Terminated(rest, sep)
  {
    TerminatedAppend([x], rest, sep);
    assert [x][..0] == [];
    assert Terminated([x], sep) == Terminated([], sep) + x + sep;
  }

  /** Terminating every line is joining the lines and one empty line. */
  lemma {:induction false} TerminatedJoin(lines: seq<string>, sep: string)
    ensures Terminated(lines, sep) == Join(lines + [""], sep)
    decreases |lines|
  {
    if lines != [] {
      var n := |lines| - 1;
      var init := lines[..n];
      TerminatedJoin(init, sep);
      assert lines == init + [lines[n]];
      if n == 0 {
        assert Join(lines + [""], sep) == lines[0] + sep + Join([""], sep);
      } else {
        JoinSnoc(init, "", sep);
        JoinSnoc(init, lines[n], sep);
        JoinSnoc(lines, "", sep);
      }
    }
  }

  /**
   * Splitting terminated lines on the terminator gives the lines back, then
   * the empty text after the last terminator.
   */
  lemma SplitTerminated(lines: seq<string>, sep: string)
    requires |sep| > 0 && Borderless(sep)
    requires forall k :: 0 <= k < |lines| ==> !Contains(lines[k], sep)
    ensures Split(Terminated(lines, sep), sep) == lines + [""]
  {
    TerminatedJoin(lines, sep);
    assert !Contains("", sep);
    forall p | p in lines + [""]
      ensures !Contains(p, sep)
    {
    }
    SplitJoin(lines + [""], sep);
  }

  /** Python's `s.endswith(suffix)`. */
  predicate EndsWith(s: string, suffix: string) {
    |suffix| <= |s| && s[|s| - |suffix|..] == suffix
  }

  lemma EndsWithAppend(s: string, suffix: string)
    ensures EndsWith(s + suffix, suffix)
  {
    assert (s + suffix)[|s|..] == suffix;
  }

  /** `if s.endswith("/"): s = s[:-1]`, which the registry applies to routes. */
  function DropTrailingSlash(s: string): (r: string)
    ensures EndsWith(s, "/") ==> r + "/" == s
    ensures !EndsWith(s, "/") ==> r == s
  {
    if EndsWith(s, "/") then s[..|s| - 1] else s
  }

  /** The prefix of `s` before its first `c`, or all of `s` (`s[:s.find(c)]`). */
  function Before(s: string, c: char): (r: string)
    ensures Contains(s, [c]) ==> |r| < |s| && s == r + [c] + s[|r| + 1..] && !Contains(r, [c])
    ensures !Contains(s, [c]) ==> r == s
  {
    match Find(s, [c])
    case None => s
    case Some(i) =>
      assert s == s[..i] + [c] + s[i + 1..];
      HeadBeforeFirstIsFree(s, [c], i);
      s[..i]
  }

  /** The ASCII part of Python's `str.casefold()` on one character. */
  function FoldChar(c: char): char {
    if 'A' <= c <= 'Z' then (c as int + 32) as char else c
  }

  /** Python's `s.casefold()`, restricted to ASCII letters. */
  function CaseFold(s: string): string {
    seq(|s|, i requires 0 <= i < |s| => FoldChar(s[i]))
  }

  /** Case folding twice is case folding once. */
  lemma CaseFoldIdempotent(s: string)
    ensures CaseFold(CaseFold(s)) == CaseFold(s)
  {
  }

  /** Case-insensitive equality with a lower-case name, as the header loop uses it. */
  predicate NameIs(s: string, lower: string) {
    CaseFold(s) == lower
  }

  lemma CaseFoldDistinguishes(s: string)
    ensures NameIs("Content-Length", "content-length")
    ensures NameIs("COOKIE", "cookie")
    ensures !NameIs("Content-Type", "content-length")
  {
    assert CaseFold("Content-Length") == "content-length";
    assert CaseFold("COOKIE") == "cookie";
    assert CaseFold("Content-Type")[8] == 't';
  }

  predicate IsDigit(c: char) {
    '0' <= c <= '9'
  }

  function DigitChar(d: nat): (c: char)
    requires d < 10
    ensures IsDigit(c) && c as int - '0' as int == d
  {
    (d + '0' as int) as char
  }

  /** Python's `str(n)` for a natural number. */
  function NatToString(n: nat): (r: string)
    ensures |r| >= 1
    ensures forall k :: 0 <= k < |r| ==> IsDigit(r[k])
    decreases n
  {
    if n < 10 then [DigitChar(n)] else NatToString(n / 10) + [DigitChar(n % 10)]
  }

  /** Python's `str(i)` for an integer. */
  function IntToString(i: int): string {
    if i < 0 then "-" + NatToString(-i) else NatToString(i)
  }

  /** The digits part of an `int()` literal: digits, single `_` only between digits. */
  predicate DecimalDigits(t: string) {
    && |t| > 0 && IsDigit(t[0]) && IsDigit(t[|t| - 1])
    && (forall k :: 0 <= k < |t| ==> IsDigit(t[k]) || t[k] == '_')
    && (forall k :: 0 <= k < |t| - 1 ==> t[k] == '_' ==> t[k + 1] != '_')
  }

  /** The value of a digit string, underscores ignored. */
  function DigitsValue(t: string): nat
    decreases |t|
  {
    if |t| == 0 then 0
    else if IsDigit(t[|t| - 1]) then DigitsValue(t[..|t| - 1]) * 10 + (t[|t| - 1] as int - '0' as int)
    else DigitsValue(t[..|t| - 1])
  }

  /** Python's `int(s)` in base 10, restricted to ASCII digits. */
  function ParseInt(s: string): Option<int> {
    var t := Strip(s);
    if |t| > 0 && t[0] == '-' && DecimalDigits(t[1..]) then Some(0 - DigitsValue(t[1..]) as int)
    else if |t| > 0 && t[0] == '+' && DecimalDigits(t[1..]) then Some(DigitsValue(t[1..]))
    else if DecimalDigits(t) then Some(DigitsValue(t))
    else None
  }

  lemma {:induction false} NatToStringValue(n: nat)
    ensures DigitsValue(NatToString(n)) == n
    decreases n
  {
    if n >= 10 {
      NatToStringValue(n / 10);
      var r := NatToString(n);
      assert r[..|r| - 1] == NatToString(n / 10);
    }
  }

  lemma NatToStringDigits(n: nat)
    ensures DecimalDigits(NatToString(n)) && Trimmed(NatToString(n))
  {
  }

  lemma ParseNegative(digits: string)
    requires DecimalDigits(digits) && Trimmed(digits)
    ensures ParseInt("-" + digits) == Some(0 - DigitsValue(digits) as int)
  {
    var s := "-" + digits;
    assert s[1..] == digits;
    assert Trimmed(s);
    StripTrimmed(s);
  }

  lemma ParseNonNegative(digits: string)
    requires DecimalDigits(digits) && Trimmed(digits)
    ensures ParseInt(digits) == Some(DigitsValue(digits) as int)
  {
    StripTrimmed(digits);
  }

  /** `int()` rejects text that holds no digit at all. */
  lemma ParseIntNeedsDigit(s: string)
    requires forall k :: 0 <= k < |s| ==> !IsDigit(s[k])
    ensures ParseInt(s) == None
  {
    var t := Strip(s);
    var i := StripShape(s);
    if |t| > 0 {
      assert t[|t| - 1] == s[i + |t| - 1];
      if |t| > 1 {
        assert t[1..][|t| - 2] == t[|t| - 1];
      }
    }
  }

  /** `int(str(i)) == i`. */
  lemma ParseIntToString(i: int)
    ensures ParseInt(IntToString(i)) == Some(i)
  {
    var m: nat := if i < 0 then -i else i;
    NatToStringValue(m);
    NatToStringDigits(m);
    if i < 0 {
      ParseNegative(NatToString(m));
    } else {
      ParseNonNegative(NatToString(m));
    }
  }
}
