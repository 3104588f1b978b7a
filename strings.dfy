/**
  The JavaScript string operations the plugin relies on, over `seq<char>`.

  Case mapping is ASCII only; `IsSpace` is JavaScript's `\s` class, which is
  also the set of characters `String.prototype.trim` removes.
 */
module Strings {

  // ---------------------------------------------------------------- characters

  predicate IsSpace(c: char) {
    c == ' ' || c == '\t' || c == '\n' || c == '\r' || c == '\U{000B}' || c == '\U{000C}'
    || c == '\U{00A0}' || c == '\U{1680}' || ('\U{2000}' <= c <= '\U{200A}')
    || c == '\U{2028}' || c == '\U{2029}' || c == '\U{202F}' || c == '\U{205F}'
    || c == '\U{3000}' || c == '\U{FEFF}'
  }

  predicate IsDigit(c: char) { '0' <= c <= '9' }
  predicate IsLowerAscii(c: char) { 'a' <= c <= 'z' }
  predicate IsUpperAscii(c: char) { 'A' <= c <= 'Z' }
  predicate IsHexDigit(c: char) { IsDigit(c) || 'a' <= c <= 'f' || 'A' <= c <= 'F' }

  function LowerChar(c: char): char {
    if IsUpperAscii(c) then (c as int - 'A' as int + 'a' as int) as char else c
  }

  function UpperChar(c: char): char {
    if IsLowerAscii(c) then (c as int - 'a' as int + 'A' as int) as char else c
  }

  /** `toLowerCase()`, restricted to ASCII letters. */
  function Lower(s: string): string {
    seq(|s|, i requires 0 <= i < |s| => LowerChar(s[i]))
  }

  /** `toUpperCase()`, restricted to ASCII letters. */
  function Upper(s: string): string {
    seq(|s|, i requires 0 <= i < |s| => UpperChar(s[i]))
  }

  lemma LowerOfLowerChar(c: char)
    ensures !IsUpperAscii(LowerChar(c))
  {
  }

  // ---------------------------------------------------------------- trimming

  function TrimStart(s: string): (r: string)
    ensures |r| <= |s| && r == s[|s| - |r|..]
    ensures r == [] || !IsSpace(r[0])
    decreases |s|
  {
    if s != [] && IsSpace(s[0]) then TrimStart(s[1..]) else s
  }

  function TrimEnd(s: string): (r: string)
    ensures |r| <= |s| && r == s[..|r|]
    ensures r == [] || !IsSpace(r[|r| - 1])
    decreases |s|
  {
    if s != [] && IsSpace(s[|s| - 1]) then TrimEnd(s[..|s| - 1]) else s
  }

  /** `trim()`: JavaScript removes exactly the `\s` characters at both ends. */
  function Trim(s: string): string {
    TrimEnd(TrimStart(s))
  }

  lemma TrimEndKeepsFirst(s: string)
    requires s == [] || !IsSpace(s[0])
    ensures TrimEnd(s) == [] || !IsSpace(TrimEnd(s)[0])
  {
    var r := TrimEnd(s);
    if r != [] {
      assert r[0] == s[0];
    }
  }

  /** A trimmed string has no white space at either end. */
  lemma TrimEnds(s: string)
    ensures Trim(s) == [] || (!IsSpace(Trim(s)[0]) && !IsSpace(Trim(s)[|Trim(s)| - 1]))
  {
    TrimEndKeepsFirst(TrimStart(s));
  }

  // ---------------------------------------------------------------- searching

  /** `indexOf` of one character: the first index, or -1. */
  function IndexOf(s: string, c: char): (r: int)
    ensures -1 <= r < |s|
    ensures r >= 0 ==> s[r] == c && c !in s[..r]
    ensures r < 0 ==> c !in s
  {
    if s == [] then -1
    else if s[0] == c then 0
    else
      var k := IndexOf(s[1..], c);
      if k < 0 then -1 else k + 1
  }

  /** `includes(sub)`: `sub` occurs as a contiguous piece of `s`. */
  predicate Contains(s: string, sub: string) {
    exists i :: 0 <= i <= |s| - |sub| && OccursAt(s, sub, i)
  }

  predicate OccursAt(s: string, sub: string, i: int) {
    0 <= i <= |s| - |sub| && s[i..i + |sub|] == sub
  }

  /** `startsWith(prefix)`. */
  predicate StartsWith(s: string, prefix: string) {
    |prefix| <= |s| && s[..|prefix|] == prefix
  }

  lemma ContainsEmpty(s: string)
    ensures Contains(s, "")
  {
    assert OccursAt(s, "", 0);
  }

  /** A piece that occurs in `x` occurs in any string with `x` inside it. */
  lemma ContainsWithin(a: string, x: string, b: string, sub: string)
    requires Contains(x, sub)
    ensures Contains(a + x + b, sub)
  {
    var i :| 0 <= i <= |x| - |sub| && OccursAt(x, sub, i);
    var s := a + x + b;
    assert s[|a| + i..|a| + i + |sub|] == x[i..i + |sub|];
    assert OccursAt(s, sub, |a| + i);
  }

  /** Case mapping works character by character, so it distributes over concatenation. */
  lemma LowerAppend(a: string, b: string)
    ensures Lower(a + b) == Lower(a) + Lower(b)
  {
  }

  // ---------------------------------------------------------------- split and join

  /** `split(c)` for a one-character separator: never empty, the pieces hold no `c`. */
  function Split(s: string, c: char): (r: seq<string>)
    ensures |r| >= 1
    decreases |s|
  {
    var i := IndexOf(s, c);
    if i < 0 then [s] else [s[..i]] + Split(s[i + 1..], c)
  }

  /** Splitting at a separator: the first piece runs up to it, the rest split what follows it. */
  lemma SplitAt(s: string, c: char)
    requires IndexOf(s, c) >= 0
    ensures Split(s, c) == [s[..IndexOf(s, c)]] + Split(s[IndexOf(s, c) + 1..], c)
  {
  }

  /** `join(sep)`. */
  function Join(parts: seq<string>, sep: string): string
    decreases |parts|
  {
    if |parts| == 0 then ""
    else if |parts| == 1 then parts[0]
    else parts[0] + sep + Join(parts[1..], sep)
  }

  /** Splitting on a separator undoes joining with it, when no piece holds the separator. */
  lemma {:induction false} SplitJoin(parts: seq<string>, c: char)
    requires |parts| >= 1
    requires forall k :: 0 <= k < |parts| ==> c !in parts[k]
    ensures Split(Join(parts, [c]), c) == parts
    decreases |parts|
  {
    if |parts| > 1 {
      var s := Join(parts, [c]);
      var tail := Join(parts[1..], [c]);
      assert s == parts[0] + [c] + tail;
      assert s[|parts[0]|] == c;
      assert s[..|parts[0]|] == parts[0];
      assert IndexOf(s, c) == |parts[0]|;
      assert s[|parts[0]| + 1..] == tail;
      SplitJoin(parts[1..], c);
      assert [parts[0]] + parts[1..] == parts;
    }
  }

  /** Concatenation is associative. */
  lemma AppendAssoc<T>(a: seq<T>, b: seq<T>, c: seq<T>)
    ensures (a + b) + c == a + (b + c)
  {
  }

  /** A string is its part before position `i`, the character at `i`, and its part after. */
  lemma Around(s: string, i: nat)
    requires i < |s|
    ensures s == s[..i] + [s[i]] + s[i + 1..]
  {
  }

  /** Joining a first piece in front of at least one more puts one separator between them. */
  lemma JoinCons(head: string, rest: seq<string>, sep: string)
    requires |rest| >= 1
    ensures Join([head] + rest, sep) == head + sep + Join(rest, sep)
  {
    var parts := [head] + rest;
    assert parts[0] == head && parts[1..] == rest;
  }

  /** Joining the pieces of a split with the separator rebuilds the string. */
  lemma {:induction false} JoinSplit(s: string, c: char)
    ensures Join(Split(s, c), [c]) == s
    decreases |s|
  {
    var i := IndexOf(s, c);
    if i >= 0 {
      var rest := Split(s[i + 1..], c);
      assert Split(s, c) == [s[..i]] + rest;
      JoinSplit(s[i + 1..], c);
      JoinCons(s[..i], rest, [c]);
      Around(s, i);
    }
  }

  /** Lower-cases every piece. */
  function LowerAll(parts: seq<string>): (r: seq<string>)
    ensures |r| == |parts|
    ensures forall k :: 0 <= k < |parts| ==> r[k] == Lower(parts[k])
  {
    seq(|parts|, k requires 0 <= k < |parts| => Lower(parts[k]))
  }

  /** Lower-casing a joined string lower-cases each piece and the separator. */
  lemma {:induction false} LowerJoin(parts: seq<string>, sep: string)
    ensures Lower(Join(parts, sep)) == Join(LowerAll(parts), Lower(sep))
    decreases |parts|
  {
    if |parts| >= 2 {
      var rest := Join(parts[1..], sep);
      LowerAppend(parts[0] + sep, rest);
      LowerAppend(parts[0], sep);
      LowerJoin(parts[1..], sep);
      assert LowerAll(parts[1..]) == LowerAll(parts)[1..];
    }
  }

  /** A piece of one of the parts is a piece of their join. */
  lemma {:induction false} JoinContainsPart(parts: seq<string>, c: char, k: nat, w: string)
    requires k < |parts| && Contains(parts[k], w)
    ensures Contains(Join(parts, [c]), w)
    decreases |parts|
  {
    if |parts| >= 2 {
      var rest := Join(parts[1..], [c]);
      if k == 0 {
        ContainsWithin("", parts[0], [c] + rest, w);
        assert "" + parts[0] + ([c] + rest) == parts[0] + [c] + rest;
      } else {
        JoinContainsPart(parts[1..], c, k - 1, w);
        ContainsWithin(parts[0] + [c], rest, "", w);
        assert parts[0] + [c] + rest + "" == parts[0] + [c] + rest;
      }
    }
  }

  /** Each character an occurrence covers is a character of the piece. */
  lemma OccursAtHas(s: string, w: string, i: int, p: int)
    requires OccursAt(s, w, i) && i <= p < i + |w|
    ensures s[p] in w
  {
    assert w[p - i] == s[p];
  }

  /** A piece free of the separator that occurs in a join occurs within one of the parts. */
  lemma {:induction false} JoinContainsOnlyParts(parts: seq<string>, c: char, w: string)
    requires |parts| >= 1 && c !in w && Contains(Join(parts, [c]), w)
    ensures exists k :: 0 <= k < |parts| && Contains(parts[k], w)
    decreases |parts|
  {
    if |parts| >= 2 {
      var head := parts[0];
      var rest := Join(parts[1..], [c]);
      var s := Join(parts, [c]);
      assert s == head + [c] + rest;
      var i :| 0 <= i <= |s| - |w| && OccursAt(s, w, i);
      assert s[|head|] == c;
      if i <= |head| < i + |w| {
        OccursAtHas(s, w, i, |head|);
      }
      if i + |w| <= |head| {
        assert head[i..i + |w|] == s[i..i + |w|];
        assert OccursAt(head, w, i);
      } else if i > |head| {
        var j := i - |head| - 1;
        assert rest[j..j + |w|] == s[i..i + |w|];
        assert OccursAt(rest, w, j);
        JoinContainsOnlyParts(parts[1..], c, w);
        var k :| 0 <= k < |parts[1..]| && Contains(parts[1..][k], w);
        assert parts[k + 1] == parts[1..][k];
      } else {
        assert false;
      }
    }
  }

  // ---------------------------------------------------------------- white-space splitting

  /** The index of the first `\s` character, or -1. */
  function FirstSpace(s: string): (r: int)
    ensures -1 <= r < |s|
    ensures r >= 0 ==> IsSpace(s[r])
    ensures forall k :: 0 <= k < |s| && (r < 0 || k < r) ==> !IsSpace(s[k])
  {
    if s == [] then -1
    else if IsSpace(s[0]) then 0
    else
      var k := FirstSpace(s[1..]);
      if k < 0 then -1 else k + 1
  }

  // ---------------------------------------------------------------- character classes

  /** The character classes the plugin's regular expressions match runs of. */
  datatype CharClass =
    | WhiteSpace      // `\s`
    | Underscore      // `_`
    | NotLowerAlnum   // `[^a-z0-9]`
    | Dash            // `-`
    | NotNameChar     // `[^a-zA-Z0-9\s-]`

  predicate InClass(c: char, k: CharClass) {
    match k
    case WhiteSpace => IsSpace(c)
    case Underscore => c == '_'
    case NotLowerAlnum => !(IsLowerAscii(c) || IsDigit(c))
    case Dash => c == '-'
    case NotNameChar => !(IsLowerAscii(c) || IsUpperAscii(c) || IsDigit(c) || IsSpace(c) || c == '-')
  }

  // ---------------------------------------------------------------- run replacement

  /** Drops the leading run of characters of class `k`. */
  function DropWhile(s: string, k: CharClass): (r: string)
    ensures |r| <= |s|
    ensures r == [] || !InClass(r[0], k)
    decreases |s|
  {
    if s != [] && InClass(s[0], k) then DropWhile(s[1..], k) else s
  }

  /** What `DropWhile` leaves is a suffix of its input. */
  lemma {:induction false} DropWhileSuffix(s: string, k: CharClass)
    ensures DropWhile(s, k) == s[|s| - |DropWhile(s, k)|..]
    decreases |s|
  {
    if s != [] && InClass(s[0], k) {
      DropWhileSuffix(s[1..], k);
    }
  }

  /** Drops the trailing run of characters of class `k`. */
  function DropWhileEnd(s: string, k: CharClass): (r: string)
    ensures |r| <= |s|
    ensures r == [] || !InClass(r[|r| - 1], k)
    decreases |s|
  {
    if s != [] && InClass(s[|s| - 1], k) then DropWhileEnd(s[..|s| - 1], k) else s
  }

  /** What `DropWhileEnd` leaves is a prefix of its input. */
  lemma {:induction false} DropWhileEndPrefix(s: string, k: CharClass)
    ensures DropWhileEnd(s, k) == s[..|DropWhileEnd(s, k)|]
    decreases |s|
  {
    if s != [] && InClass(s[|s| - 1], k) {
      DropWhileEndPrefix(s[..|s| - 1], k);
    }
  }

  /** `replace(/[…]+/g, rep)`: every maximal run of characters of class `k` becomes one `rep`. */
  function ReplaceRuns(s: string, k: CharClass, rep: char): string
    decreases |s|
  {
    if s == [] then []
    else if InClass(s[0], k) then [rep] + ReplaceRuns(DropWhile(s[1..], k), k, rep)
    else [s[0]] + ReplaceRuns(s[1..], k, rep)
  }

  /** `replace(/[…]/g, '')`: removes every character of class `k`. */
  function RemoveAll(s: string, k: CharClass): string
    decreases |s|
  {
    if s == [] then [] else (if InClass(s[0], k) then [] else [s[0]]) + RemoveAll(s[1..], k)
  }

  /** Every character of the result is `rep` or a character that is not of class `k`. */
  lemma {:induction false} ReplaceRunsChars(s: string, k: CharClass, rep: char)
    ensures forall i :: 0 <= i < |ReplaceRuns(s, k, rep)| ==>
      ReplaceRuns(s, k, rep)[i] == rep || !InClass(ReplaceRuns(s, k, rep)[i], k)
    decreases |s|
  {
    if s != [] {
      if InClass(s[0], k) {
        ReplaceRunsChars(DropWhile(s[1..], k), k, rep);
      } else {
        ReplaceRunsChars(s[1..], k, rep);
      }
    }
  }

  lemma ReplaceRunsFirst(s: string, k: CharClass, rep: char)
    requires s != [] && !InClass(s[0], k)
    ensures ReplaceRuns(s, k, rep) != [] && ReplaceRuns(s, k, rep)[0] == s[0]
  {
  }

  /** When `rep` itself is of class `k`, the result never holds two `rep` in a row. */
  lemma {:induction false} ReplaceRunsNoDouble(s: string, k: CharClass, rep: char)
    requires InClass(rep, k)
    ensures forall i :: 0 <= i < |ReplaceRuns(s, k, rep)| - 1 ==>
      !(ReplaceRuns(s, k, rep)[i] == rep && ReplaceRuns(s, k, rep)[i + 1] == rep)
    decreases |s|
  {
    if s != [] {
      var r := ReplaceRuns(s, k, rep);
      if InClass(s[0], k) {
        var t := DropWhile(s[1..], k);
        ReplaceRunsNoDouble(t, k, rep);
        if t != [] {
          ReplaceRunsFirst(t, k, rep);
          assert r[1] == t[0];
        }
      } else {
        ReplaceRunsNoDouble(s[1..], k, rep);
        assert r[0] == s[0];
      }
    }
  }

  /** What `RemoveAll` keeps are characters of its input outside class `k`. */
  lemma {:induction false} RemoveAllChars(s: string, k: CharClass)
    ensures forall i :: 0 <= i < |RemoveAll(s, k)| ==> RemoveAll(s, k)[i] in s && !InClass(RemoveAll(s, k)[i], k)
    decreases |s|
  {
    if s != [] {
      RemoveAllChars(s[1..], k);
    }
  }

  /** A string with no character of class `k` loses nothing to `RemoveAll`. */
  lemma {:induction false} RemoveAllNone(s: string, k: CharClass)
    requires forall i :: 0 <= i < |s| ==> !InClass(s[i], k)
    ensures RemoveAll(s, k) == s
    decreases |s|
  {
    if s != [] {
      RemoveAllNone(s[1..], k);
    }
  }

  /** A string with no character of class `k` has no run to replace. */
  lemma {:induction false} ReplaceRunsNone(s: string, k: CharClass, rep: char)
    requires forall i :: 0 <= i < |s| ==> !InClass(s[i], k)
    ensures ReplaceRuns(s, k, rep) == s
    decreases |s|
  {
    if s != [] {
      ReplaceRunsNone(s[1..], k, rep);
    }
  }

  /** Every character `ReplaceRuns` writes is `rep` or a character of its input. */
  lemma {:induction false} ReplaceRunsFrom(s: string, k: CharClass, rep: char)
    ensures forall i :: 0 <= i < |ReplaceRuns(s, k, rep)| ==> ReplaceRuns(s, k, rep)[i] == rep || ReplaceRuns(s, k, rep)[i] in s
    decreases |s|
  {
    if s != [] {
      if InClass(s[0], k) {
        var t := DropWhile(s[1..], k);
        DropWhileSuffix(s[1..], k);
        ReplaceRunsFrom(t, k, rep);
        forall c | c in t
          ensures c in s
        {
          var j :| 0 <= j < |t| && t[j] == c;
          assert s[1..][|s[1..]| - |t| + j] == c;
        }
      } else {
        ReplaceRunsFrom(s[1..], k, rep);
      }
    }
  }

  /** `replace(/a/g, b)`: every `a` becomes `b`. */
  function ReplaceChar(s: string, a: char, b: char): (r: string)
    ensures |r| == |s|
    ensures forall i :: 0 <= i < |s| ==> r[i] == if s[i] == a then b else s[i]
  {
    seq(|s|, i requires 0 <= i < |s| => if s[i] == a then b else s[i])
  }

  /** `padStart(n, c)` with a one-character pad: `c` repeated in front up to length `n`. */
  function PadStart(s: string, n: nat, c: char): (r: string)
    ensures |r| == if |s| >= n then |s| else n
    ensures r[|r| - |s|..] == s
    ensures forall i :: 0 <= i < |r| - |s| ==> r[i] == c
  {
    if |s| >= n then s else seq(n - |s|, _ => c) + s
  }

  // ---------------------------------------------------------------- numbers

  function DigitChar(d: nat): char
    requires d < 10
  {
    ('0' as int + d) as char
  }

  /** `String(n)` for a natural number: decimal digits without leading zeros. */
  function NatToString(n: nat): (r: string)
    ensures r != []
    ensures forall i :: 0 <= i < |r| ==> IsDigit(r[i])
    decreases n
  {
    if n < 10 then [DigitChar(n)] else NatToString(n / 10) + [DigitChar(n % 10)]
  }

  /** `String(i)` for an integer. */
  function IntToString(i: int): (r: string)
    ensures r != []
    ensures forall k :: 0 <= k < |r| ==> IsDigit(r[k]) || r[k] == '-'
  {
    if i < 0 then "-" + NatToString(-i) else NatToString(i)
  }

  /** The value of a string of decimal digits. */
  function DigitsValue(s: string): nat
    requires forall i :: 0 <= i < |s| ==> IsDigit(s[i])
  {
    if s == [] then 0
    else
      assert IsDigit(s[|s| - 1]);
      DigitsValue(s[..|s| - 1]) * 10 + (s[|s| - 1] as int - '0' as int)
  }

  lemma {:induction false} NatToStringValue(n: nat)
    ensures DigitsValue(NatToString(n)) == n
    decreases n
  {
    if n >= 10 {
      var r := NatToString(n);
      NatToStringValue(n / 10);
      assert r[..|r| - 1] == NatToString(n / 10);
    }
  }

  /** Distinct numbers print differently. */
  lemma NatToStringInjective(m: nat, n: nat)
    requires NatToString(m) == NatToString(n)
    ensures m == n
  {
    NatToStringValue(m);
    NatToStringValue(n);
  }

  lemma IntToStringSign(i: int)
    ensures IntToString(i)[0] == '-' <==> i < 0
  {
    if i >= 0 {
      assert IsDigit(NatToString(i)[0]);
    }
  }

  lemma IntToStringInjective(i: int, j: int)
    requires IntToString(i) == IntToString(j)
    ensures i == j
  {
    IntToStringSign(i);
    IntToStringSign(j);
    if i < 0 && j < 0 {
      assert NatToString(-i) == IntToString(i)[1..];
      NatToStringInjective(-i, -j);
    } else if i >= 0 && j >= 0 {
      NatToStringInjective(i, j);
    }
  }

  // ---------------------------------------------------------------- split(/\s+/)

  /** `split(/\s+/)`: the pieces between runs of white space. */
  function SplitSpaces(s: string): (r: seq<string>)
    ensures |r| >= 1
    ensures forall w, k :: w in r && 0 <= k < |w| ==> !IsSpace(w[k])
    decreases |s|
  {
    var i := FirstSpace(s);
    if i < 0 then [s] else [s[..i]] + SplitSpaces(DropWhile(s[i + 1..], WhiteSpace))
  }

  /** A string that `DropWhile` empties ends in the class it drops. */
  lemma {:induction false} DropWhileEmptied(s: string, k: CharClass)
    requires s != [] && DropWhile(s, k) == []
    ensures InClass(s[|s| - 1], k)
    decreases |s|
  {
    if |s| > 1 {
      DropWhileEmptied(s[1..], k);
    }
  }

  /** Splitting a non-empty string without white space at its ends gives no empty piece. */
  lemma {:induction false} SplitSpacesNonEmpty(s: string)
    requires s != [] && !IsSpace(s[0]) && !IsSpace(s[|s| - 1])
    ensures forall w :: w in SplitSpaces(s) ==> w != ""
    decreases |s|
  {
    var i := FirstSpace(s);
    if i >= 0 {
      var after := s[i + 1..];
      var t := DropWhile(after, WhiteSpace);
      assert 0 < i < |s| - 1;
      assert after != [] && after[|after| - 1] == s[|s| - 1];
      if t == [] {
        if after != [] {
          DropWhileEmptied(after, WhiteSpace);
        }
        assert false;
      }
      DropWhileSuffix(after, WhiteSpace);
      assert t[|t| - 1] == after[|after| - 1];
      assert t[|t| - 1] == s[|s| - 1];
      SplitSpacesNonEmpty(t);
      assert SplitSpaces(s) == [s[..i]] + SplitSpaces(t);
    }
  }

  /** A string without white space is one piece. */
  lemma SplitSpacesNone(s: string)
    requires forall k :: 0 <= k < |s| ==> !IsSpace(s[k])
    ensures SplitSpaces(s) == [s]
  {
  }
}
