/**
  `profileFolderId`: the name of the folder that holds a profile's own
  manifest, derived from the profile's UUID. The hex digits of the UUID,
  padded with `000`, are read five at a time; each group of five becomes
  four base-32 digits; the first 26 digits are upper-cased, `V` becomes `W`
  and then `U` becomes `V`, and a final `Z` closes the name.
 */
module ProfileIds {
  import opened Strings
  import opened Arithmetic

  // ---------------------------------------------------------------- hex and base-32 digits

  predicate IsHex(s: string) { forall i :: 0 <= i < |s| ==> IsHexDigit(s[i]) }

  /** The form `uuidv4` produces: digits and lower-case `a`–`f`. */
  predicate IsLowerHex(s: string) { forall i :: 0 <= i < |s| ==> IsDigit(s[i]) || 'a' <= s[i] <= 'f' }

  /** What `uuidv4` produces, with its dashes removed: 32 lower-case hex digits. */
  predicate IsUuid(s: string) {
    |RemoveAll(s, Dash)| == 32 && IsLowerHex(RemoveAll(s, Dash))
  }

  lemma LowerHexIsHex(s: string)
    requires IsLowerHex(s)
    ensures IsHex(s)
  {
  }

  function HexValue(c: char): (v: nat)
    requires IsHexDigit(c)
    ensures v < 16
  {
    if IsDigit(c) then c as int - '0' as int
    else if 'a' <= c <= 'f' then c as int - 'a' as int + 10
    else c as int - 'A' as int + 10
  }

  /** `parseInt(s, 16)` on a string of hex digits. */
  function ParseHex(s: string): nat
    requires IsHex(s)
    decreases |s|
  {
    if s == [] then 0 else ParseHex(s[..|s| - 1]) * 16 + HexValue(s[|s| - 1])
  }

  /** The digit characters of `Number.prototype.toString(32)`: `0`–`9`, then `a`–`v`. */
  function Base32Digit(d: nat): char
    requires d < 32
  {
    if d < 10 then DigitChar(d) else ('a' as int + d - 10) as char
  }

  /** `v.toString(32)`: the base-32 digits of `v`, without leading zeros. */
  function ToBase32(v: nat): string
    decreases v
  {
    if v < 32 then [Base32Digit(v)] else ToBase32(v / 32) + [Base32Digit(v % 32)]
  }

  // ---------------------------------------------------------------- profileFolderId

  /**
    `(s.match(/.{5}/g) || []).map(g => parseInt(g, 16).toString(32).padStart(4, '0')).join('')`:
    every complete group of five hex digits, as padded base-32 text; a
    shorter tail is dropped.
   */
  function EncodeGroups(s: string): string
    requires IsHex(s)
    decreases |s|
  {
    if |s| < 5 then [] else GroupToBase32(s[..5]) + EncodeGroups(s[5..])
  }

  /** `parseInt(g, 16).toString(32).padStart(4, '0')`: one group in base 32. */
  function GroupToBase32(g: string): string
    requires IsHex(g)
  {
    PadStart(ToBase32(ParseHex(g)), 4, '0')
  }

  /** `c.toUpperCase()`, then `V` to `W`, then `U` to `V`. */
  function RemapChar(c: char): char {
    var u := UpperChar(c);
    var w := if u == 'V' then 'W' else u;
    if w == 'U' then 'V' else w
  }

  /** `.toUpperCase().replace(/V/g, 'W').replace(/U/g, 'V')`. */
  function Remap(s: string): (r: string)
    ensures |r| == |s| && forall i :: 0 <= i < |s| ==> r[i] == RemapChar(s[i])
  {
    ReplaceChar(ReplaceChar(Upper(s), 'V', 'W'), 'U', 'V')
  }

  /** `profileFolderId`: the folder name derived from a profile UUID. */
  function ProfileFolderId(profileId: string): (id: string)
    requires IsHex(RemoveAll(profileId, Dash))
    ensures |id| >= 1 && id[|id| - 1] == 'Z'
    ensures forall i :: 0 <= i < |id| ==> id[i] != 'U'
  {
    var hex := RemoveAll(profileId, Dash) + "000";
    var digits := EncodeGroups(hex);
    Remap(digits[..if |digits| < 26 then |digits| else 26]) + "Z"
  }

  // ---------------------------------------------------------------- the alphabet of folder ids

  /** The characters a folder id is written in before its final `Z`: `0`–`9`, `A`–`T`, `V` and `W`. */
  predicate IsFolderChar(c: char) { IsDigit(c) || 'A' <= c <= 'T' || c == 'V' || c == 'W' }

  /** The base-32 digit a folder-id character stands for. */
  function FolderDigit(c: char): (d: nat)
    requires IsFolderChar(c)
    ensures d < 32
  {
    if IsDigit(c) then c as int - '0' as int
    else if 'A' <= c <= 'T' then c as int - 'A' as int + 10
    else if c == 'V' then 30
    else 31
  }

  /** Every base-32 digit turns into a folder-id character that reads back as the same digit. */
  lemma RemapDigit(d: nat)
    requires d < 32
    ensures IsFolderChar(RemapChar(Base32Digit(d))) && FolderDigit(RemapChar(Base32Digit(d))) == d
  {
  }

  /** The four base-32 digits of a number below `32^4`, most significant first. */
  function Quad(v: nat): string
    requires v < 0x10_0000
  {
    [Base32Digit(v / 32 / 32 / 32), Base32Digit(v / 32 / 32 % 32), Base32Digit(v / 32 % 32), Base32Digit(v % 32)]
  }

  /** A number below `32^4` has at most four base-32 digits, so padding to four writes exactly `Quad`. */
  lemma PadQuad(v: nat)
    requires v < 0x10_0000
    ensures PadStart(ToBase32(v), 4, '0') == Quad(v)
  {
    if v < 32 {
      PadQuadOne(v);
    } else if v / 32 < 32 {
      PadQuadTwo(v);
    } else if v / 32 / 32 < 32 {
      PadQuadThree(v);
    } else {
      PadQuadFour(v);
    }
  }

  lemma PadQuadOne(v: nat)
    requires v < 32
    ensures PadStart(ToBase32(v), 4, '0') == Quad(v)
  {
    assert v / 32 == 0 && v % 32 == v;
  }

  lemma PadQuadTwo(v: nat)
    requires 32 <= v && v / 32 < 32
    ensures PadStart(ToBase32(v), 4, '0') == Quad(v)
  {
    var a := v / 32;
    assert a / 32 == 0 && a % 32 == a;
    assert ToBase32(v) == [Base32Digit(a)] + [Base32Digit(v % 32)];
  }

  lemma PadQuadThree(v: nat)
    requires 32 <= v / 32 && v / 32 / 32 < 32
    ensures PadStart(ToBase32(v), 4, '0') == Quad(v)
  {
    var a := v / 32;
    var b := a / 32;
    assert b / 32 == 0 && b % 32 == b;
    assert ToBase32(a) == [Base32Digit(b)] + [Base32Digit(a % 32)];
    assert ToBase32(v) == [Base32Digit(b)] + [Base32Digit(a % 32)] + [Base32Digit(v % 32)];
  }

  lemma PadQuadFour(v: nat)
    requires v < 0x10_0000 && 32 <= v / 32 / 32
    ensures PadStart(ToBase32(v), 4, '0') == Quad(v)
  {
    var a := v / 32;
    var b := a / 32;
    var c := b / 32;
    assert a < 0x8000 && b < 0x400 && c < 32;
    assert ToBase32(b) == [Base32Digit(c)] + [Base32Digit(b % 32)];
    assert ToBase32(a) == ToBase32(b) + [Base32Digit(a % 32)];
    assert ToBase32(v) == ToBase32(a) + [Base32Digit(v % 32)];
    assert ToBase32(v) == [Base32Digit(c), Base32Digit(b % 32), Base32Digit(a % 32), Base32Digit(v % 32)];
  }

  /** The value five hex digits spell. */
  lemma ParseHexFive(s: string)
    requires |s| == 5 && IsHex(s)
    ensures ParseHex(s) == HexValue(s[0]) * 65536 + HexValue(s[1]) * 4096 + HexValue(s[2]) * 256
      + HexValue(s[3]) * 16 + HexValue(s[4])
  {
    assert s[..1][..0] == [];
    assert ParseHex(s[..1]) == HexValue(s[0]);
    assert s[..2][..1] == s[..1];
    assert ParseHex(s[..2]) == ParseHex(s[..1]) * 16 + HexValue(s[1]);
    assert s[..3][..2] == s[..2];
    assert ParseHex(s[..3]) == ParseHex(s[..2]) * 16 + HexValue(s[2]);
    assert s[..4][..3] == s[..3];
    assert ParseHex(s[..4]) == ParseHex(s[..3]) * 16 + HexValue(s[3]);
  }

  // ---------------------------------------------------------------- reading a folder id back

  function LowerHexChar(h: nat): char
    requires h < 16
  {
    if h < 10 then DigitChar(h) else ('a' as int + h - 10) as char
  }

  /** Five lower-case hex digits of a number below `16^5`. */
  function HexFive(v: nat): string
    requires v < 0x10_0000
  {
    [LowerHexChar(v / 65536), LowerHexChar(v / 4096 % 16), LowerHexChar(v / 256 % 16),
     LowerHexChar(v / 16 % 16), LowerHexChar(v % 16)]
  }

  predicate AllFolderChars(s: string) { forall i :: 0 <= i < |s| ==> IsFolderChar(s[i]) }

  function QuadValue(q: string): (v: nat)
    requires |q| == 4 && AllFolderChars(q)
    ensures v < 0x10_0000
  {
    FolderDigit(q[0]) * 32768 + FolderDigit(q[1]) * 1024 + FolderDigit(q[2]) * 32 + FolderDigit(q[3])
  }

  /** Each four folder-id characters back to the five hex digits they encode. */
  function DecodeQuads(s: string): string
    requires |s| % 4 == 0 && AllFolderChars(s)
    decreases |s|
  {
    if s == [] then [] else DecodeGroup(s[..4]) + DecodeQuads(s[4..])
  }

  /** Four folder-id characters back to the five hex digits of their value. */
  function DecodeGroup(q: string): string
    requires |q| == 4 && AllFolderChars(q)
  {
    HexFive(QuadValue(q))
  }

  /**
    The 32 hex digits a folder id was made from: six complete groups, then
    the last group, of which only its first two base-32 digits were kept.
   */
  function DecodeFolderId(id: string): string
    requires |id| >= 26 && AllFolderChars(id[..26])
  {
    DecodeQuads(id[..24]) + DecodeLastPair(id[24], id[25])
  }

  /** The two hex digits held by the top ten bits of the last group. */
  function DecodeLastPair(c0: char, c1: char): string
    requires IsFolderChar(c0) && IsFolderChar(c1)
  {
    var w := FolderDigit(c0) * 32 + FolderDigit(c1);
    [LowerHexChar(w / 64), LowerHexChar(w / 4 % 16)]
  }

  // ---------------------------------------------------------------- round trip

  lemma LowerHexRoundTrip(c: char)
    requires IsDigit(c) || 'a' <= c <= 'f'
    ensures LowerHexChar(HexValue(c)) == c
  {
  }

  /** Writing out the value of five hex digits gives those digits. */
  lemma HexFiveOf(h0: nat, h1: nat, h2: nat, h3: nat, h4: nat)
    requires h0 < 16 && h1 < 16 && h2 < 16 && h3 < 16 && h4 < 16
    ensures h0 * 65536 + h1 * 4096 + h2 * 256 + h3 * 16 + h4 < 0x10_0000
    ensures HexFive(h0 * 65536 + h1 * 4096 + h2 * 256 + h3 * 16 + h4)
      == [LowerHexChar(h0), LowerHexChar(h1), LowerHexChar(h2), LowerHexChar(h3), LowerHexChar(h4)]
  {
    var v := h0 * 65536 + h1 * 4096 + h2 * 256 + h3 * 16 + h4;
    DivUnique(v, 65536, h0, h1 * 4096 + h2 * 256 + h3 * 16 + h4);
    DivUnique(v, 4096, h0 * 16 + h1, h2 * 256 + h3 * 16 + h4);
    DivUnique(h0 * 16 + h1, 16, h0, h1);
    DivUnique(v, 256, h0 * 256 + h1 * 16 + h2, h3 * 16 + h4);
    DivUnique(h0 * 256 + h1 * 16 + h2, 16, h0 * 16 + h1, h2);
    DivUnique(v, 16, h0 * 4096 + h1 * 256 + h2 * 16 + h3, h4);
    DivUnique(h0 * 4096 + h1 * 256 + h2 * 16 + h3, 16, h0 * 256 + h1 * 16 + h2, h3);
  }

  /** Five lower-case hex digits survive being read as a number and written back. */
  lemma HexFiveParse(s: string)
    requires |s| == 5 && IsLowerHex(s)
    ensures ParseHex(s) < 0x10_0000 && HexFive(ParseHex(s)) == s
  {
    ParseHexFive(s);
    HexFiveOf(HexValue(s[0]), HexValue(s[1]), HexValue(s[2]), HexValue(s[3]), HexValue(s[4]));
    LowerHexRoundTrip(s[0]);
    LowerHexRoundTrip(s[1]);
    LowerHexRoundTrip(s[2]);
    LowerHexRoundTrip(s[3]);
    LowerHexRoundTrip(s[4]);
  }

  /** The four folder-id characters of a group read back as the group's value. */
  lemma QuadRoundTrip(v: nat)
    requires v < 0x10_0000
    ensures |Remap(Quad(v))| == 4 && AllFolderChars(Remap(Quad(v))) && QuadValue(Remap(Quad(v))) == v
  {
    var a := v / 32;
    var b := a / 32;
    RemapDigit(b / 32);
    RemapDigit(b % 32);
    RemapDigit(a % 32);
    RemapDigit(v % 32);
    assert v == ((b / 32 * 32 + b % 32) * 32 + a % 32) * 32 + v % 32;
  }

  lemma RemapAppend(a: string, b: string)
    ensures Remap(a + b) == Remap(a) + Remap(b)
  {
  }

  /** Encoding splits at a group boundary. */
  lemma {:induction false} EncodeAppend(a: string, b: string)
    requires IsHex(a) && IsHex(b) && |a| % 5 == 0
    ensures IsHex(a + b) && EncodeGroups(a + b) == EncodeGroups(a) + EncodeGroups(b)
    decreases |a|
  {
    if a == [] {
      assert a + b == b;
    } else {
      assert |a| >= 5 && (|a| - 5) % 5 == 0;
      assert (a + b)[..5] == a[..5] && (a + b)[5..] == a[5..] + b;
      assert IsHex(a[5..]);
      EncodeAppend(a[5..], b);
    }
  }

  /** One group of lower-case hex digits survives encoding and decoding. */
  lemma GroupRoundTrip(g: string)
    requires |g| == 5 && IsLowerHex(g)
    ensures IsHex(g) && |Remap(GroupToBase32(g))| == 4 && AllFolderChars(Remap(GroupToBase32(g)))
    ensures DecodeGroup(Remap(GroupToBase32(g))) == g
  {
    HexFiveParse(g);
    var v := ParseHex(g);
    PadQuad(v);
    QuadRoundTrip(v);
  }

  /** One group off the front of the decoding. */
  lemma DecodeFront(q: string, rest: string)
    requires |q| == 4 && AllFolderChars(q) && |rest| % 4 == 0 && AllFolderChars(rest)
    ensures |q + rest| % 4 == 0 && AllFolderChars(q + rest)
    ensures DecodeQuads(q + rest) == DecodeGroup(q) + DecodeQuads(rest)
  {
    var all := q + rest;
    assert all[..4] == q && all[4..] == rest;
  }

  /** Complete groups of lower-case hex digits decode back from their folder-id characters. */
  lemma {:induction false} DecodeEncode(s: string)
    requires |s| % 5 == 0 && IsLowerHex(s)
    ensures IsHex(s) && |EncodeGroups(s)| * 5 == |s| * 4
    ensures |Remap(EncodeGroups(s))| % 4 == 0 && AllFolderChars(Remap(EncodeGroups(s)))
    ensures DecodeQuads(Remap(EncodeGroups(s))) == s
    decreases |s|
  {
    if s != [] {
      assert |s| >= 5 && (|s| - 5) % 5 == 0;
      var head, tail := s[..5], s[5..];
      assert IsLowerHex(head) && IsLowerHex(tail);
      DecodeEncode(tail);
      GroupRoundTrip(head);
      var rest := EncodeGroups(tail);
      RemapAppend(GroupToBase32(head), rest);
      DecodeFront(Remap(GroupToBase32(head)), Remap(rest));
      assert s == head + tail;
    }
  }

  /** The first two base-32 digits of `n * 4096`, for `n` below 256. */
  lemma LastQuad(n: nat)
    requires n < 256
    ensures n * 4096 < 0x10_0000
    ensures Quad(n * 4096)[0] == Base32Digit(n * 4 / 32) && Quad(n * 4096)[1] == Base32Digit(n * 4 % 32)
  {
    DivUnique(n * 4096, 32, n * 128, 0);
    DivUnique(n * 128, 32, n * 4, 0);
  }

  /** The top ten bits of `n * 4096` give back the two hex digits of `n`. */
  lemma PairDecode(n: nat)
    requires n < 256
    ensures IsFolderChar(RemapChar(Base32Digit(n * 4 / 32))) && IsFolderChar(RemapChar(Base32Digit(n * 4 % 32)))
    ensures DecodeLastPair(RemapChar(Base32Digit(n * 4 / 32)), RemapChar(Base32Digit(n * 4 % 32)))
      == [LowerHexChar(n / 16), LowerHexChar(n % 16)]
  {
    RemapDigit(n * 4 / 32);
    RemapDigit(n * 4 % 32);
    var w := n * 4 / 32 * 32 + n * 4 % 32;
    assert w == n * 4;
    DivUnique(w, 64, n / 16, n % 16 * 4);
    DivUnique(w, 4, n, 0);
  }

  /** The last group: two hex digits and the `000` padding; its first two base-32 digits keep both hex digits. */
  lemma LastGroup(x: char, y: char)
    requires IsDigit(x) || 'a' <= x <= 'f'
    requires IsDigit(y) || 'a' <= y <= 'f'
    ensures IsHex([x, y, '0', '0', '0']) && |GroupToBase32([x, y, '0', '0', '0'])| == 4
    ensures var q := GroupToBase32([x, y, '0', '0', '0']);
      IsFolderChar(RemapChar(q[0])) && IsFolderChar(RemapChar(q[1])) &&
      DecodeLastPair(RemapChar(q[0]), RemapChar(q[1])) == [x, y]
  {
    var g := [x, y, '0', '0', '0'];
    ParseHexFive(g);
    var hx, hy := HexValue(x), HexValue(y);
    var n := hx * 16 + hy;
    assert ParseHex(g) == n * 4096;
    LastQuad(n);
    PadQuad(n * 4096);
    PairDecode(n);
    DivUnique(n, 16, hx, hy);
    LowerHexRoundTrip(x);
    LowerHexRoundTrip(y);
  }

  /** 32 hex digits padded with `000` encode as six complete groups and the last one. */
  lemma PaddedEncoding(h: string)
    requires |h| == 32 && IsLowerHex(h)
    ensures IsHex(h + "000") && IsHex(h[..30]) && IsHex([h[30], h[31], '0', '0', '0'])
    ensures |EncodeGroups(h[..30])| == 24 && |GroupToBase32([h[30], h[31], '0', '0', '0'])| == 4
    ensures EncodeGroups(h + "000") == EncodeGroups(h[..30]) + GroupToBase32([h[30], h[31], '0', '0', '0'])
  {
    var head, last := h[..30], [h[30], h[31], '0', '0', '0'];
    assert h + "000" == head + last;
    assert IsLowerHex(head);
    DecodeEncode(head);
    LastGroup(h[30], h[31]);
    EncodeAppend(head, last);
    assert last[..5] == last && last[5..] == [];
  }

  /** Cutting 28 base-32 digits to 26 keeps the first 24 and two of the last four. */
  lemma CutLayout(e: string, q: string)
    requires |e| == 24 && |q| == 4
    ensures var id := Remap((e + q)[..26]) + "Z";
      |id| == 27 && id[..24] == Remap(e) && id[24] == RemapChar(q[0]) && id[25] == RemapChar(q[1])
  {
    var id := Remap((e + q)[..26]) + "Z";
    assert id[..24] == Remap(e);
  }

  /** Where the pieces of the encoding sit in a folder id made from 32 hex digits. */
  lemma FolderIdLayout(profileId: string)
    requires |RemoveAll(profileId, Dash)| == 32 && IsLowerHex(RemoveAll(profileId, Dash))
    ensures IsHex(RemoveAll(profileId, Dash))
    ensures var h := RemoveAll(profileId, Dash);
      var id := ProfileFolderId(profileId);
      var q := GroupToBase32([h[30], h[31], '0', '0', '0']);
      IsHex(h[..30]) && IsHex([h[30], h[31], '0', '0', '0']) && |EncodeGroups(h[..30])| == 24 && |q| == 4 &&
      |id| == 27 && id[..24] == Remap(EncodeGroups(h[..30])) && id[24] == RemapChar(q[0]) && id[25] == RemapChar(q[1])
  {
    var h := RemoveAll(profileId, Dash);
    PaddedEncoding(h);
    var e, q := EncodeGroups(h[..30]), GroupToBase32([h[30], h[31], '0', '0', '0']);
    CutLayout(e, q);
    assert ProfileFolderId(profileId) == Remap((e + q)[..26]) + "Z";
  }

  /** A folder id whose pieces are known decodes to the hex digits they came from. */
  lemma DecodeParts(id: string, head: string, x: char, y: char)
    requires |id| == 27 && |head| == 30 && IsLowerHex(head) && IsHex(head)
    requires id[..24] == Remap(EncodeGroups(head))
    requires IsFolderChar(id[24]) && IsFolderChar(id[25]) && DecodeLastPair(id[24], id[25]) == [x, y]
    ensures AllFolderChars(id[..26]) && DecodeFolderId(id) == head + [x, y]
  {
    DecodeEncode(head);
    var first := id[..26];
    assert first == id[..24] + [id[24], id[25]];
    assert first[..24] == id[..24];
  }

  /**
    For a UUID of 32 lower-case hex digits the folder id is 27 characters:
    26 from the alphabet `0`–`9`, `A`–`T`, `V`, `W`, then `Z`; and the hex
    digits can be read back from it. The two base-32 digits the cut drops
    only ever encode the `000` padding.
   */
  lemma FolderIdRoundTrip(profileId: string)
    requires |RemoveAll(profileId, Dash)| == 32 && IsLowerHex(RemoveAll(profileId, Dash))
    ensures IsHex(RemoveAll(profileId, Dash))
    ensures var id := ProfileFolderId(profileId);
      |id| == 27 && id[26] == 'Z' && AllFolderChars(id[..26]) && DecodeFolderId(id) == RemoveAll(profileId, Dash)
  {
    var h := RemoveAll(profileId, Dash);
    FolderIdLayout(profileId);
    LastGroup(h[30], h[31]);
    assert IsLowerHex(h[..30]);
    DecodeParts(ProfileFolderId(profileId), h[..30], h[30], h[31]);
    assert h == h[..30] + [h[30], h[31]];
  }

  /** Different UUIDs (as their 32 lower-case hex digits) never share a folder id. */
  lemma FolderIdInjective(a: string, b: string)
    requires |RemoveAll(a, Dash)| == 32 && IsLowerHex(RemoveAll(a, Dash))
    requires |RemoveAll(b, Dash)| == 32 && IsLowerHex(RemoveAll(b, Dash))
    requires IsHex(RemoveAll(a, Dash)) && IsHex(RemoveAll(b, Dash))
    requires ProfileFolderId(a) == ProfileFolderId(b)
    ensures RemoveAll(a, Dash) == RemoveAll(b, Dash)
  {
    FolderIdRoundTrip(a);
    FolderIdRoundTrip(b);
  }
}
