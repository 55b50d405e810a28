/** Bounding a caller-supplied text for the audit log (truncate in core/audit/audit.go), on
    bytes. Well-formed text is that of section 4 of RFC 3629. */
module AuditText {
  import Text

  type byte = x: int | 0 <= x < 256

  predicate Tail(b: byte) { 0x80 <= b <= 0xBF }

  predicate Second3(a: byte, b: byte) {
    if a == 0xE0 then 0xA0 <= b <= 0xBF else if a == 0xED then 0x80 <= b <= 0x9F else Tail(b)
  }

  predicate Second4(a: byte, b: byte) {
    if a == 0xF0 then 0x90 <= b <= 0xBF else if a == 0xF4 then 0x80 <= b <= 0x8F else Tail(b)
  }

  /** The length of the character `s` begins with, 0 if it begins with none. */
  function RuneLen(s: seq<byte>): (n: nat)
    ensures n <= |s| && n <= 4
  {
    if s == [] then 0
    else if s[0] <= 0x7F then 1
    else if 0xC2 <= s[0] <= 0xDF then if |s| >= 2 && Tail(s[1]) then 2 else 0
    else if 0xE0 <= s[0] <= 0xEF then if |s| >= 3 && Second3(s[0], s[1]) && Tail(s[2]) then 3 else 0
    else if 0xF0 <= s[0] <= 0xF4 then if |s| >= 4 && Second4(s[0], s[1]) && Tail(s[2]) && Tail(s[3]) then 4 else 0
    else 0
  }

  /** Well-formed text: characters and nothing else. */
  predicate Valid(s: seq<byte>)
    decreases |s|
  {
    s == [] || (RuneLen(s) > 0 && Valid(s[RuneLen(s)..]))
  }

  const REPLACEMENT: seq<byte> := [0xEF, 0xBF, 0xBD]
  const ELLIPSIS: seq<byte> := [0xE2, 0x80, 0xA6]

  /** strings.ToValidUTF8: each run of bytes that are no part of a character becomes one
      replacement character. */
  function Repair(s: seq<byte>, inRun: bool): seq<byte>
    decreases |s|
  {
    var n := RuneLen(s);
    if s == [] then []
    else if n == 0 then (if inRun then [] else REPLACEMENT) + Repair(s[1..], true)
    else s[..n] + Repair(s[n..], false)
  }

  /** The characters of a text, passing over bytes that belong to none. */
  function Runes(s: seq<byte>): seq<seq<byte>>
    decreases |s|
  {
    var n := RuneLen(s);
    if s == [] then [] else if n == 0 then Runes(s[1..]) else [s[..n]] + Runes(s[n..])
  }

  /** Without the replacement characters. */
  function Plain(rs: seq<seq<byte>>): seq<seq<byte>> {
    if rs == [] then [] else (if rs[0] == REPLACEMENT then [] else [rs[0]]) + Plain(rs[1..])
  }

  // ----------------------------------------------------------------- characters

  /** A character is decided by its own bytes, whatever follows. */
  lemma RuneStands(s: seq<byte>, rest: seq<byte>)
    requires RuneLen(s) > 0
    ensures RuneLen(s[..RuneLen(s)] + rest) == RuneLen(s)
  {
  }

  /** No proper beginning of a character is a character. */
  lemma NoHalfRune(s: seq<byte>, j: nat)
    requires j < RuneLen(s)
    ensures RuneLen(s[..j]) == 0
  {
  }

  lemma {:induction false} ValidConcat(a: seq<byte>, b: seq<byte>)
    requires Valid(a) && Valid(b)
    ensures Valid(a + b)
    decreases |a|
  {
    hide RuneLen;
    if a == [] {
      assert a + b == b;
    } else {
      var n := RuneLen(a);
      var rest := a[n..];
      ValidConcat(rest, b);
      assert a + b == a[..n] + (rest + b);
      RuneStands(a, rest + b);
      assert (a + b)[n..] == rest + b;
    }
  }

  lemma {:induction false} ValidRest(a: seq<byte>, b: seq<byte>)
    requires Valid(a) && Valid(a + b)
    ensures Valid(b)
    decreases |a|
  {
    hide RuneLen;
    if a == [] {
      assert a + b == b;
    } else {
      var n := RuneLen(a);
      assert a + b == a[..n] + (a[n..] + b);
      RuneStands(a, a[n..] + b);
      assert (a + b)[n..] == a[n..] + b;
      ValidRest(a[n..], b);
    }
  }

  // ------------------------------------------------------------------------ repair

  lemma OneRune(s: seq<byte>)
    requires s != [] && RuneLen(s) == |s|
    ensures Valid(s)
  {
    assert s[|s|..] == [];
  }

  lemma {:induction false} RepairValid(s: seq<byte>, inRun: bool)
    ensures Valid(Repair(s, inRun))
    decreases |s|
  {
    var n := RuneLen(s);
    if s == [] {
    } else if n == 0 {
      RepairValid(s[1..], true);
      OneRune(REPLACEMENT);
      if !inRun {
        ValidConcat(REPLACEMENT, Repair(s[1..], true));
      } else {
        assert [] + Repair(s[1..], true) == Repair(s[1..], true);
      }
    } else {
      RepairValid(s[n..], false);
      assert s[..n] + [] == s[..n];
      RuneStands(s, []);
      OneRune(s[..n]);
      ValidConcat(s[..n], Repair(s[n..], false));
    }
  }

  lemma {:induction false} RepairKeepsValid(s: seq<byte>, inRun: bool)
    requires Valid(s)
    ensures Repair(s, inRun) == s
    decreases |s|
  {
    if s != [] {
      var n := RuneLen(s);
      RepairKeepsValid(s[n..], false);
      assert s[..n] + s[n..] == s;
    }
  }

  lemma RunesOf(s: seq<byte>, rest: seq<byte>)
    requires RuneLen(s) > 0
    ensures Runes(s[..RuneLen(s)] + rest) == [s[..RuneLen(s)]] + Runes(rest)
  {
    var n := RuneLen(s);
    RuneStands(s, rest);
    var t := s[..n] + rest;
    assert t[..n] == s[..n] && t[n..] == rest;
  }

  /** Repair loses no character and invents none but the replacement. */
  lemma {:induction false} RepairKeepsRunes(s: seq<byte>, inRun: bool)
    ensures Plain(Runes(Repair(s, inRun))) == Plain(Runes(s))
    decreases |s|
  {
    var n := RuneLen(s);
    if s == [] {
    } else if n == 0 {
      assert RuneLen(REPLACEMENT) == 3 && REPLACEMENT[..3] == REPLACEMENT;
      hide RuneLen;
      var rest := Repair(s[1..], true);
      RepairKeepsRunes(s[1..], true);
      if inRun {
        assert [] + rest == rest;
      } else {
        RunesOf(REPLACEMENT, rest);
        assert ([REPLACEMENT] + Runes(rest))[1..] == Runes(rest);
      }
    } else {
      hide RuneLen;
      var rest := Repair(s[n..], false);
      RepairKeepsRunes(s[n..], false);
      RunesOf(s, rest);
      assert s == s[..n] + s[n..];
      assert ([s[..n]] + Runes(rest))[1..] == Runes(rest);
      assert ([s[..n]] + Runes(s[n..]))[1..] == Runes(s[n..]);
    }
  }

  /** In well-formed text nothing changes up to the next byte that belongs to no character. */
  lemma {:induction false} RepairAfter(a: seq<byte>, s: seq<byte>)
    requires Valid(a) && a != []
    ensures forall inRun :: Repair(a + s, inRun) == a + Repair(s, false)
    decreases |a|
  {
    hide RuneLen;
    var n := RuneLen(a);
    var rest := a[n..];
    assert a + s == a[..n] + (rest + s);
    RuneStands(a, rest + s);
    assert (a + s)[..n] == a[..n] && (a + s)[n..] == rest + s;
    if rest == [] {
      assert rest + s == s && a[..n] == a;
    } else {
      RepairAfter(rest, s);
      assert a[..n] + (rest + Repair(s, false)) == a + Repair(s, false);
    }
  }

  /** The first k bytes belong to no character, and a character or the end follows. */
  ghost predicate Junk(s: seq<byte>, k: nat) {
    && 1 <= k <= |s| && (forall i :: 0 <= i < k ==> RuneLen(s[i..]) == 0)
    && (k < |s| ==> RuneLen(s[k..]) > 0)
  }

  lemma {:induction false} RunEnds(s: seq<byte>, k: nat)
    requires Junk(s, k)
    ensures Repair(s, true) == Repair(s[k..], false)
    ensures Repair(s, false) == REPLACEMENT + Repair(s[k..], false)
    decreases k
  {
    hide RuneLen;
    assert s[0..] == s;
    var t := s[1..];
    if k > 1 {
      forall i | 0 <= i < k - 1 ensures RuneLen(t[i..]) == 0 {
        assert t[i..] == s[i + 1..];
      }
      assert t[k - 1..] == s[k..];
      RunEnds(t, k - 1);
    }
  }

  /** Every longest run of bytes that belong to no character, after well-formed text and
      before a character or the end, becomes exactly one replacement character. */
  lemma RepairRun(a: seq<byte>, s: seq<byte>, k: nat)
    requires Valid(a) && Junk(s, k)
    ensures Repair(a + s, false) == a + REPLACEMENT + Repair(s[k..], false)
  {
    RunEnds(s, k);
    if a == [] {
      assert a + s == s;
    } else {
      RepairAfter(a, s);
    }
  }

  // -------------------------------------------------------------- the encoding of text

  /** The bytes of one character by its number, section 3 of RFC 3629. */
  function Encode(c: char): (b: seq<byte>) {
    var v := c as int;
    if v < 0x80 then [v]
    else if v < 0x800 then [0xC0 + v / 64, 0x80 + v % 64]
    else if v < 0x10000 then [0xE0 + v / 4096, 0x80 + v / 64 % 64, 0x80 + v % 64]
    else [0xF0 + v / 262144, 0x80 + v / 4096 % 64, 0x80 + v / 64 % 64, 0x80 + v % 64]
  }

  function Utf8(t: string): seq<byte> {
    if t == "" then [] else Encode(t[0]) + Utf8(t[1..])
  }

  /** What a byte adds to a character's number. */
  function Bits(b: byte, mark: byte): int { b as int - mark as int }

  /** The number of the character the bytes begin with. */
  function Number(s: seq<byte>): int
    requires RuneLen(s) > 0
  {
    match RuneLen(s)
    case 1 => s[0]
    case 2 => 64 * Bits(s[0], 0xC0) + Bits(s[1], 0x80)
    case 3 => 4096 * Bits(s[0], 0xE0) + 64 * Bits(s[1], 0x80) + Bits(s[2], 0x80)
    case _ => 262144 * Bits(s[0], 0xF0) + 4096 * Bits(s[1], 0x80) + 64 * Bits(s[2], 0x80) + Bits(s[3], 0x80)
  }

  predicate Scalar(v: int) { 0 <= v < 0xD800 || 0xE000 <= v < 0x11_0000 }

  /** The bytes of a character are one character, and what is read of them is its number. */
  lemma EncodeRune(c: char, rest: seq<byte>)
    ensures RuneLen(Encode(c) + rest) == |Encode(c)| > 0
  {
    var b, v := Encode(c), c as int;
    var s := b + rest;
    assert forall i :: 0 <= i < |b| ==> s[i] == b[i];
    if v < 0x80 {
      assert RuneLen(s) == 1;
    } else if v < 0x800 {
      assert 2 <= v / 64 <= 31;
      assert Tail(s[1]);
    } else if v < 0x10000 {
      assert Tail(s[2]) && Tail(s[1]) && 0 <= v / 4096 <= 15;
      assert v / 4096 == 0 ==> v / 64 % 64 >= 32;
      assert v / 4096 == 13 ==> v / 64 % 64 < 32;
    } else {
      assert Tail(s[3]) && Tail(s[2]) && Tail(s[1]) && 0 <= v / 262144 <= 4;
      assert v / 262144 == 0 ==> v / 4096 % 64 >= 16;
      assert v / 262144 == 4 ==> v / 4096 % 64 < 16;
    }
  }

  lemma Rune2(s: seq<byte>)
    requires RuneLen(s) == 2
    ensures 0x80 <= Number(s) < 0x800 && Encode(Number(s) as char) == s[..2]
  {
    var v, a, b := Number(s), Bits(s[0], 0xC0), Bits(s[1], 0x80);
    assert v / 64 == a && v % 64 == b;
  }

  lemma Rune3(s: seq<byte>)
    requires RuneLen(s) == 3
    ensures Scalar(Number(s)) && 0x800 <= Number(s) < 0x10000 && Encode(Number(s) as char) == s[..3]
  {
    var v, a, b, c := Number(s), Bits(s[0], 0xE0), Bits(s[1], 0x80), Bits(s[2], 0x80);
    assert v / 64 == 64 * a + b && v % 64 == c;
    assert v / 4096 == a;
  }

  lemma Rune4(s: seq<byte>)
    requires RuneLen(s) == 4
    ensures Scalar(Number(s)) && 0x10000 <= Number(s) && Encode(Number(s) as char) == s[..4]
  {
    var v, a, b, c, d := Number(s), Bits(s[0], 0xF0), Bits(s[1], 0x80), Bits(s[2], 0x80), Bits(s[3], 0x80);
    assert v / 64 == 4096 * a + 64 * b + c && v % 64 == d;
    assert v / 4096 == 64 * a + b && v / 262144 == a;
  }

  lemma RuneEncoded(s: seq<byte>) returns (c: char)
    requires RuneLen(s) > 0
    ensures Encode(c) == s[..RuneLen(s)]
  {
    if RuneLen(s) == 2 {
      Rune2(s);
    } else if RuneLen(s) == 3 {
      Rune3(s);
    } else if RuneLen(s) == 4 {
      Rune4(s);
    }
    c := Number(s) as char;
  }

  lemma {:induction false} Utf8Valid(t: string)
    ensures Valid(Utf8(t))
  {
    if t != "" {
      Utf8Valid(t[1..]);
      EncodeRune(t[0], Utf8(t[1..]));
      hide Encode; hide RuneLen;
      assert (Encode(t[0]) + Utf8(t[1..]))[|Encode(t[0])|..] == Utf8(t[1..]);
    }
  }

  lemma Utf8Cons(c: char, rest: string)
    ensures Utf8([c] + rest) == Encode(c) + Utf8(rest)
  {
    hide Encode;
    assert ([c] + rest)[1..] == rest;
  }

  lemma ValidStep(s: seq<byte>)
    requires Valid(s) && s != []
    ensures 0 < RuneLen(s) <= |s| && Valid(s[RuneLen(s)..])
  {
    hide RuneLen;
  }

  lemma {:induction false} ValidUtf8(s: seq<byte>) returns (t: string)
    requires Valid(s)
    ensures Utf8(t) == s
    decreases |s|
  {
    hide Encode; hide RuneLen; hide Valid;
    t := "";
    if s != [] {
      hide Utf8;
      ValidStep(s);
      var c := RuneEncoded(s);
      var first, rest := s[..RuneLen(s)], s[RuneLen(s)..];
      t := ValidUtf8(rest);
      Utf8Cons(c, t);
      t := [c] + t;
      assert s == first + rest;
    }
  }

  /** Well-formed bytes are exactly the encodings of text. */
  lemma ValidIff(s: seq<byte>)
    ensures Valid(s) <==> exists t: string :: Utf8(t) == s
  {
    if Valid(s) {
      var t := ValidUtf8(s);
    }
    forall t: string | Utf8(t) == s ensures Valid(s) {
      Utf8Valid(t);
    }
  }

  /** The length that name, path and image limits are measured in is that of the encoding. */
  lemma {:induction false} ByteLenIs(t: string)
    ensures Text.ByteLen(t) == |Utf8(t)|
  {
    if t != "" {
      ByteLenIs(t[1..]);
    }
  }

  /** The two marks, by their numbers. */
  lemma Marks()
    ensures REPLACEMENT == Encode('\U{FFFD}') && ELLIPSIS == Encode('\U{2026}')
  {
  }

  // ---------------------------------------------------------------------- truncate

  /** The longest well-formed beginning of `t` within the budget. */
  ghost predicate Longest(t: seq<byte>, budget: int, cut: nat) {
    && cut <= |t| && cut <= budget && Valid(t[..cut])
    && forall j :: 0 <= j <= |t| && j <= budget && Valid(t[..j]) ==> j <= cut
  }

  /** Between two neighbouring starts of characters no cut is well-formed. */
  lemma NoCutInside(t: seq<byte>, i: nat, j: nat)
    requires i <= |t| && i < j < i + RuneLen(t[i..]) && Valid(t[..i])
    ensures !Valid(t[..j])
  {
    hide RuneLen;
    assert t[i..j] == t[i..][..j - i];
    NoHalfRune(t[i..], j - i);
    assert !Valid(t[i..j]);
    assert t[..j] == t[..i] + t[i..j];
    if Valid(t[..j]) {
      ValidRest(t[..i], t[i..j]);
    }
  }

  /** The loop over the starts of characters. */
  method CutAt(t: seq<byte>, budget: nat) returns (cut: nat)
    requires Valid(t) && |t| > budget
    ensures Longest(t, budget, cut)
  {
    hide RuneLen;
    cut := 0;
    var i := 0;
    assert t[0..] == t && t[..0] == [];
    while i < |t| && i <= budget
      invariant 0 <= i <= |t| && cut <= i && Valid(t[..i]) && Valid(t[i..])
      invariant cut <= budget && Valid(t[..cut])
      invariant forall j :: 0 <= j < i && Valid(t[..j]) ==> j <= cut
      decreases |t| - i
    {
      cut := i;
      var n := RuneLen(t[i..]);
      NextRune(t, i);
      forall j | 0 <= j < i + n && Valid(t[..j]) ensures j <= cut {
        if i < j {
          NoCutInside(t, i, j);
        }
      }
      i := i + n;
    }
  }

  lemma NextRune(t: seq<byte>, i: nat)
    requires i < |t| && Valid(t[..i]) && Valid(t[i..])
    ensures var n := RuneLen(t[i..]); n > 0 && i + n <= |t| && Valid(t[..i + n]) && Valid(t[i + n..])
  {
    hide RuneLen;
    var r := t[i..];
    var n := RuneLen(r);
    assert r[..n] + [] == r[..n];
    RuneStands(r, []);
    OneRune(r[..n]);
    ValidConcat(t[..i], r[..n]);
    assert t[..i + n] == t[..i] + r[..n];
    assert t[i + n..] == r[n..];
  }

  /** truncate: the result is well-formed and fits. A well-formed text that fits is
      unchanged; one that does not is its longest well-formed beginning that leaves room
      for the marker, and the marker, when the cap can hold it. */
  method Truncate(s: seq<byte>, cap: int) returns (r: seq<byte>)
    ensures Valid(r) && |r| <= (if cap <= 0 then 0 else cap)
    ensures Valid(s) && |s| <= cap ==> r == s
    ensures var t := Repair(s, false);
            && Valid(t)
            && (0 < cap && |t| <= cap ==> r == t)
            && (0 < cap < |t| ==>
                  var mark := if cap >= 3 then ELLIPSIS else [];
                  exists cut: nat :: Longest(t, cap - |mark|, cut) && r == t[..cut] + mark)
  {
    RepairValid(s, false);
    var t := s;
    if Valid(s) {
      RepairKeepsValid(s, false);
    } else {
      t := Repair(s, false);
    }
    if cap <= 0 {
      return [];
    }
    if |t| <= cap {
      return t;
    }
    var mark, budget := ELLIPSIS, cap - |ELLIPSIS|;
    if budget < 0 {
      mark, budget := [], cap;
    }
    var cut := CutAt(t, budget);
    assert Longest(t, budget, cut);
    OneRune(ELLIPSIS);
    ValidConcat(t[..cut], mark);
    r := t[..cut] + mark;
  }
}
