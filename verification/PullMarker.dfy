/** The marker reference that records which registry reference an application's pull
    created (agent/driver/driver.go). The reference is carried in the repository name as
    section 6 of RFC 4648 encodes it, lowercased and without padding. */
module PullMarker {
  import opened Common

  type octet = n: int | 0 <= n < 256

  // --------------------------------------------------------- bits, RFC 4648

  /** The low `w` bits of `n`, most significant first. */
  function ToBits(n: nat, w: nat): (bs: seq<bool>)
    ensures |bs| == w
  {
    if w == 0 then [] else ToBits(n / 2, w - 1) + [n % 2 == 1]
  }

  function FromBits(bs: seq<bool>): nat {
    if bs == [] then 0 else 2 * FromBits(bs[..|bs| - 1]) + if bs[|bs| - 1] then 1 else 0
  }

  function Pow2(w: nat): nat {
    if w == 0 then 1 else 2 * Pow2(w - 1)
  }

  lemma {:induction false} FromToBits(n: nat, w: nat)
    requires n < Pow2(w)
    ensures FromBits(ToBits(n, w)) == n
  {
    if w > 0 {
      FromToBits(n / 2, w - 1);
      var bs := ToBits(n, w);
      assert bs[..|bs| - 1] == ToBits(n / 2, w - 1);
    }
  }

  lemma {:induction false} ToFromBits(bs: seq<bool>)
    ensures FromBits(bs) < Pow2(|bs|) && ToBits(FromBits(bs), |bs|) == bs
  {
    if bs != [] {
      ToFromBits(bs[..|bs| - 1]);
      assert bs == bs[..|bs| - 1] + [bs[|bs| - 1]];
    }
  }

  /** The numbers written one after the other, `w` bits each. */
  function Unpack(w: nat, xs: seq<nat>): (bs: seq<bool>)
    ensures |bs| == w * |xs|
  {
    if xs == [] then [] else ToBits(xs[0], w) + Unpack(w, xs[1..])
  }

  /** The bits read `w` at a time; an incomplete last group is dropped. */
  function Pack(w: nat, bs: seq<bool>): seq<nat>
    requires w > 0
  {
    if |bs| < w then [] else [FromBits(bs[..w])] + Pack(w, bs[w..])
  }

  lemma {:induction false} PackLength(w: nat, bs: seq<bool>)
    requires w == 5 || w == 8
    ensures |Pack(w, bs)| == |bs| / w
    ensures forall i :: 0 <= i < |Pack(w, bs)| ==> Pack(w, bs)[i] < Pow2(w)
  {
    if |bs| >= w {
      PackLength(w, bs[w..]);
      ToFromBits(bs[..w]);
      DivStep(|bs|, w);
    }
  }

  lemma DivStep(n: nat, w: nat)
    requires n >= w && (w == 5 || w == 8)
    ensures n / w == (n - w) / w + 1
  {
    if w == 5 {
      assert n / 5 == (n - 5) / 5 + 1;
    }
  }

  lemma {:induction false} UnpackPack(w: nat, bs: seq<bool>)
    requires w == 5 && |bs| % w == 0
    ensures Unpack(w, Pack(w, bs)) == bs
  {
    if bs != [] {
      ModStep(|bs|, w);
      ToFromBits(bs[..w]);
      UnpackPack(w, bs[w..]);
      assert bs == bs[..w] + bs[w..];
      assert Pack(w, bs)[1..] == Pack(w, bs[w..]);
    }
  }

  lemma ModStep(n: nat, w: nat)
    requires w == 5 && n > 0 && n % w == 0
    ensures n >= w && (n - w) % w == 0
  {
  }

  lemma Front(first: seq<bool>, rest: seq<bool>, tail: seq<bool>)
    ensures (first + rest + tail)[..|first|] == first && (first + rest + tail)[|first|..] == rest + tail
  {
  }

  lemma FirstGroup(w: nat, xs: seq<nat>, tail: seq<bool>)
    requires xs != []
    ensures var bs := Unpack(w, xs) + tail;
            |bs| >= w && bs[..w] == ToBits(xs[0], w) && bs[w..] == Unpack(w, xs[1..]) + tail
  {
    var first, rest := ToBits(xs[0], w), Unpack(w, xs[1..]);
    assert Unpack(w, xs) == first + rest;
    hide *;
    Front(first, rest, tail);
  }

  lemma {:induction false} PackUnpack(w: nat, xs: seq<nat>, tail: seq<bool>)
    requires w > 0 && |tail| < w && forall i :: 0 <= i < |xs| ==> xs[i] < Pow2(w)
    ensures Pack(w, Unpack(w, xs) + tail) == xs
  {
    if xs != [] {
      FromToBits(xs[0], w);
      FirstGroup(w, xs, tail);
      hide Unpack; hide ToBits; hide FromBits; hide Pow2;
      PackUnpack(w, xs[1..], tail);
      assert xs == [xs[0]] + xs[1..];
    } else {
      assert Unpack(w, xs) + tail == tail;
    }
  }

  function Zeros(n: nat): (bs: seq<bool>)
    ensures |bs| == n
  {
    seq(n, _ => false)
  }

  /** Zero bits fill the last group of five. */
  function Padding(bits: nat): (n: nat)
    ensures n < 5 && (bits + n) % 5 == 0
  {
    (5 - bits % 5) % 5
  }

  /** The five-bit digits of the encoding. */
  function Digits(src: seq<octet>): seq<nat> {
    var bits := Unpack(8, src);
    Pack(5, bits + Zeros(Padding(|bits|)))
  }

  lemma DigitsAre5Bit(src: seq<octet>)
    ensures |Digits(src)| == (8 * |src| + 4) / 5
    ensures forall i :: 0 <= i < |Digits(src)| ==> Digits(src)[i] < 32
    ensures Unpack(5, Digits(src)) == Unpack(8, src) + Zeros(Padding(8 * |src|))
  {
    hide Pack; hide Unpack; hide FromBits; hide ToBits;
    var bits := Unpack(8, src) + Zeros(Padding(8 * |src|));
    PackLength(5, bits);
    UnpackPack(5, bits);
    assert Pow2(5) == 32;
    assert |bits| == 8 * |src| + Padding(8 * |src|);
  }

  /** The number written in base `b`, most significant first. */
  function Base(b: nat, xs: seq<nat>): nat {
    if xs == [] then 0 else b * Base(b, xs[..|xs| - 1]) + xs[|xs| - 1]
  }

  lemma {:induction false} FromBitsConcat(a: seq<bool>, b: seq<bool>)
    ensures FromBits(a + b) == FromBits(a) * Pow2(|b|) + FromBits(b)
  {
    if b == [] {
      assert a + b == a;
    } else {
      var init, last := b[..|b| - 1], b[|b| - 1];
      FromBitsConcat(a, init);
      assert (a + b)[..|a + b| - 1] == a + init && (a + b)[|a + b| - 1] == last;
      Doubled(FromBits(a), Pow2(|init|), FromBits(init));
    }
  }

  lemma Doubled(x: nat, p: nat, y: nat)
    ensures 2 * (x * p + y) == x * (2 * p) + 2 * y
  {
  }

  lemma {:induction false} UnpackSnoc(w: nat, xs: seq<nat>, x: nat)
    ensures Unpack(w, xs + [x]) == Unpack(w, xs) + ToBits(x, w)
  {
    hide ToBits;
    if xs == [] {
      assert xs + [x] == [x] && [x][1..] == [];
      assert Unpack(w, []) == [];
      assert ToBits(x, w) + [] == ToBits(x, w);
    } else {
      assert (xs + [x])[1..] == xs[1..] + [x];
      UnpackSnoc(w, xs[1..], x);
    }
  }

  /** Written bit by bit or in base 2^w, the number is the same. */
  lemma {:induction false} UnpackNumber(w: nat, xs: seq<nat>)
    requires forall i :: 0 <= i < |xs| ==> xs[i] < Pow2(w)
    ensures FromBits(Unpack(w, xs)) == Base(Pow2(w), xs)
  {
    if xs != [] {
      var init, last := xs[..|xs| - 1], xs[|xs| - 1];
      UnpackNumber(w, init);
      UnpackSnoc(w, init, last);
      assert xs == init + [last];
      FromBitsConcat(Unpack(w, init), ToBits(last, w));
      FromToBits(last, w);
      hide FromBits; hide ToBits; hide Unpack; hide Pow2;
    }
  }

  lemma {:induction false} ZerosNumber(n: nat)
    ensures FromBits(Zeros(n)) == 0
  {
    if n > 0 {
      ZerosNumber(n - 1);
      assert Zeros(n)[..n - 1] == Zeros(n - 1);
    }
  }

  /** The digits are the base-32 digits of the bytes, read as one number and shifted left
      until its bits fill the last digit. */
  lemma DigitsAreBase32(src: seq<octet>)
    ensures |Digits(src)| == (8 * |src| + 4) / 5 && forall i :: 0 <= i < |Digits(src)| ==> Digits(src)[i] < 32
    ensures Base(32, Digits(src)) == Base(256, src) * Pow2(5 * |Digits(src)| - 8 * |src|)
  {
    DigitsAre5Bit(src);
    assert Pow2(5) == 32 && Pow2(8) == 256;
    var pad := Padding(8 * |src|);
    var ds := Digits(src);
    assert 5 * |ds| == 8 * |src| + pad;
    hide Digits; hide Unpack; hide Pow2; hide Base;
    UnpackNumber(5, ds);
    UnpackNumber(8, src);
    FromBitsConcat(Unpack(8, src), Zeros(pad));
    ZerosNumber(pad);
  }

  // -------------------------------------------------------------- the alphabet

  const ALPHABET := "abcdefghijklmnopqrstuvwxyz234567"

  /** The lowercased alphabet: a to z are 0 to 25, 2 to 7 are 26 to 31. */
  function CharOf(d: nat): char
    requires d < 32
  {
    if d < 26 then 'a' + d as char else '2' + (d - 26) as char
  }

  /** The value of a character once uppercased, if it is in the alphabet. */
  function DigitOf(c: char): Option<nat> {
    if 'a' <= c <= 'z' then Some(c as int - 'a' as int)
    else if 'A' <= c <= 'Z' then Some(c as int - 'A' as int)
    else if '2' <= c <= '7' then Some(c as int - '2' as int + 26)
    else None
  }

  lemma CharRoundTrip(d: nat)
    requires d < 32
    ensures DigitOf(CharOf(d)) == Some(d)
    ensures CharOf(d) != ':' && CharOf(d) != '/' && CharOf(d) != '\r' && CharOf(d) != '\n'
    ensures 'a' <= CharOf(d) <= 'z' || '2' <= CharOf(d) <= '7'
  {
  }

  /** The characters by their places in the alphabet, either letter case being read. */
  lemma AlphabetPlaces(d: nat)
    requires d < 32
    ensures |ALPHABET| == 32 && CharOf(d) == ALPHABET[d] && DigitOf(ALPHABET[d]) == Some(d)
  {
  }

  function Spell(ds: seq<nat>): (s: string)
    requires forall i :: 0 <= i < |ds| ==> ds[i] < 32
    ensures |s| == |ds| && forall i :: 0 <= i < |ds| ==> s[i] == CharOf(ds[i])
  {
    if ds == [] then [] else [CharOf(ds[0])] + Spell(ds[1..])
  }

  function Encode(src: seq<octet>): string {
    DigitsAre5Bit(src);
    Spell(Digits(src))
  }

  /** The code is the base-32 digits of the bytes, each written as its letter. */
  lemma EncodeIs(src: seq<octet>)
    ensures |Encode(src)| == (8 * |src| + 4) / 5 == |Digits(src)|
    ensures forall i :: 0 <= i < |Encode(src)| ==> Digits(src)[i] < |ALPHABET| && Encode(src)[i] == ALPHABET[Digits(src)[i]]
  {
    DigitsAre5Bit(src);
    hide Digits;
    forall i | 0 <= i < |Digits(src)| ensures Encode(src)[i] == CharOf(Digits(src)[i]) == ALPHABET[Digits(src)[i]] {
      AlphabetPlaces(Digits(src)[i]);
    }
  }

  /** Line breaks are skipped; any other character outside the alphabet is an error. */
  function Values(s: string): Option<seq<nat>> {
    if s == [] then Some([])
    else
      var rest := Values(s[1..]);
      if s[0] == '\r' || s[0] == '\n' then rest
      else if rest.None? || DigitOf(s[0]).None? then None
      else Some([DigitOf(s[0]).value] + rest.value)
  }

  /** A last group of 1, 3 or 6 characters yields no byte at all. */
  function Whole(n: nat): (m: nat)
    ensures m <= n
  {
    if n % 8 == 1 || n % 8 == 3 || n % 8 == 6 then n - n % 8 else n
  }

  lemma PackedOctets(bs: seq<bool>)
    ensures forall i :: 0 <= i < |Pack(8, bs)| ==> 0 <= Pack(8, bs)[i] < 256
  {
    PackLength(8, bs);
    assert Pow2(8) == 256;
  }

  function Decode(s: string): Option<seq<octet>> {
    var ds := Values(s);
    if ds.None? then None
    else
      var bits := Unpack(5, ds.value[..Whole(|ds.value|)]);
      PackedOctets(bits);
      var bytes: seq<octet> := Pack(8, bits);
      Some(bytes)
  }

  lemma {:induction false} ValuesOfSpell(ds: seq<nat>)
    requires forall i :: 0 <= i < |ds| ==> ds[i] < 32
    ensures Values(Spell(ds)) == Some(ds)
  {
    if ds != [] {
      CharRoundTrip(ds[0]);
      assert Spell(ds)[1..] == Spell(ds[1..]) && ds == [ds[0]] + ds[1..];
      ValuesOfSpell(ds[1..]);
    }
  }

  /** The digits of any byte string are of a whole length. */
  lemma DigitsWhole(src: seq<octet>)
    ensures Whole(|Digits(src)|) == |Digits(src)|
  {
    DigitsAre5Bit(src);
    hide Digits;
    assert (8 * |src| + 4) / 5 % 8 != 1 && (8 * |src| + 4) / 5 % 8 != 3 && (8 * |src| + 4) / 5 % 8 != 6;
  }

  /** Decoding undoes encoding, for every byte string. */
  lemma DecodeEncode(src: seq<octet>)
    ensures Decode(Encode(src)) == Some(src)
  {
    DigitsAre5Bit(src);
    DigitsWhole(src);
    var ds := Digits(src);
    ValuesOfSpell(ds);
    assert ds[..|ds|] == ds;
    assert Pow2(8) == 256;
    hide Pack; hide Unpack; hide Values; hide Digits; hide Spell; hide Whole; hide Pow2;
    PackUnpack(8, src, Zeros(Padding(8 * |src|)));
  }

  // -------------------------------------------------------------- the markers

  const PREFIX := "cypher-pull/"
  const MAX_NAME: nat := 255

  function Index(s: string, c: char): (i: nat)
    ensures i <= |s| && (forall j :: 0 <= j < i ==> s[j] != c) && (i < |s| ==> s[i] == c)
  {
    if s == [] || s[0] == c then 0 else 1 + Index(s[1..], c)
  }

  predicate LegalApp(app: string) {
    app != "" && ':' !in app && '/' !in app
  }

  function PullMarkerRef(app: string, src: seq<octet>): Option<string> {
    if !LegalApp(app) || src == [] then None
    else
      var name := PREFIX + Encode(src);
      if |name| > MAX_NAME then None else Some(name + ":" + app)
  }

  function ParsePullMarker(ref: string): Option<(string, seq<octet>)> {
    if !(PREFIX <= ref) then None
    else
      var rest := ref[|PREFIX|..];
      var i := Index(rest, ':');
      if i == |rest| || i == 0 || i + 1 == |rest| || '/' in rest[..i] then None
      else
        var raw := Decode(rest[..i]);
        if raw.None? || raw.value == [] then None else Some((rest[i + 1..], raw.value))
  }

  /** A legal application can mark exactly the references of 1 to 151 bytes. */
  lemma AcceptsUpTo151(app: string, src: seq<octet>)
    ensures PullMarkerRef(app, src).Some? <==> LegalApp(app) && 1 <= |src| <= 151
  {
    DigitsAre5Bit(src);
    assert |PREFIX| == 12;
  }

  /** Every marker parses back to exactly the application and reference it records, and
      its repository name uses only characters a repository name allows. */
  lemma MarkerRoundTrip(app: string, src: seq<octet>)
    requires PullMarkerRef(app, src).Some?
    ensures ParsePullMarker(PullMarkerRef(app, src).value) == Some((app, src))
    ensures forall i :: |PREFIX| <= i < |PREFIX| + |Encode(src)| ==>
              var c := PullMarkerRef(app, src).value[i]; 'a' <= c <= 'z' || '2' <= c <= '7'
  {
    var ref, code := PullMarkerRef(app, src).value, Encode(src);
    EncodeChars(src);
    DecodeEncode(src);
    hide Encode; hide Decode;
    assert ref == PREFIX + code + ":" + app;
    hide PullMarkerRef;
    ParseCode(code, app);
    assert forall i :: |PREFIX| <= i < |PREFIX| + |code| ==> ref[i] == code[i - |PREFIX|];
    hide ParsePullMarker;
  }

  /** The marker of a code and an application is cut where they meet. */
  lemma ParseCode(code: string, app: string)
    requires code != "" && app != "" && forall j :: 0 <= j < |code| ==> CodeChar(code[j])
    ensures ParsePullMarker(PREFIX + code + ":" + app) ==
            if Decode(code).None? || Decode(code).value == [] then None else Some((app, Decode(code).value))
  {
    hide Decode;
    var ref := PREFIX + code + ":" + app;
    var rest := ref[|PREFIX|..];
    assert rest == code + ":" + app && PREFIX <= ref;
    CodeEnds(code, app);
    hide Index;
    assert rest[..|code|] == code && rest[|code| + 1..] == app;
  }

  predicate CodeChar(c: char) { 'a' <= c <= 'z' || '2' <= c <= '7' }

  lemma EncodeChars(src: seq<octet>)
    ensures forall j :: 0 <= j < |Encode(src)| ==> CodeChar(Encode(src)[j])
    ensures src != [] ==> Encode(src) != []
  {
    DigitsAre5Bit(src);
    var ds := Digits(src);
    hide Digits;
    forall j | 0 <= j < |ds| ensures CodeChar(Encode(src)[j]) {
      CharRoundTrip(ds[j]);
    }
  }

  /** The code ends at the first colon. */
  lemma CodeEnds(code: string, app: string)
    requires forall j :: 0 <= j < |code| ==> CodeChar(code[j])
    ensures Index(code + ":" + app, ':') == |code| && '/' !in code
  {
    var rest := code + ":" + app;
    assert rest[|code|] == ':';
    assert forall j :: 0 <= j < |code| ==> rest[j] == code[j] && code[j] != ':';
  }

  /** Distinct pairs get distinct markers. */
  lemma MarkersDistinct(app: string, src: seq<octet>, app': string, src': seq<octet>)
    requires PullMarkerRef(app, src).Some? && PullMarkerRef(app, src) == PullMarkerRef(app', src')
    ensures app == app' && src == src'
  {
    MarkerRoundTrip(app, src);
    MarkerRoundTrip(app', src');
  }
}
