/** Release tags and their order: the agent's parser (agent/updater/version.go), the
    plane's (core/agentupdates/version.go), the comparison both use, and the moves an agent
    makes from release to release. Text is a sequence of Unicode scalar values. */
module Versions {
  import opened Common
  import opened Text

  datatype Version = Version(major: nat, minor: nat, patch: nat, pre: string)

  // -------------------------------------------------------------------- numbers

  function DropV(s: string): string {
    if s != "" && s[0] == 'v' then s[1..] else s
  }

  predicate IsDigit(c: char) { '0' <= c <= '9' }

  predicate Digits(s: string) { s != "" && forall i :: 0 <= i < |s| ==> IsDigit(s[i]) }

  function Val(s: string): nat
    requires forall i :: 0 <= i < |s| ==> IsDigit(s[i])
  {
    if s == "" then 0 else assert IsDigit(s[|s| - 1]); 10 * Val(s[..|s| - 1]) + (s[|s| - 1] as int - '0' as int)
  }

  const MAX_INT: int := 0x7fff_ffff_ffff_ffff

  /** strconv.Atoi of one part, refused when negative. A part holds no '-', since the text
      was cut at the first one. */
  function Atoi(p: string): Option<nat> {
    var d := if p != "" && p[0] == '+' then p[1..] else p;
    if Digits(d) && Val(d) <= MAX_INT then Some(Val(d)) else None
  }

  // -------------------------------------------------------------------- the parsers

  /** What both parsers do once the text is trimmed. */
  function ParseRest(s: string): Option<Version> {
    var dash := Find(s, '-');
    var parts := Split(s[..dash], '.');
    var pre := if dash < |s| then s[dash + 1..] else "";
    if s == "" || |parts| != 3 || Atoi(parts[0]).None? || Atoi(parts[1]).None? || Atoi(parts[2]).None? then None
    else Some(Version(Atoi(parts[0]).value, Atoi(parts[1]).value, Atoi(parts[2]).value, pre))
  }

  function AgentParse(s: string): Option<Version> { ParseRest(DropV(Trim(s))) }

  function PlaneParse(s: string): Option<Version> { ParseRest(Trim(DropV(Trim(s)))) }

  /** The loop over the parts, filling one field per turn. */
  method ParseText(s: string) returns (r: Option<Version>)
    ensures r == ParseRest(s)
  {
    hide Split; hide Val;
    if s == "" {
      return None;
    }
    var dash := Find(s, '-');
    var parts := Split(s[..dash], '.');
    if |parts| != 3 {
      return None;
    }
    var out := Version(0, 0, 0, if dash < |s| then s[dash + 1..] else "");
    for i := 0 to 3
      invariant forall k :: 0 <= k < i ==> Atoi(parts[k]).Some?
      invariant i > 0 ==> out.major == Atoi(parts[0]).value
      invariant i > 1 ==> out.minor == Atoi(parts[1]).value
      invariant i > 2 ==> out.patch == Atoi(parts[2]).value
      invariant out.pre == if dash < |s| then s[dash + 1..] else ""
    {
      var n := Atoi(parts[i]);
      if n.None? {
        return None;
      }
      match i
      case 0 => out := out.(major := n.value);
      case 1 => out := out.(minor := n.value);
      case _ => out := out.(patch := n.value);
    }
    r := Some(out);
  }

  predicate PreChar(c: char) { IsDigit(c) || 'A' <= c <= 'Z' || 'a' <= c <= 'z' || c == '.' }

  /** The pieces of a release tag as the shape both sides demand cuts it. */
  datatype Tag = Tag(v: bool, major: string, minor: string, patch: string, pre: Option<string>)

  predicate Number(s: string) { 1 <= |s| <= 6 && Digits(s) }

  predicate Shaped(t: Tag) {
    && Number(t.major) && Number(t.minor) && Number(t.patch)
    && (t.pre.Some? ==> 1 <= |t.pre.value| <= 32 && forall i :: 0 <= i < |t.pre.value| ==> PreChar(t.pre.value[i]))
  }

  function Core(t: Tag): string { t.major + "." + t.minor + "." + t.patch }

  function Suffix(t: Tag): string { if t.pre.Some? then "-" + t.pre.value else "" }

  function TextOf(t: Tag): string { (if t.v then "v" else "") + (Core(t) + Suffix(t)) }

  /** ValidTag: at most 48 characters of the shape. */
  ghost predicate ValidTag(s: string) { |s| <= 48 && exists t :: Shaped(t) && TextOf(t) == s }

  function Meaning(t: Tag): Version
    requires Shaped(t)
  {
    Version(Val(t.major), Val(t.minor), Val(t.patch), if t.pre.Some? then t.pre.value else "")
  }

  lemma {:induction false} ValBound(s: string)
    requires forall i :: 0 <= i < |s| ==> IsDigit(s[i])
    ensures Val(s) < Pow10(|s|)
  {
    if s != "" {
      ValBound(s[..|s| - 1]);
    }
  }

  function Pow10(n: nat): (p: nat)
    ensures p >= 1
  {
    if n == 0 then 1 else 10 * Pow10(n - 1)
  }

  lemma {:induction false} Pow10Monotone(m: nat, n: nat)
    requires m <= n
    ensures Pow10(m) <= Pow10(n)
  {
    if m < n {
      Pow10Monotone(m, n - 1);
    }
  }

  lemma NumberParses(s: string)
    requires Number(s)
    ensures Atoi(s) == Some(Val(s))
  {
    ValBound(s);
    Pow10Monotone(|s|, 6);
    assert Pow10(6) == 1_000_000;
    assert IsDigit(s[0]);
  }

  /** Cutting at a separator that the piece before it does not hold. */
  lemma FindAfter(a: string, c: char, rest: string)
    requires forall i :: 0 <= i < |a| ==> a[i] != c
    requires rest != "" ==> rest[0] == c
    ensures Find(a + rest, c) == |a|
  {
    var s := a + rest;
    assert forall i :: 0 <= i < |a| ==> s[i] == a[i];
    assert rest != "" ==> s[|a|] == c;
  }

  predicate Dotless(s: string) { forall i :: 0 <= i < |s| ==> s[i] != '.' }

  lemma SplitFirst(a: string, tail: string)
    requires Dotless(a)
    ensures Split(a + "." + tail, '.') == [a] + Split(tail, '.')
  {
    var s := a + "." + tail;
    assert s == a + ("." + tail);
    FindAfter(a, '.', "." + tail);
    assert s[..|a|] == a && s[|a| + 1..] == tail;
  }

  lemma SplitLast(a: string)
    requires Dotless(a)
    ensures Split(a, '.') == [a]
  {
    assert a + "" == a;
    FindAfter(a, '.', "");
  }

  lemma SplitCore(t: Tag)
    requires Shaped(t)
    ensures Split(Core(t), '.') == [t.major, t.minor, t.patch]
  {
    hide Split; hide Find;
    var tail := t.minor + "." + t.patch;
    assert Core(t) == t.major + "." + tail;
    SplitFirst(t.major, tail);
    SplitFirst(t.minor, t.patch);
    SplitLast(t.patch);
  }

  lemma CoreNoDash(t: Tag)
    requires Shaped(t)
    ensures forall i :: 0 <= i < |Core(t)| ==> IsDigit(Core(t)[i]) || Core(t)[i] == '.'
  {
  }

  predicate Dashless(s: string) { forall i :: 0 <= i < |s| ==> s[i] != '-' }

  /** Text cut at its first dash, and at its dots into three. */
  lemma ParseThree(core: string, suffix: string, a: string, b: string, c: string)
    requires core != "" && Dashless(core) && (suffix != "" ==> suffix[0] == '-') && Split(core, '.') == [a, b, c]
    ensures ParseRest(core + suffix) ==
            if Atoi(a).None? || Atoi(b).None? || Atoi(c).None? then None
            else Some(Version(Atoi(a).value, Atoi(b).value, Atoi(c).value, if suffix == "" then "" else suffix[1..]))
  {
    hide Split; hide Atoi; hide Find; hide Dashless;
    var s := core + suffix;
    CutAtDash(core, suffix);
    var parts := Split(s[..Find(s, '-')], '.');
    assert |parts| == 3 && parts[0] == a && parts[1] == b && parts[2] == c;
  }

  lemma CutAtDash(core: string, suffix: string)
    requires Dashless(core) && (suffix != "" ==> suffix[0] == '-')
    ensures var s := core + suffix;
            && Find(s, '-') == |core| && s[..Find(s, '-')] == core
            && (suffix != "" ==> s[Find(s, '-') + 1..] == suffix[1..])
  {
    FindAfter(core, '-', suffix);
  }

  lemma TagParsesRest(t: Tag)
    requires Shaped(t)
    ensures ParseRest(Core(t) + Suffix(t)) == Some(Meaning(t))
  {
    CoreNoDash(t);
    SplitCore(t);
    NumberParses(t.major); NumberParses(t.minor); NumberParses(t.patch);
    assert t.pre.Some? ==> ("-" + t.pre.value)[1..] == t.pre.value;
    hide Val; hide Split; hide Atoi; hide ParseRest;
    assert Core(t) != "" && Dashless(Core(t));
    hide Core;
    ParseThree(Core(t), Suffix(t), t.major, t.minor, t.patch);
  }

  /** On every tag the shape accepts, both parsers succeed and read the same version: the
      three numbers and the suffix. */
  lemma ParsersAgreeOnTags(t: Tag)
    requires Shaped(t)
    ensures AgentParse(TextOf(t)) == PlaneParse(TextOf(t)) == Some(Meaning(t))
  {
    var rest := Core(t) + Suffix(t);
    var s := TextOf(t);
    assert IsDigit(t.major[0]) && rest[0] == t.major[0];
    assert !IsSpace(rest[|rest| - 1]) by {
      if t.pre.Some? {
        assert rest[|rest| - 1] == t.pre.value[|t.pre.value| - 1];
      } else {
        assert rest[|rest| - 1] == t.patch[|t.patch| - 1];
      }
    }
    assert s[|s| - 1] == rest[|rest| - 1];
    TrimKeeps(s);
    TrimKeeps(rest);
    assert DropV(s) == rest;
    TagParsesRest(t);
    hide ParseRest;
  }

  lemma ValidTagParses(s: string)
    requires ValidTag(s)
    ensures AgentParse(s).Some? && AgentParse(s) == PlaneParse(s)
  {
    var t :| Shaped(t) && TextOf(t) == s;
    ParsersAgreeOnTags(t);
  }

  /** On arbitrary text the parsers agree, except that the plane also trims between the "v"
      and the number. */
  lemma ParsersDifferBySpace(s: string)
    ensures var rest := DropV(Trim(s));
            AgentParse(s) == if rest != "" && IsSpace(rest[0]) then None else PlaneParse(s)
  {
    var rest := DropV(Trim(s));
    TrimEnds(s);
    if rest != "" && IsSpace(rest[0]) {
      SpaceFirst(rest);
    } else {
      assert rest != "" ==> rest[|rest| - 1] == Trim(s)[|Trim(s)| - 1];
      hide ParseRest; hide Trim;
      TrimKeeps(rest);
    }
  }

  lemma SpaceFirst(s: string)
    requires s != "" && IsSpace(s[0])
    ensures ParseRest(s).None?
  {
    var core := s[..Find(s, '-')];
    assert core[0] == s[0];
    var first := Split(core, '.')[0];
    assert first == core[..Find(core, '.')] && first[0] == s[0];
    assert !Digits(first);
  }

  /** "v 1.2.3" and its like: a version to the plane, no version to the agent. */
  lemma SpaceAfterV(t: Tag)
    requires Shaped(t) && !t.v
    ensures AgentParse("v " + TextOf(t)).None? && PlaneParse("v " + TextOf(t)) == Some(Meaning(t))
  {
    ParsersAgreeOnTags(t);
    TagEnds(t);
    hide ParseRest; hide TextOf; hide Meaning; hide Shaped; hide Trim; hide IsSpace;
    SpacedText(TextOf(t));
  }

  lemma SpacedText(text: string)
    requires text != "" && IsDigit(text[0]) && !IsSpace(text[|text| - 1])
    ensures AgentParse("v " + text).None? && PlaneParse("v " + text) == PlaneParse(text)
  {
    hide ParseRest;
    var s, rest := "v " + text, " " + text;
    assert s[|s| - 1] == text[|text| - 1];
    TrimKeeps(s);
    TrimKeeps(text);
    assert DropV(s) == rest && DropV(text) == text;
    assert rest[1..] == text;
    ParsersDifferBySpace(s);
  }

  lemma TagEnds(t: Tag)
    requires Shaped(t) && !t.v
    ensures TextOf(t) != "" && IsDigit(TextOf(t)[0]) && !IsSpace(TextOf(t)[|TextOf(t)| - 1])
  {
    assert IsDigit(t.major[0]) && TextOf(t)[0] == t.major[0];
    if t.pre.Some? {
      assert TextOf(t)[|TextOf(t)| - 1] == t.pre.value[|t.pre.value| - 1];
    } else {
      assert TextOf(t)[|TextOf(t)| - 1] == t.patch[|t.patch| - 1];
    }
  }

  // ------------------------------------------------------------------------ the order

  /** Plain text order, as the comparison of two strings gives it. */
  predicate TextLess(a: string, b: string) {
    if b == "" then false
    else if a == "" then true
    else a[0] < b[0] || (a[0] == b[0] && TextLess(a[1..], b[1..]))
  }

  /** The two texts agree up to some place; there the first one ends or has the smaller
      character. */
  ghost predicate DiffersBelow(a: string, b: string) { exists k :: DiffersAt(a, b, k) }

  ghost predicate DiffersAt(a: string, b: string, k: int) {
    0 <= k <= |a| && k < |b| && a[..k] == b[..k] && (k == |a| || a[k] < b[k])
  }

  lemma DiffersLater(a: string, b: string, k: nat)
    requires a != "" && b != ""
    ensures DiffersAt(a, b, k + 1) <==> a[0] == b[0] && DiffersAt(a[1..], b[1..], k)
  {
    if k < |a| && k + 1 <= |b| {
      assert a[..k + 1] == [a[0]] + a[1..][..k] && b[..k + 1] == [b[0]] + b[1..][..k];
      assert a[..k + 1][0] == a[0] && b[..k + 1][0] == b[0];
      assert a[..k + 1][1..] == a[1..][..k] && b[..k + 1][1..] == b[1..][..k];
    }
  }

  lemma {:induction false} TextLessIff(a: string, b: string)
    ensures TextLess(a, b) <==> DiffersBelow(a, b)
  {
    assert b != "" && (a == "" || a[0] < b[0]) ==> DiffersAt(a, b, 0);
    if b != "" && a != "" {
      TextLessIff(a[1..], b[1..]);
      if k :| DiffersAt(a, b, k) {
        if k > 0 {
          DiffersLater(a, b, k - 1);
        }
      }
      if k :| DiffersAt(a[1..], b[1..], k) {
        DiffersLater(a, b, k);
      }
    }
  }

  lemma {:induction false} TextTrichotomy(a: string, b: string)
    ensures a == b || TextLess(a, b) || TextLess(b, a)
    ensures !(TextLess(a, b) && TextLess(b, a)) && !TextLess(a, a)
  {
    if a != "" && b != "" {
      assert a == [a[0]] + a[1..] && b == [b[0]] + b[1..];
      TextTrichotomy(a[1..], b[1..]);
    }
    if a != "" {
      TextIrreflexive(a);
    }
  }

  lemma {:induction false} TextIrreflexive(a: string)
    ensures !TextLess(a, a)
  {
    if a != "" {
      TextIrreflexive(a[1..]);
    }
  }

  lemma {:induction false} TextTransitive(a: string, b: string, c: string)
    requires TextLess(a, b) && TextLess(b, c)
    ensures TextLess(a, c)
  {
    if a != "" && a[0] == b[0] && b[0] == c[0] {
      TextTransitive(a[1..], b[1..], c[1..]);
    }
  }

  /** A pre-release comes before its own release; two pre-releases compare as text. */
  predicate PreLess(a: string, b: string) {
    a != b && (b == "" || (a != "" && TextLess(a, b)))
  }

  /** The order of releases. */
  predicate Before(a: Version, b: Version) {
    if a.major != b.major then a.major < b.major
    else if a.minor != b.minor then a.minor < b.minor
    else if a.patch != b.patch then a.patch < b.patch
    else PreLess(a.pre, b.pre)
  }

  predicate SameNumbers(a: Version, b: Version) {
    a.major == b.major && a.minor == b.minor && a.patch == b.patch
  }

  lemma BeforeTotal(a: Version, b: Version)
    ensures !Before(a, a)
    ensures a == b || Before(a, b) || Before(b, a)
    ensures !(Before(a, b) && Before(b, a))
  {
    TextTrichotomy(a.pre, b.pre);
  }

  lemma BeforeTransitive(a: Version, b: Version, c: Version)
    requires Before(a, b) && Before(b, c)
    ensures Before(a, c)
  {
    hide TextLess;
    if a.pre != "" && b.pre != "" && TextLess(a.pre, b.pre) && TextLess(b.pre, c.pre) {
      TextTransitive(a.pre, b.pre, c.pre);
      TextIrreflexive(a.pre);
    }
  }

  /** compare and cmp: the loop over the three numbers, then the suffixes. */
  method Compare(a: Version, b: Version) returns (r: int)
    ensures r == -1 <==> Before(a, b)
    ensures r == 0 <==> a == b
    ensures r == 1 <==> Before(b, a)
    ensures -1 <= r <= 1
    ensures a.major < b.major ==> r == -1
    ensures a.major > b.major ==> r == 1
    ensures a.major == b.major && a.minor < b.minor ==> r == -1
    ensures a.major == b.major && a.minor > b.minor ==> r == 1
    ensures a.major == b.major && a.minor == b.minor && a.patch < b.patch ==> r == -1
    ensures a.major == b.major && a.minor == b.minor && a.patch > b.patch ==> r == 1
    ensures SameNumbers(a, b) && a.pre != "" && b.pre == "" ==> r == -1
    ensures SameNumbers(a, b) && a.pre == "" && b.pre != "" ==> r == 1
    ensures SameNumbers(a, b) && a.pre != "" && b.pre != "" ==> (r == -1 <==> DiffersBelow(a.pre, b.pre))
  {
    BeforeTotal(a, b);
    TextLessIff(a.pre, b.pre);
    TextIrreflexive(a.pre);
    hide DiffersBelow; hide TextLess;
    var pairs := [(a.major, b.major), (a.minor, b.minor), (a.patch, b.patch)];
    for i := 0 to 3
      invariant forall k :: 0 <= k < i ==> pairs[k].0 == pairs[k].1
    {
      if pairs[i].0 != pairs[i].1 {
        assert i > 0 ==> pairs[0].0 == pairs[0].1;
        assert i > 1 ==> pairs[1].0 == pairs[1].1;
        return if pairs[i].0 < pairs[i].1 then -1 else 1;
      }
    }
    assert pairs[0].0 == pairs[0].1 && pairs[1].0 == pairs[1].1 && pairs[2].0 == pairs[2].1;
    if a.pre == b.pre {
      r := 0;
    } else if a.pre == "" {
      r := 1;
    } else if b.pre == "" {
      r := -1;
    } else if TextLess(a.pre, b.pre) {
      r := -1;
    } else {
      r := 1;
    }
  }

  /** isDowngrade, by the agent's parser. */
  predicate IsDowngrade(running: string, target: string) {
    && AgentParse(running).Some? && AgentParse(target).Some?
    && Before(AgentParse(target).value, AgentParse(running).value)
  }

  /** The three numbers of a tag as one: a part has at most six digits. */
  function Weight(t: Tag): nat
    requires Shaped(t)
  {
    1_000_000_000_000 * Val(t.major) + 1_000_000 * Val(t.minor) + Val(t.patch)
  }

  lemma SixDigits(s: string)
    requires Number(s)
    ensures Val(s) < 1_000_000
  {
    ValBound(s);
    Pow10Monotone(|s|, 6);
    assert Pow10(6) == 1_000_000;
  }

  lemma WeightOrder(a: Version, b: Version)
    requires a.minor < 1_000_000 && a.patch < 1_000_000 && b.minor < 1_000_000 && b.patch < 1_000_000
    ensures var x := 1_000_000_000_000 * a.major + 1_000_000 * a.minor + a.patch;
            var y := 1_000_000_000_000 * b.major + 1_000_000 * b.minor + b.patch;
            Before(a, b) <==> x < y || (x == y && PreLess(a.pre, b.pre))
  {
  }

  /** On release tags the guard goes by the numbers, read as one, and at equal numbers by the
      suffixes: a tag with one is below the tag without. */
  lemma DowngradeIff(t: Tag, u: Tag)
    requires Shaped(t) && Shaped(u)
    ensures IsDowngrade(TextOf(t), TextOf(u)) <==>
            || Weight(u) < Weight(t)
            || (Weight(u) == Weight(t) && u.pre.Some? && (t.pre.None? || DiffersBelow(u.pre.value, t.pre.value)))
  {
    ParsersAgreeOnTags(t);
    ParsersAgreeOnTags(u);
    SixDigits(t.minor); SixDigits(t.patch);
    SixDigits(u.minor); SixDigits(u.patch);
    WeightOrder(Meaning(u), Meaning(t));
    TextLessIff(Meaning(u).pre, Meaning(t).pre);
    TextIrreflexive(Meaning(u).pre);
    hide AgentParse; hide PlaneParse; hide TextOf; hide Val; hide Number; hide TextLess; hide DiffersBelow; hide Before;
  }

  /** A lower major number is below whatever else the tags hold. */
  lemma MajorDecides(t: Tag, u: Tag)
    requires Shaped(t) && Shaped(u) && Val(t.major) < Val(u.major)
    ensures !IsDowngrade(TextOf(t), TextOf(u)) && IsDowngrade(TextOf(u), TextOf(t))
  {
    DowngradeIff(t, u);
    DowngradeIff(u, t);
    SixDigits(t.minor); SixDigits(t.patch);
    hide IsDowngrade; hide Val; hide Number; hide DiffersBelow;
  }

  /** goesBackwards, by the plane's. */
  predicate GoesBackwards(from: string, target: string) {
    && PlaneParse(from).Some? && PlaneParse(target).Some?
    && Before(PlaneParse(target).value, PlaneParse(from).value)
  }

  // ---------------------------------------------------------- pre-releases are plain text

  /** Numbered pre-releases are misordered once the numbers differ in length. */
  lemma TenBeforeNine()
    ensures Before(Version(1, 0, 0, "rc.10"), Version(1, 0, 0, "rc.9"))
  {
    var a, b := "rc.10", "rc.9";
    assert a[1..][1..][1..] == "10" && b[1..][1..][1..] == "9";
    assert TextLess(a[1..][1..][1..], b[1..][1..][1..]);
    assert TextLess(a[1..][1..], b[1..][1..]);
    assert TextLess(a[1..], b[1..]);
  }

  lemma {:induction false} TextPrefix(p: string, a: string, b: string)
    ensures TextLess(p + a, p + b) == TextLess(a, b)
  {
    if p == "" {
      assert p + a == a && p + b == b;
    } else {
      assert (p + a)[1..] == p[1..] + a && (p + b)[1..] == p[1..] + b;
      TextPrefix(p[1..], a, b);
    }
  }

  predicate AllDigits(s: string) { forall i :: 0 <= i < |s| ==> IsDigit(s[i]) }

  lemma {:induction false} ValFront(s: string)
    requires s != "" && AllDigits(s)
    ensures AllDigits(s[1..]) && Val(s) == (s[0] as int - '0' as int) * Pow10(|s| - 1) + Val(s[1..])
  {
    if |s| > 1 {
      var init, tail := s[..|s| - 1], s[1..];
      ValFront(init);
      assert tail[..|tail| - 1] == init[1..] && tail[|tail| - 1] == s[|s| - 1];
      var d, last := s[0] as int - '0' as int, s[|s| - 1] as int - '0' as int;
      assert Val(s) == 10 * Val(init) + last && Val(tail) == 10 * Val(init[1..]) + last;
      assert Pow10(|s| - 1) == 10 * Pow10(|s| - 2);
      hide Val; hide Pow10;
      Shift(d, Pow10(|s| - 2), Val(init[1..]), last);
    }
  }

  lemma Shift(d: int, p: int, v: int, last: int)
    ensures 10 * (d * p + v) + last == d * (10 * p) + (10 * v + last)
  {
  }

  lemma {:induction false} SameLength(a: string, b: string)
    requires |a| == |b| && AllDigits(a) && AllDigits(b)
    ensures TextLess(a, b) <==> Val(a) < Val(b)
  {
    if a != "" {
      ValFront(a);
      ValFront(b);
      SameLength(a[1..], b[1..]);
      ValBound(a[1..]);
      ValBound(b[1..]);
      DigitGap(a[0] as int - '0' as int, b[0] as int - '0' as int, Pow10(|a| - 1), Val(a[1..]), Val(b[1..]));
    }
  }

  lemma DigitGap(x: int, y: int, p: int, u: int, v: int)
    requires 0 <= u < p && 0 <= v < p
    ensures x < y ==> x * p + u < y * p + v
    ensures x > y ==> x * p + u > y * p + v
  {
    if x < y {
      assert (x + 1) * p <= y * p;
    } else if x > y {
      assert (y + 1) * p <= x * p;
    }
  }

  /** With the same text before the number, numbers of equal length are ordered as numbers. */
  lemma EqualLengthNumbersAgree(v: Version, p: string, a: string, b: string)
    requires |a| == |b| && Digits(a) && Digits(b)
    ensures Before(v.(pre := p + a), v.(pre := p + b)) <==> Val(a) < Val(b)
  {
    TextPrefix(p, a, b);
    SameLength(a, b);
    assert p + a == p + b ==> a == b by { assert (p + a)[|p|..] == a && (p + b)[|p|..] == b; }
  }

  lemma {:induction false} ShorterFirst(a: string, b: string)
    requires |a| < |b|
    ensures TextLess(a, b) <==> !TextLess(b[..|a|], a)
  {
    if a != "" {
      assert b[..|a|][1..] == b[1..][..|a| - 1];
      ShorterFirst(a[1..], b[1..]);
    }
  }

  /** A shorter number is smaller, but it is ordered first exactly when the longer one does
      not begin with smaller text: 9 against 10 fails, 1 against 10 does not. */
  lemma ShorterNumbersAgreeIff(v: Version, p: string, a: string, b: string)
    requires |a| < |b| && Digits(a) && Digits(b) && b[0] != '0'
    ensures Val(a) < Val(b)
    ensures Before(v.(pre := p + a), v.(pre := p + b)) <==> !TextLess(b[..|a|], a)
  {
    assert a != "" && p + a != "" && p + b != "";
    hide TextLess; hide Val; hide Digits;
    ShorterSmaller(a, b);
    TextPrefix(p, a, b);
    ShorterFirst(a, b);
    assert |p + a| != |p + b|;
  }

  lemma ShorterSmaller(a: string, b: string)
    requires |a| < |b| && Digits(a) && Digits(b) && b[0] != '0'
    ensures Val(a) < Val(b)
  {
    assert IsDigit(b[0]);
    ValBound(a);
    ValFront(b);
    Pow10Monotone(|a|, |b| - 1);
    hide Val; hide Pow10;
    DigitGap(0, b[0] as int - '0' as int, Pow10(|b| - 1), Val(a), 0);
  }

  // ------------------------------------------------------------------ releases by name

  /** Both are releases, and the second is not the lower one. */
  predicate NotAfter(x: string, y: string) {
    AgentParse(x).Some? && AgentParse(y).Some? && !Before(AgentParse(y).value, AgentParse(x).value)
  }

  lemma NotAfterTransitive(x: string, y: string, z: string)
    requires NotAfter(x, y) && NotAfter(y, z)
    ensures NotAfter(x, z)
  {
    hide AgentParse; hide Before;
    var a, b, c := AgentParse(x).value, AgentParse(y).value, AgentParse(z).value;
    BeforeTotal(a, b);
    BeforeTotal(b, c);
    if Before(c, a) {
      if a == b || b == c {
        assert false;
      } else {
        BeforeTransitive(a, b, c);
        BeforeTotal(a, c);
      }
    }
  }

  lemma NotAfterEnds(x: string, y: string)
    requires NotAfter(x, y)
    ensures NotAfter(x, x) && NotAfter(y, y)
  {
    NotAfterSelf(x);
    NotAfterSelf(y);
  }

  lemma NotAfterParses(x: string, y: string)
    requires NotAfter(x, y)
    ensures AgentParse(x).Some? && AgentParse(y).Some?
  {
  }

  lemma NotAfterSelf(x: string)
    requires AgentParse(x).Some?
    ensures NotAfter(x, x)
  {
    hide AgentParse;
    BeforeTotal(AgentParse(x).value, AgentParse(x).value);
  }

  /** Apply and update without the rollback flag: a release tag, not the running one, and
      not a step backwards. */
  ghost predicate Gate(running: string, want: string) {
    want != "" && want != running && !IsDowngrade(running, want) && ValidTag(want)
  }

  /** On release tags of up to 48 characters the guard takes up exactly what is spelled
      differently and is not below by its numbers or, these being equal, its suffix. */
  lemma GateIff(t: Tag, u: Tag)
    requires Shaped(t) && Shaped(u) && |TextOf(u)| <= 48
    ensures Gate(TextOf(t), TextOf(u)) <==>
            && TextOf(u) != TextOf(t) && Weight(u) >= Weight(t)
            && (Weight(u) == Weight(t) && u.pre.Some? ==> t.pre.Some? && !DiffersBelow(u.pre.value, t.pre.value))
  {
    DowngradeIff(t, u);
    assert |TextOf(u)| >= |Core(u)| >= 2;
    hide IsDowngrade; hide Weight; hide DiffersBelow; hide TextOf;
    assert ValidTag(TextOf(u));
  }

  lemma GateForward(running: string, want: string)
    requires Gate(running, want) && AgentParse(running).Some?
    ensures NotAfter(running, want)
  {
    ValidTagParses(want);
    hide AgentParse; hide Before;
  }

  /** The plane derives the rollback flag from its own parser and order; an agent that runs
      what the channel named therefore never refuses the channel's next version as a step
      backwards. */
  lemma ConvergedNeverRefuses(desired: string, version: string)
    requires ValidTag(desired) && ValidTag(version)
    ensures IsDowngrade(desired, version) <==> GoesBackwards(desired, version)
  {
    ValidTagParses(desired);
    ValidTagParses(version);
  }

  /** "+x" after the number of a release: the last part is not a number. */
  lemma PlusUnread(t: Tag)
    requires Shaped(t) && t.pre.None?
    ensures AgentParse(TextOf(t) + "+x").None?
  {
    var u := TextOf(t) + "+x";
    var patch := t.patch + "+x";
    var rest := t.major + "." + t.minor + "." + patch;
    assert u == (if t.v then "v" else "") + rest;
    assert IsDigit(t.major[0]) && rest[0] == t.major[0];
    assert u[|u| - 1] == 'x';
    TrimKeeps(u);
    assert DropV(u) == rest;
    hide Trim; hide IsSpace;
    PlusParts(t);
  }

  lemma PlusNoNumber(patch: string)
    requires Digits(patch)
    ensures Atoi(patch + "+x").None? && Dotless(patch + "+x")
  {
    var p := patch + "+x";
    assert p[0] == patch[0] && IsDigit(patch[0]);
    assert p[|patch|] == '+';
    assert forall i :: 0 <= i < |patch| ==> p[i] == patch[i] && IsDigit(patch[i]);
    assert p[|patch| + 1] == 'x';
    hide Val;
  }

  lemma NoDash(a: string, b: string, p: string)
    requires Digits(a) && Digits(b) && Digits(p)
    ensures Dashless(a + "." + b + "." + (p + "+x"))
  {
  }

  lemma PlusSplit(a: string, b: string, p: string)
    requires Digits(a) && Digits(b) && Dotless(p)
    ensures Split(a + "." + b + "." + p, '.') == [a, b, p]
  {
    assert Dotless(a) && Dotless(b);
    hide Split; hide Digits; hide Dotless;
    assert a + "." + b + "." + p == a + "." + (b + "." + p);
    SplitFirst(a, b + "." + p);
    SplitFirst(b, p);
    SplitLast(p);
  }

  lemma PlusParts(t: Tag)
    requires Shaped(t)
    ensures ParseRest(t.major + "." + t.minor + "." + (t.patch + "+x")).None?
  {
    var patch := t.patch + "+x";
    PlusNoNumber(t.patch);
    NoDash(t.major, t.minor, t.patch);
    PlusSplit(t.major, t.minor, patch);
    hide Split; hide Atoi; hide ParseRest; hide Dashless; hide Shaped;
    var core := t.major + "." + t.minor + "." + patch;
    assert core + "" == core;
    ParseThree(core, "", t.major, t.minor, patch);
  }

  // ------------------------------------------------------------------ printed and read

  /** A number in decimal. */
  function Decimal(n: nat): (s: string) {
    (if n < 10 then "" else Decimal(n / 10)) + [('0' as int + n % 10) as char]
  }

  lemma {:induction false} DecimalVal(n: nat)
    ensures Digits(Decimal(n)) && Val(Decimal(n)) == n
  {
    var s := Decimal(n);
    if n >= 10 {
      DecimalVal(n / 10);
    }
    assert s[|s| - 1] == ('0' as int + n % 10) as char;
    assert s[..|s| - 1] == if n < 10 then "" else Decimal(n / 10);
  }

  function Printed(v: Version): string {
    Decimal(v.major) + "." + Decimal(v.minor) + "." + Decimal(v.patch) + if v.pre == "" then "" else "-" + v.pre
  }

  /** Every version with three numbers that fit an int and a suffix that does not end in a
      space is read back as printed; larger numbers are refused. */
  lemma PrintedParses(v: Version)
    requires v.pre != "" ==> !IsSpace(v.pre[|v.pre| - 1])
    ensures AgentParse(Printed(v)) == PlaneParse(Printed(v)) ==
            if v.major <= MAX_INT && v.minor <= MAX_INT && v.patch <= MAX_INT then Some(v) else None
  {
    var a, b, c := Decimal(v.major), Decimal(v.minor), Decimal(v.patch);
    DecimalVal(v.major); DecimalVal(v.minor); DecimalVal(v.patch);
    PrintedUntrimmed(v);
    hide Decimal; hide AgentParse; hide PlaneParse;
    DigitAtoi(a); DigitAtoi(b); DigitAtoi(c);
    DottedDigits(a, b, c);
    var suffix := if v.pre == "" then "" else "-" + v.pre;
    assert suffix != "" ==> suffix[1..] == v.pre;
    hide ParseRest; hide Atoi; hide Split; hide Val; hide Digits; hide Dashless; hide IsSpace;
    ParseThree(a + "." + b + "." + c, suffix, a, b, c);
  }

  lemma PrintedUntrimmed(v: Version)
    requires v.pre != "" ==> !IsSpace(v.pre[|v.pre| - 1])
    ensures AgentParse(Printed(v)) == PlaneParse(Printed(v)) == ParseRest(Printed(v))
  {
    var s := Printed(v);
    DecimalVal(v.major); DecimalVal(v.patch);
    var a, c := Decimal(v.major), Decimal(v.patch);
    assert IsDigit(a[0]) && s[0] == a[0];
    assert IsDigit(c[|c| - 1]) && s[|s| - 1] == if v.pre == "" then c[|c| - 1] else v.pre[|v.pre| - 1];
    hide Decimal; hide Printed; hide ParseRest; hide Val;
    TrimKeeps(s);
  }

  lemma DigitAtoi(d: string)
    requires Digits(d)
    ensures Atoi(d) == if Val(d) <= MAX_INT then Some(Val(d)) else None
  {
    assert IsDigit(d[0]);
  }

  lemma DottedDigits(a: string, b: string, c: string)
    requires Digits(a) && Digits(b) && Digits(c)
    ensures Dashless(a + "." + b + "." + c) && Split(a + "." + b + "." + c, '.') == [a, b, c]
  {
    PlusSplit(a, b, c);
  }
}
