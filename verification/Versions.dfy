/** compareVersions: dotted version strings, compared component by component. */
module Versions {
  import opened Common

  /** strings.Split(s, "."). */
  function Split(s: string): (parts: seq<string>)
    ensures parts != []
  {
    if s == [] then [""]
    else if s[0] == '.' then [""] + Split(s[1..])
    else
      var rest := Split(s[1..]);
      [[s[0]] + rest[0]] + rest[1..]
  }

  /** The parts joined with dots. */
  function Join(parts: seq<string>): string
    requires parts != []
  {
    if |parts| == 1 then parts[0] else parts[0] + "." + Join(parts[1..])
  }

  lemma JoinFirstLonger(c: char, parts: seq<string>)
    requires parts != []
    ensures Join([[c] + parts[0]] + parts[1..]) == [c] + Join(parts)
  {
    var longer := [[c] + parts[0]] + parts[1..];
    assert longer[1..] == parts[1..];
    if |parts| > 1 {
      assert [c] + parts[0] + "." + Join(parts[1..]) == [c] + (parts[0] + "." + Join(parts[1..]));
    }
  }

  lemma JoinEmptyFirst(parts: seq<string>)
    requires parts != []
    ensures Join([""] + parts) == "." + Join(parts)
  {
    assert ([""] + parts)[1..] == parts;
    assert "" + "." == ".";
  }

  /** Splitting loses nothing: the parts, joined with dots, are the string. */
  lemma {:induction false} JoinInvertsSplit(s: string)
    ensures Join(Split(s)) == s
  {
    if s != [] {
      JoinInvertsSplit(s[1..]);
      assert s == [s[0]] + s[1..];
      if s[0] == '.' {
        JoinEmptyFirst(Split(s[1..]));
      } else {
        JoinFirstLonger(s[0], Split(s[1..]));
      }
    }
  }

  /** No part holds a dot. */
  lemma {:induction false} PartsHaveNoDot(s: string, i: nat)
    requires i < |Split(s)|
    ensures '.' !in Split(s)[i]
  {
    if s != [] {
      if s[0] != '.' {
        PartsHaveNoDot(s[1..], i);
      } else if i > 0 {
        PartsHaveNoDot(s[1..], i - 1);
      }
    }
  }

  /** strings.TrimLeft(s, "0"). */
  function TrimZeros(s: string): string {
    if s != [] && s[0] == '0' then TrimZeros(s[1..]) else s
  }

  const MAX_UINT64 := 0xFFFF_FFFF_FFFF_FFFF
  const MAX_INT64 := 0x7FFF_FFFF_FFFF_FFFF

  /**
    strconv.ParseUint's digit loop, with `n` read so far: None for a character that is no digit,
    the largest value as soon as the number gets too large.
  */
  function ParseDigits(s: string, n: nat): Option<nat> {
    if s == [] then Some(n)
    else if !('0' <= s[0] <= '9') then None
    else
      var n' := n * 10 + (s[0] - '0') as int;
      if n' > MAX_UINT64 then Some(MAX_UINT64) else ParseDigits(s[1..], n')
  }

  /** The value strconv.Atoi returns, its error ignored: 0 if malformed, clamped to 64 bits if too large. */
  function Atoi(s: string): int {
    var negative := s != [] && s[0] == '-';
    var digits := if s != [] && (s[0] == '-' || s[0] == '+') then s[1..] else s;
    if digits == [] then 0
    else
      match ParseDigits(digits, 0)
      case None => 0
      case Some(n) =>
        if negative then (if n > MAX_INT64 + 1 then -MAX_INT64 - 1 else 0 - n)
        else (if n > MAX_INT64 then MAX_INT64 else n)
  }

  function Number(part: string): int { Atoi(TrimZeros(part)) }

  // ---------------------------------------------------------------------------------------------
  // The number a part spells
  // ---------------------------------------------------------------------------------------------

  /** `n` in decimal without leading zeros; nothing for 0. */
  function Spell(n: nat): string {
    if n == 0 then "" else Spell(n / 10) + [['0', '1', '2', '3', '4', '5', '6', '7', '8', '9'][n % 10]]
  }

  function Zeros(k: nat): string { if k == 0 then "" else "0" + Zeros(k - 1) }

  predicate IsDigit(c: char) { '0' <= c <= '9' }

  lemma {:induction false} SpellIsDigits(n: nat)
    ensures forall c :: c in Spell(n) ==> IsDigit(c)
    ensures n > 0 ==> Spell(n) != "" && Spell(n)[0] != '0'
  {
    if n > 0 {
      SpellIsDigits(n / 10);
    }
  }

  /** The digit loop reads back what is spelled, and goes on from there; too large a number ends it. */
  lemma {:induction false} ParseSpelled(n: nat, rest: string)
    ensures n <= MAX_UINT64 ==> ParseDigits(Spell(n) + rest, 0) == ParseDigits(rest, n)
    ensures n > MAX_UINT64 ==> ParseDigits(Spell(n) + rest, 0) == Some(MAX_UINT64)
  {
    if n == 0 {
      assert Spell(n) + rest == rest;
    } else {
      var d := ['0', '1', '2', '3', '4', '5', '6', '7', '8', '9'][n % 10];
      assert (d - '0') as int == n % 10;
      assert Spell(n) + rest == Spell(n / 10) + ([d] + rest);
      ParseSpelled(n / 10, [d] + rest);
      assert ([d] + rest)[1..] == rest;
      assert n == n / 10 * 10 + n % 10;
    }
  }

  lemma {:induction false} ParseZeros(k: nat, rest: string)
    ensures ParseDigits(Zeros(k) + rest, 0) == ParseDigits(rest, 0)
  {
    if k == 0 {
      assert Zeros(k) + rest == rest;
    } else {
      assert Zeros(k) + rest == ['0'] + (Zeros(k - 1) + rest);
      assert (['0'] + (Zeros(k - 1) + rest))[1..] == Zeros(k - 1) + rest;
      ParseZeros(k - 1, rest);
    }
  }

  lemma {:induction false} TrimLeadingZeros(k: nat, rest: string)
    requires rest == "" || rest[0] != '0'
    ensures TrimZeros(Zeros(k) + rest) == rest
  {
    if k == 0 {
      assert Zeros(k) + rest == rest;
    } else {
      assert Zeros(k) + rest == ['0'] + (Zeros(k - 1) + rest);
      assert (['0'] + (Zeros(k - 1) + rest))[1..] == Zeros(k - 1) + rest;
      TrimLeadingZeros(k - 1, rest);
    }
  }

  /** A part that spells `n` in decimal, after any zeros, counts as `n`, or as the greatest 64-bit number. */
  lemma NumberOfSpelled(k: nat, n: nat)
    ensures Number(Zeros(k) + Spell(n)) == if n <= 9223372036854775807 then n else 9223372036854775807
  {
    SpellIsDigits(n);
    TrimLeadingZeros(k, Spell(n));
    ParseSpelled(n, "");
    assert Spell(n) + "" == Spell(n);
    if n > 0 {
      assert Spell(n)[0] in Spell(n);
    }
  }

  /** With a sign before the digits it counts as signed. */
  lemma NumberOfSigned(k: nat, sign: char, j: nat, n: nat)
    requires (sign == '-' || sign == '+') && n <= 9223372036854775807
    ensures Number(Zeros(k) + ([sign] + (Zeros(j) + Spell(n)))) == if sign == '-' then 0 - n else n
  {
    var digits := Zeros(j) + Spell(n);
    ParseZeros(j, Spell(n));
    ParseSpelled(n, "");
    assert Spell(n) + "" == Spell(n);
    SpellIsDigits(n);
    TrimLeadingZeros(k, [sign] + digits);
    SignedAtoi(sign, digits, n);
  }

  lemma SignedAtoi(sign: char, digits: string, n: nat)
    requires (sign == '-' || sign == '+') && n <= 9223372036854775807
    requires ParseDigits(digits, 0) == Some(n)
    ensures Atoi([sign] + digits) == if sign == '-' then 0 - n else n
  {
    assert ([sign] + digits)[1..] == digits;
  }

  /**
    Any other character after a number that fits 64 bits makes it 0; a sign is such a character too
    after a digit other than a leading zero.
  */
  lemma NumberOfMalformed(k: nat, n: nat, c: char, rest: string)
    requires !IsDigit(c) && n <= 18446744073709551615 && (n == 0 ==> c != '-' && c != '+')
    ensures Number(Zeros(k) + Spell(n) + [c] + rest) == 0
  {
    SpellIsDigits(n);
    var tail := Spell(n) + ([c] + rest);
    assert Zeros(k) + Spell(n) + [c] + rest == Zeros(k) + tail;
    if n > 0 {
      assert tail[0] == Spell(n)[0] && Spell(n)[0] in Spell(n);
    } else {
      assert tail == [c] + rest;
    }
    TrimLeadingZeros(k, tail);
    ParseSpelled(n, [c] + rest);
    NoDigitParse(c, rest, n);
  }

  lemma NoDigitParse(c: char, rest: string, n: nat)
    requires !IsDigit(c)
    ensures ParseDigits([c] + rest, n) == None
  {
  }

  // ---------------------------------------------------------------------------------------------
  // The order
  // ---------------------------------------------------------------------------------------------

  /** Component `i` of a version: 0 beyond its last part. */
  function Component(v: string, i: nat): int {
    if i < |Split(v)| then Number(Split(v)[i]) else 0
  }

  /** `i` is the first component in which the versions differ. */
  ghost predicate FirstDifference(a: string, b: string, i: nat) {
    Component(a, i) != Component(b, i) && forall j: nat :: j < i ==> Component(a, j) == Component(b, j)
  }

  /** Equal in every component, however many are written out. */
  ghost predicate SameVersion(a: string, b: string) {
    forall i: nat :: Component(a, i) == Component(b, i)
  }

  /** Lexicographic order on component vectors extended by zeros. */
  ghost predicate Older(a: string, b: string) {
    exists i: nat :: FirstDifference(a, b, i) && Component(a, i) < Component(b, i)
  }

  /** The loops that append "0" parts. */
  method PadTo(v: string, n: nat) returns (parts: seq<string>)
    ensures |parts| == if |Split(v)| < n then n else |Split(v)|
    ensures forall i: nat :: i < |parts| ==> Number(parts[i]) == Component(v, i)
  {
    parts := Split(v);
    while |parts| < n
      invariant |Split(v)| <= |parts| && (|parts| <= n || parts == Split(v))
      invariant forall i: nat :: i < |parts| ==> Number(parts[i]) == Component(v, i)
    {
      assert Number("0") == 0;
      parts := parts + ["0"];
    }
  }

  method CompareVersions(a: string, b: string) returns (sign: int)
    ensures sign == -1 <==> Older(a, b)
    ensures sign == 1 <==> Older(b, a)
    ensures sign == 0 <==> SameVersion(a, b)
    ensures sign in {-1, 0, 1}
    ensures forall xs, ys :: Spells(a, xs) && Spells(b, ys) ==>
              (sign < 0 <==> Less(xs, ys)) && (sign > 0 <==> Less(ys, xs))
  {
    forall xs, ys | Spells(a, xs) && Spells(b, ys)
      ensures Less(xs, ys) <==> Older(a, b)
      ensures Less(ys, xs) <==> Older(b, a)
    {
      SpelledOrder(a, b, xs, ys);
      SpelledOrder(b, a, ys, xs);
    }
    var pa := PadTo(a, |Split(b)|);
    var pb := PadTo(b, |pa|);
    for i := 0 to |pa|
      invariant forall j: nat :: j < i ==> Component(a, j) == Component(b, j)
    {
      var ai, bi := Number(pa[i]), Number(pb[i]);
      if ai != bi {
        FirstDifferenceDecides(a, b, i);
        if ai < bi {
          return -1;
        }
        return 1;
      }
    }
    NoDifference(a, b, |pa|);
    return 0;
  }

  lemma FirstDifferenceDecides(a: string, b: string, i: nat)
    requires FirstDifference(a, b, i)
    ensures Older(a, b) <==> Component(a, i) < Component(b, i)
    ensures Older(b, a) <==> Component(b, i) < Component(a, i)
    ensures !SameVersion(a, b)
  {
    assert FirstDifference(b, a, i);
    OlderIsStrictTotal(a, b);
  }

  lemma NoDifference(a: string, b: string, n: nat)
    requires n >= |Split(a)| && n >= |Split(b)|
    requires forall i: nat :: i < n ==> Component(a, i) == Component(b, i)
    ensures SameVersion(a, b) && !Older(a, b) && !Older(b, a)
  {
    OlderIsStrictTotal(a, b);
  }

  /** Of two versions exactly one of three holds: one is older, the other is, or they are the same. */
  lemma OlderIsStrictTotal(a: string, b: string)
    ensures Older(a, b) || Older(b, a) || SameVersion(a, b)
    ensures !(Older(a, b) && Older(b, a))
    ensures SameVersion(a, b) ==> !Older(a, b) && !Older(b, a)
  {
    if !SameVersion(a, b) {
      var k: nat :| Component(a, k) != Component(b, k);
      var i := FindFirst(a, b, k);
      assert FirstDifference(b, a, i);
    }
  }

  lemma {:induction false} FindFirst(a: string, b: string, k: nat) returns (i: nat)
    requires Component(a, k) != Component(b, k)
    ensures FirstDifference(a, b, i) && i <= k
    decreases k
  {
    if j: nat :| j < k && Component(a, j) != Component(b, j) {
      i := FindFirst(a, b, j);
    } else {
      i := k;
    }
  }

  /** The part spells `n`, perhaps after zeros. */
  ghost predicate SpellsPart(part: string, n: nat) {
    exists k: nat :: part == Zeros(k) + Spell(n)
  }

  /** `v` is written with the components `xs`, each a 64-bit number spelled in decimal, with dots between. */
  ghost predicate Spells(v: string, xs: seq<nat>) {
    exists parts: seq<string> :: Written(v, parts, xs)
  }

  ghost predicate Written(v: string, parts: seq<string>, xs: seq<nat>) {
    && |parts| == |xs| > 0 && v == Join(parts)
    && forall i :: 0 <= i < |xs| ==> xs[i] <= 9223372036854775807 && SpellsPart(parts[i], xs[i])
  }

  function At(xs: seq<nat>, i: nat): nat { if i < |xs| then xs[i] else 0 }

  /** The order of number sequences, the shorter one continued with zeros: the first difference decides. */
  ghost predicate Less(xs: seq<nat>, ys: seq<nat>) {
    exists i: nat :: At(xs, i) < At(ys, i) && forall j: nat :: j < i ==> At(xs, j) == At(ys, j)
  }

  lemma {:induction false} ZerosHaveNoDot(k: nat)
    ensures '.' !in Zeros(k)
  {
    if k > 0 {
      ZerosHaveNoDot(k - 1);
    }
  }

  /** Splitting what was joined gives the parts back, if none holds a dot. */
  lemma {:induction false} SplitInvertsJoin(parts: seq<string>)
    requires parts != [] && forall i :: 0 <= i < |parts| ==> '.' !in parts[i]
    ensures Split(Join(parts)) == parts
  {
    if |parts| == 1 {
      SplitNoDot(parts[0]);
    } else {
      SplitInvertsJoin(parts[1..]);
      SplitAtFirstDot(parts[0], Join(parts[1..]));
      assert parts == [parts[0]] + parts[1..];
      assert parts[0] + "." + Join(parts[1..]) == parts[0] + ("." + Join(parts[1..]));
    }
  }

  lemma {:induction false} SplitNoDot(s: string)
    requires '.' !in s
    ensures Split(s) == [s]
  {
    if s != [] {
      SplitNoDot(s[1..]);
      assert s == [s[0]] + s[1..];
    }
  }

  lemma {:induction false} SplitAtFirstDot(s: string, rest: string)
    requires '.' !in s
    ensures Split(s + ("." + rest)) == [s] + Split(rest)
  {
    var t := s + ("." + rest);
    if s == [] {
      assert t == "." + rest;
      assert t[1..] == rest;
    } else {
      assert t[1..] == s[1..] + ("." + rest);
      SplitAtFirstDot(s[1..], rest);
      assert s == [s[0]] + s[1..];
    }
  }

  lemma SpelledComponents(v: string, xs: seq<nat>, i: nat)
    requires Spells(v, xs)
    ensures Component(v, i) == At(xs, i)
  {
    var parts :| Written(v, parts, xs);
    forall j | 0 <= j < |parts| ensures '.' !in parts[j] && Number(parts[j]) == xs[j] {
      var k: nat :| parts[j] == Zeros(k) + Spell(xs[j]);
      ZerosHaveNoDot(k);
      SpellIsDigits(xs[j]);
      NumberOfSpelled(k, xs[j]);
    }
    SplitInvertsJoin(parts);
  }

  /** For versions written with numbers the order is that of the number sequences. */
  lemma SpelledOrder(a: string, b: string, xs: seq<nat>, ys: seq<nat>)
    requires Spells(a, xs) && Spells(b, ys)
    ensures Older(a, b) <==> Less(xs, ys)
  {
    forall i: nat ensures Component(a, i) == At(xs, i) && Component(b, i) == At(ys, i) {
      SpelledComponents(a, xs, i);
      SpelledComponents(b, ys, i);
    }
    if Older(a, b) {
      var i: nat :| FirstDifference(a, b, i) && Component(a, i) < Component(b, i);
      assert At(xs, i) < At(ys, i);
    }
    if Less(xs, ys) {
      var i: nat :| At(xs, i) < At(ys, i) && forall j: nat :: j < i ==> At(xs, j) == At(ys, j);
      assert FirstDifference(a, b, i);
    }
  }

  /** Transitive, although each comparison pads only to the longer of its own two arguments. */
  lemma OlderTransitive(a: string, b: string, c: string)
    requires Older(a, b) && Older(b, c)
    ensures Older(a, c)
  {
    var i: nat :| FirstDifference(a, b, i) && Component(a, i) < Component(b, i);
    var j: nat :| FirstDifference(b, c, j) && Component(b, j) < Component(c, j);
    var k := if i < j then i else j;
    assert FirstDifference(a, c, k);
  }

  /** Versions that compare as the same compare alike with every other version. */
  lemma SameVersionCongruent(a: string, b: string, c: string)
    requires SameVersion(a, b)
    ensures Older(a, c) <==> Older(b, c)
    ensures Older(c, a) <==> Older(c, b)
  {
    assert forall i: nat :: FirstDifference(a, c, i) <==> FirstDifference(b, c, i);
    assert forall i: nat :: FirstDifference(c, a, i) <==> FirstDifference(c, b, i);
  }
}
