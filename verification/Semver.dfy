/** Version numbers as `parse_semver_tuple` of `scripts/dedupe_changelog.py` reads them. */
module Semver {
  datatype Version = Version(major: nat, minor: nat, patch: nat)

  /** Numeric, component by component, as in section 11 of Semantic Versioning 2.0.0. */
  predicate Less(u: Version, v: Version) {
    || u.major < v.major
    || (u.major == v.major && u.minor < v.minor)
    || (u.major == v.major && u.minor == v.minor && u.patch < v.patch)
  }

  predicate IsDigit(c: char) { '0' <= c <= '9' }

  predicate IsSpace(c: char) { c == ' ' || c == '\t' || c == '\n' || c == '\r' || c == '\U{000B}' || c == '\U{000C}' }

  /** `lstrip("vV")`. */
  function DropV(s: string): string {
    if s != [] && (s[0] == 'v' || s[0] == 'V') then DropV(s[1..]) else s
  }

  /** `strip()`. */
  function StripLeft(s: string): string {
    if s != [] && IsSpace(s[0]) then StripLeft(s[1..]) else s
  }

  function StripRight(s: string): string {
    if s != [] && IsSpace(s[|s| - 1]) then StripRight(s[..|s| - 1]) else s
  }

  /** `split(".")`: always at least one part. */
  function Split(s: string): (parts: seq<string>)
    ensures |parts| >= 1
  {
    if s == [] then [[]]
    else if s[0] == '.' then [[]] + Split(s[1..])
    else
      var rest := Split(s[1..]);
      [[s[0]] + rest[0]] + rest[1..]
  }

  function DigitValue(c: char): nat
    requires IsDigit(c)
  {
    c as nat - '0' as nat
  }

  /** `int` of the leading digits, or 0 when there are none. */
  function LeadingInt(s: string, sofar: nat): nat
    decreases |s|
  {
    if s != [] && IsDigit(s[0]) then LeadingInt(s[1..], 10 * sofar + DigitValue(s[0])) else sofar
  }

  function Component(parts: seq<string>, n: nat): nat {
    if n < |parts| then LeadingInt(parts[n], 0) else 0
  }

  function Parse(version: string): Version {
    var parts := Split(StripRight(StripLeft(DropV(version))));
    Version(Component(parts, 0), Component(parts, 1), Component(parts, 2))
  }

  /** The loops of the source: at most three parts, padded with zeros. */
  method ParseSemverTuple(version: string) returns (a: seq<nat>)
    ensures |a| == 3 && Version(a[0], a[1], a[2]) == Parse(version)
  {
    var parts := Split(StripRight(StripLeft(DropV(version))));
    a := [];
    var n := 0;
    while n < |parts| && n < 3
      invariant n <= |parts| && n <= 3 && |a| == n
      invariant forall i :: 0 <= i < n ==> a[i] == Component(parts, i)
    {
      a := a + [LeadingInt(parts[n], 0)];
      n := n + 1;
    }
    while |a| < 3
      invariant n <= |a| <= 3 && (n == 3 || n == |parts|)
      invariant forall i :: 0 <= i < |a| ==> a[i] == Component(parts, i)
    {
      a := a + [0];
    }
  }

  // ------------------------------------------------------------------ reading what was written

  function Digit(n: nat): (c: char)
    requires n < 10
    ensures IsDigit(c) && DigitValue(c) == n
  {
    '0' + n as char
  }

  function Decimal(n: nat): (s: string)
    ensures s != [] && forall i :: 0 <= i < |s| ==> IsDigit(s[i])
  {
    if n < 10 then [Digit(n)] else Decimal(n / 10) + [Digit(n % 10)]
  }

  lemma {:induction false} LeadingIntAppend(s: string, t: string, sofar: nat)
    requires forall i :: 0 <= i < |s| ==> IsDigit(s[i])
    ensures LeadingInt(s + t, sofar) == LeadingInt(t, LeadingInt(s, sofar))
    decreases |s|
  {
    if s == [] {
      assert s + t == t;
    } else {
      assert (s + t)[1..] == s[1..] + t;
      LeadingIntAppend(s[1..], t, 10 * sofar + DigitValue(s[0]));
    }
  }

  lemma {:induction false} DecimalIsRead(n: nat)
    ensures LeadingInt(Decimal(n), 0) == n
    decreases n
  {
    if n < 10 {
      assert [Digit(n)][1..] == [];
    } else {
      DecimalIsRead(n / 10);
      LeadingIntAppend(Decimal(n / 10), [Digit(n % 10)], 0);
      assert [Digit(n % 10)][1..] == [];
    }
  }

  lemma {:induction false} SplitFirst(a: string, rest: string)
    requires '.' !in a
    ensures Split(a + "." + rest) == [a] + Split(rest)
    decreases |a|
  {
    var s := a + "." + rest;
    if a == [] {
      assert s[1..] == rest;
    } else {
      assert s[1..] == a[1..] + "." + rest;
      SplitFirst(a[1..], rest);
      assert [a[0]] + a[1..] == a;
    }
  }

  lemma {:induction false} SplitLast(a: string)
    requires '.' !in a
    ensures Split(a) == [a]
    decreases |a|
  {
    if a == [] {
    } else {
      SplitLast(a[1..]);
      assert [a[0]] + a[1..] == a;
    }
  }

  /** One dotted part: a number or none, and then text that does not go on with a digit. */
  datatype Part = Part(number: nat, present: bool, tail: string) {
    predicate Valid() {
      '.' !in tail && (tail == [] || !IsDigit(tail[0]))
    }

    function Text(): string {
      (if present then Decimal(number) else []) + tail
    }

    function Value(): nat {
      if present then number else 0
    }
  }

  function Dotted(parts: seq<Part>): string
    requires parts != []
  {
    if |parts| == 1 then parts[0].Text() else parts[0].Text() + "." + Dotted(parts[1..])
  }

  function Texts(parts: seq<Part>): seq<string> {
    seq(|parts|, i requires 0 <= i < |parts| => parts[i].Text())
  }

  lemma {:induction false} PartIsRead(p: Part)
    requires p.Valid()
    ensures LeadingInt(p.Text(), 0) == p.Value() && '.' !in p.Text()
  {
    if p.present {
      DecimalIsRead(p.number);
      LeadingIntAppend(Decimal(p.number), p.tail, 0);
    } else {
      assert [] + p.tail == p.tail;
    }
  }

  lemma {:induction false} DottedSplits(parts: seq<Part>)
    requires parts != [] && forall i :: 0 <= i < |parts| ==> parts[i].Valid()
    ensures Split(Dotted(parts)) == Texts(parts)
    decreases |parts|
  {
    PartIsRead(parts[0]);
    if |parts| == 1 {
      SplitLast(parts[0].Text());
    } else {
      DottedSplits(parts[1..]);
      SplitFirst(parts[0].Text(), Dotted(parts[1..]));
      assert Texts(parts) == [parts[0].Text()] + Texts(parts[1..]);
    }
  }

  lemma {:induction false} VsDropped(vs: string, s: string)
    requires forall i :: 0 <= i < |vs| ==> vs[i] == 'v' || vs[i] == 'V'
    requires s == [] || (s[0] != 'v' && s[0] != 'V')
    ensures DropV(vs + s) == s
    decreases |vs|
  {
    if vs == [] {
      assert vs + s == s;
    } else {
      assert (vs + s)[1..] == vs[1..] + s;
      VsDropped(vs[1..], s);
    }
  }

  predicate AllSpace(s: string) {
    forall i :: 0 <= i < |s| ==> IsSpace(s[i])
  }

  lemma {:induction false} LeftStripped(sp: string, s: string)
    requires AllSpace(sp) && s != [] && !IsSpace(s[0])
    ensures StripLeft(sp + s) == s
    decreases |sp|
  {
    if sp == [] {
      assert sp + s == s;
    } else {
      assert (sp + s)[1..] == sp[1..] + s;
      LeftStripped(sp[1..], s);
    }
  }

  lemma {:induction false} RightStripped(s: string, sp: string)
    requires AllSpace(sp) && s != [] && !IsSpace(s[|s| - 1])
    ensures StripRight(s + sp) == s
    decreases |sp|
  {
    if sp == [] {
      assert s + sp == s;
    } else {
      assert (s + sp)[..|s + sp| - 1] == s + sp[..|sp| - 1];
      RightStripped(s, sp[..|sp| - 1]);
    }
  }

  /** The letters v in front and the spaces around are not part of the version. */
  lemma {:induction false} Trimmed(vs: string, left: string, s: string, right: string)
    requires forall i :: 0 <= i < |vs| ==> vs[i] == 'v' || vs[i] == 'V'
    requires AllSpace(left) && AllSpace(right)
    requires s != [] && IsDigit(s[0]) && !IsSpace(s[|s| - 1])
    ensures StripRight(StripLeft(DropV(vs + (left + (s + right))))) == s
  {
    VsDropped(vs, left + (s + right));
    LeftStripped(left, s + right);
    RightStripped(s, right);
  }

  /**
   * What is read from any dotted text that starts with a number, after letters v and spaces:
   * of each of the first three parts the leading number, 0 for a part without one and for a
   * part that is missing, and nothing of the parts beyond.
   */
  lemma {:induction false} ParseParts(vs: string, left: string, parts: seq<Part>, right: string)
    requires forall i :: 0 <= i < |vs| ==> vs[i] == 'v' || vs[i] == 'V'
    requires AllSpace(left) && AllSpace(right)
    requires parts != [] && parts[0].present && forall i :: 0 <= i < |parts| ==> parts[i].Valid()
    requires !IsSpace(Dotted(parts)[|Dotted(parts)| - 1])
    ensures var value := (i: nat) => if i < |parts| then parts[i].Value() else 0;
      Parse(vs + (left + (Dotted(parts) + right))) == Version(value(0), value(1), value(2))
  {
    var text := Dotted(parts);
    assert text[0] == Decimal(parts[0].number)[0];
    Trimmed(vs, left, text, right);
    DottedSplits(parts);
    forall i | 0 <= i < |parts| ensures LeadingInt(Texts(parts)[i], 0) == parts[i].Value() {
      PartIsRead(parts[i]);
    }
  }

  /** A version written out is read back. */
  lemma {:induction false} ParseRoundTrip(v: Version)
    ensures Parse(Decimal(v.major) + "." + (Decimal(v.minor) + "." + Decimal(v.patch))) == v
    ensures Parse(['v'] + (Decimal(v.major) + "." + (Decimal(v.minor) + "." + Decimal(v.patch)))) == v
  {
    var x, y, z := Part(v.major, true, []), Part(v.minor, true, []), Part(v.patch, true, []);
    var parts := [x, y, z];
    var text := Decimal(v.major) + "." + (Decimal(v.minor) + "." + Decimal(v.patch));
    assert x.Text() == Decimal(v.major) && y.Text() == Decimal(v.minor) && z.Text() == Decimal(v.patch);
    assert parts[1..] == [y, z] && [y, z][1..] == [z];
    assert Dotted([z]) == Decimal(v.patch) && Dotted([y, z]) == Decimal(v.minor) + "." + Decimal(v.patch);
    assert Dotted(parts) == text;
    assert [] + ([] + (text + [])) == text && ['v'] + ([] + (text + [])) == ['v'] + text;
    ParseParts([], [], parts, []);
    ParseParts(['v'], [], parts, []);
  }

  /** `Less` is a strict total order. */
  lemma LessIsTotal(u: Version, v: Version, w: Version)
    ensures !Less(u, u)
    ensures Less(u, v) || u == v || Less(v, u)
    ensures Less(u, v) && Less(v, w) ==> Less(u, w)
  {}
}
