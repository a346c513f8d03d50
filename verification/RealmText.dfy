/** The text of port mappings: decimal numbers, `public>target@backbone`, comma-separated lists. */
module RealmText {
  import opened Common

  // ---- decimal numbers ---------------------------------------------------------------

  predicate IsDigit(c: char) { '0' <= c <= '9' }

  predicate AllDigits(s: string) { forall i :: 0 <= i < |s| ==> IsDigit(s[i]) }

  /** The number that ASCII digits stand for. */
  function Value(s: string): nat
    requires AllDigits(s)
  {
    if s == [] then 0 else Value(s[..|s| - 1]) * 10 + (s[|s| - 1] as int - '0' as int)
  }

  function Digit(n: nat): char
    requires n < 10
  {
    ('0' as int + n) as char
  }

  function Print(n: nat): (s: string)
    ensures AllDigits(s) && |s| >= 1
  {
    if n < 10 then [Digit(n)] else Print(n / 10) + [Digit(n % 10)]
  }

  /** A number in decimal digits. */
  function PrintInt(n: int): string { if n < 0 then "-" + Print(-n) else Print(n) }

  lemma {:induction false} ValueOfPrint(n: nat)
    ensures Value(Print(n)) == n
  {
    if n >= 10 {
      ValueOfPrint(n / 10);
      assert Print(n)[..|Print(n)| - 1] == Print(n / 10);
    }
  }

  function Pow10(k: nat): nat { if k == 0 then 1 else 10 * Pow10(k - 1) }

  lemma {:induction false} PrintLength(n: nat, k: nat)
    requires k >= 1 && n < Pow10(k)
    ensures |Print(n)| <= k
  {
    if n >= 10 { PrintLength(n / 10, k - 1); }
  }

  lemma {:induction false} PrintLengthAtLeast(n: nat, k: nat)
    requires n >= Pow10(k)
    ensures |Print(n)| > k
  {
    if k > 0 { PrintLengthAtLeast(n / 10, k - 1); }
  }

  // ---- str.strip ---------------------------------------------------------------------

  predicate IsSpace(c: char) {
    var u := c as int;
    9 <= u <= 13 || 28 <= u <= 32 || u == 133 || u == 160 || u == 5760 || 8192 <= u <= 8202 ||
    u == 8232 || u == 8233 || u == 8239 || u == 8287 || u == 12288
  }

  function StripLeft(s: string): string {
    if s != [] && IsSpace(s[0]) then StripLeft(s[1..]) else s
  }

  function StripRight(s: string): string {
    if s != [] && IsSpace(s[|s| - 1]) then StripRight(s[..|s| - 1]) else s
  }

  function Strip(s: string): string { StripRight(StripLeft(s)) }

  predicate AllSpace(s: string) { forall i :: 0 <= i < |s| ==> IsSpace(s[i]) }

  /** Tabs, line ends and the other separators count as space. */
  lemma Separators()
    ensures AllSpace(" \t\n\r") && AllSpace("\U{0B}\U{0C}\U{1C}\U{1F}\U{85}\U{A0}\U{2003}\U{3000}")
    ensures !IsSpace('>') && !IsSpace('@') && !IsSpace(',') && forall c :: IsDigit(c) ==> !IsSpace(c)
  {
  }

  lemma {:induction false} StripLeftDrops(a: string, s: string)
    requires AllSpace(a) && (s != [] ==> !IsSpace(s[0]))
    ensures StripLeft(a + s) == s
  {
    if a == [] {
      assert a + s == s;
    } else {
      assert (a + s)[1..] == a[1..] + s;
      StripLeftDrops(a[1..], s);
    }
  }

  lemma {:induction false} StripRightDrops(s: string, b: string)
    requires AllSpace(b) && (s != [] ==> !IsSpace(s[|s| - 1]))
    ensures StripRight(s + b) == s
  {
    if b == [] {
      assert s + b == s;
    } else {
      assert (s + b)[..|s + b| - 1] == s + b[..|b| - 1];
      StripRightDrops(s, b[..|b| - 1]);
    }
  }

  /** Space around a text goes, and nothing else does. */
  lemma StripDrops(a: string, s: string, b: string)
    requires AllSpace(a) && AllSpace(b) && (s != [] ==> !IsSpace(s[0]) && !IsSpace(s[|s| - 1]))
    ensures Strip(a + s + b) == s
  {
    if s == [] {
      assert a + s + b == (a + b) + [];
      StripLeftDrops(a + b, []);
    } else {
      assert a + s + b == a + (s + b);
      StripLeftDrops(a, s + b);
      StripRightDrops(s, b);
    }
  }

  // ---- the mapping pattern: a port, and behind > and @ an optional target and backbone ----

  datatype Spec = Spec(public: string, target: Option<string>, backbone: Option<string>)

  predicate IsNumber(s: string) { 1 <= |s| <= 5 && AllDigits(s) }

  predicate OptionalNumber(s: Option<string>) { s.Some? ==> IsNumber(s.value) }

  predicate WellFormed(spec: Spec) {
    IsNumber(spec.public) && OptionalNumber(spec.target) && OptionalNumber(spec.backbone)
  }

  function Part(mark: char, s: Option<string>): string { if s.Some? then [mark] + s.value else [] }

  function Text(spec: Spec): string { spec.public + Part('>', spec.target) + Part('@', spec.backbone) }

  /** The length of the longest prefix of digits. */
  function DigitRun(s: string): (n: nat)
    ensures n <= |s| && AllDigits(s[..n]) && (n < |s| ==> !IsDigit(s[n]))
  {
    if s == [] || !IsDigit(s[0]) then 0 else 1 + DigitRun(s[1..])
  }

  /** An optional group: what it matched and what is left. */
  function OptionalGroup(s: string, mark: char): (r: (Option<string>, string))
    ensures OptionalNumber(r.0)
  {
    if s != [] && s[0] == mark && 1 <= DigitRun(s[1..]) <= 5 then
      (Some(s[1..][..DigitRun(s[1..])]), s[1..][DigitRun(s[1..])..])
    else (None, s)
  }

  function MatchSpec(s: string): (r: Option<Spec>)
    ensures r.Some? ==> WellFormed(r.value)
  {
    var n := DigitRun(s);
    if !(1 <= n <= 5) then None
    else
      var (target, afterTarget) := OptionalGroup(s[n..], '>');
      var (backbone, rest) := OptionalGroup(afterTarget, '@');
      if rest == [] then Some(Spec(s[..n], target, backbone)) else None
  }

  lemma {:induction false} DigitRunIs(digits: string, rest: string)
    requires AllDigits(digits) && (rest != [] ==> !IsDigit(rest[0]))
    ensures DigitRun(digits + rest) == |digits|
  {
    var s := digits + rest;
    if digits != [] {
      assert s[1..] == digits[1..] + rest;
      DigitRunIs(digits[1..], rest);
    } else {
      assert s == rest;
    }
  }

  lemma OptionalGroupReads(group: Option<string>, mark: char, rest: string)
    requires OptionalNumber(group) && (rest != [] ==> !IsDigit(rest[0]) && rest[0] != mark)
    ensures OptionalGroup(Part(mark, group) + rest, mark) == (group, rest)
  {
    var s := Part(mark, group) + rest;
    if group.Some? {
      assert s[1..] == group.value + rest;
      DigitRunIs(group.value, rest);
      assert s[1..][..|group.value|] == group.value && s[1..][|group.value|..] == rest;
    } else {
      assert s == rest;
    }
  }

  lemma OptionalGroupIsPart(s: string, mark: char)
    ensures var (group, rest) := OptionalGroup(s, mark);
      OptionalNumber(group) && s == Part(mark, group) + rest
  {
    var (group, rest) := OptionalGroup(s, mark);
    if group.Some? { assert s == [mark] + s[1..]; }
  }

  lemma MatchInParts(s: string, public: string, tail: string, target: Option<string>, middle: string,
                     backbone: Option<string>)
    requires s == public + tail && 1 <= |public| <= 5 && DigitRun(s) == |public|
    requires OptionalGroup(tail, '>') == (target, middle) && OptionalGroup(middle, '@') == (backbone, [])
    ensures MatchSpec(s) == Some(Spec(public, target, backbone))
  {
    hide DigitRun, OptionalGroup, AllDigits, IsDigit, OptionalNumber;
    assert s[..|public|] == public && s[|public|..] == tail;
  }

  lemma MatchReadsText(spec: Spec)
    requires WellFormed(spec)
    ensures MatchSpec(Text(spec)) == Some(spec)
  {
    var last := Part('@', spec.backbone);
    var tail := Part('>', spec.target) + last;
    assert Text(spec) == spec.public + tail;
    DigitRunIs(spec.public, tail);
    OptionalGroupReads(spec.target, '>', last);
    assert last + [] == last;
    OptionalGroupReads(spec.backbone, '@', []);
    hide MatchSpec, OptionalGroup, Text;
    MatchInParts(Text(spec), spec.public, tail, spec.target, last, spec.backbone);
  }

  lemma ThreeParts(s: string, n: nat, middle: string, last: string)
    requires n <= |s| && s[n..] == middle + last
    ensures s == s[..n] + middle + last
  {
    assert s == s[..n] + s[n..];
  }

  lemma MatchedIsText(s: string)
    requires MatchSpec(s).Some?
    ensures WellFormed(MatchSpec(s).value) && s == Text(MatchSpec(s).value)
  {
    var n := DigitRun(s);
    var tail := s[n..];
    var (target, afterTarget) := OptionalGroup(tail, '>');
    OptionalGroupIsPart(tail, '>');
    var (backbone, rest) := OptionalGroup(afterTarget, '@');
    OptionalGroupIsPart(afterTarget, '@');
    assert rest == [] && afterTarget == Part('@', backbone);
    ThreeParts(s, n, Part('>', target), Part('@', backbone));
  }

  /** The pattern accepts exactly the texts of well-formed triples, each in one way. */
  lemma MatchSpecIsInverse(s: string, spec: Spec)
    ensures MatchSpec(s) == Some(spec) <==> WellFormed(spec) && s == Text(spec)
  {
    if WellFormed(spec) { MatchReadsText(spec); }
    if MatchSpec(s).Some? { MatchedIsText(s); }
  }

  // ---- comma-separated lists ---------------------------------------------------------

  /** The texts with commas between them. */
  function Join(texts: seq<string>): string {
    if texts == [] then []
    else if |texts| == 1 then texts[0]
    else Join(texts[..|texts| - 1]) + "," + texts[|texts| - 1]
  }

  /** s.split(",") */
  function Split(s: string): (r: seq<string>)
    ensures |r| >= 1
  {
    if s == [] then [[]]
    else
      var r, c := Split(s[..|s| - 1]), s[|s| - 1];
      if c == ',' then r + [[]] else r[..|r| - 1] + [r[|r| - 1] + [c]]
  }

  lemma {:induction false} SplitAppend(s: string, t: string)
    requires ',' !in t
    ensures var r := Split(s); Split(s + t) == r[..|r| - 1] + [r[|r| - 1] + t]
  {
    var r := Split(s);
    if t == [] {
      assert s + t == s && r[|r| - 1] + t == r[|r| - 1];
    } else {
      var u, c := t[..|t| - 1], t[|t| - 1];
      SplitAppend(s, u);
      assert (s + t)[..|s + t| - 1] == s + u;
      assert c in t && u + [c] == t;
      assert (r[|r| - 1] + u) + [c] == r[|r| - 1] + t;
    }
  }

  lemma SplitAfterComma(head: string, texts: seq<string>, t: string)
    requires Split(head) == texts && ',' !in t
    ensures Split(head + "," + t) == texts + [t]
  {
    assert (head + ",")[..|head + ","| - 1] == head;
    assert Split(head + ",") == texts + [[]];
    SplitAppend(head + ",", t);
    assert [] + t == t;
    assert (texts + [[]])[..|texts|] == texts;
  }

  lemma SplitOfOne(t: string)
    requires ',' !in t
    ensures Split(t) == [t]
  {
    SplitAppend([], t);
    assert [] + t == t;
    assert Split([])[..0] == [];
  }

  lemma {:induction false} SplitOfJoin(texts: seq<string>)
    requires texts != [] && forall i :: 0 <= i < |texts| ==> ',' !in texts[i]
    ensures Split(Join(texts)) == texts
  {
    hide Split;
    var n := |texts|;
    if n == 1 {
      SplitOfOne(texts[0]);
    } else {
      SplitOfJoin(texts[..n - 1]);
      SplitAfterComma(Join(texts[..n - 1]), texts[..n - 1], texts[n - 1]);
    }
  }
}
