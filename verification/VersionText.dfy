/**
 Version strings: splitting at separators, and the parser and printer of `SemVer`
 in `src/dependency_contract.rs`. Which characters count as white space is a
 parameter.
 */
module VersionText {
  import opened Decimals
  import opened Options

  const U64 := 0x1_0000_0000_0000_0000

  // ---------------------------------------------------------------------------
  // Numbers
  // ---------------------------------------------------------------------------

  /** Parsing an unsigned 64-bit number: an optional plus sign, then digits. */
  function ParseU64(s: string): Option<nat> {
    var digits := if s != [] && s[0] == '+' then s[1..] else s;
    if digits == [] || !AllDigits(digits) || Value(digits) >= U64 then None else Some(Value(digits))
  }

  lemma ShownParses(n: nat)
    requires n < U64
    ensures ParseU64(Shown(n)) == Some(n)
  {
    ShownReads(n);
    assert IsDigit(Shown(n)[0]);
  }

  // ---------------------------------------------------------------------------
  // Splitting and trimming
  // ---------------------------------------------------------------------------

  /** The first position of `c`, or the length. */
  function IndexOf(s: string, c: char): (r: nat)
    ensures r <= |s| && (r < |s| ==> s[r] == c) && forall i | 0 <= i < r :: s[i] != c
  {
    if s == [] || s[0] == c then 0 else 1 + IndexOf(s[1..], c)
  }

  function Split(s: string, c: char): seq<string>
    decreases |s|
  {
    var i := IndexOf(s, c);
    if i == |s| then [s] else [s[..i]] + Split(s[i + 1..], c)
  }

  lemma SplitFirst(x: string, c: char, rest: string)
    requires c !in x
    ensures IndexOf(x + [c] + rest, c) == |x| && Split(x + [c] + rest, c) == [x] + Split(rest, c)
  {
    var s := x + [c] + rest;
    assert s[|x|] == c;
    forall i | 0 <= i < |x| ensures s[i] != c { assert s[i] == x[i] && x[i] in x; }
    assert s[..|x|] == x && s[|x| + 1..] == rest;
  }

  lemma SplitLast(x: string, c: char)
    requires c !in x
    ensures IndexOf(x, c) == |x| && Split(x, c) == [x]
  {
  }

  lemma SplitStep(s: string, c: char) returns (rest: string)
    requires |Split(s, c)| > 1
    ensures Split(s, c) == [Split(s, c)[0]] + Split(rest, c) && s == Split(s, c)[0] + [c] + rest
  {
    var i := IndexOf(s, c);
    rest := s[i + 1..];
    assert s == s[..i] + [c] + rest;
  }

  lemma SplitInThree(s: string, c: char)
    requires |Split(s, c)| == 3
    ensures var parts := Split(s, c); s == parts[0] + [c] + (parts[1] + [c] + parts[2])
  {
    var rest := SplitStep(s, c);
    var last := SplitStep(rest, c);
  }

  type Space = char -> bool

  function TrimEnd(space: Space, s: string): (r: string)
    ensures r <= s && (r != [] ==> !space(r[|r| - 1])) && forall i | |r| <= i < |s| :: space(s[i])
  {
    if s == [] || !space(s[|s| - 1]) then s else TrimEnd(space, s[..|s| - 1])
  }

  function TrimStart(space: Space, s: string): string {
    if s == [] || !space(s[0]) then s else TrimStart(space, s[1..])
  }

  function Trim(space: Space, s: string): string {
    TrimEnd(space, TrimStart(space, s))
  }

  /** Nothing a version is written with is white space. */
  ghost predicate Sane(space: Space) {
    !space('-') && forall c | IsDigit(c) :: !space(c)
  }

  /** `s` does not end in white space. */
  ghost predicate Trimmed(space: Space, s: string) {
    s == "" || !space(s[|s| - 1])
  }

  // ---------------------------------------------------------------------------
  // Versions
  // ---------------------------------------------------------------------------

  datatype SemVer = SemVer(major: nat, minor: nat, patch: nat, pre: string)

  ghost predicate Fits(v: SemVer) {
    v.major < U64 && v.minor < U64 && v.patch < U64
  }

  function Core(v: SemVer): string {
    Shown(v.major) + ['.'] + (Shown(v.minor) + ['.'] + Shown(v.patch))
  }

  /** How a version is displayed. */
  function Print(v: SemVer): string {
    if v.pre == "" then Core(v) else Core(v) + ['-'] + v.pre
  }

  function StripV(s: string): string {
    if s != [] && s[0] == 'v' then s[1..] else s
  }

  function ParseParts(parts: seq<string>, pre: string): Option<SemVer> {
    if |parts| != 3 then None else
    var a, b, c := ParseU64(parts[0]), ParseU64(parts[1]), ParseU64(parts[2]);
    if a.Some? && b.Some? && c.Some? then Some(SemVer(a.value, b.value, c.value, pre)) else None
  }

  function ParseTrimmed(s: string): Option<SemVer> {
    var i := IndexOf(s, '-');
    if s == "" then None
    else if i < |s| then ParseParts(Split(s[..i], '.'), s[i + 1..])
    else ParseParts(Split(s, '.'), "")
  }

  /** `SemVer::parse` */
  function Parse(space: Space, raw: string): Option<SemVer> {
    ParseTrimmed(StripV(Trim(space, raw)))
  }

  // ---------------------------------------------------------------------------
  // Round trips
  // ---------------------------------------------------------------------------

  lemma NumeralPlain(n: nat, c: char)
    requires !IsDigit(c)
    ensures c !in Shown(n)
  {
  }

  lemma CoreSplits(v: SemVer)
    ensures Split(Core(v), '.') == [Shown(v.major), Shown(v.minor), Shown(v.patch)]
  {
    NumeralPlain(v.major, '.');
    NumeralPlain(v.minor, '.');
    NumeralPlain(v.patch, '.');
    SplitLast(Shown(v.patch), '.');
    SplitFirst(Shown(v.minor), '.', Shown(v.patch));
    SplitFirst(Shown(v.major), '.', Shown(v.minor) + ['.'] + Shown(v.patch));
  }

  lemma CoreShape(v: SemVer)
    ensures Core(v) != [] && '-' !in Core(v) && IsDigit(Core(v)[0]) && IsDigit(Core(v)[|Core(v)| - 1])
  {
    ShownReads(v.major);
    ShownReads(v.minor);
    ShownReads(v.patch);
    assert Core(v)[0] == Shown(v.major)[0];
    assert Core(v)[|Core(v)| - 1] == Shown(v.patch)[|Shown(v.patch)| - 1];
  }

  lemma PartsParse(v: SemVer)
    requires Fits(v)
    ensures ParseParts([Shown(v.major), Shown(v.minor), Shown(v.patch)], v.pre) == Some(v)
  {
    ShownParses(v.major);
    ShownParses(v.minor);
    ShownParses(v.patch);
  }

  /** Text after the first hyphen is the pre-release; the rest is the three numbers. */
  lemma CoreThenPre(v: SemVer, pre: string)
    requires Fits(v)
    ensures IndexOf(Core(v) + ['-'] + pre, '-') == |Core(v)|
    ensures ParseTrimmed(Core(v) + ['-'] + pre) == Some(v.(pre := pre))
  {
    CoreShape(v);
    CoreSplits(v);
    SplitFirst(Core(v), '-', pre);
    var s := Core(v) + ['-'] + pre;
    assert s[..|Core(v)|] == Core(v) && s[|Core(v)| + 1..] == pre;
    PartsParse(v.(pre := pre));
  }

  lemma CoreAlone(v: SemVer)
    requires Fits(v) && v.pre == ""
    ensures ParseTrimmed(Core(v)) == Some(v)
  {
    CoreShape(v);
    CoreSplits(v);
    SplitLast(Core(v), '-');
    PartsParse(v);
  }

  lemma TrimKeeps(space: Space, s: string)
    requires s != [] && !space(s[0])
    ensures Trim(space, s) == TrimEnd(space, s)
    ensures !space(s[|s| - 1]) ==> Trim(space, s) == s
  {
  }

  lemma NoLeadingV(v: SemVer, s: string)
    requires Core(v) <= s
    ensures s != [] && StripV(s) == s && IsDigit(s[0])
  {
    CoreShape(v);
    assert s[0] == Core(v)[0];
  }

  lemma PrintedParses(space: Space, v: SemVer)
    requires Sane(space) && Fits(v) && Trimmed(space, v.pre)
    ensures Parse(space, Print(v)) == Some(v)
  {
    var s := Print(v);
    NoLeadingV(v, s);
    CoreShape(v);
    assert s[|s| - 1] == if v.pre == "" then Core(v)[|Core(v)| - 1] else v.pre[|v.pre| - 1];
    TrimKeeps(space, s);
    if v.pre == "" { CoreAlone(v); } else { CoreThenPre(v, v.pre); }
  }

  /** Printing then parsing gives the version back if and only if its pre-release does not end in white space. */
  lemma PrintParseExactly(space: Space, v: SemVer)
    requires Sane(space) && Fits(v)
    ensures Parse(space, Print(v)) == Some(v) <==> Trimmed(space, v.pre)
  {
    if Trimmed(space, v.pre) {
      PrintedParses(space, v);
    } else {
      var s := Print(v);
      NoLeadingV(v, s);
      TrimKeeps(space, s);
      var t := TrimEnd(space, s);
      assert s[|Core(v)|] == '-';
      assert |Core(v)| < |t| < |s| by {
        assert s[|s| - 1] == v.pre[|v.pre| - 1];
      }
      var pre := t[|Core(v)| + 1..];
      assert t == Core(v) + ['-'] + pre;
      NoLeadingV(v, t);
      CoreThenPre(v, pre);
      assert |pre| < |v.pre|;
    }
  }

  lemma PartsFit(parts: seq<string>, pre: string)
    requires ParseParts(parts, pre).Some?
    ensures Fits(ParseParts(parts, pre).value) && ParseParts(parts, pre).value.pre == pre
  {
  }

  lemma TrimmedShape(s: string)
    requires ParseTrimmed(s).Some?
    ensures var v := ParseTrimmed(s).value;
            Fits(v) && s != "" && (v.pre != "" ==> v.pre[|v.pre| - 1] == s[|s| - 1])
  {
    var i := IndexOf(s, '-');
    if i < |s| {
      PartsFit(Split(s[..i], '.'), s[i + 1..]);
    } else {
      PartsFit(Split(s, '.'), "");
    }
  }

  lemma StripKeepsEnd(space: Space, s: string)
    requires Trimmed(space, s)
    ensures Trimmed(space, StripV(s))
  {
  }

  lemma PreIsTrimmed(space: Space, s: string)
    requires ParseTrimmed(s).Some? && Trimmed(space, s)
    ensures Fits(ParseTrimmed(s).value) && Trimmed(space, ParseTrimmed(s).value.pre)
  {
    TrimmedShape(s);
  }

  lemma ParsedShape(space: Space, raw: string)
    requires Parse(space, raw).Some?
    ensures Fits(Parse(space, raw).value) && Trimmed(space, Parse(space, raw).value.pre)
  {
    var t := Trim(space, raw);
    assert Trimmed(space, t);
    StripKeepsEnd(space, t);
    PreIsTrimmed(space, StripV(t));
  }

  /** For every accepted text, printing what was parsed and parsing again changes nothing. */
  lemma ParsePrintParse(space: Space, raw: string)
    requires Sane(space) && Parse(space, raw).Some?
    ensures Parse(space, Print(Parse(space, raw).value)) == Parse(space, raw)
  {
    ParsedShape(space, raw);
    PrintedParses(space, Parse(space, raw).value);
  }

  // ---------------------------------------------------------------------------
  // Order
  // ---------------------------------------------------------------------------

  predicate TextLess(a: string, b: string) {
    if b == [] then false
    else if a == [] then true
    else a[0] < b[0] || (a[0] == b[0] && TextLess(a[1..], b[1..]))
  }

  /** `is_upgrade_over` from `a` to `b`; pre-releases compare as plain text. */
  predicate Rises(a: SemVer, b: SemVer) {
    || a.major < b.major
    || (a.major == b.major && a.minor < b.minor)
    || (a.major == b.major && a.minor == b.minor && a.patch < b.patch)
    || (a.major == b.major && a.minor == b.minor && a.patch == b.patch && TextLess(a.pre, b.pre))
  }

  lemma {:induction false} TextLessTransitive(a: string, b: string, c: string)
    requires TextLess(a, b) && TextLess(b, c)
    ensures TextLess(a, c)
  {
    if a != [] && a[0] == b[0] == c[0] { TextLessTransitive(a[1..], b[1..], c[1..]); }
  }

  lemma {:induction false} TextLessTotal(a: string, b: string)
    ensures !(TextLess(a, b) && TextLess(b, a))
    ensures a == b <==> !TextLess(a, b) && !TextLess(b, a)
  {
    if a != [] && b != [] {
      assert a == [a[0]] + a[1..] && b == [b[0]] + b[1..];
      TextLessTotal(a[1..], b[1..]);
    }
  }

  /** The order on versions is a strict total order. */
  lemma RisesIsStrictTotalOrder(a: SemVer, b: SemVer, c: SemVer)
    ensures !(Rises(a, b) && Rises(b, a))
    ensures a == b <==> !Rises(a, b) && !Rises(b, a)
    ensures Rises(a, b) && Rises(b, c) ==> Rises(a, c)
  {
    TextLessTotal(a.pre, b.pre);
    if TextLess(a.pre, b.pre) && TextLess(b.pre, c.pre) { TextLessTransitive(a.pre, b.pre, c.pre); }
  }
}
