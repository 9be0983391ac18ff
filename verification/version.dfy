/** The version codec: dotted strings, and integers with two decimal digits each for minor and micro. */
module Version {
  import opened Common

  const MIN_INT: int := -0x8000_0000_0000_0000
  const MAX_INT: int := 0x7fff_ffff_ffff_ffff

  /** Go's int on the guests this runs on. */
  type Int = x: int | MIN_INT <= x <= MAX_INT

  datatype Version = Version(major: Int, minor: Int, micro: Int)

  // ---------------------------------------------------------------- integers

  /** Division and remainder truncate toward zero. */
  function Quo(a: int, b: int): int
    requires b > 0
  {
    if a >= 0 then a / b else -((-a) / b)
  }

  function Rem(a: int, b: int): int
    requires b > 0
  {
    a - b * Quo(a, b)
  }

  function Wrap(x: int): Int {
    (x - MIN_INT) % 0x1_0000_0000_0000_0000 + MIN_INT
  }

  function ParseInt(v: Int): Version {
    Version(Quo(v, 10000), Quo(Rem(v, 10000), 100), Rem(Rem(v, 10000), 100))
  }

  function Exact(v: Version): int { v.major * 10000 + v.minor * 100 + v.micro }

  function ToInt(v: Version): Int { Wrap(Exact(v)) }

  /** The versions that have an integer of their own: one sign throughout, two digits each, in range. */
  predicate Canonical(v: Version) {
    && -100 < v.minor < 100 && -100 < v.micro < 100
    && ((v.major >= 0 && v.minor >= 0 && v.micro >= 0) || (v.major <= 0 && v.minor <= 0 && v.micro <= 0))
    && -0x8000_0000_0000_0000 <= Exact(v) <= 0x7fff_ffff_ffff_ffff
  }

  lemma QuoRem(a: int, b: int)
    requires b > 0
    ensures a == b * Quo(a, b) + Rem(a, b)
    ensures -b < Rem(a, b) < b
    ensures a >= 0 ==> Rem(a, b) >= 0 && Quo(a, b) >= 0
    ensures a <= 0 ==> Rem(a, b) <= 0 && Quo(a, b) <= 0
  {
  }

  lemma QuoUnique(a: int, b: int, q: int, r: int)
    requires b > 0 && a == b * q + r && -b < r < b
    requires (q >= 0 && r >= 0) || (q <= 0 && r <= 0)
    ensures Quo(a, b) == q && Rem(a, b) == r
  {
    QuoRem(a, b);
    var d := Quo(a, b) - q;
    assert b * d == r - Rem(a, b);
    assert a > 0 ==> r >= 0;
    assert a < 0 ==> r <= 0;
    MultipleOf(b, d);
  }

  lemma MultipleOf(b: int, d: int)
    requires b > 0
    ensures d >= 1 ==> b * d >= b
    ensures d <= -1 ==> b * d <= -b
  {
  }

  lemma WrapInRange(x: int)
    requires MIN_INT <= x <= MAX_INT
    ensures Wrap(x) == x
  {
  }

  /** Every integer survives ParseInt and back, and what ParseInt yields is canonical. */
  lemma IntRoundTrip(v: Int)
    ensures ToInt(ParseInt(v)) == v
    ensures Canonical(ParseInt(v))
  {
    hide Wrap, Quo, Rem;
    QuoRem(v, 10000);
    QuoRem(Rem(v, 10000), 100);
    WrapInRange(v);
  }

  /** A version survives ToInt and back exactly when it is canonical. */
  lemma VersionRoundTripIffCanonical(v: Version)
    ensures ParseInt(ToInt(v)) == v <==> Canonical(v)
  {
    hide Wrap, Quo, Rem;
    IntRoundTrip(ToInt(v));
    if Canonical(v) {
      WrapInRange(Exact(v));
      QuoUnique(v.minor * 100 + v.micro, 100, v.minor, v.micro);
      QuoUnique(Exact(v), 10000, v.major, v.minor * 100 + v.micro);
    }
  }

  predicate Before(a: Version, b: Version) {
    || a.major < b.major
    || (a.major == b.major && a.minor < b.minor)
    || (a.major == b.major && a.minor == b.minor && a.micro < b.micro)
  }

  /** On canonical versions the integers are ordered as the versions are. */
  lemma IntOrderIsLexicographic(a: Version, b: Version)
    requires Canonical(a) && Canonical(b)
    ensures ToInt(a) < ToInt(b) <==> Before(a, b)
  {
    hide Wrap;
    WrapInRange(Exact(a));
    WrapInRange(Exact(b));
  }

  // ---------------------------------------------------------------- strings

  function Digit(d: nat): char
    requires d < 10
  {
    '0' + d as char
  }

  predicate IsDigit(c: char) { '0' <= c <= '9' }

  predicate AllDigits(s: string) { forall i :: 0 <= i < |s| ==> IsDigit(s[i]) }

  function Digits(n: nat): (s: string)
    ensures s != [] && AllDigits(s)
  {
    if n < 10 then [Digit(n)] else Digits(n / 10) + [Digit(n % 10)]
  }

  /** strconv.Itoa, and %d. */
  function Itoa(n: int): string {
    if n < 0 then "-" + Digits(-n) else Digits(n)
  }

  function Value(s: string): nat
    requires AllDigits(s)
  {
    if s == [] then 0 else Value(s[..|s| - 1]) * 10 + (s[|s| - 1] as int - '0' as int)
  }

  function Unsigned(s: string): Option<nat> {
    if s != [] && AllDigits(s) then Some(Value(s)) else None
  }

  /** strconv.Atoi: an optional sign, decimal digits, in range. */
  function Atoi(s: string): Option<Int> {
    var signed := s != [] && (s[0] == '-' || s[0] == '+');
    var n := Unsigned(if signed then s[1..] else s);
    if n == None then None
    else
      var m: int := n.value;
      var v := if signed && s[0] == '-' then -m else m;
      if MIN_INT <= v <= MAX_INT then Some(v) else None
  }

  /** One more character in front of a text split at its dots. */
  function Push(c: char, parts: seq<string>): (r: seq<string>)
    requires parts != []
    ensures r != []
  {
    if c == '.' then [""] + parts else [[c] + parts[0]] + parts[1..]
  }

  /** strings.Split(s, "."). */
  function Split(s: string): (parts: seq<string>)
    ensures parts != []
  {
    if s == [] then [""] else Push(s[0], Split(s[1..]))
  }

  /** unicode.IsSpace. */
  predicate IsSpace(c: char) {
    || '\t' <= c <= '\r' || c == ' ' || c == '\U{85}' || c == '\U{a0}' || c == '\U{1680}'
    || '\U{2000}' <= c <= '\U{200a}' || c == '\U{2028}' || c == '\U{2029}' || c == '\U{202f}'
    || c == '\U{205f}' || c == '\U{3000}'
  }

  function TrimLeft(s: string): string {
    if s != [] && IsSpace(s[0]) then TrimLeft(s[1..]) else s
  }

  function TrimRight(s: string): string {
    if s != [] && IsSpace(s[|s| - 1]) then TrimRight(s[..|s| - 1]) else s
  }

  function TrimSpace(s: string): string { TrimRight(TrimLeft(s)) }

  function ToString(v: Version): string {
    Itoa(v.major) + "." + Itoa(v.minor) + "." + Itoa(v.micro)
  }

  /** What parseString yields: the parts as integers, missing ones 0. */
  function Parsed(s: string): Option<Version> {
    var parts := Split(TrimSpace(s));
    if |parts| > 3 then None
    else
      var a := Atoi(parts[0]);
      var b := if |parts| > 1 then Atoi(parts[1]) else Some(0);
      var c := if |parts| > 2 then Atoi(parts[2]) else Some(0);
      if a == None || b == None || c == None then None else Some(Version(a.value, b.value, c.value))
  }

  method ParseString(s: string) returns (r: Option<Version>)
    ensures r == Parsed(s)
  {
    hide Atoi, Split, TrimSpace;
    var parts := Split(TrimSpace(s));
    if |parts| > 3 {
      return None;
    }
    var vv: seq<Int> := [];
    for idx := 0 to |parts|
      invariant |vv| == idx && forall i :: 0 <= i < idx ==> Atoi(parts[i]) == Some(vv[i])
    {
      var v := Atoi(parts[idx]);
      if v == None {
        return None;
      }
      vv := vv + [v.value];
    }
    var i := |parts|;
    while i <= 3
      invariant |parts| <= i <= 4 && |vv| == i
      invariant forall j :: 0 <= j < |parts| ==> Atoi(parts[j]) == Some(vv[j])
      invariant forall j :: |parts| <= j < i ==> vv[j] == 0
    {
      vv := vv + [0];
      i := i + 1;
    }
    r := Some(Version(vv[0], vv[1], vv[2]));
  }

  lemma {:induction false} ValueOfDigits(n: nat)
    ensures Value(Digits(n)) == n
  {
    if n >= 10 {
      ValueOfDigits(n / 10);
      var s := Digits(n);
      assert s[..|s| - 1] == Digits(n / 10);
    } else {
      assert Digits(n)[..0] == [];
    }
  }

  lemma AtoiOfItoa(n: Int)
    ensures Atoi(Itoa(n)) == Some(n)
  {
    if n < 0 {
      var m: int := n;
      ValueOfDigits(-m);
      assert Itoa(m)[1..] == Digits(-m);
    } else {
      ValueOfDigits(n);
      assert IsDigit(Itoa(n)[0]);
    }
  }

  predicate NoDot(s: string) { forall i :: 0 <= i < |s| ==> s[i] != '.' }

  lemma {:induction false} SplitNoDot(a: string)
    requires NoDot(a)
    ensures Split(a) == [a]
  {
    if a != [] {
      SplitNoDot(a[1..]);
      assert [a[0]] + a[1..] == a;
    }
  }

  lemma SplitJoin(a: string, s: string)
    requires NoDot(a)
    ensures Split(a) == [a]
    ensures Split(a + "." + s) == [a] + Split(s)
  {
    SplitNoDot(a);
    SplitAppend(a, s);
  }

  lemma ItoaChars(n: int)
    ensures Itoa(n) != [] && NoDot(Itoa(n))
    ensures forall i :: 0 <= i < |Itoa(n)| ==> !IsSpace(Itoa(n)[i])
  {
  }

  /** Parsing a printed version returns it, for every version. */
  lemma PrintedVersionParses(v: Version)
    ensures Parsed(ToString(v)) == Some(v)
  {
    var a, b, c := Itoa(v.major), Itoa(v.minor), Itoa(v.micro);
    ItoaChars(v.major);
    ItoaChars(v.minor);
    ItoaChars(v.micro);
    var s := ToString(v);
    assert s[0] == a[0] && s[|s| - 1] == c[|c| - 1];
    assert TrimSpace(s) == s;
    hide Atoi, Split, TrimSpace, Itoa;
    assert s == a + "." + (b + "." + c);
    SplitJoin(a, b + "." + c);
    SplitJoin(b, c);
    SplitJoin(c, "");
    AtoiOfItoa(v.major);
    AtoiOfItoa(v.minor);
    AtoiOfItoa(v.micro);
  }

  function Dots(s: string): nat {
    if s == [] then 0 else (if s[0] == '.' then 1 else 0) + Dots(s[1..])
  }

  lemma {:induction false} DotsAreParts(s: string)
    ensures |Split(s)| == Dots(s) + 1
  {
    if s != [] {
      DotsAreParts(s[1..]);
    }
  }

  lemma {:induction false} DotsConcat(s: string, t: string)
    ensures Dots(s + t) == Dots(s) + Dots(t)
  {
    if s == [] {
      assert s + t == t;
    } else {
      assert (s + t)[1..] == s[1..] + t;
      DotsConcat(s[1..], t);
    }
  }

  lemma {:induction false} TrimKeepsDots(s: string)
    ensures Dots(TrimLeft(s)) == Dots(s) && Dots(TrimRight(s)) == Dots(s)
    decreases |s|
  {
    if s != [] {
      var n := |s| - 1;
      TrimKeepsDots(s[1..]);
      TrimKeepsDots(s[..n]);
      assert s == s[..n] + [s[n]];
      DotsConcat(s[..n], [s[n]]);
    }
  }

  /** A part that is empty, or has anything but decimal digits after an optional sign. */
  ghost predicate BadPart(part: string) {
    || part in {"", "+", "-"}
    || exists i :: 0 <= i < |part| && !('0' <= part[i] <= '9') && (i > 0 || (part[i] != '+' && part[i] != '-'))
  }

  lemma BadPartIsNoNumber(part: string)
    requires BadPart(part)
    ensures Atoi(part) == None
  {
    if part !in {"", "+", "-"} {
      var i :| 0 <= i < |part| && !('0' <= part[i] <= '9') && (i > 0 || (part[i] != '+' && part[i] != '-'));
      var signed := part[0] == '-' || part[0] == '+';
      var rest := if signed then part[1..] else part;
      assert rest[if signed then i - 1 else i] == part[i];
      assert !AllDigits(rest);
    }
  }

  /** More than three parts, or a part that is no number, make a string no version. */
  lemma BadVersionsAreRefused(s: string)
    ensures Dots(s) >= 3 ==> Parsed(s) == None
    ensures (exists i :: 0 <= i < |Split(TrimSpace(s))| && BadPart(Split(TrimSpace(s))[i])) ==> Parsed(s) == None
  {
    TrimKeepsDots(s);
    TrimKeepsDots(TrimLeft(s));
    DotsAreParts(TrimSpace(s));
    hide Split, Atoi, BadPart;
    var parts := Split(TrimSpace(s));
    if i :| 0 <= i < |parts| && BadPart(parts[i]) {
      BadPartIsNoNumber(parts[i]);
    }
  }

  /** A one- or two-part string parses as if padded with zeros, once the space around it is gone. */
  lemma ShortVersionsArePadded(s: string)
    requires |Split(TrimSpace(s))| <= 2
    ensures Parsed(s) == Parsed(TrimSpace(s) + if |Split(TrimSpace(s))| == 1 then ".0.0" else ".0")
  {
    TrimIdempotent(s);
    hide Atoi, TrimSpace;
    var t := TrimSpace(s);
    ZeroParts();
    SplitAppend(t, "0");
    SplitAppend(t, "0.0");
    assert t + "." + "0.0" == t + ".0.0" && t + "." + "0" == t + ".0";
    TrimmedStays(t, ".0.0");
    TrimmedStays(t, ".0");
    hide Split;
  }

  lemma ZeroParts()
    ensures Split("0") == ["0"] && Split("0.0") == ["0", "0"] && Atoi("0") == Some(0)
  {
    SplitJoin("0", "0");
    assert "0" + "." + "0" == "0.0";
    AtoiOfItoa(0);
    assert Itoa(0) == "0";
  }

  lemma PushConcat(c: char, a: seq<string>, b: seq<string>)
    requires a != []
    ensures Push(c, a + b) == Push(c, a) + b
  {
  }

  lemma {:induction false} SplitAppend(s: string, t: string)
    ensures Split(s + "." + t) == Split(s) + Split(t)
  {
    if s == [] {
      assert s + "." + t == "." + t && ("." + t)[1..] == t;
    } else {
      SplitAppend(s[1..], t);
      PushConcat(s[0], Split(s[1..]), Split(t));
      hide Push;
      assert (s + "." + t)[1..] == s[1..] + "." + t;
    }
  }

  lemma {:induction false} TrimmedLeft(s: string)
    ensures TrimLeft(s) == [] || !IsSpace(TrimLeft(s)[0])
  {
    if s != [] && IsSpace(s[0]) {
      TrimmedLeft(s[1..]);
    }
  }

  lemma {:induction false} TrimmedRight(s: string)
    ensures TrimRight(s) <= s
    ensures TrimRight(s) == [] || !IsSpace(TrimRight(s)[|TrimRight(s)| - 1])
    decreases |s|
  {
    if s != [] && IsSpace(s[|s| - 1]) {
      TrimmedRight(s[..|s| - 1]);
    }
  }

  lemma TrimIdempotent(s: string)
    ensures TrimSpace(TrimSpace(s)) == TrimSpace(s)
    ensures TrimSpace(s) == [] || !IsSpace(TrimSpace(s)[0])
  {
    TrimmedLeft(s);
    TrimmedRight(TrimLeft(s));
  }

  lemma TrimmedStays(s: string, t: string)
    requires TrimSpace(s) == s && |t| > 0 && t[0] == '.' && !IsSpace(t[|t| - 1])
    ensures TrimSpace(s + t) == s + t
  {
    TrimIdempotent(s);
    assert (s + t)[0] == if s == [] then '.' else s[0];
    assert (s + t)[|s + t| - 1] == t[|t| - 1];
  }
}
