/**
 The comparison of Codex versions, against the precedence rules of section 11 of Semantic
 Versioning 2.0.0.

 Numbers go through JavaScript's `Number`, which keeps 53 significant bits; a version is
 taken after its parts have been matched.
 */
module Versions {
  import opened Options
  import opened Text

  /** The sign of a comparison, or JavaScript's NaN. */
  datatype Sign = Less | Same | More | NotANumber

  /** `core` is major, minor and patch as digits; a version without prerelease has none. */
  datatype Version = Version(core: seq<string>, prerelease: seq<string>, build: string)

  // ----- numbers

  predicate Digits(s: string) { forall i :: 0 <= i < |s| ==> '0' <= s[i] <= '9' }

  predicate Numeric(s: string) { s != "" && Digits(s) }

  function Value(s: string): nat
    requires Digits(s)
  {
    if s == "" then 0 else 10 * Value(s[..|s| - 1]) + (s[|s| - 1] as int - '0' as int)
  }

  const TWO53: nat := 0x20_0000_0000_0000

  /** `q` of at most 53 bits, in units of `g`, and what is left over. */
  datatype Scaled = Scaled(q: nat, r: nat, g: nat)

  function Scale(n: nat): Scaled
    decreases n
  {
    if n < TWO53 then Scaled(n, 0, 1)
    else var s := Scale(n / 2); Scaled(s.q, 2 * s.r + n % 2, 2 * s.g)
  }

  /** The multiple of `g` nearest to `q * g + r`, on a tie the even one. */
  function Nearest(q: nat, r: nat, g: nat): nat {
    if 2 * r < g || (2 * r == g && q % 2 == 0) then q * g else (q + 1) * g
  }

  /** To the nearest double, ties to the even one. */
  function Rounded(n: nat): nat { var s := Scale(n); Nearest(s.q, s.r, s.g) }

  // 2^1024, from which on doubles are infinite.
  const OVERFLOW: nat := 0x10000000000000000000000000000000000000000000000000000000000000000000000000000000000000000000000000000000000000000000000000000000000000000000000000000000000000000000000000000000000000000000000000000000000000000000000000000000000000000000000000000000000000000

  datatype Double = Finite(n: nat) | Infinite

  function DoubleOf(n: nat): Double { if Rounded(n) < OVERFLOW then Finite(Rounded(n)) else Infinite }

  function Number(s: string): Double
    requires Numeric(s)
  {
    DoubleOf(Value(s))
  }

  function SignOf(a: int, b: int): Sign { if a < b then Less else if a == b then Same else More }

  /** The sign of a difference; infinity less infinity has none. */
  function Difference(a: Double, b: Double): Sign {
    match (a, b)
    case (Finite(m), Finite(n)) => SignOf(m, n)
    case (Finite(_), Infinite) => Less
    case (Infinite, Finite(_)) => More
    case (Infinite, Infinite) => NotANumber
  }

  function Flip(s: Sign): Sign {
    match s
    case Less => More
    case More => Less
    case _ => s
  }

  // ----- compareCodexVersions

  function ComparedCore(ls: seq<string>, rs: seq<string>): Sign
    requires |ls| == |rs| && (forall s :: s in ls ==> Numeric(s)) && (forall s :: s in rs ==> Numeric(s))
  {
    if ls == [] then Same
    else
      assert Numeric(ls[0]) && Numeric(rs[0]);
      var difference := Difference(Number(ls[0]), Number(rs[0]));
      if difference != Same then difference else ComparedCore(ls[1..], rs[1..])
  }

  /** Two identifiers that are not the same string. */
  function ComparedPart(l: string, r: string): Sign {
    if Numeric(l) && Numeric(r) then Difference(Number(l), Number(r))
    else if Numeric(l) then Less
    else if Numeric(r) then More
    else if Text.Less(l, r) then Less else More
  }

  function ComparedParts(ls: seq<string>, rs: seq<string>): Sign {
    if ls == [] && rs == [] then Same
    else if ls == [] then Less
    else if rs == [] then More
    else if ls[0] == rs[0] then ComparedParts(ls[1..], rs[1..])
    else ComparedPart(ls[0], rs[0])
  }

  predicate Matched(v: Version) { |v.core| == 3 && forall s :: s in v.core ==> Numeric(s) }

  function Compared(l: Version, r: Version): Sign
    requires Matched(l) && Matched(r)
  {
    var core := ComparedCore(l.core, r.core);
    if core != Same then core
    else if l.prerelease == [] then if r.prerelease == [] then Same else More
    else if r.prerelease == [] then Less
    else ComparedParts(l.prerelease, r.prerelease)
  }

  /** The comparison as it is computed; unreadable versions compare equal. */
  method CompareCodexVersions(left: Option<Version>, right: Option<Version>) returns (c: Sign)
    requires (left.Some? ==> Matched(left.value)) && (right.Some? ==> Matched(right.value))
    ensures c == if left.None? || right.None? then Same else Compared(left.value, right.value)
  {
    if left.None? || right.None? { return Same; }
    var l, r := left.value, right.value;
    var k := 0;
    while k < 3
      invariant 0 <= k <= 3
      invariant ComparedCore(l.core, r.core) == ComparedCore(l.core[k..], r.core[k..])
    {
      var difference := Difference(Number(l.core[k]), Number(r.core[k]));
      if difference != Same { return difference; }
      assert l.core[k..][1..] == l.core[k + 1..] && r.core[k..][1..] == r.core[k + 1..];
      k := k + 1;
    }
    if l.prerelease == [] { return if r.prerelease == [] then Same else More; }
    if r.prerelease == [] { return Less; }
    var length := if |l.prerelease| > |r.prerelease| then |l.prerelease| else |r.prerelease|;
    var i := 0;
    while i < length
      invariant 0 <= i <= length && (i > 0 ==> i <= |l.prerelease| && i <= |r.prerelease|)
      invariant ComparedParts(l.prerelease, r.prerelease) == ComparedParts(l.prerelease[i..], r.prerelease[i..])
    {
      if i >= |l.prerelease| { return Less; }
      if i >= |r.prerelease| { return More; }
      var a, b := l.prerelease[i], r.prerelease[i];
      if a != b {
        if Numeric(a) && Numeric(b) { return Difference(Number(a), Number(b)); }
        if Numeric(a) { return Less; }
        if Numeric(b) { return More; }
        return if Text.Less(a, b) then Less else More;
      }
      assert l.prerelease[i..][1..] == l.prerelease[i + 1..] && r.prerelease[i..][1..] == r.prerelease[i + 1..];
      i := i + 1;
    }
    return Same;
  }

  // ----- section 11

  function CorePrecedence(ls: seq<string>, rs: seq<string>): (s: Sign)
    requires |ls| == |rs| && (forall s :: s in ls ==> Numeric(s)) && (forall s :: s in rs ==> Numeric(s))
    ensures s != NotANumber
  {
    if ls == [] then Same
    else
      assert Numeric(ls[0]) && Numeric(rs[0]);
      if Value(ls[0]) != Value(rs[0]) then SignOf(Value(ls[0]), Value(rs[0])) else CorePrecedence(ls[1..], rs[1..])
  }

  /** Numeric identifiers numerically and below the others, which go by character. */
  function PartPrecedence(l: string, r: string): Sign {
    if Numeric(l) && Numeric(r) then SignOf(Value(l), Value(r))
    else if Numeric(l) then Less
    else if Numeric(r) then More
    else if Text.Less(l, r) then Less
    else if l == r then Same
    else More
  }

  /** From left to right until a difference; a longer list wins over its beginning. */
  function PartsPrecedence(ls: seq<string>, rs: seq<string>): (s: Sign)
    ensures s != NotANumber
  {
    if ls == [] then if rs == [] then Same else Less
    else if rs == [] then More
    else
      var first := PartPrecedence(ls[0], rs[0]);
      if first != Same then first else PartsPrecedence(ls[1..], rs[1..])
  }

  /** A version with a prerelease is below the same version without. */
  function Precedence(l: Version, r: Version): Sign
    requires Matched(l) && Matched(r)
  {
    var core := CorePrecedence(l.core, r.core);
    if core != Same then core
    else if l.prerelease == [] && r.prerelease == [] then Same
    else if l.prerelease == [] then More
    else if r.prerelease == [] then Less
    else PartsPrecedence(l.prerelease, r.prerelease)
  }

  predicate NoLeadingZero(s: string) { Numeric(s) ==> |s| == 1 || s[0] != '0' }

  /** Valid under section 9: no empty identifier and no leading zeros. */
  predicate Valid(v: Version) {
    && Matched(v)
    && (forall s :: s in v.core ==> NoLeadingZero(s))
    && (forall s :: s in v.prerelease ==> s != "" && NoLeadingZero(s))
  }

  // ----- precedence is an order

  lemma PartPrecedenceFlips(l: string, r: string)
    ensures PartPrecedence(r, l) == Flip(PartPrecedence(l, r))
  {
    LessIsTotal(l, r);
  }

  lemma {:induction false} PartsPrecedenceFlips(ls: seq<string>, rs: seq<string>)
    ensures PartsPrecedence(rs, ls) == Flip(PartsPrecedence(ls, rs))
  {
    if ls != [] && rs != [] {
      PartPrecedenceFlips(ls[0], rs[0]);
      PartsPrecedenceFlips(ls[1..], rs[1..]);
    }
  }

  lemma {:induction false} CorePrecedenceFlips(ls: seq<string>, rs: seq<string>)
    requires |ls| == |rs| && (forall s :: s in ls ==> Numeric(s)) && (forall s :: s in rs ==> Numeric(s))
    ensures CorePrecedence(rs, ls) == Flip(CorePrecedence(ls, rs))
  {
    if ls != [] { CorePrecedenceFlips(ls[1..], rs[1..]); }
  }

  /** `x` then `y`, neither going down, and whether the whole is level. */
  predicate Composes(ab: Sign, bc: Sign, ac: Sign) {
    ab != More && bc != More ==> ac != More && (ac == Same ==> ab == Same && bc == Same)
  }

  lemma PartPrecedenceComposes(a: string, b: string, c: string)
    ensures Composes(PartPrecedence(a, b), PartPrecedence(b, c), PartPrecedence(a, c))
  {
    LessIsTotal(a, b);
    LessIsTotal(b, c);
    LessIsTotal(a, c);
    if Text.Less(a, b) && Text.Less(b, c) { LessTransitive(a, b, c); }
  }

  lemma {:induction false} PartsPrecedenceComposes(a: seq<string>, b: seq<string>, c: seq<string>)
    ensures Composes(PartsPrecedence(a, b), PartsPrecedence(b, c), PartsPrecedence(a, c))
  {
    if a != [] && b != [] && c != [] {
      PartPrecedenceComposes(a[0], b[0], c[0]);
      PartsPrecedenceComposes(a[1..], b[1..], c[1..]);
      SameIsLevel(a[0], b[0], c[0]);
    }
  }

  lemma SameIsLevel(a: string, b: string, c: string)
    ensures PartPrecedence(a, b) == Same && PartPrecedence(b, c) == Same ==> PartPrecedence(a, c) == Same
  {
  }

  lemma {:induction false} CorePrecedenceComposes(a: seq<string>, b: seq<string>, c: seq<string>)
    requires |a| == |b| == |c| && (forall s :: s in a ==> Numeric(s))
    requires (forall s :: s in b ==> Numeric(s)) && (forall s :: s in c ==> Numeric(s))
    ensures Composes(CorePrecedence(a, b), CorePrecedence(b, c), CorePrecedence(a, c))
    ensures CorePrecedence(a, b) == Same && CorePrecedence(b, c) == Same ==> CorePrecedence(a, c) == Same
  {
    if a != [] { CorePrecedenceComposes(a[1..], b[1..], c[1..]); }
  }

  /** Section 11 gives a total preorder. */
  lemma PrecedenceIsOrder(a: Version, b: Version, c: Version)
    requires Matched(a) && Matched(b) && Matched(c)
    ensures Precedence(b, a) == Flip(Precedence(a, b)) && Precedence(a, a) == Same
    ensures Composes(Precedence(a, b), Precedence(b, c), Precedence(a, c))
  {
    CorePrecedenceFlips(a.core, b.core);
    CorePrecedenceFlips(a.core, a.core);
    PartsPrecedenceFlips(a.prerelease, b.prerelease);
    PartsPrecedenceFlips(a.prerelease, a.prerelease);
    CorePrecedenceComposes(a.core, b.core, c.core);
    PartsPrecedenceComposes(a.prerelease, b.prerelease, c.prerelease);
  }

  // ----- which numbers survive

  lemma Doubled(q: nat, g: nat)
    ensures q * (2 * g) == 2 * (q * g)
  {
  }

  lemma {:induction false} ScaleFacts(n: nat)
    ensures var s := Scale(n);
            && n == s.q * s.g + s.r && s.r < s.g && s.q < TWO53
            && (s.g > 1 ==> s.g % 2 == 0 && TWO53 <= 2 * s.q)
    decreases n
  {
    if n >= TWO53 {
      ScaleFacts(n / 2);
      var s := Scale(n / 2);
      Doubled(s.q, s.g);
    }
  }

  lemma {:induction false} ScaleGrows(a: nat, b: nat)
    requires a <= b
    ensures Scale(a).g == Scale(b).g || 2 * Scale(a).g <= Scale(b).g
    decreases b
  {
    ScaleFacts(b / 2);
    if a >= TWO53 { ScaleGrows(a / 2, b / 2); }
  }

  lemma Times(a: nat, b: nat, g: nat)
    requires a <= b
    ensures a * g <= b * g
  {
  }

  lemma NearestGrows(p: nat, r: nat, q: nat, t: nat, g: nat)
    requires r < g && t < g && p * g + r <= q * g + t
    ensures Nearest(p, r, g) <= Nearest(q, t, g)
  {
    if p < q {
      Times(p + 1, q, g);
      Times(q, q + 1, g);
    } else if p > q {
      Times(q + 1, p, g);
    }
  }

  lemma NearestBelow(p: nat, r: nat, f: nat)
    requires p < TWO53
    ensures Nearest(p, r, f) <= TWO53 * f
  {
    Times(p, TWO53, f);
    Times(p + 1, TWO53, f);
  }

  lemma NearestAbove(q: nat, t: nat, g: nat)
    requires TWO53 <= 2 * q
    ensures TWO53 * g <= 2 * Nearest(q, t, g)
  {
  }

  /** Rounding never reverses an order. */
  lemma RoundedGrows(a: nat, b: nat)
    requires a <= b
    ensures Rounded(a) <= Rounded(b)
  {
    ScaleGrows(a, b);
    ScaleFacts(a);
    ScaleFacts(b);
    var s, t := Scale(a), Scale(b);
    if s.g == t.g {
      NearestGrows(s.q, s.r, t.q, t.r, t.g);
    } else {
      NearestBelow(s.q, s.r, s.g);
      NearestAbove(t.q, t.r, t.g);
    }
  }

  /** Numbers that no other number is rounded to: up to the largest safe integer, and every
      second even one of the next binade. */
  predicate Isolated(n: nat) { n < TWO53 || (n < 2 * TWO53 && n % 4 == 2) }

  lemma ScaleInBinade(n: nat)
    requires TWO53 <= n < 2 * TWO53
    ensures Scale(n) == Scaled(n / 2, n % 2, 2)
  {
    assert n / 2 < TWO53;
  }

  lemma EvenIsExact(n: nat)
    requires TWO53 <= n < 2 * TWO53 && n % 2 == 0
    ensures Rounded(n) == n
  {
    ScaleInBinade(n);
  }

  lemma OddGoesDown(n: nat)
    requires TWO53 <= n < 2 * TWO53 && n % 4 == 1
    ensures Rounded(n) == n - 1
  {
    ScaleInBinade(n);
  }

  lemma OddGoesUp(n: nat)
    requires TWO53 <= n < 2 * TWO53 && n % 4 == 3
    ensures Rounded(n) == n + 1
  {
    ScaleInBinade(n);
  }

  lemma SmallIsExact(n: nat)
    requires n < TWO53
    ensures Rounded(n) == n
  {
  }

  lemma IsolatedIsExact(n: nat)
    requires Isolated(n)
    ensures Rounded(n) == n
  {
    if n < TWO53 {
      SmallIsExact(n);
    } else {
      EvenOfFour(n);
      EvenIsExact(n);
    }
  }

  lemma EvenOfFour(n: nat)
    requires n % 4 == 2
    ensures n % 2 == 0
  {
    var k := n / 4;
    assert n == 2 * (2 * k + 1);
  }

  lemma BelowInBinade(n: nat, m: nat)
    requires TWO53 <= n < 2 * TWO53 && n % 4 == 2 && m < n
    ensures Rounded(m) < n
  {
    var k := n - 1;
    OddGoesDown(k);
    RoundedGrows(m, k);
  }

  lemma AboveInBinade(n: nat, m: nat)
    requires TWO53 <= n < 2 * TWO53 && n % 4 == 2 && m > n
    ensures Rounded(m) > n
  {
    var k := n + 1;
    OddGoesUp(k);
    RoundedGrows(k, m);
  }

  lemma LargeStaysLarge(m: nat)
    requires m >= TWO53
    ensures Rounded(m) >= TWO53
  {
    EvenIsExact(TWO53);
    RoundedGrows(TWO53, m);
  }

  lemma BelowIsolated(n: nat, m: nat)
    requires Isolated(n) && m < n
    ensures Rounded(m) < n
  {
    if n < TWO53 { SmallIsExact(m); } else { BelowInBinade(n, m); }
  }

  lemma AboveIsolated(n: nat, m: nat)
    requires Isolated(n) && m > n
    ensures Rounded(m) > n
  {
    if m < TWO53 { SmallIsExact(m); }
    else if n < TWO53 { LargeStaysLarge(m); }
    else { AboveInBinade(n, m); }
  }

  lemma IsolatedKeepsOrder(n: nat, m: nat)
    requires Isolated(n)
    ensures Difference(DoubleOf(n), DoubleOf(m)) == SignOf(n, m)
  {
    IsolatedIsExact(n);
    if m < n { BelowIsolated(n, m); }
    if m > n { AboveIsolated(n, m); }
  }

  /** A number has one scaled form. */
  lemma {:induction false} ScaleAt(n: nat, k: nat, t: nat, g: nat)
    requires g == Scale(n).g > 1 && t < g && k < TWO53 <= 2 * k
    ensures Scale(k * g + t) == Scaled(k, t, g)
    decreases n
  {
    var h, x := Scale(n / 2).g, k * g + t;
    Doubled(k, h);
    assert x / 2 == k * h + t / 2 && x % 2 == t % 2;
    ScaleFacts(n / 2);
    Times(1, h, k);
    assert x >= TWO53;
    if h > 1 { ScaleAt(n / 2, k, t / 2, h); }
  }

  lemma MultipleIsFixed(n: nat, k: nat, g: nat)
    requires g == Scale(n).g > 1 && k <= TWO53 <= 2 * k
    ensures Rounded(k * g) == k * g
  {
    if k < TWO53 {
      ScaleAt(n, k, 0, g);
    } else {
      var half := TWO53 / 2;
      ScaleAt(n, half, 0, g);
      assert k * g == 2 * (half * g) == half * (2 * g);
      assert Scale(k * g) == Scaled(half, 0, 2 * g);
    }
  }

  /** What has been rounded stays. */
  lemma RoundedIsFixed(n: nat)
    ensures Rounded(Rounded(n)) == Rounded(n)
  {
    ScaleFacts(n);
    var s := Scale(n);
    if s.g > 1 {
      MultipleIsFixed(n, s.q, s.g);
      MultipleIsFixed(n, s.q + 1, s.g);
    }
  }

  /** Just above a multiple of the unit. */
  lemma OneMore(n: nat)
    requires Scale(n).r == 0 && !Isolated(n)
    ensures Rounded(n + 1) == Rounded(n)
  {
    ScaleFacts(n);
    var s := Scale(n);
    ScaleAt(n, s.q, 1, s.g);
    if s.g == 2 { assert s.q % 2 == 0; }
  }

  lemma UnevenMoves(n: nat)
    requires Scale(n).r != 0
    ensures Rounded(n) != n
  {
    ScaleFacts(n);
    var s := Scale(n);
    assert (s.q + 1) * s.g == s.q * s.g + s.g;
  }

  /** Every other number shares its double with a neighbour. */
  lemma OthersCollide(n: nat) returns (m: nat)
    requires !Isolated(n)
    ensures m != n && Rounded(m) == Rounded(n)
  {
    if Scale(n).r == 0 {
      OneMore(n);
      m := n + 1;
    } else {
      UnevenMoves(n);
      RoundedIsFixed(n);
      m := Rounded(n);
    }
  }

  // ----- digits

  function Decimal(n: nat): string {
    (if n < 10 then "" else Decimal(n / 10)) + [(n % 10 + '0' as int) as char]
  }

  lemma {:induction false} DecimalReads(n: nat)
    ensures Numeric(Decimal(n)) && Value(Decimal(n)) == n && NoLeadingZero(Decimal(n))
  {
    var s := Decimal(n);
    if n >= 10 {
      DecimalReads(n / 10);
      assert s[..|s| - 1] == Decimal(n / 10);
    } else {
      assert s[..|s| - 1] == "";
    }
  }

  lemma {:induction false} ValueIsLarge(s: string)
    requires Numeric(s) && s[0] != '0'
    ensures Value(s) >= 1 && (|s| > 1 ==> Value(s) >= 10)
  {
    var front := s[..|s| - 1];
    if |s| > 1 { ValueIsLarge(front); } else { assert front == "" && Value(front) == 0; }
  }

  /** Without leading zeros a number is written in one way. */
  lemma {:induction false} ValueIsInjective(a: string, b: string)
    requires Numeric(a) && Numeric(b) && NoLeadingZero(a) && NoLeadingZero(b) && Value(a) == Value(b)
    ensures a == b
  {
    var x, y := a[..|a| - 1], b[..|b| - 1];
    assert Value(x) == Value(y) && a[|a| - 1] == b[|b| - 1];
    if |a| > 1 { ValueIsLarge(a); }
    if |b| > 1 { ValueIsLarge(b); }
    if |a| > 1 && |b| > 1 {
      ValueIsInjective(x, y);
    } else {
      assert x == "" ==> Value(x) == 0;
      assert y == "" ==> Value(y) == 0;
    }
    assert a == x + [a[|a| - 1]] && b == y + [b[|b| - 1]];
  }

  // ----- when the comparison agrees

  /** Every number in the version survives `Number`. */
  predicate Safe(v: Version)
    requires Matched(v)
  {
    && (forall s :: s in v.core ==> Isolated(Value(s)))
    && (forall s :: s in v.prerelease && Numeric(s) ==> Isolated(Value(s)))
  }

  lemma {:induction false} CoreAgrees(ls: seq<string>, rs: seq<string>)
    requires |ls| == |rs| && (forall s :: s in ls ==> Numeric(s)) && (forall s :: s in rs ==> Numeric(s))
    requires forall s :: s in ls ==> Numeric(s) && Isolated(Value(s))
    ensures ComparedCore(ls, rs) == CorePrecedence(ls, rs)
  {
    if ls != [] {
      assert Numeric(ls[0]) && Numeric(rs[0]) && Isolated(Value(ls[0]));
      IsolatedKeepsOrder(Value(ls[0]), Value(rs[0]));
      CoreAgrees(ls[1..], rs[1..]);
    }
  }

  lemma PartAgrees(l: string, r: string)
    requires NoLeadingZero(l) && NoLeadingZero(r) && (Numeric(l) ==> Isolated(Value(l)))
    ensures l == r ==> PartPrecedence(l, r) == Same
    ensures l != r ==> PartPrecedence(l, r) == ComparedPart(l, r) != Same
  {
    LessIsTotal(l, r);
    if Numeric(l) && Numeric(r) {
      IsolatedKeepsOrder(Value(l), Value(r));
      if Value(l) == Value(r) { ValueIsInjective(l, r); }
    }
  }

  lemma {:induction false} PartsAgree(ls: seq<string>, rs: seq<string>)
    requires (forall s :: s in ls ==> NoLeadingZero(s)) && (forall s :: s in rs ==> NoLeadingZero(s))
    requires forall s :: s in ls && Numeric(s) ==> Isolated(Value(s))
    ensures ComparedParts(ls, rs) == PartsPrecedence(ls, rs)
  {
    if ls != [] && rs != [] {
      PartAgrees(ls[0], rs[0]);
      PartsAgree(ls[1..], rs[1..]);
    }
  }

  lemma SafeAgrees(l: Version, r: Version)
    requires Valid(l) && Valid(r) && Safe(l)
    ensures Compared(l, r) == Precedence(l, r)
  {
    CoreAgrees(l.core, r.core);
    PartsAgree(l.prerelease, r.prerelease);
  }

  /** The comparison does not tell which is higher. */
  predicate Vague(s: Sign) { s == Same || s == NotANumber }

  /** One number changed for another that rounds to the same. */
  lemma {:induction false} CoreCollides(ls: seq<string>, i: nat, d: string)
    requires i < |ls| && Numeric(d) && (forall s :: s in ls ==> Numeric(s))
    requires Numeric(ls[i]) && Number(d) == Number(ls[i]) && Value(d) != Value(ls[i])
    ensures forall s :: s in ls[i := d] ==> Numeric(s)
    ensures Vague(ComparedCore(ls, ls[i := d])) && !Vague(CorePrecedence(ls, ls[i := d]))
  {
    var rs := ls[i := d];
    if i == 0 {
      assert rs[1..] == ls[1..];
      CoreReflexive(ls[1..]);
    } else {
      assert rs[1..] == ls[1..][i - 1 := d] && rs[0] == ls[0];
      CoreCollides(ls[1..], i - 1, d);
    }
  }

  lemma {:induction false} CoreReflexive(ls: seq<string>)
    requires forall s :: s in ls ==> Numeric(s)
    ensures Vague(ComparedCore(ls, ls)) && CorePrecedence(ls, ls) == Same
  {
    if ls != [] { CoreReflexive(ls[1..]); }
  }

  lemma {:induction false} PartsReflexive(ls: seq<string>)
    ensures ComparedParts(ls, ls) == Same
  {
    if ls != [] { PartsReflexive(ls[1..]); }
  }

  lemma {:induction false} PartsCollide(ls: seq<string>, i: nat, d: string)
    requires i < |ls| && Numeric(d) && Numeric(ls[i]) && Number(d) == Number(ls[i]) && Value(d) != Value(ls[i])
    ensures Vague(ComparedParts(ls, ls[i := d])) && !Vague(PartsPrecedence(ls, ls[i := d]))
  {
    var rs := ls[i := d];
    if i > 0 {
      assert rs[1..] == ls[1..][i - 1 := d] && rs[0] == ls[0];
      LessIsTotal(ls[0], ls[0]);
      PartsCollide(ls[1..], i - 1, d);
    }
  }

  /** Another way to write the same double. */
  predicate Collides(s: string, d: string) {
    Numeric(s) && Numeric(d) && NoLeadingZero(d) && Number(d) == Number(s) && Value(d) != Value(s)
  }

  lemma CollidingNumber(s: string) returns (d: string)
    requires Numeric(s) && !Isolated(Value(s))
    ensures Collides(s, d)
  {
    var m := OthersCollide(Value(s));
    DecimalReads(m);
    d := Decimal(m);
  }

  ghost predicate Mistaken(l: Version, r: Version) {
    Matched(l) && Valid(r) && Vague(Compared(l, r)) && !Vague(Precedence(l, r))
  }

  lemma UnsafeCoreDisagrees(l: Version, i: nat)
    requires Valid(l) && i < 3 && Numeric(l.core[i]) && !Isolated(Value(l.core[i]))
    ensures exists r :: Mistaken(l, r)
  {
    var d := CollidingNumber(l.core[i]);
    CoreCollides(l.core, i, d);
    PartsReflexive(l.prerelease);
    PartsPrecedenceFlips(l.prerelease, l.prerelease);
    var r := l.(core := l.core[i := d]);
    assert Mistaken(l, r);
  }

  lemma UnsafePartDisagrees(l: Version, j: nat)
    requires Valid(l) && j < |l.prerelease| && Numeric(l.prerelease[j]) && !Isolated(Value(l.prerelease[j]))
    ensures exists r :: Mistaken(l, r)
  {
    var d := CollidingNumber(l.prerelease[j]);
    PartsCollide(l.prerelease, j, d);
    CoreReflexive(l.core);
    var r := l.(prerelease := l.prerelease[j := d]);
    assert d != "" && forall s :: s in r.prerelease ==> s in l.prerelease || s == d;
    assert Valid(r);
    assert r.prerelease != [] && l.prerelease != [];
    assert Mistaken(l, r);
  }

  /** A version with an unsafe number cannot be told from another one. */
  lemma UnsafeDisagrees(l: Version)
    requires Valid(l) && !Safe(l)
    ensures exists r :: Mistaken(l, r)
  {
    if i :| 0 <= i < |l.core| && Numeric(l.core[i]) && !Isolated(Value(l.core[i])) {
      UnsafeCoreDisagrees(l, i);
    } else {
      var j := UnsafeIdentifier(l);
      UnsafePartDisagrees(l, j);
    }
  }

  lemma UnsafeIdentifier(l: Version) returns (j: nat)
    requires Valid(l) && !Safe(l)
    requires forall i :: 0 <= i < |l.core| && Numeric(l.core[i]) ==> Isolated(Value(l.core[i]))
    ensures j < |l.prerelease| && Numeric(l.prerelease[j]) && !Isolated(Value(l.prerelease[j]))
  {
    var s :| s in l.prerelease && Numeric(s) && !Isolated(Value(s));
    j :| 0 <= j < |l.prerelease| && l.prerelease[j] == s;
  }

  /** The comparison agrees with section 11 for all partners exactly when the version's own
      numbers are safe. */
  lemma AgreesExactlyWhenSafe(l: Version)
    requires Valid(l)
    ensures Safe(l) <==> forall r :: Valid(r) ==> Compared(l, r) == Precedence(l, r)
  {
    if Safe(l) {
      forall r | Valid(r) ensures Compared(l, r) == Precedence(l, r) { SafeAgrees(l, r); }
    } else {
      UnsafeDisagrees(l);
    }
  }

  /** On valid versions with safe numbers the comparison is an antisymmetric, transitive and
      total preorder that does not look at build metadata. */
  lemma ComparisonIsOrder(a: Version, b: Version, c: Version, build: string)
    requires Valid(a) && Valid(b) && Valid(c) && Safe(a) && Safe(b) && Safe(c)
    ensures Compared(b, a) == Flip(Compared(a, b)) && Compared(a, a) == Same
    ensures Composes(Compared(a, b), Compared(b, c), Compared(a, c))
    ensures Compared(a.(build := build), b) == Compared(a, b) == Compared(a, b.(build := build))
  {
    SafeAgrees(a, b);
    SafeAgrees(b, a);
    SafeAgrees(b, c);
    SafeAgrees(a, c);
    SafeAgrees(a, a);
    PrecedenceIsOrder(a, b, c);
  }

  lemma PrereleasesInACircle(p: string, q: string)
    requires NoLeadingZero(p) && Collides(p, q) && Number(p).Finite?
    ensures ComparedParts([p, "b"], [q]) == Same && ComparedParts([q], [p, "a"]) == Same
    ensures ComparedParts([p, "b"], [p, "a"]) == More
  {
  }

  lemma {:induction false} FiniteReflexive(ls: seq<string>)
    requires forall s :: s in ls ==> Numeric(s) && Number(s).Finite?
    ensures ComparedCore(ls, ls) == Same
  {
    if ls != [] { FiniteReflexive(ls[1..]); }
  }

  lemma {:induction false} InfiniteCore(ls: seq<string>, i: nat)
    requires i < |ls| && (forall s :: s in ls ==> Numeric(s)) && Numeric(ls[i]) && Number(ls[i]).Infinite?
    ensures ComparedCore(ls, ls) == NotANumber
  {
    assert Numeric(ls[0]);
    if Number(ls[0]).Finite? { InfiniteCore(ls[1..], i - 1); }
  }

  /** Beyond the range of doubles a version does not even compare equal to itself. */
  lemma InfiniteIsNotItself(v: Version, i: nat)
    requires Matched(v) && i < 3 && Numeric(v.core[i]) && Number(v.core[i]).Infinite?
    ensures Compared(v, v) == NotANumber
  {
    InfiniteCore(v.core, i);
  }

  /** Without safety it is not even transitive: for any unsafe finite `p`, 2^53 for one, there
      is a `q` such that the prereleases `p.b`, `q` and `p.a` compare equal in turn, but the
      first is above the last. */
  lemma UnsafeIsNotTransitive(core: seq<string>, p: string)
    requires |core| == 3 && (forall s :: s in core ==> Numeric(s) && NoLeadingZero(s) && Number(s).Finite?)
    requires Numeric(p) && NoLeadingZero(p) && !Isolated(Value(p)) && Number(p).Finite?
    ensures exists a, b, c :: Valid(a) && Valid(b) && Valid(c) &&
              Compared(a, b) == Same && Compared(b, c) == Same && Compared(a, c) == More
  {
    var q := CollidingNumber(p);
    PrereleasesInACircle(p, q);
    FiniteReflexive(core);
    var a, b, c := Version(core, [p, "b"], ""), Version(core, [q], ""), Version(core, [p, "a"], "");
    assert Valid(a) && Valid(b) && Valid(c) && Compared(a, b) == Same && Compared(b, c) == Same && Compared(a, c) == More;
  }
}
