/**
 * Agent versions and the feature flags they switch on: a component-by-component comparison that stops
 * at the first component that differs, so what follows it is never looked at.
 */
module Version {
  import opened Numbers

  // ---- Components ------------------------------------------------------------------------

  /** strings.Split on a full stop: always at least one component. */
  function Split(s: string): (parts: seq<string>)
    ensures |parts| > 0
  {
    if s == "" then [""]
    else
      var rest := Split(s[1..]);
      if s[0] == '.' then [""] + rest else [[s[0]] + rest[0]] + rest[1..]
  }

  function Join(parts: seq<string>): string
    requires |parts| > 0
  {
    if |parts| == 1 then parts[0] else parts[0] + "." + Join(parts[1..])
  }

  predicate Plain(part: string) {
    '.' !in part
  }

  lemma {:induction false} JoinSplit(s: string)
    ensures Join(Split(s)) == s && forall i :: 0 <= i < |Split(s)| ==> Plain(Split(s)[i])
  {
    if s == "" {
    } else {
      JoinSplit(s[1..]);
    }
  }

  lemma {:induction false} SplitPlain(s: string)
    requires Plain(s)
    ensures Split(s) == [s]
  {
    if s == "" {
    } else {
      SplitPlain(s[1..]);
      assert s == [s[0]] + s[1..];
    }
  }

  lemma {:induction false} SplitFirst(first: string, rest: string)
    requires Plain(first)
    ensures Split(first + "." + rest) == [first] + Split(rest)
  {
    var s := first + "." + rest;
    if first == "" {
      assert s[1..] == rest;
    } else {
      assert s[1..] == first[1..] + "." + rest;
      SplitFirst(first[1..], rest);
      assert first == [first[0]] + first[1..];
    }
  }

  lemma {:induction false} SplitJoin(parts: seq<string>)
    requires |parts| > 0 && forall i :: 0 <= i < |parts| ==> Plain(parts[i])
    ensures Split(Join(parts)) == parts
  {
    if |parts| == 1 {
      SplitPlain(parts[0]);
    } else {
      SplitJoin(parts[1..]);
      SplitFirst(parts[0], Join(parts[1..]));
    }
  }

  // ---- Numbers ---------------------------------------------------------------------------

  predicate IsDigit(c: char) {
    '0' <= c <= '9'
  }

  predicate AllDigits(s: string) {
    forall i :: 0 <= i < |s| ==> IsDigit(s[i])
  }

  function Decimal(s: string): nat
    requires AllDigits(s)
  {
    if s == "" then 0 else 10 * Decimal(s[..|s| - 1]) + (s[|s| - 1] - '0') as nat
  }

  /** strconv.Atoi: an optional sign and at least one digit, within 64 bits. */
  function Atoi(s: string): Option<I64> {
    var signed := s != "" && (s[0] == '-' || s[0] == '+');
    var digits := if signed then s[1..] else s;
    if digits == "" || !AllDigits(digits) then None
    else
      var n := if s[0] == '-' then -(Decimal(digits) as int) else Decimal(digits);
      if -TWO_63 <= n < TWO_63 then Some(n) else None
  }

  function Digits(n: nat): (s: string)
    ensures s != "" && AllDigits(s)
  {
    (if n < 10 then "" else Digits(n / 10)) + [(n % 10) as char + '0']
  }

  /** How a component is written. */
  function Itoa(n: I64): string {
    var m: int := n;
    if m < 0 then "-" + Digits(-m) else Digits(m)
  }

  lemma {:induction false} DecimalDigits(n: nat)
    ensures Decimal(Digits(n)) == n
  {
    var s := Digits(n);
    var front := if n < 10 then "" else Digits(n / 10);
    assert s[..|s| - 1] == front;
    if n >= 10 {
      DecimalDigits(n / 10);
    }
  }

  lemma AtoiReads(digits: string)
    requires digits != "" && AllDigits(digits)
    ensures Decimal(digits) < TWO_63 ==> Atoi(digits) == Some(Decimal(digits))
    ensures Decimal(digits) <= TWO_63 ==> Atoi("-" + digits) == Some(-(Decimal(digits) as int))
  {
    hide Decimal;
    assert ("-" + digits)[1..] == digits;
    assert IsDigit(digits[0]);
  }

  lemma AtoiItoa(n: I64)
    ensures Atoi(Itoa(n)) == Some(n) && Plain(Itoa(n))
  {
    hide Decimal, Digits, Atoi;
    var m: nat := if n < 0 then -(n as int) else n;
    DecimalDigits(m);
    AtoiReads(Digits(m));
  }

  /** What stands behind an optional sign. */
  function Bare(s: string): string {
    if s != "" && (s[0] == '+' || s[0] == '-') then s[1..] else s
  }

  /** Empty, a lone sign, a character that is no digit behind the optional sign, or beyond 64 bits. */
  predicate Malformed(s: string) {
    var digits := Bare(s);
    || digits == ""
    || (exists i :: 0 <= i < |digits| && !('0' <= digits[i] <= '9'))
    || (AllDigits(digits)
        && Decimal(digits) >= (if s[0] == '-' then 0x8000_0000_0000_0001 else 0x8000_0000_0000_0000))
  }

  /** A component is a number exactly when it is not malformed, and its value has the sign in front of it. */
  lemma AtoiIff(s: string)
    ensures Atoi(s).None? <==> Malformed(s)
    ensures !Malformed(s) ==> AllDigits(Bare(s))
                              && Atoi(s) == Some(if s[0] == '-' then -(Decimal(Bare(s)) as int) else Decimal(Bare(s)))
  {
    hide Decimal;
  }

  /** Zeros in front do not matter. */
  lemma {:induction false} LeadingZero(s: string)
    requires AllDigits(s)
    ensures Decimal("0" + s) == Decimal(s)
  {
    if s == "" {
      assert "0"[..0] == "";
    } else {
      LeadingZero(s[..|s| - 1]);
      assert ("0" + s)[..|s|] == "0" + s[..|s| - 1];
    }
  }

  // ---- The comparison --------------------------------------------------------------------

  /** The first `k` components of both are numbers, and the same numbers. */
  predicate Level(flag: seq<string>, agent: seq<string>, k: nat)
    requires k <= |flag| == |agent|
  {
    forall i :: 0 <= i < k ==> Atoi(flag[i]).Some? && Atoi(flag[i]) == Atoi(agent[i])
  }

  /** Component `k` is the first to differ, and the agent's is the larger. */
  predicate NewerAt(flag: seq<string>, agent: seq<string>, k: nat)
    requires |flag| == |agent|
  {
    && k < |flag| && Level(flag, agent, k)
    && Atoi(flag[k]).Some? && Atoi(agent[k]).Some? && Atoi(flag[k]).value < Atoi(agent[k]).value
  }

  ghost predicate PartsSupported(flag: seq<string>, agent: seq<string>) {
    |flag| == |agent| && (Level(flag, agent, |flag|) || exists k: nat :: NewerAt(flag, agent, k))
  }

  /** The agent has as many components, and is equal throughout or newer where it first differs. */
  ghost predicate Supported(flag: string, agentVersion: string) {
    PartsSupported(Split(flag), Split(agentVersion))
  }

  method SupportsVersion(flag: string, agentVersion: string) returns (ok: bool)
    ensures ok <==> Supported(flag, agentVersion)
  {
    hide Atoi;
    var these, agents := Split(flag), Split(agentVersion);
    if |these| != |agents| {
      return false;
    }
    for i := 0 to |these|
      invariant Level(these, agents, i)
    {
      var this', agent := Atoi(these[i]), Atoi(agents[i]);
      if this'.None? || agent.None? {
        return false;
      }
      if agent.value > this'.value {
        assert NewerAt(these, agents, i);
        return true;
      } else if agent.value < this'.value {
        return false;
      }
    }
    return true;
  }

  // ---- What the comparison means ---------------------------------------------------------

  predicate Numeric(parts: seq<string>) {
    forall i :: 0 <= i < |parts| ==> Atoi(parts[i]).Some?
  }

  function Values(parts: seq<string>): (r: seq<I64>)
    requires Numeric(parts)
    ensures |r| == |parts|
  {
    seq(|parts|, i requires 0 <= i < |parts| => Atoi(parts[i]).value)
  }

  /** The lexicographic order. */
  predicate LexLeq(x: seq<int>, y: seq<int>)
    requires |x| == |y|
  {
    x == [] || x[0] < y[0] || (x[0] == y[0] && LexLeq(x[1..], y[1..]))
  }

  lemma {:induction false} LexIsTotalOrder(x: seq<int>, y: seq<int>, z: seq<int>)
    requires |x| == |y| == |z|
    ensures LexLeq(x, y) || LexLeq(y, x)
    ensures LexLeq(x, y) && LexLeq(y, x) <==> x == y
    ensures LexLeq(x, y) && LexLeq(y, z) ==> LexLeq(x, z)
  {
    if x == [] {
    } else {
      LexIsTotalOrder(x[1..], y[1..], z[1..]);
      assert x == [x[0]] + x[1..] && y == [y[0]] + y[1..];
    }
  }

  /** The first component decides, unless both have the same number there. */
  lemma FirstDecides(flag: seq<string>, agent: seq<string>)
    requires |flag| == |agent| > 0
    ensures PartsSupported(flag, agent) <==>
            && Atoi(flag[0]).Some? && Atoi(agent[0]).Some?
            && (|| Atoi(flag[0]).value < Atoi(agent[0]).value
                || (Atoi(flag[0]) == Atoi(agent[0]) && PartsSupported(flag[1..], agent[1..])))
  {
    hide Atoi;
    if Atoi(flag[0]).Some? && Atoi(flag[0]) == Atoi(agent[0]) {
      forall k: nat | NewerAt(flag[1..], agent[1..], k)
        ensures NewerAt(flag, agent, k + 1)
      {
        assert forall i :: 0 < i <= k ==> flag[i] == flag[1..][i - 1] && agent[i] == agent[1..][i - 1];
      }
      forall k: nat | NewerAt(flag, agent, k)
        ensures k > 0 && NewerAt(flag[1..], agent[1..], k - 1)
      {
      }
    } else if Atoi(flag[0]).Some? && Atoi(agent[0]).Some? && Atoi(flag[0]).value < Atoi(agent[0]).value {
      assert NewerAt(flag, agent, 0);
    }
  }

  lemma ValuesTail(parts: seq<string>)
    requires Numeric(parts) && parts != []
    ensures Numeric(parts[1..]) && Values(parts)[1..] == Values(parts[1..])
  {
  }

  lemma {:induction false} PartsInOrder(flag: seq<string>, agent: seq<string>)
    requires Numeric(flag) && Numeric(agent) && |flag| == |agent|
    ensures PartsSupported(flag, agent) <==> LexLeq(Values(flag), Values(agent))
  {
    if flag == [] {
    } else {
      hide Atoi, PartsSupported;
      FirstDecides(flag, agent);
      ValuesTail(flag);
      ValuesTail(agent);
      PartsInOrder(flag[1..], agent[1..]);
    }
  }

  /** Between written-out numbers, a flag is supported by exactly the lexicographically larger or equal. */
  lemma SupportIsLexicographic(flag: seq<I64>, agent: seq<I64>)
    requires |flag| == |agent| > 0
    ensures Supported(Join(Written(flag)), Join(Written(agent))) <==> LexLeq(flag, agent)
  {
    ReadBack(flag);
    ReadBack(agent);
    PartsInOrder(Written(flag), Written(agent));
  }

  function Written(numbers: seq<I64>): (r: seq<string>)
    ensures |r| == |numbers|
  {
    seq(|numbers|, i requires 0 <= i < |numbers| => Itoa(numbers[i]))
  }

  lemma ReadBack(numbers: seq<I64>)
    requires |numbers| > 0
    ensures Split(Join(Written(numbers))) == Written(numbers)
    ensures Numeric(Written(numbers)) && Values(Written(numbers)) == numbers
  {
    var parts := Written(numbers);
    forall i | 0 <= i < |numbers|
      ensures Atoi(parts[i]) == Some(numbers[i]) && Plain(parts[i])
    {
      AtoiItoa(numbers[i]);
    }
    SplitJoin(parts);
  }

  // ---- Versions that are not comparable, and what is not looked at -----------------------

  function Stops(s: string): nat {
    if s == "" then 0 else (if s[0] == '.' then 1 else 0) + Stops(s[1..])
  }

  lemma {:induction false} ComponentCount(s: string)
    ensures |Split(s)| == Stops(s) + 1
  {
    if s == "" {
    } else {
      ComponentCount(s[1..]);
    }
  }

  /** Versions with different numbers of components are never comparable. */
  lemma CountsMustAgree(flag: string, agent: string)
    requires Stops(flag) != Stops(agent)
    ensures !Supported(flag, agent)
  {
    ComponentCount(flag);
    ComponentCount(agent);
  }

  /** Components without full stops, as many on each side, that agree on written-out numbers before `k`. */
  predicate AgreeBefore(flag: seq<string>, agent: seq<string>, numbers: seq<I64>) {
    && |numbers| < |flag| == |agent|
    && (forall i :: 0 <= i < |flag| ==> Plain(flag[i]) && Plain(agent[i]))
    && forall i :: 0 <= i < |numbers| ==> flag[i] == agent[i] == Itoa(numbers[i])
  }

  lemma AgreeingLevel(flag: seq<string>, agent: seq<string>, numbers: seq<I64>)
    requires AgreeBefore(flag, agent, numbers)
    ensures Split(Join(flag)) == flag && Split(Join(agent)) == agent
    ensures Level(flag, agent, |numbers|)
  {
    SplitJoin(flag);
    SplitJoin(agent);
    hide Atoi, Itoa;
    forall i | 0 <= i < |numbers| ensures Atoi(flag[i]).Some? && Atoi(flag[i]) == Atoi(agent[i]) {
      AtoiItoa(numbers[i]);
    }
  }

  /** Where the two first differ in value, or one has none, is the only place that can decide. */
  lemma NewerOnlyAt(flag: seq<string>, agent: seq<string>, k: nat, j: nat)
    requires k < |flag| == |agent| && Level(flag, agent, k) && NewerAt(flag, agent, j)
    requires !(Atoi(flag[k]).Some? && Atoi(flag[k]) == Atoi(agent[k]))
    ensures j == k
  {
    hide Atoi;
  }

  lemma DecidedAt(flag: seq<string>, agent: seq<string>, k: nat)
    requires k < |flag| == |agent| && Level(flag, agent, k)
    requires !(Atoi(flag[k]).Some? && Atoi(flag[k]) == Atoi(agent[k]))
    ensures PartsSupported(flag, agent) <==> NewerAt(flag, agent, k)
  {
    hide Atoi, NewerAt;
    forall j: nat ensures NewerAt(flag, agent, j) ==> j == k {
      if NewerAt(flag, agent, j) {
        NewerOnlyAt(flag, agent, k, j);
      }
    }
  }

  /** A malformed component on either side, where nothing before it decides, refuses the agent. */
  lemma MalformedIsRefused(flag: seq<string>, agent: seq<string>, numbers: seq<I64>)
    requires AgreeBefore(flag, agent, numbers)
    requires Malformed(flag[|numbers|]) || Malformed(agent[|numbers|])
    ensures !Supported(Join(flag), Join(agent))
  {
    var k := |numbers|;
    AgreeingLevel(flag, agent, numbers);
    AtoiIff(flag[k]);
    AtoiIff(agent[k]);
    hide Atoi, Malformed, PartsSupported;
    DecidedAt(flag, agent, k);
  }

  /** The first component that differs decides, whatever stands behind it. */
  lemma FirstDifferenceDecides(flag: seq<string>, agent: seq<string>, numbers: seq<I64>, x: I64, y: I64)
    requires AgreeBefore(flag, agent, numbers) && x != y
    requires flag[|numbers|] == Itoa(x) && agent[|numbers|] == Itoa(y)
    ensures Supported(Join(flag), Join(agent)) <==> x < y
  {
    var k := |numbers|;
    AgreeingLevel(flag, agent, numbers);
    AtoiItoa(x);
    AtoiItoa(y);
    hide Atoi, Itoa, PartsSupported;
    DecidedAt(flag, agent, k);
  }

  // ---- Flags against each other ----------------------------------------------------------

  lemma {:induction false} PartsMonotone(lower: seq<string>, higher: seq<string>, agent: seq<string>)
    requires Numeric(lower) && Numeric(higher) && |lower| == |higher|
    requires LexLeq(Values(lower), Values(higher)) && PartsSupported(higher, agent)
    ensures PartsSupported(lower, agent)
  {
    if lower == [] {
    } else {
      hide Atoi, PartsSupported;
      FirstDecides(higher, agent);
      FirstDecides(lower, agent);
      ValuesTail(lower);
      ValuesTail(higher);
      if Atoi(lower[0]) == Atoi(higher[0]) == Atoi(agent[0]) {
        PartsMonotone(lower[1..], higher[1..], agent[1..]);
      }
    }
  }

  /**
   * Over every agent string, well formed or not, whatever supports the higher of two numeric flags
   * supports the lower; and only the order makes it so.
   */
  lemma MonotoneIff(lower: string, higher: string)
    requires Numeric(Split(lower)) && Numeric(Split(higher)) && |Split(lower)| == |Split(higher)|
    ensures LexLeq(Values(Split(lower)), Values(Split(higher))) <==>
            forall agent: string :: Supported(higher, agent) ==> Supported(lower, agent)
  {
    var f, g := Split(lower), Split(higher);
    if LexLeq(Values(f), Values(g)) {
      forall agent: string | Supported(higher, agent)
        ensures Supported(lower, agent)
      {
        PartsMonotone(f, g, Split(agent));
      }
    } else {
      assert Level(g, g, |g|);
      assert Supported(higher, higher);
      PartsInOrder(f, g);
      assert !Supported(lower, higher);
    }
  }

  const MUX_SUPPORTED: string := "3.0.196.0"
  const SMUX_KEEP_ALIVE_SUPPORTED: string := "3.1.1511.0"

  lemma FourParts(a: string, b: string, c: string, d: string)
    requires Plain(a) && Plain(b) && Plain(c) && Plain(d)
    ensures Split(a + "." + (b + "." + (c + "." + d))) == [a, b, c, d]
  {
    SplitPlain(d);
    SplitFirst(c, d);
    SplitFirst(b, c + "." + d);
    SplitFirst(a, b + "." + (c + "." + d));
  }

  lemma FlagParts()
    ensures Split(MUX_SUPPORTED) == ["3", "0", "196", "0"]
    ensures Split(SMUX_KEEP_ALIVE_SUPPORTED) == ["3", "1", "1511", "0"]
  {
    hide Split;
    FourParts("3", "0", "196", "0");
    FourParts("3", "1", "1511", "0");
    assert MUX_SUPPORTED == "3" + "." + ("0" + "." + ("196" + "." + "0"));
    assert SMUX_KEEP_ALIVE_SUPPORTED == "3" + "." + ("1" + "." + ("1511" + "." + "0"));
  }

  lemma FlagNumbers()
    ensures Atoi("0") == Some(0) && Atoi("1") == Some(1) && Atoi("3") == Some(3)
    ensures Atoi("196") == Some(196) && Atoi("1511") == Some(1511)
  {
    assert "196"[..2] == "19" && "19"[..1] == "1";
    assert "1511"[..3] == "151" && "151"[..2] == "15" && "15"[..1] == "1";
  }

  /** Whatever agent supports keep-alives supports multiplexing. */
  lemma KeepAliveImpliesMux(agent: string)
    requires Supported(SMUX_KEEP_ALIVE_SUPPORTED, agent)
    ensures Supported(MUX_SUPPORTED, agent)
  {
    FlagParts();
    FlagNumbers();
    hide Atoi, PartsSupported, Split, AllDigits, Decimal;
    PartsMonotone(Split(MUX_SUPPORTED), Split(SMUX_KEEP_ALIVE_SUPPORTED), Split(agent));
  }
}
