/** The order of the series in a line graph: `numbered` of termui/linegraph.go. */
module NaturalOrder {
  import opened GoInt
  import opened Text
  import S = Sequences

  /** The number of leading digits. */
  function Run(s: string): (n: nat)
    ensures n <= |s| && AllDigits(s[..n]) && (n < |s| ==> !IsDigit(s[n]))
  {
    if s == "" || !IsDigit(s[0]) then 0
    else
      var n := Run(s[1..]);
      assert s[..n + 1] == [s[0]] + s[1..][..n];
      n + 1
  }

  /** What `Less` answers for two names. */
  predicate NameLess(a: string, b: string) {
    if a == "" then true
    else if b == "" then false
    else if IsDigit(a[0]) then
      if !IsDigit(b[0]) then true
      else
        var ae, be := Run(a), Run(b);
        if be < ae then false
        else if Atoi(a[..ae]).None? || Atoi(b[..be]).None? then true
        else if Atoi(a[..ae]) == Atoi(b[..be]) then NameLess(a[ae..], b[ae..])
        else Atoi(a[..ae]).value < Atoi(b[..be]).value
    else if IsDigit(b[0]) then false
    else if a[0] == b[0] then NameLess(a[1..], b[1..])
    else a[0] < b[0]
  }

  method Less(n: seq<string>, i: nat, j: nat) returns (less: bool)
    requires i < |n| && j < |n|
    ensures less == NameLess(n[i], n[j])
  {
    hide Atoi, NameLess, Run;
    NamesFromStart(n[i], n[j]);
    var ars, brs := n[i], n[j];
    var ai := 0;
    while ai < |ars|
      invariant 0 <= ai <= |ars| && ai <= |brs|
      invariant NameLess(ars, brs) == NameLess(ars[ai..], brs[ai..])
    {
      LessFrom(ars, brs, ai);
      var ar := ars[ai];
      if ai >= |brs| {
        return false;
      }
      var br := brs[ai];
      if IsDigit(ar) {
        if !IsDigit(brs[ai]) {
          return true;
        }
        var ae := ai + 1;
        var be := ae;
        while ae < |ars| && IsDigit(ars[ae])
          invariant ai < ae <= |ars|
          invariant forall k :: ai <= k < ae ==> IsDigit(ars[k])
        {
          ae := ae + 1;
        }
        while be < |brs| && IsDigit(brs[be])
          invariant ai < be <= |brs|
          invariant forall k :: ai <= k < be ==> IsDigit(brs[k])
        {
          be := be + 1;
        }
        LessAtNumbers(ars, brs, ai, ae, be);
        if be < ae {
          return false;
        }
        var adigs := Atoi(ars[ai..ae]);
        if adigs.None? {
          return true;
        }
        var bdigs := Atoi(brs[ai..be]);
        if bdigs.None? {
          return true;
        }
        if adigs.value == bdigs.value {
          ai := ae;
          continue;
        }
        return adigs.value < bdigs.value;
      } else if IsDigit(br) {
        return false;
      }
      if ar == br {
        ai := ai + 1;
        continue;
      }
      return ar < br;
    }
    LessAtEnd(brs[ai..], ars[ai..]);
    return ai <= |brs|;
  }

  lemma NamesFromStart(a: string, b: string)
    ensures a[0..] == a && b[0..] == b
  {
  }

  lemma LessAtEnd(b: string, rest: string)
    requires rest == ""
    ensures NameLess(rest, b)
  {
  }

  /** One step of the scan, on the names from the current position on. */
  lemma LessFrom(a: string, b: string, i: nat)
    requires i < |a| && i <= |b|
    ensures i == |b| ==> !NameLess(a[i..], b[i..])
    ensures i < |b| && IsDigit(a[i]) && !IsDigit(b[i]) ==> NameLess(a[i..], b[i..])
    ensures i < |b| && !IsDigit(a[i]) && IsDigit(b[i]) ==> !NameLess(a[i..], b[i..])
    ensures i < |b| && !IsDigit(a[i]) && !IsDigit(b[i]) ==>
              NameLess(a[i..], b[i..]) == if a[i] == b[i] then NameLess(a[i + 1..], b[i + 1..]) else a[i] < b[i]
  {
    hide Atoi, Run;
    assert a[i..][0] == a[i] && a[i..][1..] == a[i + 1..];
    if i < |b| {
      assert b[i..][0] == b[i] && b[i..][1..] == b[i + 1..];
    }
  }

  /** The same where both names go on with a number. */
  lemma LessAtNumbers(a: string, b: string, i: nat, ae: nat, be: nat)
    requires i < ae <= |a| && i < be <= |b|
    requires forall k :: i <= k < ae ==> IsDigit(a[k])
    requires forall k :: i <= k < be ==> IsDigit(b[k])
    requires (ae < |a| ==> !IsDigit(a[ae])) && (be < |b| ==> !IsDigit(b[be]))
    ensures NameLess(a[i..], b[i..]) ==
              if be < ae then false
              else if Atoi(a[i..ae]).None? || Atoi(b[i..be]).None? then true
              else if Atoi(a[i..ae]) == Atoi(b[i..be]) then NameLess(a[ae..], b[ae..])
              else Atoi(a[i..ae]).value < Atoi(b[i..be]).value
  {
    hide Atoi, Run, IsDigit, AllDigits;
    NumberAt(a, i, ae, ae);
    NumberAt(b, i, be, if ae <= be then ae else be);
  }

  lemma NumberAt(s: string, i: nat, e: nat, m: nat)
    requires i < e <= |s| && i <= m <= e
    requires forall k :: i <= k < e ==> IsDigit(s[k])
    requires e < |s| ==> !IsDigit(s[e])
    ensures IsDigit(s[i..][0]) && Run(s[i..]) == e - i
    ensures s[i..][..e - i] == s[i..e] && s[i..][m - i..] == s[m..]
  {
    RunEnds(s, i, e);
  }

  lemma {:induction false} RunEnds(s: string, i: nat, e: nat)
    requires i <= e <= |s|
    requires forall k :: i <= k < e ==> IsDigit(s[k])
    requires e < |s| ==> !IsDigit(s[e])
    ensures Run(s[i..]) == e - i
    decreases e - i
  {
    if i < e {
      assert s[i..][1..] == s[i + 1..];
      RunEnds(s, i + 1, e);
    }
  }

  // ---------------------------------------------------------------- what the order means

  /** A name is a sequence of whole numbers and single other characters. */
  datatype Token = Number(digits: string) | Other(c: char)

  function Tokens(s: string): seq<Token> {
    if s == "" then []
    else if IsDigit(s[0]) then [Number(s[..Run(s)])] + Tokens(s[Run(s)..])
    else [Other(s[0])] + Tokens(s[1..])
  }

  predicate WellFormed(t: Token) {
    t.Number? ==> t.digits != "" && AllDigits(t.digits)
  }

  predicate Fits(digits: string) {
    AllDigits(digits) && FitsInt(Value(digits))
  }

  /** Numbers come before other characters; numbers go by value, characters by code. */
  predicate TokenLess(t: Token, u: Token)
    requires WellFormed(t) && WellFormed(u)
  {
    match (t, u)
    case (Number(x), Number(y)) => Value(x) < Value(y)
    case (Number(_), Other(_)) => true
    case (Other(_), Number(_)) => false
    case (Other(c), Other(d)) => c < d
  }

  predicate AllWellFormed(ts: seq<Token>) {
    forall i :: 0 <= i < |ts| ==> WellFormed(ts[i])
  }

  /** Lexicographic order on tokens; a proper prefix comes first. */
  predicate Precedes(ts: seq<Token>, us: seq<Token>)
    requires AllWellFormed(ts) && AllWellFormed(us)
  {
    if us == [] then false
    else if ts == [] then true
    else if ts[0] == us[0] then Precedes(ts[1..], us[1..])
    else TokenLess(ts[0], us[0])
  }

  lemma {:induction false} TokensWellFormed(s: string)
    ensures AllWellFormed(Tokens(s))
  {
    if s != "" {
      TokensWellFormed(if IsDigit(s[0]) then s[Run(s)..] else s[1..]);
    }
  }

  lemma {:induction false} TokensInjective(a: string, b: string)
    requires Tokens(a) == Tokens(b)
    ensures a == b
  {
    if a != "" && b != "" {
      assert Tokens(a)[0] == Tokens(b)[0];
      var n := if IsDigit(a[0]) then Run(a) else 1;
      assert n == if IsDigit(b[0]) then Run(b) else 1;
      assert Tokens(a)[1..] == Tokens(a[n..]) && Tokens(b)[1..] == Tokens(b[n..]);
      TokensInjective(a[n..], b[n..]);
      assert a == a[..n] + a[n..] && b == b[..n] + b[n..];
    }
  }

  /** How devices/cpu_cpu.go names its series: every number is padded with zeros to one minimum
      width, so only a number of that width may start with a zero. */
  predicate PaddedToken(width: nat, t: Token) {
    t.Number? ==>
      && Fits(t.digits)
      && |t.digits| >= width
      && (|t.digits| > width ==> t.digits[0] != '0')
  }

  predicate PaddedTokens(width: nat, ts: seq<Token>) {
    forall i :: 0 <= i < |ts| ==> PaddedToken(width, ts[i])
  }

  predicate Padded(width: nat, s: string) {
    PaddedTokens(width, Tokens(s))
  }

  lemma PaddedNumbers(width: nat, x: string, y: string)
    requires x != "" && y != "" && PaddedToken(width, Number(x)) && PaddedToken(width, Number(y))
    ensures Value(x) == Value(y) ==> x == y
    ensures |x| < |y| ==> Value(x) < Value(y)
  {
    if |x| < |y| {
      LongerIsGreater(x, y);
    } else if |y| < |x| {
      LongerIsGreater(y, x);
    } else if Value(x) == Value(y) {
      SameLengthSameValue(x, y);
    }
  }

  lemma UnsignedAtoi(x: string)
    requires x != "" && AllDigits(x)
    ensures Atoi(x) == if FitsInt(Value(x)) then Some(Value(x)) else None
  {
    assert IsDigit(x[0]);
  }

  /** On padded names `Less` is lexicographic order on tokens, except that it also holds
      between equal names. */
  lemma {:induction false} LessIsLexicographic(width: nat, a: string, b: string)
    requires Padded(width, a) && Padded(width, b)
    ensures AllWellFormed(Tokens(a)) && AllWellFormed(Tokens(b))
    ensures NameLess(a, b) <==> a == b || Precedes(Tokens(a), Tokens(b))
  {
    hide Atoi, Value, FitsInt, Tokens, PaddedToken, PaddedTokens, Run, WellFormed;
    TokensWellFormed(a);
    TokensWellFormed(b);
    TokensFrom(a);
    TokensFrom(b);
    if a == "" || b == "" {
    } else {
      PaddedFrom(width, Tokens(a));
      PaddedFrom(width, Tokens(b));
      if IsDigit(a[0]) && IsDigit(b[0]) {
        var x, y := a[..Run(a)], b[..Run(b)];
        PaddedNumbers(width, x, y);
        PaddedNumbers(width, y, x);
        NumberValue(width, x);
        NumberValue(width, y);
        if x == y {
          LessIsLexicographic(width, a[Run(a)..], b[Run(b)..]);
        }
      } else if !IsDigit(a[0]) && !IsDigit(b[0]) && a[0] == b[0] {
        LessIsLexicographic(width, a[1..], b[1..]);
      }
    }
  }

  /** The first token of a name, and the name without it. */
  lemma TokensFrom(s: string)
    ensures s == "" <==> Tokens(s) == []
    ensures s != "" && IsDigit(s[0]) ==>
              && Run(s) > 0 && s == s[..Run(s)] + s[Run(s)..]
              && Tokens(s)[0] == Number(s[..Run(s)]) && Tokens(s)[1..] == Tokens(s[Run(s)..])
    ensures s != "" && !IsDigit(s[0]) ==>
              s == [s[0]] + s[1..] && Tokens(s)[0] == Other(s[0]) && Tokens(s)[1..] == Tokens(s[1..])
  {
    NoTokens();
    hide Run, AllDigits, IsDigit, Tokens;
    if s != "" && IsDigit(s[0]) {
      RunOfDigit(s);
      FirstNumber(s);
      FrontAndRest(s, Run(s));
      OneThenMore(Number(s[..Run(s)]), Tokens(s[Run(s)..]));
    } else if s != "" {
      FirstOther(s);
      FrontAndRest(s, 1);
      OneThenMore(Other(s[0]), Tokens(s[1..]));
    }
  }

  lemma NoTokens()
    ensures Tokens("") == []
  {
  }

  lemma FrontAndRest(s: string, n: nat)
    requires n <= |s|
    ensures s == s[..n] + s[n..] && (n == 1 ==> s[..n] == [s[0]])
  {
  }

  lemma OneThenMore(t: Token, ts: seq<Token>)
    ensures var all := [t] + ts; all != [] && all[0] == t && all[1..] == ts
  {
  }

  lemma RunOfDigit(s: string)
    requires s != "" && IsDigit(s[0])
    ensures Run(s) > 0
  {
  }

  lemma FirstNumber(s: string)
    requires s != "" && IsDigit(s[0])
    ensures Tokens(s) == [Number(s[..Run(s)])] + Tokens(s[Run(s)..])
  {
    RunOfDigit(s);
    hide Run, AllDigits, IsDigit;
  }

  lemma FirstOther(s: string)
    requires s != "" && !IsDigit(s[0])
    ensures Tokens(s) == [Other(s[0])] + Tokens(s[1..])
  {
    hide Run, AllDigits, IsDigit;
  }

  lemma PaddedFrom(width: nat, ts: seq<Token>)
    requires PaddedTokens(width, ts) && ts != []
    ensures PaddedToken(width, ts[0]) && PaddedTokens(width, ts[1..])
  {
  }

  lemma NumberValue(width: nat, x: string)
    requires PaddedToken(width, Number(x)) && x != ""
    ensures Atoi(x) == Some(Value(x))
  {
    UnsignedAtoi(x);
  }

  lemma {:induction false} PrecedesTotal(width: nat, ts: seq<Token>, us: seq<Token>)
    requires AllWellFormed(ts) && AllWellFormed(us) && PaddedTokens(width, ts) && PaddedTokens(width, us)
    ensures ts == us ==> !Precedes(ts, us)
    ensures ts != us ==> (Precedes(ts, us) <==> !Precedes(us, ts))
  {
    if ts != [] && us != [] {
      if ts[0] == us[0] {
        PrecedesTotal(width, ts[1..], us[1..]);
        assert ts == [ts[0]] + ts[1..] && us == [us[0]] + us[1..];
      } else if ts[0].Number? && us[0].Number? {
        PaddedNumbers(width, ts[0].digits, us[0].digits);
      }
    }
  }

  lemma {:induction false} PrecedesTransitive(ts: seq<Token>, us: seq<Token>, vs: seq<Token>)
    requires AllWellFormed(ts) && AllWellFormed(us) && AllWellFormed(vs)
    requires Precedes(ts, us) && Precedes(us, vs)
    ensures Precedes(ts, vs)
  {
    if ts != [] && ts[0] == us[0] && us[0] == vs[0] {
      PrecedesTransitive(ts[1..], us[1..], vs[1..]);
    }
  }

  /** On padded names `Less` is a total order. */
  lemma LessIsATotalOrder(width: nat, a: string, b: string, c: string)
    requires Padded(width, a) && Padded(width, b) && Padded(width, c)
    ensures NameLess(a, b) || NameLess(b, a)
    ensures NameLess(a, b) && NameLess(b, a) ==> a == b
    ensures NameLess(a, b) && NameLess(b, c) ==> NameLess(a, c)
  {
    LessIsLexicographic(width, a, b);
    LessIsLexicographic(width, b, a);
    LessIsLexicographic(width, b, c);
    LessIsLexicographic(width, a, c);
    PrecedesTotal(width, Tokens(a), Tokens(b));
    if Tokens(a) == Tokens(b) {
      TokensInjective(a, b);
    }
    if NameLess(a, b) && NameLess(b, c) && a != b && b != c {
      PrecedesTransitive(Tokens(a), Tokens(b), Tokens(c));
    }
  }

  // ---------------------------------------------------------------- the processors' names

  /** `CPU%1d`, or `CPU%02d` once there are more than ten. */
  function CpuName(cpuCount: nat, i: nat): string {
    "CPU" + (if cpuCount > 10 && i < 10 then "0" else "") + NatToString(i)
  }

  lemma {:induction false} NoLeadingZero(n: nat)
    ensures n >= 10 ==> |NatToString(n)| >= 2 && NatToString(n)[0] != '0'
    ensures n < 10 ==> |NatToString(n)| == 1
  {
    if n >= 10 {
      NoLeadingZero(n / 10);
      if n / 10 < 10 {
        assert NatToString(n / 10) == ['0' + (n / 10) as char];
      }
    }
  }

  /** The digits in the name of the i-th processor. */
  function CpuDigits(cpuCount: nat, i: nat): string {
    (if cpuCount > 10 && i < 10 then "0" else "") + NatToString(i)
  }

  lemma CpuDigitsPadded(cpuCount: nat, i: nat)
    requires FitsInt(i)
    ensures var digits := CpuDigits(cpuCount, i);
            && digits != "" && AllDigits(digits) && Value(digits) == i
            && PaddedToken(if cpuCount > 10 then 2 else 1, Number(digits))
            && CpuName(cpuCount, i) == "CPU" + digits
  {
    var number := NatToString(i);
    NoLeadingZero(i);
    if cpuCount > 10 && i < 10 {
      PrefixedZero(number);
      assert ("CPU" + "0") + number == "CPU" + ("0" + number);
    } else {
      assert "" + number == number && "CPU" + "" == "CPU";
    }
    hide NatToString, Value;
  }

  /** The name ends in the number, and has no more zeros in front of it than two digits take. */
  lemma CpuNameShape(cpuCount: nat, i: nat)
    ensures var name, number := CpuName(cpuCount, i), NatToString(i);
            && |name| == 3 + Max(|number|, if cpuCount > 10 then 2 else 1)
            && name[..3] == "CPU" && name[|name| - |number|..] == number
            && forall k :: 3 <= k < |name| - |number| ==> name[k] == '0'
  {
    NoLeadingZero(i);
    hide NatToString;
  }

  lemma PrefixedZero(digit: string)
    requires |digit| == 1 && AllDigits(digit)
    ensures AllDigits("0" + digit) && |"0" + digit| == 2 && Value("0" + digit) == Value(digit)
  {
    var s := "0" + digit;
    assert s[..1] == "0" && "0"[..0] == "" && s[1] == digit[0] && digit[..0] == "";
    assert Value("0") == 0;
  }

  lemma TokensOfCpu(digits: string)
    requires digits != "" && AllDigits(digits)
    ensures Tokens("CPU" + digits) == [Other('C'), Other('P'), Other('U'), Number(digits)]
  {
    var s := "CPU" + digits;
    assert s[1..] == "PU" + digits && s[1..][1..] == "U" + digits && s[1..][1..][1..] == digits;
    RunEnds(digits, 0, |digits|);
    assert digits[0..] == digits && digits[..|digits|] == digits && digits[|digits|..] == "";
    assert Tokens(digits) == [Number(digits)];
    assert Tokens("U" + digits) == [Other('U')] + Tokens(digits);
    assert Tokens("PU" + digits) == [Other('P')] + Tokens("U" + digits);
    assert Tokens(s) == [Other('C')] + Tokens("PU" + digits);
  }

  /** The names of the processors are padded as the order needs it, so it is the order of their numbers. */
  lemma CpusInNumericOrder(cpuCount: nat, i: nat, j: nat)
    requires FitsInt(i) && FitsInt(j)
    ensures Padded(if cpuCount > 10 then 2 else 1, CpuName(cpuCount, i))
    ensures NameLess(CpuName(cpuCount, i), CpuName(cpuCount, j)) <==> i <= j
  {
    var width := if cpuCount > 10 then 2 else 1;
    var x, y := CpuDigits(cpuCount, i), CpuDigits(cpuCount, j);
    CpuDigitsPadded(cpuCount, i);
    CpuDigitsPadded(cpuCount, j);
    hide CpuDigits, CpuName, PaddedToken, Value, Fits, Padded, NameLess;
    CpuNumbersDecide(width, x, y);
  }

  lemma CpuNumbersDecide(width: nat, x: string, y: string)
    requires x != "" && PaddedToken(width, Number(x)) && y != "" && PaddedToken(width, Number(y))
    ensures Padded(width, "CPU" + x) && Padded(width, "CPU" + y)
    ensures NameLess("CPU" + x, "CPU" + y) <==> Value(x) <= Value(y)
  {
    TokensOfCpu(x);
    TokensOfCpu(y);
    OnlyNumberMatters(width, x);
    OnlyNumberMatters(width, y);
    hide Tokens, NameLess;
    LessIsLexicographic(width, "CPU" + x, "CPU" + y);
    PaddedNumbers(width, x, y);
    hide PaddedToken, Fits, Padded, Value;
    AfterCpu(x, y);
    assert ("CPU" + x)[3..] == x && ("CPU" + y)[3..] == y;
  }

  lemma AfterCpu(x: string, y: string)
    requires x != "" && AllDigits(x) && y != "" && AllDigits(y)
    ensures && AllWellFormed([Other('C'), Other('P'), Other('U'), Number(x)])
            && AllWellFormed([Other('C'), Other('P'), Other('U'), Number(y)])
            && (Precedes([Other('C'), Other('P'), Other('U'), Number(x)], [Other('C'), Other('P'), Other('U'), Number(y)])
                <==> x != y && Value(x) < Value(y))
  {
    hide Value;
    var ts, us := [Other('C'), Other('P'), Other('U'), Number(x)], [Other('C'), Other('P'), Other('U'), Number(y)];
    assert ts[1..] == [Other('P'), Other('U'), Number(x)] && us[1..] == [Other('P'), Other('U'), Number(y)];
    assert ts[1..][1..] == [Other('U'), Number(x)] && us[1..][1..] == [Other('U'), Number(y)];
    assert ts[1..][1..][1..] == [Number(x)] && us[1..][1..][1..] == [Number(y)];
    assert Precedes(ts, us) == Precedes(ts[1..], us[1..]) == Precedes(ts[1..][1..], us[1..][1..])
        == Precedes([Number(x)], [Number(y)]);
    assert [Number(x)][1..] == [] && [Number(y)][1..] == [];
    assert Precedes([Number(x)], [Number(y)]) == (if x == y then Precedes([], []) else TokenLess(Number(x), Number(y)));
  }

  lemma OnlyNumberMatters(width: nat, digits: string)
    requires PaddedToken(width, Number(digits))
    ensures PaddedTokens(width, [Other('C'), Other('P'), Other('U'), Number(digits)])
  {
  }

  // ---------------------------------------------------------------- where the order breaks

  /** Do two different numbers compare the same way from both sides? The one with more digits
      never counts as less; so the other must, because its value is smaller, because the values
      agree and its name ends here, or because one of them is out of range. */
  predicate NumbersSettled(x: string, y: string, xLast: bool, yLast: bool)
    requires AllDigits(x) && AllDigits(y)
  {
    if |x| == |y| then Fits(x) && Fits(y)
    else if |x| < |y| then !Fits(x) || !Fits(y) || Value(x) < Value(y) || (Value(x) == Value(y) && xLast)
    else !Fits(x) || !Fits(y) || Value(y) < Value(x) || (Value(x) == Value(y) && yLast)
  }

  /** Compares the first tokens in which the names differ; numbers they share must be in range. */
  predicate Settled(ts: seq<Token>, us: seq<Token>)
    requires AllWellFormed(ts) && AllWellFormed(us)
  {
    if ts == [] || us == [] then true
    else if ts[0] == us[0] then (ts[0].Number? ==> Fits(ts[0].digits)) && Settled(ts[1..], us[1..])
    else if ts[0].Number? && us[0].Number? then
      NumbersSettled(ts[0].digits, us[0].digits, |ts| == 1, |us| == 1)
    else true
  }

  /** Two different names are ordered one way and not the other exactly when they are settled. */
  lemma {:induction false} OrderedIffSettled(a: string, b: string)
    requires a != b
    ensures AllWellFormed(Tokens(a)) && AllWellFormed(Tokens(b))
    ensures NameLess(a, b) != NameLess(b, a) <==> Settled(Tokens(a), Tokens(b))
  {
    hide Atoi, Value, FitsInt, Tokens;
    TokensWellFormed(a);
    TokensWellFormed(b);
    TokensFrom(a);
    TokensFrom(b);
    if a == "" || b == "" {
    } else if IsDigit(a[0]) && IsDigit(b[0]) {
      var x, y := a[..Run(a)], b[..Run(b)];
      UnsignedAtoi(x);
      UnsignedAtoi(y);
      if x == y {
        OrderedIffSettled(a[Run(a)..], b[Run(b)..]);
      } else if |x| == |y| {
        if Value(x) == Value(y) {
          SameLengthSameValue(x, y);
        }
      } else if |x| < |y| {
        UnevenNumbers(a, b);
      } else {
        UnevenNumbers(b, a);
      }
    } else if !IsDigit(a[0]) && !IsDigit(b[0]) && a[0] == b[0] {
      OrderedIffSettled(a[1..], b[1..]);
    }
  }

  /** The scan carries on at the same index in both names, so after equal values of unequal
      width it meets a digit of the longer number. */
  lemma UnevenNumbers(a: string, b: string)
    requires 0 < Run(a) < Run(b)
    ensures Value(a[..Run(a)]) == Value(b[..Run(b)]) && Fits(a[..Run(a)])
            ==> (NameLess(a, b) <==> Run(a) == |a|)
    ensures Run(a) == |a| <==> |Tokens(a)| == 1
    ensures !NameLess(b, a)
  {
    UnsignedAtoi(a[..Run(a)]);
    UnsignedAtoi(b[..Run(b)]);
    assert b[Run(a)..][0] == b[..Run(b)][Run(a)];
    if Run(a) < |a| {
      assert !IsDigit(a[Run(a)..][0]);
    }
  }

  /** Neither of these is less than the other. */
  lemma UnpaddedNamesClash()
    ensures !NameLess("1x", "01x") && !NameLess("01x", "1x")
  {
    assert Run("1x") == 1 && Run("01x") == 2 by {
      assert "1x"[1..] == "x" && "01x"[1..] == "1x";
    }
    UnevenNumbers("1x", "01x");
    assert "1x"[..1] == "1" && "01x"[..2] == "01" && "01"[..1] == "0" && "1"[..0] == "";
  }

  // ---------------------------------------------------------------- settled names

  /** Settled numbers go by width first, then by value. */
  predicate ComesFirst(t: Token, u: Token)
    requires WellFormed(t) && WellFormed(u)
  {
    match (t, u)
    case (Number(x), Number(y)) => |x| < |y| || (|x| == |y| && Value(x) < Value(y))
    case (Number(_), Other(_)) => true
    case (Other(_), Number(_)) => false
    case (Other(c), Other(d)) => c < d
  }

  predicate Comes(ts: seq<Token>, us: seq<Token>)
    requires AllWellFormed(ts) && AllWellFormed(us)
  {
    if us == [] then false
    else if ts == [] then true
    else if ts[0] == us[0] then Comes(ts[1..], us[1..])
    else ComesFirst(ts[0], us[0])
  }

  lemma {:induction false} ComesTransitive(ts: seq<Token>, us: seq<Token>, vs: seq<Token>)
    requires AllWellFormed(ts) && AllWellFormed(us) && AllWellFormed(vs)
    ensures !Comes(ts, ts)
    ensures Comes(ts, us) && Comes(us, vs) ==> Comes(ts, vs)
  {
    hide Value;
    if ts != [] {
      ComesTransitive(ts[1..], if us == [] then [] else us[1..], if vs == [] then [] else vs[1..]);
    }
  }

  /** Between settled names `Less` is lexicographic order on tokens, with numbers ordered this way. */
  lemma {:induction false} LessOfSettled(a: string, b: string)
    requires a != b
    ensures AllWellFormed(Tokens(a)) && AllWellFormed(Tokens(b))
    ensures Settled(Tokens(a), Tokens(b)) ==> (NameLess(a, b) <==> Comes(Tokens(a), Tokens(b)))
  {
    hide Atoi, Value, FitsInt, Tokens;
    TokensWellFormed(a);
    TokensWellFormed(b);
    TokensFrom(a);
    TokensFrom(b);
    if a == "" || b == "" {
    } else if IsDigit(a[0]) && IsDigit(b[0]) {
      var x, y := a[..Run(a)], b[..Run(b)];
      UnsignedAtoi(x);
      UnsignedAtoi(y);
      if x == y {
        LessOfSettled(a[Run(a)..], b[Run(b)..]);
      } else if |x| == |y| {
        if Value(x) == Value(y) {
          SameLengthSameValue(x, y);
        }
      } else if |x| < |y| {
        UnevenNumbers(a, b);
      } else {
        UnevenNumbers(b, a);
      }
    } else if !IsDigit(a[0]) && !IsDigit(b[0]) && a[0] == b[0] {
      LessOfSettled(a[1..], b[1..]);
    }
  }

  /** Equal, or ordered one way and not the other. */
  predicate SettledNames(a: string, b: string) {
    TokensWellFormed(a);
    TokensWellFormed(b);
    a == b || Settled(Tokens(a), Tokens(b))
  }

  lemma {:induction false} LessOfItself(a: string)
    ensures NameLess(a, a)
  {
    hide Atoi;
    if a != "" {
      LessOfItself(if IsDigit(a[0]) then a[Run(a)..] else a[1..]);
    }
  }

  /** On names that are settled, two by two, `Less` is a total order. */
  lemma SettledNamesOrdered(a: string, b: string, c: string)
    requires SettledNames(a, b) && SettledNames(b, c) && SettledNames(a, c)
    ensures NameLess(a, b) || NameLess(b, a)
    ensures NameLess(a, b) && NameLess(b, a) ==> a == b
    ensures NameLess(a, b) && NameLess(b, c) ==> NameLess(a, c)
  {
    LessOfItself(a);
    TokensWellFormed(a);
    TokensWellFormed(b);
    TokensWellFormed(c);
    hide NameLess, Tokens, Settled, Comes, WellFormed;
    if a != b {
      OrderedIffSettled(a, b);
      LessOfSettled(a, b);
    }
    if b != c {
      LessOfSettled(b, c);
    }
    if a != c {
      LessOfSettled(a, c);
    }
    ComesTransitive(Tokens(a), Tokens(b), Tokens(c));
  }

  /** Names padded to one width are settled. */
  lemma PaddedNamesSettled(width: nat, a: string, b: string)
    requires Padded(width, a) && Padded(width, b)
    ensures SettledNames(a, b)
  {
    LessIsATotalOrder(width, a, b, a);
    hide NameLess, Padded, Settled, Tokens;
    if a != b {
      OrderedIffSettled(a, b);
    }
  }

  // ---------------------------------------------------------------- sorting

  predicate Sorted(names: seq<string>) {
    forall i, j :: 0 <= i < j < |names| ==> NameLess(names[i], names[j])
  }

  predicate AllSettled(names: seq<string>) {
    forall i, j :: 0 <= i < |names| && 0 <= j < |names| ==> SettledNames(names[i], names[j])
  }

  predicate AllPadded(width: nat, names: seq<string>) {
    forall i :: 0 <= i < |names| ==> Padded(width, names[i])
  }

  predicate Distinct(names: seq<string>) {
    forall i, j :: 0 <= i < j < |names| ==> names[i] != names[j]
  }

  lemma PaddedIsSettled(width: nat, names: seq<string>)
    requires AllPadded(width, names)
    ensures AllSettled(names)
  {
    hide Padded, SettledNames;
    forall i, j | 0 <= i < |names| && 0 <= j < |names|
      ensures SettledNames(names[i], names[j])
    {
      PaddedNamesSettled(width, names[i], names[j]);
    }
  }

  /** Whatever order the map yields its keys in, the sorted series come out the same. */
  lemma {:induction false} SortedSeriesAreUnique(xs: seq<string>, ys: seq<string>)
    requires multiset(xs) == multiset(ys) && AllSettled(xs)
    requires Sorted(xs) && Sorted(ys)
    ensures xs == ys
  {
    hide NameLess, SettledNames;
    SameLength(xs, ys);
    if xs != [] {
      SameFirst(xs, ys);
      TailsPermute(xs, ys);
      SortedSeriesAreUnique(xs[1..], ys[1..]);
      assert xs == [xs[0]] + xs[1..] && ys == [ys[0]] + ys[1..];
    }
  }

  lemma SameLength(xs: seq<string>, ys: seq<string>)
    requires multiset(xs) == multiset(ys)
    ensures |xs| == |ys|
  {
    assert |multiset(xs)| == |multiset(ys)|;
  }

  lemma TailsPermute(xs: seq<string>, ys: seq<string>)
    requires multiset(xs) == multiset(ys) && xs != [] && ys != [] && xs[0] == ys[0]
    ensures multiset(xs[1..]) == multiset(ys[1..])
  {
    assert xs == [xs[0]] + xs[1..] && ys == [ys[0]] + ys[1..];
    assert multiset(xs[1..]) == multiset(xs) - multiset{xs[0]};
    assert multiset(ys[1..]) == multiset(ys) - multiset{ys[0]};
  }

  lemma SameFirst(xs: seq<string>, ys: seq<string>)
    requires multiset(xs) == multiset(ys) && xs != [] && ys != [] && AllSettled(xs)
    requires Sorted(xs) && Sorted(ys)
    ensures xs[0] == ys[0]
  {
    hide NameLess, SettledNames;
    S.SameElements(xs, ys);
    assert xs[0] in ys && ys[0] in xs;
    FirstIsLeast(xs, ys[0]);
    FirstIsLeast(ys, xs[0]);
    SettledNamesOrdered(xs[0], ys[0], ys[0]);
  }

  lemma FirstIsLeast(xs: seq<string>, x: string)
    requires Sorted(xs) && x in xs
    ensures x == xs[0] || NameLess(xs[0], x)
  {
    hide NameLess;
  }

  /** Does `Less` put a in front of another name? */
  predicate InFront(a: string, b: string) {
    a != b && NameLess(a, b)
  }

  lemma SettledIsWeakOrder(names: seq<string>)
    requires AllSettled(names)
    ensures S.WeakOrder(InFront, names)
  {
    hide NameLess, SettledNames;
    forall p, q | p in names && q in names
      ensures NameLess(p, q) || NameLess(q, p)
      ensures p != q && NameLess(p, q) ==> !NameLess(q, p)
    {
      assert SettledNames(p, q) && SettledNames(p, p) && SettledNames(q, q);
      SettledNamesOrdered(p, q, q);
    }
    forall p, q, r | p in names && q in names && r in names && NameLess(p, q) && NameLess(q, r)
      ensures NameLess(p, r)
    {
      assert SettledNames(p, q) && SettledNames(q, r) && SettledNames(p, r);
      SettledNamesOrdered(p, q, r);
    }
  }

  lemma OrderedIsSorted(names: seq<string>)
    requires AllSettled(names) && S.Ordered(InFront, names)
    ensures Sorted(names)
  {
    hide NameLess, SettledNames;
    forall i, j | 0 <= i < j < |names|
      ensures NameLess(names[i], names[j])
    {
      assert !InFront(names[j], names[i]);
      assert SettledNames(names[i], names[j]) && SettledNames(names[i], names[i]) && SettledNames(names[j], names[j]);
      SettledNamesOrdered(names[i], names[j], names[j]);
    }
  }

  lemma SettledPermuted(xs: seq<string>, ys: seq<string>)
    requires multiset(xs) == multiset(ys) && AllSettled(xs)
    ensures AllSettled(ys)
  {
    hide SettledNames;
    S.SameElements(xs, ys);
    assert forall i :: 0 <= i < |ys| ==> ys[i] in xs;
  }

  /** `sort.Sort` of the series names. */
  method Sort(names: seq<string>) returns (n: seq<string>)
    ensures multiset(n) == multiset(names) && |n| == |names|
    ensures AllSettled(names) ==> Sorted(n)
  {
    hide NameLess, AllSettled, Sorted, S.WeakOrder, S.Ordered;
    n := S.Sort(InFront, names);
    if AllSettled(names) {
      SettledIsWeakOrder(names);
      SettledPermuted(names, n);
      OrderedIsSorted(n);
    }
  }

  // ---------------------------------------------------------------- the series of the processors

  function CpuNames(n: nat): seq<string> {
    seq(n, i requires 0 <= i < n => CpuName(n, i))
  }

  lemma CpuNamesSorted(n: nat)
    requires FitsInt(n)
    ensures AllSettled(CpuNames(n)) && Sorted(CpuNames(n))
  {
    hide CpuName, NameLess, Padded, SettledNames;
    var names := CpuNames(n);
    forall i, j | 0 <= i < j < n
      ensures NameLess(names[i], names[j])
    {
      CpusInNumericOrder(n, i, j);
    }
    var width := if n > 10 then 2 else 1;
    forall i | 0 <= i < n
      ensures Padded(width, names[i])
    {
      CpusInNumericOrder(n, i, i);
    }
    PaddedIsSettled(width, names);
  }

  /** Whatever order the map yields the series of n processors in, sorting lists them by number. */
  lemma ProcessorsInOrder(n: nat, keys: seq<string>, sorted: seq<string>)
    requires FitsInt(n) && multiset(keys) == multiset(CpuNames(n))
    requires multiset(sorted) == multiset(keys)
    ensures AllSettled(keys)
    ensures Sorted(sorted) <==> sorted == CpuNames(n)
  {
    hide CpuNames, AllSettled, Sorted;
    CpuNamesSorted(n);
    SettledPermuted(CpuNames(n), keys);
    if Sorted(sorted) {
      SortedSeriesAreUnique(CpuNames(n), sorted);
    }
  }
}
