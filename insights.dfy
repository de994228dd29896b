/**
 * The parents' dashboard insights: for every kid with a personal-care record, the
 * patterns worth a parent's attention. Also `parseInt`, which reads the kid's age text.
 */
module Insights {
  import opened Common
  import opened Profiles
  import opened PersonalCare

  // ---------------------------------------------------------------------------
  // parseInt

  /** The value of a letter or digit as a digit of any radix up to 36. */
  function DigitOf(c: char): Option<nat>
  {
    if '0' <= c <= '9' then Some(c as nat - '0' as nat)
    else if 'a' <= c <= 'z' then Some(c as nat - 'a' as nat + 10)
    else if 'A' <= c <= 'Z' then Some(c as nat - 'A' as nat + 10)
    else None
  }

  predicate IsDigit(c: char, radix: nat)
  {
    DigitOf(c).Some? && DigitOf(c).value < radix
  }

  /** The length of the run of digits at the start of `s`. */
  function DigitRun(s: string, radix: nat): (n: nat)
    ensures n <= |s|
    ensures forall i :: 0 <= i < n ==> IsDigit(s[i], radix)
    ensures n < |s| ==> !IsDigit(s[n], radix)
  {
    if |s| > 0 && IsDigit(s[0], radix) then 1 + DigitRun(s[1..], radix) else 0
  }

  /** The number a run of digits denotes. */
  function ValueOf(digits: string, radix: nat): int
    requires forall i :: 0 <= i < |digits| ==> IsDigit(digits[i], radix)
  {
    if digits == [] then 0
    else
      var init, last := digits[..|digits| - 1], digits[|digits| - 1];
      assert IsDigit(last, radix);
      assert forall i :: 0 <= i < |init| ==> init[i] == digits[i];
      ValueOf(init, radix) * radix + DigitOf(last).value
  }

  /**
   * `parseInt(s)` with no radix: leading white space is skipped, a sign is read, a `0x`
   * or `0X` prefix selects radix 16, and the longest run of digits that follows is read;
   * whatever comes after it is ignored. None stands for `NaN`: no digit where one is due.
   */
  function ParseInt(s: string): Option<int>
  {
    var t := s[LeadingSpace(s)..];
    var negative := |t| > 0 && t[0] == '-';
    var u := if |t| > 0 && (t[0] == '-' || t[0] == '+') then t[1..] else t;
    var hex := |u| >= 2 && u[0] == '0' && (u[1] == 'x' || u[1] == 'X');
    var radix := if hex then 16 else 10;
    var v := if hex then u[2..] else u;
    var n := DigitRun(v, radix);
    if n == 0 then None
    else
      var value: int := ValueOf(v[..n], radix);
      Some(if negative then -value else value)
  }

  /** The decimal text of a natural number, without leading zeros. */
  function Decimal(n: nat): (s: string)
    ensures |s| > 0
    ensures forall i :: 0 <= i < |s| ==> IsDigit(s[i], 10)
    ensures n > 0 ==> s[0] != '0'
    ensures n == 0 ==> s == "0"
  {
    if n < 10 then ['0' + n as char] else Decimal(n / 10) + ['0' + (n % 10) as char]
  }

  lemma {:induction false} DecimalValue(n: nat)
    ensures ValueOf(Decimal(n), 10) == n
  {
    if n >= 10 {
      var s := Decimal(n);
      assert s[..|s| - 1] == Decimal(n / 10);
      DecimalValue(n / 10);
    }
  }

  /**
   * `parseInt` reads back the decimal text of any number, whatever non-digit text follows,
   * except that "0" followed by an `x` starts a hexadecimal number.
   */
  lemma ParseIntDecimal(n: nat, rest: string)
    requires rest == [] || !IsDigit(rest[0], 10)
    requires n > 0 || rest == [] || (rest[0] != 'x' && rest[0] != 'X')
    ensures ParseInt(Decimal(n) + rest) == Some(n)
  {
    var d := Decimal(n);
    var s := d + rest;
    assert s[0] == d[0];
    assert !(|s| >= 2 && s[0] == '0' && (s[1] == 'x' || s[1] == 'X')) by {
      if |s| >= 2 && s[0] == '0' {
        assert n == 0;
        assert s[1] == rest[0];
      }
    }
    ParseIntUnsignedDecimal(s);
    DigitRunOfPrefix(d, rest);
    assert s[..|d|] == d;
    DecimalValue(n);
  }

  /** Text that starts with a digit and no `0x` prefix is read as a decimal number. */
  lemma ParseIntUnsignedDecimal(s: string)
    requires |s| > 0 && IsDigit(s[0], 10)
    requires !(|s| >= 2 && s[0] == '0' && (s[1] == 'x' || s[1] == 'X'))
    ensures ParseInt(s) == Some(ValueOf(s[..DigitRun(s, 10)], 10))
  {
    assert LeadingSpace(s) == 0;
    assert s[0..] == s;
  }

  /** A run of digits followed by a non-digit is read up to its end. */
  lemma {:induction false} DigitRunOfPrefix(d: string, rest: string)
    requires forall i :: 0 <= i < |d| ==> IsDigit(d[i], 10)
    requires rest == [] || !IsDigit(rest[0], 10)
    ensures DigitRun(d + rest, 10) == |d|
  {
    if d != [] {
      assert (d + rest)[1..] == d[1..] + rest;
      DigitRunOfPrefix(d[1..], rest);
    } else {
      assert d + rest == rest;
    }
  }

  /** Text that starts with anything but white space, a sign or a decimal digit reads as `NaN`. */
  lemma ParseIntNoDigits(s: string)
    requires |s| > 0 && !IsJsWhitespace(s[0]) && s[0] != '+' && s[0] != '-' && !IsDigit(s[0], 10)
    ensures ParseInt(s) == None
  {
    assert LeadingSpace(s) == 0;
    assert s[0..] == s;
  }

  // ---------------------------------------------------------------------------
  // Smell-check attention rule

  const NeedsRefresh := "needs-refresh"

  /** `slice(-3)`: the last three checks, or all of them when there are fewer. */
  function LastThree(checks: seq<SmellCheck>): seq<SmellCheck>
  {
    if |checks| <= 3 then checks else checks[|checks| - 3..]
  }

  /** How many checks found a refresh needed. */
  function CountRefresh(checks: seq<SmellCheck>): (n: nat)
    ensures n <= |checks|
  {
    if checks == [] then 0
    else CountRefresh(checks[..|checks| - 1]) + (if checks[|checks| - 1].result == NeedsRefresh then 1 else 0)
  }

  /** The attention rule: at least two of the last three checks found a refresh needed. */
  predicate NeedsAttention(checks: seq<SmellCheck>)
  {
    |checks| > 0 && CountRefresh(LastThree(checks)) >= 2
  }

  /** The last three checks end with the same two checks as the whole history. */
  lemma LastThreeEnds(checks: seq<SmellCheck>)
    requires |checks| >= 2
    ensures var l := LastThree(checks);
      |l| >= 2 && l[|l| - 1] == checks[|checks| - 1] && l[|l| - 2] == checks[|checks| - 2]
  {
  }

  /** What the result of each of the last two checks says about the count over the last three. */
  lemma CountRefreshOfLastTwo(l: seq<SmellCheck>)
    requires 2 <= |l| <= 3
    ensures l[|l| - 1].result == NeedsRefresh && l[|l| - 2].result == NeedsRefresh ==> CountRefresh(l) >= 2
    ensures l[|l| - 1].result != NeedsRefresh && l[|l| - 2].result != NeedsRefresh ==> CountRefresh(l) <= 1
  {
    var init := l[..|l| - 1];
    assert init[..|init| - 1] == l[..|l| - 2];
    if |l| == 3 {
      assert l[..1][..0] == [];
    }
  }

  /** Two records of a history in a row, through the ten-check limit. */
  lemma KeepRecentTwice(checks: seq<SmellCheck>, c1: SmellCheck, c2: SmellCheck)
    ensures var r := KeepRecent(KeepRecent(checks, c1), c2);
      |r| >= 2 && r[|r| - 1] == c2 && r[|r| - 2] == c1
  {
    var r1 := KeepRecent(checks, c1);
    assert |r1| >= 1 && r1[|r1| - 1] == c1;
  }

  /** Two checks in a row that find a refresh needed always raise the attention insight. */
  lemma TwoRefreshesNeedAttention(c: Care, now1: int, now2: int)
    ensures NeedsAttention(c.RecordSmellCheck(NeedsRefresh, now1).RecordSmellCheck(NeedsRefresh, now2).smellChecks)
  {
    var r := c.RecordSmellCheck(NeedsRefresh, now1).RecordSmellCheck(NeedsRefresh, now2).smellChecks;
    KeepRecentTwice(c.smellChecks, SmellCheck(now1, NeedsRefresh, Improvement(NeedsRefresh)),
                    SmellCheck(now2, NeedsRefresh, Improvement(NeedsRefresh)));
    LastThreeEnds(r);
    CountRefreshOfLastTwo(LastThree(r));
  }

  /** Two checks in a row that find the kid fresh always clear it. */
  lemma TwoFreshClearAttention(c: Care, now1: int, now2: int)
    ensures !NeedsAttention(c.RecordSmellCheck("fresh", now1).RecordSmellCheck("fresh", now2).smellChecks)
  {
    var r := c.RecordSmellCheck("fresh", now1).RecordSmellCheck("fresh", now2).smellChecks;
    KeepRecentTwice(c.smellChecks, SmellCheck(now1, "fresh", Improvement("fresh")),
                    SmellCheck(now2, "fresh", Improvement("fresh")));
    LastThreeEnds(r);
    CountRefreshOfLastTwo(LastThree(r));
  }

  // ---------------------------------------------------------------------------
  // The insight list

  /** The five kinds of insight: concern, supply, attention, celebrate, puberty. */
  datatype InsightKind = Concern | Supply | Attention | Celebrate | Puberty

  /** An insight about a kid, by name. The message text is not modelled. */
  datatype Insight = Insight(kind: InsightKind, kid: string)

  /** Whether a kid's personal-care record raises an insight of a kind. */
  predicate Raises(c: Care, age: Option<int>, k: InsightKind)
  {
    match k
    case Concern => c.streak == 0
    case Supply => |c.supplies| > 0
    case Attention => NeedsAttention(c.smellChecks)
    case Celebrate => c.streak >= 7
    case Puberty => age.Some? && 10 <= age.value <= 14 && c.level < 3
  }

  /** The kinds in the order they are checked. */
  const InsightKinds: seq<InsightKind> := [Concern, Supply, Attention, Celebrate, Puberty]

  /** The insights some kinds raise for a kid's record, in the order of the kinds. */
  function RaisedInsights(name: string, c: Care, age: Option<int>, kinds: seq<InsightKind>): seq<Insight>
  {
    if kinds == [] then []
    else
      var k := kinds[|kinds| - 1];
      RaisedInsights(name, c, age, kinds[..|kinds| - 1]) + (if Raises(c, age, k) then [Insight(k, name)] else [])
  }

  /** The insights of one kid, in the order they are checked; none without a record. */
  function KidInsights(kid: Kid): seq<Insight>
  {
    match kid.profile.personalCare
    case None => []
    case Some(c) => RaisedInsights(kid.name, c, ParseInt(kid.age), InsightKinds)
  }

  /** `getPersonalCareInsights`: every kid's insights, kid by kid. */
  function PersonalCareInsights(kids: seq<Kid>): seq<Insight>
  {
    if kids == [] then []
    else PersonalCareInsights(kids[..|kids| - 1]) + KidInsights(kids[|kids| - 1])
  }

  /** The raised insights are exactly those of the listed kinds that the record raises. */
  lemma {:induction false} RaisedInsightsExact(name: string, c: Care, age: Option<int>, kinds: seq<InsightKind>, i: Insight)
    ensures i in RaisedInsights(name, c, age, kinds) <==> i.kid == name && i.kind in kinds && Raises(c, age, i.kind)
  {
    if kinds != [] {
      var init := kinds[..|kinds| - 1];
      assert kinds == init + [kinds[|kinds| - 1]];
      RaisedInsightsExact(name, c, age, init, i);
    }
  }

  /** Listing each kind once raises each insight at most once. */
  lemma {:induction false} RaisedInsightsNoDuplicates(name: string, c: Care, age: Option<int>, kinds: seq<InsightKind>)
    requires NoDuplicates(kinds)
    ensures NoDuplicates(RaisedInsights(name, c, age, kinds))
  {
    if kinds != [] {
      var init, k := kinds[..|kinds| - 1], kinds[|kinds| - 1];
      assert kinds == init + [k];
      assert multiset(kinds) == multiset(init) + multiset{k};
      assert NoDuplicates(init) by {
        forall x | x in init
          ensures multiset(init)[x] == 1
        {
          assert x in kinds;
        }
      }
      assert k !in init by {
        assert k in kinds;
        assert multiset(init)[k] == multiset(kinds)[k] - 1 == 0;
      }
      RaisedInsightsNoDuplicates(name, c, age, init);
      var r0 := RaisedInsights(name, c, age, init);
      if Raises(c, age, k) {
        RaisedInsightsExact(name, c, age, init, Insight(k, name));
        var r := r0 + [Insight(k, name)];
        assert multiset(r) == multiset(r0) + multiset{Insight(k, name)};
        forall x | x in r
          ensures multiset(r)[x] == 1
        {
          if x != Insight(k, name) {
            assert x in r0;
          }
        }
      }
    }
  }

  /** A kid's insights are exactly the kinds its record raises. */
  lemma KidInsightsExact(kid: Kid, i: Insight)
    ensures i in KidInsights(kid) <==>
      i.kid == kid.name && kid.profile.personalCare.Some?
      && Raises(kid.profile.personalCare.value, ParseInt(kid.age), i.kind)
  {
    if kid.profile.personalCare.Some? {
      RaisedInsightsExact(kid.name, kid.profile.personalCare.value, ParseInt(kid.age), InsightKinds, i);
      assert i.kind in InsightKinds by {
        match i.kind
        case Concern => assert InsightKinds[0] == Concern;
        case Supply => assert InsightKinds[1] == Supply;
        case Attention => assert InsightKinds[2] == Attention;
        case Celebrate => assert InsightKinds[3] == Celebrate;
        case Puberty => assert InsightKinds[4] == Puberty;
      }
    }
  }

  /**
   * The dashboard lists an insight exactly when some kid of that name has a personal-care
   * record that raises it.
   */
  lemma {:induction false} PersonalCareInsightsExact(kids: seq<Kid>, i: Insight)
    ensures i in PersonalCareInsights(kids) <==>
      exists kid :: kid in kids && i.kid == kid.name && kid.profile.personalCare.Some?
        && Raises(kid.profile.personalCare.value, ParseInt(kid.age), i.kind)
  {
    if kids != [] {
      var init, last := kids[..|kids| - 1], kids[|kids| - 1];
      assert kids == init + [last];
      PersonalCareInsightsExact(init, i);
      KidInsightsExact(last, i);
      if exists kid :: kid in kids && i.kid == kid.name && kid.profile.personalCare.Some?
          && Raises(kid.profile.personalCare.value, ParseInt(kid.age), i.kind) {
        var kid :| kid in kids && i.kid == kid.name && kid.profile.personalCare.Some?
          && Raises(kid.profile.personalCare.value, ParseInt(kid.age), i.kind);
        if kid != last {
          assert kid in init;
        }
      }
    }
  }

  /** No kid is both flagged for no activity and celebrated for a long streak. */
  lemma ConcernAndCelebrateExclusive(kid: Kid)
    ensures !(Insight(Concern, kid.name) in KidInsights(kid) && Insight(Celebrate, kid.name) in KidInsights(kid))
  {
    KidInsightsExact(kid, Insight(Concern, kid.name));
    KidInsightsExact(kid, Insight(Celebrate, kid.name));
  }
}
