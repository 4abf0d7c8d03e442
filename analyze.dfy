/** The verdict engine `analyzeImage` and the upload gate `handleAnalyze`
    (server/routes/analyze.ts). The verdict is a deterministic function of
    the file name: the UTF-16 code units of the name are summed into a seed
    that drives a linear congruential generator; five checks and the
    confidence each take one draw. */
module Analyze {
  import opened Wrappers
  import opened JsText
  import opened Multipart

  const Modulus: nat := 233280
  const Multiplier: nat := 9301
  const Increment: nat := 49297

  /** `seed = (seed * 9301 + 49297) % 233280`. The seed is never negative,
      so JavaScript's remainder agrees with Dafny's. */
  function Next(seed: nat): (r: nat)
    ensures r < Modulus
  {
    (seed * Multiplier + Increment) % Modulus
  }

  /** The seed after `k` draws from `seed`. */
  function SeedAfter(seed: nat, k: nat): nat
  {
    if k == 0 then seed else Next(SeedAfter(seed, k - 1))
  }

  /** `seed / 233280`: the value a draw returns. */
  function Fraction(state: nat): (v: real)
    ensures state < Modulus ==> 0.0 <= v < 1.0
  {
    state as real / Modulus as real
  }

  /** The `seededRandom` closure and the `seed` it captures. */
  class Lcg {
    var seed: nat
    ghost const initial: nat
    ghost var draws: nat

    ghost predicate Valid()
      reads this
    {
      seed == SeedAfter(initial, draws)
    }

    constructor (seed: nat)
      ensures Valid() && initial == seed && draws == 0
    {
      this.seed := seed;
      initial := seed;
      draws := 0;
    }

    /** `seededRandom()`: advance the seed and return it as a fraction of
        the modulus. */
    method Draw() returns (v: real)
      requires Valid()
      modifies this
      ensures Valid() && draws == old(draws) + 1
      ensures seed == Next(old(seed)) && seed < Modulus
      ensures v == Fraction(seed) && 0.0 <= v < 1.0
    {
      seed := (seed * 9301 + 49297) % 233280;
      draws := draws + 1;
      return seed as real / 233280 as real;
    }
  }

  /** The UTF-16 code units of one character, summed as `charCodeAt` sees
      them: a character beyond the Basic Multilingual Plane is a surrogate
      pair. */
  function CodeUnitSum(c: char): (n: nat)
    ensures c as int < 0x10000 ==> n == c as int
    ensures c as int >= 0x10000 ==> 0xD800 + 0xDC00 <= n <= 0xDBFF + 0xDFFF
  {
    var v := c as int;
    if v < 0x10000 then v
    else (0xD800 + (v - 0x10000) / 0x400) + (0xDC00 + (v - 0x10000) % 0x400)
  }

  /** The initial seed: the sum of the name's UTF-16 code units. */
  function CharCodeSum(s: string): (n: nat)
    ensures n <= |s| * (0xDBFF + 0xDFFF)
  {
    if |s| == 0 then 0 else CharCodeSum(s[..|s| - 1]) + CodeUnitSum(s[|s| - 1])
  }

  /** The five checks, in the order they draw. A check's `name` and
      `weight` are never read and are left out. */
  const CheckCount: nat := 5

  /** The check passes when its draw is strictly above this. */
  function Threshold(i: nat): real
    requires i < CheckCount
  {
    match i
    case 0 => 0.3
    case 1 => 0.25
    case 2 => 0.2
    case 3 => 0.35
    case _ => 0.3
  }

  /** The finding each check pushes when it fails, in check order. */
  const FindingTexts: seq<string> := [
    "Timestamps show irregular spacing or formatting inconsistencies",
    "Text rendering varies between different messages in the screenshot",
    "Message ordering appears illogical or messages may have been rearranged",
    "Visual artifacts detected that suggest image manipulation or cropping",
    "Compression artifacts vary across different regions of the image"
  ]

  /** The finding pushed when check `i` fails. */
  function Finding(i: nat): string
    requires i < CheckCount
  {
    FindingTexts[i]
  }

  /** The threshold times the modulus: the generator state a passing draw
      must exceed. */
  function PassBound(i: nat): nat
    requires i < CheckCount
  {
    match i
    case 0 => 69984
    case 1 => 58320
    case 2 => 46656
    case 3 => 81648
    case _ => 69984
  }

  /** Check `i` passes when draw `i + 1` is strictly above its threshold. */
  lemma ThresholdIsExact(state: nat, i: nat)
    requires i < CheckCount
    ensures Fraction(state) > Threshold(i) <==> state > PassBound(i)
  {
    var t := Threshold(i);
    assert t * Modulus as real == PassBound(i) as real;
    assert Fraction(state) * Modulus as real == state as real;
  }

  /** Which checks pass for a seed: the first five draws, in check order. */
  function Outcomes(seed: nat): (passed: seq<bool>)
    ensures |passed| == CheckCount
    ensures forall i :: 0 <= i < CheckCount ==> (passed[i] <==> SeedAfter(seed, i + 1) > PassBound(i))
  {
    var passed := seq(CheckCount, i requires 0 <= i < CheckCount => Fraction(SeedAfter(seed, i + 1)) > Threshold(i));
    forall i | 0 <= i < CheckCount
      ensures passed[i] <==> SeedAfter(seed, i + 1) > PassBound(i)
    {
      ThresholdIsExact(SeedAfter(seed, i + 1), i);
    }
    passed
  }

  /** The failed checks among the first `n`, in check order. */
  function FailedUpTo(passed: seq<bool>, n: nat): (ks: seq<nat>)
    requires |passed| == CheckCount && n <= CheckCount
    ensures forall a :: 0 <= a < |ks| ==> ks[a] < n
  {
    if n == 0 then []
    else FailedUpTo(passed, n - 1) + (if passed[n - 1] then [] else [n - 1])
  }

  /** The findings pushed by the first `n` checks: each failed check's
      fixed text, in check order. */
  function FindingsUpTo(passed: seq<bool>, n: nat): (findings: seq<string>)
    requires |passed| == CheckCount && n <= CheckCount
  {
    if n == 0 then []
    else FindingsUpTo(passed, n - 1) + (if passed[n - 1] then [] else [Finding(n - 1)])
  }

  /** `FailedUpTo` lists exactly the failed checks among the first `n`,
      each once, in increasing order, so there are at most `n` of them. */
  lemma FailedUpToIsFailedChecks(passed: seq<bool>, n: nat)
    requires |passed| == CheckCount && n <= CheckCount
    ensures var ks := FailedUpTo(passed, n);
      && |ks| <= n
      && (forall a :: 0 <= a < |ks| ==> ks[a] < n && !passed[ks[a]])
      && (forall a, b :: 0 <= a < b < |ks| ==> ks[a] < ks[b])
      && (forall k :: 0 <= k < n && !passed[k] ==> k in ks)
      && (ks == [] <==> forall k :: 0 <= k < n ==> passed[k])
  {
    FailedUpToSound(passed, n);
    FailedUpToSorted(passed, n);
    assert Increasing(FailedUpTo(passed, n));
    FailedUpToComplete(passed, n);
    NoFailedIffAllPassed(passed, n);
  }

  /** Every listed check failed, and there are at most `n` of them. */
  lemma {:induction false} FailedUpToSound(passed: seq<bool>, n: nat)
    requires |passed| == CheckCount && n <= CheckCount
    ensures var ks := FailedUpTo(passed, n);
      |ks| <= n && forall a :: 0 <= a < |ks| ==> !passed[ks[a]]
  {
    if n > 0 {
      FailedUpToSound(passed, n - 1);
    }
  }

  /** Strictly increasing, so each element appears once. */
  predicate Increasing(ks: seq<nat>)
  {
    forall a, b :: 0 <= a < b < |ks| ==> ks[a] < ks[b]
  }

  /** The failed checks are listed in increasing order. */
  lemma {:induction false} FailedUpToSorted(passed: seq<bool>, n: nat)
    requires |passed| == CheckCount && n <= CheckCount
    ensures Increasing(FailedUpTo(passed, n))
  {
    if n > 0 {
      FailedUpToSorted(passed, n - 1);
      var prev, ks := FailedUpTo(passed, n - 1), FailedUpTo(passed, n);
      assert ks == prev + (if passed[n - 1] then [] else [n - 1]);
      forall a, b | 0 <= a < b < |ks|
        ensures ks[a] < ks[b]
      {
        assert ks[a] == prev[a] < n - 1;
        if b < |prev| {
          assert ks[b] == prev[b];
        }
      }
    }
  }

  /** Every failed check among the first `n` is listed. */
  lemma {:induction false} FailedUpToComplete(passed: seq<bool>, n: nat)
    requires |passed| == CheckCount && n <= CheckCount
    ensures forall k :: 0 <= k < n && !passed[k] ==> k in FailedUpTo(passed, n)
  {
    if n > 0 {
      FailedUpToComplete(passed, n - 1);
    }
  }

  /** No check among the first `n` failed exactly when all of them passed. */
  lemma {:induction false} NoFailedIffAllPassed(passed: seq<bool>, n: nat)
    requires |passed| == CheckCount && n <= CheckCount
    ensures FailedUpTo(passed, n) == [] <==> forall k :: 0 <= k < n ==> passed[k]
  {
    if n > 0 {
      NoFailedIffAllPassed(passed, n - 1);
    }
  }

  /** Each pushed finding is the fixed text of the matching failed check,
      so there are as many findings as failed checks. */
  lemma {:induction false} FindingsFollowFailedChecks(passed: seq<bool>, n: nat)
    requires |passed| == CheckCount && n <= CheckCount
    ensures var ks := FailedUpTo(passed, n);
      && |FindingsUpTo(passed, n)| == |ks|
      && forall a :: 0 <= a < |ks| ==> ks[a] < n && FindingsUpTo(passed, n)[a] == Finding(ks[a])
  {
    if n > 0 {
      FindingsFollowFailedChecks(passed, n - 1);
    }
  }

  /** The findings of all five checks. */
  function FindingsOf(passed: seq<bool>): seq<string>
    requires |passed| == CheckCount
  {
    FindingsUpTo(passed, CheckCount)
  }

  datatype Verdict = LikelyReal | Suspicious | LikelyFake

  /** Order of increasing suspicion. */
  function Severity(v: Verdict): nat
  {
    match v
    case LikelyReal => 0
    case Suspicious => 1
    case LikelyFake => 2
  }

  /** The verdict band for a number of failed checks. */
  function VerdictFor(failed: nat): (v: Verdict)
    ensures v == LikelyReal <==> failed <= 1
    ensures v == Suspicious <==> failed == 2
    ensures v == LikelyFake <==> failed >= 3
  {
    if failed == 0 then LikelyReal
    else if failed == 1 then LikelyReal
    else if failed <= 2 then Suspicious
    else LikelyFake
  }

  /** More failed checks never give a less suspicious verdict. */
  lemma VerdictMonotone(a: nat, b: nat)
    requires a <= b
    ensures Severity(VerdictFor(a)) <= Severity(VerdictFor(b))
  {
  }

  /** The confidence for a number of failed checks, from the state of the
      confidence draw. */
  function ConfidenceFor(failed: nat, state: nat): (c: real)
    requires state < Modulus
    ensures failed == 0 ==> 0.85 <= c < 1.0
    ensures failed == 1 ==> 0.65 <= c < 0.80
    ensures failed == 2 ==> 0.60 <= c < 0.80
    ensures failed >= 3 ==> 0.75 <= c < 0.95
    ensures 0.0 <= c <= 1.0
  {
    var d := Fraction(state);
    if failed == 0 then 0.85 + d * 0.15
    else if failed == 1 then 0.65 + d * 0.15
    else if failed <= 2 then 0.6 + d * 0.2
    else 0.75 + d * 0.2
  }

  /** The number a run of decimal digits spells. */
  function DecimalValue(s: string): nat
  {
    if |s| == 0 then 0
    else
      var d := s[|s| - 1] as int - '0' as int;
      DecimalValue(s[..|s| - 1]) * 10 + (if 0 <= d then d else 0)
  }

  /** `String(n)` for a non-negative integer: its decimal digits, with no
      leading zero. */
  function NumberText(n: nat): (s: string)
    ensures |s| >= 1
    ensures forall i :: 0 <= i < |s| ==> '0' <= s[i] <= '9'
    ensures DecimalValue(s) == n
    ensures s[0] != '0' || s == "0"
  {
    var digit := ['0' + (n % 10) as char];
    if n < 10 then digit
    else
      var t := NumberText(n / 10) + digit;
      assert t[..|t| - 1] == NumberText(n / 10);
      t
  }

  /** `array.slice(0, n)`: the first `n` elements, or all of them. */
  function Take<T>(s: seq<T>, n: nat): (r: seq<T>)
    ensures |r| == if n <= |s| then n else |s|
    ensures r == s[..|r|]
  {
    if n <= |s| then s[..n] else s
  }

  /** The fixed texts of a response, other than the findings: the
      sentinel finding and the pieces of `explanationMap`. */
  datatype Phrase =
    | NoIssues
    | RealLead | RealNone | RealMinor | RealTail
    | SuspiciousLead | SuspiciousTail
    | FakeLead | FakeMiddle | FakeTail

  function Text(p: Phrase): string
  {
    match p
    case NoIssues => "No significant issues detected"
    case RealLead => "This screenshot shows minimal signs of manipulation. The analysis found "
    case RealNone => "no significant inconsistencies"
    case RealMinor => "only minor variations that could be due to different device models or app versions"
    case RealTail => ". The text rendering, timestamps, and message ordering appear consistent with genuine chat data. However, remember that this is a probabilistic assessment and some sophisticated edits might not be detected."
    case SuspiciousLead => "This screenshot contains several irregularities that suggest possible editing. The detected issues include "
    case SuspiciousTail => ". These findings alone don't confirm manipulation, as they could result from different devices, app versions, or screenshot cropping. We recommend investigating further or comparing with original source if possible."
    case FakeLead => "Multiple indicators suggest this screenshot has been edited or manipulated. The analysis detected "
    case FakeMiddle => " significant issues including "
    case FakeTail => ". These are common signs of screenshot editing. However, always verify with the message sender directly and never make critical decisions based solely on this analysis."
  }

  /** `explanationMap[verdict]`, built from the findings before the
      sentinel is substituted. */
  function Explanation(verdict: Verdict, findings: seq<string>, failed: nat): string
  {
    match verdict
    case LikelyReal =>
      Text(RealLead) + (if |findings| == 0 then Text(RealNone) else Text(RealMinor)) + Text(RealTail)
    case Suspicious =>
      Text(SuspiciousLead) + Join(Take(findings, 2), " and ") + Text(SuspiciousTail)
    case LikelyFake =>
      Text(FakeLead) + NumberText(failed) + Text(FakeMiddle) + Join(Take(findings, 3), ", ") + Text(FakeTail)
  }

  /** `AnalysisResponse`; the timestamp is a parameter because it reads the
      clock. */
  datatype AnalysisResponse = AnalysisResponse(
    verdict: Verdict, confidence: real, findings: seq<string>, explanation: string, timestamp: string)

  /** What `analyzeImage` returns: a function of the name and the clock
      alone, since the size is never read. */
  function Analysis(imageName: string, timestamp: string): (r: AnalysisResponse)
    ensures |r.findings| >= 1
    ensures 0.0 <= r.confidence <= 1.0
    ensures r.timestamp == timestamp
  {
    var seed := CharCodeSum(imageName);
    var findings := FindingsOf(Outcomes(seed));
    var failed := |findings|;
    var verdict := VerdictFor(failed);
    var confidence := ConfidenceFor(failed, SeedAfter(seed, CheckCount + 1));
    AnalysisResponse(verdict, confidence, if |findings| > 0 then findings else [Text(NoIssues)],
                     Explanation(verdict, findings, failed), timestamp)
  }

  /** The seed loop of `analyzeImage`: the name's code units, summed. */
  method InitialSeed(imageName: string) returns (seed: nat)
    ensures seed == CharCodeSum(imageName)
  {
    seed := 0;
    for i := 0 to |imageName|
      invariant seed == CharCodeSum(imageName[..i])
    {
      assert imageName[..i + 1][..i] == imageName[..i];
      seed := seed + CodeUnitSum(imageName[i]);
    }
    assert imageName[..|imageName|] == imageName;
  }

  /** The `checks` array: one draw per check, in order. */
  method RunChecks(random: Lcg) returns (passed: seq<bool>)
    requires random.Valid()
    modifies random
    ensures random.Valid() && random.draws == old(random.draws) + CheckCount
    ensures random.seed == SeedAfter(old(random.seed), CheckCount)
    ensures passed == Outcomes(old(random.seed))
  {
    ghost var s := random.seed;
    var d0 := random.Draw();
    var d1 := random.Draw();
    var d2 := random.Draw();
    var d3 := random.Draw();
    var d4 := random.Draw();
    passed := [d0 > Threshold(0), d1 > Threshold(1), d2 > Threshold(2),
               d3 > Threshold(3), d4 > Threshold(4)];
    assert d0 == Fraction(SeedAfter(s, 1)) && d1 == Fraction(SeedAfter(s, 2));
    assert d2 == Fraction(SeedAfter(s, 3)) && d3 == Fraction(SeedAfter(s, 4));
    assert d4 == Fraction(SeedAfter(s, 5));
  }

  /** The five `if (!checks[k].passed)` blocks: each failed check pushes its
      finding and counts itself. */
  method CollectFindings(passed: seq<bool>) returns (findings: seq<string>, failedChecks: nat)
    requires |passed| == CheckCount
    ensures findings == FindingsOf(passed) && failedChecks == |findings|
  {
    findings := [];
    failedChecks := 0;
    if !passed[0] {
      findings := findings + [Finding(0)];
      failedChecks := failedChecks + 1;
    }
    assert findings == FindingsUpTo(passed, 1);
    if !passed[1] {
      findings := findings + [Finding(1)];
      failedChecks := failedChecks + 1;
    }
    assert findings == FindingsUpTo(passed, 2);
    if !passed[2] {
      findings := findings + [Finding(2)];
      failedChecks := failedChecks + 1;
    }
    assert findings == FindingsUpTo(passed, 3);
    if !passed[3] {
      findings := findings + [Finding(3)];
      failedChecks := failedChecks + 1;
    }
    assert findings == FindingsUpTo(passed, 4);
    if !passed[4] {
      findings := findings + [Finding(4)];
      failedChecks := failedChecks + 1;
    }
  }

  /** The verdict chain: exactly one more draw, whichever band is taken. */
  method ChooseVerdict(failedChecks: nat, random: Lcg) returns (verdict: Verdict, confidence: real)
    requires random.Valid()
    modifies random
    ensures random.Valid() && random.draws == old(random.draws) + 1
    ensures random.seed == Next(old(random.seed))
    ensures verdict == VerdictFor(failedChecks)
    ensures confidence == ConfidenceFor(failedChecks, random.seed)
  {
    if failedChecks == 0 {
      verdict := LikelyReal;
      var d := random.Draw();
      confidence := 0.85 + d * 0.15;
    } else if failedChecks == 1 {
      verdict := LikelyReal;
      var d := random.Draw();
      confidence := 0.65 + d * 0.15;
    } else if failedChecks <= 2 {
      verdict := Suspicious;
      var d := random.Draw();
      confidence := 0.6 + d * 0.2;
    } else {
      verdict := LikelyFake;
      var d := random.Draw();
      confidence := 0.75 + d * 0.2;
    }
  }

  /** `analyzeImage(imageName, imageSize)`: the seed loop, five draws for the
      checks, the findings pushed in order, then exactly one more draw for
      the confidence. The size is never read. */
  method AnalyzeImage(imageName: string, imageSize: int, now: string)
    returns (result: AnalysisResponse, ghost draws: nat)
    ensures result == Analysis(imageName, now)
    ensures draws == CheckCount + 1
  {
    var seed := InitialSeed(imageName);
    var random := new Lcg(seed);
    var passed := RunChecks(random);
    var findings, failedChecks := CollectFindings(passed);
    var verdict, confidence := ChooseVerdict(failedChecks, random);
    var explanation := Explanation(verdict, findings, failedChecks);
    result := AnalysisResponse(verdict, confidence,
                               if |findings| > 0 then findings else [Text(NoIssues)],
                               explanation, now);
    draws := random.draws;
  }

  /** The failed checks for a seed, in check order. */
  function FailedChecks(seed: nat): seq<nat>
  {
    FailedUpTo(Outcomes(seed), CheckCount)
  }

  /** The five findings are pairwise different, and none is the sentinel. */
  lemma FindingsDistinct(i: nat, j: nat)
    requires i < CheckCount && j < CheckCount
    ensures i != j ==> Finding(i) != Finding(j)
    ensures Finding(i) != Text(NoIssues)
  {
    assert |Finding(0)| == 63 && |Finding(1)| == 66 && |Finding(2)| == 71;
    assert |Finding(3)| == 69 && |Finding(4)| == 64 && |Text(NoIssues)| == 30;
  }

  /** Check `k`'s finding is reported exactly when check `k` failed; there
      are as many findings as failed checks, so at most five. */
  lemma FindingsAreFailedChecks(seed: nat)
    ensures var passed := Outcomes(seed);
      var findings := FindingsOf(passed);
      && |findings| == |FailedChecks(seed)| <= CheckCount
      && forall k :: 0 <= k < CheckCount ==> (Finding(k) in findings <==> !passed[k])
  {
    var passed := Outcomes(seed);
    var findings := FindingsOf(passed);
    var ks := FailedChecks(seed);
    FailedUpToIsFailedChecks(passed, CheckCount);
    FindingsFollowFailedChecks(passed, CheckCount);
    forall k | 0 <= k < CheckCount
      ensures Finding(k) in findings <==> !passed[k]
    {
      if Finding(k) in findings {
        var a :| 0 <= a < |findings| && findings[a] == Finding(k);
        FindingsDistinct(k, ks[a]);
      }
      if !passed[k] {
        var a :| 0 <= a < |ks| && ks[a] == k;
        assert findings[a] == Finding(k);
      }
    }
  }

  /** Every check passes for this seed. */
  predicate AllPass(seed: nat)
  {
    forall k :: 0 <= k < CheckCount ==> Outcomes(seed)[k]
  }

  /** The findings returned are never empty, and are the sentinel alone
      exactly when every check passed. */
  lemma SentinelIffAllPassed(imageName: string, timestamp: string)
    ensures var r := Analysis(imageName, timestamp);
      && r.findings != []
      && (r.findings == [Text(NoIssues)] <==> AllPass(CharCodeSum(imageName)))
  {
    var seed := CharCodeSum(imageName);
    var passed := Outcomes(seed);
    var findings := FindingsOf(passed);
    var ks := FailedChecks(seed);
    FailedUpToIsFailedChecks(passed, CheckCount);
    FindingsFollowFailedChecks(passed, CheckCount);
    forall a | 0 <= a < |findings|
      ensures findings[a] != Text(NoIssues)
    {
      FindingsDistinct(ks[a], ks[a]);
    }
    assert |findings| == |ks|;
    assert findings == [] <==> AllPass(seed);
    SentinelOnlyWhenEmpty(findings, Text(NoIssues));
  }

  /** Substituting a sentinel that is not among the findings: the result is
      never empty, and is the sentinel alone exactly when there were no
      findings. */
  lemma SentinelOnlyWhenEmpty(findings: seq<string>, sentinel: string)
    requires forall a :: 0 <= a < |findings| ==> findings[a] != sentinel
    ensures var reported := if |findings| > 0 then findings else [sentinel];
      reported != [] && (reported == [sentinel] <==> findings == [])
  {
    if |findings| > 0 {
      assert findings[0] != sentinel;
    }
  }

  /** The verdict and the confidence depend on the number of failed checks,
      and the confidence comes from the sixth draw. */
  lemma VerdictCountsFailedChecks(imageName: string, timestamp: string)
    ensures var r := Analysis(imageName, timestamp);
      var seed := CharCodeSum(imageName);
      var failed := |FailedChecks(seed)|;
      && r.verdict == VerdictFor(failed)
      && r.confidence == ConfidenceFor(failed, SeedAfter(seed, CheckCount + 1))
  {
    FindingsAreFailedChecks(CharCodeSum(imageName));
  }

  /** The likely-real explanation depends only on whether a check failed. */
  lemma RealExplanation(imageName: string, timestamp: string)
    ensures var r := Analysis(imageName, timestamp);
      r.verdict == LikelyReal ==>
        r.explanation == Text(RealLead) + (if FailedChecks(CharCodeSum(imageName)) == [] then Text(RealNone) else Text(RealMinor)) + Text(RealTail)
  {
    FindingsAreFailedChecks(CharCodeSum(imageName));
  }

  /** The suspicious explanation names the findings of the two failed
      checks, joined with " and ". */
  lemma SuspiciousExplanation(imageName: string, timestamp: string)
    ensures var r := Analysis(imageName, timestamp);
      var ks := FailedChecks(CharCodeSum(imageName));
      r.verdict == Suspicious ==>
        |ks| == 2 &&
        r.explanation == Text(SuspiciousLead) + (Finding(ks[0]) + " and " + Finding(ks[1])) + Text(SuspiciousTail)
  {
    var passed := Outcomes(CharCodeSum(imageName));
    var findings := FindingsOf(passed);
    var ks := FailedChecks(CharCodeSum(imageName));
    FindingsFollowFailedChecks(passed, CheckCount);
    if |findings| == 2 {
      assert Take(findings, 2) == [Finding(ks[0]), Finding(ks[1])];
      JoinTwo(Finding(ks[0]), Finding(ks[1]), " and ");
    }
  }

  /** The likely-fake explanation gives the number of failed checks and
      names the findings of the first three, joined with ", ". */
  lemma FakeExplanation(imageName: string, timestamp: string)
    ensures var r := Analysis(imageName, timestamp);
      var ks := FailedChecks(CharCodeSum(imageName));
      r.verdict == LikelyFake ==>
        |ks| >= 3 &&
        r.explanation == Text(FakeLead) + NumberText(|ks|) + Text(FakeMiddle)
                         + (Finding(ks[0]) + ", " + Finding(ks[1]) + ", " + Finding(ks[2])) + Text(FakeTail)
  {
    var passed := Outcomes(CharCodeSum(imageName));
    var findings := FindingsOf(passed);
    var ks := FailedChecks(CharCodeSum(imageName));
    FindingsFollowFailedChecks(passed, CheckCount);
    if |findings| >= 3 {
      assert Take(findings, 3) == [Finding(ks[0]), Finding(ks[1]), Finding(ks[2])];
      JoinThree(Finding(ks[0]), Finding(ks[1]), Finding(ks[2]), ", ");
    }
  }

  lemma JoinTwo(a: string, b: string, sep: string)
    ensures Join([a, b], sep) == a + sep + b
  {
    assert [a, b][1..] == [b];
  }

  lemma JoinThree(a: string, b: string, c: string, sep: string)
    ensures Join([a, b, c], sep) == a + sep + b + sep + c
  {
    assert [a, b, c][1..] == [b, c];
    JoinTwo(b, c, sep);
  }

  /** Concatenation adds the code-unit sums. */
  lemma {:induction false} CharCodeSumAppend(a: string, b: string)
    ensures CharCodeSum(a + b) == CharCodeSum(a) + CharCodeSum(b)
  {
    if |b| > 0 {
      var b' := b[..|b| - 1];
      assert (a + b)[..|a + b| - 1] == a + b';
      assert (a + b)[|a + b| - 1] == b[|b| - 1];
      CharCodeSumAppend(a, b');
    } else {
      assert a + b == a;
    }
  }

  /** Reordering the characters of a name does not change its seed. */
  lemma {:induction false} CharCodeSumPermutation(a: string, b: string)
    requires multiset(a) == multiset(b)
    ensures CharCodeSum(a) == CharCodeSum(b)
    decreases |a|
  {
    if |a| > 0 {
      var c := a[|a| - 1];
      var a' := a[..|a| - 1];
      assert a == a' + [c];
      assert c in multiset(b);
      var j :| 0 <= j < |b| && b[j] == c;
      var b' := b[..j] + b[j + 1..];
      assert b == b[..j] + [c] + b[j + 1..];
      assert multiset(a) == multiset(a') + multiset([c]);
      assert multiset(b) == multiset(b[..j]) + multiset([c]) + multiset(b[j + 1..]);
      assert multiset(b') == multiset(b[..j]) + multiset(b[j + 1..]);
      assert multiset(a') == multiset(a) - multiset([c]);
      assert multiset(b') == multiset(b) - multiset([c]);
      CharCodeSumPermutation(a', b');
      CharCodeSumAppend(b[..j], [c]);
      CharCodeSumAppend(b[..j] + [c], b[j + 1..]);
      CharCodeSumAppend(b[..j], b[j + 1..]);
      assert [c][..0] == [];
    } else {
      assert |b| == 0;
    }
  }

  /** Names that are anagrams of each other get the same analysis: only the
      sum of the code units is used. */
  lemma AnagramsShareAnalysis(a: string, b: string, timestamp: string)
    requires multiset(a) == multiset(b)
    ensures Analysis(a, timestamp) == Analysis(b, timestamp)
  {
    CharCodeSumPermutation(a, b);
  }

  /** "a.png" sums to 468; all five checks pass, so it is judged likely
      real, with the sentinel finding and the confidence of state 157830. */
  lemma APngIsLikelyReal(timestamp: string)
    ensures Analysis("a.png", timestamp)
      == AnalysisResponse(LikelyReal, 0.85 + (157830 as real / 233280 as real) * 0.15, [Text(NoIssues)],
                          Text(RealLead) + Text(RealNone) + Text(RealTail), timestamp)
  {
    APngSeed();
    AllPassFrom468();
    FailedUpToIsFailedChecks(Outcomes(468), CheckCount);
    SentinelIffAllPassed("a.png", timestamp);
    VerdictCountsFailedChecks("a.png", timestamp);
    RealExplanation("a.png", timestamp);
  }

  lemma APngSeed()
    ensures CharCodeSum("a.png") == 468
  {
    var name := "a.png";
    assert CharCodeSum(name[..1]) == 97 by { assert name[..1][..0] == []; }
    assert CharCodeSum(name[..2]) == 143 by { assert name[..2][..1] == name[..1]; }
    assert CharCodeSum(name[..3]) == 255 by { assert name[..3][..2] == name[..2]; }
    assert CharCodeSum(name[..4]) == 365 by { assert name[..4][..3] == name[..3]; }
    assert CharCodeSum(name) == 468 by { assert name[..4] == name[..|name| - 1]; }
  }

  /** "chat.jpg" sums to 783; the second and fourth checks fail, so it is
      judged suspicious and the explanation names those two findings. */
  lemma ChatJpgIsSuspicious(timestamp: string)
    ensures var r := Analysis("chat.jpg", timestamp);
      && r.verdict == Suspicious
      && r.findings == [Finding(1), Finding(3)]
      && r.explanation == Text(SuspiciousLead) + (Finding(1) + " and " + Finding(3)) + Text(SuspiciousTail)
  {
    ChatJpgSeed();
    var passed := Outcomes(783);
    ChecksFrom783();
    assert FailedUpTo(passed, 1) == [];
    assert FailedUpTo(passed, 2) == [1];
    assert FailedUpTo(passed, 3) == [1];
    assert FailedUpTo(passed, 4) == [1, 3];
    assert FailedChecks(783) == [1, 3];
    FindingsFollowFailedChecks(passed, CheckCount);
    VerdictCountsFailedChecks("chat.jpg", timestamp);
    SuspiciousExplanation("chat.jpg", timestamp);
  }

  lemma ChatJpgSeed()
    ensures CharCodeSum("chat.jpg") == 783
  {
    var name := "chat.jpg";
    assert CharCodeSum(name[..1]) == 99 by { assert name[..1][..0] == []; }
    assert CharCodeSum(name[..2]) == 203 by { assert name[..2][..1] == name[..1]; }
    assert CharCodeSum(name[..3]) == 300 by { assert name[..3][..2] == name[..2]; }
    assert CharCodeSum(name[..4]) == 416 by { assert name[..4][..3] == name[..3]; }
    assert CharCodeSum(name[..5]) == 462 by { assert name[..5][..4] == name[..4]; }
    assert CharCodeSum(name[..6]) == 568 by { assert name[..6][..5] == name[..5]; }
    assert CharCodeSum(name[..7]) == 680 by { assert name[..7][..6] == name[..6]; }
    assert CharCodeSum(name) == 783 by { assert name[..7] == name[..|name| - 1]; }
  }

  lemma ChecksFrom783()
    ensures var passed := Outcomes(783);
      passed[0] && !passed[1] && passed[2] && !passed[3] && passed[4]
  {
    assert SeedAfter(783, 1) == 100300;
    assert SeedAfter(783, 2) == 52877;
    assert SeedAfter(783, 3) == 104034;
    assert SeedAfter(783, 4) == 24091;
    assert SeedAfter(783, 5) == 170888;
  }

  lemma AllPassFrom468()
    ensures AllPass(468)
    ensures SeedAfter(468, CheckCount + 1) == 157830
  {
    assert SeedAfter(468, 1) == 203125;
    assert SeedAfter(468, 2) == 213482;
    assert SeedAfter(468, 3) == 199299;
    assert SeedAfter(468, 4) == 86416;
    assert SeedAfter(468, 5) == 154913;
    assert SeedAfter(468, 6) == 157830;
  }

  const MaxUploadSize: nat := 10 * 1024 * 1024
  const NoFileError := "No file uploaded"
  const NotImageError := "File must be an image"
  const TooLargeError := "File size exceeds 10MB limit"

  /** What `handleAnalyze` sends: an error status with a message, or the
      analysis as JSON. */
  datatype Response = Ok(result: AnalysisResponse) | Failure(status: nat, error: string)

  /** The guard chain of `handleAnalyze`, in its order: no file, then a
      non-image type, then more than 10 MB (exactly 10 MB is accepted);
      otherwise the analysis of the original name. */
  function AnalyzeResponse(file: Option<UploadedFile>, now: string): (resp: Response)
    ensures file.None? ==> resp == Failure(400, NoFileError)
    ensures file.Some? && !StartsWith(file.value.mimetype, "image/") ==> resp == Failure(400, NotImageError)
    ensures (file.Some? && StartsWith(file.value.mimetype, "image/") && file.value.size > MaxUploadSize)
              ==> resp == Failure(400, TooLargeError)
    ensures resp.Ok? <==> file.Some? && StartsWith(file.value.mimetype, "image/") && file.value.size <= MaxUploadSize
    ensures resp.Ok? ==> resp.result == Analysis(file.value.originalname, now)
  {
    if file.None? then Failure(400, NoFileError)
    else if !StartsWith(file.value.mimetype, "image/") then Failure(400, NotImageError)
    else if file.value.size > MaxUploadSize then Failure(400, TooLargeError)
    else Ok(Analysis(file.value.originalname, now))
  }

  /** `handleAnalyze` on the request's file, running `analyzeImage`. */
  method HandleAnalyze(file: Option<UploadedFile>, now: string) returns (resp: Response)
    ensures resp == AnalyzeResponse(file, now)
  {
    if file.None? {
      return Failure(400, NoFileError);
    }
    if !StartsWith(file.value.mimetype, "image/") {
      return Failure(400, NotImageError);
    }
    if file.value.size > 10 * 1024 * 1024 {
      return Failure(400, TooLargeError);
    }
    var result, _ := AnalyzeImage(file.value.originalname, file.value.size, now);
    resp := Ok(result);
  }

  /** The middleware stamps every file `image/jpeg`, so an upload it
      attached is never refused as a non-image. */
  lemma AttachedFileIsImage(contentType: string, body: string, now: string)
    ensures AnalyzeResponse(AttachedFile(contentType, body), now) != Failure(400, NotImageError)
  {
    assert StampedMimeType[..6] == "image/";
  }

  /** A request that is not multipart/form-data, or has no boundary, reaches
      the handler without a file. */
  lemma NoBoundaryNoFile(contentType: string, body: string, now: string)
    requires !Includes(contentType, MultipartType) || BoundaryToken(contentType).None?
    ensures AnalyzeResponse(AttachedFile(contentType, body), now) == Failure(400, NoFileError)
  {
  }

  /** An attached upload of at most 10 MB is analysed under its file name,
      or under `upload.jpg` when no part named one. */
  lemma SmallUploadAnalysed(contentType: string, body: string, now: string)
    requires Includes(contentType, MultipartType) && BoundaryToken(contentType).Some?
    requires LastContributing(Parts(contentType, body)) != -1
    requires |Payload(Parts(contentType, body)[LastContributing(Parts(contentType, body))])| <= MaxUploadSize
    ensures var n := LastNamed(Parts(contentType, body));
      AnalyzeResponse(AttachedFile(contentType, body), now)
      == Ok(Analysis(if n == -1 then DefaultName else PartFileName(Parts(contentType, body)[n]).value, now))
  {
    ExtractIsLastPartWins(contentType, body);
    AttachedFileIsImage(contentType, body, now);
  }
}
