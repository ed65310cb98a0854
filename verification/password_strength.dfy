/** The strength meter of the two password fields
    (`components/ui/PasswordInput.tsx` of the older front end and of the
    client): one point each for length, an upper-case letter, a digit and a
    character that is neither letter nor digit. The older front end wants
    at least 8 characters and explains what is missing; the client wants
    more than 8. Lengths count characters. */
module PasswordStrength {
  import opened Strings

  /** `/[A-Z]/.test(value)`. */
  predicate HasUpper(value: string) {
    exists i :: 0 <= i < |value| && IsUpper(value[i])
  }

  /** `/[0-9]/.test(value)`. */
  predicate HasDigit(value: string) {
    exists i :: 0 <= i < |value| && IsDigit(value[i])
  }

  /** `/[^A-Za-z0-9]/.test(value)`. */
  predicate HasSpecial(value: string) {
    exists i :: 0 <= i < |value| && !IsAlnum(value[i])
  }

  /** 1 for a criterion met, 0 otherwise. */
  function Point(met: bool): (n: nat)
    ensures n <= 1 && (n == 1 <==> met)
  {
    if met then 1 else 0
  }

  /** The four hints of the older front end, in the order it checks. */
  const LengthHint := "Use at least 8 characters"
  const UpperHint := "Add uppercase letters"
  const DigitHint := "Add numbers"
  const SpecialHint := "Add special characters"

  /** The meter's words for scores 1 to 4. */
  const Labels := ["Weak", "Fair", "Good", "Strong"]

  /** What the older front end's `calculateStrength` works out: the score,
      the hints (which it joins with `', '`), and the label. */
  datatype Strength = Strength(score: nat, feedback: seq<string>, caption: string)

  /** The hints for the unmet criteria, in checking order. */
  function Hints(longEnough: bool, upper: bool, digit: bool, special: bool): (r: seq<string>)
    ensures |r| == 4 - (Point(longEnough) + Point(upper) + Point(digit) + Point(special))
    ensures (LengthHint in r <==> !longEnough) && (UpperHint in r <==> !upper)
    ensures (DigitHint in r <==> !digit) && (SpecialHint in r <==> !special)
  {
    (if longEnough then [] else [LengthHint]) + (if upper then [] else [UpperHint])
    + (if digit then [] else [DigitHint]) + (if special then [] else [SpecialHint])
  }

  /** `calculateStrength` of the older front end: at least 8 characters
      earns the length point. */
  function FrontendStrength(value: string): (s: Strength)
    ensures s.score <= 4 && |s.feedback| == 4 - s.score
    ensures s.score == Point(|value| >= 8) + Point(HasUpper(value)) + Point(HasDigit(value)) + Point(HasSpecial(value))
    ensures (LengthHint in s.feedback <==> |value| < 8) && (UpperHint in s.feedback <==> !HasUpper(value))
    ensures (DigitHint in s.feedback <==> !HasDigit(value)) && (SpecialHint in s.feedback <==> !HasSpecial(value))
    ensures s.score == 0 <==> s.caption == ""
    ensures s.score > 0 ==> s.caption == Labels[s.score - 1]
  {
    var score := Point(|value| >= 8) + Point(HasUpper(value)) + Point(HasDigit(value)) + Point(HasSpecial(value));
    Strength(score, Hints(|value| >= 8, HasUpper(value), HasDigit(value), HasSpecial(value)),
      if score == 0 then "" else Labels[score - 1])
  }

  /** The older front end draws the meter only when asked to and the score
      is above 0. */
  predicate FrontendMeterShown(showStrengthMeter: bool, value: string) {
    showStrengthMeter && FrontendStrength(value).score > 0
  }

  /** `calculateStrength` of the client: only more than 8 characters earns
      the length point. */
  function ClientScore(value: string): (score: nat)
    ensures score <= 4
    ensures score == Point(|value| > 8) + Point(HasUpper(value)) + Point(HasDigit(value)) + Point(HasSpecial(value))
  {
    var score := 0;
    var score := if |value| > 8 then score + 1 else score;
    var score := if HasUpper(value) then score + 1 else score;
    var score := if HasDigit(value) then score + 1 else score;
    if HasSpecial(value) then score + 1 else score
  }

  /** The two fields agree except on passwords of exactly 8 characters,
      which only the older front end rewards for length. */
  lemma EightCharactersDiffer(value: string)
    ensures |value| == 8 ==> FrontendStrength(value).score == ClientScore(value) + 1
    ensures |value| != 8 ==> FrontendStrength(value).score == ClientScore(value)
  {
  }

  /** Typing more never lowers the score of either field. */
  lemma AppendNeverLowers(value: string, more: string)
    ensures FrontendStrength(value + more).score >= FrontendStrength(value).score
    ensures ClientScore(value + more) >= ClientScore(value)
  {
    var v := value + more;
    if HasUpper(value) {
      var i :| 0 <= i < |value| && IsUpper(value[i]);
      assert v[i] == value[i];
    }
    if HasDigit(value) {
      var i :| 0 <= i < |value| && IsDigit(value[i]);
      assert v[i] == value[i];
    }
    if HasSpecial(value) {
      var i :| 0 <= i < |value| && !IsAlnum(value[i]);
      assert v[i] == value[i];
    }
  }

  /** A long enough password of all four kinds is `Strong` with no hint. */
  lemma AllKindsStrong(value: string)
    requires |value| >= 8 && HasUpper(value) && HasDigit(value) && HasSpecial(value)
    ensures FrontendStrength(value).caption == "Strong" && FrontendStrength(value).feedback == []
  {
  }

  /** The empty password scores 0, shows no meter and gets all four
      hints. */
  lemma EmptyPasswordWeakest()
    ensures FrontendStrength("").feedback == [LengthHint, UpperHint, DigitHint, SpecialHint]
    ensures !FrontendMeterShown(true, "") && ClientScore("") == 0
  {
  }
}
