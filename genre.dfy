/**
 * The genre taxonomy mapper of netlify/functions/recommend.js: free-text genre
 * labels are lower-cased and mapped to a small closed set of coarse genres by an
 * ordered list of substring rules, the first matching rule winning.
 */
module Genre {
  import opened Wrappers
  import opened Text

  /** A genre field as the source meets it: a string, an array of strings, or missing. */
  datatype GenreValue = Str(s: string) | Arr(items: seq<string>) | Missing

  /** One mapping rule: if any target occurs in the label, the label maps to `value`. */
  datatype Rule = Rule(targets: seq<string>, value: string)

  /** The rules in the order the source tests them. */
  const Rules: seq<Rule> := [
    Rule(["country"], "country"),
    Rule(["hip hop", "hip-hop", "rap", "trap"], "hip-hop"),
    Rule(["r&b", "soul"], "soul"),
    Rule(["k-pop", "kpop"], "k-pop"),
    Rule(["latin", "reggaeton", "salsa", "bachata", "sertanejo"], "latin"),
    Rule(["edm", "dance", "electronic", "house", "club"], "dance"),
    Rule(["rock", "metal", "punk", "emo", "alt-rock", "alternative"], "rock"),
    Rule(["folk", "acoustic", "singer-songwriter"], "folk"),
    Rule(["jazz"], "jazz"),
    Rule(["classical"], "classical")
  ]

  const Unknown: string := "unknown"

  predicate Matches(rule: Rule, genre: string)
  {
    exists t :: t in rule.targets && Contains(genre, t)
  }

  /** The index of the first rule that matches, if any. */
  function FirstMatch(rules: seq<Rule>, genre: string): (r: Option<nat>)
    ensures r.Some? ==>
              && r.value < |rules|
              && Matches(rules[r.value], genre)
              && forall k :: 0 <= k < r.value ==> !Matches(rules[k], genre)
    ensures r.None? ==> forall k :: 0 <= k < |rules| ==> !Matches(rules[k], genre)
    decreases |rules|
  {
    if |rules| == 0 then None
    else if Matches(rules[0], genre) then Some(0)
    else
      match FirstMatch(rules[1..], genre)
      case None => None
      case Some(k) => Some(k + 1)
  }

  /** The text the rules are tested against: arrays are joined with spaces, a missing label is "". */
  function Lowered(raw: GenreValue): string
  {
    match raw
    case Str(s) => Lower(s)
    case Arr(items) => Lower(JoinAll(items, " "))
    case Missing => ""
  }

  /** `normalizeGenreLabel`: the first matching rule's value, else the lowered text, else "unknown". */
  function NormalizeGenreLabel(raw: GenreValue): (r: string)
    ensures r != ""
    ensures FirstMatch(Rules, Lowered(raw)).Some? ==> r == Rules[FirstMatch(Rules, Lowered(raw)).value].value
    ensures FirstMatch(Rules, Lowered(raw)).None? ==> r == if Lowered(raw) == "" then Unknown else Lowered(raw)
  {
    var genre := Lowered(raw);
    match FirstMatch(Rules, genre)
    case Some(k) => RuleValueNonEmpty(k); Rules[k].value
    case None => if genre == "" then Unknown else genre
  }

  /** No rule maps a label to the empty string. */
  lemma RuleValueNonEmpty(k: nat)
    requires k < |Rules|
    ensures Rules[k].value != ""
  {
    if k < 5 {
      assert Rules[..5][k] == Rules[k];
    } else {
      assert Rules[5..][k - 5] == Rules[k];
    }
  }

  /** Every result is a rule's value, or the label's own lowered text, or "unknown". */
  lemma NormalizeGenreLabelRange(raw: GenreValue)
    ensures var r := NormalizeGenreLabel(raw);
            (exists k :: 0 <= k < |Rules| && r == Rules[k].value) || r == Lowered(raw) || r == Unknown
  {
  }

  /** The first rule wins: "country rap" also contains "rap", yet maps to "country". */
  lemma CountryRapIsCountry()
    ensures Matches(Rules[1], "country rap")
    ensures NormalizeGenreLabel(Str("Country Rap")) == "country"
  {
    var lowered := "country rap";
    assert Lower("Country Rap") == lowered by {
      forall i | 0 <= i < |lowered| ensures Lower("Country Rap")[i] == lowered[i] {}
    }
    assert Rules[0].targets[0] == "country" && Rules[1].targets[2] == "rap";
    assert lowered[..|"country"|] == "country";
    assert IsPrefix("country", lowered);
    assert Contains(lowered, Rules[0].targets[0]);
    assert Matches(Rules[0], lowered);
    assert OccursAt(lowered, "rap", 8);
    ContainsAt(lowered, "rap", 8);
  }

  /** White space and line terminators as `String.prototype.trim` removes them. */
  predicate IsTrimmed(c: char)
  {
    var n := c as int;
    n == 0x09 || n == 0x0A || n == 0x0B || n == 0x0C || n == 0x0D || n == 0x20
    || n == 0xA0 || n == 0x1680 || (0x2000 <= n <= 0x200A) || n == 0x2028 || n == 0x2029
    || n == 0x202F || n == 0x205F || n == 0x3000 || n == 0xFEFF
  }

  /** `s.trim()` is non-empty. */
  predicate HasContent(s: string)
  {
    exists i :: 0 <= i < |s| && !IsTrimmed(s[i])
  }

  /** `asGenreArray`: a non-empty array is kept, a string with content is mapped, anything else is ["unknown"]. */
  function AsGenreArray(value: GenreValue): (r: seq<string>)
    ensures |r| >= 1
    ensures value.Arr? && |value.items| > 0 ==> r == value.items
    ensures !(value.Arr? && |value.items| > 0) ==> |r| == 1 && r[0] != ""
    ensures value.Str? && HasContent(value.s) ==> r == [NormalizeGenreLabel(value)]
    ensures !(value.Arr? && |value.items| > 0) && !(value.Str? && HasContent(value.s)) ==> r == [Unknown]
  {
    match value
    case Arr(items) => if |items| > 0 then items else [Unknown]
    case Str(s) => if HasContent(s) then [NormalizeGenreLabel(value)] else [Unknown]
    case Missing => [Unknown]
  }
}
