/**
 The asset category deduced from an instrument's display name: a priority-ordered
 chain of keyword tests on the upper-cased name, first match wins.
 */
module Classifier {
  import opened Text

  datatype Category = World | UnitedStates | FixedIncome | Emerging | Generic

  /** The label the lookup reports for each category. */
  function Label(c: Category): (l: string)
  {
    match c
    case World => "\U{1F30D} Azionario Mondo"
    case UnitedStates => "\U{1F1FA}\U{1F1F8} Azionario USA"
    case FixedIncome => "\U{1F3DB}\U{FE0F} Obbligazionario"
    case Emerging => "\U{1F42F} Emergenti"
    case Generic => "Generico"
  }

  const Labels: set<string> := {Label(World), Label(UnitedStates), Label(FixedIncome), Label(Emerging), Label(Generic)}

  /** Distinct categories are reported with distinct labels. */
  lemma LabelInjective(c: Category, d: Category)
    requires Label(c) == Label(d)
    ensures c == d
  {
  }

  lemma LabelsHasFive()
    ensures |Labels| == 5
  {
    forall c: Category, d: Category | Label(c) == Label(d) ensures c == d {
      LabelInjective(c, d);
    }
  }

  /** The if/elif chain: tested on the upper-cased name, in priority order. */
  function Classify(name: string): (c: Category)
  {
    var n := ToUpper(name);
    if Contains(n, "MSCI WORLD") || Contains(n, "GLOBAL") then World
    else if Contains(n, "S&P 500") || Contains(n, "USA") then UnitedStates
    else if Contains(n, "BOND") then FixedIncome
    else if Contains(n, "EMERGING") then Emerging
    else Generic
  }

  /** An independent reading of the same rule: an ordered table of
      (keywords, category) rows, scanned top to bottom. */
  datatype Rule = Rule(keywords: seq<string>, category: Category)

  const Rules: seq<Rule> := [
    Rule(["MSCI WORLD", "GLOBAL"], World),
    Rule(["S&P 500", "USA"], UnitedStates),
    Rule(["BOND"], FixedIncome),
    Rule(["EMERGING"], Emerging)
  ]

  function AnyContained(n: string, keywords: seq<string>): (b: bool)
    ensures b <==> exists k :: 0 <= k < |keywords| && Contains(n, keywords[k])
  {
    if keywords == [] then false
    else Contains(n, keywords[0]) || AnyContained(n, keywords[1..])
  }

  function FirstMatch(rules: seq<Rule>, n: string): (c: Category)
  {
    if rules == [] then Generic
    else if AnyContained(n, rules[0].keywords) then rules[0].category
    else FirstMatch(rules[1..], n)
  }

  lemma AnyContainedPair(n: string, a: string, b: string)
    ensures AnyContained(n, [a, b]) == (Contains(n, a) || Contains(n, b))
  {
    assert [a, b][1..] == [b];
  }

  /** The table picks the category of the first row that matches ... */
  lemma {:induction false} FirstMatchWins(rules: seq<Rule>, n: string, j: nat)
    requires j < |rules| && AnyContained(n, rules[j].keywords)
    requires forall i :: 0 <= i < j ==> !AnyContained(n, rules[i].keywords)
    ensures FirstMatch(rules, n) == rules[j].category
  {
    if j > 0 {
      assert !AnyContained(n, rules[0].keywords);
      FirstMatchWins(rules[1..], n, j - 1);
    }
  }

  /** ... and the default when no row matches. */
  lemma {:induction false} FirstMatchDefault(rules: seq<Rule>, n: string)
    requires forall i :: 0 <= i < |rules| ==> !AnyContained(n, rules[i].keywords)
    ensures FirstMatch(rules, n) == Generic
  {
    if rules != [] {
      assert !AnyContained(n, rules[0].keywords);
      FirstMatchDefault(rules[1..], n);
    }
  }

  /** The if/elif chain and the table agree on every name. */
  lemma ClassifyByTable(name: string)
    ensures Classify(name) == FirstMatch(Rules, ToUpper(name))
  {
    var n := ToUpper(name);
    var m := seq(|Rules|, i requires 0 <= i < |Rules| => AnyContained(n, Rules[i].keywords));
    AnyContainedPair(n, "MSCI WORLD", "GLOBAL");
    AnyContainedPair(n, "S&P 500", "USA");
    assert m[0] == (Contains(n, "MSCI WORLD") || Contains(n, "GLOBAL"));
    assert m[1] == (Contains(n, "S&P 500") || Contains(n, "USA"));
    assert m[2] == Contains(n, "BOND");
    assert m[3] == Contains(n, "EMERGING");
    if m[0] {
      FirstMatchWins(Rules, n, 0);
    } else if m[1] {
      FirstMatchWins(Rules, n, 1);
    } else if m[2] {
      FirstMatchWins(Rules, n, 2);
    } else if m[3] {
      FirstMatchWins(Rules, n, 3);
    } else {
      FirstMatchDefault(Rules, n);
    }
  }

  /** A world keyword decides the category whatever else the name contains. */
  lemma WorldHasPriority(name: string)
    requires Contains(ToUpper(name), "MSCI WORLD") || Contains(ToUpper(name), "GLOBAL")
    ensures Classify(name) == World
  {
  }

  /** Each category is chosen exactly when its keywords match and no keyword of
      a higher-priority row does. */
  lemma ClassifyIff(name: string)
    ensures var n := ToUpper(name);
      var world := Contains(n, "MSCI WORLD") || Contains(n, "GLOBAL");
      var usa := Contains(n, "S&P 500") || Contains(n, "USA");
      var bond := Contains(n, "BOND");
      var emerging := Contains(n, "EMERGING");
      && (Classify(name) == World <==> world)
      && (Classify(name) == UnitedStates <==> !world && usa)
      && (Classify(name) == FixedIncome <==> !world && !usa && bond)
      && (Classify(name) == Emerging <==> !world && !usa && !bond && emerging)
      && (Classify(name) == Generic <==> !world && !usa && !bond && !emerging)
  {
  }

  /** Matching ignores ASCII case: names that upper-case alike are classified
      alike, and upper-casing a name first changes nothing. */
  lemma ClassifyIgnoresCase(a: string, b: string)
    requires ToUpper(a) == ToUpper(b)
    ensures Classify(a) == Classify(b)
    ensures Classify(ToUpper(a)) == Classify(a)
  {
    ToUpperIdempotent(a);
  }

  /** A name holding both a world and an emerging-markets keyword is World. */
  lemma WorldBeforeEmergingExample(name: string)
    requires name == "MSCI WORLD EMERGING MARKETS FUND"
    ensures Contains(ToUpper(name), "EMERGING")
    ensures Classify(name) == World
  {
    AlreadyUpper(name);
    assert OccursAt(name, "EMERGING", 11);
    ContainsIff(name, "EMERGING");
    WorldHasPriority(name);
  }

  lemma AlreadyUpper(name: string)
    requires name == "MSCI WORLD EMERGING MARKETS FUND"
    ensures ToUpper(name) == name
  {
    assert NoLower(name);
    ToUpperOfUpper(name);
  }
}
