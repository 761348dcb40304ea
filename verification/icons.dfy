/** `getSmartIcon`: the icon a new goal gets from keywords in its name. The
    rules are tried in order and the first one with a keyword occurring
    anywhere in the lower-cased name wins (each regular expression is a
    plain alternation, so it matches exactly when one of its words is a
    substring); a name no rule matches gets 'Target'. */
module Icons {
  import opened Text

  datatype IconRule = IconRule(icon: string, words: seq<string>)

  const DefaultIcon: string := "Target"

  /** The keyword table, in the order the rules are tried. */
  const IconRules: seq<IconRule> := [
    IconRule("Plane", ["trip", "travel", "vacation", "flight", "fly", "japan", "europe", "visit"]),
    IconRule("Car", ["car", "auto", "vehicle", "truck", "tesla", "bmw", "toyota"]),
    IconRule("Home", ["house", "home", "renovation", "repair", "kitchen", "bath", "roof"]),
    IconRule("Shield", ["emergency", "fund", "save", "safe", "security"]),
    IconRule("Gift", ["wedding", "party", "gift", "birthday", "celebration"]),
    IconRule("Monitor", ["computer", "laptop", "tech", "macbook", "pc", "gaming"]),
    IconRule("Smartphone", ["phone", "iphone", "samsung", "mobile"]),
    IconRule("Tv", ["tv", "television", "oled", "cinema"]),
    IconRule("Music", ["music", "concert", "festival", "guitar", "piano"])
  ]

  /** Some keyword of the rule occurs in `lowerName`. */
  predicate Fires(rule: IconRule, lowerName: string) {
    exists w :: w in rule.words && Contains(lowerName, w)
  }

  /** Rule `i` fires and no earlier rule does. */
  predicate FirstFiring(rules: seq<IconRule>, lowerName: string, i: int) {
    0 <= i < |rules| && Fires(rules[i], lowerName)
    && forall j :: 0 <= j < i ==> !Fires(rules[j], lowerName)
  }

  predicate NoneFires(rules: seq<IconRule>, lowerName: string) {
    forall i :: 0 <= i < |rules| ==> !Fires(rules[i], lowerName)
  }

  /** The first rule of `rules` that fires decides the icon. */
  function FirstIcon(rules: seq<IconRule>, lowerName: string): (r: string)
    ensures NoneFires(rules, lowerName) ==> r == DefaultIcon
    ensures forall i :: FirstFiring(rules, lowerName, i) ==> r == rules[i].icon
    ensures !NoneFires(rules, lowerName) ==> exists i :: FirstFiring(rules, lowerName, i)
  {
    if rules == [] then DefaultIcon
    else if Fires(rules[0], lowerName) then
      assert FirstFiring(rules, lowerName, 0);
      rules[0].icon
    else
      var r := FirstIcon(rules[1..], lowerName);
      assert forall i :: 1 <= i < |rules| ==> rules[i] == rules[1..][i - 1];
      assert forall i :: FirstFiring(rules, lowerName, i) ==> i >= 1 && FirstFiring(rules[1..], lowerName, i - 1);
      assert forall k :: FirstFiring(rules[1..], lowerName, k) ==> FirstFiring(rules, lowerName, k + 1);
      assert !NoneFires(rules, lowerName) ==> !NoneFires(rules[1..], lowerName);
      r
  }

  function SmartIcon(name: string): (r: string)
    ensures forall i :: FirstFiring(IconRules, Lower(name), i) ==> r == IconRules[i].icon
    ensures r == DefaultIcon <==> NoneFires(IconRules, Lower(name))
  {
    NoRuleGivesDefault();
    FirstIcon(IconRules, Lower(name))
  }

  lemma NoRuleGivesDefault()
    ensures forall i :: 0 <= i < |IconRules| ==> IconRules[i].icon != DefaultIcon
  {
    assert |IconRules| == 9;
    forall i | 0 <= i < |IconRules| ensures IconRules[i].icon != DefaultIcon {
      assert IconRules[i].icon[0] != 'T' || IconRules[i].icon == "Tv";
    }
  }

  /** The icon depends on the name only up to letter case. */
  lemma SmartIconIgnoresCase(name: string)
    ensures SmartIcon(Lower(name)) == SmartIcon(name)
  {
    LowerIdempotent(name);
  }

  /** A name containing a travel keyword, in any letter case, gets the plane. */
  lemma TravelGetsPlane(name: string, word: string, at: nat)
    requires word in IconRules[0].words && OccursAt(Lower(name), word, at)
    ensures SmartIcon(name) == "Plane"
  {
    ContainsIff(Lower(name), word);
    assert FirstFiring(IconRules, Lower(name), 0);
  }
}
