/** What the candidate query and the exact match ask of a vault row, said of
    its columns and answers one by one (prescreener_vault/reuse.py). */
module ReuseMatches {
  import opened Counting
  import opened ReuseModel

  // ---- Age groups ----

  /** AGE_GROUP_RANGES */
  function Bounds(group: AgeGroup): (int, int)
    requires group != NoGroup
  {
    match group
    case Ages13To17 => (13, 17)
    case Ages18To24 => (18, 24)
    case Ages25To29 => (25, 29)
    case Ages30To34 => (30, 34)
    case Ages35To39 => (35, 39)
    case Ages40To44 => (40, 44)
    case Ages45To49 => (45, 49)
    case Ages50To54 => (50, 54)
  }

  /** The table and the function that assigns groups agree. */
  lemma GroupIffInBounds(age: int, group: AgeGroup)
    ensures group != NoGroup ==> (AgeGroupOf(Some(age)) == group <==> Bounds(group).0 <= age <= Bounds(group).1)
    ensures AgeGroupOf(None) == NoGroup && (AgeGroupOf(Some(age)) == NoGroup <==> age < 13 || age > 54)
  {
  }

  // ---- Answers ----

  predicate IsMale(word: string) { word in ["male", "m", "man"] }

  predicate IsFemale(word: string) { word in ["female", "f", "woman"] }

  /** An age as it reads at a time: from the stored date of birth if that is
      readable, or else the column. */
  function AgeAt(text: Text, row: VaultRow, at: Instant): Option<nat> {
    if BirthDate in row.dimensions && text.bornAge(row.dimensions[BirthDate], at).Some?
    then text.bornAge(row.dimensions[BirthDate], at) else row.age
  }

  /** A column stands in for an answer that is not stored. */
  function StoredOr(row: VaultRow, key: Attribute, column: string, value: string): set<string> {
    if key in row.dimensions then row.dimensions[key] else if column != "" then {value} else {}
  }

  /** The answer of a row to one question, blanks dropped; empty if there is
      none. */
  function AnswerAt(text: Text, row: VaultRow, key: Attribute, at: Instant): set<string> {
    var age := AgeAt(text, row, at);
    var stored := if key in row.dimensions then row.dimensions[key] else {};
    var known := age.Some? && 1 <= age.value <= 99;
    var answer := match key
      case Age => if known then {text.digits(age.value)} else stored
      case Group => if known then {text.groupName(AgeGroupOf(age))} else stored
      case Country =>
        if key in row.dimensions then stored
        else {text.lower(if row.country != "" then row.country else row.countryName)}
      case Language =>
        if key in row.dimensions then stored
        else {text.lower(if row.language != "" then row.language else row.languageName)}
      case Gender =>
        var word := text.lower(row.gender);
        StoredOr(row, key, row.gender, if IsMale(word) then "male" else if IsFemale(word) then "female" else word)
      case Ethnicity => StoredOr(row, key, row.ethnicity, text.normal(key, row.ethnicity))
      case Postal => StoredOr(row, key, row.postal, text.normal(key, row.postal))
      case _ => stored;
    answer - {""}
  }

  function ValueOf(dimensions: Dimensions, key: Attribute): set<string> {
    if key in dimensions then dimensions[key] else {}
  }

  /** The answers that the age columns have no part in. */
  lemma NamedAnswers(text: Text, row: VaultRow, key: Attribute, at: Instant)
    requires key !in {Age, Group, Ethnicity, Postal}
    ensures AnswerAt(text, row, key, at) == ValueOf(NamedDimensions(text, row), key) - {""}
  {
  }

  lemma NamedKeepsOthers(text: Text, row: VaultRow, key: Attribute)
    requires key !in {Country, Language, Gender}
    ensures key in NamedDimensions(text, row) <==> key in row.dimensions
    ensures ValueOf(NamedDimensions(text, row), key) == ValueOf(row.dimensions, key)
  {
  }

  lemma AgedAnswers(text: Text, row: VaultRow, key: Attribute, at: Instant)
    requires key !in {Ethnicity, Postal}
    ensures AnswerAt(text, row, key, at) == ValueOf(AgedDimensions(text, row, at), key) - {""}
  {
    NamedKeepsOthers(text, row, BirthDate);
    assert CurrentAge(text, row, NamedDimensions(text, row), at) == AgeAt(text, row, at);
    if key in {Age, Group} {
      NamedKeepsOthers(text, row, key);
    } else {
      NamedAnswers(text, row, key, at);
    }
  }

  lemma AgedKeepsOthers(text: Text, row: VaultRow, key: Attribute, at: Instant)
    requires key in {Ethnicity, Postal}
    ensures key in AgedDimensions(text, row, at) <==> key in row.dimensions
    ensures ValueOf(AgedDimensions(text, row, at), key) == ValueOf(row.dimensions, key)
  {
    NamedKeepsOthers(text, row, key);
  }

  lemma AllKeepsOthers(text: Text, row: VaultRow, key: Attribute, at: Instant)
    requires key != Ethnicity && key != Postal
    ensures ValueOf(AllDimensions(text, row, at), key) == ValueOf(AgedDimensions(text, row, at), key)
  {
  }

  lemma DefaultedAnswers(text: Text, row: VaultRow, key: Attribute, at: Instant)
    requires key == Ethnicity || key == Postal
    ensures var column := if key == Ethnicity then row.ethnicity else row.postal;
            ValueOf(AllDimensions(text, row, at), key) == StoredOr(row, key, column, text.normal(key, column))
  {
    AgedKeepsOthers(text, row, key, at);
  }

  lemma AllAnswers(text: Text, row: VaultRow, key: Attribute, at: Instant)
    ensures AnswerAt(text, row, key, at) == ValueOf(AllDimensions(text, row, at), key) - {""}
  {
    if key == Ethnicity || key == Postal {
      DefaultedAnswers(text, row, key, at);
    } else {
      AllKeepsOthers(text, row, key, at);
      AgedAnswers(text, row, key, at);
    }
  }

  lemma CandidateAnswers(text: Text, row: VaultRow, key: Attribute, at: Instant)
    ensures AnswerAt(text, row, key, at) == ValueOf(CandidateDimensions(text, row, at), key)
  {
    AllAnswers(text, row, key, at);
  }

  /** Every required answer is the row's own; a date of birth is left to the
      age, if that is required too. */
  ghost predicate Answers(text: Text, row: VaultRow, required: Dimensions, at: Instant) {
    forall key :: key in required && (key == BirthDate ==> Age !in required || required[Age] == {}) ==>
      required[key] != {} && AnswerAt(text, row, key, at) == required[key]
  }

  lemma AnswersIff(text: Text, row: VaultRow, required: Dimensions, at: Instant)
    ensures MatchesAll(CandidateDimensions(text, row, at), required) <==> Answers(text, row, required, at)
  {
    var candidate := CandidateDimensions(text, row, at);
    forall key | key in required
      ensures MatchesKey(candidate, required, key) <==>
        ((key == BirthDate ==> Age !in required || required[Age] == {}) ==>
           required[key] != {} && AnswerAt(text, row, key, at) == required[key])
    {
      CandidateAnswers(text, row, key, at);
    }
  }

  // ---- The query ----

  /** `gender` is one of the words for the wanted one. */
  predicate SameGender(gender: string, wanted: string) {
    if wanted == "male" then IsMale(gender) else if wanted == "female" then IsFemale(gender) else gender == wanted
  }

  /** The stored age group is the one of the respondent's age, or of an age up
      to two years less. */
  predicate AgeMayFit(age: Option<nat>, group: AgeGroup) {
    age.Some? && 13 <= age.value <= 56 ==>
      group != NoGroup && Bounds(group).0 <= age.value && age.value - 2 <= Bounds(group).1
  }

  /** A single postal code or ethnicity must be the stored one. */
  predicate SameColumn(required: Dimensions, key: Attribute, column: string) {
    key in required && |required[key]| == 1 ==> required[key] == {column}
  }

  /** Client, country, gender and the two delays, then who is left out, then
      what narrows the query. */
  predicate Fits(policy: Policy, row: VaultRow, uid: Uid, own: Uid, signature: Signature, excluded: set<Uid>,
                       at: Instant)
  {
    row.clientCode == policy.clientCode && row.country == signature.country &&
    SameGender(row.gender, signature.gender) &&
    at - row.submitted >= policy.firstDelay &&
    (row.lastReused.Some? ==> at - row.lastReused.value >= policy.minInterval) &&
    uid != own && uid !in excluded &&
    AgeMayFit(signature.age, row.ageGroup) &&
    SameColumn(signature.required, Postal, row.postal) && SameColumn(signature.required, Ethnicity, row.ethnicity)
  }

  lemma SomeGroup(age: nat)
    ensures CandidateAgeGroups(Some(age)) != {} <==> 13 <= age <= 56
  {
    if 13 <= age <= 56 {
      assert AgeGroupOf(Some(if age <= 54 then age else age - 2)) in CandidateAgeGroups(Some(age));
    }
  }

  lemma AgeGroupsTried(age: Option<nat>, group: AgeGroup)
    ensures (CandidateAgeGroups(age) != {} ==> group in CandidateAgeGroups(age)) <==> AgeMayFit(age, group)
  {
    if age.Some? {
      var a: int := age.value;
      SomeGroup(a);
      GroupIffInBounds(a, group);
      GroupIffInBounds(a - 1, group);
      GroupIffInBounds(a - 2, group);
      assert group in CandidateAgeGroups(age) <==>
        group != NoGroup &&
        (AgeGroupOf(Some(a)) == group || AgeGroupOf(Some(a - 1)) == group || AgeGroupOf(Some(a - 2)) == group);
    }
  }

  lemma OneValue(required: Dimensions, key: Attribute, column: string)
    ensures Narrowed(required, key, column) <==> SameColumn(required, key, column)
  {
    if key in required && |required[key]| == 1 && column in required[key] {
      assert |required[key] - {column}| == 0;
      assert required[key] == {column};
    }
  }

  lemma FitsIff(policy: Policy, row: VaultRow, uid: Uid, own: Uid, signature: Signature, excluded: set<Uid>,
                at: Instant)
    ensures PassesFilter(policy, row, uid, own, signature, excluded, at) <==>
      Fits(policy, row, uid, own, signature, excluded, at)
  {
    AgeGroupsTried(signature.age, row.ageGroup);
    OneValue(signature.required, Postal, row.postal);
    OneValue(signature.required, Ethnicity, row.ethnicity);
  }

  /** Who may get a reused profile at all. */
  lemma InScopeIff(policy: Policy, signature: Signature)
    ensures InScope(policy, signature) <==>
      policy.enabled && signature.country != "" && signature.gender in ["male", "female"] &&
      signature.gender in policy.genders && signature.age.Some? &&
      exists group :: group in policy.ageGroups && group != NoGroup &&
        Bounds(group).0 <= signature.age.value <= Bounds(group).1
  {
    if signature.age.Some? {
      forall group | group != NoGroup
        ensures AgeGroupOf(signature.age) == group <==>
          Bounds(group).0 <= signature.age.value <= Bounds(group).1
      {
        GroupIffInBounds(signature.age.value, group);
      }
    }
  }
}
