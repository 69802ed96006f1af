/** Two repositories worked through `categorizeProject`. */
module CategoryCases {
  import opened Text
  import opened Projects

  // ----- "cli-tool", a Go utility -----

  predicate IsCliTool(p: Project) {
    p.name == "cli-tool" && p.description == "a utility" && p.language == "Go" && p.topics == []
  }

  /** Letters missing from the text of "cli-tool": each keyword has one. */
  const CliToolLetters: string := "mdsfrnpkgh"

  lemma CliToolNameLetters(name: string)
    requires name == "cli-tool"
    ensures LettersAbsent(name, CliToolLetters)
  {
  }

  lemma CliToolDescriptionLetters(description: string)
    requires description == "a utility"
    ensures LettersAbsent(description, CliToolLetters)
  {
  }

  lemma CliToolNotMachineLearning(p: Project)
    requires TextLacks(p, CliToolLetters)
    ensures !IsMachineLearning(p)
  {
    NoneMentioned(p, MachineLearningWords, "mmsfr", CliToolLetters);
  }

  lemma CliToolNotDeepLearning(p: Project)
    requires TextLacks(p, CliToolLetters)
    ensures !IsDeepLearning(p)
  {
    NoneMentioned(p, DeepLearningWords, "dnnpk", CliToolLetters);
  }

  lemma CliToolNotGenAi(p: Project)
    requires TextLacks(p, CliToolLetters)
    ensures !IsGenAi(p)
  {
    NoneMentioned(p, GenAiWords, "gggmh", CliToolLetters);
  }

  /** A Go command-line tool with a plain description matches no keyword
      group and is not Python, so it is only "other". */
  lemma CliToolIsOther(p: Project)
    requires IsCliTool(p)
    ensures Categorize(p) == [Other]
  {
    CliToolNameLetters(p.name);
    CliToolDescriptionLetters(p.description);
    CliToolNotMachineLearning(p);
    CliToolNotDeepLearning(p);
    CliToolNotGenAi(p);
    KeywordAbsent(p, "python", CliToolLetters, 'p');
  }

  // ----- "nn-trainer", a Python deep-learning classifier -----

  predicate IsNnTrainer(p: Project) {
    p.name == "nn-trainer" && p.description == "deep learning image classifier" &&
    p.language == "Python" && p.topics == []
  }

  /** Lower-casing a text around a lone "m" keeps the "m" in place. */
  lemma LowerAroundM(x: string, z: string)
    ensures Lower(x + "m" + z) == Lower(x) + ['m'] + Lower(z)
  {
    LowerAppend(x + "m", z);
    LowerAppend(x, "m");
    assert Lower("m") == "m";
  }

  /** Three fields joined by spaces, regrouped around the middle one's "m". */
  lemma RegroupAroundM(ln: string, lx: string, lz: string, lt: string)
    ensures ln + " " + (lx + ['m'] + lz) + " " + lt == (ln + " " + lx) + ['m'] + (lz + " " + lt)
  {
  }

  /** "ml" is not found around a lone "m" followed by "a". */
  lemma MlAbsentAroundLoneM(pre: string, post: string)
    requires 'm' !in pre && 'm' !in post && post != [] && post[0] == 'a'
    ensures !Includes(pre + ['m'] + post, "ml")
  {
    assert "ml" == ['m', 'l'];
    PairAbsent(pre, post, 'm', 'l');
  }

  /** "ml" is not in three lower-cased fields joined by spaces when the
      middle one has a single "m", followed by "a", and no field has another. */
  lemma MlAbsentFromLowered(ln: string, lx: string, lz: string, lt: string)
    requires 'm' !in ln && 'm' !in lx && 'm' !in lz && 'm' !in lt
    requires lz != [] && lz[0] == 'a'
    ensures !Includes(ln + " " + (lx + ['m'] + lz) + " " + lt, "ml")
  {
    RegroupAroundM(ln, lx, lz, lt);
    assert 'm' !in ln + " " + lx;
    assert 'm' !in lz + " " + lt && (lz + " " + lt)[0] == 'a';
    MlAbsentAroundLoneM(ln + " " + lx, lz + " " + lt);
  }

  /** The same for the fields before lower-casing, when none of them has an
      "m" or an "M" outside the lone one. */
  lemma MlAbsentFromFields(n: string, x: string, z: string, t: string)
    requires LettersAbsent(n, "m") && LettersAbsent(x, "m") && LettersAbsent(z, "m")
    requires LettersAbsent(t, "m")
    requires z != [] && z[0] == 'a'
    ensures !Includes(Lower(n) + " " + (Lower(x) + ['m'] + Lower(z)) + " " + Lower(t), "ml")
  {
    AbsentFromLower(n, "m", 'm');
    AbsentFromLower(x, "m", 'm');
    AbsentFromLower(z, "m", 'm');
    AbsentFromLower(t, "m", 'm');
    LowerAt(z, 0);
    MlAbsentFromLowered(Lower(n), Lower(x), Lower(z), Lower(t));
  }

  /** "ml" is not in a project's text when the description has a single
      "m", followed by "a", and no other field has one. */
  lemma MlAbsentAround(p: Project, x: string, z: string)
    requires p.description == x + "m" + z
    requires LettersAbsent(p.name, "m") && LettersAbsent(x, "m") && LettersAbsent(z, "m")
    requires LettersAbsent(Join(p.topics, " "), "m")
    requires z != [] && z[0] == 'a'
    ensures !Includes(Content(p), "ml")
  {
    LowerAroundM(x, z);
    MlAbsentFromFields(p.name, x, z, Join(p.topics, " "));
  }

  /** No machine-learning keyword is found when "ml" is ruled out and each
      of the other four has a letter that the text lacks. */
  lemma NoMachineLearningWord(p: Project)
    requires TextLacks(p, "hko") && !Includes(Content(p), "ml")
    ensures !IsMachineLearning(p)
  {
    var others := ["machine learning", "sklearn", "classification", "regression"];
    NoneMentioned(p, others, "hkoo", "hko");
    MentionsAnyIff(Content(p), others);
    MentionsAnyIff(Content(p), MachineLearningWords);
  }

  lemma NnTrainerNameLetters(name: string)
    requires name == "nn-trainer"
    ensures LettersAbsent(name, "hko") && LettersAbsent(name, "m")
  {
  }

  lemma NnTrainerDescriptionLetters(description: string)
    requires description == "deep learning image classifier"
    ensures LettersAbsent(description, "hko")
  {
    NnTrainerDescriptionHalves(description);
    DeepLearningLetters("deep learning");
    ImageClassifierLetters(" image classifier");
    LettersAbsentAppend("deep learning", " image classifier", "hko");
  }

  /** The description as its keyword and the rest. */
  lemma NnTrainerDescriptionHalves(description: string)
    requires description == "deep learning image classifier"
    ensures description == "deep learning" + " image classifier"
  {
  }

  lemma DeepLearningLetters(a: string)
    requires a == "deep learning"
    ensures LettersAbsent(a, "hko")
  {
  }

  lemma ImageClassifierLetters(b: string)
    requires b == " image classifier"
    ensures LettersAbsent(b, "hko")
  {
  }

  /** The description around its one "m". */
  lemma NnTrainerDescriptionSplit(description: string)
    requires description == "deep learning image classifier"
    ensures description == "deep learning i" + "m" + "age classifier"
  {
  }

  lemma NnTrainerDescriptionPieces(x: string, z: string)
    requires x == "deep learning i" && z == "age classifier"
    ensures LettersAbsent(x, "m") && LettersAbsent(z, "m")
  {
  }

  /** The description holds the keyword "deep learning" once lower-cased. */
  lemma NnTrainerDescriptionKeyword(description: string)
    requires description == "deep learning image classifier"
    ensures Includes(Lower(description), "deep learning")
  {
    NnTrainerDescriptionHalves(description);
    assert Includes("deep learning", "deep learning");
    IncludesWithin([], "deep learning", " image classifier", "deep learning");
    assert [] + "deep learning" + " image classifier" == description;
    assert NoUpper("deep learning");
    LowerKeepsLowerOccurrence(description, "deep learning");
  }

  /** A description that mentions "deep learning" makes a deep-learning project. */
  lemma DeepLearningDescription(p: Project)
    requires Includes(Lower(p.description), "deep learning")
    ensures IsDeepLearning(p)
  {
    DescriptionKeyword(p, "deep learning");
    MentionsAnyIff(Content(p), DeepLearningWords);
  }

  lemma NnTrainerIsDeepLearning(p: Project)
    requires p.description == "deep learning image classifier"
    ensures IsDeepLearning(p)
  {
    NnTrainerDescriptionKeyword(p.description);
    DeepLearningDescription(p);
  }

  /** A Python deep-learning classifier gets "deep-learning" and "python"
      but not "machine-learning": "classifier" is not "classification", and
      no other machine-learning keyword occurs. */
  lemma NnTrainerTags(p: Project)
    requires IsNnTrainer(p)
    ensures DeepLearning in Categorize(p) && PythonTag in Categorize(p)
    ensures MachineLearning !in Categorize(p)
  {
    NnTrainerNameLetters(p.name);
    NnTrainerDescriptionLetters(p.description);
    NnTrainerDescriptionSplit(p.description);
    NnTrainerDescriptionPieces("deep learning i", "age classifier");
    MlAbsentAround(p, "deep learning i", "age classifier");
    NoMachineLearningWord(p);
    NnTrainerIsDeepLearning(p);
    CategorizeMembership(p);
  }
}
