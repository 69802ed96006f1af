/** Repository records as received, the normalised Project shown on a card,
    the language colour table, the keyword categories and the filtered view. */
module Projects {
  import opened Text

  datatype Option<T> = None | Some(value: T)

  /** A repository record as the code-hosting API delivers it. A field the
      API leaves out or sets to null is `None`. */
  datatype RawRepo = RawRepo(
    name: string,
    description: Option<string>,
    language: Option<string>,
    stargazersCount: nat,
    forksCount: nat,
    htmlUrl: string,
    topics: Option<seq<string>>)

  /** A normalised project, as kept in the feed's project list. */
  datatype Project = Project(
    name: string,
    description: string,
    language: string,
    stars: nat,
    forks: nat,
    url: string,
    topics: seq<string>)

  const NoDescription: string := "No description available"
  const UnknownLanguage: string := "Unknown"

  /** `value || fallback` for an optional string: `None` and the empty
      string are falsy. */
  function OrDefault(value: Option<string>, fallback: string): (r: string)
    ensures value.Some? && value.value != "" ==> r == value.value
    ensures value.None? || value.value == "" ==> r == fallback
  {
    if value.Some? && value.value != "" then value.value else fallback
  }

  /** One step of the `repos.map(...)` in the fetch handler. */
  function Normalize(repo: RawRepo): (p: Project)
    ensures p.name == repo.name && p.url == repo.htmlUrl
    ensures p.stars == repo.stargazersCount && p.forks == repo.forksCount
    ensures p.description != "" && p.language != ""
    ensures p.description == (if repo.description.Some? && repo.description.value != ""
                              then repo.description.value else NoDescription)
    ensures p.language == (if repo.language.Some? && repo.language.value != ""
                           then repo.language.value else UnknownLanguage)
    ensures p.topics == (if repo.topics.Some? then repo.topics.value else [])
  {
    Project(
      repo.name,
      OrDefault(repo.description, NoDescription),
      OrDefault(repo.language, UnknownLanguage),
      repo.stargazersCount,
      repo.forksCount,
      repo.htmlUrl,
      if repo.topics.Some? then repo.topics.value else [])
  }

  /** The raw record a project would have come from if every field was set. */
  function AsRaw(p: Project): RawRepo {
    RawRepo(p.name, Some(p.description), Some(p.language), p.stars, p.forks, p.url, Some(p.topics))
  }

  /** Normalisation leaves an already display-ready project as it is. */
  lemma NormalizeKeepsComplete(p: Project)
    requires p.description != "" && p.language != ""
    ensures Normalize(AsRaw(p)) == p
  {
  }

  /** Normalising twice is normalising once. */
  lemma NormalizeIdempotent(repo: RawRepo)
    ensures Normalize(AsRaw(Normalize(repo))) == Normalize(repo)
  {
    NormalizeKeepsComplete(Normalize(repo));
  }

  /** The whole `repos.map(...)`: one project per record, in order. */
  function NormalizeAll(repos: seq<RawRepo>): (ps: seq<Project>)
    ensures |ps| == |repos|
    ensures forall i :: 0 <= i < |repos| ==> ps[i] == Normalize(repos[i])
  {
    if repos == [] then [] else [Normalize(repos[0])] + NormalizeAll(repos[1..])
  }

  // ----- language colours -----

  const DefaultColor: string := "#667eea"

  const LanguageColors: map<string, string> := map[
    "JavaScript" := "#f1e05a",
    "Python" := "#3572A5",
    "Java" := "#b07219",
    "HTML" := "#e34c26",
    "CSS" := "#1572B6",
    "TypeScript" := "#2b7489",
    "C++" := "#f34b7d",
    "C" := "#555555",
    "PHP" := "#4F5D95",
    "Ruby" := "#701516",
    "Go" := "#00ADD8",
    "Rust" := "#dea584",
    "Swift" := "#ffac45",
    "Jupyter Notebook" := "#DA5B0B"
  ]

  /** `getLanguageColor`: the table's colour, or the default for any other
      language. Every entry of the table is a non-empty string, so `||`
      falls back only for languages missing from the table. */
  function LanguageColor(language: string): (c: string)
    ensures language in LanguageColors ==> c == LanguageColors[language]
    ensures language !in LanguageColors ==> c == DefaultColor
  {
    if language in LanguageColors && LanguageColors[language] != "" then LanguageColors[language]
    else DefaultColor
  }

  /** The table has the fourteen listed languages and nothing else. */
  lemma ColorTableKeys()
    ensures LanguageColors.Keys == {"JavaScript", "Python", "Java", "HTML", "CSS", "TypeScript",
      "C++", "C", "PHP", "Ruby", "Go", "Rust", "Swift", "Jupyter Notebook"}
  {
  }

  /** A record without a language is shown as "Unknown" with the default swatch. */
  lemma MissingLanguageGetsDefaultColor(repo: RawRepo)
    requires repo.language.None? || repo.language.value == ""
    ensures Normalize(repo).language == UnknownLanguage
    ensures LanguageColor(Normalize(repo).language) == DefaultColor
  {
  }

  // ----- categories -----

  const MachineLearning: string := "machine-learning"
  const DeepLearning: string := "deep-learning"
  const GenAi: string := "gen-ai"
  const PythonTag: string := "python"
  const Other: string := "other"

  const MachineLearningWords: seq<string> := ["machine learning", "ml", "sklearn", "classification", "regression"]
  const DeepLearningWords: seq<string> := ["deep learning", "neural", "tensorflow", "pytorch", "keras"]
  const GenAiWords: seq<string> := ["gen ai", "generative", "gpt", "llm", "chatbot"]

  /** The text that keywords are looked for in: lower-cased name,
      description and space-joined topics, separated by spaces. */
  function Content(p: Project): string {
    Lower(p.name) + " " + Lower(p.description) + " " + Lower(Join(p.topics, " "))
  }

  /** `content.includes(w1) || content.includes(w2) || ...` */
  predicate MentionsAny(content: string, words: seq<string>) {
    words != [] && (Includes(content, words[0]) || MentionsAny(content, words[1..]))
  }

  /** The `||` chain holds exactly when some keyword of the group is included. */
  lemma {:induction false} MentionsAnyIff(content: string, words: seq<string>)
    ensures MentionsAny(content, words) <==> exists w :: w in words && Includes(content, w)
  {
    if words != [] {
      MentionsAnyIff(content, words[1..]);
      if Includes(content, words[0]) {
        assert words[0] in words;
      } else if MentionsAny(content, words[1..]) {
        var w :| w in words[1..] && Includes(content, w);
        assert w in words;
      } else {
        forall w | w in words ensures !Includes(content, w) {
          assert w == words[0] || w in words[1..];
        }
      }
    }
  }

  predicate IsMachineLearning(p: Project) { MentionsAny(Content(p), MachineLearningWords) }
  predicate IsDeepLearning(p: Project) { MentionsAny(Content(p), DeepLearningWords) }
  predicate IsGenAi(p: Project) { MentionsAny(Content(p), GenAiWords) }
  predicate IsPython(p: Project) { p.language == "Python" || Includes(Content(p), "python") }

  /** Position of a tag in the order `categorizeProject` pushes them. */
  function TagRank(tag: string): nat {
    if tag == MachineLearning then 0
    else if tag == DeepLearning then 1
    else if tag == GenAi then 2
    else if tag == PythonTag then 3
    else 4
  }

  /** The tags for the given rule outcomes, in rule order, or `["other"]`
      when no rule fires. */
  function TagsFor(ml: bool, dl: bool, ai: bool, py: bool): (tags: seq<string>)
    ensures |tags| >= 1
    ensures Other in tags ==> tags == [Other]
    ensures forall i, j :: 0 <= i < j < |tags| ==> TagRank(tags[i]) < TagRank(tags[j])
    ensures forall t :: t in tags ==> t in {MachineLearning, DeepLearning, GenAi, PythonTag, Other}
  {
    var fired :=
      (if ml then [MachineLearning] else []) +
      (if dl then [DeepLearning] else []) +
      (if ai then [GenAi] else []) +
      (if py then [PythonTag] else []);
    if |fired| > 0 then fired else [Other]
  }

  /** A tag is present exactly when its outcome is true; "other" exactly when none is. */
  lemma TagsForMembership(ml: bool, dl: bool, ai: bool, py: bool)
    ensures MachineLearning in TagsFor(ml, dl, ai, py) <==> ml
    ensures DeepLearning in TagsFor(ml, dl, ai, py) <==> dl
    ensures GenAi in TagsFor(ml, dl, ai, py) <==> ai
    ensures PythonTag in TagsFor(ml, dl, ai, py) <==> py
    ensures Other in TagsFor(ml, dl, ai, py) <==> !ml && !dl && !ai && !py
  {
    var tags := TagsFor(ml, dl, ai, py);
    forall t | t in tags ensures TagRank(t) == 4 <==> t == Other {
    }
  }

  /** `categorizeProject`: the tags whose rule fires, in rule order, or
      `["other"]` when none fires. */
  function Categorize(p: Project): (tags: seq<string>)
    ensures |tags| >= 1
    ensures Other in tags ==> tags == [Other]
    ensures forall i, j :: 0 <= i < j < |tags| ==> TagRank(tags[i]) < TagRank(tags[j])
    ensures forall t :: t in tags ==> t in {MachineLearning, DeepLearning, GenAi, PythonTag, Other}
    ensures p.language == "Python" ==> PythonTag in tags
  {
    TagsForMembership(IsMachineLearning(p), IsDeepLearning(p), IsGenAi(p), IsPython(p));
    TagsFor(IsMachineLearning(p), IsDeepLearning(p), IsGenAi(p), IsPython(p))
  }

  /** A tag is present exactly when its rule fires; "other" exactly when none does. */
  lemma CategorizeMembership(p: Project)
    ensures MachineLearning in Categorize(p) <==> IsMachineLearning(p)
    ensures DeepLearning in Categorize(p) <==> IsDeepLearning(p)
    ensures GenAi in Categorize(p) <==> IsGenAi(p)
    ensures PythonTag in Categorize(p) <==> IsPython(p)
    ensures Other in Categorize(p) <==>
      !IsMachineLearning(p) && !IsDeepLearning(p) && !IsGenAi(p) && !IsPython(p)
  {
    TagsForMembership(IsMachineLearning(p), IsDeepLearning(p), IsGenAi(p), IsPython(p));
  }

  /** No tag is produced twice. */
  lemma CategorizeDistinct(p: Project)
    ensures forall i, j :: 0 <= i < j < |Categorize(p)| ==> Categorize(p)[i] != Categorize(p)[j]
  {
  }

  /** Keyword matching ignores case: two projects whose name, description
      and topics agree up to case, and whose language is the same, get the
      same tags. */
  lemma CategorizeIgnoresCase(p: Project, q: Project)
    requires Lower(p.name) == Lower(q.name) && Lower(p.description) == Lower(q.description)
    requires Lower(Join(p.topics, " ")) == Lower(Join(q.topics, " "))
    requires p.language == q.language
    ensures Categorize(p) == Categorize(q)
  {
  }

  /** A keyword found in the name is found in the content. */
  lemma NameKeyword(p: Project, w: string)
    requires Includes(Lower(p.name), w)
    ensures Includes(Content(p), w)
  {
    IncludesWithin([], Lower(p.name), " " + Lower(p.description) + " " + Lower(Join(p.topics, " ")), w);
    assert [] + Lower(p.name) + (" " + Lower(p.description) + " " + Lower(Join(p.topics, " "))) == Content(p);
  }

  /** A keyword found in the description is found in the content. */
  lemma DescriptionKeyword(p: Project, w: string)
    requires Includes(Lower(p.description), w)
    ensures Includes(Content(p), w)
  {
    IncludesWithin(Lower(p.name) + " ", Lower(p.description), " " + Lower(Join(p.topics, " ")), w);
    assert Lower(p.name) + " " + Lower(p.description) + (" " + Lower(Join(p.topics, " "))) == Content(p);
  }

  /** A keyword found in one topic is found in the content. */
  lemma TopicKeyword(p: Project, j: nat, w: string)
    requires j < |p.topics| && Includes(p.topics[j], w) && NoUpper(w)
    ensures Includes(Content(p), w)
  {
    JoinContainsParts(p.topics, " ", j, w);
    LowerKeepsLowerOccurrence(Join(p.topics, " "), w);
    IncludesWithin(Lower(p.name) + " " + Lower(p.description) + " ", Lower(Join(p.topics, " ")), [], w);
    assert Lower(p.name) + " " + Lower(p.description) + " " + Lower(Join(p.topics, " ")) + [] == Content(p);
  }

  /** A keyword without capitals that occurs in `s` still occurs once `s` is lower-cased. */
  lemma LowerKeepsLowerOccurrence(s: string, w: string)
    requires Includes(s, w) && NoUpper(w)
    ensures Includes(Lower(s), w)
  {
    IncludesIff(s, w);
    var i :| OccursAt(s, w, i);
    assert Lower(s)[i..i + |w|] == w by {
      forall m | 0 <= m < |w| ensures Lower(s)[i..i + |w|][m] == w[m] {
        assert s[i + m] == w[m];
        LowerAt(s, i + m);
      }
    }
    assert OccursAt(Lower(s), w, i);
    IncludesIff(Lower(s), w);
  }

  /** The capital letter of a lower-case ASCII letter. */
  function UpperOf(c: char): (u: char)
    requires 'a' <= c <= 'z'
    ensures 'A' <= u <= 'Z' && LowerChar(u) == c
  {
    (c as int - 32) as char
  }

  /** None of `letters`, all lower-case, occurs in `s` in either case. */
  predicate LettersAbsent(s: string, letters: string) {
    forall c :: c in letters ==> 'a' <= c <= 'z' && c !in s && UpperOf(c) !in s
  }

  /** Letters absent from two strings are absent from the two joined. */
  lemma LettersAbsentAppend(a: string, b: string, letters: string)
    requires LettersAbsent(a, letters) && LettersAbsent(b, letters)
    ensures LettersAbsent(a + b, letters)
  {
  }

  /** A lower-case letter is absent from a lower-cased string when neither
      it nor its capital occurs in the original. */
  lemma AbsentFromLower(s: string, letters: string, c: char)
    requires LettersAbsent(s, letters) && c in letters
    ensures c !in Lower(s)
  {
    forall i | 0 <= i < |s| ensures Lower(s)[i] != c {
      LowerAt(s, i);
    }
  }

  /** None of `letters` occurs in the project's name, description or topics. */
  predicate TextLacks(p: Project, letters: string) {
    LettersAbsent(p.name, letters) && LettersAbsent(p.description, letters) &&
    LettersAbsent(Join(p.topics, " "), letters)
  }

  /** A keyword is not found in a project's content when one of its letters
      occurs, in neither case, in the name, the description or the topics. */
  lemma KeywordAbsent(p: Project, k: string, letters: string, c: char)
    requires TextLacks(p, letters) && c in letters && c in k
    ensures !Includes(Content(p), k)
  {
    AbsentFromLower(p.name, letters, c);
    AbsentFromLower(p.description, letters, c);
    AbsentFromLower(Join(p.topics, " "), letters, c);
    AbsentChar(Content(p), k, c);
  }

  /** No keyword of a group is found when each has a letter, the one at the
      same place in `marks`, that the project's text lacks. */
  lemma NoneMentioned(p: Project, words: seq<string>, marks: string, letters: string)
    requires |marks| == |words|
    requires forall i :: 0 <= i < |words| ==> marks[i] in words[i] && marks[i] in letters
    requires TextLacks(p, letters)
    ensures !MentionsAny(Content(p), words)
  {
    forall w | w in words ensures !Includes(Content(p), w) {
      var i :| 0 <= i < |words| && words[i] == w;
      KeywordAbsent(p, w, letters, marks[i]);
    }
    MentionsAnyIff(Content(p), words);
  }

  /** Any machine-learning keyword anywhere in the name gives the tag, even
      inside another word: a name with "html" in it contains "ml". */
  lemma NameWithMlIsMachineLearning(p: Project)
    requires Includes(Lower(p.name), "ml")
    ensures MachineLearning in Categorize(p)
  {
    NameKeyword(p, "ml");
    assert "ml" in MachineLearningWords;
    MentionsAnyIff(Content(p), MachineLearningWords);
  }

  // ----- filtering -----

  /** The filter predicate: the project's tags include the key. */
  predicate HasTag(p: Project, key: string) {
    key in Categorize(p)
  }

  /** `allProjects.filter(p => categorizeProject(p).includes(key))`. */
  function FilterByTag(ps: seq<Project>, key: string): (r: seq<Project>)
    ensures |r| <= |ps|
    ensures forall p :: p in r <==> p in ps && HasTag(p, key)
  {
    if ps == [] then []
    else if HasTag(ps[0], key) then [ps[0]] + FilterByTag(ps[1..], key)
    else FilterByTag(ps[1..], key)
  }

  /** `a` is `b` with some elements dropped, order kept. */
  predicate IsSubsequence<T(==)>(a: seq<T>, b: seq<T>)
    decreases |b|
  {
    a == [] || (b != [] && ((a[0] == b[0] && IsSubsequence(a[1..], b[1..])) || IsSubsequence(a, b[1..])))
  }

  /** Filtering keeps the surviving projects in their original order, and
      keeps each of them as many times as it occurs. */
  lemma {:induction false} FilterByTagKeepsOrder(ps: seq<Project>, key: string)
    ensures IsSubsequence(FilterByTag(ps, key), ps)
    ensures forall p :: multiset(FilterByTag(ps, key))[p] == if HasTag(p, key) then multiset(ps)[p] else 0
  {
    if ps != [] {
      FilterByTagKeepsOrder(ps[1..], key);
      assert ps == [ps[0]] + ps[1..];
      var r := FilterByTag(ps, key);
      if HasTag(ps[0], key) {
        assert r[1..] == FilterByTag(ps[1..], key);
      }
    }
  }

  /** The active view for a filter key: "all" is the list itself. */
  function View(all: seq<Project>, key: string): (view: seq<Project>)
    ensures key == "all" ==> view == all
    ensures key != "all" ==> view == FilterByTag(all, key)
  {
    if key == "all" then all else FilterByTag(all, key)
  }
}
