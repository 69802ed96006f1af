# Portfolio project feed, modelled in Dafny

The portfolio page fetches the author's repositories from the code-hosting API and normalises each record into a project. It then shows them as cards, nine at a time. A "load more" button appends the next nine. Filter buttons restrict the view to one category. A project's categories come from keyword matching over its lower-cased name, description and topics, plus its language.

This model covers that feed logic from `script.js`:

- **Normalisation** (`Projects.Normalize`, `Projects.NormalizeAll`). Each raw record becomes a project. A missing or empty description defaults to "No description available", a missing or empty language defaults to "Unknown", and missing topics default to an empty list.
- **Language colour** (`Projects.LanguageColor`). The fourteen-entry table, with `#667eea` as the default.
- **Categorisation** (`Projects.Categorize`). The four keyword rules in order, with `other` when none fires. It is built on `Text.Lower`, `Text.Includes` and `Text.Join`, which model `toLowerCase`, `includes` and `join`.
- **Filter view** (`Projects.View`). The whole list for `all`, otherwise the projects whose categories include the key.
- **The page state**, class `ProjectFeed.Feed`:
  - the `allProjects` list;
  - the `displayedProjects` counter (`displayed`);
  - the cards in the projects container;
  - whether the load-more button is shown.

  Its methods are the handlers that change this state: `displayProjects`, `showErrorMessage`, the fetch handler, `filterProjects` and the load-more click. Each states the page it leaves behind. `ShowsPrefixOf(key)` says that the cards are the first `displayed` projects of the view and that the button is shown exactly when more remain. `Filter` establishes it, and `LoadMore` keeps it.
- **Scenarios** (module `FeedScenarios`). Whole-page runs: a fetch followed by clicks.
- **Worked examples** (module `CategoryCases`). Two repositories taken through `categorizeProject`.

Two behaviours of the code that are easy to misread:

- "nn-trainer" ("deep learning image classifier", Python, no topics) gets `deep-learning` and `python`, and not `machine-learning`. "classifier" does not contain "classification", and the text has no "ml" (`CategoryCases.NnTrainerTags`).
- The error path replaces the cards with the fallback card and leaves the load-more button as it was.

## Model

| member | source | states |
|---|---|---|
| Text.LowerChar | script.js:112-114 | each letter A-Z becomes the letter 32 code points above it (a-z), and every other character is kept |
| Text.Lower | script.js:112-114 | lower-casing keeps the length and leaves no capital letter |
| Text.LowerAt | script.js:112-114 | each character of the lower-cased string is the lower-cased character at the same place |
| Text.LowerIdempotent | script.js:112-114 | lower-casing a lower-cased string changes nothing |
| Text.LowerAppend | script.js:112-115 | lower-casing distributes over concatenation |
| Text.Includes | script.js:119-131 | `includes`: the keyword matches at the start of the text or, recursively, somewhere after it; an empty keyword is always found |
| Text.IncludesIff | script.js:119 | `includes` holds exactly when the keyword occurs at some position |
| Text.IncludesWithin | script.js:115-119 | an occurrence in a part is an occurrence in any string that embeds it |
| Text.AbsentChar | script.js:119-131 | a keyword with a character the text lacks is not included |
| Text.PairAbsent | script.js:119 | a two-letter keyword is not found when its first letter occurs once and is followed by another letter |
| Text.Join | script.js:114 | joining no topics gives the empty string, and joining one gives that topic |
| Text.JoinContainsParts | script.js:114 | a keyword found in any one topic is found in the joined topics |
| Projects.OrDefault | script.js:71-72 | a present non-empty string is kept; a missing or empty one is replaced by the fallback |
| Projects.Normalize | script.js:69-78 | name, url and counts are copied; the description and language defaults apply exactly when the value is missing or empty, so neither is ever empty; missing topics become the empty list |
| Projects.NormalizeKeepsComplete | script.js:69-78 | a record with every field set is normalised to the same project |
| Projects.NormalizeIdempotent | script.js:69-78 | normalising an already normalised project changes nothing |
| Projects.NormalizeAll | script.js:69-78 | one project per record, in the same order |
| Projects.LanguageColor | script.js:91-109 | a language in the table gets its colour; any other language gets `#667eea` |
| Projects.ColorTableKeys | script.js:92-107 | the table has exactly the fourteen listed languages |
| Projects.MissingLanguageGetsDefaultColor | script.js:72-108 | a record without a language is shown as "Unknown" with the default swatch |
| Projects.Content | script.js:112-115 | the lower-cased name, the lower-cased description and the lower-cased space-joined topics, separated by single spaces |
| Projects.IsMachineLearning | script.js:119 | the content includes one of "machine learning", "ml", "sklearn", "classification", "regression" |
| Projects.IsDeepLearning | script.js:123 | the content includes one of "deep learning", "neural", "tensorflow", "pytorch", "keras" |
| Projects.IsGenAi | script.js:127 | the content includes one of "gen ai", "generative", "gpt", "llm", "chatbot" |
| Projects.IsPython | script.js:131 | the language is exactly "Python", or the content includes "python" |
| Projects.MentionsAnyIff | script.js:119-129 | each or-chain of `includes` calls holds exactly when some keyword of its group is in the content |
| Projects.TagsFor | script.js:117-135 | at least one tag; every tag is one of the five; `other` only alone; tags in rule order, so none is repeated |
| Projects.TagsForMembership | script.js:117-135 | each tag is present exactly when its rule fired; `other` exactly when none fired |
| Projects.Categorize | script.js:111-136 | at least one tag; every tag is one of the four rule tags or `other`; `other` only alone; tags in rule order; a Python project always gets `python` |
| Projects.CategorizeMembership | script.js:111-136 | each tag is present exactly when its keyword group (or the Python language) matches; `other` exactly when none does |
| Projects.CategorizeDistinct | script.js:111-136 | no tag is produced twice |
| Projects.CategorizeIgnoresCase | script.js:112-115 | projects whose texts agree up to case, with the same language, get the same tags |
| Projects.NameKeyword | script.js:112-115 | a keyword in the lower-cased name is in the content |
| Projects.DescriptionKeyword | script.js:113-115 | a keyword in the lower-cased description is in the content |
| Projects.TopicKeyword | script.js:114-115 | a lower-case keyword inside one topic is in the content |
| Projects.LowerKeepsLowerOccurrence | script.js:112-115 | a lower-case keyword found before lower-casing is still found after it |
| Projects.KeywordAbsent | script.js:112-119 | a keyword with a letter that occurs, in neither case, in the name, description or topics is not in the content |
| Projects.NoneMentioned | script.js:119-129 | a keyword group whose every keyword has a letter the text lacks does not match |
| Projects.NameWithMlIsMachineLearning | script.js:119-121 | "ml" anywhere in the name, even inside a word such as "html", gives `machine-learning` |
| Projects.HasTag | script.js:218-219 | the filter predicate: the key is one of the project's categories |
| Projects.FilterByTag | script.js:217-220 | the filtered list holds exactly the projects whose categories include the key, and is never longer |
| Projects.FilterByTagKeepsOrder | script.js:217-220 | filtering keeps the original order and each kept project's multiplicity, and drops every project without the tag |
| Projects.View | script.js:214-221 | the key `all` shows the whole list; any other key shows the filtered list |
| ProjectFeed.CardFor | script.js:143-167 | one project's card: the project, its categories and its language colour |
| ProjectFeed.CardsFor | script.js:142-170 | one card per project, in order, each with its categories and language colour |
| ProjectFeed.Slice | script.js:249 | `slice` clamps both ends to the length and gives nothing when the start is at or past the end or past the length |
| ProjectFeed.Feed.constructor | script.js:2-3 | before the fetch there are no projects, the counter is 0; no cards are modelled before the fetch |
| ProjectFeed.Feed.DisplayProjects | script.js:138-179 | the cards are replaced by one card per given project; the button is shown exactly when the counter, as it stands, is below the length of the whole list |
| ProjectFeed.Feed.ShowErrorMessage | script.js:181-195 | the container holds only the fallback card |
| ProjectFeed.Feed.OnFetchSuccess | script.js:68-81 | the list is the normalised records; the cards are its first nine; the counter becomes 9 whatever the length; the button is set from the counter before that assignment |
| ProjectFeed.Feed.OnFetchSuccessFixed | script.js:80-81 | with the counter set to the number of cards shown, the first page satisfies `ShowsPrefixOf("all")` |
| ProjectFeed.Feed.FetchGitHubProjects | script.js:62-89 | a list response runs the success branch; a non-list body or a failed request shows only the fallback card and leaves the list, counter and button unchanged |
| ProjectFeed.Feed.Filter | script.js:213-233 | the list is unchanged; the cards are the first `min(9, n)` projects of the view; the counter is that number; the button is shown exactly when the view has more |
| ProjectFeed.Feed.LoadMore | script.js:239-287 | the next page of the active view is appended; the counter grows by its size; the button can only be hidden, never shown; an exhausted view adds nothing; `ShowsPrefixOf` is kept |
| ProjectFeed.Feed.AppendCards | script.js:252-280 | the old cards are followed by one card per project of the batch |
| ProjectFeed.NextPageExtendsPrefix | script.js:249-282 | the shown prefix followed by the next page is the longer prefix, within the view |
| ProjectFeed.CardsForStep | script.js:142-170 | one more project adds its card at the end |
| ProjectFeed.CardsForAppend | script.js:252-280 | cards for two lists in a row are the cards of each |
| FeedScenarios.TwentyProjectsPaging | script.js:62-287 | twenty projects show 9, then 18, then 20 cards; the button is hidden only at the end |
| FeedScenarios.FilterThenLoadMore | script.js:213-287 | after a filter and any number of clicks, the cards are a prefix of the view; the button is shown exactly when projects remain; the count is `9 + 9 * clicks`, capped at the view's length |
| FeedScenarios.NextPageCount | script.js:249-282 | each click advances the counter by one page, up to the view's length |
| FeedScenarios.FetchFailure | script.js:82-88 | a failed fetch leaves one fallback card, no projects, the counter at 0 and the button as the markup had it |
| FeedScenarios.SmallFirstPage | script.js:80-81 | as written, one to nine repositories are all shown and load-more is still offered |
| FeedScenarios.SmallFirstPageFixed | script.js:80-81 | with the corrected counter, load-more is offered exactly when projects remain |
| CategoryCases.CliToolNotMachineLearning | script.js:119-121 | a text lacking the marked letters matches no machine-learning keyword |
| CategoryCases.CliToolNotDeepLearning | script.js:123-125 | a text lacking the marked letters matches no deep-learning keyword |
| CategoryCases.CliToolNotGenAi | script.js:127-129 | a text lacking the marked letters matches no gen-ai keyword |
| CategoryCases.CliToolIsOther | script.js:111-136 | "cli-tool", "a utility", Go, no topics: exactly `other` |
| CategoryCases.MlAbsentAround | script.js:115-119 | "ml" is not in the content when the description's only "m" is followed by "a" and no other field has one |
| CategoryCases.NoMachineLearningWord | script.js:119-121 | without "ml" and lacking "h", "k" and "o", no machine-learning keyword matches |
| CategoryCases.DeepLearningDescription | script.js:113-125 | a description mentioning "deep learning" gives the deep-learning rule |
| CategoryCases.NnTrainerIsDeepLearning | script.js:123-125 | "deep learning image classifier" triggers the deep-learning rule |
| CategoryCases.NnTrainerTags | script.js:111-136 | "nn-trainer", "deep learning image classifier", Python, no topics: `deep-learning` and `python`, not `machine-learning` |

## Left out

- The network request, `response.json()`, `async`/`await` and `console.error` are not modelled. What the request produced is the parameter `Response` of `FetchGitHubProjects`.
- The `updated` field (`new Date(...)`) is dropped. Nothing in the feed reads it.
- The card markup, HTML escaping, the class-name strings and the animation delays are not modelled. A card is the project, its tags and its colour.
- The hamburger menu, smooth scrolling, the navbar scroll effect, the IntersectionObserver animations, the skills section and the injected style sheet are not modelled. They do not touch the feed.
- Reading the active filter from the DOM is not modelled, nor is wiring the filter buttons. The key is a parameter of `Filter` and `LoadMore`.
- Projects.LanguageColor: does not model the lookup of inherited object keys such as "constructor" or "toString", which in the source return a non-string value instead of the default colour.
- Text.LowerChar: maps only the ASCII letters A-Z. `toLowerCase` also maps other Unicode capitals.
- Text.Lower: lower-cases only the ASCII letters A-Z, through `Text.LowerChar`.
- CategoryCases.NnTrainerTags: does not state that "nn-trainer" lacks `gen-ai`. Every letter of "gen ai", "gpt" and "llm" occurs in its text, so ruling them out needs an occurrence-by-occurrence argument that the model does not carry.
- Projects.Normalize: assumes the name, url and counts are present and of the right type. Non-string descriptions or languages are not modelled either.
- ProjectFeed.Feed.FetchGitHubProjects: does not model an exception thrown while cards are being built, for example from a record whose name is null. In the source that reaches the catch branch after `allProjects` has already been set.

## Findings

| source | as written | input that shows it | evidently intended | confidence | as-written member | corrected member |
|---|---|---|---|---|---|---|
| script.js:80-81 | the first page is displayed while the counter is still 0, and then the counter is set to 9, whatever the length; the button check in `displayProjects` (script.js:174-178) therefore compares 0 with the list's length | any list of one to nine repositories: all of them are shown and load-more is still offered; clicking it adds nothing and only then hides the button | the counter holds the number of cards shown before the button is set, as `filterProjects` does, so load-more is offered exactly when projects remain | not executed | FeedScenarios.SmallFirstPage | ProjectFeed.Feed.OnFetchSuccessFixed |
