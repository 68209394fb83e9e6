# MediAI Assistant (AIHEAL2.0) — a Dafny model of `app.py`

`app.py` is a Streamlit application, `MediAIAssistant`, with three tools: an
emergency first-aid guide, a medicine analyser and a natural-remedies adviser. It sends
the user's text to a generative model. For the remedies tool, it pulls the numbered
remedy names out of the generated text with a regular expression and searches YouTube
for a preparation video per name. A session state holds the current page and whether
the first-aid kit panel is open; sidebar and home-page buttons change it.

This project models:

- `extract_remedies` (`text.dfy`, `remedy_extractor.dfy`, `extractor_lists.dfy`,
  `extractor_examples.dfy`). The model is `re.finditer` with the pattern
  `\d\.\s+([^-\n]+)`, including the backtracking of `\s+` and the resumption after
  each match, followed by `str.strip()`. The loop is the method `ExtractRemedies`. It is
  proved equal to the specification function `Remedies`. That function is shown to be
  the unique leftmost, non-overlapping scan.
- `get_emergency_videos` and `get_remedy_videos` (`videos.dfy`): the two query
  templates, the loop that builds one record per search item, its `[]` fallback when
  anything raises, and the 50-character caption.
- The three tool pages (`pages.dfy`): what is generated, what is shown, and which
  searches are made.
- `st.session_state` and `run` (`session.dfy`): a class with the two session keys,
  `__init__`'s defaults, the navigation and kit buttons, and the render dispatch.

The generator (`analyze_*` with `safe_generate_content`) is a parameter
`analyze: string -> Option<string>`, where `None` stands for the caught exception. The
YouTube search is a parameter `search: string -> SearchResponse`.

Behaviours of `\d\.\s+([^-\n]+)` and of the caption as written:

- The pattern is not anchored to the start of a line and reads a single digit, so
  `12. X` matches at the `2` (`ExtractorExamples.Unanchored`).
- A marker followed by one space and a hyphen yields no item at all
  (`ExtractorExamples.HyphenRightAfterSpaceNoMatch`).
- Two spaces before a hyphen yield an empty name, because `\s+` gives one space back
  to the group (`ExtractorExamples.BacktrackingGivesEmptyName`).
- The caption always ends in `...`, even for titles shorter than 50 characters.

## Model

| member | source | states |
|---|---|---|
| Text.TrimStartSpec | app.py:399 | `lstrip` removes exactly a maximal all-whitespace prefix: the rest is a suffix of the input that does not start with whitespace |
| Text.TrimEndSpec | app.py:399 | `rstrip` removes exactly a maximal all-whitespace suffix: the rest is a prefix that does not end with whitespace |
| Text.StripSpec | app.py:399 | `strip()` returns a contiguous slice of its input; everything cut off on either side is whitespace; the result neither starts nor ends with whitespace |
| Text.StripIdempotent | app.py:399 | stripping twice is the same as stripping once |
| Text.StripChars | app.py:399 | every character of the stripped name occurs in the input |
| Text.StripFixedPoint | app.py:399 | a string is left unchanged by `strip()` exactly when it is empty or has no whitespace at either end |
| RemedyExtractor.WsEndSpec | app.py:396 | `\s+` read greedily from a position stops at the first non-whitespace character or at the end |
| RemedyExtractor.BackOffSpec | app.py:396 | backtracking picks the largest start position from which `[^-\n]+` can match, or reports that there is none |
| RemedyExtractor.CapEndSpec | app.py:396 | `[^-\n]+` read greedily stops at the first hyphen, the first newline or the end of the text |
| RemedyExtractor.MatchAtSound | app.py:396-397 | a match found at `i` starts at a `digit . whitespace` marker at `i`, and its group runs to the first hyphen or newline |
| RemedyExtractor.MatchAtSpec | app.py:396-397 | there is no match at `i` exactly when the pattern has no parse at `i`; otherwise the match is the parse that the backtracking engine prefers (longest `\s+`, then longest group) |
| RemedyExtractor.FindAllSound | app.py:397 | every match found from `pos` starts at or after `pos` and is well formed |
| RemedyExtractor.ScanStep | app.py:397-399 | a match at the scan position adds exactly one stripped name, and the scan resumes where the match ends |
| RemedyExtractor.ExtractRemedies | app.py:392-400 | the loop returns `Remedies(text)`: the stripped group of every `finditer` match, in order |
| RemedyExtractor.FindAllIsLeftmostScan | app.py:397 | the matches are a leftmost, non-overlapping scan: between consecutive matches no marker position matches, and each search resumes at the previous match's end |
| RemedyExtractor.LeftmostScanUnique | app.py:397 | a leftmost, non-overlapping scan of a text is unique, so it equals the matches found |
| RemedyExtractor.SkipNoMatch | app.py:397 | positions where nothing matches are skipped without effect on the result |
| RemedyExtractor.NoMatchFindsNothing | app.py:397 | a text with no match from `from` onwards yields no matches |
| RemedyExtractor.GroupNameClean | app.py:396-399 | the stripped group of any match contains no hyphen or newline and has no surrounding whitespace |
| RemedyExtractor.RemedyNamesClean | app.py:392-400 | every extracted name is clean |
| RemedyExtractor.FindAllAtMostMarkers | app.py:397 | there are at most as many matches as `digit . whitespace` markers |
| RemedyExtractor.RemediesAtMostMarkers | app.py:392-400 | there are at most as many names as markers in the text |
| RemedyExtractor.NoMarkerNoRemedies | app.py:392-400 | a text with no marker yields `[]` |
| RemedyExtractor.FindAllNoDigit | app.py:396-397 | a text with no digit after `lo` has no match there |
| RemedyExtractor.CapEndIs | app.py:396 | the group ends at the first stop character after its start |
| RemedyExtractor.MatchAtOneSpace | app.py:396-397 | a marker followed by one space and a name character matches, with the group running to the first stop |
| NumberedLists.MatchAtShift | app.py:396-397 | a match inside a suffix of a text is the same match as in the suffix, shifted |
| NumberedLists.FindAllShift | app.py:397 | scanning a text from inside a suffix finds the suffix's matches, shifted |
| NumberedLists.NamesShift | app.py:399 | shifted matches have the same names |
| NumberedLists.SkipPrefix | app.py:392-400 | a prefix with no match contributes no names |
| NumberedLists.HeadMatch | app.py:396-397 | `d.` then whitespace then a hyphen-free name, followed by a stop or the end, matches at 0 with exactly that name as group |
| NumberedLists.ItemThenRest | app.py:392-400 | an item ended by a hyphen or newline contributes its stripped name, followed by the names of the rest of the text |
| NumberedLists.LastItem | app.py:392-400 | a final item running to the end yields exactly its stripped name |
| NumberedLists.SpacesThenHyphen | app.py:396-399 | two spaces before a hyphen yield one empty name, because `\s+` backtracks |
| NumberedLists.SpaceThenHyphen | app.py:396-397 | one space before a hyphen yields nothing for that marker |
| NumberedLists.LabelledItemThenRest | app.py:396-399 | an item whose label has any number of digits contributes exactly its name, followed by the names of the rest of the text: only the label's last digit starts the match |
| NumberedLists.NumberedLinesExtract | app.py:392-400 | N lines `<label>. <name>` with all-digit labels of any length and hyphen-free names yield exactly those N names, in order, whatever the labels |
| ExtractorExamples.OutOfOrderNumbers | app.py:392-400 | `"3. Chamomile\n1. Ginger"` gives `["Chamomile", "Ginger"]`: text order, not number order |
| ExtractorExamples.MultiDigitLabel | app.py:396-397 | `"10. Ginger\n"` gives `["Ginger"]` |
| ExtractorExamples.NoOverlap | app.py:397 | `"1. Take 2. tablets"` gives one name: a marker inside a group does not start a match |
| ExtractorExamples.HyphenEndsGroup | app.py:396-397 | `"1. Ginger-2. Lemon"` gives `["Ginger", "Lemon"]`: the scan resumes at the hyphen |
| ExtractorExamples.HyphenatedName | app.py:396 | `"1. Ginger-Lemon Tea"` gives `["Ginger"]` |
| ExtractorExamples.NameBeforeDash | app.py:396-399 | `"2. St. John's Wort - for mood support"` gives `["St. John's Wort"]` |
| ExtractorExamples.SpaceRunCrossesNewline | app.py:396 | `"1.\nGinger"` gives `["Ginger"]`, because `\s` includes the newline |
| ExtractorExamples.Unanchored | app.py:396-397 | `"12. X"` gives `["X"]`: the match starts at the second digit |
| ExtractorExamples.BacktrackingGivesEmptyName | app.py:396-399 | `"1.  - x"` gives `[""]` |
| ExtractorExamples.HyphenRightAfterSpaceNoMatch | app.py:396-397 | `"1. - x"` gives `[]` |
| ExtractorExamples.NoItems | app.py:392-400 | texts without a marker give `[]` |
| Videos.ToVideo | app.py:334-339 | each record field is the item's field of the same name, unchanged |
| Videos.CollectVideos | app.py:332-344 | the loop returns `Records(resp)`: one record per item in order, or `[]` if the request raised, `items` was missing or any item lacked a key |
| Videos.RecordsCopyItems | app.py:333-340 | a readable reply gives exactly one record per item, in order, with every field copied from the item at the same position |
| Videos.RecordsNonEmptyIff | app.py:332-344 | the fetchers return a non-empty list exactly when the reply was read without error and listed an item |
| Videos.Template | app.py:320 | a query is the fixed prefix, then the subject verbatim, then the fixed suffix |
| Videos.TemplateOfSubject | app.py:320 | any string from which a subject can be read back is the query for that subject |
| Videos.TemplateInjective | app.py:349 | different subjects give different queries |
| Videos.GetEmergencyVideos | app.py:317-344 | one search, for `first aid {emergency} emergency treatment tutorial medical`, which it returns, then that reply's records |
| Videos.GetRemedyVideos | app.py:346-373 | one search, for `how to prepare {remedy} natural remedy home remedies tutorial`, which it returns, then that reply's records |
| Videos.DisplayTitle | app.py:502 | the caption is the first `min(|title|, 50)` characters of the title, then `...` |
| Videos.DisplayTitleCuts | app.py:594 | a title of at most 50 characters is shown whole; a longer one is cut after its 50th character |
| Videos.DisplayTitleDependsOnPrefix | app.py:594 | long titles with the same first 50 characters get the same caption |
| Pages.RenderCards | app.py:491-502 | one card per record, in order, with the record's video id and its caption |
| Pages.CardsShowTitles | app.py:584-594 | every card embeds the video at its position; its caption has at most 53 characters, ends in `...`, and otherwise agrees with the title |
| Pages.SectionsSpec | app.py:574-585 | there are no more remedy sections than remedies; each is for a remedy whose search gave videos, and shows exactly their cards |
| Pages.SectionsComplete | app.py:574-576 | every remedy whose search gives a video gets a section |
| Pages.RenderRemediesPage | app.py:554-576 | generation happens once iff the button is pressed and the symptoms are non-empty; if text comes back, the queries sent are one remedy query per extracted name, in order, duplicates included, and none otherwise; the sections are those of the searched names |
| Pages.SearchRemedies | app.py:574-585 | `get_remedy_videos` is called once for each name, in order, duplicates included, and the trace of the queries it sent is one remedy query per name; the sections are exactly `Sections(remedies, search)` |
| Pages.SearchedQueriesSpec | app.py:565-575 | every query of the remedies page reads back to its remedy name, and every name searched is clean |
| Pages.RenderEmergencyPage | app.py:474-492 | generation happens once iff pressed with non-empty input; exactly one query, the emergency query for the same input, is sent iff text came back; its records become the cards |
| Pages.RenderMedicinePage | app.py:526-534 | generation happens once iff pressed with non-empty input; the text is shown iff it is non-empty; no search |
| Pages.RemedyLookupsBounded | app.py:565-575 | the remedies page makes at most one search per numbered marker in the generated text, and none when there is no marker |
| Session.Target | app.py:422-446 | every navigation button selects one of the four known pages; the home cards never select home |
| Session.SidebarReachesEveryPage | app.py:636-644 | every page is reachable from the sidebar, and each home card goes where its sidebar entry does |
| Session.ScreenSpec | app.py:673-685 | a render pass draws the navigation first and then the kit panel and footer last; exactly one page body, the page's own, for the four known pages and none otherwise; the kit icon iff the kit is closed |
| Session.SessionState.Initialise | app.py:36-39 | each absent key gets its default (`home`, `False`); a present key is never overwritten |
| Session.SessionState.Navigate | app.py:644 | the page becomes the button's target and the kit flag is unchanged; a home card can be pressed only while the home page is shown |
| Session.SessionState.ToggleFirstAidKit | app.py:650 | the kit flag is negated; the page is unchanged |
| Session.SessionState.Run | app.py:673-685 | a render pass draws `Screen(page, flag)` and changes no state |
| Session.InitialiseTwice | app.py:34-39 | running `__init__` on every rerun changes nothing after the first time |
| Session.ToggleTwice | app.py:649-651 | pressing the kit button twice restores the flag and never moves the page |
| Session.FirstScreen | app.py:36-39 | a new session's first screen is the home page with the kit closed and its icon shown |
| Session.NavigateAndRerun | app.py:642-645 | after a navigation click and its rerun, exactly the target page's body is drawn, with the kit as it was |
| Session.ToggleAndRerun | app.py:649-651 | after a kit click and its rerun, the same page is drawn, and the icon shows exactly when the kit was open before |

## Left out

- The generative model and YouTube calls are parameters. Prompt texts, the model name,
  the spinner, `time.sleep(0.8)` and the loading animation are not modelled. A search is
  a deterministic function of its query.
- `st.error` messages are not modelled. An error only shows in the model as `None` or
  `[]` being returned.
- Loading the API keys (`load_dotenv`, `st.stop()` when a key is missing) and setting up
  the clients are not modelled.
- All HTML, CSS and Markdown content is left out: `create_custom_css`, the card and kit
  markup, and the footer text. Screens are lists of `View`s; pages are what they generate,
  show and search.
- The search parameters `maxResults=3`, `videoEmbeddable` and `safeSearch` are enforced by
  the service, not by `app.py`, so they are not modelled. The layout `cols[idx]` over
  `st.columns(3)` relies on that cap of 3; the cards are modelled as a list, without
  columns.
- `\d` and `\s` are modelled on ASCII: the digits `0`–`9`, and the whitespace characters
  space, 9–13 and 28–31. Python also treats non-ASCII digits and spaces as matching.
- `st.rerun()` stops the script and starts it again. The model runs one click method,
  then `Initialise` and `Run` (`NavigateAndRerun`, `ToggleAndRerun`). At most one
  button acts per pass.
- Widget state (`st.text_input`, `st.text_area`, `st.button`) is passed in as the input
  string and a `pressed` flag.
- The session keys are only those used by `app.py`. The widget keys are not modelled.
