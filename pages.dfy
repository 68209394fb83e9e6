/**
 * The three tool pages of `MediAIAssistant`: what each one sends to the text generator,
 * what it shows, which video searches it makes and which video cards it renders, for
 * one render pass in which the button may or may not have been pressed.
 *
 * The generator behind `analyze_emergency`, `analyze_medicine` and `analyze_symptoms`
 * (prompt building plus `safe_generate_content`) is a parameter
 * `analyze: string -> Option<string>`, `None` standing for the caught exception; the
 * YouTube search is a parameter `search: string -> SearchResponse`.
 */
module Pages {
  import opened Wrappers
  import opened Text
  import opened RemedyExtractor
  import opened Videos

  /** `if button and text_input:`: the button was pressed and the input is not empty. */
  predicate Requested(pressed: bool, input: string) {
    pressed && input != []
  }

  /** `if response:` on a generator result: text that arrived and is not empty. */
  predicate Truthy(r: Option<string>) {
    r.Some? && r.value != []
  }

  /** The generated text a page shows after a request, if any. */
  function Shown(pressed: bool, input: string, analyze: string -> Option<string>): Option<string> {
    if Requested(pressed, input) && Truthy(analyze(input)) then analyze(input) else None
  }

  /** One embedded video: the id in the iframe address and the caption under it. */
  datatype Card = Card(videoId: string, caption: string)

  /** The cards for a list of records, in record order. */
  function CardsOf(videos: seq<Video>): seq<Card> {
    seq(|videos|, k requires 0 <= k < |videos| => Card(videos[k].videoId, DisplayTitle(videos[k].title)))
  }

  /**
   * The `for idx, video in enumerate(videos)` loop of both video pages: one card per
   * record, in order.
   */
  method RenderCards(videos: seq<Video>) returns (cards: seq<Card>)
    ensures cards == CardsOf(videos)
  {
    cards := [];
    for i := 0 to |videos|
      invariant cards == CardsOf(videos[..i])
    {
      cards := cards + [Card(videos[i].videoId, DisplayTitle(videos[i].title))];
    }
    assert videos[..|videos|] == videos;
  }

  /**
   * Every card embeds the video of the record at its position, and its caption is at
   * most the first 50 characters of that record's title followed by `...`.
   */
  lemma {:induction false} CardsShowTitles(videos: seq<Video>)
    ensures |CardsOf(videos)| == |videos|
    ensures forall k :: 0 <= k < |videos| ==>
      var c, t := CardsOf(videos)[k].caption, videos[k].title;
      CardsOf(videos)[k].videoId == videos[k].videoId &&
      |c| <= TitleWidth + 3 && c[|c| - 3..] == "..." && c[..|c| - 3] == t[..|c| - 3]
  {
    forall k | 0 <= k < |videos|
      ensures var c, t := CardsOf(videos)[k].caption, videos[k].title;
        |c| <= TitleWidth + 3 && c[|c| - 3..] == "..." && c[..|c| - 3] == t[..|c| - 3]
    {
      assert CardsOf(videos)[k].caption == DisplayTitle(videos[k].title);
    }
  }

  /** The block shown for one remedy whose search gave at least one video. */
  datatype RemedySection = RemedySection(remedy: string, cards: seq<Card>)

  /**
   * The sections shown for the remedies `names`, searched one after another: a remedy
   * whose search gives no records (`if videos:`) shows nothing.
   */
  function Sections(names: seq<string>, search: string -> SearchResponse): seq<RemedySection> {
    if names == [] then []
    else
      var last := names[|names| - 1];
      var videos := Records(search(RemedyQuery(last)));
      Sections(names[..|names| - 1], search)
        + (if videos == [] then [] else [RemedySection(last, CardsOf(videos))])
  }

  /**
   * There are no more sections than remedies; each is for one of the remedies, has at
   * least one card, and shows exactly the cards of that remedy's search.
   */
  lemma {:induction false} SectionsSpec(names: seq<string>, search: string -> SearchResponse)
    ensures |Sections(names, search)| <= |names|
    ensures forall j :: 0 <= j < |Sections(names, search)| ==>
      var s := Sections(names, search)[j];
      s.remedy in names && s.cards != [] &&
      s.cards == CardsOf(Records(search(RemedyQuery(s.remedy))))
  {
    if names != [] {
      var init := names[..|names| - 1];
      SectionsSpec(init, search);
      forall x | x in init ensures x in names {
        var i :| 0 <= i < |init| && init[i] == x;
        assert names[i] == x;
      }
    }
  }

  /** Some section of `ss` is for `remedy`. */
  predicate HasSection(ss: seq<RemedySection>, remedy: string) {
    exists j :: 0 <= j < |ss| && ss[j].remedy == remedy
  }

  /** Every remedy whose search gives at least one record gets a section. */
  lemma {:induction false} SectionsComplete(names: seq<string>, search: string -> SearchResponse)
    ensures forall x :: x in names && Records(search(RemedyQuery(x))) != [] ==>
      HasSection(Sections(names, search), x)
  {
    if names != [] {
      var init, last := names[..|names| - 1], names[|names| - 1];
      SectionsComplete(init, search);
      var ss, si := Sections(names, search), Sections(init, search);
      assert ss[..|si|] == si;
      forall x | x in names && Records(search(RemedyQuery(x))) != []
        ensures HasSection(ss, x)
      {
        if x in init {
          assert HasSection(si, x);
          var j :| 0 <= j < |si| && si[j].remedy == x;
          assert ss[j] == si[j];
        } else {
          assert x == last;
          assert ss[|si|].remedy == x;
        }
      }
    }
  }

  /** The remedy names the remedies page searches for: those extracted from the text it shows. */
  function Searched(pressed: bool, symptoms: string, analyze: string -> Option<string>): seq<string> {
    var shown := Shown(pressed, symptoms, analyze);
    if shown.Some? then Remedies(shown.value) else []
  }

  /** The queries sent for `names`, one per name, in order. */
  function RemedyQueries(names: seq<string>): seq<string> {
    seq(|names|, k requires 0 <= k < |names| => RemedyQuery(names[k]))
  }

  /**
   * `render_remedies_page` after the widgets are read. On a request the symptoms go to
   * the generator once; if text comes back it is shown, the remedy names are extracted
   * from it, and `get_remedy_videos` is called once per name, in order, duplicates
   * included; `queries` is the trace of those calls. Nothing is searched otherwise.
   */
  method RenderRemediesPage(pressed: bool, symptoms: string, analyze: string -> Option<string>,
                            search: string -> SearchResponse)
    returns (analysed: seq<string>, shown: Option<string>, queries: seq<string>,
             sections: seq<RemedySection>)
    ensures analysed == (if Requested(pressed, symptoms) then [symptoms] else [])
    ensures shown == Shown(pressed, symptoms, analyze)
    ensures queries == RemedyQueries(Searched(pressed, symptoms, analyze))
    ensures sections == Sections(Searched(pressed, symptoms, analyze), search)
  {
    analysed, shown, queries, sections := [], None, [], [];
    if pressed && symptoms != [] {
      analysed := [symptoms];
      var remedyInfo := analyze(symptoms);
      if remedyInfo.Some? && remedyInfo.value != [] {
        shown := remedyInfo;
        var remedies := ExtractRemedies(remedyInfo.value);
        if remedies != [] {
          queries, sections := SearchRemedies(remedies, search);
        }
      }
    }
  }

  /**
   * The `for remedy in remedies` loop: `get_remedy_videos` is called once per name, in
   * order, duplicates included, each call adding the query it sent to `queries`; each
   * name whose search gives videos gets a section.
   */
  method SearchRemedies(remedies: seq<string>, search: string -> SearchResponse)
    returns (queries: seq<string>, sections: seq<RemedySection>)
    ensures queries == RemedyQueries(remedies)
    ensures sections == Sections(remedies, search)
  {
    queries, sections := [], [];
    var i := 0;
    while i < |remedies|
      invariant 0 <= i <= |remedies| && |queries| == i
      invariant forall k :: 0 <= k < i ==> queries[k] == RemedyQuery(remedies[k])
      invariant sections == Sections(remedies[..i], search)
    {
      var query, videos := GetRemedyVideos(search, remedies[i]);
      if videos != [] {
        var cards := RenderCards(videos);
        sections := sections + [RemedySection(remedies[i], cards)];
      }
      assert remedies[..i + 1][..i] == remedies[..i];
      queries := queries + [query];
      i := i + 1;
    }
    assert remedies[..|remedies|] == remedies;
  }

  /**
   * Each query of the remedies page reads back to its remedy name, and every name
   * searched is clean: no hyphen, no newline, no surrounding whitespace.
   */
  lemma SearchedQueriesSpec(pressed: bool, symptoms: string, analyze: string -> Option<string>)
    ensures var names := Searched(pressed, symptoms, analyze);
      |RemedyQueries(names)| == |names| &&
      forall k :: 0 <= k < |names| ==>
        Subject(RemedyPrefix, RemedySuffix, RemedyQueries(names)[k]) == Some(names[k]) &&
        CleanName(names[k])
  {
    var shown := Shown(pressed, symptoms, analyze);
    var names := Searched(pressed, symptoms, analyze);
    if shown.Some? {
      RemedyNamesClean(shown.value);
    }
    forall k | 0 <= k < |names|
      ensures Subject(RemedyPrefix, RemedySuffix, RemedyQueries(names)[k]) == Some(names[k])
    {
      SubjectOfTemplate(RemedyPrefix, names[k], RemedySuffix);
    }
  }

  /**
   * `render_emergency_page` after the widgets are read: on a request the description
   * goes to the generator once; if text comes back it is shown and one search is made
   * for the same description, whose records are rendered as cards.
   */
  method RenderEmergencyPage(pressed: bool, emergency: string, analyze: string -> Option<string>,
                             search: string -> SearchResponse)
    returns (analysed: seq<string>, shown: Option<string>, queries: seq<string>, cards: seq<Card>)
    ensures analysed == (if Requested(pressed, emergency) then [emergency] else [])
    ensures shown == Shown(pressed, emergency, analyze)
    ensures queries == (if shown.Some? then [EmergencyQuery(emergency)] else [])
    ensures cards == (if shown.Some? then CardsOf(Records(search(EmergencyQuery(emergency)))) else [])
  {
    analysed, shown, queries, cards := [], None, [], [];
    if pressed && emergency != [] {
      analysed := [emergency];
      var emergencyResponse := analyze(emergency);
      if emergencyResponse.Some? && emergencyResponse.value != [] {
        shown := emergencyResponse;
        var query, videos := GetEmergencyVideos(search, emergency);
        queries := [query];
        if videos != [] {
          cards := RenderCards(videos);
        }
      }
    }
  }

  /**
   * `render_medicine_page` after the widgets are read: generation only, shown when
   * text comes back; this page makes no video search.
   */
  method RenderMedicinePage(pressed: bool, medicine: string, analyze: string -> Option<string>)
    returns (analysed: seq<string>, shown: Option<string>)
    ensures analysed == (if Requested(pressed, medicine) then [medicine] else [])
    ensures shown == Shown(pressed, medicine, analyze)
  {
    analysed, shown := [], None;
    if pressed && medicine != [] {
      analysed := [medicine];
      var medicineInfo := analyze(medicine);
      if medicineInfo.Some? && medicineInfo.value != [] {
        shown := medicineInfo;
      }
    }
  }

  /**
   * The remedies page searches at most once per numbered marker in the generated text,
   * and not at all when the text has no marker, the button was not pressed, the
   * symptoms are empty or the generator gave nothing.
   */
  lemma RemedyLookupsBounded(pressed: bool, symptoms: string, analyze: string -> Option<string>)
    ensures var shown := Shown(pressed, symptoms, analyze);
      shown.None? ==> Searched(pressed, symptoms, analyze) == []
    ensures var shown := Shown(pressed, symptoms, analyze);
      shown.Some? ==> |Searched(pressed, symptoms, analyze)| <= MarkersFrom(shown.value, 0)
    ensures var shown := Shown(pressed, symptoms, analyze);
      shown.Some? && MarkersFrom(shown.value, 0) == 0 ==> Searched(pressed, symptoms, analyze) == []
  {
    var shown := Shown(pressed, symptoms, analyze);
    if shown.Some? {
      RemediesAtMostMarkers(shown.value);
    }
  }
}
