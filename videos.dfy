/**
 * The YouTube side of `MediAIAssistant`: the search queries built by
 * `get_emergency_videos` and `get_remedy_videos`, the loop that turns the items of a
 * search response into video records (with its `[]` fallback when anything raises),
 * and the 50-character title shown under each embedded video.
 *
 * The search call itself is a parameter `search: string -> SearchResponse`.
 */
module Videos {
  import opened Wrappers

  /**
   * One element of `response['items']`. Each field the code reads
   * (`snippet.title`, `id.videoId`, `snippet.thumbnails.medium.url`,
   * `snippet.description`) is `None` when the nested key is missing.
   */
  datatype SearchItem = SearchItem(
    title: Option<string>,
    videoId: Option<string>,
    thumbnailUrl: Option<string>,
    description: Option<string>)

  /** What `request.execute()` gives back: it raises, or a reply whose `items` key may be missing. */
  datatype SearchResponse = Failed | Reply(items: Option<seq<SearchItem>>)

  /** The dictionary built for each item. */
  datatype Video = Video(title: string, videoId: string, thumbnail: string, description: string)

  /** Every key the record needs is present, so building it does not raise `KeyError`. */
  predicate Complete(item: SearchItem) {
    item.title.Some? && item.videoId.Some? && item.thumbnailUrl.Some? && item.description.Some?
  }

  /** The record of one item: each field is copied from the item unchanged. */
  function ToVideo(item: SearchItem): (v: Video)
    requires Complete(item)
    ensures item.title == Some(v.title) && item.videoId == Some(v.videoId)
    ensures item.thumbnailUrl == Some(v.thumbnail) && item.description == Some(v.description)
  {
    Video(item.title.value, item.videoId.value, item.thumbnailUrl.value, item.description.value)
  }

  /** The response is read without an exception: it arrived, has `items`, and every item is complete. */
  predicate Readable(resp: SearchResponse) {
    resp.Reply? && resp.items.Some? && forall k :: 0 <= k < |resp.items.value| ==> Complete(resp.items.value[k])
  }

  /**
   * What the fetchers return for `resp`: one record per item, in item order, when the
   * response can be read, and `[]` otherwise.
   */
  function Records(resp: SearchResponse): seq<Video> {
    if Readable(resp) then
      var items := resp.items.value;
      seq(|items|, k requires 0 <= k < |items| && Complete(items[k]) => ToVideo(items[k]))
    else
      []
  }

  /**
   * The `for item in response['items']` loop with its `except` clause: records are
   * appended one by one, and the first item with a missing key discards them all.
   */
  method CollectVideos(resp: SearchResponse) returns (videos: seq<Video>)
    ensures videos == Records(resp)
  {
    if resp.Failed? || resp.items.None? {
      return [];
    }
    var items := resp.items.value;
    videos := [];
    var i := 0;
    while i < |items|
      invariant 0 <= i <= |items| && |videos| == i
      invariant forall k :: 0 <= k < i ==> Complete(items[k]) && videos[k] == ToVideo(items[k])
    {
      if !Complete(items[i]) {
        assert !Readable(resp);
        return [];
      }
      videos := videos + [ToVideo(items[i])];
      i := i + 1;
    }
    assert Readable(resp);
  }

  /**
   * A readable reply gives one record per item, in item order, each field copied
   * from the item at the same position.
   */
  lemma RecordsCopyItems(resp: SearchResponse)
    requires Readable(resp)
    ensures |Records(resp)| == |resp.items.value|
    ensures forall k :: 0 <= k < |Records(resp)| ==>
      var item, v := resp.items.value[k], Records(resp)[k];
      item.title == Some(v.title) && item.videoId == Some(v.videoId) &&
      item.thumbnailUrl == Some(v.thumbnail) && item.description == Some(v.description)
  {
    var items, vs := resp.items.value, Records(resp);
    forall k | 0 <= k < |vs|
      ensures items[k].title == Some(vs[k].title) && items[k].videoId == Some(vs[k].videoId)
      ensures items[k].thumbnailUrl == Some(vs[k].thumbnail) && items[k].description == Some(vs[k].description)
    {
      assert vs[k] == ToVideo(items[k]);
    }
  }

  /** A failed request, a missing `items` key or one incomplete item each give `[]`. */
  lemma FailuresGiveNothing(resp: SearchResponse)
    requires resp.Failed? || resp.items.None?
             || exists k :: 0 <= k < |resp.items.value| && !Complete(resp.items.value[k])
    ensures Records(resp) == []
  {
  }

  /**
   * The pages show a video section (`if videos:`) exactly when the reply was read
   * without error and listed at least one item.
   */
  lemma RecordsNonEmptyIff(resp: SearchResponse)
    ensures Records(resp) != [] <==> Readable(resp) && resp.items.value != []
  {
    if Readable(resp) && resp.items.value != [] {
      assert |Records(resp)| == |resp.items.value|;
    }
  }

  const EmergencyPrefix: string := "first aid "
  const EmergencySuffix: string := " emergency treatment tutorial medical"
  const RemedyPrefix: string := "how to prepare "
  const RemedySuffix: string := " natural remedy home remedies tutorial"

  /** An f-string with one field: `prefix`, then the subject, then `suffix`. */
  function Template(prefix: string, subject: string, suffix: string): (q: string)
    ensures |q| == |prefix| + |subject| + |suffix|
    ensures q[..|prefix|] == prefix && q[|q| - |suffix|..] == suffix
    ensures q[|prefix|..|q| - |suffix|] == subject
  {
    var q := prefix + subject + suffix;
    assert q[..|prefix|] == prefix;
    assert q[|q| - |suffix|..] == suffix;
    assert q[|prefix|..|q| - |suffix|] == subject;
    q
  }

  /** The subject of a query built from `prefix` and `suffix`, or `None` if `q` is not one. */
  function Subject(prefix: string, suffix: string, q: string): Option<string> {
    if |prefix| + |suffix| <= |q| && q[..|prefix|] == prefix && q[|q| - |suffix|..] == suffix
    then Some(q[|prefix|..|q| - |suffix|])
    else None
  }

  /** Reading the subject back out of a query gives the subject that went in. */
  lemma SubjectOfTemplate(prefix: string, subject: string, suffix: string)
    ensures Subject(prefix, suffix, Template(prefix, subject, suffix)) == Some(subject)
  {
  }

  /** Every string from which a subject can be read is the query for that subject. */
  lemma TemplateOfSubject(prefix: string, suffix: string, q: string)
    requires Subject(prefix, suffix, q).Some?
    ensures Template(prefix, Subject(prefix, suffix, q).value, suffix) == q
  {
    var s := q[|prefix|..|q| - |suffix|];
    assert q == q[..|prefix|] + s + q[|q| - |suffix|..];
  }

  /** Different subjects give different queries. */
  lemma TemplateInjective(prefix: string, suffix: string, a: string, b: string)
    requires Template(prefix, a, suffix) == Template(prefix, b, suffix)
    ensures a == b
  {
    SubjectOfTemplate(prefix, a, suffix);
    SubjectOfTemplate(prefix, b, suffix);
  }

  /** `f"first aid {emergency_type} emergency treatment tutorial medical"`. */
  function EmergencyQuery(emergency: string): string {
    Template(EmergencyPrefix, emergency, EmergencySuffix)
  }

  /** `f"how to prepare {remedy_name} natural remedy home remedies tutorial"`. */
  function RemedyQuery(remedy: string): string {
    Template(RemedyPrefix, remedy, RemedySuffix)
  }

  /**
   * `get_emergency_videos`: one search, whose query is returned, for the emergency
   * query, then the records of its reply.
   */
  method GetEmergencyVideos(search: string -> SearchResponse, emergency: string)
    returns (query: string, videos: seq<Video>)
    ensures query == EmergencyQuery(emergency)
    ensures videos == Records(search(query))
  {
    query := EmergencyQuery(emergency);
    var response := search(query);
    videos := CollectVideos(response);
  }

  /**
   * `get_remedy_videos`: one search, whose query is returned, for the remedy query,
   * then the records of its reply.
   */
  method GetRemedyVideos(search: string -> SearchResponse, remedy: string)
    returns (query: string, videos: seq<Video>)
    ensures query == RemedyQuery(remedy)
    ensures videos == Records(search(query))
  {
    query := RemedyQuery(remedy);
    var response := search(query);
    videos := CollectVideos(response);
  }

  const TitleWidth: nat := 50

  /** `f"{video['title'][:50]}..."`: at most 50 characters of the title, then an ellipsis, always. */
  function DisplayTitle(title: string): (d: string)
    ensures |d| == (if |title| <= TitleWidth then |title| else TitleWidth) + 3
    ensures d[..|d| - 3] == title[..|d| - 3] && d[|d| - 3..] == "..."
  {
    var shown := if |title| <= TitleWidth then title else title[..TitleWidth];
    var d := shown + "...";
    assert d[..|d| - 3] == shown;
    assert d[|d| - 3..] == "...";
    d
  }

  /** A title of at most 50 characters is shown whole; a longer one loses everything after its 50th character. */
  lemma DisplayTitleCuts(title: string)
    ensures |title| <= TitleWidth ==> DisplayTitle(title) == title + "..."
    ensures |title| > TitleWidth ==> DisplayTitle(title) == title[..TitleWidth] + "..."
  {
    var d := DisplayTitle(title);
    assert d == d[..|d| - 3] + d[|d| - 3..];
  }

  /** Titles that agree on their first 50 characters are displayed alike. */
  lemma DisplayTitleDependsOnPrefix(a: string, b: string)
    requires |a| > TitleWidth && |b| > TitleWidth && a[..TitleWidth] == b[..TitleWidth]
    ensures DisplayTitle(a) == DisplayTitle(b)
  {
    DisplayTitleCuts(a);
    DisplayTitleCuts(b);
  }
}
