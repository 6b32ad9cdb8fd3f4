/** `ValidationHelpers`: pure checks on URLs, titles, channel names and
    view-count texts. */
module ValidationHelpers {
  import opened Text

  /** The domains `is_valid_youtube_url` looks for. */
  const YoutubeDomains: seq<string> := ["youtube.com", "www.youtube.com", "m.youtube.com"]

  /** `is_valid_youtube_url(url)`: some listed domain occurs in the URL. */
  predicate IsValidYoutubeUrl(url: string) {
    exists k | 0 <= k < |YoutubeDomains| :: Contains(url, YoutubeDomains[k])
  }

  /** The two longer domains contain the first, so the test is exactly a
      search for "youtube.com". */
  lemma IsValidYoutubeUrlIffDomain(url: string)
    ensures IsValidYoutubeUrl(url) <==> Contains(url, "youtube.com")
  {
    assert OccursAt("www.youtube.com", "youtube.com", 4);
    assert OccursAt("m.youtube.com", "youtube.com", 2);
    if Contains(url, "www.youtube.com") {
      ContainsTransitive(url, "www.youtube.com", "youtube.com");
    }
    if Contains(url, "m.youtube.com") {
      ContainsTransitive(url, "m.youtube.com", "youtube.com");
    }
    if Contains(url, "youtube.com") {
      assert Contains(url, YoutubeDomains[0]);
    }
  }

  /** `is_video_url(url)`. */
  predicate IsVideoUrl(url: string) {
    Contains(url, "watch?v=")
  }

  /** `is_search_url(url)`. */
  predicate IsSearchUrl(url: string) {
    Contains(url, "search_query=")
  }

  /** The prefix of a results-page URL, `youtube_urls["search_base"]`. */
  const SearchBase: string := "https://www." + "youtube.com" + "/results?" + "search_query="

  /** The prefix of a watch-page URL. */
  const WatchBase: string := "https://www." + "youtube.com" + "/" + "watch?v="

  /** The results page of any search is a YouTube search URL. */
  lemma ResultsUrlIsSearchUrl(query: string)
    ensures IsValidYoutubeUrl(SearchBase + query) && IsSearchUrl(SearchBase + query)
  {
    var url := SearchBase + query;
    assert url == "https://www." + "youtube.com" + ("/results?" + "search_query=" + query);
    ContainsMiddle("https://www.", "youtube.com", "/results?" + "search_query=" + query);
    IsValidYoutubeUrlIffDomain(url);
    assert url == "https://www." + "youtube.com" + "/results?" + "search_query=" + query;
    ContainsMiddle("https://www." + "youtube.com" + "/results?", "search_query=", query);
  }

  /** Any watch page is a YouTube video URL. */
  lemma WatchUrlIsVideoUrl(id: string)
    ensures IsValidYoutubeUrl(WatchBase + id) && IsVideoUrl(WatchBase + id)
  {
    var url := WatchBase + id;
    assert url == "https://www." + "youtube.com" + ("/" + "watch?v=" + id);
    ContainsMiddle("https://www.", "youtube.com", "/" + "watch?v=" + id);
    IsValidYoutubeUrlIffDomain(url);
    ContainsMiddle("https://www." + "youtube.com" + "/", "watch?v=", id);
  }

  /** The shared rule of `validate_video_title` and `validate_channel_name`:
      reject empty or whitespace-only text, then text longer than `limit`
      (measured before stripping). */
  function ValidateText(text: string, limit: nat): (ok: bool)
    ensures ok <==> (exists i :: 0 <= i < |text| && !IsSpace(text[i])) && |text| <= limit
  {
    if text == "" || |Strip(text)| == 0 then false
    else if |text| > limit then false
    else true
  }

  /** `validate_video_title(title)`. */
  function ValidateVideoTitle(title: string): (ok: bool)
    ensures ok <==> (exists i :: 0 <= i < |title| && !IsSpace(title[i])) && |title| <= 200
  {
    ValidateText(title, 200)
  }

  /** `validate_channel_name(name)`. */
  function ValidateChannelName(name: string): (ok: bool)
    ensures ok <==> (exists i :: 0 <= i < |name| && !IsSpace(name[i])) && |name| <= 100
  {
    ValidateText(name, 100)
  }

  /** Every valid channel name is a valid title, but not the other way
      round: a 150-letter name is a valid title only. Surrounding blanks
      count towards the limit. */
  lemma ChannelRuleIsStricter(s: string)
    ensures ValidateChannelName(s) ==> ValidateVideoTitle(s)
    ensures var long := seq(150, i => 'a');
      ValidateVideoTitle(long) && !ValidateChannelName(long)
    ensures var padded := " " + seq(100, i => 'a');
      !ValidateChannelName(padded) && Strip(padded) == seq(100, i => 'a')
  {
    var long := seq(150, i => 'a');
    assert !IsSpace(long[0]);
    var a100 := seq(100, i => 'a');
    var padded := " " + a100;
    assert !IsSpace(padded[1]);
    assert TrimStart(padded) == TrimStart(a100);
    assert !IsSpace(a100[0]) && !IsSpace(a100[99]);
  }

  /** A text that mentions "views" mentions "view". */
  lemma ViewsMentionsView(s: string)
    ensures Contains(s, "views") ==> Contains(s, "view")
  {
    assert OccursAt("views", "view", 0);
    if Contains(s, "views") {
      ContainsTransitive(s, "views", "view");
    }
  }

  /** The markers `validate_view_count` looks for. */
  const ViewIndicators: seq<string> := ["view", "watching", "views"]

  /** `validate_view_count(text)`: non-empty, and some marker occurs in the
      lowered text. */
  function ValidateViewCount(text: string): (ok: bool)
    ensures ok <==> text != "" && (Contains(Lower(text), "view") || Contains(Lower(text), "watching"))
  {
    if text == "" then false
    else
      var lowered := Lower(text);
      ViewsMentionsView(lowered);
      assert Contains(lowered, ViewIndicators[0]) ==> Contains(lowered, "view");
      assert Contains(lowered, ViewIndicators[1]) ==> Contains(lowered, "watching");
      exists k | 0 <= k < |ViewIndicators| :: Contains(lowered, ViewIndicators[k])
  }
}
