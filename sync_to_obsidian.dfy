/**
 * The Obsidian syncer: for every playlist of the account, in listing order,
 * fetch its videos page by page and render one Markdown document named after
 * the playlist's sanitized title.
 */
module SyncToObsidian {
  import opened Wrappers
  import opened Text
  import opened Paging
  import opened Playlists

  // ----- filenames -----

  /** The characters the pattern `[<>:"/\\|?*]` matches. */
  const Forbidden: set<char> := {'<', '>', ':', '"', '/', '\\', '|', '?', '*'}

  /** `sanitize_filename`: every forbidden character becomes `_`, one for one. */
  function SanitizeFilename(name: string): (safe: string)
    ensures |safe| == |name|
    ensures forall k :: 0 <= k < |name| ==> safe[k] == (if name[k] in Forbidden then '_' else name[k])
  {
    if |name| == 0 then []
    else [if name[0] in Forbidden then '_' else name[0]] + SanitizeFilename(name[1..])
  }

  /** No forbidden character survives sanitizing. */
  lemma SanitizedIsSafe(name: string)
    ensures forall c :: c in SanitizeFilename(name) ==> c !in Forbidden
  {
  }

  /** Sanitizing twice is sanitizing once. */
  lemma SanitizeIdempotent(name: string)
    ensures SanitizeFilename(SanitizeFilename(name)) == SanitizeFilename(name)
  {
  }

  /** A name is left as it is exactly when it holds no forbidden character. */
  lemma SanitizeKeepsSafeNames(name: string)
    ensures SanitizeFilename(name) == name <==> forall c :: c in name ==> c !in Forbidden
  {
    if SanitizeFilename(name) == name {
      forall c | c in name ensures c !in Forbidden {
        var k :| 0 <= k < |name| && name[k] == c;
      }
    }
  }

  /**
   * Titles that differ only in which forbidden character stands at a place
   * get the same name, so their documents go to the same file.
   */
  lemma SanitizeMergesForbidden(name: string, k: nat, c: char)
    requires k < |name| && name[k] in Forbidden && c in Forbidden
    ensures SanitizeFilename(name[k := c]) == SanitizeFilename(name)
  {
  }

  // ----- videos -----

  /** The snippet fields of a playlistItems item; each may be absent. */
  datatype VideoSnippet = VideoSnippet(
    title: Option<string>,
    description: Option<string>,
    publishedAt: Option<string>,
    videoOwnerChannelTitle: Option<string>)

  /** A playlistItems item: `snippet` and `contentDetails.videoId`, whose absence raises KeyError. */
  datatype RawVideo = RawVideo(snippet: Option<VideoSnippet>, videoId: Option<string>)

  /** The video record `get_playlist_videos` appends. */
  datatype Video = Video(title: string, id: string, description: string, publishedAt: string, channelTitle: string)

  /** The defaults for absent snippet fields. */
  const UnknownTitle := "Unknown Title"
  const UnknownChannel := "Unknown"

  /**
   * The record for one item, or None where reading `snippet` or `videoId`
   * raises: a record comes out exactly when both are present, with the
   * item's video id.
   */
  function ToVideo(item: RawVideo): (r: Option<Video>)
    ensures r.Some? <==> item.snippet.Some? && item.videoId.Some?
    ensures r.Some? ==> r.value.id == item.videoId.value
  {
    match item.snippet
    case None => None
    case Some(s) =>
      match item.videoId
      case None => None
      case Some(id) =>
        Some(Video(s.title.GetOr(UnknownTitle), id, s.description.GetOr(""),
                   s.publishedAt.GetOr(""), s.videoOwnerChannelTitle.GetOr(UnknownChannel)))
  }

  /** The item in which every field of `v` is present. */
  function RawOfVideo(v: Video): RawVideo
  {
    RawVideo(Some(VideoSnippet(Some(v.title), Some(v.description), Some(v.publishedAt), Some(v.channelTitle))), Some(v.id))
  }

  /**
   * An item yields a record exactly when `snippet` and `videoId` are present;
   * the id is `contentDetails.videoId` and each snippet field is copied when
   * present and otherwise defaults to 'Unknown Title', '', '' and 'Unknown'.
   * An item with every field present yields exactly those fields.
   */
  lemma VideoRecordFromItem(item: RawVideo)
    ensures ToVideo(item).Some? <==> item.snippet.Some? && item.videoId.Some?
    ensures ToVideo(item).Some? ==>
      var v := ToVideo(item).value; var s := item.snippet.value;
      && v.id == item.videoId.value
      && v.title == (if s.title.Some? then s.title.value else "Unknown Title")
      && v.description == (if s.description.Some? then s.description.value else "")
      && v.publishedAt == (if s.publishedAt.Some? then s.publishedAt.value else "")
      && v.channelTitle == (if s.videoOwnerChannelTitle.Some? then s.videoOwnerChannelTitle.value else "Unknown")
    ensures forall v: Video :: ToVideo(RawOfVideo(v)) == Some(v)
  {
  }

  /**
   * `get_playlist_videos`: pages through the playlist's items. A failed request
   * or a malformed item is caught: the loop stops and the videos gathered from
   * the earlier items are returned. `requested` are the page tokens sent.
   */
  method GetPlaylistVideos(rs: seq<Response<RawVideo>>) returns (videos: seq<Video>, requested: seq<Option<string>>)
    requires Ends(rs)
    ensures videos == Paginate(rs, ToVideo, None).records
    ensures requested == Paginate(rs, ToVideo, None).requests
  {
    ghost var whole := Paginate(rs, ToVideo, None);
    videos := [];
    requested := [];
    var nextPageToken: Option<string> := None;
    var k := 0;
    while true
      invariant 0 <= k < |rs| && Ends(rs[k..])
      invariant whole.records == videos + Paginate(rs[k..], ToVideo, nextPageToken).records
      invariant whole.requests == requested + Paginate(rs[k..], ToVideo, nextPageToken).requests
      decreases |rs| - k
    {
      ghost var done, sent := videos, requested;
      requested := requested + [nextPageToken];
      var response := rs[k];
      if response.Fail? {
        StepFail(rs, k, ToVideo, nextPageToken);
        break;
      }
      var malformed;
      videos, malformed := AppendPageVideos(videos, ItemsOf(response));
      if malformed || !Continues(response.nextPageToken) {
        StepLast(rs, k, ToVideo, nextPageToken);
        break;
      }
      StepNext(rs, k, ToVideo, nextPageToken, done, sent);
      nextPageToken := response.nextPageToken;
      k := k + 1;
    }
  }

  /**
   * The inner loop of `get_playlist_videos` over one page's items: appends the
   * record of each item in order and stops at the first malformed one, whose
   * KeyError the enclosing `try` catches.
   */
  method AppendPageVideos(videos: seq<Video>, items: seq<RawVideo>) returns (result: seq<Video>, malformed: bool)
    ensures result == videos + ConvertPage(items, ToVideo).0
    ensures malformed == !ConvertPage(items, ToVideo).1
  {
    ghost var page := ConvertPage(items, ToVideo);
    result := videos;
    malformed := false;
    var i := 0;
    while i < |items|
      invariant 0 <= i <= |page.0|
      invariant result == videos + page.0[..i]
      invariant i == |items| ==> page.1
    {
      ConvertStep(items, ToVideo, i);
      var video := ToVideo(items[i]);
      if video.None? {
        malformed := true;
        return;
      }
      result := result + [video.value];
      i := i + 1;
    }
  }

  // ----- the Markdown document -----

  const WatchPrefix := "https://www.youtube.com/watch?v="
  const PlaylistPrefix := "https://www.youtube.com/playlist?list="
  /** The note type the front matter declares. */
  const NoteType := "youtube-playlist"

  /** The link text of a video: `title.replace('[', '(').replace(']', ')')`. */
  function LinkText(title: string): (text: string)
    ensures |text| == |title|
    ensures forall k :: 0 <= k < |title| ==>
      text[k] == (if title[k] == '[' then '(' else if title[k] == ']' then ')' else title[k])
    ensures '[' !in text && ']' !in text
  {
    ReplaceChar(ReplaceChar(title, '[', '('), ']', ')')
  }

  /** The watch page of a video. */
  function WatchUrl(id: string): string
  {
    WatchPrefix + id
  }

  /** The list item for one video. */
  function VideoLine(v: Video): string
  {
    "- [" + LinkText(v.title) + "](" + WatchUrl(v.id) + ")"
  }

  /** The sixteen lines before the video list; `count` is the number of videos fetched, in decimal. */
  function Header(p: Playlist, count: string): seq<string>
  {
    [ "---",
      "id: " + p.id,
      "title: \"" + p.title + "\"",
      "privacy: " + p.privacy,
      "video_count: " + count,
      "url: " + PlaylistPrefix + p.id,
      "type: " + NoteType,
      "---",
      "",
      "# " + p.title,
      "",
      "**Privacy:** " + p.privacy,
      "**Total Videos:** " + count,
      "",
      "## Videos",
      "" ]
  }

  function VideoLines(vs: seq<Video>): seq<string>
  {
    seq(|vs|, k requires 0 <= k < |vs| => VideoLine(vs[k]))
  }

  /** The list `content` that `save_to_markdown` builds. */
  function MarkdownLines(p: Playlist, vs: seq<Video>): seq<string>
  {
    Header(p, DecimalString(|vs|)) + VideoLines(vs)
  }

  /** The file name `save_to_markdown` writes to, relative to the output directory. */
  function MarkdownFilename(title: string): string
  {
    SanitizeFilename(title) + ".md"
  }

  /** A file written: its name in the output directory and its whole text. */
  datatype Document = Document(filename: string, text: string)

  /** What `save_to_markdown` writes for a playlist and its fetched videos. */
  function Render(p: Playlist, vs: seq<Video>): Document
  {
    Document(MarkdownFilename(p.title), JoinLines(MarkdownLines(p, vs)))
  }

  lemma VideoLinesStep(head: seq<string>, vs: seq<Video>, i: nat)
    requires i < |vs|
    ensures head + VideoLines(vs[..i]) + [VideoLine(vs[i])] == head + VideoLines(vs[..i + 1])
  {
    assert VideoLines(vs[..i + 1]) == VideoLines(vs[..i]) + [VideoLine(vs[i])];
  }

  /** `save_to_markdown`: builds the lines one by one and joins them with newlines. */
  method SaveToMarkdown(playlist: Playlist, videos: seq<Video>) returns (doc: Document)
    ensures doc == Render(playlist, videos)
  {
    var title := playlist.title;
    var safeTitle := SanitizeFilename(title);
    var filename := safeTitle + ".md";
    var content: seq<string> := [];
    content := content + ["---"];
    content := content + ["id: " + playlist.id];
    content := content + ["title: \"" + title + "\""];
    content := content + ["privacy: " + playlist.privacy];
    content := content + ["video_count: " + DecimalString(|videos|)];
    content := content + ["url: " + PlaylistPrefix + playlist.id];
    content := content + ["type: " + NoteType];
    content := content + ["---"];
    content := content + [""];
    content := content + ["# " + title];
    content := content + [""];
    content := content + ["**Privacy:** " + playlist.privacy];
    content := content + ["**Total Videos:** " + DecimalString(|videos|)];
    content := content + [""];
    content := content + ["## Videos"];
    content := content + [""];
    ghost var header := Header(playlist, DecimalString(|videos|));
    assert content == header;
    for i := 0 to |videos|
      invariant content == header + VideoLines(videos[..i])
    {
      var vidTitle := ReplaceChar(ReplaceChar(videos[i].title, '[', '('), ']', ')');
      var vidUrl := WatchPrefix + videos[i].id;
      VideoLinesStep(header, videos, i);
      content := content + ["- [" + vidTitle + "](" + vidUrl + ")"];
    }
    assert videos[..|videos|] == videos;
    doc := Document(filename, JoinLines(content));
  }

  /** The key of a front-matter line: what precedes its first colon. */
  function KeyOf(line: string): string
  {
    line[..IndexOf(line, ':')]
  }

  lemma KeyOfEntry(key: string, value: string)
    requires ':' !in key
    ensures KeyOf(key + ": " + value) == key
  {
    var line := key + ": " + value;
    assert line[|key|] == ':';
    assert line[..|key|] == key;
  }

  /** The document starts with the header. */
  lemma HeaderFirst(p: Playlist, vs: seq<Video>)
    ensures |MarkdownLines(p, vs)| >= 16 && MarkdownLines(p, vs)[..16] == Header(p, DecimalString(|vs|))
  {
  }

  /**
   * The front matter sits between two `---` lines and holds, in this order,
   * the keys id, title, privacy, video_count, url and type, whatever the
   * playlist's fields hold.
   */
  lemma FrontMatterKeys(p: Playlist, vs: seq<Video>)
    ensures var lines := MarkdownLines(p, vs);
      && |lines| >= 16
      && lines[0] == "---" && lines[7] == "---"
      && (forall i :: 1 <= i < 7 ==> lines[i] != "---")
      && [KeyOf(lines[1]), KeyOf(lines[2]), KeyOf(lines[3]), KeyOf(lines[4]), KeyOf(lines[5]), KeyOf(lines[6])]
         == ["id", "title", "privacy", "video_count", "url", "type"]
  {
    HeaderFirst(p, vs);
    HeaderKeys(p, DecimalString(|vs|));
  }

  lemma HeaderKeys(p: Playlist, count: string)
    ensures var h := Header(p, count);
      && h[0] == "---" && h[7] == "---"
      && (forall i :: 1 <= i < 7 ==> h[i] != "---")
      && KeyOf(h[1]) == "id" && KeyOf(h[2]) == "title" && KeyOf(h[3]) == "privacy"
      && KeyOf(h[4]) == "video_count" && KeyOf(h[5]) == "url" && KeyOf(h[6]) == "type"
  {
    HeaderFirstKeys(p, count);
    HeaderLastKeys(p, count);
    var h := Header(p, count);
    forall i | 1 <= i < 7 ensures h[i] != "---" {
      assert KeyOf(h[i]) != "---";
    }
  }

  lemma HeaderFirstKeys(p: Playlist, count: string)
    ensures var h := Header(p, count);
      KeyOf(h[1]) == "id" && KeyOf(h[2]) == "title" && KeyOf(h[3]) == "privacy"
  {
    var h := Header(p, count);
    assert h[1] == "id" + ": " + p.id;
    KeyOfEntry("id", p.id);
    assert h[2] == "title" + ": " + ("\"" + p.title + "\"");
    KeyOfEntry("title", "\"" + p.title + "\"");
    assert h[3] == "privacy" + ": " + p.privacy;
    KeyOfEntry("privacy", p.privacy);
  }

  lemma HeaderLastKeys(p: Playlist, count: string)
    ensures var h := Header(p, count);
      KeyOf(h[4]) == "video_count" && KeyOf(h[5]) == "url" && KeyOf(h[6]) == "type"
  {
    var h := Header(p, count);
    assert h[4] == "video_count" + ": " + count;
    KeyOfEntry("video_count", count);
    assert h[5] == "url" + ": " + (PlaylistPrefix + p.id);
    KeyOfEntry("url", PlaylistPrefix + p.id);
    assert h[6] == "type" + ": " + NoteType;
    KeyOfEntry("type", NoteType);
  }

  /**
   * The front-matter values: the playlist id, the title quoted verbatim, the
   * privacy status, a `video_count` that reads back as the number of videos
   * fetched (not the playlist's reported count), the playlist URL and the
   * type `youtube-playlist`.
   */
  lemma FrontMatterValues(p: Playlist, vs: seq<Video>)
    ensures var lines := MarkdownLines(p, vs);
      && |lines| >= 16
      && lines[1] == "id: " + p.id
      && lines[2] == "title: \"" + p.title + "\""
      && lines[3] == "privacy: " + p.privacy
      && lines[4][..13] == "video_count: " && ParseDecimal(lines[4][13..]) == Some(|vs|)
      && lines[5] == "url: " + PlaylistPrefix + p.id
      && lines[6] == "type: " + NoteType
  {
    var lines := MarkdownLines(p, vs);
    assert lines[..16] == Header(p, DecimalString(|vs|));
    DecimalRoundTrip(|vs|);
    assert lines[4][13..] == DecimalString(|vs|);
  }

  /** Reads a Markdown link list item `- [text](url)` back: the text up to the first `]`, and the url. */
  function ParseLink(line: string): Option<(string, string)>
  {
    if |line| < 3 || line[..3] != "- [" then None
    else
      var body := line[3..];
      var close := IndexOf(body, ']');
      var rest := body[close..];
      if |rest| < 3 || rest[..2] != "](" || rest[|rest| - 1] != ')' then None
      else Some((body[..close], rest[2..|rest| - 1]))
  }

  /** Reads a video list item back: its link text and the video id of its watch URL. */
  function ParseVideoLine(line: string): Option<(string, string)>
  {
    match ParseLink(line)
    case None => None
    case Some((text, url)) =>
      if |url| < |WatchPrefix| || url[..|WatchPrefix|] != WatchPrefix then None
      else Some((text, url[|WatchPrefix|..]))
  }

  /**
   * After the sixteen header lines, ending with `## Videos` and a blank line,
   * there is exactly one list item per video, in input order; each reads back
   * as its bracket-free link text and its video id.
   */
  lemma OneLinkPerVideo(p: Playlist, vs: seq<Video>)
    ensures var lines := MarkdownLines(p, vs);
      && |lines| == 16 + |vs|
      && lines[14] == "## Videos" && lines[15] == ""
      && forall i :: 0 <= i < |vs| ==>
           && lines[16 + i] == VideoLine(vs[i])
           && ParseVideoLine(lines[16 + i]) == Some((LinkText(vs[i].title), vs[i].id))
  {
    var lines := MarkdownLines(p, vs);
    forall i | 0 <= i < |vs|
      ensures lines[16 + i] == VideoLine(vs[i])
      ensures ParseVideoLine(lines[16 + i]) == Some((LinkText(vs[i].title), vs[i].id))
    {
      assert lines[16 + i] == VideoLines(vs)[i];
      VideoLineReadsBack(vs[i]);
    }
  }

  lemma VideoLineReadsBack(v: Video)
    ensures ParseVideoLine(VideoLine(v)) == Some((LinkText(v.title), v.id))
  {
    LinkReadsBack(LinkText(v.title), WatchUrl(v.id));
    var url := WatchUrl(v.id);
    assert url[..|WatchPrefix|] == WatchPrefix;
    assert url[|WatchPrefix|..] == v.id;
  }

  /** A link item reads back as its text and url when the text holds no `]`. */
  lemma LinkReadsBack(text: string, url: string)
    requires ']' !in text
    ensures ParseLink("- [" + text + "](" + url + ")") == Some((text, url))
  {
    var line := "- [" + text + "](" + url + ")";
    var rest := "](" + url + ")";
    assert line == "- [" + (text + rest);
    assert line[..3] == "- [";
    var body := line[3..];
    assert body == text + rest;
    IndexOfAppend(text, rest, ']');
    assert body[|text|..] == rest;
    assert body[..|text|] == text;
    assert rest[..2] == "](";
    assert rest[2..|rest| - 1] == url;
  }

  /** A playlist with no videos still gets the header, ending at `## Videos` and a blank line, and count 0. */
  lemma EmptyPlaylistDocument(p: Playlist)
    ensures MarkdownLines(p, []) == Header(p, DecimalString(0))
    ensures MarkdownLines(p, [])[4] == "video_count: 0"
    ensures var text := Render(p, []).text;
      |text| >= 11 && text[|text| - 11..] == "\n## Videos\n"
  {
    var h := Header(p, DecimalString(0));
    assert MarkdownLines(p, []) == h;
    assert h == h[..15] + [""];
    assert h[..15] == h[..14] + ["## Videos"];
    JoinAppend(h[..15], "");
    JoinAppend(h[..14], "## Videos");
  }

  /** With at least one video the text ends with the last link's `)`, not with a newline. */
  lemma NoTrailingNewline(p: Playlist, vs: seq<Video>)
    requires |vs| > 0
    ensures var text := Render(p, vs).text; |text| > 0 && text[|text| - 1] == ')'
  {
    var lines := MarkdownLines(p, vs);
    var last := VideoLine(vs[|vs| - 1]);
    assert lines == lines[..|lines| - 1] + [last];
    JoinAppend(lines[..|lines| - 1], last);
  }

  /** No line of the document holds a newline when the fields it quotes hold none. */
  ghost predicate NoNewlines(p: Playlist, vs: seq<Video>)
  {
    && '\n' !in p.id && '\n' !in p.title && '\n' !in p.privacy
    && forall v :: v in vs ==> '\n' !in v.title && '\n' !in v.id
  }

  /** Splitting the written text at its newlines gives back exactly the lines built. */
  lemma DocumentReadsBack(p: Playlist, vs: seq<Video>)
    requires NoNewlines(p, vs)
    ensures SplitLines(Render(p, vs).text) == MarkdownLines(p, vs)
  {
    var lines := MarkdownLines(p, vs);
    DecimalHasOnly(|vs|, '\n');
    HeaderHasNoNewline(p, DecimalString(|vs|));
    forall k | 16 <= k < |lines| ensures '\n' !in lines[k] {
      var v := vs[k - 16];
      assert v in vs;
      assert lines[k] == VideoLine(v);
      VideoLineHasNoNewline(v);
    }
    SplitJoin(lines);
  }

  lemma HeaderHasNoNewline(p: Playlist, count: string)
    requires '\n' !in p.id && '\n' !in p.title && '\n' !in p.privacy && '\n' !in count
    ensures forall k :: 0 <= k < 16 ==> '\n' !in Header(p, count)[k]
  {
    FrontMatterHasNoNewline(p, count);
    BodyHeaderHasNoNewline(p, count);
  }

  lemma FrontMatterHasNoNewline(p: Playlist, count: string)
    requires '\n' !in p.id && '\n' !in p.title && '\n' !in p.privacy && '\n' !in count
    ensures forall k :: 0 <= k < 8 ==> '\n' !in Header(p, count)[k]
  {
  }

  lemma BodyHeaderHasNoNewline(p: Playlist, count: string)
    requires '\n' !in p.title && '\n' !in p.privacy && '\n' !in count
    ensures forall k :: 8 <= k < 16 ==> '\n' !in Header(p, count)[k]
  {
  }

  lemma VideoLineHasNoNewline(v: Video)
    requires '\n' !in v.title && '\n' !in v.id
    ensures '\n' !in VideoLine(v)
  {
    var text := LinkText(v.title);
    forall j | 0 <= j < |v.title| ensures text[j] != '\n' {
      assert v.title[j] in v.title;
    }
  }

  /** The file name is the sanitized title followed by `.md`, and holds no forbidden character. */
  lemma FilenameIsSafe(p: Playlist, vs: seq<Video>)
    ensures var name := Render(p, vs).filename;
      && name == SanitizeFilename(p.title) + ".md"
      && forall k :: 0 <= k < |name| ==> name[k] !in Forbidden
  {
    var name := Render(p, vs).filename;
    var n := |p.title|;
    assert name[n..] == ".md";
    forall k | 0 <= k < |name| ensures name[k] !in Forbidden {
      if k >= n {
        assert name[k] == ".md"[k - n];
      }
    }
  }

  /**
   * The output directory after some writes into a directory that held the
   * files `before` (notes left by earlier runs): `open(filepath, 'w')`
   * replaces a file's text, so each name holds the text of its last write,
   * and files this run does not write are left as they were.
   */
  function Directory(before: map<string, string>, docs: seq<Document>): map<string, string>
  {
    if |docs| == 0 then before
    else Directory(before, docs[..|docs| - 1])[docs[|docs| - 1].filename := docs[|docs| - 1].text]
  }

  /** Every file written is there, and holds the text of the last document written under its name. */
  lemma {:induction false} LastWriteWins(before: map<string, string>, docs: seq<Document>, i: nat)
    requires i < |docs|
    requires forall j :: i < j < |docs| ==> docs[j].filename != docs[i].filename
    ensures docs[i].filename in Directory(before, docs)
    ensures Directory(before, docs)[docs[i].filename] == docs[i].text
    decreases |docs|
  {
    if i < |docs| - 1 {
      LastWriteWins(before, docs[..|docs| - 1], i);
    }
  }

  /** A file this run does not write keeps the text it had. */
  lemma {:induction false} UnwrittenFilesKept(before: map<string, string>, docs: seq<Document>, name: string)
    requires name in before
    requires forall j :: 0 <= j < |docs| ==> docs[j].filename != name
    ensures name in Directory(before, docs)
    ensures Directory(before, docs)[name] == before[name]
    decreases |docs|
  {
    if |docs| > 0 {
      UnwrittenFilesKept(before, docs[..|docs| - 1], name);
    }
  }

  /** The directory holds the files it held before and the names written, and nothing else. */
  lemma {:induction false} DirectoryNames(before: map<string, string>, docs: seq<Document>)
    ensures forall name :: name in Directory(before, docs) <==>
      name in before || exists j :: 0 <= j < |docs| && docs[j].filename == name
    decreases |docs|
  {
    if |docs| > 0 {
      var init := docs[..|docs| - 1];
      DirectoryNames(before, init);
      forall name | name in Directory(before, docs)
        ensures name in before || exists j :: 0 <= j < |docs| && docs[j].filename == name
      {
        if name != docs[|docs| - 1].filename && name !in before {
          assert name in Directory(before, init);
          var j :| 0 <= j < |init| && init[j].filename == name;
          assert docs[j].filename == name;
        }
      }
      forall name | name in before || exists j :: 0 <= j < |docs| && docs[j].filename == name
        ensures name in Directory(before, docs)
      {
        if name !in before {
          var j :| 0 <= j < |docs| && docs[j].filename == name;
          if j < |docs| - 1 {
            assert init[j].filename == name;
          }
        }
      }
    }
  }

  // ----- the sync run -----

  /** The videos fetched for a playlist id, from the remote's listing of that playlist's items. */
  function VideosOf(fetch: string -> Remote<RawVideo>, id: string): seq<Video>
  {
    Paginate(fetch(id), ToVideo, None).records
  }

  /** The documents written for some playlists, one per playlist in order. */
  function Documents(ps: seq<Playlist>, fetch: string -> Remote<RawVideo>): (docs: seq<Document>)
    ensures |docs| == |ps|
  {
    seq(|ps|, j requires 0 <= j < |ps| => Render(ps[j], VideosOf(fetch, ps[j].id)))
  }

  lemma DocumentsAppend(a: seq<Playlist>, b: seq<Playlist>, fetch: string -> Remote<RawVideo>)
    ensures Documents(a + b, fetch) == Documents(a, fetch) + Documents(b, fetch)
  {
    assert forall j :: 0 <= j < |a| ==> (a + b)[j] == a[j];
    assert forall j :: |a| <= j < |a| + |b| ==> (a + b)[j] == b[j - |a|];
  }

  lemma DocumentsStep(written: seq<Document>, ps: seq<Playlist>, p: Playlist, fetch: string -> Remote<RawVideo>)
    ensures written + Documents(ps, fetch) + [Render(p, VideosOf(fetch, p.id))] == written + Documents(ps + [p], fetch)
  {
    DocumentsAppend(ps, [p], fetch);
    assert Documents([p], fetch) == [Render(p, VideosOf(fetch, p.id))];
  }

  const SyncedPrefix := "\nSuccessfully synced "
  const SyncedSuffix := " playlists to Obsidian."

  /** The line printed once every playlist has been synced. */
  function SyncedLine(n: nat): string
  {
    SyncedPrefix + DecimalString(n) + SyncedSuffix
  }

  /** The closing line reads back as the count it was printed from. */
  lemma SyncedLineReadsBack(n: nat)
    ensures var line := SyncedLine(n);
      && |line| >= |SyncedPrefix| + |SyncedSuffix|
      && line[..|SyncedPrefix|] == SyncedPrefix
      && line[|line| - |SyncedSuffix|..] == SyncedSuffix
      && ParseDecimal(line[|SyncedPrefix|..|line| - |SyncedSuffix|]) == Some(n)
  {
    var line := SyncedLine(n);
    assert line[|SyncedPrefix|..|line| - |SyncedSuffix|] == DecimalString(n);
    DecimalRoundTrip(n);
  }

  /**
   * The playlist loop of `sync_playlists_to_obsidian`: for every playlist, in
   * listing order, fetch its videos and write its document, counting it as
   * processed. `fetch` gives the remote's listing of one playlist's items. A
   * failed playlists request or a malformed playlist item is not caught: the
   * run ends there, with the documents already written left in place and
   * without the closing line; otherwise `summary` is the closing line printed.
   * `requested` are the page tokens sent, one per playlists request.
   */
  method SyncPlaylists(rs: seq<Response<RawPlaylist>>, fetch: string -> Remote<RawVideo>)
    returns (written: seq<Document>, processedCount: nat, summary: Option<string>, requested: seq<Option<string>>)
    requires Ends(rs)
    ensures var l := Paginate(rs, ToPlaylist, None);
      && written == Documents(l.records, fetch)
      && processedCount == |l.records|
      && (summary.Some? <==> l.completed)
      && (summary.Some? ==> summary.value == SyncedLine(processedCount))
      && requested == l.requests
  {
    ghost var whole := Paginate(rs, ToPlaylist, None);
    ghost var playlists: seq<Playlist> := [];
    written := [];
    processedCount := 0;
    summary := None;
    requested := [];
    var nextPageToken: Option<string> := None;
    var k := 0;
    while true
      invariant 0 <= k < |rs| && Ends(rs[k..])
      invariant whole.records == playlists + Paginate(rs[k..], ToPlaylist, nextPageToken).records
      invariant whole.completed == Paginate(rs[k..], ToPlaylist, nextPageToken).completed
      invariant written == Documents(playlists, fetch)
      invariant processedCount == |playlists|
      invariant whole.requests == requested + Paginate(rs[k..], ToPlaylist, nextPageToken).requests
      decreases |rs| - k
    {
      ghost var sent := requested;
      requested := requested + [nextPageToken];
      var response := rs[k];
      if response.Fail? {
        StepFail(rs, k, ToPlaylist, nextPageToken);
        return;
      }
      ghost var done := playlists;
      ghost var page := ConvertPage(ItemsOf(response), ToPlaylist);
      var malformed;
      written, processedCount, malformed := WritePage(written, processedCount, ItemsOf(response), fetch);
      DocumentsAppend(playlists, page.0, fetch);
      playlists := playlists + page.0;
      if malformed {
        StepLast(rs, k, ToPlaylist, nextPageToken);
        return;
      }
      if !Continues(response.nextPageToken) {
        StepLast(rs, k, ToPlaylist, nextPageToken);
        break;
      }
      StepNext(rs, k, ToPlaylist, nextPageToken, done, sent);
      nextPageToken := response.nextPageToken;
      k := k + 1;
    }
    summary := Some(SyncedLine(processedCount));
  }

  /**
   * The inner loop over one page of playlists: for each item in order, build
   * its record, fetch its videos, write its document and count it. A malformed
   * item stops the loop; unlike in the video fetch, nothing catches its
   * KeyError, so the caller ends the run.
   */
  method WritePage(written: seq<Document>, processedCount: nat, items: seq<RawPlaylist>, fetch: string -> Remote<RawVideo>)
    returns (result: seq<Document>, count: nat, malformed: bool)
    ensures result == written + Documents(ConvertPage(items, ToPlaylist).0, fetch)
    ensures count == processedCount + |ConvertPage(items, ToPlaylist).0|
    ensures malformed == !ConvertPage(items, ToPlaylist).1
  {
    ghost var page := ConvertPage(items, ToPlaylist);
    result := written;
    count := processedCount;
    malformed := false;
    var i := 0;
    while i < |items|
      invariant 0 <= i <= |page.0|
      invariant result == written + Documents(page.0[..i], fetch)
      invariant count == processedCount + i
      invariant i == |items| ==> page.1
    {
      ConvertStep(items, ToPlaylist, i);
      var playlist := ToPlaylist(items[i]);
      if playlist.None? {
        malformed := true;
        return;
      }
      var videos, _ := GetPlaylistVideos(fetch(playlist.value.id));
      var doc := SaveToMarkdown(playlist.value, videos);
      DocumentsStep(written, page.0[..i], playlist.value, fetch);
      result := result + [doc];
      count := count + 1;
      i := i + 1;
    }
  }
}
