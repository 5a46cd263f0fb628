/**
 * The playlist lister: pages through the account's playlists, printing one
 * report line per playlist as it is found, then the total, the number of
 * unlisted playlists and one line for each of them.
 */
module ListPlaylists {
  import opened Wrappers
  import opened Text
  import opened Paging
  import opened Playlists

  // ----- the report line -----

  /** `- [{privacy}] {title} ({item_count} videos)` */
  function ReportLine(p: Playlist): string
  {
    ReportOpen + p.privacy + ReportClose + p.title + " (" + DecimalString(p.count) + VideosSuffix
  }

  const ReportOpen := "- ["
  const ReportClose := "] "
  const VideosSuffix := " videos)"

  /** Reads a report line back: the privacy status up to the first `]`, then the title and the count. */
  function ParseReportLine(line: string): Option<(string, string, int)>
  {
    if |line| < |ReportOpen| || line[..|ReportOpen|] != ReportOpen then None
    else ParseReportBody(line[|ReportOpen|..])
  }

  function ParseReportBody(body: string): Option<(string, string, int)>
  {
    var close := IndexOf(body, ']');
    if close + |ReportClose| > |body| || body[close..close + |ReportClose|] != ReportClose then None
    else
      match ParseTitleCount(body[close + |ReportClose|..])
      case None => None
      case Some((title, n)) => Some((body[..close], title, n))
  }

  /** Reads `{title} ({count} videos)` back: the title up to the last ` (`, and the count before ` videos)`. */
  function ParseTitleCount(rest: string): Option<(string, int)>
  {
    var open := LastIndexOf(rest, '(');
    if open < 1 || rest[open - 1] != ' ' then None
    else
      var tail := rest[open + 1..];
      if |tail| < |VideosSuffix| || tail[|tail| - |VideosSuffix|..] != VideosSuffix then None
      else
        match ParseDecimal(tail[..|tail| - |VideosSuffix|])
        case None => None
        case Some(n) => Some((rest[..open - 1], n))
  }

  /**
   * A report line gives back the privacy status, the title and the count it
   * was printed from, whatever the title holds, as long as the privacy
   * status holds no `]`.
   */
  lemma ReportLineReadsBack(p: Playlist)
    requires ']' !in p.privacy
    ensures ParseReportLine(ReportLine(p)) == Some((p.privacy, p.title, p.count))
  {
    var rest := p.title + " (" + DecimalString(p.count) + VideosSuffix;
    var body := p.privacy + ReportClose + rest;
    assert ReportLine(p) == ReportOpen + body;
    assert ReportLine(p)[|ReportOpen|..] == body;
    PrivacyReadsBack(p.privacy, rest);
    TitleCountReadsBack(p.title, p.count);
  }

  /** The privacy status is everything before the first `]`; the rest follows `] `. */
  lemma PrivacyReadsBack(privacy: string, rest: string)
    requires ']' !in privacy
    ensures var body := privacy + ReportClose + rest;
      var close := IndexOf(body, ']');
      && close == |privacy|
      && body[close..close + |ReportClose|] == ReportClose
      && body[..close] == privacy
      && body[close + |ReportClose|..] == rest
  {
    var body := privacy + ReportClose + rest;
    assert body == privacy + (ReportClose + rest);
    IndexOfAppend(privacy, ReportClose + rest, ']');
    assert body[|privacy|..|privacy| + |ReportClose|] == ReportClose;
    assert body[|privacy| + |ReportClose|..] == rest;
    assert body[..|privacy|] == privacy;
  }

  lemma TitleCountReadsBack(title: string, count: int)
    ensures ParseTitleCount(title + " (" + DecimalString(count) + VideosSuffix) == Some((title, count))
  {
    var digits := DecimalString(count);
    var tail := digits + VideosSuffix;
    var rest := title + " (" + digits + VideosSuffix;
    DecimalHasOnly(count, '(');
    assert '(' !in tail;
    assert rest == (title + " (") + tail;
    LastIndexOfAppend(title + " (", tail, '(');
    assert rest[|title| + 2..] == tail;
    assert rest[..|title|] == title;
    assert tail[|tail| - |VideosSuffix|..] == VideosSuffix;
    assert tail[..|tail| - |VideosSuffix|] == digits;
    DecimalRoundTrip(count);
  }

  /** The report lines for some playlists, one per playlist in order. */
  function ReportLines(ps: seq<Playlist>): (lines: seq<string>)
    ensures |lines| == |ps|
  {
    seq(|ps|, j requires 0 <= j < |ps| => ReportLine(ps[j]))
  }

  lemma ReportLinesAppend(a: seq<Playlist>, b: seq<Playlist>)
    ensures ReportLines(a + b) == ReportLines(a) + ReportLines(b)
  {
    assert forall j :: 0 <= j < |a| ==> (a + b)[j] == a[j];
    assert forall j :: |a| <= j < |a| + |b| ==> (a + b)[j] == b[j - |a|];
  }

  lemma ReportStep(printed: seq<string>, ps: seq<Playlist>, p: Playlist)
    ensures printed + ReportLines(ps) + [ReportLine(p)] == printed + ReportLines(ps + [p])
  {
    ReportLinesAppend(ps, [p]);
  }

  lemma ReportAfterPage(before: seq<Playlist>, page: seq<Playlist>)
    ensures [FetchingLine] + ReportLines(before) + ReportLines(page) == [FetchingLine] + ReportLines(before + page)
  {
    ReportLinesAppend(before, page);
  }

  // ----- the summary -----

  const FetchingLine := "Fetching playlists..."
  const TotalPrefix := "\nTotal playlists found: "
  const UnlistedPrefix := "Unlisted playlists: "

  /** `\nTotal playlists found: {len(playlists)}` */
  function TotalLine(n: nat): string
  {
    TotalPrefix + DecimalString(n)
  }

  /** `Unlisted playlists: {len(unlisted)}` */
  function UnlistedCountLine(n: nat): string
  {
    UnlistedPrefix + DecimalString(n)
  }

  /** `  - {title} (ID: {id})` */
  function UnlistedEntry(p: Playlist): string
  {
    EntryPrefix + p.title + " (" + IdOpen + p.id + ")"
  }

  const EntryPrefix := "  - "
  const IdOpen := "ID: "

  /** Reads an unlisted entry back: the title and the id. */
  function ParseUnlistedEntry(line: string): Option<(string, string)>
  {
    if |line| < |EntryPrefix| || line[..|EntryPrefix|] != EntryPrefix then None
    else ParseTitleId(line[|EntryPrefix|..])
  }

  /** Reads `{title} (ID: {id})` back: the title up to the last ` (`, and the id inside the parentheses. */
  function ParseTitleId(rest: string): Option<(string, string)>
  {
    var open := LastIndexOf(rest, '(');
    if open < 1 || rest[open - 1] != ' ' then None
    else
      var tail := rest[open + 1..];
      if |tail| < |IdOpen| + 1 || tail[..|IdOpen|] != IdOpen || tail[|tail| - 1] != ')' then None
      else Some((rest[..open - 1], tail[|IdOpen|..|tail| - 1]))
  }

  /**
   * An unlisted entry gives back the title and the id it was printed from,
   * whatever the title holds, as long as the id holds no `(`.
   */
  lemma UnlistedEntryReadsBack(p: Playlist)
    requires '(' !in p.id
    ensures ParseUnlistedEntry(UnlistedEntry(p)) == Some((p.title, p.id))
  {
    var rest := p.title + " (" + IdOpen + p.id + ")";
    assert UnlistedEntry(p) == EntryPrefix + rest;
    assert UnlistedEntry(p)[|EntryPrefix|..] == rest;
    TitleIdReadsBack(p.title, p.id);
  }

  lemma TitleIdReadsBack(title: string, id: string)
    requires '(' !in id
    ensures ParseTitleId(title + " (" + IdOpen + id + ")") == Some((title, id))
  {
    var tail := IdOpen + id + ")";
    var rest := title + " (" + IdOpen + id + ")";
    assert '(' !in IdOpen + id;
    assert rest == (title + " (") + tail;
    LastIndexOfAppend(title + " (", tail, '(');
    assert rest[|title| + 2..] == tail;
    assert rest[..|title|] == title;
    assert tail[..|IdOpen|] == IdOpen;
    assert tail[|IdOpen|..|tail| - 1] == id;
  }

  function UnlistedEntries(ps: seq<Playlist>): (lines: seq<string>)
    ensures |lines| == |ps|
  {
    seq(|ps|, j requires 0 <= j < |ps| => UnlistedEntry(ps[j]))
  }

  /**
   * `[p for p in playlists if p['privacy'] == 'unlisted']`: no longer than
   * the list, and holding exactly the playlists whose privacy status is
   * `unlisted`.
   */
  function Unlisted(ps: seq<Playlist>): (u: seq<Playlist>)
    ensures |u| <= |ps|
    ensures forall p :: p in u <==> p in ps && p.privacy == "unlisted"
  {
    if |ps| == 0 then []
    else
      var rest := Unlisted(ps[1..]);
      assert forall p :: p in ps <==> p == ps[0] || p in ps[1..];
      if ps[0].privacy == "unlisted" then [ps[0]] + rest else rest
  }

  /** `a` is `b` with some elements left out, the others in their order. */
  predicate IsSubsequence<T(==)>(a: seq<T>, b: seq<T>)
    decreases |b|
  {
    |a| == 0 || (|b| > 0 && if a[0] == b[0] then IsSubsequence(a[1..], b[1..]) else IsSubsequence(a, b[1..]))
  }

  /** The filter keeps the order of the listing. */
  lemma {:induction false} UnlistedKeepsOrder(ps: seq<Playlist>)
    ensures IsSubsequence(Unlisted(ps), ps)
  {
    if |ps| > 0 {
      UnlistedKeepsOrder(ps[1..]);
      if ps[0].privacy == "unlisted" {
        assert ([ps[0]] + Unlisted(ps[1..]))[1..] == Unlisted(ps[1..]);
      } else {
        KeepsOrderSkip(Unlisted(ps[1..]), ps);
      }
    }
  }

  lemma KeepsOrderSkip(a: seq<Playlist>, b: seq<Playlist>)
    requires |b| > 0 && IsSubsequence(a, b[1..])
    requires forall k :: 0 <= k < |a| ==> a[k].privacy == "unlisted"
    requires b[0].privacy != "unlisted"
    ensures IsSubsequence(a, b)
  {
    if |a| > 0 {
      assert a[0] != b[0];
    }
  }

  /** Filtering a concatenation filters each part. */
  lemma {:induction false} UnlistedAppend(a: seq<Playlist>, b: seq<Playlist>)
    ensures Unlisted(a + b) == Unlisted(a) + Unlisted(b)
  {
    if |a| > 0 {
      assert (a + b)[1..] == a[1..] + b;
      UnlistedAppend(a[1..], b);
    } else {
      assert a + b == b;
    }
  }

  /** What the script prints once the listing is complete. */
  function Summary(ps: seq<Playlist>): seq<string>
  {
    [TotalLine(|ps|), UnlistedCountLine(|Unlisted(ps)|)] + UnlistedEntries(Unlisted(ps))
  }

  /** Everything printed from "Fetching playlists..." on, for the playlists found. */
  function Output(ps: seq<Playlist>, finished: bool): seq<string>
  {
    [FetchingLine] + ReportLines(ps) + (if finished then Summary(ps) else [])
  }

  lemma OutputCases(ps: seq<Playlist>)
    ensures Output(ps, false) == [FetchingLine] + ReportLines(ps)
    ensures Output(ps, true) == [FetchingLine] + ReportLines(ps) + Summary(ps)
  {
  }

  /**
   * The total printed is the number of report lines printed, and the unlisted
   * count is at most that and is the number of entries printed after it.
   */
  lemma SummaryCounts(ps: seq<Playlist>)
    ensures var out := Output(ps, true);
      var report := out[1..1 + |ps|];
      var total := out[1 + |ps|];
      var unlisted := out[2 + |ps|];
      && |out| == 3 + |ps| + |Unlisted(ps)|
      && total[..|TotalPrefix|] == TotalPrefix
      && ParseDecimal(total[|TotalPrefix|..]) == Some(|report|)
      && unlisted[..|UnlistedPrefix|] == UnlistedPrefix
      && ParseDecimal(unlisted[|UnlistedPrefix|..]) == Some(|out| - 3 - |report|)
      && |Unlisted(ps)| <= |report|
  {
    var out := Output(ps, true);
    assert out[1..1 + |ps|] == ReportLines(ps);
    assert out[1 + |ps|] == TotalLine(|ps|);
    assert out[2 + |ps|] == UnlistedCountLine(|Unlisted(ps)|);
    DecimalRoundTrip(|ps|);
    DecimalRoundTrip(|Unlisted(ps)|);
  }

  // ----- the script -----

  /**
   * `list_all_playlists` from the playlist fetch on. A failed request or a
   * malformed item is not caught: the run ends there, after the report lines
   * of the playlists gathered so far and without the summary. `requested`
   * are the page tokens sent, one per request.
   */
  method ListAllPlaylists(rs: seq<Response<RawPlaylist>>)
    returns (playlists: seq<Playlist>, printed: seq<string>, finished: bool, requested: seq<Option<string>>)
    requires Ends(rs)
    ensures var l := Paginate(rs, ToPlaylist, None);
      && playlists == l.records
      && finished == l.completed
      && printed == Output(playlists, finished)
      && requested == l.requests
  {
    ghost var whole := Paginate(rs, ToPlaylist, None);
    playlists := [];
    printed := [FetchingLine];
    finished := false;
    requested := [];
    var nextPageToken: Option<string> := None;
    var k := 0;
    while true
      invariant 0 <= k < |rs| && Ends(rs[k..])
      invariant whole.records == playlists + Paginate(rs[k..], ToPlaylist, nextPageToken).records
      invariant whole.completed == Paginate(rs[k..], ToPlaylist, nextPageToken).completed
      invariant whole.requests == requested + Paginate(rs[k..], ToPlaylist, nextPageToken).requests
      invariant printed == [FetchingLine] + ReportLines(playlists)
      decreases |rs| - k
    {
      ghost var sent := requested;
      requested := requested + [nextPageToken];
      var response := rs[k];
      if response.Fail? {
        StepFail(rs, k, ToPlaylist, nextPageToken);
        OutputCases(playlists);
        return;
      }
      var malformed;
      ghost var before := playlists;
      playlists, printed, malformed := ReportPage(playlists, printed, ItemsOf(response));
      ReportAfterPage(before, ConvertPage(ItemsOf(response), ToPlaylist).0);
      if malformed {
        StepLast(rs, k, ToPlaylist, nextPageToken);
        OutputCases(playlists);
        return;
      }
      if !Continues(response.nextPageToken) {
        StepLast(rs, k, ToPlaylist, nextPageToken);
        break;
      }
      StepNext(rs, k, ToPlaylist, nextPageToken, before, sent);
      nextPageToken := response.nextPageToken;
      k := k + 1;
    }
    finished := true;
    printed := PrintSummary(printed, playlists);
    OutputCases(playlists);
  }

  /** The lines printed after the loop: the total, the unlisted count and one entry per unlisted playlist. */
  method PrintSummary(printed: seq<string>, playlists: seq<Playlist>) returns (out: seq<string>)
    ensures out == printed + Summary(playlists)
  {
    out := printed + [TotalLine(|playlists|)];
    var unlisted := Unlisted(playlists);
    out := out + [UnlistedCountLine(|unlisted|)];
    ghost var head := out;
    for i := 0 to |unlisted|
      invariant out == head + UnlistedEntries(unlisted[..i])
    {
      assert unlisted[..i + 1] == unlisted[..i] + [unlisted[i]];
      out := out + [UnlistedEntry(unlisted[i])];
    }
    assert unlisted[..|unlisted|] == unlisted;
  }

  /**
   * The loop over one page's items: builds each record, appends it and
   * prints its report line, stopping at the first malformed item.
   */
  method ReportPage(playlists: seq<Playlist>, printed: seq<string>, items: seq<RawPlaylist>)
    returns (found: seq<Playlist>, out: seq<string>, malformed: bool)
    ensures found == playlists + ConvertPage(items, ToPlaylist).0
    ensures out == printed + ReportLines(ConvertPage(items, ToPlaylist).0)
    ensures malformed == !ConvertPage(items, ToPlaylist).1
  {
    ghost var page := ConvertPage(items, ToPlaylist);
    found := playlists;
    out := printed;
    malformed := false;
    var i := 0;
    while i < |items|
      invariant 0 <= i <= |page.0|
      invariant found == playlists + page.0[..i]
      invariant out == printed + ReportLines(page.0[..i])
      invariant i == |items| ==> page.1
    {
      ConvertStep(items, ToPlaylist, i);
      var playlist := ToPlaylist(items[i]);
      if playlist.None? {
        malformed := true;
        return;
      }
      ReportStep(printed, page.0[..i], playlist.value);
      found := found + [playlist.value];
      out := out + [ReportLine(playlist.value)];
      i := i + 1;
    }
  }
}
