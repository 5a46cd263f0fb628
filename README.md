# youtube-obsidian-sync, modelled in Dafny

Two scripts read the YouTube Data API v3 for the authenticated account.

- `list_playlists.py` pages through the account's playlists. It prints one report line per playlist as it finds it. Then it prints the total, the number of unlisted playlists and one line for each unlisted playlist.
- `sync_to_obsidian.py` pages through the same playlists. For each one it pages through the playlist's videos and writes one Markdown note into the Obsidian vault. The note is named after the sanitized playlist title. At the end it prints how many playlists it processed.

Both scripts walk a paged listing in the same way. A request first goes out with no page token, then with the token the previous page carried. The walk stops at a page whose token is absent or empty. The model states this walk once, as the reference function `Paging.Paginate`. It gives the records gathered, the page tokens sent and whether the walk completed. The three loops of the scripts are imperative methods proved against it, tokens included:

- the playlists loop of the lister, `ListPlaylists.ListAllPlaylists`;
- the video loop, `SyncToObsidian.GetPlaylistVideos`;
- the playlists loop of the syncer, `SyncToObsidian.SyncPlaylists`.

## Modelling choices

- **The remote.** A listing is a finite sequence of responses, and the k-th request gets the k-th response. Each response is either a page (an optional `items` field and an optional `nextPageToken`) or `Fail`, which stands for `request.execute()` raising.
- **The `Ends` precondition.** Its last response stops the walk. This stands for the remote eventually returning a page without a next token.
- **Malformed items.** An item lacking a field the scripts read with `[...]` raises `KeyError`. That is modelled as a record conversion that answers `None`.
  - In `get_playlist_videos` the `try` catches both a failed request and a `KeyError`. The loop stops, and the videos appended so far are returned.
  - In the two playlist loops nothing catches them. The run ends there, with no summary.
- **The video fetch per playlist** is a parameter `fetch`. It gives the listing of the playlist's items for a playlist id.
- **Console output and file writes** are results, not effects.
  - `ListAllPlaylists` returns the printed strings in order.
  - `SyncPlaylists` returns the documents written, in order, and the closing line when it is printed.
  - `Directory` gives the state of the output directory after those writes, starting from the files the directory already held (notes left by earlier runs).
- **Strings** are sequences of characters. `str(int)` is `Text.DecimalString`, with a negative sign where needed. `'\n'.join` is `Text.JoinLines`.

## Model

| member | source | states |
|---|---|---|
| `Paging.Paginate` | list_playlists.py:74-105 | A walk sends at least one request and at most one per response. The first request carries the starting token (none). |
| `Paging.ConvertPage` | list_playlists.py:85-96 | The loop over a page's items yields at most one record per item. It finishes the page exactly when every item yields a record. |
| `Paging.ConvertPagePrefix` | list_playlists.py:85-96 | The records taken from one page are, in order, the conversions of its leading well-formed items. When they are fewer than the page's items, the next item is malformed. |
| `Paging.CompleteListing` | list_playlists.py:74-105 | Suppose every page up to the n-th is well formed, each before it carries a continuing token, and the n-th carries none. Then the walk completes. Its records are all items of those n pages converted in page order. It sends n requests, and each carries the token of the page before. |
| `Paging.CompletedListingIsClean` | list_playlists.py:101-105 | Conversely, a completed walk read only well-formed pages. Each page before the last carried a continuing token (`Continues`: present and non-empty), and the last carried an absent or empty one. |
| `Paging.EmptyPageContinues` | list_playlists.py:85-105 | A page with no items (or no `items` field, which `ItemsOf` reads as `[]`) but a token adds no record and only passes the token on. |
| `Paging.FailedRequestKeepsEarlierPages` | sync_to_obsidian.py:57-76 | A request that fails after k good pages stops the walk, not completed. It keeps exactly the converted items of those k pages, after k + 1 chained requests. |
| `Paging.MalformedItemKeepsEarlierItems` | sync_to_obsidian.py:57-76 | A malformed item on page k stops the walk, not completed. It keeps the items of the earlier pages followed by the well-formed items before it on page k. |
| `Paging.LaterResponsesUnread` | list_playlists.py:101-105 | Responses after the one that stops the walk are never requested and change nothing. |
| `Playlists.ToPlaylist` | list_playlists.py:86-96 | A playlist record comes out exactly when the item has `snippet.title`, `id`, `status.privacyStatus` and `contentDetails.itemCount`. The record holds those four values. |
| `Playlists.RecordCopiesFields` | sync_to_obsidian.py:145-151 | The syncer builds the same record (`ToPlaylist`). An item yields a given record exactly when it is the item carrying that record's four fields. An item with any of the four missing yields none. |
| `ListPlaylists.ListAllPlaylists` | list_playlists.py:69-113 | The playlists gathered, the page tokens sent and whether the walk completed are those of `Paginate`. The printed lines are "Fetching playlists...", one report line per playlist, and the summary only if the walk completed. |
| `ListPlaylists.ReportPage` | list_playlists.py:85-99 | One page appends the records of its leading well-formed items and prints their report lines in the same order. It reports whether it stopped at a malformed item. |
| `ListPlaylists.PrintSummary` | list_playlists.py:107-113 | After the loop it prints the total line, the unlisted count line and one entry per unlisted playlist, in listing order. |
| `ListPlaylists.ReportLineReadsBack` | list_playlists.py:99 | A report line (`ReportLine`, `- [privacy] title (count videos)`) reads back as its privacy status, title and count, whatever the title holds, provided the privacy status holds no `]`. |
| `ListPlaylists.TitleCountReadsBack` | list_playlists.py:99 | The part after the privacy status reads back as the title (up to the last ` (`) and the count. |
| `ListPlaylists.Unlisted` | list_playlists.py:110 | The filtered list is no longer than the list. Its members are exactly the playlists whose privacy status is `unlisted`. |
| `ListPlaylists.UnlistedKeepsOrder` | list_playlists.py:110 | The filtered list is a subsequence of the listing: the order is kept. |
| `ListPlaylists.UnlistedAppend` | list_playlists.py:110 | Filtering a concatenation filters each part. |
| `ListPlaylists.UnlistedEntryReadsBack` | list_playlists.py:113 | An unlisted entry (`UnlistedEntry`, `  - title (ID: id)`) reads back as its title and id, whatever the title holds, provided the id holds no `(`. |
| `ListPlaylists.SummaryCounts` | list_playlists.py:107-113 | In the output after a completed listing (`Output`, ending with `Summary`), the printed total (`TotalLine`) reads back as the number of report lines. The unlisted count (`UnlistedCountLine`) reads back as the number of entries printed after it, and is at most the total. |
| `SyncToObsidian.SanitizeFilename` | sync_to_obsidian.py:42-44 | The name keeps its length. Each of `< > : " / \ \| ? *` becomes `_`, and every other character is kept. |
| `SyncToObsidian.SanitizedIsSafe` | sync_to_obsidian.py:42-44 | No forbidden character is left. |
| `SyncToObsidian.SanitizeIdempotent` | sync_to_obsidian.py:42-44 | Sanitizing twice is sanitizing once. |
| `SyncToObsidian.SanitizeKeepsSafeNames` | sync_to_obsidian.py:42-44 | A name is unchanged exactly when it has no forbidden character. |
| `SyncToObsidian.SanitizeMergesForbidden` | sync_to_obsidian.py:42-44 | Titles differing only in which forbidden character stands at a place get the same file name. |
| `SyncToObsidian.ToVideo` | sync_to_obsidian.py:60-69 | A video record comes out exactly when the item has `snippet` and `contentDetails.videoId`. Its id is that video id. |
| `SyncToObsidian.VideoRecordFromItem` | sync_to_obsidian.py:60-69 | An item yields a video record exactly when `snippet` and `contentDetails.videoId` are present. Absent snippet fields default to 'Unknown Title', '', '' and 'Unknown'. A complete item yields exactly its fields. |
| `SyncToObsidian.GetPlaylistVideos` | sync_to_obsidian.py:46-78 | The videos returned and the page tokens sent are those of `Paginate` over the playlist's items. A failed request or a malformed item ends the fetch with the videos gathered so far. |
| `SyncToObsidian.AppendPageVideos` | sync_to_obsidian.py:60-69 | One page appends the records of its leading well-formed items. It reports whether a malformed item stopped it. |
| `SyncToObsidian.LinkText` | sync_to_obsidian.py:105 | The link text has the title's length, `[` becomes `(` and `]` becomes `)`, and no bracket is left. |
| `SyncToObsidian.SaveToMarkdown` | sync_to_obsidian.py:80-110 | The document written is the sanitized title plus `.md`, holding the header lines and one link per video joined by newlines. |
| `SyncToObsidian.FrontMatterKeys` | sync_to_obsidian.py:87-94 | The note's lines are `MarkdownLines`: the 16 lines of `Header`, then one `VideoLine` per video. The note starts with front matter between two `---` lines. Its keys are id, title, privacy, video_count, url and type, in this order, whatever the fields hold. |
| `SyncToObsidian.FrontMatterValues` | sync_to_obsidian.py:88-93 | The front matter holds the playlist id, the quoted title, the privacy status and the url. Its `video_count` reads back as the number of videos fetched, not the count the playlist reports. |
| `SyncToObsidian.OneLinkPerVideo` | sync_to_obsidian.py:101-107 | After `## Videos` and a blank line there is exactly one link line per video, in order. Each reads back as its bracket-free title and its video id. |
| `SyncToObsidian.VideoLineReadsBack` | sync_to_obsidian.py:105-107 | A link line (`VideoLine`) reads back as its link text and the video id inside its watch URL (`WatchUrl`). |
| `SyncToObsidian.LinkReadsBack` | sync_to_obsidian.py:107 | A `- [text](url)` line whose text has no `]` reads back as that text and url. |
| `SyncToObsidian.EmptyPlaylistDocument` | sync_to_obsidian.py:86-110 | With no videos the note is the header alone, with `video_count: 0`, and its text ends with `## Videos` and a newline. |
| `SyncToObsidian.NoTrailingNewline` | sync_to_obsidian.py:110 | With videos the text ends with the last link's `)`, not a newline. |
| `SyncToObsidian.DocumentReadsBack` | sync_to_obsidian.py:86-110 | The text written (`Render`) is the lines joined by newlines. When the quoted fields have no newline, splitting the text at its newlines gives back exactly the lines built. |
| `SyncToObsidian.FilenameIsSafe` | sync_to_obsidian.py:81-84 | The file name given by `Render` (`MarkdownFilename`) is the sanitized title plus `.md` and has no forbidden character. |
| `SyncToObsidian.LastWriteWins` | sync_to_obsidian.py:109-110 | In the directory after a run's writes (`Directory`), each file name holds the text of the last document written under it. |
| `SyncToObsidian.UnwrittenFilesKept` | sync_to_obsidian.py:109-110 | A file already in the directory that the run does not write, such as the old note of a renamed or deleted playlist, keeps its text. |
| `SyncToObsidian.DirectoryNames` | sync_to_obsidian.py:109-110 | Afterwards the directory holds exactly the files it held before and the names written. |
| `SyncToObsidian.SyncedLineReadsBack` | sync_to_obsidian.py:166 | The closing line (`SyncedLine`) reads back as the number of playlists processed. |
| `SyncToObsidian.SyncPlaylists` | sync_to_obsidian.py:131-166 | It writes one document per playlist of `Paginate`, in listing order (`Documents`), each rendered from that playlist's fetched videos (`VideosOf`). `processed_count` is the number of playlists. The page tokens sent are those of `Paginate`. The closing line is printed exactly when the walk completed, and it carries that count. |
| `SyncToObsidian.WritePage` | sync_to_obsidian.py:145-160 | One page writes a document for each leading well-formed playlist item and counts it. It reports whether a malformed item stopped it. |
| `Text.SplitLines` | sync_to_obsidian.py:110 | Splitting text at its newlines (`SplitLines`, the reader of the written file) gives at least one piece, and no piece holds a newline. |
| `Text.SplitJoin` | sync_to_obsidian.py:110 | Splitting `'\n'.join(lines)` (`JoinLines`) at newlines gives back the lines, when none has a newline. |
| `Text.DecimalString` | sync_to_obsidian.py:91 | `str(i)` is at least one character long. It is all digits for i >= 0, and a minus sign followed by digits for i < 0. |
| `Text.DecimalRoundTrip` | sync_to_obsidian.py:91 | Reading back what `str(i)` prints gives `i`. |
| `Text.ReplaceChar` | sync_to_obsidian.py:105 | `str.replace` on one character keeps the length and replaces each occurrence one for one. |

## Left out

- Authentication (`get_authenticated_service`, the token file), because it is I/O against Google's OAuth flow.
- Channel identification, because it is a separate API call whose result only reaches the console.
- Creating the output directory, because it is a filesystem side effect.
- `manage_o365_role.py`, because it is an unrelated script.
- The fetch of a playlist's videos inside the syncer is the parameter `fetch`, because it is a network call.
- The remote is a fixed sequence of responses with the `Ends` precondition. A remote that keeps sending continuing tokens forever is not modelled, because the scripts would loop forever on it.
- The request parameters (`part`, `mine`, `maxResults`, `playlistId`) are not modelled, because they only shape the remote's answer.
- The syncer's console output is not modelled apart from its closing line. The "Creating directory:", "Authenticated as:", "Syncing playlists to:" and "Processing:" lines report progress only.
- The video fetch's error line is not modelled, because it quotes the exception's message.
- An exception from `open` or `f.write` is not modelled. In the source it is uncaught and ends the sync run, but `SyncPlaylists` always writes every document.
- A failed request and a malformed item are one outcome each. The type of the exception and its message are not modelled.
- `os.path.join(output_dir, filename)` is not modelled: a document carries its file name relative to the output directory.
- The text encoding (`utf-8`) is not modelled, because strings are sequences of characters.
- `ListPlaylists.ReportLineReadsBack`: requires that the privacy status has no `]`. The API's privacy statuses (`public`, `unlisted`, `private`) have none.
- `ListPlaylists.UnlistedEntryReadsBack`: requires that the playlist id has no `(`. YouTube playlist ids are made of letters, digits, `-` and `_`.
- `SyncToObsidian.DirectoryNames`: file names are compared as exact strings. On a file system that ignores case, such as the default one on macOS where the vault lives, `A.md` and `a.md` are one file; the model counts them as two.
- `SyncToObsidian.DocumentReadsBack`: requires that the quoted fields have no newline. A title with a newline would split its line in the written file.
