/**
 * The playlist record both scripts build from one item of a playlists page:
 * `snippet.title`, `id`, `status.privacyStatus` and `contentDetails.itemCount`.
 */
module Playlists {
  import opened Wrappers

  /** The fields of a playlists item that the scripts read; an absent one raises KeyError. */
  datatype RawPlaylist = RawPlaylist(
    title: Option<string>,        // snippet.title
    id: Option<string>,           // id
    privacyStatus: Option<string>, // status.privacyStatus
    itemCount: Option<int>)       // contentDetails.itemCount

  /** `{'title': ..., 'id': ..., 'privacy': ..., 'count': ...}` */
  datatype Playlist = Playlist(title: string, id: string, privacy: string, count: int)

  /**
   * Builds the record, or None where reading a field raises: a record comes
   * out exactly when all four fields are present, and it is the item's fields.
   */
  function ToPlaylist(item: RawPlaylist): (r: Option<Playlist>)
    ensures r.Some? <==> item.title.Some? && item.id.Some? && item.privacyStatus.Some? && item.itemCount.Some?
    ensures r.Some? ==> RawOf(r.value) == item
  {
    if item.title.Some? && item.id.Some? && item.privacyStatus.Some? && item.itemCount.Some?
    then Some(Playlist(item.title.value, item.id.value, item.privacyStatus.value, item.itemCount.value))
    else None
  }

  /** The item that carries exactly the fields of a record. */
  function RawOf(p: Playlist): RawPlaylist
  {
    RawPlaylist(Some(p.title), Some(p.id), Some(p.privacy), Some(p.count))
  }

  /**
   * A record copies the four fields and nothing else: an item yields `p`
   * exactly when it is the item carrying `p`'s four fields. In particular an
   * item missing any of them yields no record.
   */
  lemma RecordCopiesFields(item: RawPlaylist, p: Playlist)
    ensures ToPlaylist(item) == Some(p) <==> item == RawOf(p)
  {
  }
}
