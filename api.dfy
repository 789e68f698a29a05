/**
 * The vendor API's JSON shapes that the backend reads (backend/filejump/api/types.go):
 * a listing page and the entries on it.
 */
module Api {
  import opened Wrappers
  import Strconv

  /** Item type tags. */
  const ItemTypeFolder: string := "folder"
  const ItemTypeImage: string := "image"
  const ItemTypeText: string := "text"
  const ItemTypeAudio: string := "audio"
  const ItemTypeVideo: string := "video"
  const ItemTypePdf: string := "pdf"

  /** A time.Time as an instant counted from Go's zero time, so the zero value is 0. */
  type Time = int

  const ZeroTime: Time := 0

  predicate IsZero(t: Time)
  {
    t == ZeroTime
  }

  /**
   * One file or folder entry. Only the fields the backend reads are kept; the others
   * (description, owner, hash, tags, ...) are decoded by Go and never consulted.
   */
  datatype Item = Item(
    id: Strconv.Int64,
    name: string,
    mime: string,
    fileSize: Strconv.Int64,
    createdAt: Time,
    updatedAt: Time,
    itemType: string)
  {
    predicate IsFolder()
    {
      itemType == ItemTypeFolder
    }

    /** The identifier in decimal (strconv.Itoa): never empty, signed exactly when negative. */
    function GetID(): (s: string)
      ensures s != [] && (s[0] == '-' <==> id < 0)
    {
      Strconv.FormatInt(id)
    }

    /**
     * The modification time: the update time when it is set, otherwise the creation time;
     * never an error, and zero only when both are zero.
     */
    function ModTime(): (t: Time)
      ensures !IsZero(updatedAt) ==> t == updatedAt
      ensures IsZero(updatedAt) ==> t == createdAt
      ensures IsZero(t) <==> IsZero(updatedAt) && IsZero(createdAt)
    {
      var t := updatedAt;
      if IsZero(t) then createdAt else t
    }
  }

  /** One page of `GET /drive/file-entries`; nextPage is absent on the last page. */
  datatype FileEntries = FileEntries(
    currentPage: nat,
    data: seq<Item>,
    nextPage: Option<nat>,
    perPage: nat)

  /** "folder" differs from every other declared tag, so the tag splits items into folders and the rest. */
  lemma FolderTagIsDistinct()
    ensures ItemTypeFolder !in [ItemTypeImage, ItemTypeText, ItemTypeAudio, ItemTypeVideo, ItemTypePdf]
  {
  }

  /** GetID is never empty and reads back as the identifier with no error. */
  lemma GetIDRoundTrip(item: Item)
    ensures Strconv.ParseInt(item.GetID()) == Strconv.Parsed(item.id, Strconv.Ok)
    ensures item.GetID() != ""
  {
    Strconv.ParseFormatInt(item.id);
  }

  /** Distinct identifiers give distinct GetID strings. */
  lemma GetIDInjective(a: Item, b: Item)
    requires a.GetID() == b.GetID()
    ensures a.id == b.id
  {
    Strconv.FormatIntInjective(a.id, b.id);
  }
}
