/**
 * A note's card (src/Components/Card.jsx): the favourite flag, the download
 * file name, the content type used to view the file, and the favourite
 * toggle. The fetches, blobs and window calls are replaced by their outcomes.
 */
module Card {
  import opened Wrappers
  import opened Text
  import opened Http
  import opened Taxonomy
  import opened AuthContext

  /** `s.split(".").pop()`: the text after the last "." of `s`, or all of `s` when it has none. */
  function LastSegment(s: string): (r: string)
    ensures '.' !in r
    ensures |r| <= |s| && r == s[|s| - |r|..]
    ensures |r| < |s| ==> s[|s| - |r| - 1] == '.'
  {
    if s == [] then []
    else if s[|s| - 1] == '.' then []
    else LastSegment(s[..|s| - 1]) + [s[|s| - 1]]
  }

  /** The segment after the last "." of `base + "." + ext` is `ext`, whatever `base` holds. */
  lemma {:induction false} LastSegmentOfDotted(base: string, ext: string)
    requires '.' !in ext
    ensures LastSegment(base + "." + ext) == ext
  {
    var s := base + "." + ext;
    if ext == [] {
      assert s[|s| - 1] == '.';
    } else {
      var init := ext[..|ext| - 1];
      assert s[..|s| - 1] == base + "." + init;
      assert s[|s| - 1] == ext[|ext| - 1];
      assert '.' !in init by {
        forall k | 0 <= k < |init| ensures init[k] != '.' {
          assert init[k] == ext[k];
        }
      }
      LastSegmentOfDotted(base, init);
      assert init + [ext[|ext| - 1]] == ext;
    }
  }

  /** A name without a "." is its own last segment. */
  lemma {:induction false} LastSegmentOfPlain(s: string)
    requires '.' !in s
    ensures LastSegment(s) == s
  {
    if s != [] {
      var last := s[|s| - 1];
      var init := s[..|s| - 1];
      assert last in s;
      assert '.' !in init by {
        forall k | 0 <= k < |init| ensures init[k] != '.' {
          assert init[k] == s[k];
        }
      }
      LastSegmentOfPlain(init);
      assert LastSegment(s) == LastSegment(init) + [last];
      assert init + [last] == s;
    }
  }

  /** `note.filename?.split(".").pop() || "pdf"`. */
  function DownloadExtension(filename: Option<string>): (e: string)
    ensures e != "" && '.' !in e
    ensures filename.None? ==> e == "pdf"
    ensures filename.Some? && LastSegment(filename.value) != "" ==> e == LastSegment(filename.value)
    ensures filename.Some? && LastSegment(filename.value) == "" ==> e == "pdf"
  {
    if filename.None? || LastSegment(filename.value) == "" then "pdf" else LastSegment(filename.value)
  }

  /** `note.title || "file"`. */
  function TitleOr(title: Option<string>): (t: string)
    ensures t != ""
    ensures title.Some? && title.value != "" ==> t == title.value
    ensures title.None? || title.value == "" ==> t == "file"
  {
    if title.Some? && title.value != "" then title.value else "file"
  }

  /** `${note.title || "file"}.${extension}`. */
  function DownloadName(note: Note): string {
    TitleOr(note.title) + "." + DownloadExtension(note.filename)
  }

  /**
   * A note stored as `base.ext` downloads as `title.ext`; one whose name ends
   * in "." or that has no name downloads as a PDF; a name without a "." is
   * taken whole as the extension.
   */
  lemma DownloadNameCases(note: Note, base: string, ext: string)
    requires '.' !in ext && ext != ""
    ensures note.filename == Some(base + "." + ext) ==> DownloadName(note) == TitleOr(note.title) + "." + ext
    ensures note.filename == Some(base + ".") ==> DownloadName(note) == TitleOr(note.title) + ".pdf"
    ensures note.filename.None? ==> DownloadName(note) == TitleOr(note.title) + ".pdf"
    ensures note.filename == Some(ext) ==> DownloadName(note) == TitleOr(note.title) + "." + ext
  {
    if note.filename == Some(base + "." + ext) {
      LastSegmentOfDotted(base, ext);
    } else if note.filename == Some(base + ".") {
      LastSegmentOfDotted(base, "");
      assert base + "." + "" == base + ".";
    } else if note.filename == Some(ext) {
      LastSegmentOfPlain(ext);
    }
  }

  const PdfType: string := "application/pdf"
  const WordType: string := "application/msword"
  const DocxType: string := "application/vnd.openxmlformats-officedocument.wordprocessingml.document"
  const OctetStream: string := "application/octet-stream"

  /** `note.filename?.split(".").pop().toLowerCase()`. */
  function ViewExtension(filename: Option<string>): Option<string> {
    if filename.None? then None else Some(Lower(LastSegment(filename.value)))
  }

  /**
   * The type `handleView` gives the blob: the served type unless it is empty
   * or `application/octet-stream`; then the type the lower-cased extension
   * names (pdf, doc, docx); any other extension keeps the served type.
   */
  function ViewType(blobType: string, filename: Option<string>): (t: string)
    ensures blobType != "" && blobType != OctetStream ==> t == blobType
    ensures (blobType == "" || blobType == OctetStream) && ViewExtension(filename) == Some("pdf") ==> t == PdfType
    ensures (blobType == "" || blobType == OctetStream) && ViewExtension(filename) == Some("doc") ==> t == WordType
    ensures (blobType == "" || blobType == OctetStream) && ViewExtension(filename) == Some("docx") ==> t == DocxType
    ensures ViewExtension(filename) !in {Some("pdf"), Some("doc"), Some("docx")} ==> t == blobType
    ensures t in {blobType, PdfType, WordType, DocxType}
  {
    if blobType != "" && blobType != OctetStream then blobType
    else
      var ext := ViewExtension(filename);
      if ext == Some("pdf") then PdfType
      else if ext == Some("doc") then WordType
      else if ext == Some("docx") then DocxType
      else blobType
  }

  /** An untyped file named `*.PDF` opens as a PDF: the extension is compared in lower case. */
  lemma UpperCasePdfViewsAsPdf(base: string)
    ensures ViewType("", Some(base + ".PDF")) == PdfType
  {
    LastSegmentOfDotted(base, "PDF");
    assert base + "." + "PDF" == base + ".PDF";
    var low := Lower("PDF");
    assert low[0] == 'p' && low[1] == 'd' && low[2] == 'f';
    assert low == "pdf";
    assert ViewExtension(Some(base + ".PDF")) == Some("pdf");
  }

  /** `user?.favoriteNotes?.includes(note._id) ?? false`. */
  function InitialFavourite(user: Option<User>, noteId: string): (f: bool)
    ensures f <==> user.Some? && user.value.favoriteNotes.Some? && noteId in user.value.favoriteNotes.value
  {
    match user
    case None => false
    case Some(u) => u.favoriteNotes.Some? && noteId in u.favoriteNotes.value
  }

  /** `${backend}/notes/${id}`: where a note's file is fetched from. */
  function NoteUrl(backend: string, id: string): string {
    backend + "/notes/" + id
  }

  const DownloadFailed: string := "Failed to download file"
  const ViewFailed: string := "Failed to view file"
  const FavouriteFailed: string := "Could not update favourite status"

  /** The verb of the favourite request. */
  datatype Verb = Post | Delete

  /** The favourite endpoint's reply body. */
  datatype FavouriteReply = FavouriteReply(favoriteNotes: Option<seq<string>>)

  /** The state of a card. */
  class NoteCard {
    const note: Note
    var isFav: bool
    var downloading: bool
    var viewing: bool

    constructor (note: Note, user: Option<User>)
      ensures this.note == note
      ensures isFav == InitialFavourite(user, note.id) && !downloading && !viewing
    {
      this.note := note;
      isFav := InitialFavourite(user, note.id);
      downloading, viewing := false, false;
    }

    /** The effect re-runs when the user changes. */
    method UserChanged(user: Option<User>)
      modifies this`isFav
      ensures isFav == InitialFavourite(user, note.id)
    {
      isFav := InitialFavourite(user, note.id);
    }

    /**
     * `handleDownload`: the file at `NoteUrl` is fetched; a fetched file is saved under `DownloadName`; on
     * failure nothing is saved and the download alert is raised.
     */
    method Download(backend: string, reply: Reply<()>)
      returns (url: string, savedAs: Option<string>, alert: Option<string>)
      modifies this`downloading
      ensures url == NoteUrl(backend, note.id)
      ensures !downloading
      ensures savedAs.Some? <==> reply.Ok?
      ensures savedAs.Some? ==> savedAs.value == DownloadName(note)
      ensures alert == if reply.Ok? then None else Some(DownloadFailed)
    {
      downloading := true;
      url := NoteUrl(backend, note.id);
      if reply.Ok? {
        savedAs, alert := Some(DownloadName(note)), None;
      } else {
        savedAs, alert := None, Some(DownloadFailed);
      }
      downloading := false;
    }

    /**
     * `handleView`: the file at `NoteUrl` is fetched and `reply` carries the
     * served type; a fetched file opens
     * with `ViewType`, and a failure raises the view alert.
     */
    method View(backend: string, reply: Reply<string>)
      returns (url: string, openedAs: Option<string>, alert: Option<string>)
      modifies this`viewing
      ensures url == NoteUrl(backend, note.id)
      ensures !viewing
      ensures openedAs.Some? <==> reply.Ok?
      ensures openedAs.Some? ==> openedAs.value == ViewType(reply.data, note.filename)
      ensures alert == if reply.Ok? then None else Some(ViewFailed)
    {
      viewing := true;
      url := NoteUrl(backend, note.id);
      if reply.Ok? {
        openedAs, alert := Some(ViewType(reply.data, note.filename)), None;
      } else {
        openedAs, alert := None, Some(ViewFailed);
      }
      viewing := false;
    }

    /**
     * `toggleFavourite`: DELETE for a favourite, POST otherwise, to the
     * note's `/favorite` endpoint; the flag
     * flips, and the new list is reported, only after a successful reply;
     * a failure raises the favourite alert instead.
     */
    method ToggleFavourite(backend: string, reply: Reply<FavouriteReply>)
      returns (url: string, verb: Verb, reported: Option<FavouriteReply>, alert: Option<string>)
      modifies this`isFav
      ensures url == NoteUrl(backend, note.id) + "/favorite"
      ensures verb == if old(isFav) then Delete else Post
      ensures isFav == if reply.Ok? then !old(isFav) else old(isFav)
      ensures reported == if reply.Ok? then Some(reply.data) else None
      ensures alert == if reply.Ok? then None else Some(FavouriteFailed)
    {
      url := NoteUrl(backend, note.id) + "/favorite";
      verb := if isFav then Delete else Post;
      if reply.Ok? {
        isFav := !isFav;
        reported, alert := Some(reply.data), None;
      } else {
        reported, alert := None, Some(FavouriteFailed);
      }
    }
  }
}
