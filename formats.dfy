/**
 * The format records that yt-dlp reports (one JSON object per format) and
 * the display options that `filtrar_formatos` projects them to.
 */
module Formats {
  import opened Wrappers

  /** One member of a JSON object as `dict.get` sees it: missing, null, or a value. */
  datatype Field<T> = Absent | Null | Present(value: T)

  /** A raw format record; the string members default to "" when missing. */
  datatype Format = Format(
    formatId: Option<string>,
    ext: Option<string>,
    resolution: Option<string>,
    fps: Field<real>,
    vcodec: Field<string>,
    acodec: Field<string>,
    filesize: Field<int>,
    filesizeApprox: Field<int>)

  /** The size column: "N/A", or the byte count shown as megabytes with one decimal. */
  datatype SizeLabel = NotAvailable | Megabytes(bytes: int)

  /** The option record built for each kept format. */
  datatype DisplayOption = DisplayOption(
    id: string,
    ext: string,
    resolution: string,
    fps: Option<real>,        // Some(v) is the text "<v> fps", None the empty text
    hasVideo: bool,
    hasAudio: bool,
    size: SizeLabel,
    vcodec: Option<string>)   // None is a JSON null codec

  function TextOr(s: Option<string>): string {
    match s
    case None => ""
    case Some(t) => t
  }

  /** `f.get(codec, "none")`: a missing codec reads as "none"; None is a JSON null. */
  function Codec(c: Field<string>): Option<string> {
    match c
    case Absent => Some("none")
    case Null => None
    case Present(s) => Some(s)
  }

  /** `codec != "none"`. */
  predicate HasStream(c: Field<string>) {
    Codec(c) != Some("none")
  }

  predicate TruthySize(n: Field<int>) {
    n.Present? && n.value != 0
  }

  predicate TruthyFps(v: Field<real>) {
    v.Present? && v.value != 0.0
  }

  /** `filesize = f.get("filesize") or f.get("filesize_approx", 0)`, then "N/A" when falsy. */
  function SizeOf(f: Format): SizeLabel {
    if TruthySize(f.filesize) then Megabytes(f.filesize.value)
    else if TruthySize(f.filesizeApprox) then Megabytes(f.filesizeApprox.value)
    else NotAvailable
  }

  /** The records that survive the filter: those with video or audio. */
  predicate Keeps(f: Format) {
    HasStream(f.vcodec) || HasStream(f.acodec)
  }

  function Project(f: Format): DisplayOption {
    DisplayOption(
      TextOr(f.formatId),
      TextOr(f.ext),
      TextOr(f.resolution),
      if TruthyFps(f.fps) then Some(f.fps.value) else None,
      HasStream(f.vcodec),
      HasStream(f.acodec),
      SizeOf(f),
      Codec(f.vcodec))
  }

  /** The list the loop of `filtrar_formatos` builds, in input order. */
  function Kept(s: seq<Format>): seq<DisplayOption> {
    if s == [] then []
    else Kept(s[..|s| - 1]) + (if Keeps(s[|s| - 1]) then [Project(s[|s| - 1])] else [])
  }

  /** A codec is present unless it is the text "none" or missing; a JSON null counts as present. */
  lemma StreamPresence(c: Field<string>)
    ensures HasStream(c) <==> c == Null || (c.Present? && c.value != "none")
  {
  }

  /** "N/A" exactly when both sizes are missing, null or zero; otherwise the exact size wins. */
  lemma SizeNotAvailable(f: Format)
    ensures Project(f).size == NotAvailable <==> !TruthySize(f.filesize) && !TruthySize(f.filesizeApprox)
    ensures Project(f).size.Megabytes? ==>
      Project(f).size.bytes == if TruthySize(f.filesize) then f.filesize.value else f.filesizeApprox.value
  {
  }

  /** Every kept option has video or audio. */
  lemma {:induction false} KeptSound(s: seq<Format>)
    ensures forall k :: 0 <= k < |Kept(s)| ==> Kept(s)[k].hasVideo || Kept(s)[k].hasAudio
  {
    if s != [] {
      KeptSound(s[..|s| - 1]);
    }
  }

  /** Every record with video or audio is projected into the list. */
  lemma {:induction false} KeptComplete(s: seq<Format>)
    ensures forall i :: 0 <= i < |s| && Keeps(s[i]) ==> Project(s[i]) in Kept(s)
  {
    if s != [] {
      var init := s[..|s| - 1];
      KeptComplete(init);
      forall i | 0 <= i < |s| && Keeps(s[i])
        ensures Project(s[i]) in Kept(s)
      {
        if i < |init| {
          assert s[i] == init[i];
        }
      }
    }
  }

  /** Nothing else enters the list: each option is the projection of a kept record. */
  lemma {:induction false} KeptOrigin(s: seq<Format>)
    ensures forall o :: o in Kept(s) ==> exists i :: 0 <= i < |s| && Keeps(s[i]) && Project(s[i]) == o
  {
    if s != [] {
      var init := s[..|s| - 1];
      KeptOrigin(init);
      forall o | o in Kept(s)
        ensures exists i :: 0 <= i < |s| && Keeps(s[i]) && Project(s[i]) == o
      {
        if o in Kept(init) {
          var i :| 0 <= i < |init| && Keeps(init[i]) && Project(init[i]) == o;
          assert s[i] == init[i];
        } else {
          assert Keeps(s[|s| - 1]) && Project(s[|s| - 1]) == o;
        }
      }
    }
  }

  /** The list is empty exactly when no record has video or audio. */
  lemma {:induction false} KeptEmpty(s: seq<Format>)
    ensures Kept(s) == [] <==> forall i :: 0 <= i < |s| ==> !Keeps(s[i])
  {
    KeptComplete(s);
    KeptOrigin(s);
    if Kept(s) != [] {
      assert Kept(s)[0] in Kept(s);
    }
  }
}
