/** The pure parts of `mostrar_opcoes`: the type column and the 20-row window. */
module Presenter {
  import opened Formats
  import opened Filter

  /** The most rows the menu prints. */
  const MaxRows: nat := 20

  /** The "Tipo" column of a row. */
  function TypeLabel(o: DisplayOption): (r: string)
    ensures r == "Vídeo + Áudio" <==> o.hasVideo && o.hasAudio
    ensures r == "Vídeo" <==> o.hasVideo && !o.hasAudio
    ensures r == "Áudio" <==> !o.hasVideo
  {
    if o.hasVideo && o.hasAudio then "Vídeo + Áudio"
    else if o.hasVideo then "Vídeo"
    else "Áudio"
  }

  /** `formatos[:20]`: the options that get a numbered row. */
  function Shown(options: seq<DisplayOption>): (r: seq<DisplayOption>)
    ensures |r| <= MaxRows && r <= options
    ensures |options| <= MaxRows ==> r == options
    ensures |options| > MaxRows ==> |r| == MaxRows
  {
    options[..if |options| < MaxRows then |options| else MaxRows]
  }

  /** On the filter's output the label "Áudio" only ever marks audio-only options. */
  lemma ListedAudioIsAudio(formats: seq<Format>)
    requires FilteredSorted(formats).Some?
    ensures var out := FilteredSorted(formats).value;
      forall k :: 0 <= k < |out| && TypeLabel(out[k]) == "Áudio" ==> out[k].hasAudio && !out[k].hasVideo
  {
    FilterSound(formats);
  }
}
