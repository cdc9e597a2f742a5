/** Whole runs of the filter and the dispatcher on small format lists with symbolic widths and heights. */
module Scenarios {
  import opened Wrappers
  import opened PyText
  import opened Formats
  import opened Ranking
  import opened Sorting
  import opened Filter
  import opened Dispatch

  function VideoTrack(id: string, width: string, height: string): Format {
    Format(Some(id), Some("mp4"), Some(width + "x" + height), Present(30.0),
      Present("avc1"), Present("none"), Absent, Absent)
  }

  /** A video track is kept, video-only, and keyed by its height. */
  lemma TrackKey(id: string, width: string, height: string, n: int)
    requires 'x' !in width && 'x' !in height && ParseInt(height) == Some(n)
    ensures Keeps(VideoTrack(id, width, height))
    ensures var o := Project(VideoTrack(id, width, height));
      o.id == id && o.hasVideo && !o.hasAudio && RankOf(o) == Some(Rank(false, -n))
  {
    var o := Project(VideoTrack(id, width, height));
    RankOfDimensions(o, width, height);
  }

  lemma KeptPair(f1: Format, f2: Format)
    requires Keeps(f1) && Keeps(f2)
    ensures Kept([f1]) == [Project(f1)] && Kept([f1, f2]) == [Project(f1), Project(f2)]
  {
    assert [f1][..0] == [];
    assert [f1, f2][..1] == [f1];
  }

  lemma DecoratePair(o1: DisplayOption, o2: DisplayOption)
    requires RankOf(o1).Some? && RankOf(o2).Some?
    ensures Decorate([o1]) == Some([Keyed(RankOf(o1).value, o1)])
    ensures Decorate([o1, o2]) == Some([Keyed(RankOf(o1).value, o1), Keyed(RankOf(o2).value, o2)])
  {
    var none: seq<DisplayOption> := [];
    var k1, k2 := Keyed(RankOf(o1).value, o1), Keyed(RankOf(o2).value, o2);
    assert Decorate(none) == Some([]);
    DecorateSnoc(none, o1);
    assert Decorate(none + [o1]) == Some(Decorate(none).value + [k1]);
    assert Decorate(none).value + [k1] == [k1];
    assert none + [o1] == [o1];
    DecorateSnoc([o1], o2);
    assert Decorate([o1] + [o2]) == Some([k1] + [k2]);
    assert [o1] + [o2] == [o1, o2];
    assert [k1] + [k2] == [k1, k2];
  }

  lemma SortOne(k: Keyed)
    ensures InsertionSort([k]) == [k]
  {
    assert [k][..0] == [];
  }

  lemma FilterOneTrack(id: string, width: string, height: string, n: int)
    requires 'x' !in width && 'x' !in height && ParseInt(height) == Some(n)
    ensures FilteredSorted([VideoTrack(id, width, height)]) == Some([Project(VideoTrack(id, width, height))])
  {
    var f := VideoTrack(id, width, height);
    var o := Project(f);
    TrackKey(id, width, height, n);
    KeptPair(f, f);
    DecoratePair(o, o);
    var k := Keyed(Rank(false, -n), o);
    SortOne(k);
    assert Options([k]) == [o];
  }

  /**
   * One video-only format 137 of any height, chosen by its number 1: the
   * download pairs it with the best audio and merges into mp4.
   */
  lemma VideoOnlyFormatGetsAudio(width: string, height: string, n: int, typedDir: string, url: string, resolve: string -> string)
    requires 'x' !in width && 'x' !in height && ParseInt(height) == Some(n)
    ensures var out := FilteredSorted([VideoTrack("137", width, height)]);
      && out.Some? && |out.value| == 1
      && var command := Command(Choose(ToDecimal(1), out.value), typedDir, url, resolve);
      && command.Some? && |command.value| > 0
      && var reading := Read(ValueFlags, command.value[1..]);
         && Lookup(reading.values, "-f") == Some("137" + PairSuffix)
         && Lookup(reading.values, "--merge-output-format") == Some("mp4")
  {
    var o := Project(VideoTrack("137", width, height));
    FilterOneTrack("137", width, height, n);
    TrackKey("137", width, height, n);
    VideoOnlyPairsAudio(1, [o], typedDir, url, resolve);
  }

  /** Of two video formats, the taller comes out first even when listed second. */
  lemma TallerResolutionFirst(w1: string, h1: string, n1: int, w2: string, h2: string, n2: int)
    requires 'x' !in w1 && 'x' !in w2 && 'x' !in h1 && ParseInt(h1) == Some(n1) && 'x' !in h2 && ParseInt(h2) == Some(n2) && n1 < n2
    ensures var out := FilteredSorted([VideoTrack("22", w1, h1), VideoTrack("137", w2, h2)]);
      && out.Some?
      && out.value == [Project(VideoTrack("137", w2, h2)), Project(VideoTrack("22", w1, h1))]
  {
    var f1, f2 := VideoTrack("22", w1, h1), VideoTrack("137", w2, h2);
    var o1, o2 := Project(f1), Project(f2);
    TrackKey("22", w1, h1, n1);
    TrackKey("137", w2, h2, n2);
    KeptPair(f1, f2);
    DecoratePair(o1, o2);
    var k1, k2 := Keyed(Rank(false, -n1), o1), Keyed(Rank(false, -n2), o2);
    SortOne(k1);
    assert [k1, k2][..1] == [k1];
    assert Insert([k1], k2) == [k2, k1] by {
      assert [k1][..0] == [];
    }
    assert InsertionSort([k1, k2]) == [k2, k1];
  }

  /** The decimal spelling of any number may stand for the height text in the lemmas above. */
  lemma DecimalIsHeight(n: int)
    ensures 'x' !in ToDecimal(n) && ParseInt(ToDecimal(n)) == Some(n)
  {
    var h := ToDecimal(n);
    assert 'x' !in h by {
      forall k | 0 <= k < |h| ensures h[k] != 'x' {
      }
    }
    ParseIntOfDecimal(n);
  }
}
