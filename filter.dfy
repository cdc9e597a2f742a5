/**
 * `filtrar_formatos`: the loop that keeps the records with video or audio
 * and projects them, then the stable sort by `(not tem_video, -height)`.
 * `FilteredSorted` is its specification; the lemmas state what the result
 * means for the options themselves.
 */
module Filter {
  import opened Wrappers
  import opened Formats
  import opened Ranking
  import opened Sorting

  /** The result of `filtrar_formatos`, or None where the sort key raises ValueError. */
  function FilteredSorted(formats: seq<Format>): Option<seq<DisplayOption>> {
    match Decorate(Kept(formats))
    case None => None
    case Some(ks) => Some(Options(InsertionSort(ks)))
  }

  /** The options of s whose key is k, in their order in s. */
  function WithKey(s: seq<DisplayOption>, k: Rank): seq<DisplayOption> {
    if s == [] then []
    else WithKey(s[..|s| - 1], k) + (if RankOf(s[|s| - 1]) == Some(k) then [s[|s| - 1]] else [])
  }

  /** The loop of `filtrar_formatos`: keeps the records with a video or an audio stream, projected. */
  method KeepPlayable(formats: seq<Format>) returns (opcoes: seq<DisplayOption>)
    ensures opcoes == Kept(formats)
  {
    opcoes := [];
    for i := 0 to |formats|
      invariant opcoes == Kept(formats[..i])
    {
      ghost var next := formats[..i + 1];
      assert next[..i] == formats[..i] && next[i] == formats[i];
      assert Kept(next) == opcoes + (if Keeps(formats[i]) then [Project(formats[i])] else []);
      var f := formats[i];
      var vcodec := Codec(f.vcodec);
      var acodec := Codec(f.acodec);
      var filesize := if TruthySize(f.filesize) then f.filesize
                      else if f.filesizeApprox.Absent? then Present(0) else f.filesizeApprox;
      var temVideo := vcodec != Some("none");
      var temAudio := acodec != Some("none");
      if !temVideo && !temAudio {
        continue;
      }
      var tamanho := if TruthySize(filesize) then Megabytes(filesize.value) else NotAvailable;
      assert tamanho == SizeOf(f);
      var opcao := DisplayOption(
        TextOr(f.formatId),
        TextOr(f.ext),
        TextOr(f.resolution),
        if TruthyFps(f.fps) then Some(f.fps.value) else None,
        temVideo,
        temAudio,
        tamanho,
        vcodec);
      assert opcao == Project(f);
      opcoes := opcoes + [opcao];
    }
    assert formats[..|formats|] == formats;
  }

  /**
   * The sort computes the key of every option before its first comparison,
   * so one key whose `int()` raises makes the whole call raise.
   */
  method ComputeKeys(opcoes: seq<DisplayOption>) returns (r: Option<seq<Keyed>>)
    ensures r == Decorate(opcoes)
    ensures r.Some? <==> Rankable(opcoes)
  {
    var keyed: seq<Keyed> := [];
    for k := 0 to |opcoes|
      invariant |keyed| == k
      invariant forall j :: 0 <= j < k ==> RankOf(opcoes[j]).Some? && keyed[j] == Keyed(RankOf(opcoes[j]).value, opcoes[j])
    {
      var key := RankOf(opcoes[k]);
      if key.None? {
        assert !Rankable(opcoes);
        return None;
      }
      keyed := keyed + [Keyed(key.value, opcoes[k])];
    }
    r := Some(keyed);
    assert Rankable(opcoes);
    assert Decorate(opcoes).value == keyed;
  }

  /** `filtrar_formatos`: the filter loop, then the stable sort by key. */
  method FilterFormats(formats: seq<Format>) returns (r: Option<seq<DisplayOption>>)
    ensures r == FilteredSorted(formats)
    ensures r.Some? <==> Rankable(Kept(formats))
  {
    var opcoes := KeepPlayable(formats);
    var keys := ComputeKeys(opcoes);
    if keys.None? {
      return None;
    }
    var keyed := keys.value;
    var a := new Keyed[|keyed|](j requires 0 <= j < |keyed| => keyed[j]);
    assert a[..] == keyed;
    SortInPlace(a);
    r := Some(Options(a[..]));
  }

  lemma OptionsAppend(a: seq<Keyed>, b: seq<Keyed>)
    ensures Options(a + b) == Options(a) + Options(b)
  {
  }

  lemma {:induction false} OptionsInsert(s: seq<Keyed>, x: Keyed)
    ensures multiset(Options(Insert(s, x))) == multiset(Options(s)) + multiset{x.option}
  {
    if s == [] || RankLe(s[|s| - 1].rank, x.rank) {
      OptionsAppend(s, [x]);
    } else {
      var init, last := s[..|s| - 1], s[|s| - 1];
      OptionsInsert(init, x);
      OptionsAppend(Insert(init, x), [last]);
      assert s == init + [last];
      OptionsAppend(init, [last]);
    }
  }

  lemma {:induction false} OptionsSort(s: seq<Keyed>)
    ensures multiset(Options(InsertionSort(s))) == multiset(Options(s))
  {
    if s != [] {
      var init, last := s[..|s| - 1], s[|s| - 1];
      OptionsSort(init);
      OptionsInsert(InsertionSort(init), last);
      assert s == init + [last];
      OptionsAppend(init, [last]);
    }
  }

  lemma SortConsistent(s: seq<Keyed>)
    requires Consistent(s)
    ensures Consistent(InsertionSort(s))
  {
    forall e | e in InsertionSort(s) ensures RankOf(e.option) == Some(e.rank) {
      SortPermutes(s);
      assert e in multiset(InsertionSort(s));
    }
  }

  lemma {:induction false} OptionsWithRank(s: seq<Keyed>, k: Rank)
    requires Consistent(s)
    ensures Options(WithRank(s, k)) == WithKey(Options(s), k)
  {
    if s != [] {
      var init, last := s[..|s| - 1], s[|s| - 1];
      assert Consistent(init) by {
        forall e | e in init ensures RankOf(e.option) == Some(e.rank) {
          assert e in s;
        }
      }
      assert last in s;
      OptionsWithRank(init, k);
      assert Options(s)[..|s| - 1] == Options(init);
      OptionsAppend(WithRank(init, k), if last.rank == k then [last] else []);
    }
  }

  /** The filter raises exactly when some kept option has a resolution whose text after 'x' is not a number. */
  lemma FilterRaises(formats: seq<Format>)
    ensures FilteredSorted(formats).None? <==>
      exists k :: 0 <= k < |Kept(formats)| && RankOf(Kept(formats)[k]).None?
  {
    assert FilteredSorted(formats).None? <==> !Rankable(Kept(formats));
  }

  /** Nothing is lost or invented: the result is a permutation of the kept projections. */
  lemma FilterPermutation(formats: seq<Format>)
    requires FilteredSorted(formats).Some?
    ensures multiset(FilteredSorted(formats).value) == multiset(Kept(formats))
  {
    var ks := Decorate(Kept(formats)).value;
    DecorateConsistent(Kept(formats));
    OptionsSort(ks);
  }

  /** Every option of the result has video or audio. */
  lemma FilterSound(formats: seq<Format>)
    requires FilteredSorted(formats).Some?
    ensures forall k :: 0 <= k < |FilteredSorted(formats).value| ==>
      FilteredSorted(formats).value[k].hasVideo || FilteredSorted(formats).value[k].hasAudio
  {
    var out := FilteredSorted(formats).value;
    FilterPermutation(formats);
    KeptSound(formats);
    forall k | 0 <= k < |out| ensures out[k].hasVideo || out[k].hasAudio {
      assert out[k] in multiset(Kept(formats));
      var i :| 0 <= i < |Kept(formats)| && Kept(formats)[i] == out[k];
    }
  }

  /** The result in terms of the keyed, sorted list it comes from. */
  lemma FilterKeys(formats: seq<Format>)
    requires FilteredSorted(formats).Some?
    ensures var out := FilteredSorted(formats).value;
      Rankable(out) && Sorted(InsertionSort(Decorate(Kept(formats)).value)) &&
      forall k :: 0 <= k < |out| ==> Some(InsertionSort(Decorate(Kept(formats)).value)[k].rank) == RankOf(out[k])
  {
    var ks := Decorate(Kept(formats)).value;
    var t := InsertionSort(ks);
    DecorateConsistent(Kept(formats));
    SortConsistent(ks);
    SortSorted(ks);
    forall k | 0 <= k < |t| ensures RankOf(t[k].option) == Some(t[k].rank) {
      assert t[k] in t;
    }
  }

  /** Every option with video comes before every option without video. */
  lemma FilterVideoFirst(formats: seq<Format>)
    requires FilteredSorted(formats).Some?
    ensures var out := FilteredSorted(formats).value;
      forall i, j :: 0 <= i < j < |out| && out[j].hasVideo ==> out[i].hasVideo
  {
    FilterKeys(formats);
  }

  /** Among options with the same video flag, the larger key height comes first. */
  lemma FilterTallerFirst(formats: seq<Format>)
    requires FilteredSorted(formats).Some?
    ensures var out := FilteredSorted(formats).value;
      Rankable(out) &&
      forall i, j :: 0 <= i < j < |out| && out[i].hasVideo == out[j].hasVideo ==>
        RankOf(out[i]).value.negHeight <= RankOf(out[j]).value.negHeight
  {
    FilterKeys(formats);
  }

  /** Stability: the options sharing any one key appear in their input order. */
  lemma FilterStable(formats: seq<Format>, k: Rank)
    requires FilteredSorted(formats).Some?
    ensures WithKey(FilteredSorted(formats).value, k) == WithKey(Kept(formats), k)
  {
    var ks := Decorate(Kept(formats)).value;
    DecorateConsistent(Kept(formats));
    SortConsistent(ks);
    SortStable(ks, k);
    OptionsWithRank(ks, k);
    OptionsWithRank(InsertionSort(ks), k);
  }

  /** When every record lacks both video and audio, the result is empty. */
  lemma FilterNothingPlayable(formats: seq<Format>)
    requires forall i :: 0 <= i < |formats| ==> !Keeps(formats[i])
    ensures FilteredSorted(formats) == Some([])
  {
    KeptEmpty(formats);
  }
}
