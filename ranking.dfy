/**
 * The sort key of `filtrar_formatos`: `(not tem_video, -height)`, where the
 * height is the number after the first 'x' of the resolution and a
 * resolution without 'x' gets 0. Like `list.sort(key=...)`, the keys are
 * computed once for the whole list before any comparison (`Decorate`).
 */
module Ranking {
  import opened Wrappers
  import opened PyText
  import opened Formats

  /** The key tuple; Python compares tuples lexicographically and False < True. */
  datatype Rank = Rank(noVideo: bool, negHeight: int)

  predicate RankLe(a: Rank, b: Rank) {
    || (!a.noVideo && b.noVideo)
    || (a.noVideo == b.noVideo && a.negHeight <= b.negHeight)
  }

  /** An option together with its computed key. */
  datatype Keyed = Keyed(rank: Rank, option: DisplayOption)

  /** The text before the first 'x', or all of it. */
  function UpToX(s: string): (r: string)
    ensures 'x' !in r
    ensures r <= s
    ensures |r| < |s| ==> s[|r|] == 'x'
  {
    if s == [] || s[0] == 'x' then [] else [s[0]] + UpToX(s[1..])
  }

  /** `s.split("x")[1]`: the text between the first 'x' and the next one or the end. */
  function SecondPiece(s: string): (r: string)
    requires 'x' in s
    ensures 'x' !in r
  {
    if s[0] == 'x' then UpToX(s[1..])
    else
      assert s == [s[0]] + s[1..];
      SecondPiece(s[1..])
  }

  /** The second half of the key; None where `int()` raises ValueError. */
  function HeightKey(resolution: string): Option<int> {
    if 'x' in resolution then
      match ParseInt(SecondPiece(resolution))
      case None => None
      case Some(h) => Some(-h)
    else Some(0)
  }

  function RankOf(o: DisplayOption): (r: Option<Rank>)
    ensures r.Some? ==> r.value.noVideo == !o.hasVideo
  {
    match HeightKey(o.resolution)
    case None => None
    case Some(k) => Some(Rank(!o.hasVideo, k))
  }

  /** Every option has a key: computing the keys does not raise. */
  predicate Rankable(s: seq<DisplayOption>) {
    forall k :: 0 <= k < |s| ==> RankOf(s[k]).Some?
  }

  /** The keys of all options, or None when computing one of them raises. */
  function Decorate(s: seq<DisplayOption>): (r: Option<seq<Keyed>>)
    ensures r.Some? <==> Rankable(s)
    ensures r.Some? ==> |r.value| == |s|
    ensures r.Some? ==> forall k :: 0 <= k < |s| ==> r.value[k] == Keyed(RankOf(s[k]).value, s[k])
  {
    if Rankable(s) then Some(seq(|s|, k requires 0 <= k < |s| && RankOf(s[k]).Some? => Keyed(RankOf(s[k]).value, s[k])))
    else None
  }

  lemma DecorateSnoc(s: seq<DisplayOption>, o: DisplayOption)
    ensures Decorate(s + [o]) ==
      if Decorate(s).Some? && RankOf(o).Some? then Some(Decorate(s).value + [Keyed(RankOf(o).value, o)]) else None
  {
    var t := s + [o];
    assert forall k :: 0 <= k < |s| ==> t[k] == s[k];
    assert t[|s|] == o;
    if Rankable(s) && RankOf(o).Some? {
      assert Rankable(t);
      assert Decorate(t).value == Decorate(s).value + [Keyed(RankOf(o).value, o)];
    } else if !Rankable(s) {
      var k :| 0 <= k < |s| && RankOf(s[k]).None?;
      assert RankOf(t[k]).None?;
    } else {
      assert RankOf(t[|s|]).None?;
    }
  }

  /** Drops the keys again. */
  function Options(ks: seq<Keyed>): (r: seq<DisplayOption>)
    ensures |r| == |ks| && forall k :: 0 <= k < |ks| ==> r[k] == ks[k].option
  {
    seq(|ks|, k requires 0 <= k < |ks| => ks[k].option)
  }

  /** Every key belongs to its option. */
  predicate Consistent(ks: seq<Keyed>) {
    forall e :: e in ks ==> RankOf(e.option) == Some(e.rank)
  }

  /** `split("x")[1]` is the text after the first 'x' up to the next 'x', whatever follows. */
  lemma {:induction false} SecondPieceAfterFirstX(w: string, t: string)
    requires 'x' !in w
    ensures SecondPiece(w + "x" + t) == UpToX(t)
  {
    if w == [] {
      assert w + "x" + t == "x" + t;
      assert ("x" + t)[1..] == t;
    } else {
      assert (w + "x" + t)[1..] == w[1..] + "x" + t;
      SecondPieceAfterFirstX(w[1..], t);
    }
  }

  /** Every text with an 'x' is its first piece, that 'x', and the rest. */
  lemma ResolutionSplits(s: string)
    requires 'x' in s
    ensures var w := UpToX(s);
      'x' !in w && |w| < |s| && s == w + "x" + s[|w| + 1..]
  {
    var w := UpToX(s);
    assert s[|w|] == 'x';
    assert s == s[..|w|] + [s[|w|]] + s[|w| + 1..];
  }

  /** `split("x")[1]` of any text with an 'x': the text after its first 'x', up to the next one. */
  lemma SecondPieceOfResolution(s: string)
    requires 'x' in s
    ensures SecondPiece(s) == UpToX(s[|UpToX(s)| + 1..])
  {
    var w := UpToX(s);
    ResolutionSplits(s);
    SecondPieceAfterFirstX(w, s[|w| + 1..]);
  }

  /**
   * The height part of the key for any resolution: 0 without an 'x', and
   * otherwise minus the number spelled between the first 'x' and the next
   * one, raising exactly when that piece is not a number.
   */
  lemma HeightKeyOfResolution(s: string)
    ensures 'x' !in s ==> HeightKey(s) == Some(0)
    ensures 'x' in s ==>
      var piece := UpToX(s[|UpToX(s)| + 1..]);
      HeightKey(s) == match ParseInt(piece) case None => None case Some(n) => Some(-n)
  {
    if 'x' in s {
      SecondPieceOfResolution(s);
      HeightKeyOfPiece(s, UpToX(s[|UpToX(s)| + 1..]));
    }
  }

  lemma HeightKeyOfPiece(s: string, piece: string)
    requires 'x' in s && SecondPiece(s) == piece
    ensures HeightKey(s) == match ParseInt(piece) case None => None case Some(n) => Some(-n)
  {
  }

  /** For "WxH" with no other 'x', the split takes exactly H. */
  lemma {:induction false} SecondPieceOfDimensions(w: string, h: string)
    requires 'x' !in w && 'x' !in h
    ensures SecondPiece(w + "x" + h) == h
  {
    if w == [] {
      assert w + "x" + h == "x" + h;
      assert UpToX(h) == h;
    } else {
      assert (w + "x" + h)[1..] == w[1..] + "x" + h;
      SecondPieceOfDimensions(w[1..], h);
    }
  }

  /** The key of "WxH" is minus the number H spells; it raises when H is not a number. */
  lemma HeightKeyOfDimensions(w: string, h: string)
    requires 'x' !in w && 'x' !in h
    ensures HeightKey(w + "x" + h) == match ParseInt(h) case None => None case Some(n) => Some(-n)
  {
    var r := w + "x" + h;
    assert r[|w|] == 'x';
    SecondPieceOfDimensions(w, h);
    var p := ParseInt(h);
    assert HeightKey(r) == match p case None => None case Some(n) => Some(-n);
  }

  /**
   * An option whose resolution is "WxH" (no other 'x') ranks by minus the
   * number H spells, and has no rank when `int()` rejects H.
   */
  lemma RankOfDimensions(o: DisplayOption, w: string, h: string)
    requires 'x' !in w && 'x' !in h && o.resolution == w + "x" + h
    ensures RankOf(o) == match ParseInt(h) case None => None case Some(n) => Some(Rank(!o.hasVideo, -n))
  {
    HeightKeyOfDimensions(w, h);
  }

  /** A decorated list is consistent. */
  lemma DecorateConsistent(s: seq<DisplayOption>)
    requires Decorate(s).Some?
    ensures Consistent(Decorate(s).value) && Options(Decorate(s).value) == s
  {
  }
}
