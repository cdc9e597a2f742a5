/**
 * The choice branch of `main`: the normalised menu token and the ranked
 * options decide one action, and each download action has one fixed yt-dlp
 * argument vector.
 */
module Dispatch {
  import opened Wrappers
  import opened PyText
  import opened Formats
  import opened Presenter

  const BestSelector := "bestvideo+bestaudio/best"
  const PairSuffix := "+bestaudio/best"

  datatype Action =
    | Quit                             // "q": leave with status 0
    | ExtractAudio                     // "a": best audio converted to MP3
    | BestQuality                      // "b": yt-dlp's own best pair
    | PairedDownload(selector: string) // a video-only option, paired with separate audio
    | DirectDownload(formatId: string) // any other option, through `baixar`
    | Invalid                          // "Opção inválida.", nothing runs
  {
    /** The format selector the action hands to yt-dlp, if any. */
    function Selector(): Option<string> {
      match this
      case BestQuality => Some(BestSelector)
      case PairedDownload(s) => Some(s)
      case DirectDownload(id) => Some(id)
      case _ => None
    }
  }

  predicate VideoOnly(o: DisplayOption) {
    o.hasVideo && !o.hasAudio
  }

  /** The token is an integer n with 1 <= n <= count. */
  predicate PicksEntry(token: string, count: nat) {
    ParseInt(token).Some? && 1 <= ParseInt(token).value <= count
  }

  /** What a numbered option downloads. */
  function Pick(o: DisplayOption): (r: Action)
    ensures r.Selector() == Some(if VideoOnly(o) then o.id + PairSuffix else o.id)
  {
    if VideoOnly(o) then PairedDownload(o.id + PairSuffix) else DirectDownload(o.id)
  }

  /** The action for an already stripped and lower-cased token. */
  function Choose(token: string, options: seq<DisplayOption>): Action {
    if token == "q" then Quit
    else if token == "a" then ExtractAudio
    else if token == "b" then BestQuality
    else
      Entry(ParseInt(token), options)
  }

  /** `int(escolha) - 1` as an index into the options; ValueError or a bad index is invalid. */
  function Entry(number: Option<int>, options: seq<DisplayOption>): Action {
    match number
    case None => Invalid
    case Some(n) =>
      var idx := n - 1;
      if 0 <= idx < |options| then Pick(options[idx]) else Invalid
  }

  /**
   * Each letter has its own action; any other token downloads exactly when
   * it spells an entry number, and then downloads that entry.
   */
  lemma ChooseCases(token: string, options: seq<DisplayOption>)
    ensures var r := Choose(token, options);
      && (r.Quit? <==> token == "q")
      && (r.ExtractAudio? <==> token == "a")
      && (r.BestQuality? <==> token == "b")
      && (r.Invalid? <==> token !in {"q", "a", "b"} && !PicksEntry(token, |options|))
      && ((r.PairedDownload? || r.DirectDownload?) ==>
            PicksEntry(token, |options|) && r == Pick(options[ParseInt(token).value - 1]))
  {
  }

  /** `input(...).strip() or "."`: the answer stripped, or the current directory when that leaves nothing. */
  function Destination(typed: string): (d: string)
    ensures d != ""
  {
    var answer := Strip(typed);
    if answer == "" then "." else answer
  }

  /**
   * An answer of white space only means the current directory; any other
   * answer means the stretch from its first to its last character that is
   * not white space.
   */
  lemma DestinationTrimmed(typed: string)
    ensures (forall k :: 0 <= k < |typed| ==> IsSpace(typed[k])) ==> Destination(typed) == "."
    ensures (exists k :: 0 <= k < |typed| && !IsSpace(typed[k])) ==>
      exists i, j :: 0 <= i < j <= |typed| && Destination(typed) == typed[i..j]
        && !IsSpace(typed[i]) && !IsSpace(typed[j - 1])
        && (forall k :: 0 <= k < i ==> IsSpace(typed[k]))
        && (forall k :: j <= k < |typed| ==> IsSpace(typed[k]))
  {
    StripSpec(typed, IsSpace);
  }

  function OutputTemplate(dir: string): string {
    dir + "/%(title)s.%(ext)s"
  }

  const CommonFlags: seq<string> :=
    ["yt-dlp", "--js-runtimes", "node", "--remote-components", "ejs:github", "--progress", "--no-playlist"]

  /** The yt-dlp options in these commands that take the following word as their value. */
  const ValueFlags: set<string> :=
    {"--js-runtimes", "--remote-components", "-f", "--merge-output-format", "-o", "--audio-format", "--audio-quality"}

  /** The words after the program name, read as options with values and bare words. */
  datatype Reading = Reading(values: seq<(string, string)>, bare: seq<string>)

  /** Reads words, taking each member of flags together with the word after it. */
  function Read(flags: set<string>, words: seq<string>): Reading {
    if words == [] then Reading([], [])
    else if words[0] in flags && |words| >= 2 then
      var r := Read(flags, words[2..]);
      r.(values := [(words[0], words[1])] + r.values)
    else
      var r := Read(flags, words[1..]);
      r.(bare := [words[0]] + r.bare)
  }

  /** The flags a reader must know to read these commands as yt-dlp does. */
  predicate Recognises(flags: set<string>) {
    && "--js-runtimes" in flags && "--remote-components" in flags
    && "-f" in flags && "--merge-output-format" in flags && "-o" in flags
    && "--audio-format" in flags && "--audio-quality" in flags
    && "--progress" !in flags && "--no-playlist" !in flags && "-x" !in flags
  }

  lemma ValueFlagsRecognised()
    ensures Recognises(ValueFlags)
  {
  }

  /** The value given to the first occurrence of flag. */
  function Lookup(values: seq<(string, string)>, flag: string): Option<string> {
    if values == [] then None
    else if values[0].0 == flag then Some(values[0].1)
    else Lookup(values[1..], flag)
  }

  /**
   * The argument vector run for an action; `resolve` stands for
   * `str(Path(saida).resolve())`, which only `baixar` applies.
   */
  function Command(action: Action, typedDir: string, url: string, resolve: string -> string): Option<seq<string>> {
    var dir := Destination(typedDir);
    match action
    case Quit => None
    case Invalid => None
    case ExtractAudio =>
      Some(CommonFlags + ["-x", "--audio-format", "mp3", "--audio-quality", "0", "-o", OutputTemplate(dir), url])
    case BestQuality =>
      Some(CommonFlags + ["-f", BestSelector, "--merge-output-format", "mp4", "-o", OutputTemplate(dir), url])
    case PairedDownload(selector) =>
      Some(CommonFlags + ["-f", selector, "--merge-output-format", "mp4", "-o", OutputTemplate(dir), url])
    case DirectDownload(formatId) =>
      Some(CommonFlags + ["-f", formatId, "--merge-output-format", "mp4", "-o", OutputTemplate(resolve(dir)), url])
  }

  lemma ReadValue(flags: set<string>, flag: string, value: string, rest: seq<string>)
    requires flag in flags
    ensures Read(flags, [flag, value] + rest) == Read(flags, rest).(values := [(flag, value)] + Read(flags, rest).values)
  {
    assert ([flag, value] + rest)[2..] == rest;
  }

  lemma ReadBare(flags: set<string>, word: string, rest: seq<string>)
    requires word !in flags || rest == []
    ensures Read(flags, [word] + rest) == Read(flags, rest).(bare := [word] + Read(flags, rest).bare)
  {
    assert ([word] + rest)[1..] == rest;
  }

  lemma Cons2<T>(a: T, b: T, x: seq<T>)
    ensures [a, b] + x == [a] + ([b] + x)
  {
  }

  lemma Cons4<T>(a: T, b: T, c: T, d: T, x: seq<T>)
    ensures [a, b, c, d] + x == [a, b] + ([c, d] + x)
  {
  }

  /** Two options with values in a row. */
  lemma ReadValues(flags: set<string>, f1: string, v1: string, f2: string, v2: string, rest: seq<string>)
    requires f1 in flags && f2 in flags
    ensures Read(flags, [f1, v1, f2, v2] + rest) ==
      Read(flags, rest).(values := [(f1, v1), (f2, v2)] + Read(flags, rest).values)
  {
    var r := Read(flags, rest);
    Cons4(f1, v1, f2, v2, rest);
    Cons2((f1, v1), (f2, v2), r.values);
    ReadValue(flags, f2, v2, rest);
    ReadValue(flags, f1, v1, [f2, v2] + rest);
  }

  /** Two bare words in a row. */
  lemma ReadBares(flags: set<string>, b1: string, b2: string, rest: seq<string>)
    requires b1 !in flags && b2 !in flags
    ensures Read(flags, [b1, b2] + rest) == Read(flags, rest).(bare := [b1, b2] + Read(flags, rest).bare)
  {
    var r := Read(flags, rest);
    Cons2(b1, b2, rest);
    Cons2(b1, b2, r.bare);
    ReadBare(flags, b2, rest);
    ReadBare(flags, b1, [b2] + rest);
  }

  /** The settings every download passes: the runtime prerequisites, then what the action chooses. */
  function Settings(middle: seq<(string, string)>, template: string): seq<(string, string)> {
    [("--js-runtimes", "node"), ("--remote-components", "ejs:github")] + middle + [("-o", template)]
  }

  lemma ReadTail(flags: set<string>, template: string, url: string)
    requires "-o" in flags
    ensures Read(flags, ["-o", template, url]) == Reading([("-o", template)], [url])
  {
    var w: seq<string> := [url];
    assert Read(flags, w) == Reading([], [url]) by {
      ReadBare(flags, url, []);
      assert [url] + [] == w;
    }
    ReadValue(flags, "-o", template, w);
    assert ["-o", template, url] == ["-o", template] + w;
  }

  lemma ReadMerge(flags: set<string>, selector: string, template: string, url: string)
    requires Recognises(flags)
    ensures Read(flags, ["-f", selector, "--merge-output-format", "mp4", "-o", template, url]) ==
      Reading([("-f", selector), ("--merge-output-format", "mp4"), ("-o", template)], [url])
  {
    var w := ["-o", template, url];
    ReadTail(flags, template, url);
    ReadValues(flags, "-f", selector, "--merge-output-format", "mp4", w);
    assert ["-f", selector, "--merge-output-format", "mp4", "-o", template, url] ==
      ["-f", selector, "--merge-output-format", "mp4"] + w;
  }

  lemma ReadAudio(flags: set<string>, template: string, url: string)
    requires Recognises(flags)
    ensures Read(flags, ["-x", "--audio-format", "mp3", "--audio-quality", "0", "-o", template, url]) ==
      Reading([("--audio-format", "mp3"), ("--audio-quality", "0"), ("-o", template)], ["-x", url])
  {
    var w2 := ["-o", template, url];
    var w1 := ["--audio-format", "mp3", "--audio-quality", "0"] + w2;
    ReadTail(flags, template, url);
    ReadValues(flags, "--audio-format", "mp3", "--audio-quality", "0", w2);
    ReadBare(flags, "-x", w1);
    assert ["-x", "--audio-format", "mp3", "--audio-quality", "0", "-o", template, url] == ["-x"] + w1;
  }

  lemma ReadCommon(flags: set<string>, rest: seq<string>)
    requires Recognises(flags)
    ensures Read(flags, CommonFlags[1..] + rest) ==
      Reading([("--js-runtimes", "node"), ("--remote-components", "ejs:github")] + Read(flags, rest).values,
              ["--progress", "--no-playlist"] + Read(flags, rest).bare)
  {
    var w := ["--progress", "--no-playlist"] + rest;
    ReadBares(flags, "--progress", "--no-playlist", rest);
    ReadValues(flags, "--js-runtimes", "node", "--remote-components", "ejs:github", w);
    assert CommonFlags[1..] + rest == ["--js-runtimes", "node", "--remote-components", "ejs:github"] + w;
  }

  /** A merging download as yt-dlp reads it. */
  lemma MergeCommandReading(selector: string, template: string, url: string)
    ensures var argv := CommonFlags + ["-f", selector, "--merge-output-format", "mp4", "-o", template, url];
      Read(ValueFlags, argv[1..]) ==
        Reading(Settings([("-f", selector), ("--merge-output-format", "mp4")], template), ["--progress", "--no-playlist", url])
  {
    var rest := ["-f", selector, "--merge-output-format", "mp4", "-o", template, url];
    assert (CommonFlags + rest)[1..] == CommonFlags[1..] + rest;
    ValueFlagsRecognised();
    ReadCommon(ValueFlags, rest);
    ReadMerge(ValueFlags, selector, template, url);
    var middle := [("-f", selector), ("--merge-output-format", "mp4")];
    assert [("--js-runtimes", "node"), ("--remote-components", "ejs:github")] + (middle + [("-o", template)]) ==
      Settings(middle, template);
  }

  /** The audio extraction as yt-dlp reads it. */
  lemma AudioCommandReading(template: string, url: string)
    ensures var argv := CommonFlags + ["-x", "--audio-format", "mp3", "--audio-quality", "0", "-o", template, url];
      Read(ValueFlags, argv[1..]) ==
        Reading(Settings([("--audio-format", "mp3"), ("--audio-quality", "0")], template), ["--progress", "--no-playlist", "-x", url])
  {
    var rest := ["-x", "--audio-format", "mp3", "--audio-quality", "0", "-o", template, url];
    assert (CommonFlags + rest)[1..] == CommonFlags[1..] + rest;
    ValueFlagsRecognised();
    ReadCommon(ValueFlags, rest);
    ReadAudio(ValueFlags, template, url);
    var middle := [("--audio-format", "mp3"), ("--audio-quality", "0")];
    assert [("--js-runtimes", "node"), ("--remote-components", "ejs:github")] + (middle + [("-o", template)]) ==
      Settings(middle, template);
  }

  /**
   * What each download hands to yt-dlp, read back from its words: the
   * selector after -f, the mp4 merge for all but audio extraction, the
   * mp3 options for audio extraction, the output template into the chosen
   * directory (resolved only on the `baixar` path), and the URL as the
   * last word, after the progress and single-item switches.
   */
  lemma CommandReading(action: Action, typedDir: string, url: string, resolve: string -> string)
    ensures Command(action, typedDir, url, resolve).Some? <==> !action.Quit? && !action.Invalid?
    ensures Command(action, typedDir, url, resolve).Some? ==>
      var argv := Command(action, typedDir, url, resolve).value;
      var dir := if action.DirectDownload? then resolve(Destination(typedDir)) else Destination(typedDir);
      var reading := Read(ValueFlags, argv[1..]);
      && argv[0] == "yt-dlp" && argv[|argv| - 1] == url
      && reading.values == Settings(
           if action.ExtractAudio? then [("--audio-format", "mp3"), ("--audio-quality", "0")]
           else [("-f", action.Selector().value), ("--merge-output-format", "mp4")],
           OutputTemplate(dir))
      && reading.bare == ["--progress", "--no-playlist"] + (if action.ExtractAudio? then ["-x"] else []) + [url]
  {
    var dir := if action.DirectDownload? then resolve(Destination(typedDir)) else Destination(typedDir);
    match action
    case Quit =>
    case Invalid =>
    case ExtractAudio =>
      AudioCommandReading(OutputTemplate(dir), url);
      assert ["--progress", "--no-playlist"] + ["-x"] + [url] == ["--progress", "--no-playlist", "-x", url];
    case _ =>
      MergeCommandReading(action.Selector().value, OutputTemplate(dir), url);
      assert ["--progress", "--no-playlist"] + [] + [url] == ["--progress", "--no-playlist", url];
  }

  /** The selector and the merge format as yt-dlp reads them from a merging download. */
  lemma LookupMerge(selector: string, template: string)
    ensures Lookup(Settings([("-f", selector), ("--merge-output-format", "mp4")], template), "-f") == Some(selector)
    ensures Lookup(Settings([("-f", selector), ("--merge-output-format", "mp4")], template), "--merge-output-format") == Some("mp4")
  {
    var v := Settings([("-f", selector), ("--merge-output-format", "mp4")], template);
    var v2 := [("-f", selector), ("--merge-output-format", "mp4"), ("-o", template)];
    assert v == [("--js-runtimes", "node"), ("--remote-components", "ejs:github")] + v2;
    assert v[1..][1..] == v2;
    assert Lookup(v, "-f") == Lookup(v2, "-f");
    assert Lookup(v2[1..], "--merge-output-format") == Some("mp4");
    assert Lookup(v, "--merge-output-format") == Lookup(v2, "--merge-output-format");
  }

  /** "q" ends the program and runs nothing, whatever the options. */
  lemma QuitRunsNothing(options: seq<DisplayOption>, typedDir: string, url: string, resolve: string -> string)
    ensures Choose("q", options) == Quit
    ensures Command(Choose("q", options), typedDir, url, resolve) == None
  {
  }

  /** "a" runs the same MP3 extraction for any two option lists. */
  lemma AudioIgnoresOptions(o1: seq<DisplayOption>, o2: seq<DisplayOption>, typedDir: string, url: string, resolve: string -> string)
    ensures Choose("a", o1) == Choose("a", o2) == ExtractAudio
    ensures Command(Choose("a", o1), typedDir, url, resolve) == Command(Choose("a", o2), typedDir, url, resolve)
  {
  }

  /** Any token other than the three letters goes through `int()` to an entry. */
  lemma ChooseNumber(token: string, options: seq<DisplayOption>)
    requires token !in {"q", "a", "b"}
    ensures Choose(token, options) == Entry(ParseInt(token), options)
  {
  }

  /** Number n picks entry n (1-based) when there is one; a non-number or any other number is invalid. */
  lemma EntryCases(number: Option<int>, options: seq<DisplayOption>)
    ensures number.None? ==> Entry(number, options) == Invalid
    ensures number.Some? ==>
      Entry(number, options) == (if 1 <= number.value <= |options| then Pick(options[number.value - 1]) else Invalid)
  {
  }

  /** No decimal spelling is one of the menu letters. */
  lemma DecimalIsNoLetter(n: int)
    ensures ToDecimal(n) !in {"q", "a", "b"}
  {
    var t := ToDecimal(n);
    assert t[0] == '-' || IsDigit(t[|t| - 1]);
    if |t| == 1 { assert IsDigit(t[0]); }
  }

  /** The decimal spelling of n picks entry n (1-based) when there is one, and is invalid otherwise. */
  lemma NumberPicks(n: int, options: seq<DisplayOption>)
    ensures 1 <= n <= |options| ==> Choose(ToDecimal(n), options) == Pick(options[n - 1])
    ensures !(1 <= n <= |options|) ==> Choose(ToDecimal(n), options) == Invalid
  {
    ParseIntOfDecimal(n);
    DecimalIsNoLetter(n);
    ChooseNumber(ToDecimal(n), options);
    EntryCases(Some(n), options);
  }

  /** Numbers past the printed rows still pick options: the bound is the whole list, not the 20 rows. */
  lemma UnlistedNumbersPick(options: seq<DisplayOption>, n: int)
    requires |Shown(options)| < n <= |options|
    ensures |options| > MaxRows
    ensures Choose(ToDecimal(n), options) == Pick(options[n - 1])
  {
    NumberPicks(n, options);
  }

  /** A video-only option is fetched together with the best audio, merged into mp4. */
  lemma VideoOnlyPairsAudio(n: int, options: seq<DisplayOption>, typedDir: string, url: string, resolve: string -> string)
    requires 1 <= n <= |options| && VideoOnly(options[n - 1])
    ensures Command(Choose(ToDecimal(n), options), typedDir, url, resolve).Some?
    ensures var reading := Read(ValueFlags, Command(Choose(ToDecimal(n), options), typedDir, url, resolve).value[1..]);
      Lookup(reading.values, "-f") == Some(options[n - 1].id + "+bestaudio/best") &&
      Lookup(reading.values, "--merge-output-format") == Some("mp4")
  {
    NumberPicks(n, options);
    var action := Choose(ToDecimal(n), options);
    CommandReading(action, typedDir, url, resolve);
    LookupMerge(action.Selector().value, OutputTemplate(Destination(typedDir)));
  }
}
