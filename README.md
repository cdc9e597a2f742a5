# A model of the YouTube download front-end's format menu

`baixar_youtube.py` is a small interactive front-end to yt-dlp. It asks
yt-dlp for the JSON description of a video, reduces the format records to
a ranked menu of options, prints the first 20 of them, reads the user's
choice and runs one yt-dlp command. This project models the three parts of
that program that decide what gets downloaded:

- **the format filter** (`filtrar_formatos`). The loop keeps the
  records that carry video or audio and projects each one to a display
  option. The list is then stably sorted by the key
  `(not tem_video, -height)`. It is modelled imperatively:
  `Filter.FilterFormats` runs the loop (`KeepPlayable`), computes every
  key once, as Python's `list.sort(key=...)` does (`ComputeKeys`), and
  sorts an array in place (`Sorting.SortInPlace`). Each method is proved
  equal to a specification function (`Formats.Kept`, `Ranking.Decorate`,
  `Sorting.InsertionSort`), and the lemmas state the sort's properties
  about those functions: a permutation, sorted, stable, video first,
  taller first.
- **the type label** that the menu shows for each of its first 20 rows
  (`Presenter`).
- **the dispatcher for the user's choice** (`Dispatch`). The letters
  `q`, `a` and `b` select their own actions. Any other token goes
  through Python's `int()`. A number from 1 to the length of the whole
  list picks that option, and anything else is invalid. For every
  download action the model builds the yt-dlp argument vector. That
  vector is read back as yt-dlp reads its options (`Dispatch.Read`), so
  the lemmas can state which selector, merge format and output template
  each command carries.

Python's `str.strip()` and `int()` on ASCII text are modelled in
`PyText`. `int()` skips the white space around the number (tab, line
feed, vertical tab, form feed, carriage return and space, a narrower set
than `strip()` removes), then reads an optional sign and digits with
single underscores between them. A computed sort key that raises `ValueError` makes the whole filter
yield `None`, because the exception leaves `filtrar_formatos` uncaught.
`Scenarios` holds whole runs, filter then dispatcher, on small symbolic
format lists.

## Model

| member | source | states |
|---|---|---|
| Filter.FilteredSorted | baixar_youtube.py:37-78 | The definition of the filter's result: the kept options, each keyed, sorted stably, keys dropped. Its contracts are the Filter lemmas below. |
| Filter.FilterFormats | baixar_youtube.py:37-78 | The method's result is the filter's specification `FilteredSorted`. It fails exactly when some kept option's sort key cannot be computed. |
| Filter.KeepPlayable | baixar_youtube.py:39-71 | The loop, with its `continue`, builds exactly `Kept(formats)`: the projections of the records with video or audio, in input order. |
| Filter.ComputeKeys | baixar_youtube.py:73-76 | The keys computed once for the whole list are `Decorate(opcoes)`, and they are absent exactly when one option's key raises. |
| Sorting.SortInPlace | baixar_youtube.py:73-76 | The in-place array sort leaves the array equal to the stable insertion sort of its old contents. |
| Sorting.InsertLast | baixar_youtube.py:73-76 | One insertion step moves element i into its place among the first i and leaves the rest of the array alone. |
| Sorting.Insert | baixar_youtube.py:73-76 | Inserting into a list adds one element. Its other contracts are Sorting.InsertPermutes, Sorting.InsertSorted and Sorting.InsertWithRank. |
| Sorting.InsertionSort | baixar_youtube.py:73-76 | Sorting keeps the length. Its other contracts are Sorting.SortSorted, Sorting.SortPermutes and Sorting.SortStable. |
| Sorting.SortSorted | baixar_youtube.py:73-76 | The sort's output is ordered by the key tuple, compared lexicographically with False < True. |
| Sorting.SortPermutes | baixar_youtube.py:73-76 | The sort's output is a permutation of its input. |
| Sorting.InsertPermutes | baixar_youtube.py:73-76 | Inserting one element adds exactly that element to the multiset. |
| Sorting.SortStable | baixar_youtube.py:73-76 | For every key, the entries with that key keep their relative order, as Python's sort guarantees. |
| Sorting.InsertSorted | baixar_youtube.py:73-76 | Inserting into a sorted list keeps it sorted. |
| Sorting.InsertWithRank | baixar_youtube.py:73-76 | An insertion appends the new element to the entries of its own key and leaves the entries of every other key unchanged. |
| Formats.Project | baixar_youtube.py:42-71 | The definition of the option record built from one format, `dict.get` defaults included. Its contracts are Formats.StreamPresence and Formats.SizeNotAvailable. |
| Formats.SizeOf | baixar_youtube.py:48-60 | The definition of the size column. Its contract is Formats.SizeNotAvailable. |
| Formats.Kept | baixar_youtube.py:41-71 | The definition of the list the loop builds. Its contracts are Formats.KeptSound, Formats.KeptComplete, Formats.KeptOrigin and Formats.KeptEmpty. |
| Formats.StreamPresence | baixar_youtube.py:46-51 | A stream counts as present unless its codec is the text "none" or missing; a JSON null codec counts as present. |
| Formats.SizeNotAvailable | baixar_youtube.py:48-60 | The size is "N/A" exactly when both sizes are missing, null or zero. Otherwise the exact size wins over the approximate one. |
| Formats.KeptSound | baixar_youtube.py:50-54 | Every kept option has video or audio. |
| Formats.KeptComplete | baixar_youtube.py:41-71 | Every record with video or audio has its projection in the list. |
| Formats.KeptOrigin | baixar_youtube.py:41-71 | Each listed option is the projection of some record that has video or audio. |
| Formats.KeptEmpty | baixar_youtube.py:53-54 | The list is empty exactly when no record has video or audio. |
| Ranking.Decorate | baixar_youtube.py:73-76 | Keys exist exactly when every option's key can be computed. Key k then belongs to option k. |
| Ranking.DecorateSnoc | baixar_youtube.py:73-76 | Computing the keys of a list grown by one option extends the keys by that option's key, or fails when either fails. |
| Ranking.SecondPiece | baixar_youtube.py:75 | `split("x")[1]` of a text holding an 'x' contains no 'x'. Its full meaning is Ranking.SecondPieceAfterFirstX. |
| Ranking.SecondPieceAfterFirstX | baixar_youtube.py:75 | For any text "W" + "x" + T with no 'x' in W, `split("x")[1]` is T up to its first 'x' (on "1x2x3" it is "2"). |
| Ranking.ResolutionSplits | baixar_youtube.py:75 | Every text holding an 'x' is its first piece, that 'x', and the rest. |
| Ranking.HeightKeyOfResolution | baixar_youtube.py:75 | For every resolution: the height part is 0 without an 'x'; otherwise it is minus `int()` of the text between the first 'x' and the next one, and raises exactly when that `int()` does. |
| Ranking.HeightKey | baixar_youtube.py:75 | The definition of the key's height part: minus `int()` of the second piece, or 0 without an 'x'. Its contract is Ranking.HeightKeyOfResolution. |
| Ranking.RankOf | baixar_youtube.py:73-76 | A computed key's first part is `not tem_video`. |
| Ranking.UpToX | baixar_youtube.py:75 | The first piece of a split on "x" is a prefix without 'x', followed in the text by an 'x' when shorter. |
| Ranking.SecondPieceOfDimensions | baixar_youtube.py:75 | `split("x")[1]` of "WxH" is H when neither half holds an 'x'. |
| Ranking.HeightKeyOfDimensions | baixar_youtube.py:75 | The height part of the key for "WxH" is minus `int(H)`, and raises exactly when `int(H)` does. |
| Ranking.RankOfDimensions | baixar_youtube.py:73-76 | The whole key of an option with resolution "WxH" is (not tem_video, -int(H)). |
| Ranking.DecorateConsistent | baixar_youtube.py:73-76 | Every computed key belongs to its option, and dropping the keys gives back the list. |
| Filter.FilterPermutation | baixar_youtube.py:73-78 | The menu is a permutation of the kept options. |
| Filter.FilterSound | baixar_youtube.py:53-78 | Every menu entry has video or audio. |
| Filter.FilterKeys | baixar_youtube.py:73-76 | Every menu entry has a key, and the keys along the menu are in order. |
| Filter.FilterVideoFirst | baixar_youtube.py:74 | No entry without video comes before an entry with video. |
| Filter.FilterTallerFirst | baixar_youtube.py:75 | Among entries that agree on having video, the taller resolution comes first. |
| Filter.FilterStable | baixar_youtube.py:73-76 | Entries with equal keys keep the order of the yt-dlp listing. |
| Filter.FilterRaises | baixar_youtube.py:75 | The filter raises exactly when some kept option has an 'x' in its resolution whose second piece is not an integer. |
| Filter.FilterNothingPlayable | baixar_youtube.py:53-78 | With no playable record the filter returns the empty list. |
| Filter.SortConsistent | baixar_youtube.py:73-76 | Sorting keeps every key attached to its own option. |
| Filter.OptionsWithRank | baixar_youtube.py:73-76 | Selecting the entries of one key commutes with dropping the keys. |
| Filter.OptionsSort | baixar_youtube.py:73-76 | Dropping the keys after the sort gives a permutation of the options. |
| PyText.TrimStartSpec | baixar_youtube.py:153 | Stripping on the left drops only white space and leaves a suffix that does not start with white space. |
| PyText.TrimEndSpec | baixar_youtube.py:153 | Stripping on the right drops only white space and leaves a prefix that does not end with white space. |
| PyText.Strip | baixar_youtube.py:153 | The definition of `str.strip()` with no argument on ASCII text, applied to the directory answer. Its contracts are PyText.StripSpec and Dispatch.DestinationTrimmed. |
| PyText.StripSpec | baixar_youtube.py:153 | Stripping leaves nothing from text of white space only. Otherwise it keeps exactly the slice from the first to the last character that is not white space. |
| PyText.StripBlank | baixar_youtube.py:153 | Text of white space only strips to nothing. |
| PyText.ParseInt | baixar_youtube.py:176 | The definition of `int(text)` in base 10: the `int()` white space stripped, an optional sign, then a well-formed digit string, with None for ValueError. Its contracts are the lemmas ParseIntOfDecimal, LetterIsNotNumber and SeparatorIsNoIntSpace. |
| PyText.WellFormedDigitsGrammar | baixar_youtube.py:176 | The digit strings `int()` accepts are exactly the non-empty texts of digits and underscores with a digit at both ends and a digit on either side of every underscore. |
| PyText.SeparatorIsNoIntSpace | baixar_youtube.py:153-176 | The separator character 28 is white space to `strip()` but makes `int()` raise: "\x1c1" strips to "1" while `int()` of it is a ValueError. |
| PyText.NatDigits | baixar_youtube.py:176 | The decimal spelling of a natural number is a non-empty, well-formed digit string whose value is that number. |
| PyText.ParseIntOfDecimal | baixar_youtube.py:176 | `int()` of the decimal spelling of any integer is that integer (the interpreter's digit limit is not modelled). |
| PyText.LetterIsNotNumber | baixar_youtube.py:176-194 | Every single character that is not a digit makes `int()` raise ValueError, the menu letters among them. |
| Presenter.TypeLabel | baixar_youtube.py:94-95 | The label is "Vídeo + Áudio" exactly for video with audio, "Vídeo" exactly for video alone, and "Áudio" exactly when there is no video. |
| Presenter.Shown | baixar_youtube.py:93 | The menu prints the first 20 options, or all of them when there are fewer. |
| Presenter.ListedAudioIsAudio | baixar_youtube.py:93-95 | On the filter's output, "Áudio" marks only audio-only options. |
| Dispatch.Pick | baixar_youtube.py:180-191 | A video-only option downloads its id plus "+bestaudio/best". Any other option downloads its own id. |
| Dispatch.Choose | baixar_youtube.py:147-195 | The definition of the choice branch: "q", "a", "b", then `int()` of the token through Dispatch.Entry. Its contract is Dispatch.ChooseCases. |
| Dispatch.Entry | baixar_youtube.py:174-195 | The definition of `idx = int(escolha) - 1` with its bounds check: ValueError and an index outside the whole list are invalid. Its contract is Dispatch.NumberPicks. |
| Dispatch.ChooseCases | baixar_youtube.py:147-195 | "q", "a" and "b" each have their own action, and only those tokens do. A token is invalid exactly when it is none of them and does not spell an integer from 1 to the list's length. A download picks the entry that the number names. |
| Dispatch.DecimalIsNoLetter | baixar_youtube.py:149-176 | No decimal spelling is one of the menu letters. |
| Dispatch.NumberPicks | baixar_youtube.py:176-195 | The decimal spelling of n picks entry n when 1 <= n <= the list's length, and is invalid otherwise. |
| Dispatch.UnlistedNumbersPick | baixar_youtube.py:176-177 | A number past the 20 printed rows, but within the list, still picks an option. Such a number exists only when the list has more than 20 entries. |
| Dispatch.Destination | baixar_youtube.py:153 | The directory answer, stripped, or "." when nothing is left; it is never empty. |
| Dispatch.DestinationTrimmed | baixar_youtube.py:153 | An answer of white space only means "."; any other answer means its slice from the first to the last character that is not white space. |
| Dispatch.Command | baixar_youtube.py:102-191 | The definition of the argument vector each action runs; "q" and invalid choices run none. Its contract is Dispatch.CommandReading. |
| Dispatch.CommandReading | baixar_youtube.py:102-191 | Only "q" and invalid choices run nothing. Every command starts with "yt-dlp" and the node/ejs settings, and passes the progress and no-playlist switches, with the URL as the last word and the last bare word. Audio extraction passes the mp3 options; every other download passes its own selector after -f and an mp4 merge. The output template goes into the chosen directory, which is resolved only on the `baixar` path. |
| Dispatch.MergeCommandReading | baixar_youtube.py:164-173 | A merging download reads back as the node/ejs settings, the selector, the mp4 merge and the template, with the progress, no-playlist and URL words. |
| Dispatch.AudioCommandReading | baixar_youtube.py:155-163 | The audio extraction reads back as the node/ejs settings, mp3 at quality 0 and the template, with the -x switch and the URL. |
| Dispatch.ReadCommon | baixar_youtube.py:106-111 | The shared prefix of every command contributes the node and ejs settings and the two switches, whatever follows. |
| Dispatch.LookupMerge | baixar_youtube.py:166-172 | In a merging download, yt-dlp finds the chosen selector for -f and mp4 for the merge format. |
| Dispatch.ValueFlagsRecognised | baixar_youtube.py:155-173 | The seven options that take a value in these commands are read with their value; the switches --progress, --no-playlist and -x are not. |
| Dispatch.QuitRunsNothing | baixar_youtube.py:149-151 | "q" quits and runs nothing, whatever the options. |
| Dispatch.AudioIgnoresOptions | baixar_youtube.py:155-163 | "a" runs the same MP3 extraction whatever the list holds. |
| Dispatch.VideoOnlyPairsAudio | baixar_youtube.py:180-189 | Picking a video-only option fetches it with the best audio and merges into mp4. |
| Scenarios.TrackKey | baixar_youtube.py:41-76 | A video-only track of resolution "WxH" is kept, has no audio, and is keyed (False, -int(H)). |
| Scenarios.FilterOneTrack | baixar_youtube.py:37-78 | A listing with one such track yields a menu of exactly that option. |
| Scenarios.TallerResolutionFirst | baixar_youtube.py:73-76 | Of two video tracks, the taller one comes first even when it is listed second. |
| Scenarios.VideoOnlyFormatGetsAudio | baixar_youtube.py:174-189 | For the single video-only format 137, choice 1 downloads "137+bestaudio/best", merged into mp4. |
| Scenarios.DecimalIsHeight | baixar_youtube.py:75 | The decimal spelling of any number is a valid height text for the lemmas above. |

## Left out

- Running yt-dlp: `verificar_yt_dlp`, `obter_formatos` and the `subprocess.run` calls are external processes. The model stops at the argument vector each branch would run.
- JSON decoding: a format record is given already decoded. A JSON null `format_id`, `ext` or `resolution` is not modelled; each of these fields is either a text or missing (read as ""). The original would raise `TypeError` on a null resolution.
- Console I/O: the `print` calls, the video header, the column padding, and the `input` prompts. The typed URL, choice and directory are parameters. `sys.exit` is modelled as the `Quit` action or as no command at all.
- The empty URL and empty menu exits in `main` are not modelled; the dispatcher is modelled for any list, including an empty one.
- Dispatch.Command: `url` is the URL after the `strip()` of line 126, which `main` applies once before any branch runs; that strip is not modelled, so the command is stated for the text as given.
- Dispatch.Choose: the token is taken as already passed through `strip().lower()`. Case folding is not modelled.
- PyText.ParseInt: only ASCII white space and ASCII digits are modelled. Python's `int()` and `str.strip()` also accept other Unicode white space and digits.
- Dispatch.Destination: `str.strip()` is modelled on ASCII white space only, so an answer with a Unicode space such as the no-break space at either end keeps it, where Python would remove it.
- PyText.ParseIntOfDecimal: Python 3.11 and later refuse by default to convert text of more than 4300 digits (an interpreter setting). The model has no such limit, so the round trip is stated for every integer.
- Ranking.HeightKey: the 4300-digit limit above also makes line 75 raise for a height of more than 4300 digits; the model computes a key for it.
- Path resolution: `str(Path(saida).resolve())` depends on the file system, so it is the parameter `resolve` of `Dispatch.Command`.
- The size text: the megabyte figure `filesize / (1024 * 1024)` printed with one decimal is floating point, so the model keeps the byte count `Megabytes(bytes)`. The fps text `f"{fps} fps"` is kept as the fps value.
- Sorting.SortInPlace: Python's `list.sort` is Timsort. The model sorts by stable insertion sort. Any two stable sorts by the same key give the same list, but that equivalence is not proved here.
- `Dispatch.Read` is a model of how yt-dlp reads the options that occur in these commands, not of yt-dlp's full option parser.
