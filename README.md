# apilage-downloader: quality selection and request shaping

This project models the logic that the YouTube downloaders of apilage-downloader share:

- the command-line downloader (`yt_downloader.py`);
- the tkinter window (`youtube-downloader-gui.py`);
- the customtkinter download panel (`YouTubeFrame.py`) and its controller (`YouTubeController.py`);
- the playlist downloader (`playlist-downloader/youtube-playlist-downloader.py`).

Each program does the same things:

- It checks a URL against one regular expression, applied with `re.match`.
- It reads the heights of the formats yt-dlp reports.
- It filters a fixed table of quality presets by the largest available height.
- It shows the offered rows as `"<key> - <description>"` labels and parses the chosen label back into a key.
- It builds the yt-dlp option dictionary. The format selector there bounds the height by the chosen row's height.

Modules:

- `Wrappers`: an `Option` type.
- `PyText`: the Python string operations the programs use (`strip`, `split(sep)[0]`, `int()`, `os.path.join`, decimal formatting).
- `UrlValidator`: a matcher for the pattern, proved equal to the language of the pattern read as a prefix match.
- `Formats`: format records, `int()` on heights, and the height set with its `max(..., default=0)`, including the TypeError when a height is not an int.
- `QualityPresets`: the eight-row table, the filter, the labels and their parsing.
- `YouTubeController`: the URL check and the option dictionary built by `downloadVideo`.
- `YtDownloader`: the command-line program.
- `ProgressHook`: the progress callback of both desktop front ends.
- `DownloaderGui` and `YouTubeFrame`: the two front ends as classes whose methods change the window's state.
- `PlaylistDownloader`: the playlist program.

In the desktop front ends, each class holds the widget state the callbacks read or write. Methods take the outside world's answers as parameters: the directory dialog's answer, `os.path.exists` and the success of `makedirs`, and the information yt-dlp returned. A method returns the download job it would hand to yt-dlp: the URL and the option dictionary.

Two behaviours worth knowing:

- The progress hook copies each parsed percentage as it is. It neither clamps it nor keeps it from going down (`ProgressHook.NotClamped`).
- An unknown quality falls back to `1080p` in the command-line program (`YtDownloader.NormalizeQuality`). In the tkinter window the worker stops on a KeyError (`DownloaderGui.JobFor`).

## Model

| member | source | states |
|---|---|---|
| PyText.Strip | yt_downloader.py:48 | `str.strip()`, with Python's whitespace set: the result is no longer than the input and neither starts nor ends with whitespace; text that already does neither is returned unchanged |
| PyText.StripLeftIsSuffix | yt_downloader.py:48 | `lstrip()` removes a prefix: its result is a suffix of the input |
| PyText.StripIsTrim | yt_downloader.py:48 | `strip()` removes only whitespace: its result is a slice of the input with nothing but whitespace before and after it |
| PyText.SplitHead | youtube-downloader-gui.py:190 | `s.split(sep)[0]`: a prefix of `s` holding no occurrence of `sep`, ending at the first occurrence when there is one |
| PyText.ParseShowNat | yt_downloader.py:29 | `int()` of the decimal spelling of `n` is `n` |
| PyText.ShowNatValue | YouTubeController.py:27 | the decimal text an f-string writes for `n` reads back as `n` |
| PyText.PathJoin | YouTubeController.py:28 | `os.path.join(a, b)` for POSIX paths: an absolute `b` replaces `a`; otherwise the result starts with `a` and ends with `b` |
| UrlValidator.ValidUrlIffPatternPrefix | yt_downloader.py:33-41 | the matcher accepts a URL exactly when some prefix of it is a word of the pattern, which is what `bool(re.match(...))` decides |
| UrlValidator.PatternSound | yt_downloader.py:37-41 | every accepted URL starts with a word of the pattern |
| UrlValidator.PatternComplete | yt_downloader.py:37-41 | every string that starts with a word of the pattern is accepted |
| UrlValidator.PathSound | yt_downloader.py:39 | a string the path-and-id matcher accepts starts with an optional path group followed by 11 identifier characters |
| UrlValidator.LoosePathSound | yt_downloader.py:39 | the `.+\?v=` alternative, with `.` excluding the newline, yields a path word |
| UrlValidator.PathComplete | yt_downloader.py:39 | any string that starts with a path word passes the path-and-id matcher, whichever alternative the word used |
| UrlValidator.DomainSound | yt_downloader.py:38 | what the domain stage accepts starts with `.com/` or `.be/` followed by a path word |
| UrlValidator.DomainComplete | yt_downloader.py:38 | every such string passes the domain stage |
| UrlValidator.HostSound | yt_downloader.py:38 | what the host stage accepts starts with `youtube`, `youtu` or `youtube-nocookie` followed by a domain word |
| UrlValidator.HostComplete | yt_downloader.py:38 | every such string passes the host stage, the matcher trying the three names in turn |
| UrlValidator.WwwSound | yt_downloader.py:38 | what the `(www\.)?` stage accepts starts with an optional `www.` followed by a host word |
| UrlValidator.WwwComplete | yt_downloader.py:38 | every such string passes the `(www\.)?` stage |
| UrlValidator.ValidUrlPrefixClosed | yt_downloader.py:41 | the match is anchored only at the start: appending anything to an accepted URL keeps it accepted |
| UrlValidator.PrefixAccepted | yt_downloader.py:41 | a word of the pattern followed by any text is accepted |
| UrlValidator.ValidUrlShape | yt_downloader.py:37-41 | an accepted URL has at least 20 characters and names the host `youtu...` within its first 12 characters |
| UrlValidator.PatternHostAt | yt_downloader.py:37-38 | in a word of the pattern, the host starts at most 12 characters in and at least 20 characters remain from it |
| UrlValidator.ShortRejected | yt_downloader.py:37-41 | the empty string, and any string shorter than 20 characters, is rejected |
| UrlValidator.AcceptsEveryChoice | yt_downloader.py:37-41 | every combination of scheme, `www.`, host, domain, path group and 11-character identifier, followed by anything, is accepted |
| UrlValidator.LoosePathGroup | yt_downloader.py:39 | any non-empty text without a newline, followed by `?v=`, is a word of the path group |
| UrlValidator.ShortLinkAccepted | yt_downloader.py:37-41 | `https://youtu.be/` followed by an 11-character identifier is accepted |
| UrlValidator.WatchAccepted | yt_downloader.py:37-41 | the `https://www.youtube.com/watch?v=` form is accepted |
| UrlValidator.EmbedAccepted | yt_downloader.py:37-41 | the `embed/` form without a scheme, followed by query text, is accepted |
| UrlValidator.LooseQueryAccepted | yt_downloader.py:37-41 | the loose `.+\?v=` form on `youtube-nocookie.com` is accepted, whatever follows it |
| YouTubeController.IsValidUrl | YouTubeController.py:9-14 | the controller's raw-string pattern accepts exactly the strings with a prefix in the pattern's language |
| DownloaderGui.IsValidYoutubeUrl | youtube-downloader-gui.py:102-108 | the window's copy of the pattern accepts exactly the strings with a prefix in the pattern's language |
| Formats.HeightSetMembers | youtube-downloader-gui.py:158-161 | a value is in `available_heights` exactly when some format with `vcodec != 'none'` and a truthy height carries it |
| Formats.CollectHeights | youtube-downloader-gui.py:157-161 | the loop builds exactly the height set of the format list |
| Formats.HeightBound | youtube-downloader-gui.py:166 | `max(available_heights, default=0)` and the comparisons with it raise TypeError exactly when the set holds a non-int; otherwise the bound is 0 for the empty set, or else the largest height in the set |
| Formats.HeightSetOrderFree | YouTubeFrame.py:143-147 | two format lists holding the same records give the same height set, whatever the order or repetition |
| QualityPresets.PresetsShape | yt_downloader.py:6-15 | the table has eight rows, strictly descending from 4320 to 240, with keys that are distinct, non-empty and free of whitespace and `-` |
| QualityPresets.PresetsDescending | yt_downloader.py:6-15 | every row is higher than every row after it |
| QualityPresets.KeysPlain | yt_downloader.py:6-15 | no key contains whitespace or `-` |
| QualityPresets.KeysDistinct | yt_downloader.py:6-15 | no key appears twice |
| QualityPresets.WithinMembers | yt_downloader.py:102-104 | a row is listed exactly when it is in the table and its height is at most the bound |
| QualityPresets.WithinIsSuffix | yt_downloader.py:169-173 | on a descending table the listed rows are a suffix: every row before it is too high and every row in it fits |
| QualityPresets.WithinMonotone | youtube-downloader-gui.py:164-167 | on a descending table, the rows offered for a lower bound are a suffix of those offered for a higher one |
| QualityPresets.OfferedMonotone | youtube-downloader-gui.py:164-167 | raising the largest available height only adds options, at the front of the list |
| QualityPresets.OfferedExtremes | yt_downloader.py:102-104 | nothing is offered below 240 pixels, in particular for 0; the whole table is offered from 4320 up |
| QualityPresets.OptionLabels | youtube-downloader-gui.py:167 | one `"<key> - <description>"` label per row, position for position |
| QualityPresets.BuildQualityOptions | youtube-downloader-gui.py:164-167 | the loop produces the labels of the rows with height at most the bound, in table order |
| QualityPresets.OfferedLabels | youtube-downloader-gui.py:164-169 | every option put in the combo box is the label of a table row |
| QualityPresets.Lookup | youtube-downloader-gui.py:217 | `QUALITY_PRESETS[key]`: the row with that key, or None, the KeyError, exactly when no row has it |
| QualityPresets.LookupKey | yt_downloader.py:127 | every row is found again under its own key |
| QualityPresets.SpacedSplitKey | youtube-downloader-gui.py:190 | `label.split(' - ')[0]` of a generated label is its row's key |
| QualityPresets.DashSplitKey | YouTubeFrame.py:163 | `label.split('-')[0].strip()` of a generated label is its row's key, since no key contains `-` |
| QualityPresets.SpacedLookup | youtube-downloader-gui.py:190 | the key the window parses from a generated label finds that label's row |
| QualityPresets.DashLookup | YouTubeFrame.py:163 | the key the panel parses from a generated label finds that label's row |
| QualityPresets.LabelLookup | youtube-downloader-gui.py:190 | any combo-box label names a row, and both parsers recover that row from it |
| QualityPresets.KeysLookUp | YouTubeFrame.py:189 | every row's key finds that row |
| QualityPresets.LabelsLookUp | youtube-downloader-gui.py:217 | every row's label, split on `' - '`, finds that row |
| YouTubeController.SelectorBounds | YouTubeController.py:27 | the selector read back gives the target height as the bound of both the video-plus-audio alternative and the fallback |
| YouTubeController.SelectorInjective | YouTubeController.py:27 | different target heights give different selectors |
| YouTubeController.OutputTemplate | YouTubeController.py:28 | the file name pattern sits under the output path: the template starts with the path and ends with `%(title)s [%(resolution)s].%(ext)s` |
| YouTubeController.DownloadOptions | YouTubeController.py:25-34 | the dictionary has exactly the seven keys, the selector for the target height, the template under the output path, `restrictfilenames` and `noplaylist` true, `quiet` false, mp4 merging and the caller's hook |
| YouTubeController.DownloadOptionsBound | YouTubeController.py:27 | the dictionary's format bounds both alternatives by the target height |
| YtDownloader.FormatHeight | yt_downloader.py:17-31 | a missing or `None` height, or one `int()` refuses, gives 0; the function never raises |
| YtDownloader.FormatHeightOfNumber | yt_downloader.py:27-29 | an int height is returned as is, and a decimal string, with trailing whitespace, gives the number it spells |
| YtDownloader.GetAvailableFormats | yt_downloader.py:53-70 | the loop returns exactly the kept formats of the input |
| YtDownloader.VideoFormatsPositions | yt_downloader.py:63-70 | the kept formats are the subsequence of the input at exactly the positions whose format has `vcodec != 'none'` and a positive height, in input order |
| YtDownloader.VideoFormatsMembers | yt_downloader.py:64-69 | a format is kept exactly when it is in the input and passes both tests |
| YtDownloader.MaxHeight | yt_downloader.py:95 | the maximum is at least every height and equal to one of them; it is 0 for an empty list |
| YtDownloader.MaxKeptHeight | yt_downloader.py:95 | the largest kept height is never negative, and positive exactly when some format is kept |
| YtDownloader.ListAvailableFormats | yt_downloader.py:72-110 | a failed fetch gives no formats and no rows; otherwise the kept formats, and the preset rows that fit under their largest height |
| YtDownloader.NormalizeQuality | yt_downloader.py:117-119 | the result is always a table key: a known key is kept, anything else becomes `1080p` |
| YtDownloader.DownloadRequest | yt_downloader.py:112-148 | a request is built exactly when the output directory exists or can be made (otherwise the handler returns None); it has the single-video keys; its selector bounds both alternatives by the height of the quality after fallback (1080 for an unknown one); the template starts with the output path, or the working directory when none was given |
| YtDownloader.OutputDir | yt_downloader.py:192 | the stripped answer, or `downloads` when it is blank; never empty |
| YtDownloader.NumberedRows | yt_downloader.py:169-173 | the menu holds the offered rows in order, each numbered by its position in the whole table, from 1 |
| YtDownloader.NumberedSuffix | yt_downloader.py:169-173 | on a descending table, menu entry `j` is table row `k + j` and carries number `k + j + 1`, where `k` rows were too high |
| YtDownloader.MenuNumbers | yt_downloader.py:169-173 | the same, for the preset table |
| YtDownloader.PrintedNumberShift | yt_downloader.py:176-177 | as written, the number printed beside the entry that choice `c` selects is `c + k - 1`, where `k` rows were too high |
| YtDownloader.TypingThreeForFullHd | yt_downloader.py:177-185 | for an 8K video, `1080p` is printed as 3, but the pass as written, given the answer `3`, picks entry 2, which is `1440p` |
| YtDownloader.EveryRowOffered | yt_downloader.py:169-173 | for a 4320-pixel video the menu holds all eight rows |
| YtDownloader.MenuNumberSelects | yt_downloader.py:177-185 | with positional numbering, typing the number printed beside entry `c - 1` picks exactly that entry; no other entry carries that number, and every printed number is in range |
| YtDownloader.ReadChoice | yt_downloader.py:182-183 | a blank answer stands for the default `min(2, n)` |
| YtDownloader.EmptyMenuSpins | yt_downloader.py:180-190 | as written, with an empty menu every pass ends in the same retry, before any line is read |
| YtDownloader.EmptyMenuReachable | yt_downloader.py:161-173 | a video whose only format is 144 pixels high passes the emptiness check and gets an empty menu |
| YtDownloader.MenuAttempt | yt_downloader.py:180-190 | corrected pass: it reports an empty menu exactly when there is one; on a non-empty menu it picks exactly when the answer parses to a number `c` between 1 and `n`, and then picks entry `c - 1`; any other answer is asked again after reading a line; a blank line picks the default; on a non-empty menu it behaves as written |
| YtDownloader.ChooseQuality | yt_downloader.py:180-190 | the first answer that picks an entry decides the choice, every answer before it was refused, and an empty menu reads nothing |
| YtDownloader.ChosenRequestFits | yt_downloader.py:166-193 | whatever entry is picked, its key passes the fallback unchanged, its height is at most the best available height, and once the directory is ready the request bounds both alternatives by it |
| ProgressHook.DownloadingText | youtube-downloader-gui.py:209 | the status line starts with `Downloading: ` and ends with the total size, or `Unknown size` |
| ProgressHook.OnEvent | youtube-downloader-gui.py:204-213 | a well-formed `'downloading'` event sets the bar to its percentage and the status to the downloading text built from its strings; the bar moves on no other event; a malformed one changes nothing; `'finished'` sets the completion text; other statuses change nothing |
| ProgressHook.LastPercent | youtube-downloader-gui.py:205-208 | the percentage of a well-formed `'downloading'` event after which no other well-formed `'downloading'` event comes, or None exactly when there is none |
| ProgressHook.ReplayProgress | youtube-downloader-gui.py:204-213 | after any run of events, the bar shows the last well-formed percentage, or its earlier value when there was none |
| ProgressHook.MalformedIgnored | youtube-downloader-gui.py:206-211 | a malformed `'downloading'` event leaves the whole display unchanged, since the bare `except` swallows the error |
| ProgressHook.FinishedLast | youtube-downloader-gui.py:212-213 | after a final `'finished'` event, the status is the completion text and the bar is where the last percentage left it |
| ProgressHook.NotClamped | youtube-downloader-gui.py:207-208 | the hook neither clamps the percentage to 0..100 nor keeps it from going down |
| DownloaderGui.JobFor | youtube-downloader-gui.py:215-226 | the worker builds a job exactly when the text before `' - '` is a key; for a row's label, the job is that row's option dictionary with the window's hook |
| DownloaderGui.SelectedLabelDownloads | youtube-downloader-gui.py:190-219 | a selection taken from the combo box starts the download of its own row's height |
| DownloaderGui.EmptySelectionNoJob | youtube-downloader-gui.py:190-217 | with nothing selected, the worker stops on KeyError and builds no job |
| DownloaderGui.ShowOptions | youtube-downloader-gui.py:169-172 | the combo box gets the options; the first is selected and the button enabled only when there is one |
| DownloaderGui.YouTubeDownloaderGUI.constructor | youtube-downloader-gui.py:10-100 | an empty URL, the `downloads` folder under the working directory, no information, an empty combo box, the download button disabled |
| DownloaderGui.YouTubeDownloaderGUI.BrowseDirectory | youtube-downloader-gui.py:110-114 | a chosen directory replaces the path; a cancelled dialog changes nothing |
| DownloaderGui.YouTubeDownloaderGUI.FetchVideoInfo | youtube-downloader-gui.py:116-125 | the stripped URL is fetched exactly when it passes the check; a refused one changes nothing; an accepted one disables the fetch button and sets the status |
| DownloaderGui.FetchReset | youtube-downloader-gui.py:174-178 | the fetch button is enabled and relabelled and the status cleared; every other part of the window is kept |
| DownloaderGui.YouTubeDownloaderGUI.FetchCompleted | youtube-downloader-gui.py:127-172 | the whole new window: a failed fetch only resets the fetch button (the error status is cleared by the reset); empty information is stored and the button reset; otherwise the title and channel are shown, the bound is None exactly when a height is not an int, and when there is one it is the largest height and the combo box shows the labels of the rows that fit, before the reset |
| DownloaderGui.YouTubeDownloaderGUI.UpdateVideoInfo | youtube-downloader-gui.py:148-172 | no information changes nothing; a non-int height stops after the labels; otherwise the bound is the largest height and the combo box shows the labels of the rows that fit |
| DownloaderGui.YouTubeDownloaderGUI.ShowQualityOptions | youtube-downloader-gui.py:169-172 | the combo box gets the options and keeps holding only labels |
| DownloaderGui.YouTubeDownloaderGUI.ResetFetchButton | youtube-downloader-gui.py:174-178 | the fetch button is enabled and relabelled, and the status cleared; nothing else changes |
| DownloaderGui.YouTubeDownloaderGUI.ShowError | youtube-downloader-gui.py:180-183 | only the status changes, to `Error occurred` |
| DownloaderGui.YouTubeDownloaderGUI.StartDownload | youtube-downloader-gui.py:185-239 | no information: nothing happens; a directory that cannot be made: only the error status; otherwise both buttons are disabled, the bar reset, and the job is the one the worker builds from the selection |
| DownloaderGui.YouTubeDownloaderGUI.DisableForDownload | youtube-downloader-gui.py:200-202 | both buttons are disabled and the bar emptied; nothing else changes |
| DownloaderGui.YouTubeDownloaderGUI.DownloadProgressHook | youtube-downloader-gui.py:204-213 | the bar and status become what the hook computes; nothing else changes |
| DownloaderGui.YouTubeDownloaderGUI.DownloadComplete | youtube-downloader-gui.py:241-245 | the success status is shown and both buttons are enabled again |
| DownloaderGui.YouTubeDownloaderGUI.DownloadFailed | youtube-downloader-gui.py:233-235 | corrected: the error status is shown and both buttons are enabled again |
| DownloaderGui.YouTubeDownloaderGUI.DownloadFailedAsWritten | youtube-downloader-gui.py:233-235 | as written: only the buttons are enabled again; the error status is never shown |
| DownloaderGui.YouTubeDownloaderGUI.ResetDownloadButton | youtube-downloader-gui.py:247-250 | both buttons are enabled; nothing else changes |
| YouTubeFrame.JobFor | YouTubeFrame.py:189 | `downloadVideo` is called exactly when the parsed key is in the table, with that row's height and the panel's hook |
| YouTubeFrame.SelectedLabelDownloads | YouTubeFrame.py:163-189 | a label taken from the combo box is parsed back to its own row, and the download asks for that row's height |
| YouTubeFrame.DownloadOptionsFrame.constructor | YouTubeFrame.py:86-133 | no information, no output path, an empty combo box, the status label reading `Status` |
| YouTubeFrame.DownloadOptionsFrame.Browse | YouTubeFrame.py:135-138 | the dialog's answer becomes the output path and the path text, even when empty |
| YouTubeFrame.DownloadOptionsFrame.FilterAndSortQualityOptions | YouTubeFrame.py:140-157 | the information is always stored; the bound is None exactly when a height is not an int; otherwise it is the largest height and the combo box shows the labels of the rows that fit |
| YouTubeFrame.DownloadOptionsFrame.ShowQualityOptions | YouTubeFrame.py:154-157 | the first option is selected and the button enabled exactly when there is one |
| YouTubeFrame.DownloadOptionsFrame.StartDownload | YouTubeFrame.py:159-189 | no information: nothing changes; otherwise `quality` is set first, then a missing path (TypeError), a failed `mkdir`, an unknown key (KeyError, buttons left disabled), or, for a key in the table, the download of exactly the job built from it |
| YouTubeFrame.DownloadOptionsFrame.DownloadProgressHook | YouTubeFrame.py:175-187 | the bar and status become what the hook computes; nothing else changes |
| PlaylistDownloader.GetAvailableQualities | playlist-downloader/youtube-playlist-downloader.py:28-34 | the nine keys, in table order |
| PlaylistDownloader.QualityRowsShape | playlist-downloader/youtube-playlist-downloader.py:6-16 | every bound is a decimal number, and every key is its bound followed by `p` |
| PlaylistDownloader.TableMirrorsPresets | playlist-downloader/youtube-playlist-downloader.py:6-16 | apart from `144p`, the table is the preset table upside down: the same keys, with bounds that spell the preset heights |
| PlaylistDownloader.TableBounds | playlist-downloader/youtube-playlist-downloader.py:6-16 | the bounds run strictly upwards from 144 to 4320 |
| PlaylistDownloader.KeysUnique | playlist-downloader/youtube-playlist-downloader.py:6-16 | no key appears twice |
| PlaylistDownloader.RowBound | playlist-downloader/youtube-playlist-downloader.py:6-16 | row `i` past the first bounds the height of preset row `8 - i` |
| PlaylistDownloader.LookupQuality | playlist-downloader/youtube-playlist-downloader.py:78 | `QUALITY_OPTIONS[quality]` succeeds exactly for the listed keys and gives that key's bound |
| PlaylistDownloader.PlaylistFormatBound | playlist-downloader/youtube-playlist-downloader.py:78 | the format read back bounds the video stream by the given bound and nothing else |
| PlaylistDownloader.SharedBoundsAgree | playlist-downloader/youtube-playlist-downloader.py:78 | for a key the two tables share, the playlist format asks for the same height as the single-video downloaders |
| PlaylistDownloader.SelectQuality | playlist-downloader/youtube-playlist-downloader.py:36-44 | the first answer whose stripped text is a key is returned, stripped; every earlier answer was refused |
| PlaylistDownloader.UpdateOptions | playlist-downloader/youtube-playlist-downloader.py:79-82 | `update` writes `format` and `outtmpl` and leaves every other entry as it was |
| PlaylistDownloader.UpdateKeepsFixed | playlist-downloader/youtube-playlist-downloader.py:79-82 | the constructor's dictionary, and every update of it, keep the keys and fixed entries |
| PlaylistDownloader.FixedFlags | playlist-downloader/youtube-playlist-downloader.py:19-26 | a dictionary that keeps the fixed entries has the constructor's `quiet`, `no_warnings`, `ignoreerrors` and `progress_hooks` |
| PlaylistDownloader.OtherOptionsKept | playlist-downloader/youtube-playlist-downloader.py:79-82 | after any download the flags and hook are the constructor's, and the format bounds the height by the chosen row's bound |
| PlaylistDownloader.YouTubeDownloader.constructor | playlist-downloader/youtube-playlist-downloader.py:18-26 | the option dictionary is the six-entry default |
| PlaylistDownloader.YouTubeDownloader.DownloadPlaylist | playlist-downloader/youtube-playlist-downloader.py:74-99 | an unknown quality raises KeyError before the dictionary changes; otherwise the dictionary is updated in place, and stays updated if the fetch fails; the count is the number of entries, 0 without the key, and the download uses the updated dictionary |

## Left out

- yt-dlp itself (`extract_info`, `download`): its answers are parameters, and a download is returned as a job instead of being run.
- Threads and `root.after`: a callback a worker schedules is a method called with what the worker produced. The thread at YouTubeFrame.py:189 receives the result of calling `downloadVideo` directly; the model records that call as the job.
- Widgets, message boxes and file dialogs: only the state the callbacks read or write is modelled. A dialog's answer is a parameter.
- The file system: `os.path.exists`, `os.makedirs`, `os.mkdir` and `os.getcwd` are parameters; in the command-line program the success of `os.makedirs` is the `dirReady` parameter of `YtDownloader.DownloadRequest`.
- `input()` and `print`: `get_valid_youtube_url`, `select_download_path`, the listing printed by `list_available_formats` and `get_available_qualities`, the final "download another" prompt, and the playlist title printout. The menu and `select_quality` loops run over a finite list of typed lines; running out of lines stands for the prompt going on forever.
- The progress printing of the command-line and playlist programs. Their hooks appear only as tags in the option dictionary.
- `float()` on `_percent_str`: its outcome is part of the event.
- `timedelta` formatting of the duration.
- DownloaderGui.YouTubeDownloaderGUI.UpdateVideoInfo: does not model the TypeError that a `None` duration raises at youtube-downloader-gui.py:152, which would stop the method after the title label.
- PyText.ParseInt: `int()` is modelled on ASCII decimal text with an optional sign and surrounding whitespace. Underscores between digits and non-ASCII decimal digits are refused here although Python accepts them. This affects YtDownloader.FormatHeight and YtDownloader.ReadChoice.
- YtDownloader.FormatHeight: float heights are not modelled.
- PyText.PathJoin: POSIX paths only; Windows separators and drive letters are not modelled.
- DownloaderGui.YouTubeDownloaderGUI.FetchCompleted: the lambda scheduled at youtube-downloader-gui.py:141 reads `e` after the `except` block has unbound it, so its `show_error` raises NameError. The model runs `show_error`; the state is the same either way, because `reset_fetch_button` clears the status next. The message box is not modelled.
- DownloaderGui.YouTubeDownloaderGUI.StartDownload: the job carries the URL of the entry as it was when the download was started. The worker reads `url_var` again when it runs.
- YouTubeFrame.DownloadOptionsFrame.FilterAndSortQualityOptions: the line `self.download_btn["state"] = "normal"` is modelled as enabling the button. Whether customtkinter accepts that item assignment is not modelled.
- YouTubeFrame.DownloadOptionsFrame.StartDownload: the lines `self.download_btn["state"] = "disabled"` and `self.browse_btn["state"] = "disabled"` are modelled as disabling both buttons. Whether customtkinter accepts that item assignment is not modelled.
- YouTubeFrame.DownloadOptionsFrame.constructor: the combo box's initial placeholder text is modelled as `""`.
- PlaylistDownloader.YouTubeDownloader.DownloadPlaylist: an `'entries'` value of `None` would raise TypeError in `len`; the model takes the entries as a list whenever the key is present.
- The option keys are an enumeration, each constructor standing for the string key named beside it.
- YoutubeGUI.py, the window that wires the customtkinter frames together, and the frames other than `DownloadOptionsFrame`: they hold no logic of the core. YoutubeGUI.py is not part of this model.

## Findings

| source | as written | input that shows it | evidently intended | confidence | as-written member | corrected member |
|---|---|---|---|---|---|---|
| yt_downloader.py:177 | the menu prints `i-1`, where `i` is the row's position in the whole table, but line 185 selects `available_qualities[choice-1]` | a video available in 8K: `1080p` is printed as 3, and typing 3 downloads `1440p` | number each entry by its position in the menu, from 1 | not executed | YtDownloader.PrintedNumberShift | YtDownloader.MenuNumberSelects |
| yt_downloader.py:182-190 | with no row offered, `available_qualities[default_choice-1]` raises IndexError while the prompt is built; the handler catches it and the loop retries forever without reading input | a video whose only format is 144 pixels high | report that no quality is available instead of retrying | not executed | YtDownloader.EmptyMenuSpins | YtDownloader.MenuAttempt |
| youtube-downloader-gui.py:234 | the lambda passed to `root.after` reads `e`, which Python deletes when the `except` block ends; the callback normally raises NameError, since the worker has usually left the `except` block by the time the main loop runs it, so `show_error` does not run | any download in which `ydl.download` raises | show the error: bind the message before scheduling, e.g. `lambda msg=str(e): ...` | not executed | DownloaderGui.YouTubeDownloaderGUI.DownloadFailedAsWritten | DownloaderGui.YouTubeDownloaderGUI.DownloadFailed |
