# Video download service: format selection and the downloads directory

This project is a Dafny model of the decision logic in `app.py`, a small Flask
application. The application takes a video URL and a quality, downloads the video
with yt_dlp into a shared `downloads` directory and serves it back once. A
background job sweeps the directory every five minutes. The model covers four
pieces of that file.

- **Format selection** (`Selection`). The `download` route scans the format
  records returned by extraction and picks a format code for the requested
  quality, with `"best"` as the fallback. `SelectFormat` is the specification,
  written as a recursive function over the list. `SelectFormatLoop` is the loop as
  written, with its `break`, and is proved equal to it. A record keeps only the
  two keys that are read, `format_id` and `format_note`. Each key is missing,
  present but `None`, or a string. The two exceptions the loop itself can raise
  are part of the result: `quality in None` raises a TypeError and
  `fmt['format_id']` raises a KeyError.
- **The downloads directory** (`Folder`). The directory is a map from entry name
  to `File` or `Dir`, held in the class `DownloadsFolder`. Its methods are
  `create_lock_file`, `delete_lock_file`, `cleanup_downloads_folder` (a loop that
  deletes entries one at a time) and `delete_after_serving`. Each method is
  specified by a function on the map (`WithLock`, `WithoutLock`, `Swept`,
  `AfterServe`), and the properties are lemmas about those functions.
- **Interleavings.** Requests and the janitor may run in any order. This is
  modelled as a sequence of atomic `Event`s over the map, run by `Run`.
- **The two routes** (`Delivery`). `Download` and `DownloadFile` are methods over
  the folder. The extraction result and the download result are inputs.

The sweep is modelled as the code is written. It skips every name that ends in
`.lock` and deletes every other regular file. It never asks whether a file has a
marker, so a video whose marker `video.lock` exists is still deleted. This is
stated by `SweepIgnoresMarkerOwner`, `SweepRemovesUnlessRewritten` and
`LockedVideoIsSwept`. The code's own comments promise the opposite: the marker is
created to keep the sweep away while the video is in use (app.py:130), and the
sweep is meant to skip locked files (app.py:70). The model follows
the code. The quality test follows the code too. Any quality containing the
character `p` takes the substring branch, not only a `<digits>p` token
(`AnyPIsSubstringBranch`). The match is a substring test, so `"80p"` also matches
a `"1080p"` note.

## Model

| member | source | states |
|---|---|---|
| `Selection.Contains` | app.py:111 | Python's `needle in hay` on strings: true exactly when `needle` occurs in `hay` at some index |
| `Selection.Examine` | app.py:109-119 | one iteration of the loop: only the `p` branch raises, a `None` note there raises TypeError, a break keeps the record's own present `format_id`, and outside the `p` branch it breaks exactly on a record whose id equals the quality `"best"` or `"worst"` |
| `Selection.Scan` | app.py:108-119 | the value `selected_format` holds after the loop: it raises only when the quality contains `p`, it is never a missing key, and a string result is the `format_id` of some record in the list |
| `Selection.SelectFormat` | app.py:107-123 | the chosen code is never empty and is either `"best"` or the `format_id` of some record; an error is possible only when the quality contains `p` |
| `Selection.SelectFormatLoop` | app.py:108-123 | the loop that assigns `selected_format`, breaks on the first match and falls back to `"best"` returns exactly `SelectFormat` |
| `Selection.PQualityPicksFirstMatch` | app.py:109-123 | a quality with `p` selects the first record in list order whose note (default `""`) contains it: its `format_id`, or `"best"` when that is `None` or `""`, or a KeyError when the key is missing |
| `Selection.PQualityWithoutMatchIsBest` | app.py:109-123 | a quality with `p` that no note contains yields `"best"` |
| `Selection.PQualityNullNoteRaises` | app.py:110-111 | a quality with `p` raises TypeError when a `None` note is reached before any match |
| `Selection.BestYieldsBest` | app.py:114-123 | quality `"best"` always yields `"best"`, whether from a matching record or from the fallback |
| `Selection.WorstYieldsWorstIffListed` | app.py:117-123 | quality `"worst"` yields `"worst"` exactly when some record has `format_id == "worst"`, and `"best"` otherwise |
| `Selection.OtherQualityYieldsBest` | app.py:108-123 | any quality without `p` other than `"best"` and `"worst"` (`""`, `"medium"`) yields `"best"` |
| `Selection.ResolutionExample` | app.py:109-113 | notes `480p`, `360p`, `best` and quality `360p` select the `360p` record's code |
| `Selection.AnyPIsSubstringBranch` | app.py:110-111 | quality `"p"` takes the substring branch and selects the first record whose note contains a `p` |
| `Folder.Swept` | app.py:66-74 | the directory after one sweep: entries are only removed, never changed or added, and every regular file whose name does not end in `.lock` is removed |
| `Folder.WithLock` | app.py:55-57 | creating the marker adds exactly `name + ".lock"` as a regular file and keeps every other entry; it fails only when that path is a directory |
| `Folder.WithoutLock` | app.py:60-63 | deleting the marker removes exactly `name + ".lock"` when present and is a no-op otherwise; other entries are unchanged; it fails only when that path is a directory |
| `Folder.AfterServe` | app.py:48-52 | removing the served file deletes it when it is a regular file, swallows every failure, and keeps every other entry |
| `Folder.DownloadsFolder.CreateLockFile` | app.py:55-57 | the directory becomes `WithLock` of the old one; `ok` reports whether `open` raised |
| `Folder.DownloadsFolder.DeleteLockFile` | app.py:60-63 | the directory becomes `WithoutLock` of the old one; `ok` reports whether `os.remove` raised |
| `Folder.DownloadsFolder.CleanupDownloadsFolder` | app.py:66-74 | the loop over the listing leaves exactly `Swept` of the old directory, which is the `Sweep` event |
| `Folder.DownloadsFolder.DeleteAfterServing` | app.py:48-52 | the directory becomes `AfterServe` of the old one, which is the `Close` event |
| `Folder.SweepLeavesOnlyMarkers` | app.py:66-74 | after a sweep, every regular file left has a name ending in `.lock` |
| `Folder.SweepKeepsMarkersAndDirs` | app.py:70-73 | a sweep keeps every `.lock` entry and every directory unchanged, and adds nothing |
| `Folder.SweepIdempotent` | app.py:66-74 | a second sweep changes nothing |
| `Folder.SweepIgnoresMarkerOwner` | app.py:70-74 | a sweep spares `n.lock` but deletes the regular file `n` |
| `Folder.ReleaseIdempotent` | app.py:60-63 | releasing a marker twice is the same as releasing it once |
| `Folder.CreateThenRelease` | app.py:55-63 | creating an absent marker and releasing it restores the directory |
| `Folder.SharedMarker` | app.py:55-63 | two requests for the same name share one marker; the second create is a no-op, and one release removes the marker for both |
| `Folder.Apply` | app.py:48-74 | one atomic step of a request or the janitor on the directory: no step changes a directory entry, only a write or a marker creation adds a name (the regular file it names), and every other step only removes entries |
| `Folder.MarkerSurvivesUntilReleased` | app.py:66-74 | under any interleaving of requests and sweeps, a marker survives until `download_file` releases it, or a `Close` event names the marker itself; the janitor never deletes it |
| `Folder.SweepRemovesUnlessRewritten` | app.py:66-74 | under any interleaving, a regular file whose name does not end in `.lock` is gone after a sweep unless it is written again, marker or not |
| `Folder.LockedVideoIsSwept` | app.py:70-74 | write a video, create its marker, sweep: the marker stays and the video is deleted |
| `Delivery.Download` | app.py:85-142 | missing cookies and unavailable formats render their messages, and no download is attempted; a selection error or a download error renders "An error occurred"; on success it downloads the selected code, creates the marker for the unsanitized `title.ext` and renders the completion page; the directory changes only on success, and then exactly as the `CreateLock` event; a directory at the marker path renders the `IsADirectoryError` text with the path shown through `repr` |
| `Delivery.DownloadFile` | app.py:144-150 | a name that is not a regular file is a 404 and changes nothing; otherwise the marker of the requested name is released (a 500 when that fails); the new directory is exactly the `Serve` event's |
| `Delivery.ResolutionScenario` | app.py:100-135 | labels `480p`, `360p`, `best` and quality `360p`: starting from the directory the downloader leaves, holding `clip.mp4`: code `134` is downloaded, and `clip.mp4` is reserved by the marker `clip.mp4.lock` beside it |
| `Delivery.PyRepr` | app.py:137 | Python's `repr` of a string: it starts and ends with the same quote, that quote is `"` exactly when the string holds a `'` and no `"`, and the literal reads back as the string itself |
| `Delivery.ReadEscaped` | app.py:137 | for every string and either quote, reading the escaped string followed by the quote stops at that quote and yields the string, whatever follows |
| `Delivery.LockDirectoryDetail` | app.py:55-57 | `str(e)` of the IsADirectoryError raised at the marker path, as the route renders it at app.py:136-137: `[Errno 21] Is a directory: ` followed by a Python literal that reads back as the marker path |
| `Delivery.EscapePlain` | app.py:137 | inside `repr`, a string with nothing to escape is written unchanged |
| `Delivery.DoubleQuotedRepr` | app.py:137 | a string with a `'` and nothing else to escape is shown by `repr` in double quotes, unchanged |
| `Delivery.ApostropheTitleDetail` | app.py:136-137 | for a title such as `Don't Stop`, the error text shows the marker path in double quotes |
| `Delivery.ServeScenario` | app.py:144-150 | serving a reserved `clip.mp4` releases its marker, and closing the response removes the video, leaving the directory empty |
| `Delivery.UnavailableScenario` | app.py:102-105 | an empty format list renders "Invalid URL or the video is unavailable.", attempts no download and leaves the directory unchanged |

## Left out

- Flask routing, `render_template`, `url_for` and the link it builds, and the streaming done by `send_from_directory` (app.py:81-83, 134-135, 147). A page is modelled as the template plus the message or video name. `send_from_directory` is modelled only by its 404 for a name that is not a regular file.
- The timing of `call_on_close` (app.py:148). Removing the served file is the separate step `DeleteAfterServing` (the `Close` event). The model does not say what happens to that callback when `delete_lock_file` raises.
- yt_dlp extraction and download (app.py:18-45) are foreign network calls. Their answers are inputs: `formats` is what `get_formats` returned, and `fetch` is what `download_video` returned or raised for the requested code. The URL is therefore not modelled. Writing the video file into the directory is yt_dlp's effect; it appears only as the `Write` event and in the starting directory of `ServeScenario`.
- The APScheduler timer (app.py:77-79) and real concurrency. Each sweep and each request step is one atomic `Event`. In the code, a file that vanishes before its turn in the sweep is skipped by the `os.path.isfile` test. Only a file that vanishes between that test and `os.remove` makes the sweep raise. Neither can happen in the model.
- CleanupDownloadsFolder: an `os.remove` failure ends the code's sweep part-way and leaves the rest of the listing unswept. Examples are a PermissionError in an unwritable directory, or a served file still held open on Windows. The model's sweep always completes, because permissions and open handles are not part of the directory state.
- Saving and removing the uploaded cookies file, and `os.makedirs` at startup (app.py:12, 92-98, 139-142). Only the truthiness of the upload is kept (`CookiesGiven`).
- `secure_filename` (app.py:128): its result is never used.
- `print` logging (app.py:32, 51, 67).
- Path handling. Every name is a direct entry of the directory. Symbolic links and special files are not distinguished from regular files and directories.
- Delivery.Download: a title containing `/` (such as `AC/DC` or `24/7`) makes `os.path.join` point into a sub-directory, so in the code marker creation raises FileNotFoundError unless that sub-directory exists, and the route renders "An error occurred: [Errno 2] No such file or directory: …" without creating a marker. The model reports `DownloadComplete` and adds the entry `AC/DC.mp4.lock`.
- yt_dlp writes the video under its own sanitised form of the title (the `outtmpl` at app.py:39). The marker and the link use the raw `title.ext` (app.py:127, 131, 134), so a marker need not name the file actually written. The model takes the written name and the reserved name to be the same.
- Delivery.Download: the text of an OS error while creating the marker is modelled only for a directory at the marker path, in Linux wording. `PyRepr` escapes backslashes, the chosen quote, newline, carriage return and tab. It does not model the `\xNN`/`\uNNNN` escapes `repr` uses for other non-printable characters. The literal reader `ReadLiteral` knows only the escapes `\n`, `\r`, `\t`, `\\`, `\'` and `\"`, and keeps the backslash of any other escape. Other Python errors are not modelled: a record or result that is not a dict, or a non-string note.
