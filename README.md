# pomorad: a Dafny model of the playback command

pomorad is a small command-line player for focus sessions: it reads a music
directory from `config.ini`, collects the FLAC files under it and plays them.
The repository holds two versions of the command's `Run` function:

- `cmd/root.go`, the first version, collects every non-directory path whose
  lower-cased name ends in `flac`, picks one at random, plays it to its end
  and exits.
- `cli/cmd/root.go`, the later version, also reads a `playback_timer` in
  seconds. It collects only paths ending in `.flac`. Then, until the timer's
  deadline passes, it picks a random track, reads its artist and title,
  opens it, and plays it. Each track races its natural end against the
  deadline. The speaker is initialised lazily, at most once per session.

The model has five modules, one file each:

- `Wrappers` holds `Option` and `Result` for Go's `(value, error)` returns.
- `Strings` models the parts of Go's `strings` package that the tool uses:
  `ToLower`, `HasSuffix` and `Join`.
- `Walk` gives what a directory walk delivers to its callback (an `Entry`
  per visited path). It also defines the order-preserving selection `Kept`
  that both callbacks build by appending to a slice.
- `CliRoot` models `cli/cmd/root.go`. The pure parts are functions:
  `ResolveMediaType`, `SelectFile`, and the track-information formatting.
  The walk and the session are methods. The session loop is a class
  `Session` with two real fields: the `speakerInitialized` flag (shared with
  `playTrack` by pointer in the source) and the context's expiry
  (`cancelled`). It also has ghost counters for speaker initialisations,
  opened and closed handles, `speaker.Clear` calls and played tracks. The
  environment of the loop is a sequence of `Step`s, one per iteration. Each
  step gives the random index, whether each open succeeds, the parsed tags,
  whether decoding succeeds, and whether the deadline passes during the
  iteration (and if so, before the playing track ends).
- `CmdRoot` models `cmd/root.go`: its looser filter, its walk that never
  stops early, and its straight-line `Run`. It also proves how its filter
  and walk relate to the later version's.

Neither version has a user stop command: the only source of cancellation is
the timeout context created at `cli/cmd/root.go:90`.

## Model

| member | source | states |
|---|---|---|
| `Strings.ToLower` | cli/cmd/root.go:175 | the lowered string has the same length and lowers each character in place |
| `Strings.HasSuffix` | cli/cmd/root.go:177 | a string has a suffix exactly when it is some stem followed by that suffix (also used at `cmd/root.go:54`) |
| `Strings.Join` | cli/cmd/root.go:220 | joining no parts gives the empty string; a non-empty join starts with the first part and ends with the last |
| `Strings.JoinAppend` | cli/cmd/root.go:211-220 | appending a part to a non-empty list and joining equals the old join, the separator, then the part |
| `CliRoot.LowerSuffixFlac` | cli/cmd/root.go:175-177 | lowering a path and testing the `.flac` suffix is the same as testing its last five characters for `.`, `f/F`, `l/L`, `a/A`, `c/C` |
| `CliRoot.ResolveMediaType` | cli/cmd/root.go:174-181 | returns `(TypeFlac, true)` exactly when the path ends in `.flac` in any letter case, and `(TypeUnknown, false)` otherwise |
| `CliRoot.ResolveMediaTypeExamples` | cli/cmd/root.go:174-181 | `A.FLAC` and `song.Flac` are FLAC; `xflac` (no dot) and `.flac.mp3` are not |
| `CliRoot.KeepsEntry` | cli/cmd/root.go:74-75 | the walk callback keeps an entry exactly when it is not a directory and its path ends in `.flac` in any letter case |
| `CliRoot.FirstFailure` | cli/cmd/root.go:69-73 | the index of the first entry the walk reported an error for: no entry before it failed, and it failed unless it is the end |
| `CliRoot.WalkFiles` | cli/cmd/root.go:68-79 | the walk collects no more paths than it visited before the first reported error, and every collected path ends in `.flac` |
| `CliRoot.WalkFilesMembership` | cli/cmd/root.go:69-79 | a path is collected exactly when a non-directory `.flac` entry with that path was visited before the first reported error |
| `CliRoot.CollectFiles` | cli/cmd/root.go:68-82 | the walk returns the kept paths in visit order up to the first error, and reports an error exactly when some entry failed |
| `CliRoot.SelectFile` | cli/cmd/root.go:183-190 | fails with "no files" exactly when the list is empty; otherwise returns the list element at the random index, a member of the list |
| `CliRoot.FormatTrackInfo` | cli/cmd/root.go:211-220 | empty exactly when artist and title are both empty; otherwise the artist alone, the quoted title alone, or the artist, one space and the quoted title |
| `CliRoot.TrackInfoParts` | cli/cmd/root.go:210-218 | one part for a non-empty artist and one for a non-empty title, no other; the artist comes first, the quoted title last, and no part is empty |
| `CliRoot.TrackInfoShape` | cli/cmd/root.go:211-220 | a non-empty artist leads the information, a non-empty quoted title ends it, and its length is the artist, the title plus two quotes and one joining space |
| `CliRoot.TrackInfo` | cli/cmd/root.go:199-209 | an error only when opening the file fails; the empty string with no error when the tags cannot be parsed; otherwise the formatted information |
| `CliRoot.Plays` | cli/cmd/root.go:95-117 | an iteration plays at most one track. It plays exactly when selection, tag-reading open, playback open and decode all succeed, and the track is the selected list member |
| `CliRoot.PlayedByBounds` | cli/cmd/root.go:94-118 | over a run of iterations, at most one track per iteration is played and every played track is in the collected list |
| `CliRoot.Session.constructor` | cli/cmd/root.go:88-91 | a new session has an uninitialised speaker, no handles, no plays, and is already expired when its timeout is not positive |
| `CliRoot.Session.OpenFile` | cli/cmd/root.go:191-197 | succeeds exactly when the open succeeds, returning a handle for the path and counting one opened handle; otherwise returns the open error |
| `CliRoot.Session.CloseFile` | cli/cmd/root.go:114 | counts one closed handle |
| `CliRoot.Session.ReadTrackInfo` | cli/cmd/root.go:199-221 | returns `TrackInfo`; the handle it opens is closed on every path after a successful open |
| `CliRoot.Session.PlayTrack` | cli/cmd/root.go:149-172 | a decode failure returns an error and leaves the speaker flag and counters untouched. Otherwise the speaker is initialised only if the flag was false, and the flag ends true. The track is played, `Clear` is counted only on cancellation, and no error is returned on either branch |
| `CliRoot.Session.Iteration` | cli/cmd/root.go:95-117 | one pass keeps the session invariant: at most one initialisation, every opened handle closed. It plays what `Plays` says and opens the handles `HandlesOpened` counts. It initialises the speaker only on a session's first play, and expires the context exactly when the step's deadline passes |
| `CliRoot.Session.PlayUntilTimeout` | cli/cmd/root.go:88-118 | the loop runs no iteration when already expired, and none after the one in which the deadline passed. It stops only on expiry or when the steps run out, keeps the session invariant, and appends exactly the tracks `PlayedBy` gives. `Clear` is counted at most once per run, and exactly when the last iteration run was cut short by the deadline while a track played |
| `CliRoot.Run` | cli/cmd/root.go:45-120 | a config load failure, an unparsable timer, an empty `music_dir` and an empty file list each end the command before any session exists, so the speaker is never initialised. Otherwise a session runs; afterwards at most one initialisation happened, all handles are closed, every played track was collected, and a non-positive timer plays nothing |
| `Walk.KeptAppend` | cmd/root.go:49-59 | the selection over two consecutive stretches of the walk is the first stretch's paths followed by the second's: paths are appended in visit order |
| `Walk.KeptMembership` | cmd/root.go:49-59 | a path is selected exactly when some visited entry with that path satisfies the callback's test |
| `Walk.KeptEmpty` | cmd/root.go:49-59 | the selection is empty exactly when no visited entry satisfies the callback's test |
| `CmdRoot.LowerSuffixFlacLetters` | cmd/root.go:54 | lowering a path and testing the `flac` suffix is the same as testing its last four characters for `f/F`, `l/L`, `a/A`, `c/C` |
| `CmdRoot.KeepsEntry` | cmd/root.go:54 | a path is kept exactly when it is not a directory and ends in `flac` in any letter case, with no dot required |
| `CmdRoot.FlacFilesMembership` | cmd/root.go:49-59 | a path is collected exactly when some visited non-directory entry with that path ends in `flac`, whether or not an error was reported anywhere in the walk |
| `CmdRoot.CollectFiles` | cmd/root.go:48-62 | the walk considers every entry and returns the kept paths in visit order |
| `CmdRoot.PlayableImpliesKept` | cmd/root.go:54 | every path the later version's `.flac` test accepts is accepted by this `flac` test |
| `CmdRoot.KeptWithoutDot` | cmd/root.go:54 | `songflac` is kept here but not by the later version; `A.FLAC` is kept by both |
| `CmdRoot.CliFilesAreCollected` | cmd/root.go:49-59 | every file the later version collects from a walk is collected here from the same walk |
| `CmdRoot.ErrorDoesNotStopWalk` | cmd/root.go:49-59 | when a walk enters a directory, then a sub-directory it cannot read (reported a second time with the error), then a file ending in `flac`, the file is still collected here, while the later version collects nothing |
| `CmdRoot.ErrorDoesNotStopWalkExample` | cmd/root.go:49-59 | the same with `music`, `music/locked` and `music/z.flac`: this version collects `music/z.flac`, the later one nothing |
| `CmdRoot.Run` | cmd/root.go:35-78 | a config load failure or an empty `music_dir` returns before any walk, and an empty file list returns before any selection. Otherwise the chosen path is the collected file at the random index. The speaker is initialised exactly once when the file decodes, and not at all otherwise. The handle is closed by the deferred call only when playback ran |

## Left out

- Cobra wiring, `Execute`, `init`, flags and the `message`/`fmt` console output are not modelled.
- `ini.Load` and key parsing are not modelled: the configuration is an input (loads or not, the timer if it parses as an integer, the `music_dir` value).
- `filepath.WalkDir` is not modelled: the sequence of callback invocations is an input in visit order. A failed entry always carries a directory entry here. When the root cannot be read, Go calls the callback with a nil directory entry, and the first version's `d.IsDir()` then panics; that case is not part of this model.
- `os.Open`, `tag.ReadFrom` and `flac.Decode` are inputs: success flags and the parsed artist and title.
- `speaker.Init`, `Play` and `Clear` are ghost counters and the list of played tracks. The sample rate and buffer size passed to `Init` are not modelled. So is the consequence that later tracks with another sample rate play through a speaker set up for the first.
- The decoder stream closed by `defer streamer.Close()` is not counted separately from the file handles.
- The goroutine and channel race in `playTrack` and the wall-clock timeout are not modelled as concurrency. Each iteration says whether the deadline passes during it, and if so whether before the playing track ends (the cancellation branch wins) or after. The possible deadlock when the completion callback fires just as the cancellation branch is taken is not modelled.
- `CliRoot.Session.PlayUntilTimeout`: the source loop runs until the deadline. The model runs over a finite sequence of iterations and may also stop when they run out, without the deadline having passed.
- `CliRoot.Run`: the timer is an unbounded integer. The 64-bit nanosecond overflow of `time.Duration(playingSecond)*time.Second` for very large timers is not modelled.
- `rand.IntN` is not modelled: the random index is an input, below the list length whenever the list is not empty.
- `CmdRoot.Run`: when `os.Open` fails, the first version goes on with a nil handle; this path is not modelled. Opening and decoding are one input (`decodes`). A decode failure ends the process through `log.Fatal`, so the deferred close never runs.
- `Strings.ToLower` lowers ASCII letters only, where Go lowers all of Unicode. For the two suffix tests this is exact: no character outside ASCII lowers to `.`, `f`, `l`, `a` or `c`.
- Go strings are byte sequences; the model works on characters. The suffixes tested are ASCII, so the tests agree.
