/**
 The later version of the tool (cli/cmd/root.go): it reads a playback timer
 and a music directory from its configuration, collects the FLAC files under
 that directory, and then plays randomly chosen tracks one after another
 until the timer's deadline passes.

 File, tag, decoder and speaker calls are not modelled; their outcomes are
 inputs (a `Step` per loop iteration). The speaker flag and the cancellation
 flag are real state of a `Session`; ghost counters record how often the
 speaker was initialised, how many handles were opened and closed, how often
 playback was cleared, and which tracks were played.
 */
module CliRoot {
  import opened Wrappers
  import opened Strings
  import opened Walk

  datatype MediaType = TypeUnknown | TypeFlac

  datatype Error =
    | NoFilesToSelect
    | OpenFailed(path: string)
    | DecodeFailed(path: string)

  // ---------------------------------------------------------------------
  // Playable-file filtering

  /**
   Reference reading of "the path ends in .flac, in any letter case",
   character by character and without lowering the string.
   */
  predicate EndsInFlac(path: string)
  {
    var n := |path|;
    && n >= 5
    && path[n - 5] == '.'
    && (path[n - 4] == 'f' || path[n - 4] == 'F')
    && (path[n - 3] == 'l' || path[n - 3] == 'L')
    && (path[n - 2] == 'a' || path[n - 2] == 'A')
    && (path[n - 1] == 'c' || path[n - 1] == 'C')
  }

  /** Lowering then testing the ".flac" suffix is the character-wise test. */
  lemma LowerSuffixFlac(path: string)
    ensures HasSuffix(ToLower(path), ".flac") <==> EndsInFlac(path)
  {
    var low := ToLower(path);
    var n := |path|;
    assert ".flac" == ['.', 'f', 'l', 'a', 'c'];
    if n >= 5 {
      var tail := low[n - 5..];
      assert tail == [low[n - 5], low[n - 4], low[n - 3], low[n - 2], low[n - 1]];
      assert low[n - 5] == LowerChar(path[n - 5]);
      LowerCharIs(path[n - 4], 'f');
      LowerCharIs(path[n - 3], 'l');
      LowerCharIs(path[n - 2], 'a');
      LowerCharIs(path[n - 1], 'c');
    }
  }

  /** The playable test: FLAC exactly when the lowered path ends in ".flac". */
  function ResolveMediaType(path: string): (r: (MediaType, bool))
    ensures r == (TypeFlac, true) || r == (TypeUnknown, false)
    ensures r.1 <==> EndsInFlac(path)
  {
    LowerSuffixFlac(path);
    if HasSuffix(ToLower(path), ".flac") then (TypeFlac, true) else (TypeUnknown, false)
  }

  lemma ResolveMediaTypeExamples()
    ensures ResolveMediaType("A.FLAC") == (TypeFlac, true)
    ensures ResolveMediaType("song.Flac") == (TypeFlac, true)
    ensures ResolveMediaType("xflac") == (TypeUnknown, false)
    ensures ResolveMediaType(".flac.mp3") == (TypeUnknown, false)
  {
    assert EndsInFlac("A.FLAC");
    assert EndsInFlac("song.Flac");
  }

  /** The walk callback's test: a non-directory path that resolves as playable. */
  predicate KeepsEntry(e: Entry)
    ensures KeepsEntry(e) <==> !e.isDir && EndsInFlac(e.path)
  {
    !e.isDir && ResolveMediaType(e.path).1
  }

  /** Index of the first entry the walk reported an error for, or |es| if none. */
  function FirstFailure(es: seq<Entry>): (k: nat)
    ensures k <= |es|
    ensures forall i :: 0 <= i < k ==> !es[i].failed
    ensures k < |es| ==> es[k].failed
  {
    if es == [] then 0
    else if es[0].failed then 0
    else 1 + FirstFailure(es[1..])
  }

  /**
   The files the walk collects: the callback returns the first reported error,
   which ends the walk, so only entries visited before it are considered.
   */
  function WalkFiles(es: seq<Entry>): (files: seq<string>)
    ensures |files| <= FirstFailure(es)
    ensures forall p :: p in files ==> EndsInFlac(p)
  {
    KeptFlac(es[..FirstFailure(es)]);
    Kept(es[..FirstFailure(es)], KeepsEntry)
  }

  lemma {:induction false} KeptFlac(es: seq<Entry>)
    ensures forall p :: p in Kept(es, KeepsEntry) ==> EndsInFlac(p)
  {
    if es != [] {
      KeptFlac(es[..|es| - 1]);
    }
  }

  /** A collected path is a non-directory FLAC entry visited before any error. */
  lemma WalkFilesMembership(es: seq<Entry>, p: string)
    ensures p in WalkFiles(es) <==>
      exists i :: 0 <= i < FirstFailure(es) && !es[i].isDir && EndsInFlac(es[i].path) && es[i].path == p
  {
    var k := FirstFailure(es);
    var pre := es[..k];
    KeptMembership(pre, KeepsEntry, p);
    if p in WalkFiles(es) {
      var i :| 0 <= i < |pre| && KeepsEntry(pre[i]) && pre[i].path == p;
      assert es[i] == pre[i];
      assert !es[i].isDir && EndsInFlac(es[i].path);
    }
    if exists i :: 0 <= i < k && !es[i].isDir && EndsInFlac(es[i].path) && es[i].path == p {
      var i :| 0 <= i < k && !es[i].isDir && EndsInFlac(es[i].path) && es[i].path == p;
      assert pre[i] == es[i];
      assert KeepsEntry(pre[i]);
    }
  }

  /**
   The walk with its callback: append every kept path, stop at the first
   reported error and return it.
   */
  method CollectFiles(es: seq<Entry>) returns (files: seq<string>, walkFailed: bool)
    ensures files == WalkFiles(es)
    ensures walkFailed <==> exists i :: 0 <= i < |es| && es[i].failed
  {
    files, walkFailed := [], false;
    var k := 0;
    while k < |es| && !walkFailed
      invariant 0 <= k <= FirstFailure(es)
      invariant walkFailed ==> k == FirstFailure(es) < |es|
      invariant !walkFailed ==> forall i :: 0 <= i < k ==> !es[i].failed
      invariant files == Kept(es[..k], KeepsEntry)
      decreases |es| - k, !walkFailed
    {
      if es[k].failed {
        walkFailed := true;
      } else {
        assert es[..k + 1][..k] == es[..k];
        if !es[k].isDir && ResolveMediaType(es[k].path).1 {
          files := files + [es[k].path];
        }
        k := k + 1;
      }
    }
  }

  // ---------------------------------------------------------------------
  // Track selection

  /**
   The random choice: pick stands for the random index, which is below the
   list's length whenever the list is not empty.
   */
  function SelectFile(files: seq<string>, pick: nat): (r: Result<string, Error>)
    requires files != [] ==> pick < |files|
    ensures r.Failure? <==> files == []
    ensures r.Failure? ==> r.error == NoFilesToSelect
    ensures r.Success? ==> r.value in files && r.value == files[pick]
  {
    if |files| == 0 then Failure(NoFilesToSelect) else Success(files[pick])
  }

  // ---------------------------------------------------------------------
  // Track information

  /** The artist and title a tag reader reports; either may be empty. */
  datatype Tags = Tags(artist: string, title: string)

  function Quote(s: string): string
  {
    "\"" + s + "\""
  }

  /** The non-empty artist, then the non-empty quoted title, appended in that order. */
  function TrackInfoParts(t: Tags): (parts: seq<string>)
    ensures |parts| == (if t.artist != "" then 1 else 0) + (if t.title != "" then 1 else 0)
    ensures t.artist != "" ==> parts[0] == t.artist
    ensures t.title != "" ==> parts[|parts| - 1] == Quote(t.title)
    ensures forall q :: q in parts ==> q != ""
  {
    var lead := if |t.artist| > 0 then [t.artist] else [];
    if |t.title| > 0 then lead + [Quote(t.title)] else lead
  }

  /** The parts joined by one space. */
  function FormatTrackInfo(t: Tags): (r: string)
    ensures r == "" <==> t.artist == "" && t.title == ""
    ensures t.artist != "" && t.title != "" ==> r == t.artist + " " + Quote(t.title)
    ensures t.artist != "" && t.title == "" ==> r == t.artist
    ensures t.artist == "" && t.title != "" ==> r == Quote(t.title)
  {
    JoinAppend([t.artist], " ", Quote(t.title));
    Join(TrackInfoParts(t), " ")
  }

  /**
   What reading the track information returns: an error only when the file
   cannot be opened, the empty string when the tags cannot be parsed.
   */
  function TrackInfo(path: string, openOk: bool, tags: Option<Tags>): (r: Result<string, Error>)
    ensures r.Failure? <==> !openOk
    ensures r.Failure? ==> r.error == OpenFailed(path)
    ensures openOk && tags.None? ==> r == Success("")
    ensures openOk && tags.Some? ==> r.Success? && r.value == FormatTrackInfo(tags.value)
  {
    if !openOk then Failure(OpenFailed(path))
    else match tags
      case None => Success("")
      case Some(t) => Success(FormatTrackInfo(t))
  }

  /** The artist leads the information and the quoted title ends it. */
  lemma TrackInfoShape(t: Tags)
    ensures t.artist != "" ==> exists rest :: FormatTrackInfo(t) == t.artist + rest
    ensures t.title != "" ==> exists lead :: FormatTrackInfo(t) == lead + Quote(t.title)
    ensures |FormatTrackInfo(t)| ==
      |t.artist| + (if t.title != "" then |t.title| + 2 else 0) + (if t.artist != "" && t.title != "" then 1 else 0)
  {
    var r := FormatTrackInfo(t);
    if t.artist != "" && t.title != "" {
      assert r == t.artist + (" " + Quote(t.title));
      assert r == (t.artist + " ") + Quote(t.title);
    } else if t.artist != "" {
      assert r == t.artist + "";
    } else if t.title != "" {
      assert r == "" + Quote(t.title);
    }
  }

  // ---------------------------------------------------------------------
  // The playback session

  /** An opened file handle. */
  datatype File = File(path: string)

  /**
   What the environment does during one iteration of the session loop.
   pick: the random index. infoOpens: opening the file for tag reading
   succeeds. tags: the parsed tags, None when parsing fails. opens: opening
   the file for playback succeeds. decodes: the FLAC decoder accepts it.
   expires: the deadline passes during this iteration. midTrack: when it does
   and a track is playing, it passes before the track ends (the cancellation
   branch of the race wins).
   */
  datatype Step = Step(pick: nat, infoOpens: bool, tags: Option<Tags>, opens: bool,
                       decodes: bool, expires: bool, midTrack: bool)

  /** The track one iteration plays: nothing when selection, information, open or decode fails. */
  function Plays(files: seq<string>, step: Step): (r: seq<string>)
    requires files != [] ==> step.pick < |files|
    ensures |r| <= 1
    ensures r != [] <==> files != [] && step.infoOpens && step.opens && step.decodes
    ensures r != [] ==> r[0] == files[step.pick] && r[0] in files
  {
    if files != [] && step.infoOpens && step.opens && step.decodes then [files[step.pick]] else []
  }

  /** Every random index of the run is within the list, as the random source guarantees. */
  predicate PicksInRange(files: seq<string>, steps: seq<Step>)
  {
    forall j :: 0 <= j < |steps| ==> files == [] || steps[j].pick < |files|
  }

  /** The tracks the first k iterations of a run play, in order. */
  function PlayedBy(files: seq<string>, env: seq<Step>, k: nat): (r: seq<string>)
    requires PicksInRange(files, env) && k <= |env|
  {
    if k == 0 then [] else PlayedBy(files, env, k - 1) + Plays(files, env[k - 1])
  }

  /** Every played track was in the list and no iteration plays more than one. */
  lemma {:induction false} PlayedByBounds(files: seq<string>, env: seq<Step>, k: nat)
    requires PicksInRange(files, env) && k <= |env|
    ensures |PlayedBy(files, env, k)| <= k
    ensures forall p :: p in PlayedBy(files, env, k) ==> p in files
  {
    if k > 0 {
      PlayedByBounds(files, env, k - 1);
    }
  }

  lemma ConcatAssoc<T>(a: seq<T>, b: seq<T>, c: seq<T>)
    ensures (a + b) + c == a + (b + c)
  {
  }

  /** No iteration before the k-th is the one in which the deadline passes. */
  predicate NoneExpiresBefore(env: seq<Step>, k: int)
  {
    forall j :: 0 <= j < k && j < |env| ==> !env[j].expires
  }

  /**
   Whether the last of the first k iterations had its track cut short by the
   deadline, so that playback was cleared.
   */
  predicate ClearedBy(files: seq<string>, env: seq<Step>, k: nat)
    requires PicksInRange(files, env) && k <= |env|
  {
    k > 0 && env[k - 1].expires && env[k - 1].midTrack && Plays(files, env[k - 1]) != []
  }

  /** Handles one iteration opens: one for tag reading, one for playback. */
  function HandlesOpened(files: seq<string>, step: Step): nat
  {
    if files == [] || !step.infoOpens then 0
    else if step.opens then 2
    else 1
  }

  class Session {
    /** Whether the speaker has been initialised (shared with playTrack by pointer). */
    var speakerInitialized: bool
    /** Whether the session's context has expired. */
    var cancelled: bool

    ghost var initCount: nat
    ghost var opens: nat
    ghost var closes: nat
    ghost var clears: nat
    ghost var played: seq<string>
    ghost var iterations: nat

    /**
     The speaker is initialised at most once, exactly when a track has been
     played, and playback is cleared at most once per played track.
     */
    ghost predicate SpeakerValid()
      reads this
    {
      && initCount <= 1
      && (speakerInitialized <==> initCount == 1)
      && (initCount == 1 <==> played != [])
      && clears <= |played|
    }

    /** Between iterations, in addition, every opened handle has been closed. */
    ghost predicate Valid()
      reads this
    {
      SpeakerValid() && opens == closes
    }

    /** A session whose timeout is the given number of seconds; a non-positive one has already expired. */
    constructor (timeoutSeconds: int)
      ensures Valid()
      ensures !speakerInitialized && cancelled == (timeoutSeconds <= 0)
      ensures initCount == 0 && opens == 0 && closes == 0 && clears == 0
      ensures played == [] && iterations == 0
    {
      speakerInitialized := false;
      cancelled := timeoutSeconds <= 0;
      initCount, opens, closes, clears := 0, 0, 0, 0;
      played, iterations := [], 0;
    }

    method OpenFile(path: string, ok: bool) returns (r: Result<File, Error>)
      modifies this`opens
      ensures r.Success? <==> ok
      ensures r.Success? ==> r.value == File(path)
      ensures r.Failure? ==> r.error == OpenFailed(path)
      ensures opens == old(opens) + (if ok then 1 else 0)
    {
      if ok {
        opens := opens + 1;
        r := Success(File(path));
      } else {
        r := Failure(OpenFailed(path));
      }
    }

    method CloseFile(f: File)
      modifies this`closes
      ensures closes == old(closes) + 1
    {
      closes := closes + 1;
    }

    /** Opens the file, reads its tags and closes it again on every path after the open. */
    method ReadTrackInfo(path: string, openOk: bool, tags: Option<Tags>) returns (r: Result<string, Error>)
      modifies this`opens, this`closes
      ensures r == TrackInfo(path, openOk, tags)
      ensures opens == old(opens) + (if openOk then 1 else 0)
      ensures closes - old(closes) == opens - old(opens)
    {
      var f := OpenFile(path, openOk);
      if f.Failure? {
        return Failure(OpenFailed(path));
      }
      if tags.None? {
        r := Success("");
      } else {
        r := Success(FormatTrackInfo(tags.value));
      }
      CloseFile(f.value);
    }

    /**
     Decodes and plays one openOk file. A decode failure returns an error
     before the speaker flag is looked at. Otherwise the speaker is
     initialised if it was not, the track plays, and on cancellation the
     speaker is cleared; both branches return no error.
     */
    method PlayTrack(f: File, decodes: bool, interrupted: bool) returns (err: Option<Error>)
      requires SpeakerValid()
      modifies this`speakerInitialized, this`initCount, this`played, this`clears
      ensures SpeakerValid()
      ensures err.Some? <==> !decodes
      ensures err.Some? ==> err.value == DecodeFailed(f.path)
      ensures !decodes ==> speakerInitialized == old(speakerInitialized) && initCount == old(initCount)
                           && played == old(played) && clears == old(clears)
      ensures decodes ==> speakerInitialized && played == old(played) + [f.path]
      ensures initCount == old(initCount) + (if decodes && !old(speakerInitialized) then 1 else 0)
      ensures clears == old(clears) + (if decodes && interrupted then 1 else 0)
    {
      if !decodes {
        return Some(DecodeFailed(f.path));
      }
      if !speakerInitialized {
        initCount := initCount + 1;
        speakerInitialized := true;
      }
      played := played + [f.path];
      if interrupted {
        clears := clears + 1;
      }
      err := None;
    }

    /**
     One pass of the session loop: select, read the information, open, play,
     close. A failure at any of the first three skips the rest of the pass.
     */
    method Iteration(files: seq<string>, step: Step)
      requires Valid() && !cancelled
      requires files != [] ==> step.pick < |files|
      modifies this
      ensures Valid()
      ensures cancelled == step.expires
      ensures iterations == old(iterations) + 1
      ensures played == old(played) + Plays(files, step)
      ensures opens == old(opens) + HandlesOpened(files, step)
      ensures clears == old(clears) + (if Plays(files, step) != [] && step.expires && step.midTrack then 1 else 0)
      ensures initCount == old(initCount) + (if Plays(files, step) != [] && !old(speakerInitialized) then 1 else 0)
    {
      var selected := SelectFile(files, step.pick);
      if selected.Success? {
        var path := selected.value;
        var info := ReadTrackInfo(path, step.infoOpens, step.tags);
        if info.Success? {
          var f := OpenFile(path, step.opens);
          if f.Success? {
            var err := PlayTrack(f.value, step.decodes, step.expires && step.midTrack);
            CloseFile(f.value);
          }
        }
      }
      cancelled := cancelled || step.expires;
      iterations := iterations + 1;
    }

    /**
     The session loop: iterate while the context has not expired, over the
     iterations the environment describes. No iteration starts after the one
     in which the deadline passed.
     */
    method PlayUntilTimeout(files: seq<string>, env: seq<Step>) returns (ran: nat)
      requires Valid()
      requires PicksInRange(files, env)
      modifies this
      ensures Valid()
      ensures ran <= |env| && iterations == old(iterations) + ran
      ensures old(cancelled) ==> cancelled && ran == 0 && played == old(played)
      ensures cancelled || ran == |env|
      ensures NoneExpiresBefore(env, ran - 1)
      ensures cancelled <==> old(cancelled) || (ran > 0 && env[ran - 1].expires)
      ensures played == old(played) + PlayedBy(files, env, ran)
      ensures clears == old(clears) + (if ClearedBy(files, env, ran) then 1 else 0)
    {
      ran := 0;
      if cancelled {
        return;
      }
      while ran < |env| && !cancelled
        invariant Valid()
        invariant 0 <= ran <= |env| && iterations == old(iterations) + ran
        invariant NoneExpiresBefore(env, ran - 1)
        invariant cancelled <==> ran > 0 && env[ran - 1].expires
        invariant played == old(played) + PlayedBy(files, env, ran)
        invariant clears == old(clears) + (if ClearedBy(files, env, ran) then 1 else 0)
      {
        ghost var before := played;
        Iteration(files, env[ran]);
        assert played == (old(played) + PlayedBy(files, env, ran)) + Plays(files, env[ran]) by {
          assert played == before + Plays(files, env[ran]);
        }
        ConcatAssoc(old(played), PlayedBy(files, env, ran), Plays(files, env[ran]));
        ran := ran + 1;
      }
    }
  }

  // ---------------------------------------------------------------------
  // The command

  /**
   The configuration file as read: whether it loads, the playback timer when
   it parses as an integer, and the music directory ("" when absent).
   */
  datatype Config = Config(loaded: bool, timer: Option<int>, musicDir: string)

  datatype Exit = ConfigUnreadable | TimerInvalid | MusicDirMissing | NoFiles | SessionEnded

  /**
   The command: read the configuration, collect the files, and, when there is
   at least one, run a playback session until the timeout.
   */
  method Run(cfg: Config, es: seq<Entry>, env: seq<Step>) returns (exit: Exit, session: Session?)
    requires PicksInRange(WalkFiles(es), env)
    ensures !cfg.loaded ==> exit == ConfigUnreadable
    ensures cfg.loaded && cfg.timer.None? ==> exit == TimerInvalid
    ensures cfg.loaded && cfg.timer.Some? && cfg.musicDir == "" ==> exit == MusicDirMissing
    ensures cfg.loaded && cfg.timer.Some? && cfg.musicDir != "" ==>
              (exit == NoFiles <==> WalkFiles(es) == []) && (exit == SessionEnded <==> WalkFiles(es) != [])
    ensures session != null <==> exit == SessionEnded
    ensures session != null ==> fresh(session) && session.Valid() && session.opens == session.closes
    ensures session != null ==> forall p :: p in session.played ==> p in WalkFiles(es)
    ensures session != null ==> session.iterations <= |env| && (session.cancelled || session.iterations == |env|)
    ensures session != null && cfg.timer.value <= 0 ==> session.iterations == 0 && !session.speakerInitialized
  {
    session := null;
    if !cfg.loaded {
      return ConfigUnreadable, null;
    }
    if cfg.timer.None? {
      return TimerInvalid, null;
    }
    if cfg.musicDir == "" {
      return MusicDirMissing, null;
    }
    var files, walkFailed := CollectFiles(es);
    if |files| == 0 {
      return NoFiles, null;
    }
    session := new Session(cfg.timer.value);
    var ran := session.PlayUntilTimeout(files, env);
    PlayedByBounds(files, env, ran);
    assert session.played == PlayedBy(files, env, ran);
    exit := SessionEnded;
  }
}
