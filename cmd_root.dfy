/**
 The first version of the tool (cmd/root.go): it reads a music directory
 from its configuration, collects the files whose names end in "flac", plays
 one randomly chosen file to its end and exits.

 Configuration loading, the directory walk, opening and decoding are
 inputs; the speaker is represented by the number of times it is
 initialised.
 */
module CmdRoot {
  import opened Strings
  import opened Walk
  import CliRoot

  /**
   Reference reading of "the path ends in flac, in any letter case", without
   lowering the string: no dot is required before the four letters.
   */
  predicate EndsInFlacLetters(path: string)
  {
    var n := |path|;
    && n >= 4
    && (path[n - 4] == 'f' || path[n - 4] == 'F')
    && (path[n - 3] == 'l' || path[n - 3] == 'L')
    && (path[n - 2] == 'a' || path[n - 2] == 'A')
    && (path[n - 1] == 'c' || path[n - 1] == 'C')
  }

  /** Lowering then testing the "flac" suffix is the character-wise test. */
  lemma LowerSuffixFlacLetters(path: string)
    ensures HasSuffix(ToLower(path), "flac") <==> EndsInFlacLetters(path)
  {
    var low := ToLower(path);
    var n := |path|;
    assert "flac" == ['f', 'l', 'a', 'c'];
    if n >= 4 {
      assert low[n - 4..] == [low[n - 4], low[n - 3], low[n - 2], low[n - 1]];
      LowerCharIs(path[n - 4], 'f');
      LowerCharIs(path[n - 3], 'l');
      LowerCharIs(path[n - 2], 'a');
      LowerCharIs(path[n - 1], 'c');
    }
  }

  /** The walk callback's test: not a directory, and the lowered path ends in "flac". */
  function KeepsEntry(e: Entry): (keep: bool)
    ensures keep <==> !e.isDir && EndsInFlacLetters(e.path)
  {
    LowerSuffixFlacLetters(e.path);
    !e.isDir && HasSuffix(ToLower(e.path), "flac")
  }

  /**
   The files the walk collects. The callback reports an error but returns
   nil, so the walk never stops early and every entry is considered.
   */
  function FlacFiles(es: seq<Entry>): seq<string>
  {
    Kept(es, KeepsEntry)
  }

  /** A collected path is exactly a visited non-directory path ending in "flac". */
  lemma FlacFilesMembership(es: seq<Entry>, p: string)
    ensures p in FlacFiles(es) <==>
      exists i :: 0 <= i < |es| && !es[i].isDir && EndsInFlacLetters(es[i].path) && es[i].path == p
  {
    KeptMembership(es, KeepsEntry, p);
  }

  /** The walk with its callback: every visited entry is tested and kept paths are appended. */
  method CollectFiles(es: seq<Entry>) returns (files: seq<string>)
    ensures files == FlacFiles(es)
  {
    files := [];
    var k := 0;
    while k < |es|
      invariant 0 <= k <= |es|
      invariant files == Kept(es[..k], KeepsEntry)
    {
      assert es[..k + 1][..k] == es[..k];
      if !es[k].isDir && HasSuffix(ToLower(es[k].path), "flac") {
        files := files + [es[k].path];
      }
      k := k + 1;
    }
    assert es[..k] == es;
  }

  // ---------------------------------------------------------------------
  // How the filter differs from the later version's

  /** Every path the later version accepts is accepted here too. */
  lemma PlayableImpliesKept(path: string)
    ensures CliRoot.ResolveMediaType(path).1 ==> EndsInFlacLetters(path)
  {
  }

  /** The converse fails: a name ending in "flac" without a dot is kept here only. */
  lemma KeptWithoutDot()
    ensures KeepsEntry(Entry("songflac", false, false))
    ensures !CliRoot.KeepsEntry(Entry("songflac", false, false))
    ensures KeepsEntry(Entry("A.FLAC", false, false)) && CliRoot.KeepsEntry(Entry("A.FLAC", false, false))
  {
    assert EndsInFlacLetters("songflac");
    assert EndsInFlacLetters("A.FLAC");
    assert CliRoot.EndsInFlac("A.FLAC");
  }

  /**
   Every file the later version collects is collected here too: its filter
   is stricter, and it stops at the first reported error where this one
   goes on.
   */
  lemma CliFilesAreCollected(es: seq<Entry>, p: string)
    ensures p in CliRoot.WalkFiles(es) ==> p in FlacFiles(es)
  {
    if p in CliRoot.WalkFiles(es) {
      CliRoot.WalkFilesMembership(es, p);
      var i :| 0 <= i < CliRoot.FirstFailure(es) && !es[i].isDir && CliRoot.EndsInFlac(es[i].path) && es[i].path == p;
      FlacFilesMembership(es, p);
      assert EndsInFlacLetters(es[i].path);
    }
  }

  /**
   A walk that enters root, then a sub-directory that cannot be read (the
   walk reports it a second time, with the error), then visits song.
   */
  function LockedWalk(root: string, sub: string, song: string): (es: seq<Entry>)
    ensures |es| == 4 && es[2].failed && es[3].path == song
  {
    [Entry(root, true, false), Entry(sub, true, false), Entry(sub, true, true), Entry(song, false, false)]
  }

  /**
   A reported error does not end this walk: a file visited after the
   unreadable directory is still collected, while the later version, whose
   walk stops at the error, collects nothing.
   */
  lemma ErrorDoesNotStopWalk(root: string, sub: string, song: string)
    requires EndsInFlacLetters(song)
    ensures FlacFiles(LockedWalk(root, sub, song)) == [song]
    ensures CliRoot.WalkFiles(LockedWalk(root, sub, song)) == []
  {
    var es := LockedWalk(root, sub, song);
    var dirs := es[..3];
    assert forall i :: 0 <= i < |dirs| ==> dirs[i].isDir;
    KeptEmpty(dirs, KeepsEntry);
    assert FlacFiles(es) == Kept(dirs, KeepsEntry) + [song];
    assert CliRoot.FirstFailure(es) == 2;
    var head := es[..2];
    assert forall i :: 0 <= i < |head| ==> head[i].isDir;
    KeptEmpty(head, CliRoot.KeepsEntry);
  }

  /** The same walk with concrete paths: "music", its locked "music/locked", then "music/z.flac". */
  lemma ErrorDoesNotStopWalkExample()
    ensures FlacFiles(LockedWalk("music", "music/locked", "music/z.flac")) == ["music/z.flac"]
    ensures CliRoot.WalkFiles(LockedWalk("music", "music/locked", "music/z.flac")) == []
  {
    ErrorDoesNotStopWalk("music", "music/locked", "music/z.flac");
  }

  // ---------------------------------------------------------------------
  // The command

  /** The configuration file as read: whether it loads, and the music directory ("" when absent). */
  datatype Config = Config(loaded: bool, musicDir: string)

  datatype Exit =
    | ConfigUnreadable
    | MusicDirMissing
    | NoFiles
    | DecodeFatal(path: string)   // log.Fatal: the process exits, deferred calls do not run
    | Played(path: string)

  /**
   The command. pick stands for the random index, below the number of
   collected files whenever there is one; decodes says whether the decoder
   accepts the chosen file.
   */
  method Run(cfg: Config, es: seq<Entry>, pick: nat, decodes: bool)
    returns (exit: Exit, walked: bool, speakerInits: nat, handleClosed: bool)
    requires FlacFiles(es) != [] ==> pick < |FlacFiles(es)|
    ensures exit == ConfigUnreadable <==> !cfg.loaded
    ensures exit == MusicDirMissing <==> cfg.loaded && cfg.musicDir == ""
    ensures walked <==> cfg.loaded && cfg.musicDir != ""
    ensures walked ==> (exit == NoFiles <==> FlacFiles(es) == [])
    ensures exit.DecodeFatal? || exit.Played? ==>
              walked && exit.path == FlacFiles(es)[pick] && exit.path in FlacFiles(es)
    ensures exit.Played? <==> walked && FlacFiles(es) != [] && decodes
    ensures speakerInits == (if exit.Played? then 1 else 0)
    ensures handleClosed <==> exit.Played?
  {
    walked, speakerInits, handleClosed := false, 0, false;
    if !cfg.loaded {
      return ConfigUnreadable, walked, speakerInits, handleClosed;
    }
    if cfg.musicDir == "" {
      return MusicDirMissing, walked, speakerInits, handleClosed;
    }
    var files := CollectFiles(es);
    walked := true;
    if |files| == 0 {
      return NoFiles, walked, speakerInits, handleClosed;
    }
    var selected := files[pick];
    if !decodes {
      return DecodeFatal(selected), walked, speakerInits, handleClosed;
    }
    speakerInits := speakerInits + 1;
    handleClosed := true;
    exit := Played(selected);
  }
}
