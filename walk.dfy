/**
 What a recursive directory walk delivers to its callback, and the
 order-preserving selection of paths that both versions of the tool build
 by appending to a slice inside that callback.
 */
module Walk {

  /**
   One callback invocation of the walk: the visited path, whether it is a
   directory, and whether the walk reported an error for it.
   */
  datatype Entry = Entry(path: string, isDir: bool, failed: bool)

  /** The paths of the entries that satisfy keep, in visit order. */
  function Kept(es: seq<Entry>, keep: Entry -> bool): (r: seq<string>)
    ensures |r| <= |es|
  {
    if es == [] then []
    else Kept(es[..|es| - 1], keep) + (if keep(es[|es| - 1]) then [es[|es| - 1].path] else [])
  }

  /** Walking a then b keeps a's paths followed by b's: visit order is preserved. */
  lemma {:induction false} KeptAppend(a: seq<Entry>, b: seq<Entry>, keep: Entry -> bool)
    ensures Kept(a + b, keep) == Kept(a, keep) + Kept(b, keep)
  {
    if b == [] {
      assert a + b == a;
    } else {
      var b' := b[..|b| - 1];
      assert (a + b)[..|a + b| - 1] == a + b';
      assert (a + b)[|a + b| - 1] == b[|b| - 1];
      KeptAppend(a, b', keep);
    }
  }

  /** A path is kept exactly when some visited entry with that path satisfies keep. */
  lemma {:induction false} KeptMembership(es: seq<Entry>, keep: Entry -> bool, p: string)
    ensures p in Kept(es, keep) <==> exists i :: 0 <= i < |es| && keep(es[i]) && es[i].path == p
  {
    if es != [] {
      var init := es[..|es| - 1];
      KeptMembership(init, keep, p);
      if exists i :: 0 <= i < |init| && keep(init[i]) && init[i].path == p {
        var i :| 0 <= i < |init| && keep(init[i]) && init[i].path == p;
        assert es[i] == init[i];
      }
      if exists i :: 0 <= i < |es| && keep(es[i]) && es[i].path == p {
        var i :| 0 <= i < |es| && keep(es[i]) && es[i].path == p;
        if i < |init| {
          assert init[i] == es[i];
        }
      }
    }
  }

  /** Nothing is kept exactly when no visited entry satisfies keep. */
  lemma {:induction false} KeptEmpty(es: seq<Entry>, keep: Entry -> bool)
    ensures Kept(es, keep) == [] <==> forall i :: 0 <= i < |es| ==> !keep(es[i])
  {
    if es != [] {
      var init := es[..|es| - 1];
      KeptEmpty(init, keep);
      assert forall i :: 0 <= i < |init| ==> init[i] == es[i];
    }
  }
}
