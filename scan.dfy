/**
 * Directory discovery. The filesystem is not modelled: `os.walk` is given
 * as the sequence of `(root, files)` entries it yields, in its order, and
 * `os.listdir` as the sequence of names it returns. The functions here say
 * which paths a scan for one extension keeps.
 */
module Scan {
  import opened PyStr
  import opened PyPath

  /** One `(root, dirs, files)` triple of `os.walk`; `dirs` plays no part. */
  datatype WalkEntry = WalkEntry(root: string, files: seq<string>)

  /** The extension test of the scanners: `name.lower().endswith(ext)`. */
  predicate HasExt(name: string, ext: string) {
    EndsWith(Lower(name), ext)
  }

  /** `os.path.join(root, name)` for every name of `names` that passes the
      extension test, in the order of `names`. */
  function Matches(root: string, names: seq<string>, ext: string): seq<string>
    decreases |names|
  {
    if names == [] then []
    else
      var n := names[|names| - 1];
      Matches(root, names[..|names| - 1], ext) + (if HasExt(n, ext) then [Join(root, n)] else [])
  }

  /** The matching files of a whole walk, entry after entry. */
  function WalkMatches(walk: seq<WalkEntry>, ext: string): seq<string>
    decreases |walk|
  {
    if walk == [] then []
    else
      var e := walk[|walk| - 1];
      WalkMatches(walk[..|walk| - 1], ext) + Matches(e.root, e.files, ext)
  }

  /** Every entry of the walk is the scanned directory itself or lies below
      it, and every file name is a plain name, as `os.walk(top)` yields. */
  predicate WalkBelow(walk: seq<WalkEntry>, top: string) {
    forall i :: 0 <= i < |walk| ==>
      && (walk[i].root == top || Under(walk[i].root, top))
      && forall j :: 0 <= j < |walk[i].files| ==> IsName(walk[i].files[j])
  }

  /** The filter keeps a path exactly when it is some listed name joined
      onto the root and that name passes the extension test. */
  lemma MatchesMembers(root: string, names: seq<string>, ext: string, p: string)
    ensures p in Matches(root, names, ext) <==>
      exists j :: 0 <= j < |names| && HasExt(names[j], ext) && p == Join(root, names[j])
  {
    if p in Matches(root, names, ext) {
      var j := MatchesSource(root, names, ext, p);
    }
    if exists j :: 0 <= j < |names| && HasExt(names[j], ext) && p == Join(root, names[j]) {
      var j :| 0 <= j < |names| && HasExt(names[j], ext) && p == Join(root, names[j]);
      MatchesKeeps(root, names, ext, j);
    }
  }

  /** Every kept path comes from a listed name that passes the test. */
  lemma {:induction false} MatchesSource(root: string, names: seq<string>, ext: string, p: string)
    returns (j: int)
    requires p in Matches(root, names, ext)
    ensures 0 <= j < |names| && HasExt(names[j], ext) && p == Join(root, names[j])
    decreases |names|
  {
    var init, last := names[..|names| - 1], names[|names| - 1];
    var tail := if HasExt(last, ext) then [Join(root, last)] else [];
    assert Matches(root, names, ext) == Matches(root, init, ext) + tail;
    if p in Matches(root, init, ext) {
      j := MatchesSource(root, init, ext, p);
      assert names[j] == init[j];
    } else {
      assert p in tail;
      j := |names| - 1;
    }
  }

  /** Every listed name that passes the test is kept, joined onto the root. */
  lemma {:induction false} MatchesKeeps(root: string, names: seq<string>, ext: string, j: int)
    requires 0 <= j < |names| && HasExt(names[j], ext)
    ensures Join(root, names[j]) in Matches(root, names, ext)
    decreases |names|
  {
    var init, last := names[..|names| - 1], names[|names| - 1];
    var tail := if HasExt(last, ext) then [Join(root, last)] else [];
    assert Matches(root, names, ext) == Matches(root, init, ext) + tail;
    if j < |init| {
      assert init[j] == names[j];
      MatchesKeeps(root, init, ext, j);
    } else {
      assert Join(root, names[j]) in tail;
    }
  }

  /** Filtering distributes over concatenation: kept names appear in the
      order in which they were listed. */
  lemma {:induction false} MatchesAppend(root: string, a: seq<string>, b: seq<string>, ext: string)
    ensures Matches(root, a + b, ext) == Matches(root, a, ext) + Matches(root, b, ext)
    decreases |b|
  {
    if b != [] {
      var b' := b[..|b| - 1];
      assert (a + b)[..|a + b| - 1] == a + b';
      MatchesAppend(root, a, b', ext);
    } else {
      assert a + b == a;
    }
  }

  /** The same for a walk: the files of one entry come after those of the
      entries the walk yielded before it. */
  lemma {:induction false} WalkMatchesAppend(w1: seq<WalkEntry>, w2: seq<WalkEntry>, ext: string)
    ensures WalkMatches(w1 + w2, ext) == WalkMatches(w1, ext) + WalkMatches(w2, ext)
    decreases |w2|
  {
    if w2 != [] {
      var w2' := w2[..|w2| - 1];
      assert (w1 + w2)[..|w1 + w2| - 1] == w1 + w2';
      WalkMatchesAppend(w1, w2', ext);
    } else {
      assert w1 + w2 == w1;
    }
  }

  /** Every file a walk below `top` yields lies below `top`, so
      `os.path.relpath(path, top)` is defined for it. */
  lemma {:induction false} WalkMatchesBelow(walk: seq<WalkEntry>, top: string, ext: string)
    requires top != [] && WalkBelow(walk, top)
    ensures forall p :: p in WalkMatches(walk, ext) ==> Under(p, top)
    decreases |walk|
  {
    if walk != [] {
      var init := walk[..|walk| - 1];
      var e := walk[|walk| - 1];
      assert WalkBelow(init, top) by {
        forall i | 0 <= i < |init| ensures init[i] == walk[i] { }
      }
      WalkMatchesBelow(init, top, ext);
      forall p | p in Matches(e.root, e.files, ext) ensures Under(p, top) {
        MatchesMembers(e.root, e.files, ext, p);
        var j :| 0 <= j < |e.files| && HasExt(e.files[j], ext) && p == Join(e.root, e.files[j]);
        if e.root == top {
          RelPathJoin(top, e.files[j]);
        } else {
          JoinUnder(e.root, top, e.files[j]);
        }
      }
    }
  }
}
