/** The stream a control host sends is the stream the receiver reads: every file, its bytes,
    mode and mtime, whatever the chunks, and whatever other exchanges share the socket. */
module Framing {
  import opened Basics
  import opened Paths
  import opened Transfer

  /** The decoder on the messages of its own exchange, with no I/O error. */
  function Feeds(c: Ctx, d: Dec, msgs: seq<Msg>): Dec
    decreases |msgs|
  {
    if !d.Run? || msgs == [] then d else Feeds(c, Feed(c, d, msgs[0]), msgs[1..])
  }

  lemma {:induction false} FeedsAppend(c: Ctx, d: Dec, a: seq<Msg>, b: seq<Msg>)
    ensures Feeds(c, d, a + b) == Feeds(c, Feeds(c, d, a), b)
    decreases |a|
  {
    if a == [] {
      assert a + b == b;
    } else if d.Run? {
      assert (a + b)[0] == a[0] && (a + b)[1..] == a[1..] + b;
      FeedsAppend(c, Feed(c, d, a[0]), a[1..], b);
    }
  }

  function Own(id: string, arrivals: seq<Arrival>): seq<Msg> {
    if arrivals == [] then []
    else (if arrivals[0].msg.id == id then [arrivals[0].msg] else []) + Own(id, arrivals[1..])
  }

  /** Messages of other exchanges change nothing, and an I/O error can only refuse. */
  lemma {:induction false} OwnOnly(c: Ctx, d: Dec, arrivals: seq<Arrival>)
    ensures Decode(c, d, arrivals) == Refused || Decode(c, d, arrivals) == Feeds(c, d, Own(c.id, arrivals))
    ensures (forall a :: a in arrivals ==> !a.ioFails) ==> Decode(c, d, arrivals) == Feeds(c, d, Own(c.id, arrivals))
    decreases |arrivals|
  {
    if d.Run? && arrivals != [] {
      var a, rest := arrivals[0], arrivals[1..];
      assert a in arrivals && forall x :: x in rest ==> x in arrivals;
      if a.msg.id != c.id {
        assert Own(c.id, arrivals) == Own(c.id, rest);
        OwnOnly(c, d, rest);
      } else {
        assert Own(c.id, arrivals)[0] == a.msg && Own(c.id, arrivals)[1..] == Own(c.id, rest);
        OwnOnly(c, Feed(c, d, a.msg), rest);
      }
    }
  }

  // --- one file ---

  function Appended(o: Open, data: string): Open {
    o.(data := o.data + data)
  }

  lemma ChunkFeeds(c: Ctx, o: Open, tree: Files, x: string, last: bool)
    requires WireOk(c.w) && x != ""
    ensures Feed(c, Run(Some(o), tree), FileMsg(c.id, o.rel, "", 0, c.w.enc(x), last)) ==
            if last then Close(c, Run(Some(Appended(o, x)), tree)) else Run(Some(Appended(o, x)), tree)
  {
  }

  lemma {:induction false} PiecesDecode(c: Ctx, o: Open, tree: Files, pieces: seq<string>, eager: bool)
    requires WireOk(c.w) && forall x :: x in pieces ==> x != ""
    ensures Feeds(c, Run(Some(o), tree), SendPieces(c.w, c.id, o.rel, pieces, eager)) ==
            Close(c, Run(Some(Appended(o, Concat(pieces))), tree))
    decreases |pieces|
  {
    var msgs := SendPieces(c.w, c.id, o.rel, pieces, eager);
    var d := Run(Some(o), tree);
    if pieces == [] {
      assert Appended(o, "") == o by { assert o.data + "" == o.data; }
      assert msgs[1..] == [];
      assert Feeds(c, d, msgs) == Feeds(c, Feed(c, d, msgs[0]), []);
    } else {
      assert pieces[0] in pieces;
      ChunkFeeds(c, o, tree, pieces[0], |pieces| == 1 && eager);
      if |pieces| == 1 && eager {
        assert msgs[1..] == [];
        assert Concat(pieces) == pieces[0] by { assert Concat(pieces[1..]) == "" && pieces[0] + "" == pieces[0]; }
        assert Feeds(c, d, msgs) == Feeds(c, Feed(c, d, msgs[0]), []);
      } else {
        var next := Appended(o, pieces[0]);
        assert msgs[1..] == SendPieces(c.w, c.id, next.rel, pieces[1..], eager);
        assert forall x :: x in pieces[1..] ==> x in pieces;
        PiecesDecode(c, next, tree, pieces[1..], eager);
        assert Appended(next, Concat(pieces[1..])) == Appended(o, Concat(pieces)) by {
          assert o.data + pieces[0] + Concat(pieces[1..]) == o.data + (pieces[0] + Concat(pieces[1..]));
        }
      }
    }
  }

  /** A read that fails stops the receiver, whatever came before it. */
  lemma {:induction false} SomeRefused(c: Ctx, o: Open, tree: Files, pieces: seq<string>)
    requires WireOk(c.w) && forall x :: x in pieces ==> x != ""
    ensures Feeds(c, Run(Some(o), tree), SendSome(c.w, c.id, o.rel, pieces)) == Refused
    decreases |pieces|
  {
    var msgs := SendSome(c.w, c.id, o.rel, pieces);
    if pieces != [] {
      assert pieces[0] in pieces;
      ChunkFeeds(c, o, tree, pieces[0], false);
      assert msgs[1..] == SendSome(c.w, c.id, o.rel, pieces[1..]);
      assert forall x :: x in pieces[1..] ==> x in pieces;
      SomeRefused(c, Appended(o, pieces[0]), tree, pieces[1..]);
    }
  }

  /** A file lands with its bytes, its mode and its mtime, whatever the pieces it came in. */
  lemma FileDecodes(c: Ctx, tree: Files, p: string, n: Node, r: Reading)
    requires WireOk(c.w) && n.File? && n.mode < 512 && Reads(r, n.data)
    requires Plain(Names(p)) && Names(p) != [] && !Blocked(tree, Names(p)) && !IsDir(tree, Names(p))
    ensures Feeds(c, Run(None, tree), SendFile(c.w, c.id, p, n, r)) ==
            if r.opens && r.intact then Run(None, tree[Names(p) := Delivered(n, c.stamp)]) else Refused
  {
    var msgs := SendFile(c.w, c.id, p, n, r);
    var d := Run(None, tree);
    if !r.opens {
      assert Feeds(c, d, msgs) == Feeds(c, Feed(c, d, msgs[0]), msgs[1..]);
    } else {
      LandNames(c.tree, p);
      PermRoundTrip(n.mode);
      var o := Open(p, Names(p), Perm(Octal(n.mode)), n.mtime, "");
      assert Feed(c, d, msgs[0]) == Run(Some(o), tree);
      assert Feeds(c, d, msgs) == Feeds(c, Run(Some(o), tree), msgs[1..]);
      if r.intact {
        assert msgs[1..] == SendPieces(c.w, c.id, p, r.pieces, r.eager);
        PiecesDecode(c, o, tree, r.pieces, r.eager);
        assert "" + n.data == n.data;
      } else {
        assert msgs[1..] == SendSome(c.w, c.id, p, r.pieces);
        SomeRefused(c, o, tree, r.pieces);
      }
    }
  }

  lemma LandNames(at: Path, p: string)
    requires Plain(Names(p)) && Names(p) != []
    ensures Land(at, p) == Some(Names(p)) && Text(Names(p)) == p
  {
    assert p != ".";
    JoinSplit(p, '/');
    WalkPlain(at, Names(p));
  }

  // --- the whole stream ---

  /** The staged tree once those files have landed on top of another. */
  ghost function Staged(tree: Files, source: Source, paths: seq<string>, stamp: int): Files
    requires forall p :: p in paths ==> p in source && source[p].File?
    decreases |paths|
  {
    if paths == [] then tree
    else Staged(tree[Names(paths[0]) := Delivered(source[paths[0]], stamp)], source, paths[1..], stamp)
  }

  /** Every staged path is a path of the source. */
  ghost predicate FromSource(tree: Files, source: Source) {
    forall q :: q in tree ==> Plain(q) && q != [] && Text(q) in source
  }

  lemma NoConflict(tree: Files, source: Source, p: string)
    requires SourceOk(source) && FromSource(tree, source) && p in source
    ensures !Blocked(tree, Names(p)) && !IsDir(tree, Names(p))
  {
    forall q | q in tree ensures !(q < Names(p)) && !(Names(p) < q) {
      NamesOfText(q);
      assert !Nested(p, Text(q)) && !Nested(Text(q), p);
    }
    forall k | 0 <= k < |Names(p)| ensures Names(p)[..k] !in tree {
      assert Names(p)[..k] < Names(p);
    }
  }

  lemma {:induction false} AllDecode(c: Ctx, tree: Files, source: Source, paths: seq<string>, disk: Disk)
    requires WireOk(c.w) && SourceOk(source) && DiskOk(disk, source) && FromSource(tree, source)
    requires forall p :: p in paths ==> p in source
    ensures Feeds(c, Run(None, tree), SendAll(c.w, c.id, paths, source, disk)) ==
            if forall p :: p in paths ==> disk(p).opens && disk(p).intact
            then Run(None, Staged(tree, source, paths, c.stamp)) else Refused
    decreases |paths|
  {
    if paths != [] {
      var p, rest := paths[0], paths[1..];
      assert p in paths && forall x :: x in paths <==> x == p || x in rest;
      NoConflict(tree, source, p);
      FileDecodes(c, tree, p, source[p], disk(p));
      var file := SendFile(c.w, c.id, p, source[p], disk(p));
      FeedsAppend(c, Run(None, tree), file, SendAll(c.w, c.id, rest, source, disk));
      if disk(p).opens && disk(p).intact {
        var next := tree[Names(p) := Delivered(source[p], c.stamp)];
        LandNames(c.tree, p);
        AllDecode(c, next, source, rest, disk);
      }
    }
  }

  lemma StreamDecodes(c: Ctx, source: Source, disk: Disk, sent: seq<string>, extras: seq<string>)
    requires WireOk(c.w) && SourceOk(source) && DiskOk(disk, source)
    requires forall p :: p in sent ==> p in source
    ensures Feeds(c, Run(None, map[]), SendAll(c.w, c.id, sent, source, disk) + [Terminator(c.id, |sent|, extras)]) ==
            if forall p :: p in sent ==> disk(p).opens && disk(p).intact
            then Ended(|sent|, extras, Staged(map[], source, sent, c.stamp)) else Refused
  {
    AllDecode(c, map[], source, sent, disk);
    var done := [Terminator(c.id, |sent|, extras)];
    FeedsAppend(c, Run(None, map[]), SendAll(c.w, c.id, sent, source, disk), done);
    EndFeeds(c, Staged(map[], source, sent, c.stamp), |sent|, extras);
  }

  lemma EndFeeds(c: Ctx, tree: Files, n: nat, extras: seq<string>)
    ensures Feeds(c, Run(None, tree), [Terminator(c.id, n, extras)]) == Ended(n, extras, tree)
    ensures Feeds(c, Refused, [Terminator(c.id, n, extras)]) == Refused
  {
    assert [Terminator(c.id, n, extras)][1..] == [];
  }

  /** Framing round trip: the receiver ends with the count the terminator announces and
      exactly the files sent, or refuses when one could not be read. */
  lemma FramingRoundTrip(c: Ctx, have: Manifest, source: Source, disk: Disk, bySum: bool)
    requires WireOk(c.w) && SourceOk(source) && DiskOk(disk, source)
    ensures var sent := Delta(c.w, have, source, bySum);
            Feeds(c, Run(None, map[]), HostStream(c.w, c.id, have, source, disk, bySum, false)) ==
            if forall p :: p in sent ==> disk(p).opens && disk(p).intact
            then Ended(|sent|, Extras(have, source), Staged(map[], source, sent, c.stamp)) else Refused
  {
    StreamDecodes(c, source, disk, Delta(c.w, have, source, bySum), Extras(have, source));
  }

  /** What is staged, path by path; with no path twice, as many files as were sent. */
  lemma {:induction false} StagedIs(tree: Files, source: Source, paths: seq<string>, stamp: int)
    requires SourceOk(source) && forall p :: p in paths ==> p in source
    ensures var t := Staged(tree, source, paths, stamp);
            && (forall q :: q in t <==> q in tree || exists p :: p in paths && Names(p) == q)
            && (forall p :: p in paths ==> t[Names(p)] == Delivered(source[p], stamp))
            && (forall q :: q in tree && (forall p :: p in paths ==> Names(p) != q) ==> t[q] == tree[q])
    decreases |paths|
  {
    if paths != [] {
      var p, rest := paths[0], paths[1..];
      assert forall x :: x in paths <==> x == p || x in rest;
      var next := tree[Names(p) := Delivered(source[p], stamp)];
      StagedIs(next, source, rest, stamp);
      var t := Staged(next, source, rest, stamp);
      forall x | x in paths ensures t[Names(x)] == Delivered(source[x], stamp) {
        if x !in rest {
          if exists y :: y in rest && Names(y) == Names(p) {
            var y :| y in rest && Names(y) == Names(p);
            SameNames(source, y, p);
          }
        }
      }
    }
  }

  lemma SameNames(source: Source, x: string, y: string)
    requires SourceOk(source) && x in source && y in source && Names(x) == Names(y)
    ensures x == y
  {
    LandNames([], x);
    LandNames([], y);
  }

  lemma {:induction false} StagedCount(tree: Files, source: Source, paths: seq<string>, stamp: int)
    requires SourceOk(source) && (forall p :: p in paths ==> p in source && Names(p) !in tree) && Distinct(paths)
    ensures |Staged(tree, source, paths, stamp)| == |tree| + |paths|
    decreases |paths|
  {
    if paths != [] {
      var p, rest := paths[0], paths[1..];
      assert p in paths && forall x :: x in rest ==> x in paths;
      var next := tree[Names(p) := Delivered(source[p], stamp)];
      assert next.Keys == tree.Keys + {Names(p)};
      forall i, j | 0 <= i < |rest| && 0 <= j < |rest| ensures Apart(rest, i, j) { assert Apart(paths, i + 1, j + 1); }
      forall x | x in rest ensures Names(x) !in next {
        var j :| 0 <= j < |rest| && rest[j] == x;
        assert Apart(paths, 0, j + 1);
        if Names(x) == Names(p) { SameNames(source, x, p); }
      }
      StagedCount(next, source, rest, stamp);
    }
  }
}
