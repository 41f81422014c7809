/** After a sync there is nothing left to sync, a preview says what a sync does, and the
    deletion list's one way to go wrong. */
module Convergence {
  import opened Basics
  import opened Paths
  import opened Transfer
  import opened Framing
  import opened TreeSync

  lemma FsKept(k: Task, y: Sync, fs: Fs)
    requires SyncOk(k, y, fs) && RunSync(y, fs).1.Ok?
    ensures FsOk(RunSync(y, fs).0)
  {
    var have := Scan(k.w, fs, y.at, k.bySum);
    FinalIs(y);
    HonestEnds(k, Deciding(y), have);
    var tree := Final(y).landed;
    StagedLands(k, have, Deciding(y).ctx.stamp);
    CommitKeepsFs(y, fs, Extras(have, k.source), tree);
  }

  lemma CommitKeepsFs(y: Sync, fs: Fs, extras: seq<string>, tree: Files)
    requires WalkOk(y.walk) && FsOk(fs) && Plain(y.at) && forall n :: n in tree ==> Plain(n)
    ensures FsOk(Commit(y, fs, extras, tree).0)
  {
    var fs1 := RemoveAll(fs, y.at, Victims(y, extras), y.fails).0;
    RemoveKeepsFs(fs, y.at, Victims(y, extras), y.fails);
    WalkIn(y.walk, tree);
    PlaceKeepsFs(fs1, y.at, y.walk(tree.Keys), tree, y.fails);
  }

  lemma DeltaEmpty(k: Task, have: Manifest)
    ensures Delta(k.w, have, k.source, k.bySum) == [] <==> forall p :: p in k.source ==> !Due(k, have, p)
  {
    var sent := Delta(k.w, have, k.source, k.bySum);
    ToSendIsPart(k.w, have, k.source, Sorts(k.source), k.bySum);
    if sent != [] { assert Due(k, have, sent[0]); }
    if p :| p in k.source && Due(k, have, p) { assert p in sent; }
  }

  /** A delivered file reads as the source's under a digest, and under size and mtime exactly
      when its mtime was applied or the clock stood at zero. */
  predicate Settles(k: Task, p: string, stamp: int)
    requires p in k.source && k.source[p].File?
  {
    k.bySum || k.source[p].mtime != 0 || stamp == 0
  }

  lemma DueAfter(k: Task, y: Sync, fs: Fs, fs2: Fs, stamp: int, p: string)
    requires TaskOk(k) && FsOk(fs) && FsOk(fs2) && Met(k, y, fs, fs2, stamp) && p in k.source
    ensures Due(k, Scan(k.w, fs2, y.at, k.bySum), p) <==>
            Due(k, Scan(k.w, fs, y.at, k.bySum), p) && !Settles(k, p, stamp)
  {
    var names := Names(p);
    var q := y.at + names;
    LandNames([], p);
    assert q[|y.at|..] == names && SourceAt(k.source, y.at, q) == Some(p);
    GoalAtSource(k, y, Scan(k.w, fs, y.at, k.bySum), fs, stamp, q, p);
    ScanIs(k.w, fs, y.at, k.bySum, names);
    ScanIs(k.w, fs2, y.at, k.bySum, names);
    assert Lookup(fs2, q) == Goal(k.w, Scan(k.w, fs, y.at, k.bySum), fs, y.at, k.source, k.bySum, y.del, stamp, q);
  }

  /** Convergence: a rescan after a successful sync has nothing to send, exactly when every
      file just delivered settles. Under a digest, or with non-zero mtimes, that is always. */
  lemma NothingLeftToSend(k: Task, y: Sync, fs: Fs)
    requires SyncOk(k, y, fs) && (y.del ==> OneLine(fs, y.at)) && RunSync(y, fs).1.Ok?
    ensures Delta(k.w, Scan(k.w, RunSync(y, fs).0, y.at, k.bySum), k.source, k.bySum) == [] <==>
            forall p :: Due(k, Scan(k.w, fs, y.at, k.bySum), p) ==> Settles(k, p, Deciding(y).ctx.stamp)
  {
    var fs2, stamp := RunSync(y, fs).0, Deciding(y).ctx.stamp;
    SyncMeetsGoal(k, y, fs);
    FsKept(k, y, fs);
    DeltaEmpty(k, Scan(k.w, fs2, y.at, k.bySum));
    forall p | p in k.source
      ensures Due(k, Scan(k.w, fs2, y.at, k.bySum), p) <==>
              Due(k, Scan(k.w, fs, y.at, k.bySum), p) && !Settles(k, p, stamp)
    {
      DueAfter(k, y, fs, fs2, stamp, p);
    }
  }

  lemma LeftIsSource(k: Task, y: Sync, fs: Fs, fs2: Fs, stamp: int, t: string)
    requires TaskOk(k) && FsOk(fs2) && y.del && Met(k, y, fs, fs2, stamp) && t in Scan(k.w, fs2, y.at, k.bySum)
    ensures t in k.source
  {
    ScanKeys(k.w, fs2, y.at, k.bySum, t);
    var q := y.at + Names(t);
    assert q[|y.at|..] == Names(t) && Lookup(fs2, q).Some?;
    assert Lookup(fs2, q) == Goal(k.w, Scan(k.w, fs, y.at, k.bySum), fs, y.at, k.source, k.bySum, y.del, stamp, q);
  }

  lemma ExtrasNone(have: Manifest, source: Source)
    requires forall t :: t in have ==> t in source
    ensures Extras(have, source) == []
  {
    assert have.Keys - source.Keys == {};
  }

  /** With deletion, nothing under the destination is left that the source does not have. */
  lemma NoExtrasLeft(k: Task, y: Sync, fs: Fs)
    requires SyncOk(k, y, fs) && y.del && OneLine(fs, y.at) && RunSync(y, fs).1.Ok?
    ensures Extras(Scan(k.w, RunSync(y, fs).0, y.at, k.bySum), k.source) == []
  {
    var fs2 := RunSync(y, fs).0;
    SyncMeetsGoal(k, y, fs);
    FsKept(k, y, fs);
    var have := Scan(k.w, fs2, y.at, k.bySum);
    forall t | t in have ensures t in k.source { LeftIsSource(k, y, fs, fs2, Deciding(y).ctx.stamp, t); }
    ExtrasNone(have, k.source);
  }

  /** Without deletion, only the source's own paths change; with or without, nothing outside
      the destination does. */
  lemma CopyTouchesItsPathsOnly(k: Task, y: Sync, fs: Fs, q: Path)
    requires SyncOk(k, y, fs) && (y.del ==> OneLine(fs, y.at)) && RunSync(y, fs).1.Ok?
    requires SourceAt(k.source, y.at, q).None? && !(y.del && y.at <= q)
    ensures Lookup(RunSync(y, fs).0, q) == Lookup(fs, q)
  {
    SyncMeetsGoal(k, y, fs);
  }

  lemma BytesAt(k: Task, y: Sync, fs: Fs, fs2: Fs, stamp: int, p: string)
    requires TaskOk(k) && FsOk(fs) && Met(k, y, fs, fs2, stamp)
    requires k.bySum && (forall a, b :: k.w.sum(a) == k.w.sum(b) ==> a == b) && p in k.source
    ensures var n := Lookup(fs2, y.at + Names(p)); n.Some? && n.value.File? && n.value.data == k.source[p].data
  {
    var names := Names(p);
    var have := Scan(k.w, fs, y.at, k.bySum);
    LandNames([], p);
    var q := y.at + names;
    assert q[|y.at|..] == names && SourceAt(k.source, y.at, q) == Some(p);
    GoalAtSource(k, y, have, fs, stamp, q, p);
    ScanIs(k.w, fs, y.at, k.bySum, names);
    assert Lookup(fs2, q) == Goal(k.w, have, fs, y.at, k.source, k.bySum, y.del, stamp, q);
  }

  /** Compared by a digest without collisions, every source file is there with its bytes. */
  lemma DigestMeansSameBytes(k: Task, y: Sync, fs: Fs, p: string)
    requires SyncOk(k, y, fs) && (y.del ==> OneLine(fs, y.at)) && RunSync(y, fs).1.Ok?
    requires k.bySum && (forall a, b :: k.w.sum(a) == k.w.sum(b) ==> a == b) && p in k.source
    ensures var n := Lookup(RunSync(y, fs).0, y.at + Names(p));
            n.Some? && n.value.File? && n.value.data == k.source[p].data
  {
    SyncMeetsGoal(k, y, fs);
    BytesAt(k, y, fs, RunSync(y, fs).0, Deciding(y).ctx.stamp, p);
  }

  /** So a second sync of the same tree writes and removes nothing. */
  lemma SecondSyncIsIdle(k: Task, y: Sync, fs: Fs, y2: Sync)
    requires SyncOk(k, y, fs) && (y.del ==> OneLine(fs, y.at)) && RunSync(y, fs).1.Ok?
    requires forall p :: Due(k, Scan(k.w, fs, y.at, k.bySum), p) ==> Settles(k, p, Deciding(y).ctx.stamp)
    requires SyncOk(k, y2, RunSync(y, fs).0) && y2.at == y.at && y2.del == y.del && RunSync(y2, RunSync(y, fs).0).1.Ok?
    ensures RunSync(y2, RunSync(y, fs).0) == (RunSync(y, fs).0, Ok(0, 0))
  {
    var fs2 := RunSync(y, fs).0;
    NothingLeftToSend(k, y, fs);
    if y.del { NoExtrasLeft(k, y, fs); }
    var have := Scan(k.w, fs2, y.at, k.bySum);
    FinalIs(y2);
    HonestEnds(k, Deciding(y2), have);
    var none: Files := map[];
    assert |y2.walk(none.Keys)| == 0;
    assert Victims(y2, Extras(have, k.source)) == [];
  }

  /** What a preview's exchange carries. */
  ghost predicate HonestPreview(k: Task, a: Attempt, have: Manifest)
    requires SourceOk(k.source)
  {
    a.ctx.w == k.w && Own(a.ctx.id, a.arrivals) <= HostStream(k.w, a.ctx.id, have, k.source, k.disk, k.bySum, true)
  }

  lemma PreviewAnswers(k: Task, a: Attempt, have: Manifest)
    requires TaskOk(k) && HonestPreview(k, a, have) && Stream(a, map[]).Ended?
    ensures Stream(a, map[]) == Ended(|Delta(k.w, have, k.source, k.bySum)|, Extras(have, k.source), map[])
  {
    var n, extras := |Delta(k.w, have, k.source, k.bySum)|, Extras(have, k.source);
    var own := Own(a.ctx.id, a.arrivals);
    PreviewStream(k, a.ctx.id, have);
    OwnOnly(a.ctx, Run(None, map[]), a.arrivals);
    OneTerminator(a.ctx, own, n, extras);
  }

  lemma PreviewStream(k: Task, id: string, have: Manifest)
    requires SourceOk(k.source)
    ensures HostStream(k.w, id, have, k.source, k.disk, k.bySum, true) ==
            [Terminator(id, |Delta(k.w, have, k.source, k.bySum)|, Extras(have, k.source))]
  {
  }

  lemma OneTerminator(c: Ctx, own: seq<Msg>, n: nat, extras: seq<string>)
    requires own <= [Terminator(c.id, n, extras)]
    ensures Feeds(c, Run(None, map[]), own) == if own == [] then Run(None, map[]) else Ended(n, extras, map[])
  {
    if own != [] { assert own[1..] == []; }
  }

  lemma RemovedAreExtras(k: Task, y: Sync, fs: Fs, fs2: Fs, stamp: int)
    requires TaskOk(k) && FsOk(fs) && y.del && Met(k, y, fs, fs2, stamp)
    ensures forall names :: y.at + names in fs.files ==>
              (y.at + names !in fs2.files <==> Text(names) in Extras(Scan(k.w, fs, y.at, k.bySum), k.source))
  {
    forall names | y.at + names in fs.files
      ensures y.at + names !in fs2.files <==> Text(names) in Extras(Scan(k.w, fs, y.at, k.bySum), k.source)
    {
      RemovedIsExtra(k, y, fs, fs2, stamp, names);
    }
  }

  /** A preview that answers names what the sync then does: as many files written, and the
      paths a deletion removes. */
  lemma PreviewPredicts(k: Task, a: Attempt, y: Sync, fs: Fs)
    requires SyncOk(k, y, fs) && (y.del ==> OneLine(fs, y.at)) && RunSync(y, fs).1.Ok?
    requires HonestPreview(k, a, Scan(k.w, fs, y.at, k.bySum)) && Stream(a, map[]).Ended?
    ensures RunSync(y, fs).1 == Ok(Stream(a, map[]).n, if y.del then |Stream(a, map[]).extras| else 0)
    ensures y.del ==> forall names :: y.at + names in fs.files ==>
              (y.at + names !in RunSync(y, fs).0.files <==> Text(names) in Stream(a, map[]).extras)
  {
    PreviewAnswers(k, a, Scan(k.w, fs, y.at, k.bySum));
    SyncMeetsGoal(k, y, fs);
    if y.del { RemovedAreExtras(k, y, fs, RunSync(y, fs).0, Deciding(y).ctx.stamp); }
  }

  lemma RemovedIsExtra(k: Task, y: Sync, fs: Fs, fs2: Fs, stamp: int, names: Path)
    requires TaskOk(k) && FsOk(fs) && y.del && y.at + names in fs.files && Met(k, y, fs, fs2, stamp)
    ensures y.at + names !in fs2.files <==> Text(names) in Extras(Scan(k.w, fs, y.at, k.bySum), k.source)
  {
    var have := Scan(k.w, fs, y.at, k.bySum);
    var q := y.at + names;
    assert forall n :: n in names ==> n in q;
    ScanIs(k.w, fs, y.at, k.bySum, names);
    ExtraHere(have, k.source, Text(names));
    GoalUnder(k, y, have, fs, stamp, names);
    assert Lookup(fs2, q) == Goal(k.w, have, fs, y.at, k.source, k.bySum, y.del, stamp, q);
  }

  lemma ExtraHere(have: Manifest, source: Source, t: string)
    requires t in have
    ensures t in Extras(have, source) <==> t !in source
  {
    ExtrasAre(have, source);
  }

  lemma GoalUnder(k: Task, y: Sync, have: Manifest, fs: Fs, stamp: int, names: Path)
    requires TaskOk(k) && y.del && Plain(names) && y.at + names in fs.files
    ensures Goal(k.w, have, fs, y.at, k.source, k.bySum, y.del, stamp, y.at + names).None? <==> Text(names) !in k.source
  {
    var q := y.at + names;
    assert q[|y.at|..] == names;
    if SourceAt(k.source, y.at, q).Some? {
      GoalAtSource(k, y, have, fs, stamp, q, Text(names));
    } else if names == [] {
      assert Names(".") == [];
    }
  }

  // --- a name with a newline ---

  /** A destination with a file whose name holds a newline, and another the source has too. */
  const AT: Path := ["d"]
  const ODD: Path := ["d", "a\nb"]
  const KEPT: Path := ["d", "b"]

  function Twin(): Node {
    File("x", 420, 7)
  }

  function OddFs(): Fs {
    Fs(map[ODD := Irregular, KEPT := Twin()], {AT})
  }

  function OddSync(c: Ctx, walk: set<Path> -> seq<Path>): Sync {
    var a := Attempt(true, true, c, [Arrival(Terminator(c.id, 0, ["a\nb"]), false)]);
    Sync(AT, true, a, a, walk, _ => false, false, false)
  }

  lemma OddUnder()
    ensures Under(OddFs().files, AT) == {"a\nb", "b"}
    ensures Names("a\nb") == ["a\nb"] && Names("b") == ["b"] && AT + ["a\nb"] == ODD && AT + ["b"] == KEPT
  {
    assert ODD[|AT|..] == ["a\nb"] && KEPT[|AT|..] == ["b"];
    SplitOne("a\nb", '/');
    SplitOne("b", '/');
    assert Text(["a\nb"]) == "a\nb" && Text(["b"]) == "b";
    assert Text(ODD[|AT|..]) in Under(OddFs().files, AT) && Text(KEPT[|AT|..]) in Under(OddFs().files, AT);
  }

  lemma OddManifest(w: Wire)
    ensures Scan(w, OddFs(), AT, false) ==
            map["a\nb" := EntryOf(w, "a\nb", Irregular, false), "b" := EntryOf(w, "b", Twin(), false)]
  {
    OddUnder();
    var have := Scan(w, OddFs(), AT, false);
    assert have.Keys == {"a\nb", "b"};
    assert have["a\nb"] == EntryOf(w, "a\nb", OddFs().files[AT + Names("a\nb")], false);
    assert have["b"] == EntryOf(w, "b", OddFs().files[AT + Names("b")], false);
  }

  lemma OddLines()
    ensures ReadBack(Written(["a\nb"])) == ["a", "b"]
  {
    var t := "a\nb";
    SplitCons("a", "b", '\n');
    SplitOne("b", '\n');
    assert "a" + ['\n'] + "b" == t;
    assert NonEmpty(["a", "b"][1..]) == ["b"];
  }

  lemma OddLands()
    ensures Land(AT, "a") == Some(["a"]) && Land(AT, "b") == Some(["b"])
  {
    SplitOne("a", '/');
    SplitOne("b", '/');
    WalkPlain(AT, ["a"]);
    WalkPlain(AT, ["b"]);
  }

  function OddTask(w: Wire): Task {
    Task(w, map["b" := Twin()], _ => Reading(["x"], true, true, true), false)
  }

  lemma OddDelta(w: Wire)
    requires WireOk(w)
    ensures Extras(Scan(w, OddFs(), AT, false), OddTask(w).source) == ["a\nb"]
    ensures Delta(w, Scan(w, OddFs(), AT, false), OddTask(w).source, false) == []
  {
    OddManifest(w);
    var have, source := Scan(w, OddFs(), AT, false), OddTask(w).source;
    assert have.Keys - source.Keys == {"a\nb"};
    OneExtra(have, source, "a\nb");
    assert !Due(OddTask(w), have, "b");
    DeltaEmpty(OddTask(w), have);
  }

  lemma OneExtra(have: Manifest, source: Source, x: string)
    requires have.Keys - source.Keys == {x}
    ensures Extras(have, source) == [x]
  {
    ExtrasAre(have, source);
    assert Extras(have, source)[0] in Extras(have, source);
  }

  /** The deletion list is one path a line: for the extra path `a`, newline, `b`, the commit
      deletes `b`, which the source has, leaves the extra, and reports success. */
  lemma NewlineDeletesAnother(w: Wire, c: Ctx, walk: set<Path> -> seq<Path>)
    requires WireOk(w) && c.w == w && WalkOk(walk)
    ensures Extras(Scan(w, OddFs(), AT, false), OddTask(w).source) == ["a\nb"]
    ensures Delta(w, Scan(w, OddFs(), AT, false), OddTask(w).source, false) == []
    ensures RunSync(OddSync(c, walk), OddFs()) == (Fs(map[ODD := Irregular], {AT}), Ok(0, 1))
  {
    OddDelta(w);
    OddStream(c, walk);
    OddCommit(OddSync(c, walk));
  }

  lemma OddStream(c: Ctx, walk: set<Path> -> seq<Path>)
    ensures Final(OddSync(c, walk)) == Ended(0, ["a\nb"], map[])
  {
    var a := OddSync(c, walk).first;
    var d := Run(None, map[]);
    assert a.arrivals[1..] == [] && a.arrivals[0].msg == Terminator(c.id, 0, ["a\nb"]);
    assert Feed(c, d, a.arrivals[0].msg) == Ended(0, ["a\nb"], map[]);
    assert Decode(c, d, a.arrivals) == Decode(c, Ended(0, ["a\nb"], map[]), []);
    assert Stream(a, map[]) == Ended(0, ["a\nb"], map[]);
  }

  lemma OddCommit(y: Sync)
    requires WalkOk(y.walk) && y.at == AT && y.del && forall q :: !y.fails(q)
    ensures Commit(y, OddFs(), ["a\nb"], map[]) == (Fs(map[ODD := Irregular], {AT}), true)
  {
    OddLines();
    OddRemoved(y.fails);
    var none: Files := map[];
    assert |y.walk(none.Keys)| == 0;
  }

  lemma OddRemoved(fails: Path -> bool)
    requires forall q :: !fails(q)
    ensures RemoveAll(OddFs(), AT, ["a", "b"], fails) == (Fs(map[ODD := Irregular], {AT}), true)
  {
    OddLands();
    var fs := OddFs();
    var qa, qb := AT + ["a"], AT + ["b"];
    assert qb == KEPT && qa == ["d", "a"];
    assert !Blocked(fs.files, qa) && !Blocked(fs.files, qb) && qa !in fs.dirs && qb !in fs.dirs;
    assert fs.files - {qa} == fs.files && fs.dirs - {qa} == fs.dirs;
    assert ["a", "b"][1..] == ["b"] && ["b"][1..] == [];
    assert fs.files - {qb} == map[ODD := Irregular] && fs.dirs - {qb} == {AT};
    assert RemoveAll(fs, AT, ["b"], fails) == (Fs(map[ODD := Irregular], {AT}), true);
  }
}
