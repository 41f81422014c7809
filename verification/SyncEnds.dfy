/** The two ends of a transfer in the program's own form: the control host's loops over paths
    and chunks, the agent's receiver, its commit and its two attempts. */
module SyncEnds {
  import opened Basics
  import opened Paths
  import opened Transfer
  import opened Framing
  import opened TreeSync

  // --- the control host ---

  /** A file read through a buffer of k bytes. */
  function Chunks(data: string, k: nat): seq<string>
    requires k > 0
    decreases |data|
  {
    if data == "" then [] else if |data| <= k then [data] else [data[..k]] + Chunks(data[k..], k)
  }

  /** Whatever the buffer, the chunks are the file. */
  lemma {:induction false} ChunksRead(data: string, k: nat, eager: bool)
    requires k > 0
    ensures Reads(Reading(Chunks(data, k), eager, true, true), data)
    decreases |data|
  {
    if |data| > k {
      ChunksRead(data[k..], k, eager);
      assert Chunks(data, k)[1..] == Chunks(data[k..], k);
      assert data == data[..k] + data[k..];
    } else if data != "" {
      assert Concat([data]) == data + Concat([]);
    }
  }

  /** What follows the opening message. */
  function Following(w: Wire, id: string, p: string, r: Reading, pieces: seq<string>): seq<Msg> {
    if r.intact then SendPieces(w, id, p, pieces, r.eager) else SendSome(w, id, p, pieces)
  }

  lemma PieceStep(w: Wire, id: string, p: string, r: Reading, i: nat, out: seq<Msg>)
    requires i < |r.pieces|
    ensures var m := FileMsg(id, p, "", 0, w.enc(r.pieces[i]), r.intact && r.eager && i + 1 == |r.pieces|);
            out + Following(w, id, p, r, r.pieces[i..]) ==
            if m.last then out + [m] else (out + [m]) + Following(w, id, p, r, r.pieces[i + 1..])
  {
    assert r.pieces[i..][0] == r.pieces[i] && r.pieces[i..][1..] == r.pieces[i + 1..];
    var m := FileMsg(id, p, "", 0, w.enc(r.pieces[i]), false);
    var rest := Following(w, id, p, r, r.pieces[i + 1..]);
    assert out + ([m] + rest) == (out + [m]) + rest;
  }

  /** `sendFile`: the opening message, then each read until the end or an error shows. */
  method SendFileLoop(w: Wire, id: string, p: string, n: Node, r: Reading) returns (out: seq<Msg>)
    requires n.File?
    ensures out == SendFile(w, id, p, n, r)
  {
    if !r.opens { return [Answer(id, "open")]; }
    var open := [FileMsg(id, p, Octal(n.mode), n.mtime, "", false)];
    out := [];
    var i := 0;
    assert [] + Following(w, id, p, r, r.pieces) == Following(w, id, p, r, r.pieces) && r.pieces[0..] == r.pieces;
    while i < |r.pieces|
      invariant i <= |r.pieces|
      invariant out + Following(w, id, p, r, r.pieces[i..]) == Following(w, id, p, r, r.pieces)
    {
      PieceStep(w, id, p, r, i, out);
      var last := r.intact && r.eager && i + 1 == |r.pieces|;
      out := out + [FileMsg(id, p, "", 0, w.enc(r.pieces[i]), last)];
      if last { return open + out; }
      i := i + 1;
    }
    return open + (out + [if r.intact then FileMsg(id, p, "", 0, "", true) else Answer(id, "read")]);
  }

  /** The manifest as it travels, a list; the last entry for a path wins. */
  function Received(entries: seq<Entry>): Manifest {
    if entries == [] then map[]
    else Received(entries[..|entries| - 1])[entries[|entries| - 1].path := entries[|entries| - 1]]
  }

  /** `serveSync`: the manifest into a map, the source's paths in order, what differs sent. */
  method ServeSync(w: Wire, id: string, entries: seq<Entry>, source: Source, disk: Disk, bySum: bool, preview: bool)
      returns (out: seq<Msg>)
    requires SourceOk(source)
    ensures out == HostStream(w, id, Received(entries), source, disk, bySum, preview)
  {
    var have: Manifest := map[];
    var i := 0;
    while i < |entries|
      invariant i <= |entries| && have == Received(entries[..i])
    {
      assert entries[..i + 1][..i] == entries[..i];
      have := have[entries[i].path := entries[i]];
      i := i + 1;
    }
    assert entries[..i] == entries;
    var files, written := SendDelta(w, id, have, source, disk, bySum, preview);
    var extras := SortStrings(have.Keys - source.Keys);
    return files + [Terminator(id, written, extras)];
  }

  /** The loop over the sorted paths: skip what is the same, stream the rest unless this is a
      preview, count either way. */
  method SendDelta(w: Wire, id: string, have: Manifest, source: Source, disk: Disk, bySum: bool, preview: bool)
      returns (out: seq<Msg>, written: nat)
    requires SourceOk(source)
    ensures written == |Delta(w, have, source, bySum)|
    ensures out == if preview then [] else SendAll(w, id, Delta(w, have, source, bySum), source, disk)
  {
    var paths := SortStrings(source.Keys);
    out, written := SendFrom(w, id, have, source, disk, bySum, preview, paths);
  }

  method SendFrom(w: Wire, id: string, have: Manifest, source: Source, disk: Disk, bySum: bool, preview: bool,
      paths: seq<string>)
      returns (out: seq<Msg>, written: nat)
    requires SourceOk(source) && forall p :: p in paths ==> p in source
    ensures written == |ToSend(w, have, source, paths, bySum)|
    ensures forall p :: p in ToSend(w, have, source, paths, bySum) ==> p in source && source[p].File?
    ensures out == if preview then [] else SendAll(w, id, ToSend(w, have, source, paths, bySum), source, disk)
  {
    out, written := [], 0;
    var i := 0;
    ghost var due: seq<string> := [];
    while i < |paths|
      invariant i <= |paths| && written == |due|
      invariant due + ToSend(w, have, source, paths[i..], bySum) == ToSend(w, have, source, paths, bySum)
      invariant forall p :: p in due ==> p in source && source[p].File?
      invariant out == if preview then [] else SendAll(w, id, due, source, disk)
    {
      var p := paths[i];
      assert p in paths;
      DueStep(w, have, source, paths, bySum, i, due);
      if !Same(Have(have, p), EntryOf(w, p, source[p], bySum), bySum) {
        SendAllAppend(w, id, due, p, source, disk);
        if !preview {
          var sent := SendFileLoop(w, id, p, source[p], disk(p));
          out := out + sent;
        }
        due := due + [p];
        written := written + 1;
      }
      i := i + 1;
    }
    assert due + [] == due;
  }

  lemma DueStep(w: Wire, have: Manifest, source: Source, paths: seq<string>, bySum: bool, i: nat, due: seq<string>)
    requires i < |paths| && forall p :: p in paths ==> p in source
    ensures var rest := ToSend(w, have, source, paths[i + 1..], bySum);
            due + ToSend(w, have, source, paths[i..], bySum) ==
            if Same(Have(have, paths[i]), EntryOf(w, paths[i], source[paths[i]], bySum), bySum) then due + rest
            else (due + [paths[i]]) + rest
  {
    var p, rest := paths[i], ToSend(w, have, source, paths[i + 1..], bySum);
    assert paths[i..][0] == p && paths[i..][1..] == paths[i + 1..];
    assert (due + [p]) + rest == due + ([p] + rest) && [] + rest == rest;
  }

  lemma {:induction false} SendAllAppend(w: Wire, id: string, paths: seq<string>, p: string, source: Source, disk: Disk)
    requires p in source && source[p].File? && forall x :: x in paths ==> x in source && source[x].File?
    ensures SendAll(w, id, paths + [p], source, disk) ==
            SendAll(w, id, paths, source, disk) + SendFile(w, id, p, source[p], disk(p))
    decreases |paths|
  {
    if paths == [] {
      assert [p][1..] == [];
      assert SendAll(w, id, [p], source, disk) ==
             SendFile(w, id, p, source[p], disk(p)) + SendAll(w, id, [], source, disk);
      assert [] + [p] == [p];
    } else {
      assert (paths + [p])[1..] == paths[1..] + [p];
      SendAllAppend(w, id, paths[1..], p, source, disk);
    }
  }

  // --- the agent ---

  datatype End = Going | Complete(n: nat, extras: seq<string>) | Stopped | Panicked

  /** The staging directory of one sync, shared by its attempts. */
  class Area {
    var tree: Files

    constructor ()
      ensures tree == map[]
    {
      tree := map[];
    }

    /** The area emptied, a file at a time; removing it or making it again can fail. */
    method Clear(fails: bool) returns (ok: bool)
      modifies this
      ensures ok == !fails
      ensures ok ==> tree == Cleared(old(tree), old(tree).Keys)
    {
      while tree.Keys != {}
        decreases tree.Keys
      {
        var q :| q in tree;
        tree := tree - {q};
      }
      return !fails;
    }
  }

  /** `streamOnce` and the staging area it fills. */
  class Receiver {
    const c: Ctx
    const area: Area
    var staged: Option<Open>

    constructor (c: Ctx, area: Area)
      ensures this.c == c && this.area == area && staged == None
    {
      this.c, this.area, staged := c, area, None;
    }

    /** The decoder's state, as the functions write it. */
    ghost function State(end: End): Dec
      reads this, area
    {
      match end
      case Going => Run(staged, area.tree)
      case Complete(n, extras) => Ended(n, extras, area.tree)
      case Stopped => Refused
      case Panicked => Crashed
    }

    /** The staged file takes its name. */
    method Commit() returns (end: End)
      modifies this, area
      ensures State(end) == Close(c, old(State(Going)))
    {
      if staged.None? { return Panicked; }
      var o := staged.value;
      if IsDir(area.tree, o.key) { return Stopped; }
      area.tree := area.tree[o.key := File(o.data, o.mode, if o.mtime != 0 then o.mtime else c.stamp)];
      staged := None;
      return Going;
    }

    method OpenStaged(path: string, mode: string, mtime: int) returns (end: End)
      modifies this
      ensures State(end) == OpenFile(c, old(area.tree), path, mode, mtime)
    {
      var k := Land(c.tree, path);
      if k.None? || Blocked(area.tree, k.value) { return Stopped; }
      staged := Some(Open(path, k.value, Perm(mode), mtime, ""));
      return Going;
    }

    method Handle(m: Msg) returns (end: End)
      modifies this, area
      ensures State(end) == Feed(c, old(State(Going)), m)
    {
      match m {
        case Answer(_, _) => return Stopped;
        case Terminator(_, n, del) => return if staged.Some? then Stopped else Complete(n, del);
        case FileMsg(_, path, mode, mtime, data, last) =>
          if (mode != "" && staged.None?) || (staged.Some? && staged.value.rel != path) {
            if staged.Some? {
              end := Commit();
              if end != Going { return; }
            }
            end := OpenStaged(path, mode, mtime);
            if end != Going { return; }
          }
          if data != "" {
            var b := c.w.dec(data);
            if b.None? { return Stopped; }
            if staged.None? { return Panicked; }
            staged := Some(staged.value.(data := staged.value.data + b.value));
          }
          if last {
            end := Commit();
            return;
          }
          return Going;
      }
    }

    method StreamOnce(arrivals: seq<Arrival>) returns (end: End)
      modifies this, area
      ensures State(end) == Decode(c, old(State(Going)), arrivals)
    {
      var i := 0;
      ghost var d0 := State(Going);
      while i < |arrivals|
        invariant i <= |arrivals|
        invariant Decode(c, d0, arrivals) == Decode(c, State(Going), arrivals[i..])
      {
        var a := arrivals[i];
        assert arrivals[i..][0] == a && arrivals[i..][1..] == arrivals[i + 1..];
        i := i + 1;
        if a.msg.id != c.id { continue; }
        if a.msg.FileMsg? && a.ioFails { return Stopped; }
        end := Handle(a.msg);
        if end != Going { return; }
      }
      return Going;
    }
  }

  /** An agent on its host. */
  class Agent {
    var fs: Fs

    constructor (fs: Fs)
      ensures this.fs == fs
    {
      this.fs := fs;
    }

    /** `removeExtras`: a file goes, or an empty directory. */
    method RemoveExtras(at: Path, victims: seq<string>, fails: Path -> bool) returns (ok: bool)
      modifies this
      ensures (fs, ok) == RemoveAll(old(fs), at, victims, fails)
    {
      var i := 0;
      while i < |victims|
        invariant i <= |victims|
        invariant RemoveAll(old(fs), at, victims, fails) == RemoveAll(fs, at, victims[i..], fails)
      {
        assert victims[i..][0] == victims[i] && victims[i..][1..] == victims[i + 1..];
        if !Removable(fs, at, victims[i], fails) { return false; }
        var q := at + Land(at, victims[i]).value;
        fs := Fs(fs.files - {q}, fs.dirs - {q});
        i := i + 1;
      }
      return true;
    }

    /** The walk over the staged tree: the directories made, the file renamed into place. */
    method Place(at: Path, order: seq<Path>, tree: Files, fails: Path -> bool) returns (written: nat, ok: bool)
      requires forall k :: k in order ==> k in tree
      modifies this
      ensures (fs, ok) == PlaceAll(old(fs), at, order, tree, fails)
      ensures ok ==> written == |order|
    {
      written := 0;
      while written < |order|
        invariant written <= |order|
        invariant PlaceAll(old(fs), at, order, tree, fails) == PlaceAll(fs, at, order[written..], tree, fails)
      {
        var k := order[written];
        assert order[written..][0] == k && order[written..][1..] == order[written + 1..] && k in order;
        if !Reachable(fs, at, k) { return written, false; }
        fs := Fs(fs.files, fs.dirs + Parents(at + k));
        if at + k in fs.dirs || fails(at + k) { return written, false; }
        fs := Fs(fs.files[at + k := tree[k]], fs.dirs);
        written := written + 1;
      }
      return written, true;
    }

    /** One attempt, into the area as it is. */
    method Attempted(a: Attempt, area: Area) returns (end: End)
      modifies area
      ensures Shows(end, Stream(a, old(area.tree)), area.tree)
    {
      if !a.attached { return Stopped; }
      if !a.sent { return Going; }
      var r := new Receiver(a.ctx, area);
      end := r.StreamOnce(a.arrivals);
    }

    /** `Channel.sync`: one staging area; a second attempt into it, emptied, when the first met a
        session that was gone; then the list of deletions, the commit and the count. */
    method Sync(y: Sync) returns (out: Outcome)
      requires WalkOk(y.walk)
      modifies this
      ensures (fs, out) == RunSync(y, old(fs))
    {
      var area := new Area();
      var end := Attempted(y.first, area);
      if end.Going? {
        var ok := area.Clear(y.clearFails);
        if !ok { return Failed; }
        end := Attempted(y.second, area);
      }
      if !end.Complete? { return Failed; }
      var victims := [];
      if y.del && end.extras != [] {
        if y.listFails { return Failed; }
        victims := ReadLines(Written(end.extras));
      }
      var ok := RemoveExtras(y.at, victims, y.fails);
      if !ok { return Failed; }
      WalkIn(y.walk, area.tree);
      var order := y.walk(area.tree.Keys);
      var placed, done := Place(y.at, order, area.tree, y.fails);
      if !done || placed != end.n { return Failed; }
      return Ok(end.n, if y.del then |end.extras| else 0);
    }
  }

  /** How an attempt came out, and what it left in the area. */
  ghost predicate Shows(end: End, d: Dec, tree: Files) {
    match end
    case Going => d.Run? && d.tree == tree
    case Complete(n, extras) => d == Ended(n, extras, tree)
    case Stopped => d.Refused?
    case Panicked => d.Crashed?
  }
}
