/** The tree transfer as values: manifests, the control host's stream, the receiver's
    decoder, the commit, and a whole sync with its retry. */
module Transfer {
  import opened Basics
  import opened Paths

  type Path = seq<string>

  datatype Node = File(data: string, mode: nat, mtime: int) | Irregular

  type Files = map<Path, Node>

  /** The files and the directories of a host, by absolute path. */
  datatype Fs = Fs(files: Files, dirs: set<Path>)

  datatype Entry = Entry(path: string, size: nat, mtime: int, sha: string, irregular: bool)

  type Manifest = map<string, Entry>

  /** The regular files of the control host's tree, by relative path. */
  type Source = map<string, Node>

  /** Base64 and the digest. */
  datatype Wire = Wire(enc: string -> string, dec: string -> Option<string>, sum: string -> string)

  ghost predicate WireOk(w: Wire) {
    && (forall b :: w.dec(w.enc(b)) == Some(b))
    && (forall b :: w.enc(b) == "" <==> b == "")
    && (forall b :: w.sum(b) != "")
  }

  datatype Msg =
    | Answer(id: string, error: string)
    | FileMsg(id: string, path: string, mode: string, mtime: int, data: string, last: bool)
    | Terminator(id: string, written: nat, delete: seq<string>)

  // --- trees ---

  /** A file stands where a directory of q should be. */
  predicate Blocked(files: Files, q: Path) {
    exists k :: 0 <= k < |q| && q[..k] in files
  }

  /** Some file is below q. */
  predicate IsDir(files: Files, q: Path) {
    exists r :: r in files && q < r
  }

  /** The directory is not empty. */
  predicate InUse(fs: Fs, q: Path) {
    IsDir(fs.files, q) || exists r :: r in fs.dirs && q < r
  }

  /** The directories a path is in. */
  function Parents(q: Path): set<Path> {
    set k | 0 < k < |q| :: q[..k]
  }

  /** Names a directory can hold, everything in its directories, and no path both a file and a
      directory. */
  ghost predicate FsOk(fs: Fs) {
    && (forall q :: q in fs.files || q in fs.dirs ==> Plain(q) && q != [] && Parents(q) <= fs.dirs)
    && fs.files.Keys !! fs.dirs
  }

  /** r is below p. */
  predicate Nested(p: string, r: string) {
    Names(p) < Names(r)
  }

  ghost predicate SourceOk(source: Source) {
    && (forall p :: p in source ==> source[p].File? && source[p].mode < 512 && Names(p) != [] && Plain(Names(p)))
    && (forall p, r {:trigger Nested(p, r)} :: p in source && r in source ==> !Nested(p, r))
  }

  // --- manifests ---

  function EntryOf(w: Wire, path: string, n: Node, bySum: bool): Entry {
    match n
    case File(data, _, mtime) => Entry(path, |data|, mtime, if bySum then w.sum(data) else "", false)
    case Irregular => Entry(path, 0, 0, "", true)
  }

  function Under(files: Files, at: Path): set<string> {
    set q | q in files && at <= q :: Text(q[|at|..])
  }

  /** `scanTarget`: what is under the destination, by relative path. */
  function Scan(w: Wire, fs: Fs, at: Path, bySum: bool): Manifest {
    map t | t in Under(fs.files, at) && at + Names(t) in fs.files :: EntryOf(w, t, fs.files[at + Names(t)], bySum)
  }

  /** `same`: regular, and equal by digest, or by size and mtime. */
  predicate Same(have: Option<Entry>, want: Entry, bySum: bool) {
    && have.Some? && !have.value.irregular
    && if bySum then have.value.sha != "" && have.value.sha == want.sha
       else have.value.size == want.size && have.value.mtime == want.mtime
  }

  function Have(m: Manifest, p: string): Option<Entry> {
    if p in m then Some(m[p]) else None
  }

  // --- the control host ---

  /** How reading a file goes: the pieces, whether the end shows with the last one, and
      whether opening or reading fails. */
  datatype Reading = Reading(pieces: seq<string>, eager: bool, opens: bool, intact: bool)

  function Concat(pieces: seq<string>): string {
    if pieces == [] then "" else pieces[0] + Concat(pieces[1..])
  }

  /** No empty piece, and together, unless reading fails, the file's bytes. */
  ghost predicate Reads(r: Reading, data: string) {
    (forall x :: x in r.pieces ==> x != "") && (r.intact ==> Concat(r.pieces) == data)
  }

  /** The chunks and the message that closes the file. */
  function SendPieces(w: Wire, id: string, p: string, pieces: seq<string>, eager: bool): seq<Msg> {
    if pieces == [] then [FileMsg(id, p, "", 0, "", true)]
    else if |pieces| == 1 && eager then [FileMsg(id, p, "", 0, w.enc(pieces[0]), true)]
    else [FileMsg(id, p, "", 0, w.enc(pieces[0]), false)] + SendPieces(w, id, p, pieces[1..], eager)
  }

  /** The chunks before a read that fails. */
  function SendSome(w: Wire, id: string, p: string, pieces: seq<string>): seq<Msg> {
    if pieces == [] then [Answer(id, "read")]
    else [FileMsg(id, p, "", 0, w.enc(pieces[0]), false)] + SendSome(w, id, p, pieces[1..])
  }

  /** `sendFile`. */
  function SendFile(w: Wire, id: string, p: string, n: Node, r: Reading): seq<Msg>
    requires n.File?
  {
    if !r.opens then [Answer(id, "open")]
    else [FileMsg(id, p, Octal(n.mode), n.mtime, "", false)]
         + (if r.intact then SendPieces(w, id, p, r.pieces, r.eager) else SendSome(w, id, p, r.pieces))
  }

  /** The paths the target lacks or holds differently. */
  function ToSend(w: Wire, have: Manifest, source: Source, paths: seq<string>, bySum: bool): seq<string>
    requires forall p :: p in paths ==> p in source
  {
    if paths == [] then []
    else
      (if Same(Have(have, paths[0]), EntryOf(w, paths[0], source[paths[0]], bySum), bySum) then [] else [paths[0]])
      + ToSend(w, have, source, paths[1..], bySum)
  }

  ghost function Sorts(source: Source): (r: seq<string>)
    ensures forall p :: p in r <==> p in source
  {
    assert forall p :: p in SortedSeq(source.Keys) <==> p in Elems(SortedSeq(source.Keys));
    SortedSeq(source.Keys)
  }

  ghost function Delta(w: Wire, have: Manifest, source: Source, bySum: bool): (r: seq<string>)
    ensures forall p :: p in r ==> p in source
  {
    ToSendIsPart(w, have, source, Sorts(source), bySum);
    ToSend(w, have, source, Sorts(source), bySum)
  }

  ghost function Extras(have: Manifest, source: Source): seq<string> {
    SortedSeq(have.Keys - source.Keys)
  }

  /** What each file of the source reads like. */
  type Disk = string -> Reading

  ghost predicate DiskOk(disk: Disk, source: Source) {
    forall p :: p in source && source[p].File? ==> Reads(disk(p), source[p].data)
  }

  function SendAll(w: Wire, id: string, paths: seq<string>, source: Source, disk: Disk): seq<Msg>
    requires forall p :: p in paths ==> p in source && source[p].File?
  {
    if paths == [] then []
    else SendFile(w, id, paths[0], source[paths[0]], disk(paths[0])) + SendAll(w, id, paths[1..], source, disk)
  }

  /** `serveSync`: the delta, then the terminator; a preview sends no file. */
  ghost function HostStream(w: Wire, id: string, have: Manifest, source: Source, disk: Disk, bySum: bool,
      preview: bool): seq<Msg>
    requires SourceOk(source)
  {
    var paths := Delta(w, have, source, bySum);
    (if preview then [] else SendAll(w, id, paths, source, disk)) + [Terminator(id, |paths|, Extras(have, source))]
  }

  lemma {:induction false} ToSendIsPart(w: Wire, have: Manifest, source: Source, paths: seq<string>, bySum: bool)
    requires forall p :: p in paths ==> p in source
    ensures forall p :: p in ToSend(w, have, source, paths, bySum) <==>
              p in paths && !Same(Have(have, p), EntryOf(w, p, source[p], bySum), bySum)
    decreases |paths|
  {
    if paths != [] {
      ToSendIsPart(w, have, source, paths[1..], bySum);
      assert forall p :: p in paths <==> p == paths[0] || p in paths[1..];
    }
  }

  // --- the receiver ---

  /** A file being staged. */
  datatype Open = Open(rel: string, key: Path, mode: nat, mtime: int, data: string)

  datatype Dec =
    | Run(open: Option<Open>, tree: Files)
    | Ended(n: nat, extras: seq<string>, landed: Files)
    | Refused
    | Crashed

  /** One exchange: its codec, its id, the staging tree's own path, and the clock. */
  datatype Ctx = Ctx(w: Wire, id: string, tree: Path, stamp: int)

  /** `stagedFile.commit`. */
  function Close(c: Ctx, d: Dec): Dec
    requires d.Run?
  {
    if d.open.None? then Crashed
    else
      var o := d.open.value;
      if IsDir(d.tree, o.key) then Refused
      else Run(None, d.tree[o.key := File(o.data, o.mode, if o.mtime != 0 then o.mtime else c.stamp)])
  }

  /** `openStaged`. */
  function OpenFile(c: Ctx, tree: Files, path: string, mode: string, mtime: int): Dec {
    var k := Land(c.tree, path);
    if k.None? || Blocked(tree, k.value) then Refused
    else Run(Some(Open(path, k.value, Perm(mode), mtime, "")), tree)
  }

  /** A message may open a file, closing the one before. */
  function Switch(c: Ctx, d: Dec, path: string, mode: string, mtime: int): Dec
    requires d.Run?
  {
    if d.open.None? then (if mode != "" then OpenFile(c, d.tree, path, mode, mtime) else d)
    else if d.open.value.rel == path then d
    else
      var closed := Close(c, d);
      if closed.Run? then OpenFile(c, closed.tree, path, mode, mtime) else closed
  }

  function Write(c: Ctx, d: Dec, data: string): Dec
    requires d.Run?
  {
    if data == "" then d
    else
      var b := c.w.dec(data);
      if b.None? then Refused
      else if d.open.None? then Crashed
      else d.(open := Some(d.open.value.(data := d.open.value.data + b.value)))
  }

  /** One message of this exchange. */
  function Feed(c: Ctx, d: Dec, m: Msg): Dec
    requires d.Run?
  {
    match m
    case Answer(_, _) => Refused
    case Terminator(_, n, del) => if d.open.Some? then Refused else Ended(n, del, d.tree)
    case FileMsg(_, path, mode, mtime, data, last) =>
      var d1 := Switch(c, d, path, mode, mtime);
      if !d1.Run? then d1
      else
        var d2 := Write(c, d1, data);
        if d2.Run? && last then Close(c, d2) else d2
  }

  /** What arrives, and whether staging it meets an I/O error. */
  datatype Arrival = Arrival(msg: Msg, ioFails: bool)

  /** `streamOnce`: messages of another exchange are passed over; still running at the end is
      a stream that was cut. */
  function Decode(c: Ctx, d: Dec, arrivals: seq<Arrival>): Dec
    decreases |arrivals|
  {
    if !d.Run? || arrivals == [] then d
    else
      var a := arrivals[0];
      if a.msg.id != c.id then Decode(c, d, arrivals[1..])
      else if a.msg.FileMsg? && a.ioFails then Refused
      else Decode(c, Feed(c, d, a.msg), arrivals[1..])
  }

  // --- the commit ---

  /** One deletion: outside, through a file, or a directory in use is refused. */
  predicate Removable(fs: Fs, at: Path, rel: string, fails: Path -> bool) {
    var k := Land(at, rel);
    && k.Some? && k.value != []
    && var q := at + k.value;
       !Blocked(fs.files, q) && (q in fs.dirs ==> !InUse(fs, q)) && !fails(q)
  }

  function Without(fs: Fs, q: Path): Fs {
    Fs(fs.files - {q}, fs.dirs - {q})
  }

  /** `removeExtras`: a file goes, or an empty directory; what it was in stays. */
  function RemoveAll(fs: Fs, at: Path, victims: seq<string>, fails: Path -> bool): (Fs, bool)
    decreases |victims|
  {
    if victims == [] then (fs, true)
    else if !Removable(fs, at, victims[0], fails) then (fs, false)
    else RemoveAll(Without(fs, at + Land(at, victims[0]).value), at, victims[1..], fails)
  }

  /** No file stands on the way. */
  predicate Reachable(fs: Fs, at: Path, key: Path) {
    key != [] && !Blocked(fs.files, at + key)
  }

  /** A rename onto a directory is refused. */
  predicate Placeable(fs: Fs, at: Path, key: Path, fails: Path -> bool) {
    Reachable(fs, at, key) && at + key !in fs.dirs && !fails(at + key)
  }

  /** The directories a placement makes; they stay when the rest of it fails. */
  function Made(fs: Fs, q: Path): Fs {
    Fs(fs.files, fs.dirs + Parents(q))
  }

  function With(fs: Fs, q: Path, n: Node): Fs {
    Fs(fs.files[q := n], fs.dirs + Parents(q))
  }

  /** The walk over the staged tree, each file renamed into place. */
  function PlaceAll(fs: Fs, at: Path, order: seq<Path>, tree: Files, fails: Path -> bool): (Fs, bool)
    requires forall k :: k in order ==> k in tree
    decreases |order|
  {
    if order == [] then (fs, true)
    else if !Reachable(fs, at, order[0]) then (fs, false)
    else if !Placeable(fs, at, order[0], fails) then (Made(fs, at + order[0]), false)
    else PlaceAll(With(fs, at + order[0], tree[order[0]]), at, order[1..], tree, fails)
  }

  // --- a sync ---

  /** One attempt: whether a channel was attached, whether the ask went out, what came. */
  datatype Attempt = Attempt(attached: bool, sent: bool, ctx: Ctx, arrivals: seq<Arrival>)

  /** One attempt on a staging area that already holds some files; still running at the end is a
      session that was gone. */
  function Stream(a: Attempt, tree: Files): Dec {
    if !a.attached then Refused
    else if !a.sent then Run(None, tree)
    else Decode(a.ctx, Run(None, tree), a.arrivals)
  }

  datatype Outcome = Ok(written: nat, removed: nat) | Failed

  /** `dir.sync` and the luck of its steps; `walk` is the order of a directory walk. */
  datatype Sync = Sync(
    at: Path,
    del: bool,
    first: Attempt,
    second: Attempt,
    walk: set<Path> -> seq<Path>,
    fails: Path -> bool,
    clearFails: bool,
    listFails: bool)

  ghost predicate WalkOk(walk: set<Path> -> seq<Path>) {
    forall s :: Elems(walk(s)) == s && |walk(s)| == |s|
  }

  /** The staging area with those paths removed. */
  function Cleared(tree: Files, gone: set<Path>): Files {
    tree - gone
  }

  /** How the transfer comes out of its attempts. The first works on a new staging area; when its
      session was gone, the area is emptied of what it left, and the second works on the same
      one. */
  function Final(y: Sync): Dec {
    var first := Stream(y.first, map[]);
    if !first.Run? then first
    else if y.clearFails then Refused
    else Stream(y.second, Cleared(first.tree, first.tree.Keys))
  }

  /** The attempt that decides: the second, only for a session that was gone. */
  function Deciding(y: Sync): Attempt {
    if Stream(y.first, map[]).Run? then y.second else y.first
  }

  /** The lines the commit deletes. */
  function Victims(y: Sync, extras: seq<string>): seq<string> {
    if y.del && extras != [] then ReadBack(Written(extras)) else []
  }

  ghost function Commit(y: Sync, fs: Fs, extras: seq<string>, tree: Files): (Fs, bool)
    requires WalkOk(y.walk)
  {
    var (fs1, ok) := RemoveAll(fs, y.at, Victims(y, extras), y.fails);
    assert forall k :: k in y.walk(tree.Keys) ==> k in Elems(y.walk(tree.Keys));
    if ok then PlaceAll(fs1, y.at, y.walk(tree.Keys), tree, y.fails) else (fs1, false)
  }

  /** `Channel.sync`. */
  ghost function RunSync(y: Sync, fs: Fs): (Fs, Outcome)
    requires WalkOk(y.walk)
  {
    match Final(y)
    case Ended(n, extras, tree) =>
      if y.del && extras != [] && y.listFails then (fs, Failed)
      else
        var (fs1, ok) := Commit(y, fs, extras, tree);
        (fs1, if ok && |tree| == n then Ok(n, if y.del then |extras| else 0) else Failed)
    case _ => (fs, Failed)
  }

  // --- what a sync is for ---

  /** The source file a target path stands for. */
  function SourceAt(source: Source, at: Path, q: Path): Option<string> {
    if at <= q && q != at && Plain(q[|at|..]) && Text(q[|at|..]) in source then Some(Text(q[|at|..])) else None
  }

  /** What a file looks like once delivered. */
  function Delivered(n: Node, stamp: int): Node
    requires n.File?
  {
    File(n.data, if n.mode == 0 then 420 else n.mode, if n.mtime != 0 then n.mtime else stamp)
  }

  /** The file at a path. */
  function Lookup(fs: Fs, q: Path): Option<Node> {
    if q in fs.files then Some(fs.files[q]) else None
  }

  /** The specification, path by path, given the target's manifest: a source file it already has stays, any other
      source file is delivered, what the source lacks goes when deletion was asked for, and
      everything else is as it was. */
  function Goal(w: Wire, have: Manifest, fs: Fs, at: Path, source: Source, bySum: bool, del: bool, stamp: int,
      q: Path): Option<Node> {
    match SourceAt(source, at, q)
    case Some(p) =>
      if source[p].Irregular? || Same(Have(have, p), EntryOf(w, p, source[p], bySum), bySum)
      then Lookup(fs, q)
      else Some(Delivered(source[p], stamp))
    case None => if del && at <= q then None else Lookup(fs, q)
  }
}
