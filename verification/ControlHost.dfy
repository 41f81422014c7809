/** The control host's side of an ask: what a plan declared, resolved under its assets, and one
    answer for each ask, never about anything else. */
module ControlHost {
  import opened Basics
  import opened Paths
  import Eval
  import Plan
  import Preserve
  import Requests
  import Resolve
  import Runner
  import SyncEnds
  import Transfer

  type Path = seq<string>

  /** The part before the first colon and the part after it, None without one. */
  function Cut(s: string): Option<(string, string)> {
    if s == "" then None
    else if s[0] == ':' then Some(("", s[1..]))
    else match Cut(s[1..])
      case None => None
      case Some((a, b)) => Some(([s[0]] + a, b))
  }

  lemma {:induction false} CutJoins(s: string)
    ensures Cut(s).Some? ==> s == Cut(s).value.0 + ":" + Cut(s).value.1 && ':' !in Cut(s).value.0
    ensures Cut(s).None? <==> ':' !in s
    decreases |s|
  {
    if s != "" {
      CutJoins(s[1..]);
      assert s == [s[0]] + s[1..];
    }
  }

  /** Where a declared path points: under the root unless it is absolute, then cleaned. */
  function Resolved(root: Path, p: string): Path {
    if "/" <= p then Walk([], Split(p, '/')) else Walk(root, Split(p, '/'))
  }

  /** `underRoot`: the root or something inside it. */
  predicate UnderRoot(root: Path, p: Path) {
    root <= p
  }

  /** A declaration the list keeps: a primitive, a path, and the path inside the assets. */
  predicate Kept(root: Path, d: string) {
    Cut(d).Some? && UnderRoot(root, Resolved(root, Cut(d).value.1))
  }

  /** `NewAllowed`. */
  method NewAllowed(root: Path, declared: seq<string>) returns (paths: map<string, Path>)
    ensures forall r :: r in paths <==> r in declared && Kept(root, r)
    ensures forall r :: r in paths ==> UnderRoot(root, paths[r])
    ensures forall r :: r in paths && Cut(r).Some? ==> paths[r] == Resolved(root, Cut(r).value.1)
  {
    paths := map[];
    var i := 0;
    while i < |declared|
      invariant i <= |declared|
      invariant forall r :: r in paths <==> r in declared[..i] && Kept(root, r)
      invariant forall r :: r in paths ==> UnderRoot(root, paths[r])
      invariant forall r :: r in paths && Cut(r).Some? ==> paths[r] == Resolved(root, Cut(r).value.1)
    {
      var d := declared[i];
      assert forall r :: r in declared[..i + 1] <==> r in declared[..i] || r == d;
      var c := Cut(d);
      if c.Some? {
        CutJoins(d);
        var abs := Resolved(root, c.value.1);
        if UnderRoot(root, abs) { paths := paths[c.value.0 + ":" + c.value.1 := abs]; }
      }
      i := i + 1;
    }
    assert declared[..i] == declared;
  }

  /** The assets as the project writes them, and the disk behind them: where a path leads once
      links are followed, what a file holds, whether a place is a link, the regular files below a
      place and how they read; the renderer and the wire. */
  datatype Host = Host(
    root: Path,
    paths: map<string, Path>,
    leads: Path -> Option<Path>,
    read: Path -> Option<string>,
    isLink: Path -> bool,
    tree: Path -> Option<Transfer.Source>,
    disk: Path -> Transfer.Disk,
    render: (string, map<string, string>) -> Option<string>,
    wire: Transfer.Wire)

  /** The assets once their own links are followed; as written when that fails. */
  function RealRoot(h: Host): Path {
    if h.leads(h.root).Some? then h.leads(h.root).value else h.root
  }

  ghost predicate HostOk(h: Host) {
    forall q :: h.tree(q).Some? ==> Transfer.SourceOk(h.tree(q).value)
  }

  /** What arrives: an ask, or a message of another kind. */
  datatype Inbound =
    | Ask(id: string, resource: string, vars: map<string, string>, entries: seq<Transfer.Entry>)
    | Other

  /** An answer carries data or an error; a transfer is answered by a sequence. */
  datatype Reply = Answer(id: string, data: Option<string>) | Stream(msgs: seq<Transfer.Msg>)

  predicate IsTransfer(resource: string) {
    "dir.sync:" <= resource
  }

  /** `readResource`: declared, inside the assets once links are followed, readable. */
  function ReadResource(h: Host, resource: string): Option<string> {
    if resource !in h.paths then None
    else
      var p := h.leads(h.paths[resource]);
      if p.None? || !UnderRoot(RealRoot(h), p.value) then None else h.read(h.paths[resource])
  }

  /** `answer`: a template is read through the same door, then rendered over the caller's
      scope. */
  function AnswerTo(h: Host, a: Inbound): Reply
    requires a.Ask?
  {
    var content := ReadResource(h, a.resource);
    Answer(a.id,
           if content.Some? && "file.render:" <= a.resource then h.render(content.value, a.vars) else content)
  }

  /** Where a walk from a path takes its files: links on the way are followed, the last name is
      not. */
  function Origin(h: Host, p: Path): Option<Path> {
    if p == [] then Some([])
    else
      var parent := h.leads(p[..|p| - 1]);
      if parent.None? then None else Some(parent.value + [p[|p| - 1]])
  }

  /** `walkSource`: the regular files there; nothing when it is a link itself, an error when
      nothing is there. */
  function SourceOf(h: Host, p: Path): Option<Transfer.Source> {
    match Origin(h, p)
    case None => None
    case Some(q) =>
      if h.leads(p) == Some(q) then h.tree(q)
      else if h.isLink(q) then Some(map[])
      else None
  }

  function VarOf(vars: map<string, string>, name: string): string {
    if name in vars then vars[name] else ""
  }

  /** `serveSync`: the declared path is walked as it is written; no link is checked. */
  ghost function StreamTo(h: Host, a: Inbound): seq<Transfer.Msg>
    requires HostOk(h) && a.Ask?
  {
    if a.resource !in h.paths then [Transfer.Answer(a.id, "refused")]
    else
      var p := h.paths[a.resource];
      var source := SourceOf(h, p);
      if source.None? then [Transfer.Answer(a.id, "walk")]
      else
        EmptyOk();
        Transfer.HostStream(h.wire, a.id, SyncEnds.Received(a.entries), source.value, h.disk(Origin(h, p).value),
                            VarOf(a.vars, "compare") == "sha256", VarOf(a.vars, "preview") == "true")
  }

  lemma EmptyOk()
    ensures Transfer.SourceOk(map[])
  {
  }

  /** One reply for each ask, in order; what is not an ask gets none. */
  ghost function Replies(h: Host, inbound: seq<Inbound>): seq<Reply>
    requires HostOk(h)
  {
    if inbound == [] then []
    else
      var a := inbound[0];
      (if a.Other? then [] else if IsTransfer(a.resource) then [Stream(StreamTo(h, a))] else [AnswerTo(h, a)])
      + Replies(h, inbound[1..])
  }

  method StreamLoop(h: Host, a: Inbound) returns (msgs: seq<Transfer.Msg>)
    requires HostOk(h) && a.Ask?
    ensures msgs == StreamTo(h, a)
  {
    if a.resource !in h.paths { return [Transfer.Answer(a.id, "refused")]; }
    var p := h.paths[a.resource];
    var source := SourceOf(h, p);
    if source.None? { return [Transfer.Answer(a.id, "walk")]; }
    EmptyOk();
    msgs := SyncEnds.ServeSync(h.wire, a.id, a.entries, source.value, h.disk(Origin(h, p).value),
                               VarOf(a.vars, "compare") == "sha256", VarOf(a.vars, "preview") == "true");
  }

  /** `Serve`. */
  method Serve(h: Host, inbound: seq<Inbound>) returns (replies: seq<Reply>)
    requires HostOk(h)
    ensures replies == Replies(h, inbound)
  {
    replies := [];
    var i := 0;
    while i < |inbound|
      invariant i <= |inbound| && replies + Replies(h, inbound[i..]) == Replies(h, inbound)
    {
      var a := inbound[i];
      assert inbound[i..][0] == a && inbound[i..][1..] == inbound[i + 1..];
      ghost var rest := Replies(h, inbound[i + 1..]);
      if a.Ask? {
        var reply;
        if IsTransfer(a.resource) {
          var msgs := StreamLoop(h, a);
          reply := Stream(msgs);
        } else {
          reply := AnswerTo(h, a);
        }
        assert (replies + [reply]) + rest == replies + ([reply] + rest);
        replies := replies + [reply];
      } else {
        assert [] + rest == rest;
      }
      i := i + 1;
    }
    assert replies + [] == replies;
  }

  /** Every message of the reply repeats the ask's id. */
  ghost predicate ForAsk(r: Reply, id: string) {
    match r
    case Answer(i, _) => i == id
    case Stream(msgs) => forall m :: m in msgs ==> m.id == id
  }

  /** The asks among what arrived. */
  function AsksOf(inbound: seq<Inbound>): seq<Inbound> {
    if inbound == [] then [] else (if inbound[0].Ask? then [inbound[0]] else []) + AsksOf(inbound[1..])
  }

  /** Reply k is for ask k, of the kind it asks for. */
  lemma {:induction false} ReplyIs(h: Host, inbound: seq<Inbound>, k: nat)
    requires HostOk(h)
    ensures |Replies(h, inbound)| == |AsksOf(inbound)|
    ensures k < |AsksOf(inbound)| ==>
              var a := AsksOf(inbound)[k];
              a.Ask? &&
                Replies(h, inbound)[k] == if IsTransfer(a.resource) then Stream(StreamTo(h, a)) else AnswerTo(h, a)
    decreases |inbound|
  {
    if inbound != [] { ReplyIs(h, inbound[1..], if inbound[0].Ask? && k > 0 then k - 1 else k); }
  }

  /** One reply per ask, for that ask: its id on every message. */
  lemma OneReplyEach(h: Host, inbound: seq<Inbound>)
    requires HostOk(h)
    ensures |Replies(h, inbound)| == |AsksOf(inbound)|
    ensures forall k :: 0 <= k < |AsksOf(inbound)| ==>
            AsksOf(inbound)[k].Ask? && ForAsk(Replies(h, inbound)[k], AsksOf(inbound)[k].id)
  {
    ReplyIs(h, inbound, 0);
    forall k | 0 <= k < |AsksOf(inbound)|
      ensures AsksOf(inbound)[k].Ask? && ForAsk(Replies(h, inbound)[k], AsksOf(inbound)[k].id)
    {
      ReplyIs(h, inbound, k);
      StreamIds(h, AsksOf(inbound)[k]);
    }
  }

  /** Every message has the ask's id, and every file is one of the tree the declared path leads to. */
  lemma StreamIds(h: Host, a: Inbound)
    requires HostOk(h) && a.Ask?
    ensures forall m :: m in StreamTo(h, a) ==> m.id == a.id && (m.FileMsg? ==> FromTree(h, a, m))
  {
    if a.resource in h.paths && SourceOf(h, h.paths[a.resource]).Some? {
      var source := SourceOf(h, h.paths[a.resource]).value;
      EmptyOk();
      HostStreamFrom(h.wire, a.id, SyncEnds.Received(a.entries), source,
                     h.disk(Origin(h, h.paths[a.resource]).value),
                     VarOf(a.vars, "compare") == "sha256", VarOf(a.vars, "preview") == "true");
    }
  }

  ghost predicate FromTree(h: Host, a: Inbound, m: Transfer.Msg)
    requires a.Ask? && m.FileMsg?
  {
    && a.resource in h.paths && Origin(h, h.paths[a.resource]).Some?
    && SourceOf(h, h.paths[a.resource]).Some? && m.path in SourceOf(h, h.paths[a.resource]).value
  }

  lemma HostStreamFrom(w: Transfer.Wire, id: string, have: Transfer.Manifest, source: Transfer.Source,
      disk: Transfer.Disk, bySum: bool, preview: bool)
    requires Transfer.SourceOk(source)
    ensures forall m :: m in Transfer.HostStream(w, id, have, source, disk, bySum, preview) ==>
              m.id == id && (m.FileMsg? ==> m.path in source)
  {
    SendIds(w, id, Transfer.Delta(w, have, source, bySum), source, disk);
  }

  /** The files a transfer sends are files of the tree it walks. */
  lemma {:induction false} SendIds(w: Transfer.Wire, id: string, paths: seq<string>, source: Transfer.Source,
      disk: Transfer.Disk)
    requires Transfer.SourceOk(source) && forall p :: p in paths ==> p in source
    ensures forall m :: m in Transfer.SendAll(w, id, paths, source, disk) ==>
            m.id == id && (m.FileMsg? ==> m.path in source)
    decreases |paths|
  {
    if paths != [] {
      assert paths[0] in paths && forall p :: p in paths[1..] ==> p in paths;
      var r := disk(paths[0]);
      PieceIds(w, id, paths[0], r.pieces, r.eager);
      SendIds(w, id, paths[1..], source, disk);
    }
  }

  lemma {:induction false} PieceIds(w: Transfer.Wire, id: string, p: string, pieces: seq<string>, eager: bool)
    ensures forall m :: m in Transfer.SendPieces(w, id, p, pieces, eager) ==> m.id == id && (m.FileMsg? ==> m.path == p)
    ensures forall m :: m in Transfer.SendSome(w, id, p, pieces) ==> m.id == id && (m.FileMsg? ==> m.path == p)
    decreases |pieces|
  {
    if pieces != [] { PieceIds(w, id, p, pieces[1..], eager); }
  }

  // --- what is served ---

  /** Once links are followed. */
  predicate LeadsInside(h: Host, p: Path) {
    h.leads(p).Some? && UnderRoot(RealRoot(h), h.leads(p).value)
  }

  /** An ask that is not a transfer is answered with nothing but what the plan declared, whose
      path is inside the assets and which no link leads out of. */
  lemma AnsweredWasDeclared(h: Host, declared: seq<string>, inbound: seq<Inbound>, k: nat)
    requires HostOk(h) && forall r :: r in h.paths <==> r in declared && Kept(h.root, r)
    requires k < |Replies(h, inbound)| && Replies(h, inbound)[k].Answer? && Replies(h, inbound)[k].data.Some?
    ensures k < |AsksOf(inbound)| && AsksOf(inbound)[k].Ask?
    ensures var r := AsksOf(inbound)[k].resource;
            !IsTransfer(r) && r in declared && Kept(h.root, r) && LeadsInside(h, h.paths[r])
  {
    ReplyIs(h, inbound, k);
  }

  /** A transfer sends nothing but regular files below a place the plan declared, whose path as
      written is inside the assets. */
  lemma SentWasDeclared(h: Host, declared: seq<string>, a: Inbound, m: Transfer.Msg)
    requires HostOk(h) && a.Ask? && forall r :: r in h.paths <==> r in declared && Kept(h.root, r)
    requires m in StreamTo(h, a) && m.FileMsg?
    ensures a.resource in declared && Kept(h.root, a.resource)
    ensures var source := SourceOf(h, h.paths[a.resource]);
            source.Some? && m.path in source.value
  {
    StreamIds(h, a);
  }

  /** Two disks with the same assets, the same list and the same links; what the files are may
      differ. */
  ghost predicate SameLinks(g: Host, h: Host) {
    HostOk(g) && g.root == h.root && g.paths == h.paths && g.leads == h.leads && g.wire == h.wire
  }

  /** Every file the transfer sends is taken from inside the assets. */
  ghost predicate SendsInside(h: Host, a: Inbound)
    requires HostOk(h) && a.Ask? && a.resource in h.paths
  {
    forall m :: m in StreamTo(h, a) && m.FileMsg? ==>
      Origin(h, h.paths[a.resource]).Some? &&
      UnderRoot(RealRoot(h), Origin(h, h.paths[a.resource]).value + Names(m.path))
  }

  /** No link on the way to a declared path leads out; or the path is itself a link, or nothing is
      there, and nothing is sent. */
  predicate StaysInside(h: Host, p: Path) {
    Origin(h, p).Some? && h.leads(p) == Origin(h, p) ==> UnderRoot(RealRoot(h), Origin(h, p).value)
  }

  /** A transfer of a declared path sends files from inside the assets only, whatever the files are
      and whoever asks, exactly when no link on the way to the path leads out, or nothing but a link
      is there. */
  lemma TransferInsideExactly(h: Host, r: string)
    requires r in h.paths
    ensures (forall g: Host, a: Inbound {:trigger SameLinks(g, h), SendsInside(g, a)} ::
               SameLinks(g, h) && a.Ask? && a.resource == r ==> SendsInside(g, a)) <==>
            StaysInside(h, h.paths[r])
  {
    var p := h.paths[r];
    if StaysInside(h, p) {
      forall g: Host, a: Inbound {:trigger SameLinks(g, h), SendsInside(g, a)} | SameLinks(g, h) && a.Ask? &&
        a.resource == r
        ensures SendsInside(g, a)
      {
        SentInside(g, a);
      }
    } else {
      var g, a := SentOutside(h, r);
      assert SameLinks(g, h) && !SendsInside(g, a);
    }
  }

  lemma SentInside(h: Host, a: Inbound)
    requires HostOk(h) && a.Ask? && a.resource in h.paths && StaysInside(h, h.paths[a.resource])
    ensures SendsInside(h, a)
  {
    var p := h.paths[a.resource];
    forall m | m in StreamTo(h, a) && m.FileMsg?
      ensures Origin(h, p).Some? && UnderRoot(RealRoot(h), Origin(h, p).value + Names(m.path))
    {
      StreamIds(h, a);
      assert Origin(h, p).value <= Origin(h, p).value + Names(m.path);
    }
  }

  /** The same links over a tree of one file, and the ask that has it sent. */
  lemma SentOutside(h: Host, r: string) returns (g: Host, a: Inbound)
    requires r in h.paths && !StaysInside(h, h.paths[r])
    ensures SameLinks(g, h) && a.Ask? && a.resource == r && !SendsInside(g, a)
  {
    var q, root := Origin(h, h.paths[r]).value, RealRoot(h);
    var name := if root != [] && root[|root| - 1] == "x" then "y" else "x";
    var one := map[name := Transfer.File("", 420, 1)];
    g := h.(tree := p => Some(one), disk := p => (f => Transfer.Reading([], true, true, true)));
    a := Ask("1", r, map[], []);
    OneFileOk(name);
    var m := OneFileSent(h.wire, a.id, one, g.disk(q), name);
    assert SourceOf(g, h.paths[r]) == Some(one);
    assert m in StreamTo(g, a);
    OneMoreName(root, q, name);
  }

  lemma OneMoreName(root: Path, q: Path, name: string)
    requires !UnderRoot(root, q) && root[|root| - 1] != name
    ensures !UnderRoot(root, q + [name])
  {
    if |root| <= |q| {
      assert (q + [name])[..|root|] == q[..|root|];
    } else {
      assert |root| == |q| + 1 ==> (q + [name])[|root| - 1] == name;
    }
  }

  lemma OneFileOk(name: string)
    requires name == "x" || name == "y"
    ensures Transfer.SourceOk(map[name := Transfer.File("", 420, 1)]) && Names(name) == [name]
  {
    SplitOne(name, '/');
    assert Names(name) == [name] && Plain([name]);
    assert !Transfer.Nested(name, name);
  }

  // --- a linked directory ---

  /** A project whose `assets/pkg` is a link to `/etc`, which holds `sub/x`. */
  function Linked(w: Transfer.Wire): Host {
    var x := map["x" := Transfer.File("key", 384, 7)];
    Host(["assets"],
        map["dir.sync:pkg/sub" := ["assets", "pkg", "sub"], "file.read:pkg/sub/x" := ["assets", "pkg", "sub", "x"]],
         p => if ["assets", "pkg"] <= p then Some(["etc"] + p[2..]) else Some(p),
         p => Some("key"), p => false,
         p => if p == ["etc", "sub"] then Some(x) else Some(map[]),
         p => (f => Transfer.Reading(["key"], true, true, true)),
         (t, v) => Some(t), w)
  }

  lemma LinkedOk(w: Transfer.Wire)
    ensures HostOk(Linked(w))
  {
    var x := map["x" := Transfer.File("key", 384, 7)];
    SplitOne("x", '/');
    assert Names("x") == ["x"] && Plain(["x"]);
    assert !Transfer.Nested("x", "x");
    assert Transfer.SourceOk(x);
  }

  lemma LinkedFileRefused(w: Transfer.Wire)
    ensures AnswerTo(Linked(w), Ask("1", "file.read:pkg/sub/x", map[], [])) == Answer("1", None)
  {
    var file: Path := ["assets", "pkg", "sub", "x"];
    assert !(["assets"] <= ["etc"] + file[2..]) by { assert (["etc"] + file[2..])[0] == "etc"; }
  }

  lemma LinkedOrigin(w: Transfer.Wire)
    ensures Origin(Linked(w), ["assets", "pkg", "sub"]) == Some(["etc", "sub"])
    ensures Linked(w).leads(["assets", "pkg", "sub"]) == Some(["etc", "sub"])
  {
    var p: Path := ["assets", "pkg", "sub"];
    assert ["etc"] + p[2..] == ["etc", "sub"];
    assert p[..2] == ["assets", "pkg"] && ["etc"] + p[..2][2..] + ["sub"] == ["etc", "sub"];
  }

  /** A file behind the link is refused when read and sent when its directory is transferred. */
  lemma LinkedDirectoryIsSent(w: Transfer.Wire)
    ensures HostOk(Linked(w))
    ensures AnswerTo(Linked(w), Ask("1", "file.read:pkg/sub/x", map[], [])) == Answer("1", None)
    ensures Origin(Linked(w), ["assets", "pkg", "sub"]) == Some(["etc", "sub"])
    ensures exists m :: m in StreamTo(Linked(w), Ask("2", "dir.sync:pkg/sub", map[], [])) && m.FileMsg? && m.path == "x"
  {
    LinkedOk(w);
    LinkedFileRefused(w);
    LinkedOrigin(w);
    var h, a := Linked(w), Ask("2", "dir.sync:pkg/sub", map[], []);
    var m := OneFileSent(w, a.id, SourceOf(h, h.paths[a.resource]).value, h.disk(["etc", "sub"]), "x");
  }

  lemma OneFileSent(w: Transfer.Wire, id: string, source: Transfer.Source, disk: Transfer.Disk, name: string)
      returns (m: Transfer.Msg)
    requires Transfer.SourceOk(source) && source.Keys == {name} && disk(name).opens
    ensures m in Transfer.HostStream(w, id, map[], source, disk, false, false) && m.FileMsg? && m.path == name
  {
    var sent := Transfer.Delta(w, map[], source, false);
    Transfer.ToSendIsPart(w, map[], source, Transfer.Sorts(source), false);
    assert name in sent && sent[0] in sent;
    m := Transfer.FileMsg(id, name, Octal(source[name].mode), source[name].mtime, "", false);
    assert sent[0] == name;
    assert m in Transfer.SendFile(w, id, name, source[name], disk(name));
    assert m in Transfer.SendAll(w, id, sent, source, disk);
  }

  /** A path of plain names is always inside. */
  lemma PlainIsInside(root: Path, primitive: string, names: seq<string>)
    requires ':' !in primitive && Plain(names) && names != []
    ensures Kept(root, primitive + ":" + Text(names))
    ensures Resolved(root, Text(names)) == root + names
  {
    var d := primitive + ":" + Text(names);
    CutAt(primitive, Text(names));
    SplitJoin(names, '/');
    WalkPlain(root, names);
    assert names[0] in names;
    assert Text(names)[0] == names[0][0] && names[0][0] != '/';
  }

  lemma {:induction false} CutAt(a: string, b: string)
    requires ':' !in a
    ensures Cut(a + ":" + b) == Some((a, b))
  {
    if a == "" {
      assert (a + ":" + b)[1..] == b;
    } else {
      var s := a + ":" + b;
      assert s[1..] == a[1..] + ":" + b && s[0] == a[0] && a[0] in a;
      CutAt(a[1..], b);
      assert a == [a[0]] + a[1..];
    }
  }

  /** Every resource a run of the plan asks for is in the list built from the plan, when the
      plan's marked paths stay inside the assets. */
  lemma AskedIsAllowed(plan: seq<Plan.Step>, env: map<string, string>, interp: string, c: Runner.Agent, exec: Eval.Exec,
                       installed: set<string>, sys: Eval.Sys, e: Eval.Event, h: Host)
    requires Requests.Parsed(c.defs) && Requests.LiteralFree(c.defs) && Requests.MarksOwned(c.defs)
    requires Resolve.AllShaped(plan) && Resolve.ResolveSteps(plan, env, interp).Some?
    requires Resolve.LatePaths(plan, env) <= Plan.Paths(plan)
    requires sys.log == [] &&
            e in Runner.RunRequest(c, exec, installed, Resolve.ResolveSteps(plan, env, interp).value, sys).2.log
    requires e.kind.Asked? || e.kind.Transferred? || e.kind.Previewed?
    requires forall r :: r in h.paths <==> r in Plan.ControlResources(plan) && Kept(h.root, r)
    requires forall p :: p in Plan.Paths(plan) ==> UnderRoot(h.root, Resolved(h.root, p))
    ensures e.kind.resource in h.paths
  {
    Requests.AskedIsDeclared(plan, env, interp, c, exec, installed, sys, e);
    DeclaredIsKept(h.root, Plan.Paths(plan), e.kind.resource);
  }

  lemma DeclaredIsKept(root: Path, paths: set<string>, r: string)
    requires r in Preserve.Resources(paths) && forall p :: p in paths ==> UnderRoot(root, Resolved(root, p))
    ensures Kept(root, r)
  {
    var p, k :| p in paths && k in {"file.read", "file.render", "dir.list", "dir.sync"} && r == Eval.ResourceKey(k, p);
    CutAt(k, p);
  }
}
