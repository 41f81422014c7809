/** The three text passes: `${name}` interpolation while the plan is read, the per-host
    expansion of what it left behind, and `~{name}` templates. Each is a loop writing a
    builder; the functions say what the loops compute and the lemmas what that means. */
module Text {
  import opened Basics

  type Table = map<string, string>

  const INVENTORY := "inventory."
  const RAW_OPEN := "~{raw}"
  const RAW_CLOSE := "~{endraw}"

  /** p occurs in s at j. */
  predicate At(s: string, p: string, j: nat) {
    j + |p| <= |s| && s[j..j + |p|] == p
  }

  lemma AtShift(a: string, b: string, p: string, j: nat)
    requires j >= |a|
    ensures At(a + b, p, j) == At(b, p, j - |a|)
  {
    if j + |p| <= |a + b| {
      assert (a + b)[j..j + |p|] == b[j - |a|..j - |a| + |p|];
    }
  }

  lemma AtWithin(a: string, b: string, p: string, j: nat)
    requires j + |p| <= |a|
    ensures At(a + b, p, j) == At(a, p, j)
  {
    assert (a + b)[j..j + |p|] == a[j..j + |p|];
  }

  /** Where the first character differs there is no occurrence. */
  lemma NotAt(s: string, p: string, j: nat)
    requires p != "" && j < |s| && s[j] != p[0]
    ensures !At(s, p, j)
  {
    if j + |p| <= |s| { assert s[j..j + |p|][0] == s[j]; }
  }

  lemma AtChar(s: string, c: char, j: nat)
    requires j < |s|
    ensures At(s, [c], j) <==> s[j] == c
  {
    assert s[j..j + 1] == [s[j]];
  }

  lemma AtPair(s: string, c: char, d: char, j: nat)
    requires j + 2 <= |s|
    ensures At(s, [c, d], j) <==> s[j] == c && s[j + 1] == d
  {
    assert s[j..j + 2] == [s[j], s[j + 1]];
  }

  /** Text written before what a recursive pass yields. */
  function Glue(a: string, r: Option<string>): Option<string> {
    if r.None? then None else Some(a + r.value)
  }

  lemma GlueNothing(r: Option<string>)
    ensures Glue("", r) == r
  {
    if r.Some? { assert "" + r.value == r.value; }
  }

  lemma GlueGlue(a: string, b: string, r: Option<string>)
    ensures Glue(a, Glue(b, r)) == Glue(a + b, r)
  {
    if r.Some? { assert a + (b + r.value) == (a + b) + r.value; }
  }

  /** Where p first occurs in s, or -1. */
  ghost predicate IsFirst(s: string, p: string, i: int) {
    if i < 0 then i == -1 && forall j: nat :: !At(s, p, j)
    else At(s, p, i) && forall j: nat :: j < i ==> !At(s, p, j)
  }

  /** `strings.Index`. */
  method Index(s: string, p: string) returns (i: int)
    ensures i == Find(s, p)
  {
    var j := 0;
    while j + |p| <= |s|
      invariant 0 <= j
      invariant forall k: nat :: k < j ==> !At(s, p, k)
    {
      if s[j..j + |p|] == p {
        FindIs(s, p, j);
        return j;
      }
      j := j + 1;
    }
    FindIsNot(s, p);
    return -1;
  }

  lemma IndexExists(s: string, p: string) returns (i: int)
    ensures IsFirst(s, p, i)
  {
    var j := 0;
    while j + |p| <= |s|
      invariant 0 <= j
      invariant forall k: nat :: k < j ==> !At(s, p, k)
    {
      if At(s, p, j) { return j; }
      j := j + 1;
    }
    return -1;
  }

  ghost function Find(s: string, p: string): (i: int)
    ensures i == -1 || (0 <= i && i + |p| <= |s|)
  {
    assert exists i :: IsFirst(s, p, i) by { var w := IndexExists(s, p); }
    var i :| IsFirst(s, p, i);
    i
  }

  /** Find is the first occurrence. */
  lemma FindFirst(s: string, p: string)
    ensures IsFirst(s, p, Find(s, p))
    ensures forall j: nat :: At(s, p, j) ==> 0 <= Find(s, p) <= j
  {
    assert exists i :: IsFirst(s, p, i) by { var w := IndexExists(s, p); }
  }

  lemma FindIsNot(s: string, p: string)
    requires forall j: nat :: !At(s, p, j)
    ensures Find(s, p) == -1
  {
    FindFirst(s, p);
  }

  /** The first occurrence is the only index with its property. */
  lemma FindIs(s: string, p: string, i: nat)
    requires At(s, p, i) && forall j: nat :: j < i ==> !At(s, p, j)
    ensures Find(s, p) == i
  {
    FindFirst(s, p);
  }

  // --- names of the inventory ---

  /** A name the parser leaves for the orchestrator: `inventory.<field>` or
      `inventory.<host>.<field>`, every segment non-empty and the last one not `key`. */
  ghost predicate DeferredName(name: string)
    requires INVENTORY <= name
  {
    var field := name[|INVENTORY|..];
    var dot := Find(field, ".");
    if dot < 0 then field != "" && field != "key"
    else
      var last := field[dot + 1..];
      dot > 0 && last != "" && last != "key" && Find(last, ".") < 0
  }

  predicate OpensRaw(s: string) {
    RAW_OPEN <= s
  }

  predicate OpensName(s: string) {
    |s| >= 2 && s[0] == '~' && s[1] == '{'
  }

  /** What one `${name}` becomes while the plan is read. */
  ghost function ParsePiece(name: string, plan: Table): Option<string> {
    if INVENTORY <= name then
      if DeferredName(name) then Some(Ref(name)) else None
    else if name in plan then Some(plan[name])
    else None
  }

  /** The name that starts at a two-character opener and what follows its `}`. */
  ghost function Head(s: string, at: nat): (r: Option<(string, string)>)
    requires at + 2 <= |s|
    ensures r.Some? ==> |r.value.1| < |s|
  {
    var rest := s[at + 2..];
    var end := Find(rest, "}");
    if end < 0 then None else Some((rest[..end], rest[end + 1..]))
  }

  /** A text up to its first `${…}`. */
  datatype Cut = Plain | Unterminated | Found(pre: string, name: string, tail: string)

  ghost function CutRef(s: string): (c: Cut)
    ensures c.Found? ==> |c.tail| < |s|
  {
    var i := Find(s, "${");
    if i < 0 then Plain
    else match Head(s, i)
      case None => Unterminated
      case Some((name, tail)) => Found(s[..i], name, tail)
  }

  /** `interpolate`: the text; None is an error. */
  ghost function Interpolate(s: string, plan: Table): Option<string> {
    match CutRef(s)
    case Plain => Some(s)
    case Unterminated => None
    case Found(pre, name, tail) =>
      var v := ParsePiece(name, plan);
      if v.None? then None else Glue(pre + v.value, Interpolate(tail, plan))
  }

  /** Whether `interpolate` reports that a name was left for the orchestrator. */
  ghost predicate Defers(s: string) {
    match CutRef(s)
    case Found(_, name, tail) => INVENTORY <= name || Defers(tail)
    case _ => false
  }

  /** `expandInventory`: every name left is looked up in the host's table. */
  ghost function Expand(s: string, env: Table): Option<string> {
    match CutRef(s)
    case Plain => Some(s)
    case Unterminated => None
    case Found(pre, name, tail) => if name !in env then None else Glue(pre + env[name], Expand(tail, env))
  }

  /** The reader both loops share: the next `${…}` of a text. */
  method NextRef(s: string) returns (c: Cut)
    ensures c == CutRef(s)
  {
    var i := Index(s, "${");
    if i < 0 { return Plain; }
    var rest := s[i + 2..];
    var end := Index(rest, "}");
    if end < 0 { return Unterminated; }
    return Found(s[..i], rest[..end], rest[end + 1..]);
  }

  /** The check `interpolate` makes of an `inventory.` name. */
  method CheckField(name: string) returns (ok: bool)
    requires INVENTORY <= name
    ensures ok == DeferredName(name)
  {
    var field := name[|INVENTORY|..];
    var dot := Index(field, ".");
    if dot < 0 { return field != "" && field != "key"; }
    var last := field[dot + 1..];
    var more := Index(last, ".");
    return dot > 0 && last != "" && last != "key" && more < 0;
  }

  /** The loop of `interpolate`: a builder, the text still to read, the deferred flag. */
  method InterpolateLoop(text: string, plan: Table) returns (out: Option<string>, deferred: bool)
    ensures out == Interpolate(text, plan)
    ensures out.Some? ==> deferred == Defers(text)
  {
    var s, b := text, "";
    deferred := false;
    GlueNothing(Interpolate(text, plan));
    while true
      invariant Interpolate(text, plan) == Glue(b, Interpolate(s, plan))
      invariant Defers(text) == (deferred || Defers(s))
      decreases |s|
    {
      var c := NextRef(s);
      if c.Plain? { return Some(b + s), deferred; }
      if c.Unterminated? { return None, false; }
      var v;
      if INVENTORY <= c.name {
        var ok := CheckField(c.name);
        if !ok { return None, false; }
        v := Ref(c.name);
        deferred := true;
      } else {
        if c.name !in plan { return None, false; }
        v := plan[c.name];
      }
      GlueGlue(b, c.pre + v, Interpolate(c.tail, plan));
      b := b + (c.pre + v);
      s := c.tail;
    }
  }

  /** The loop of `expandInventory`. */
  method ExpandLoop(text: string, env: Table) returns (out: Option<string>)
    ensures out == Expand(text, env)
  {
    var s, b := text, "";
    GlueNothing(Expand(text, env));
    while true
      invariant Expand(text, env) == Glue(b, Expand(s, env))
      decreases |s|
    {
      var c := NextRef(s);
      if c.Plain? { return Some(b + s); }
      if c.Unterminated? || c.name !in env { return None; }
      GlueGlue(b, c.pre + env[c.name], Expand(c.tail, env));
      b := b + (c.pre + env[c.name]);
      s := c.tail;
    }
  }

  // --- two stages are one ---

  /** What the program does with one argument: interpolate while reading, and expand per
      host exactly when something was deferred. */
  ghost function TwoStage(s: string, plan: Table, env: Table): Option<string> {
    var t := Interpolate(s, plan);
    if t.Some? && Defers(s) then Expand(t.value, env) else t
  }

  /** One `${…}` of the single pass: each name is answered by the table it belongs to. */
  ghost function PassPiece(name: string, plan: Table, env: Table): Option<string> {
    if INVENTORY <= name then
      if DeferredName(name) && name in env then Some(env[name]) else None
    else if name in plan then Some(plan[name])
    else None
  }

  /** The reference: one pass over both tables. */
  ghost function OnePass(s: string, plan: Table, env: Table): Option<string> {
    match CutRef(s)
    case Plain => Some(s)
    case Unterminated => None
    case Found(pre, name, tail) =>
      var v := PassPiece(name, plan, env);
      if v.None? then None else Glue(pre + v.value, OnePass(tail, plan, env))
  }

  /** Every `$` of the text opens a `${…}`. */
  predicate DollarsOpen(s: string) {
    forall i :: 0 <= i < |s| && s[i] == '$' ==> i + 1 < |s| && s[i + 1] == '{'
  }

  predicate DollarFree(s: string) {
    forall i :: 0 <= i < |s| ==> s[i] != '$'
  }

  /** No `${` in the text, and no `$` at its end to start one. */
  predicate Closed(s: string) {
    forall i :: 0 <= i < |s| && s[i] == '$' ==> i + 1 < |s| && s[i + 1] != '{'
  }

  predicate BraceFree(s: string) {
    forall i :: 0 <= i < |s| ==> s[i] != '}'
  }

  function Ref(name: string): string {
    "${" + name + "}"
  }

  lemma HeadName(s: string, at: nat)
    requires at + 2 <= |s| && Head(s, at).Some?
    ensures BraceFree(Head(s, at).value.0)
    ensures Head(s, at).value.1 == s[|s| - |Head(s, at).value.1|..]
  {
    var rest := s[at + 2..];
    FindFirst(rest, "}");
    forall j | 0 <= j < Find(rest, "}") ensures rest[j] != '}' { AtChar(rest, '}', j); }
  }

  /** What is left of the first reference holds no `$`, and what is right of it keeps the
      condition on the text. */
  lemma CutParts(s: string)
    requires DollarsOpen(s)
    ensures CutRef(s).Plain? ==> DollarFree(s)
    ensures CutRef(s).Found? ==> DollarFree(CutRef(s).pre) && BraceFree(CutRef(s).name) && DollarsOpen(CutRef(s).tail)
  {
    FindFirst(s, "${");
    var i := if Find(s, "${") < 0 then |s| else Find(s, "${");
    forall j | 0 <= j < i ensures s[j] != '$' {
      if j + 1 < |s| { AtPair(s, '$', '{', j); }
    }
    if CutRef(s).Found? {
      HeadName(s, i);
      var tail := CutRef(s).tail;
      var d := |s| - |tail|;
      forall j | 0 <= j < |tail| && tail[j] == '$' ensures j + 1 < |tail| && tail[j + 1] == '{' {
        assert s[d + j] == tail[j];
      }
    }
  }

  lemma FindAfterPlain(a: string, b: string)
    requires Closed(a)
    ensures Find(a + b, "${") == if Find(b, "${") < 0 then -1 else |a| + Find(b, "${")
  {
    var s := a + b;
    forall j: nat | j < |a| ensures !At(s, "${", j) {
      if a[j] == '$' { AtPair(s, '$', '{', j); } else { NotAt(s, "${", j); }
    }
    forall j: nat | j >= |a| ensures At(s, "${", j) == At(b, "${", j - |a|) { AtShift(a, b, "${", j); }
    var i := Find(b, "${");
    FindFirst(b, "${");
    if i < 0 {
      FindFirst(s, "${");
    } else {
      assert At(s, "${", |a| + i);
      FindIs(s, "${", |a| + i);
    }
  }

  /** A closed text in front moves the cut and changes nothing else. */
  lemma CutAfterPlain(a: string, b: string)
    requires Closed(a)
    ensures CutRef(a + b) ==
            match CutRef(b)
            case Found(pre, name, tail) => Found(a + pre, name, tail)
            case c => c
  {
    FindAfterPlain(a, b);
    var i := Find(b, "${");
    if i >= 0 {
      assert (a + b)[|a| + i + 2..] == b[i + 2..];
      assert (a + b)[..|a| + i] == a + b[..i];
    }
  }

  lemma NameEnds(rest: string, name: string, b: string)
    requires BraceFree(name) && rest == name + "}" + b
    ensures Find(rest, "}") == |name|
  {
    assert At(rest, "}", |name|);
    forall j: nat | j < |name| ensures !At(rest, "}", j) {
      AtChar(rest, '}', j);
      assert rest[j] == name[j];
    }
    FindIs(rest, "}", |name|);
  }

  /** A reference in front is the cut. */
  lemma CutName(name: string, b: string)
    requires BraceFree(name)
    ensures CutRef(Ref(name) + b) == Found("", name, b)
  {
    var s := Ref(name) + b;
    assert At(s, "${", 0);
    FindIs(s, "${", 0);
    var rest := s[0 + 2..];
    assert rest == name + "}" + b;
    NameEnds(rest, name, b);
    assert rest[..|name|] == name && rest[|name| + 1..] == b;
  }

  /** A closed prefix is copied, whatever follows it. */
  lemma ExpandAfterPlain(a: string, b: string, env: Table)
    requires Closed(a)
    ensures Expand(a + b, env) == Glue(a, Expand(b, env))
  {
    CutAfterPlain(a, b);
    var c := CutRef(b);
    if c.Found? && c.name in env {
      GlueGlue(a, c.pre + env[c.name], Expand(c.tail, env));
      assert a + (c.pre + env[c.name]) == (a + c.pre) + env[c.name];
    }
  }

  /** A reference in front is exactly one lookup. */
  lemma ExpandName(name: string, b: string, env: Table)
    requires BraceFree(name)
    ensures Expand(Ref(name) + b, env) == if name !in env then None else Glue(env[name], Expand(b, env))
  {
    CutName(name, b);
    if name in env { assert "" + env[name] == env[name]; }
  }

  lemma ClosedIsFinal(s: string, env: Table)
    requires Closed(s)
    ensures Expand(s, env) == Some(s)
  {
    forall j: nat | j < |s| ensures !At(s, "${", j) {
      if s[j] == '$' { AtPair(s, '$', '{', j); } else { NotAt(s, "${", j); }
    }
    FindFirst(s, "${");
  }

  ghost function Later(r: Option<string>, env: Table): Option<string> {
    if r.None? then None else Expand(r.value, env)
  }

  lemma StagesAgreeStep(pre: string, name: string, out: Option<string>, plan: Table, env: Table)
    requires DollarFree(pre) && BraceFree(name)
    requires name in plan ==> Closed(plan[name])
    requires ParsePiece(name, plan).Some?
    ensures Later(Glue(pre + ParsePiece(name, plan).value, out), env) ==
            if PassPiece(name, plan, env).None? then None
            else Glue(pre + PassPiece(name, plan, env).value, Later(out, env))
  {
    if out.Some? {
      var v := ParsePiece(name, plan).value;
      if INVENTORY <= name {
        ExpandName(name, out.value, env);
        ExpandAfterPlain(pre, v + out.value, env);
        assert pre + (v + out.value) == (pre + v) + out.value;
        if name in env { GlueGlue(pre, env[name], Expand(out.value, env)); }
      } else {
        ExpandAfterPlain(pre + v, out.value, env);
      }
    }
  }

  /** Expanding what the first pass left equals the single pass, and the first pass fails
      only where the single pass does. */
  lemma {:induction false} StagesAgree(s: string, plan: Table, env: Table)
    requires DollarsOpen(s)
    requires forall k :: k in plan ==> Closed(plan[k])
    ensures OnePass(s, plan, env) == Later(Interpolate(s, plan), env)
    decreases |s|
  {
    CutParts(s);
    match CutRef(s)
    case Plain => ClosedIsFinal(s, env);
    case Unterminated =>
    case Found(pre, name, tail) =>
      StagesAgree(tail, plan, env);
      if ParsePiece(name, plan).Some? {
        StagesAgreeStep(pre, name, Interpolate(tail, plan), plan, env);
      }
  }

  /** A text with nothing deferred is final. */
  lemma {:induction false} NothingDeferred(s: string, plan: Table)
    requires DollarsOpen(s) && !Defers(s)
    requires forall k :: k in plan ==> Closed(plan[k])
    requires Interpolate(s, plan).Some?
    ensures Closed(Interpolate(s, plan).value)
    decreases |s|
  {
    CutParts(s);
    if CutRef(s).Found? { NothingDeferred(CutRef(s).tail, plan); }
  }

  /** Two-stage interpolation equals the single pass over both tables, failures included. */
  lemma StagesAreOne(s: string, plan: Table, env: Table)
    requires DollarsOpen(s)
    requires forall k :: k in plan ==> Closed(plan[k])
    ensures TwoStage(s, plan, env) == OnePass(s, plan, env)
  {
    StagesAgree(s, plan, env);
    if Interpolate(s, plan).Some? && !Defers(s) {
      NothingDeferred(s, plan);
      ClosedIsFinal(Interpolate(s, plan).value, env);
    }
  }

  /** One step of each pass over a text that starts with a reference. */
  lemma PassesName(name: string, b: string, plan: Table, env: Table)
    requires BraceFree(name)
    ensures Interpolate(Ref(name) + b, plan) ==
            if ParsePiece(name, plan).None? then None else Glue(ParsePiece(name, plan).value, Interpolate(b, plan))
    ensures Defers(Ref(name) + b) == (INVENTORY <= name || Defers(b))
    ensures OnePass(Ref(name) + b, plan, env) ==
            if PassPiece(name, plan, env).None? then None
              else Glue(PassPiece(name, plan, env).value, OnePass(b, plan, env))
  {
    CutName(name, b);
    if ParsePiece(name, plan).Some? { assert "" + ParsePiece(name, plan).value == ParsePiece(name, plan).value; }
    if PassPiece(name, plan, env).Some? {
      assert "" + PassPiece(name, plan, env).value == PassPiece(name, plan, env).value;
    }
  }

  /** When every name reads as nothing, expanding a text that holds a reference shortens it. */
  lemma {:induction false} ExpandShrinks(s: string, env: Table)
    requires forall k :: k in env ==> env[k] == ""
    ensures Expand(s, env).Some? ==> |Expand(s, env).value| <= |s|
    ensures Expand(s, env).Some? && !CutRef(s).Plain? ==> |Expand(s, env).value| < |s|
    decreases |s|
  {
    if CutRef(s).Found? {
      ExpandShrinks(CutRef(s).tail, env);
      FindFirst(s, "${");
    }
  }

  /** The text behind a value that is not closed: with it, a reference starts in the value. */
  lemma OpensBehind(v: string, rest: string)
    requires !Closed(v) && rest != "" && rest[0] == '{'
    ensures !CutRef(v + rest).Plain?
  {
    var s := v + rest;
    var i :| 0 <= i < |v| && v[i] == '$' && !(i + 1 < |v| && v[i + 1] != '{');
    AtPair(s, '$', '{', i);
    FindFirst(s, "${");
  }

  const FIELD := INVENTORY + "a"

  /** A text that cites a host's field, a plan name, and ends as a reference would. */
  function Probe(k: string): string {
    Ref(FIELD) + (Ref(k) + ("{" + FIELD + "}"))
  }

  lemma FieldIsDeferred()
    ensures INVENTORY <= FIELD && DeferredName(FIELD) && BraceFree(FIELD) && DollarFree(FIELD)
  {
    assert FIELD[|INVENTORY|..] == "a";
    FindIsNot("a", ".") by { forall j: nat ensures !At("a", ".", j) { if j == 0 { NotAt("a", ".", j); } } }
  }

  lemma ProbeOpens(k: string)
    requires DollarFree(k)
    ensures DollarsOpen(Probe(k))
  {
    FieldIsDeferred();
    var s := Probe(k);
    var n := |FIELD| + 3;
    forall i | 0 <= i < |s| && s[i] == '$' ensures i + 1 < |s| && s[i + 1] == '{' {
      if i < n {
        assert s[i] == Ref(FIELD)[i];
      } else if i < n + |k| + 3 {
        assert s[i] == Ref(k)[i - n];
      }
    }
  }

  /** With a value that is not closed, the two stages and the single pass read that text apart. */
  lemma ProbeApart(k: string, plan: Table)
    requires k in plan && !Closed(plan[k]) && BraceFree(k) && DollarFree(k) && !(INVENTORY <= k)
    ensures var env := map[FIELD := ""]; TwoStage(Probe(k), plan, env) != OnePass(Probe(k), plan, env)
  {
    var env, tail, v := map[FIELD := ""], "{" + FIELD + "}", plan[k];
    FieldIsDeferred();
    assert Closed(tail);
    PlainReads(tail, plan, env);
    PassesName(k, tail, plan, env);
    PassesName(FIELD, Ref(k) + tail, plan, env);
    assert "" + (v + tail) == v + tail;
    ExpandName(FIELD, v + tail, env);
    OpensBehind(v, tail);
    ExpandShrinks(v + tail, env);
    GlueNothing(Expand(v + tail, env));
  }

  /** A closed text is read as it is, by every pass. */
  lemma PlainReads(s: string, plan: Table, env: Table)
    requires Closed(s)
    ensures Interpolate(s, plan) == Some(s) && OnePass(s, plan, env) == Some(s) && !Defers(s)
  {
    forall j: nat | j < |s| ensures !At(s, "${", j) {
      if s[j] == '$' { AtPair(s, '$', '{', j); } else { NotAt(s, "${", j); }
    }
    FindFirst(s, "${");
  }

  /** A name a text can cite, and no inventory name. */
  predicate PlanName(k: string) {
    BraceFree(k) && DollarFree(k) && !(INVENTORY <= k)
  }

  ghost predicate OneReading(s: string, plan: Table, env: Table) {
    TwoStage(s, plan, env) == OnePass(s, plan, env)
  }

  /** Reading a text while the plan is parsed and again on each host is one reading over both
      tables, for every text and every host, exactly when no plan value holds `${` or ends
      in `$`. */
  lemma TwoStageIsOnePass(plan: Table)
    requires forall k :: k in plan ==> PlanName(k)
    ensures (forall s, env :: DollarsOpen(s) ==> OneReading(s, plan, env)) <==>
            (forall k :: k in plan ==> Closed(plan[k]))
  {
    if forall k :: k in plan ==> Closed(plan[k]) {
      forall s, env | DollarsOpen(s) ensures OneReading(s, plan, env) { StagesAreOne(s, plan, env); }
    } else {
      var k :| k in plan && !Closed(plan[k]);
      ProbeOpens(k);
      ProbeApart(k, plan);
      assert !OneReading(Probe(k), plan, map[FIELD := ""]);
    }
  }

  /** A plan value holding `${…}` is read again by the second stage, though the single pass
      writes it as it is. */
  lemma PlanValueIsRescanned(x: string, v: string, plan: Table, env: Table)
    requires INVENTORY <= x && DeferredName(x) && BraceFree(x) && env == map[x := v]
    requires plan == map["a" := Ref(x)]
    ensures TwoStage(Ref(x) + (Ref("a") + ""), plan, env) == Some(v + (v + ""))
    ensures OnePass(Ref(x) + (Ref("a") + ""), plan, env) == Some(v + (Ref(x) + ""))
  {
    PassesName("a", "", plan, env);
    assert !(INVENTORY <= "a");
    PlainReads("", plan, env);
    ClosedIsFinal("", env);
    PassesName(x, Ref("a") + "", plan, env);
    ExpandName(x, "", env);
    ExpandName(x, Ref(x) + "", env);
  }

  // --- templates ---

  /** The newline after the opening marker and the one before the closing marker belong to
      the markers. */
  function TrimNewlines(s: string): string {
    var b := if "\n" <= s then s[1..] else s;
    if b != [] && b[|b| - 1] == '\n' then b[..|b| - 1] else b
  }

  /** What the renderer writes for the text at the front, and the text after it. */
  ghost function Step(s: string, table: Table): (r: Option<(string, string)>)
    requires s != ""
    ensures r.Some? ==> |r.value.1| < |s|
  {
    if OpensRaw(s) then
      var rest := s[|RAW_OPEN|..];
      var end := Find(rest, RAW_CLOSE);
      if end < 0 then None else Some((TrimNewlines(rest[..end]), rest[end + |RAW_CLOSE|..]))
    else if OpensName(s) then
      match Head(s, 0)
      case None => None
      case Some((name, tail)) => if name in table then Some((table[name], tail)) else None
    else Some(([s[0]], s[1..]))
  }

  /** `Template`: what a template file renders to; None is an error. */
  ghost function Render(s: string, table: Table): Option<string> {
    if s == "" then Some("")
    else match Step(s, table)
      case None => None
      case Some((w, tail)) => Glue(w, Render(tail, table))
  }

  method RenderStep(s: string, table: Table) returns (r: Option<(string, string)>)
    requires s != ""
    ensures r == Step(s, table)
  {
    if OpensRaw(s) {
      var rest := s[|RAW_OPEN|..];
      var end := Index(rest, RAW_CLOSE);
      if end < 0 { return None; }
      return Some((TrimNewlines(rest[..end]), rest[end + |RAW_CLOSE|..]));
    }
    if OpensName(s) {
      var rest := s[0 + 2..];
      var end := Index(rest, "}");
      if end < 0 { return None; }
      if rest[..end] !in table { return None; }
      return Some((table[rest[..end]], rest[end + 1..]));
    }
    return Some(([s[0]], s[1..]));
  }

  /** The loop of `Template`: the text still to read and a builder. */
  method TemplateLoop(text: string, table: Table) returns (out: Option<string>)
    ensures out == Render(text, table)
  {
    var s, b := text, "";
    GlueNothing(Render(text, table));
    while s != ""
      invariant Render(text, table) == Glue(b, Render(s, table))
      decreases |s|
    {
      var step := RenderStep(s, table);
      if step.None? { return None; }
      GlueGlue(b, step.value.0, Render(step.value.1, table));
      b := b + step.value.0;
      s := step.value.1;
    }
    assert b + "" == b;
    return Some(b);
  }

  /** An occurrence already in a stays the first one whatever follows. */
  lemma FindInPrefix(a: string, b: string, p: string)
    requires Find(a, p) >= 0
    ensures Find(a + b, p) == Find(a, p)
  {
    FindFirst(a, p);
    var i := Find(a, p);
    forall j: nat | j <= i ensures At(a + b, p, j) == At(a, p, j) {
      if j + |p| <= |a| { AtWithin(a, b, p, j); }
    }
    FindIs(a + b, p, i);
  }

  lemma HeadInPrefix(a: string, b: string)
    requires |a| >= 2 && Head(a, 0).Some?
    ensures Head(a + b, 0) == Some((Head(a, 0).value.0, Head(a, 0).value.1 + b))
  {
    assert (a + b)[0 + 2..] == a[0 + 2..] + b;
    FindInPrefix(a[0 + 2..], b, "}");
    var rest, end := a[0 + 2..], Find(a[0 + 2..], "}");
    assert (rest + b)[..end] == rest[..end] && (rest + b)[end + 1..] == rest[end + 1..] + b;
  }

  /** A step that stays inside a is the same step whatever follows a. */
  lemma StepConcat(a: string, b: string, table: Table)
    requires a != "" && a[|a| - 1] != '~' && Step(a, table).Some?
    ensures Step(a + b, table) == Some((Step(a, table).value.0, Step(a, table).value.1 + b))
    ensures var tail := Step(a, table).value.1; tail == a[|a| - |tail|..]
  {
    if OpensRaw(a) {
      assert OpensRaw(a + b);
      var rest := a[|RAW_OPEN|..];
      assert (a + b)[|RAW_OPEN|..] == rest + b;
      FindInPrefix(rest, b, RAW_CLOSE);
      var end := Find(rest, RAW_CLOSE);
      assert (rest + b)[..end] == rest[..end];
      assert (rest + b)[end + |RAW_CLOSE|..] == rest[end + |RAW_CLOSE|..] + b;
    } else if OpensName(a) {
      NoRawAcross(a, b);
      HeadInPrefix(a, b);
      HeadName(a, 0);
    } else {
      PlainAcross(a, b);
      assert (a + b)[1..] == a[1..] + b;
    }
  }

  /** A `~{…}` that closes inside a is not the start of a raw marker completed by b. */
  lemma NoRawAcross(a: string, b: string)
    requires OpensName(a) && !OpensRaw(a) && Head(a, 0).Some?
    ensures !OpensRaw(a + b) && OpensName(a + b)
  {
    var (name, tail) := Head(a, 0).value;
    var k := 2 + |name|;
    FindFirst(a[0 + 2..], "}");
    AtChar(a[0 + 2..], '}', |name|);
    assert a[k] == '}';
    if |a| >= 6 {
      assert (a + b)[..6] == a[..6];
    } else {
      assert (a + b)[k] != RAW_OPEN[k];
    }
  }

  lemma PlainAcross(a: string, b: string)
    requires a != "" && !OpensRaw(a) && !OpensName(a) && a[|a| - 1] != '~'
    ensures !OpensRaw(a + b) && !OpensName(a + b) && (a + b)[0] == a[0]
  {
    assert RAW_OPEN[0] == '~' && RAW_OPEN[1] == '{';
    if a[0] == '~' { assert (a + b)[1] == a[1]; }
  }

  /** Rendering is compositional: a rendered prefix is never scanned again. */
  lemma {:induction false} RenderConcat(a: string, b: string, table: Table)
    requires Render(a, table).Some?
    requires a == "" || a[|a| - 1] != '~'
    ensures Render(a + b, table) == Glue(Render(a, table).value, Render(b, table))
    decreases |a|
  {
    if a == "" {
      assert a + b == b;
      GlueNothing(Render(b, table));
    } else {
      StepConcat(a, b, table);
      var (w, tail) := Step(a, table).value;
      RenderConcat(tail, b, table);
      GlueGlue(w, Render(tail, table).value, Render(b, table));
    }
  }

  predicate NoNewline(s: string) {
    forall i :: 0 <= i < |s| ==> s[i] != '\n'
  }

  lemma NotAtOffset(s: string, p: string, j: nat, k: nat)
    requires k < |p| && j + k < |s| && s[j + k] != p[k]
    ensures !At(s, p, j)
  {
    if j + |p| <= |s| { assert s[j..j + |p|][k] == s[j + k]; }
  }

  lemma SliceInside(s: string, n: nat, j: nat, len: nat)
    requires 0 < j && j + len <= n <= |s|
    ensures s[1..n][j - 1..j - 1 + len] == s[j..j + len]
  {
    var inner, there := s[1..n], s[j..j + len];
    var here := inner[j - 1..j - 1 + len];
    forall k | 0 <= k < len ensures here[k] == there[k] {
      assert inner[j - 1 + k] == s[j + k];
    }
  }

  /** In a text framed by newlines, a marker without newline that the inside does not hold
      does not start before its end. */
  lemma NoOccurrence(body: string, p: string, j: nat)
    requires |body| >= 2 && body[0] == '\n' && body[|body| - 1] == '\n'
    requires p != "" && NoNewline(p) && Find(body[1..|body| - 1], p) < 0
    requires j < |body|
    ensures !At(body + p, p, j)
  {
    var t, n := body + p, |body| - 1;
    if j == 0 {
      assert t[0] == body[0];
      NotAt(t, p, j);
    } else if j + |p| > n {
      assert t[n] == body[n];
      NotAtOffset(t, p, j, n - j);
    } else {
      AtWithin(body, p, p, j);
      FindFirst(body[1..n], p);
      SliceInside(body, n, j, |p|);
      assert !At(body[1..n], p, j - 1);
    }
  }

  lemma MarkerEnds(body: string, p: string)
    requires |body| >= 2 && body[0] == '\n' && body[|body| - 1] == '\n'
    requires p != "" && NoNewline(p) && Find(body[1..|body| - 1], p) < 0
    ensures Find(body + p, p) == |body|
  {
    assert (body + p)[|body|..|body| + |p|] == p;
    forall j: nat | j < |body| ensures !At(body + p, p, j) { NoOccurrence(body, p, j); }
    FindIs(body + p, p, |body|);
  }

  lemma TrimFrame(body: string, s: string)
    requires body == "\n" + s + "\n"
    ensures TrimNewlines(body) == s
  {
    assert body[1..] == s + "\n";
    assert (s + "\n")[..|s|] == s;
  }

  /** What a raw region and nothing else renders to. */
  lemma RenderRegion(body: string, table: Table)
    requires Find(body + RAW_CLOSE, RAW_CLOSE) == |body|
    ensures Render(RAW_OPEN + (body + RAW_CLOSE), table) == Some(TrimNewlines(body))
  {
    var t := RAW_OPEN + (body + RAW_CLOSE);
    var rest := body + RAW_CLOSE;
    assert t[|RAW_OPEN|..] == rest;
    assert rest[..|body|] == body;
    assert rest[|body| + |RAW_CLOSE|..] == "";
    assert TrimNewlines(body) + "" == TrimNewlines(body);
  }

  /** A raw region holds any text without its closing marker, and looks nothing up. */
  lemma RawQuotes(s: string, table: Table)
    requires Find(s, RAW_CLOSE) < 0
    ensures Render(RAW_OPEN + (("\n" + s + "\n") + RAW_CLOSE), table) == Some(s)
  {
    var body := "\n" + s + "\n";
    assert body[1..|body| - 1] == s;
    assert NoNewline(RAW_CLOSE);
    MarkerEnds(body, RAW_CLOSE);
    RenderRegion(body, table);
    TrimFrame(body, s);
  }
}
