/** Paths as texts and as lists of names, lists written one a line, octal modes. */
module Paths {
  import opened Basics

  // --- splitting and joining ---

  /** `strings.Split` by one character. */
  function Split(s: string, c: char): (r: seq<string>)
    ensures r != []
  {
    if s == [] then [""]
    else
      var rest := Split(s[1..], c);
      if s[0] == c then [""] + rest else [[s[0]] + rest[0]] + rest[1..]
  }

  lemma {:induction false} SplitParts(s: string, c: char)
    ensures forall p :: p in Split(s, c) ==> c !in p
  {
    if s != [] { SplitParts(s[1..], c); }
  }

  lemma {:induction false} JoinSplit(s: string, c: char)
    ensures Join(Split(s, c), [c]) == s
  {
    if s != [] {
      var rest := Split(s[1..], c);
      JoinSplit(s[1..], c);
      if s[0] == c {
        assert ([""] + rest)[1..] == rest;
        assert Join([""] + rest, [c]) == "" + [c] + Join(rest, [c]);
      } else {
        var glued := [[s[0]] + rest[0]] + rest[1..];
        assert glued[1..] == rest[1..];
        if |rest| == 1 {
          assert Join(glued, [c]) == glued[0];
        } else {
          assert Join(glued, [c]) == glued[0] + [c] + Join(rest[1..], [c]);
          assert Join(rest, [c]) == rest[0] + [c] + Join(rest[1..], [c]);
        }
      }
      assert s == [s[0]] + s[1..];
    }
  }

  /** A part without the separator, then the separator. */
  lemma {:induction false} SplitCons(p: string, rest: string, c: char)
    requires c !in p
    ensures Split(p + [c] + rest, c) == [p] + Split(rest, c)
  {
    var s := p + [c] + rest;
    if p == [] {
      assert s == [c] + rest;
      assert s[1..] == rest;
    } else {
      assert s[1..] == p[1..] + [c] + rest;
      SplitCons(p[1..], rest, c);
      assert p == [p[0]] + p[1..];
    }
  }

  lemma {:induction false} SplitOne(p: string, c: char)
    requires c !in p
    ensures Split(p, c) == [p]
  {
    if p != [] {
      SplitOne(p[1..], c);
      assert p[0] in p && Split(p, c) == [[p[0]] + p[1..]] + [p[1..]][1..];
      assert p == [p[0]] + p[1..];
    }
  }

  lemma {:induction false} SplitJoin(parts: seq<string>, c: char)
    requires parts != [] && forall p :: p in parts ==> c !in p
    ensures Split(Join(parts, [c]), c) == parts
  {
    assert parts[0] in parts;
    if |parts| == 1 {
      SplitOne(parts[0], c);
      assert parts == [parts[0]];
    } else {
      var rest := parts[1..];
      assert forall p :: p in rest ==> p in parts;
      SplitJoin(rest, c);
      SplitCons(parts[0], Join(rest, [c]), c);
      assert Join(parts, [c]) == parts[0] + [c] + Join(rest, [c]);
      assert parts == [parts[0]] + rest;
    }
  }

  // --- relative paths ---

  /** A name a directory can hold. */
  predicate PlainName(n: string) {
    n != "" && n != "." && n != ".." && '/' !in n
  }

  predicate Plain(names: seq<string>) {
    forall n :: n in names ==> PlainName(n)
  }

  /** What `filepath.Rel` writes for what is under a root: "." for the root itself. */
  function Text(names: seq<string>): string {
    if names == [] then "." else Join(names, "/")
  }

  function Names(text: string): seq<string> {
    if text == "." then [] else Split(text, '/')
  }

  lemma NamesOfText(names: seq<string>)
    requires Plain(names)
    ensures Names(Text(names)) == names
  {
    if names != [] {
      SplitJoin(names, '/');
      SplitOne(".", '/');
      assert names[0] in names;
    }
  }

  /** `filepath.Clean` on the way down from a directory. */
  function Walk(at: seq<string>, parts: seq<string>): seq<string>
    decreases |parts|
  {
    if parts == [] then at
    else
      var p := parts[0];
      Walk(if p == "" || p == "." then at
           else if p == ".." then (if at == [] then [] else at[..|at| - 1])
           else at + [p],
           parts[1..])
  }

  lemma {:induction false} WalkPlain(at: seq<string>, parts: seq<string>)
    requires Plain(parts)
    ensures Walk(at, parts) == at + parts
    decreases |parts|
  {
    if parts != [] {
      assert parts[0] in parts && forall n :: n in parts[1..] ==> n in parts;
      WalkPlain(at + [parts[0]], parts[1..]);
      assert at + [parts[0]] + parts[1..] == at + parts;
    }
  }

  /** `filepath.Join` and `underDst`: where a relative path lands under a directory, None when
      that is outside it. */
  function Land(at: seq<string>, rel: string): Option<seq<string>> {
    var final := Walk(at, Split(rel, '/'));
    if at <= final then Some(final[|at|..]) else None
  }

  lemma LandText(at: seq<string>, names: seq<string>)
    requires Plain(names) && names != []
    ensures Land(at, Text(names)) == Some(names)
  {
    SplitJoin(names, '/');
    WalkPlain(at, names);
  }

  // --- the deletion list ---

  function NonEmpty(lines: seq<string>): seq<string> {
    if lines == [] then [] else (if lines[0] == "" then [] else [lines[0]]) + NonEmpty(lines[1..])
  }

  /** The list as it is written, and as the committing side reads it back. */
  function Written(victims: seq<string>): string {
    Join(victims, "\n")
  }

  function ReadBack(text: string): seq<string> {
    NonEmpty(Split(text, '\n'))
  }

  /** The reader's loop. */
  method ReadLines(text: string) returns (out: seq<string>)
    ensures out == ReadBack(text)
  {
    var lines := Split(text, '\n');
    out := [];
    var i := 0;
    while i < |lines|
      invariant i <= |lines| && out + NonEmpty(lines[i..]) == NonEmpty(lines)
    {
      assert lines[i..][0] == lines[i] && lines[i..][1..] == lines[i + 1..];
      if lines[i] != "" {
        assert out + ([lines[i]] + NonEmpty(lines[i + 1..])) == (out + [lines[i]]) + NonEmpty(lines[i + 1..]);
        out := out + [lines[i]];
      }
      i := i + 1;
    }
    assert out + [] == out;
  }

  lemma {:induction false} NonEmptyKeeps(lines: seq<string>)
    ensures forall l :: l in NonEmpty(lines) <==> l in lines && l != ""
    ensures (forall l :: l in lines ==> l != "") ==> NonEmpty(lines) == lines
  {
    if lines != [] {
      NonEmptyKeeps(lines[1..]);
      assert forall l :: l in lines <==> l == lines[0] || l in lines[1..];
      if forall l :: l in lines ==> l != "" {
        assert lines[0] in lines && forall l :: l in lines[1..] ==> l in lines;
        assert [lines[0]] + lines[1..] == lines;
      }
    }
  }

  /** The list comes back as it was exactly when no path holds a newline and none is empty. */
  lemma ListRoundTrip(victims: seq<string>)
    ensures ReadBack(Written(victims)) == victims <==> forall v :: v in victims ==> v != "" && '\n' !in v
  {
    var lines := Split(Written(victims), '\n');
    NonEmptyKeeps(lines);
    SplitParts(Written(victims), '\n');
    if victims != [] && forall v :: v in victims ==> v != "" && '\n' !in v {
      SplitJoin(victims, '\n');
    }
  }

  // --- modes ---

  function Octal(m: nat): (s: string)
    ensures s != ""
  {
    if m < 8 then ["01234567"[m]] else Octal(m / 8) + ["01234567"[m % 8]]
  }

  predicate IsOctal(s: string) {
    forall i :: 0 <= i < |s| ==> '0' <= s[i] <= '7'
  }

  /** `strconv.ParseUint(s, 8, 32)` on the digits a mode has. */
  function Value8(s: string): nat
    requires IsOctal(s)
  {
    if s == "" then 0
    else Value8(s[..|s| - 1]) * 8 + (s[|s| - 1] as nat - '0' as nat)
  }

  function ParseOctal(s: string): Option<nat> {
    if s == "" || !IsOctal(s) || Value8(s) >= 0x1_0000_0000 then None else Some(Value8(s))
  }

  /** The permissions a staged file gets: what the message says, 0644 when it says nothing. */
  function Perm(mode: string): nat {
    var m := ParseOctal(mode);
    if m.None? || m.value == 0 then 420 else m.value % 512
  }

  lemma OctalDigit(k: nat)
    requires k < 8
    ensures '0' <= "01234567"[k] <= '7' && "01234567"[k] as nat - '0' as nat == k
  {
  }

  lemma OneMoreDigit(s: string, d: char)
    requires IsOctal(s) && '0' <= d <= '7'
    ensures IsOctal(s + [d]) && Value8(s + [d]) == Value8(s) * 8 + (d as nat - '0' as nat)
  {
    var t := s + [d];
    assert IsOctal(t) && t[|t| - 1] == d && t[..|t| - 1] == s;
  }

  lemma {:induction false} OctalRoundTrip(m: nat)
    ensures IsOctal(Octal(m)) && Value8(Octal(m)) == m
  {
    var d := "01234567"[m % 8];
    OctalDigit(m % 8);
    if m < 8 {
      OneMoreDigit("", d);
      assert Octal(m) == "" + [d];
    } else {
      OctalRoundTrip(m / 8);
      OneMoreDigit(Octal(m / 8), d);
      assert m == m / 8 * 8 + m % 8;
    }
  }

  /** A permission travels as text and comes back; only a mode of zero reads as 0644. */
  lemma PermRoundTrip(m: nat)
    requires m < 512
    ensures Perm(Octal(m)) == if m == 0 then 420 else m
  {
    OctalRoundTrip(m);
  }
}
