/** Which variables a command reads, for the report of a failing shell. */
module Cited {
  import opened Basics
  import opened Text

  /** `isShellNameByte`. */
  predicate NameByte(c: char) {
    c == '_' || 'a' <= c <= 'z' || 'A' <= c <= 'Z' || '0' <= c <= '9'
  }

  /** `$name` stands at j and does not go on as a longer name. */
  predicate BareAt(cmd: string, name: string, j: nat) {
    At(cmd, "$" + name, j) && (j + 1 + |name| == |cmd| || !NameByte(cmd[j + 1 + |name|]))
  }

  /** The command reads the variable: braced anywhere, or bare with a boundary after it. */
  ghost predicate Cites(cmd: string, name: string) {
    (exists j: nat :: At(cmd, "${" + name + "}", j)) || (exists j: nat :: BareAt(cmd, name, j))
  }

  /** Two occurrences of `$name` do not overlap. */
  lemma NoOverlap(cmd: string, name: string, j: nat, k: nat)
    requires '$' !in name && At(cmd, "$" + name, j) && j < k < j + 1 + |name|
    ensures !At(cmd, "$" + name, k)
  {
    assert cmd[k] == cmd[j..j + 1 + |name|][k - j] == ("$" + name)[k - j] == name[k - j - 1];
    NotAt(cmd, "$" + name, k);
  }

  /** `citesVar`: for a name as the language has them, without a dollar sign. */
  method CitesVar(cmd: string, name: string) returns (yes: bool)
    requires '$' !in name
    ensures yes == Cites(cmd, name)
  {
    var braced := Index(cmd, "${" + name + "}");
    FindFirst(cmd, "${" + name + "}");
    if braced >= 0 { return true; }
    var bare := "$" + name;
    var i := 0;
    while true
      invariant 0 <= i <= |cmd|
      invariant forall k: nat :: k < i ==> !BareAt(cmd, name, k)
      decreases |cmd| - i
    {
      var rest := cmd[i..];
      var j := Index(rest, bare);
      FindFirst(rest, bare);
      forall k: nat | k >= i && (j < 0 || k < i + j) ensures !At(cmd, bare, k) {
        AtShift(cmd[..i], rest, bare, k);
        assert cmd[..i] + rest == cmd;
        assert !At(rest, bare, k - i);
      }
      if j < 0 { return false; }
      AtShift(cmd[..i], rest, bare, i + j);
      assert cmd[..i] + rest == cmd && At(cmd, bare, i + j);
      var end := i + j + |bare|;
      if end >= |cmd| || !NameByte(cmd[end]) {
        assert BareAt(cmd, name, i + j);
        return true;
      }
      forall k: nat | i + j < k < end ensures !BareAt(cmd, name, k) { NoOverlap(cmd, name, i + j, k); }
      i := end;
    }
  }

  lemma NotAtSecond(s: string, p: string, j: nat)
    requires |p| >= 2 && j + 1 < |s| && s[j + 1] != p[1]
    ensures !At(s, p, j)
  {
    if j + |p| <= |s| { assert s[j..j + |p|][1] == s[j + 1]; }
  }

  /** A name is not cited by a longer one that starts with it. */
  lemma LongerNameIsNotCited(name: string, more: char, rest: string)
    requires (forall i :: 0 <= i < |name| ==> NameByte(name[i])) && NameByte(more) && '$' !in rest
    ensures !Cites("$" + name + [more] + rest, name)
  {
    var cmd := "$" + name + [more] + rest;
    assert cmd[1 + |name|] == more && NameByte(cmd[1]);
    forall j: nat ensures !BareAt(cmd, name, j) && !At(cmd, "${" + name + "}", j) {
      if j == 0 {
        NotAtSecond(cmd, "${" + name + "}", 0);
      } else if j < |cmd| {
        assert cmd[j] != '$';
        NotAt(cmd, "$" + name, j);
        NotAt(cmd, "${" + name + "}", j);
      }
    }
  }
}
