/** The resident agent on one work directory, file by file: the claim by rename, the result
    before the marker; and the poll loop on the other side. */
module Resident {
  import opened Basics

  const REQ := "req-"
  const JSON := ".json"
  const CLAIMING := ".claiming"

  function ReqName(id: string): string { REQ + id + JSON }
  function ClaimName(id: string): string { ReqName(id) + CLAIMING }
  function OutName(id: string): string { "out-" + id + JSON }
  function TmpName(id: string): string { OutName(id) + ".tmp" }
  function DoneName(id: string): string { "done-" + id }

  predicate HasSuffix(s: string, x: string) {
    |x| <= |s| && s[|s| - |x|..] == x
  }

  function TrimPrefix(s: string, p: string): string {
    if p <= s then s[|p|..] else s
  }

  function TrimSuffix(s: string, x: string): string {
    if HasSuffix(s, x) then s[..|s| - |x|] else s
  }

  /** The id a claimed path carries. */
  function IdOf(claimed: string): string {
    TrimSuffix(TrimPrefix(TrimSuffix(claimed, CLAIMING), REQ), JSON)
  }

  lemma IdRoundTrip(id: string)
    ensures IdOf(ClaimName(id)) == id
  {
    var r := ReqName(id);
    assert ClaimName(id)[|r|..] == CLAIMING && ClaimName(id)[..|r|] == r;
    assert r == REQ + (id + JSON);
    assert r[|REQ|..] == id + JSON;
    assert (id + JSON)[|id|..] == JSON && (id + JSON)[..|id|] == id;
  }

  /** A name `nextRequest` would try. */
  predicate IsRequest(name: string) {
    REQ <= name && HasSuffix(name, JSON)
  }

  /** Requests are tried, and nothing else the rendezvous leaves in the directory. */
  lemma OnlyRequests(id: string)
    ensures IsRequest(ReqName(id))
    ensures !IsRequest(ClaimName(id)) && !IsRequest(OutName(id)) && !IsRequest(TmpName(id)) && !IsRequest(DoneName(id))
  {
    var r := ReqName(id);
    assert r == REQ + (id + JSON) && r[|r| - |JSON|..] == JSON;
    var c := ClaimName(id);
    assert c[|c| - 1] == CLAIMING[|CLAIMING| - 1] == 'g';
    assert c[|c| - |JSON|..][|JSON| - 1] == c[|c| - 1];
    assert OutName(id)[0] == 'o' && TmpName(id)[0] == 'o' && DoneName(id)[0] == 'd' && REQ[0] == 'r';
  }

  /** Which of the writes of a job succeed: the two tries of the result, each a write and a
      rename, and the marker. */
  datatype Luck = Luck(write1: bool, rename1: bool, write2: bool, rename2: bool, mark: bool)

  /** `writeResult` on the files: whole under its name, or not at all. */
  function Written(files: map<string, string>, id: string, text: string, partial: string, write: bool,
      rename: bool): (map<string, string>, bool) {
    if !write then (files[TmpName(id) := partial], false)
    else if !rename then (files - {TmpName(id)}, false)
    else (files[OutName(id) := text] - {TmpName(id)}, true)
  }

  class Workdir {
    var files: map<string, string>

    constructor ()
      ensures files == map[]
    {
      files := map[];
    }

    /** `nextRequest`: of the names listed, the first still there is renamed. */
    method NextRequest(listing: seq<string>) returns (claimed: string)
      modifies this
      ensures claimed == "" ==>
                files == old(files) && forall n :: n in listing && IsRequest(n) ==> n !in files
      ensures claimed != "" ==>
                exists n :: n in listing && IsRequest(n) && n in old(files) && claimed == n + CLAIMING &&
                  files == (old(files) - {n})[claimed := old(files)[n]]
    {
      var i := 0;
      while i < |listing|
        invariant i <= |listing| && files == old(files)
        invariant forall n :: n in listing[..i] && IsRequest(n) ==> n !in files
      {
        var n := listing[i];
        assert n in listing && forall x :: x in listing[..i + 1] <==> x in listing[..i] || x == n;
        if IsRequest(n) && n in files {
          var data := files[n];
          files := (files - {n})[n + CLAIMING := data];
          return n + CLAIMING;
        }
        i := i + 1;
      }
      assert listing[..i] == listing;
      return "";
    }

    method WriteResult(id: string, text: string, partial: string, write: bool, rename: bool) returns (ok: bool)
      modifies this
      ensures (files, ok) == Written(old(files), id, text, partial, write, rename)
    {
      var tmp := TmpName(id);
      if !write {
        files := files[tmp := partial];
        return false;
      }
      files := files[tmp := text];
      if !rename {
        files := files - {tmp};
        assert files == old(files) - {tmp};
        return false;
      }
      files := files[OutName(id) := text] - {tmp};
      assert files == old(files)[OutName(id) := text] - {tmp};
      return true;
    }

    /** `processJob`: the result, or a short one in its place, then the marker, then the claim
        forgotten. With neither result there is no marker. */
    method ProcessJob(claimed: string, run: string -> string, short: string, partial: string, luck: Luck)
        returns (ran: bool)
      requires HasSuffix(claimed, CLAIMING) && IsRequest(TrimSuffix(claimed, CLAIMING))
      modifies this
      ensures ran == (claimed in old(files)) && claimed !in files
      ensures var id := IdOf(claimed);
              ran && (luck.write1 && luck.rename1) ==>
                OutName(id) in files && files[OutName(id)] == run(old(files)[claimed])
      ensures var id := IdOf(claimed);
              ran && !(luck.write1 && luck.rename1) && luck.write2 && luck.rename2 ==>
                OutName(id) in files && files[OutName(id)] == short
      ensures var id := IdOf(claimed);
              DoneName(id) in files && DoneName(id) !in old(files) ==>
                ran && ((luck.write1 && luck.rename1) || (luck.write2 && luck.rename2))
      ensures var id := IdOf(claimed);
              ran && ((luck.write1 && luck.rename1) || (luck.write2 && luck.rename2)) && luck.mark ==>
                DoneName(id) in files
      ensures forall n :: n !in {claimed, OutName(IdOf(claimed)), TmpName(IdOf(claimed)), DoneName(IdOf(claimed))} ==>
                (n in files <==> n in old(files)) && (n in files ==> files[n] == old(files)[n])
    {
      var id := IdOf(claimed);
      NamesDiffer(id);
      assert claimed[0] == 'r';
      if claimed !in files { return false; }
      var text := run(files[claimed]);
      var ok := WriteResult(id, text, partial, luck.write1, luck.rename1);
      if !ok {
        ok := WriteResult(id, short, partial, luck.write2, luck.rename2);
        if !ok {
          files := files - {claimed};
          return true;
        }
      }
      if luck.mark { files := files[DoneName(id) := "0"]; }
      files := files - {claimed};
      return true;
    }
  }

  lemma NamesDiffer(id: string)
    ensures OutName(id) != TmpName(id) && OutName(id) != DoneName(id) && TmpName(id) != DoneName(id)
  {
    assert OutName(id)[0] == 'o' && TmpName(id)[0] == 'o' && DoneName(id)[0] == 'd';
    assert |TmpName(id)| == |OutName(id)| + 4;
  }

  // --- the poll ---

  const NOT_DONE := "__NOTDONE__"

  /** One turn of the loop: a dial that fails, a session that drops, or what the check
      printed. */
  datatype Turn = NoDial | Dropped | Printed(stdout: string)

  /** `parseDone`. */
  function ParseDone(stdout: string): Option<string> {
    if stdout == NOT_DONE then None else Some(stdout)
  }

  /** The first answer among the turns before the deadline. */
  function FirstAnswer(turns: seq<Turn>): Option<string> {
    if turns == [] then None
    else if turns[0].Printed? && ParseDone(turns[0].stdout).Some? then ParseDone(turns[0].stdout)
    else FirstAnswer(turns[1..])
  }

  /** `nextPollWait`, in milliseconds. */
  function NextWait(d: nat): (w: nat)
    ensures 25 <= w <= 1000 || (d > 0 && w == 2 * d && w < 25)
    ensures d <= 1000 ==> d <= w
  {
    var n := if d == 0 then 25 else 2 * d;
    if n > 1000 then 1000 else n
  }

  /** `poll`: whatever drops in between, the first answer is returned; a session is open when
      the check ran, and closed when it dropped. */
  method Poll(turns: seq<Turn>) returns (out: Option<string>, waited: nat)
    ensures out == FirstAnswer(turns)
    ensures waited <= 1000 * |turns|
  {
    var connected, wait, i := false, 0, 0;
    waited := 0;
    while i < |turns|
      invariant i <= |turns| && FirstAnswer(turns) == FirstAnswer(turns[i..])
      invariant (wait == 0 || 25 <= wait) && wait <= 1000 && waited <= 1000 * i
    {
      var t := turns[i];
      assert turns[i..][0] == t && turns[i..][1..] == turns[i + 1..];
      i := i + 1;
      if !connected && t.NoDial? {
        wait := NextWait(wait);
        waited := waited + wait;
        continue;
      }
      connected := !t.Dropped?;
      if t.Printed? {
        var data := ParseDone(t.stdout);
        if data.Some? { return data, waited; }
      }
      wait := NextWait(wait);
      waited := waited + wait;
    }
    return None, waited;
  }
}
