/** The queue file on disk: opening, in-memory editing and rewriting in place. */
module DiskQueue {
  import opened Wrappers
  import opened Text
  import opened Decimal
  import opened SpoolFile
  import Q = QueueFormat

  /** What the operating system grants one rewrite: whether the seek, the truncation and
      the sync succeed, and the line, if any, at which writing fails. */
  datatype Disk = Disk(seek: bool, failAt: Option<nat>, truncate: bool, sync: bool)
  {
    predicate Writes(n: nat) {
      failAt.None? || failAt.value >= n
    }

    /** The file ends up as exactly the n lines, synced or not. */
    predicate Lands(n: nat) {
      seek && Writes(n) && truncate
    }

    predicate Serves(n: nat) {
      Lands(n) && sync
    }

    /** The rewrite fails before its first line. */
    predicate NeverStarts() {
      !seek || failAt == Some(0)
    }
  }

  /** The text that the first n lines of a rewrite leave in a file that held old text. */
  function Overlaid(ps: seq<Q.Param>, n: nat, was: string): string
    requires n <= |ps|
  {
    var printed := Q.Print(ps[..n]);
    printed + if |printed| <= |was| then was[|printed|..] else ""
  }

  /** What a rewrite with these parameters leaves in a file that held old text: the printed parameters
      when everything lands, the printed prefix over the old text when it stops early. */
  function Rewritten(ps: seq<Q.Param>, disk: Disk, was: string): string {
    if !disk.seek then was
    else if !disk.Writes(|ps|) then Overlaid(ps, disk.failAt.value, was)
    else if !disk.truncate then Overlaid(ps, |ps|, was)
    else Q.Print(ps)
  }

  lemma NothingWritten(ps: seq<Q.Param>, disk: Disk, was: string)
    requires ps != [] && disk.NeverStarts()
    ensures Rewritten(ps, disk, was) == was
  {
    assert ps[..0] == [];
    assert "" + was == was;
  }

  lemma OverlayNext(ps: seq<Q.Param>, n: nat, was: string)
    requires n < |ps|
    ensures Q.Print(ps[..n + 1]) == Q.Print(ps[..n]) + Q.PrintParam(ps[n])
    ensures Overwrite(Overlaid(ps, n, was), |Q.Print(ps[..n])|, Q.PrintParam(ps[n])) == Overlaid(ps, n + 1, was)
  {
    assert ps[..n + 1] == ps[..n] + [ps[n]];
    Q.PrintConcat(ps[..n], [ps[n]]);
    assert Q.Print([ps[n]]) == Q.PrintParam(ps[n]) + "";
    OverlayText(Q.Print(ps[..n]), Q.PrintParam(ps[n]), was);
  }

  lemma OverlayText(printed: string, next: string, was: string)
    ensures Overwrite(printed + if |printed| <= |was| then was[|printed|..] else "", |printed|, next) ==
            printed + next + if |printed + next| <= |was| then was[|printed + next|..] else ""
  {
  }

  /** One round of the search for the parameter to replace. */
  lemma SetRound(ps: seq<Q.Param>, i: nat, tag: string, value: string)
    requires i < |ps|
    ensures ps[..i] + Q.Set(ps[i..], tag, value) ==
            if ps[i].tag == tag then ps[i := Q.Param(tag, value)] else ps[..i + 1] + Q.Set(ps[i + 1..], tag, value)
  {
    var rest := ps[i..];
    assert rest[0] == ps[i] && rest[1..] == ps[i + 1..];
    if ps[i].tag != tag {
      ConcatAssoc(ps[..i], [ps[i]], Q.Set(rest[1..], tag, value));
      assert ps[..i] + [ps[i]] == ps[..i + 1];
    }
  }

  lemma SetEnd(ps: seq<Q.Param>, tag: string, value: string)
    ensures ps[..|ps|] + Q.Set(ps[|ps|..], tag, value) == Q.Add(ps, tag, value)
  {
  }

  class Qfile {
    const file: SpoolFile
    var params: seq<Q.Param>

    constructor (file: SpoolFile, params: seq<Q.Param>)
      ensures this.file == file && this.params == params
    {
      this.file, this.params := file, params;
    }

    /** The values of every parameter with the tag, in order. */
    method GetAll(tag: string) returns (result: seq<string>)
      ensures result == Q.GetAll(params, tag)
    {
      result := [];
      for i := 0 to |params|
        invariant result == Q.GetAll(params[..i], tag)
      {
        assert params[..i + 1] == params[..i] + [params[i]];
        Q.GetAllConcat(params[..i], [params[i]], tag);
        if params[i].tag == tag {
          result := result + [params[i].value];
        }
      }
      assert params[..|params|] == params;
    }

    method GetString(tag: string) returns (result: string)
      ensures result == Q.GetString(params, tag)
    {
      for i := 0 to |params|
        invariant Q.GetString(params, tag) == Q.GetString(params[i..], tag)
      {
        assert params[i..][1..] == params[i + 1..];
        if params[i].tag == tag {
          return params[i].value;
        }
      }
      return "";
    }

    method GetInt(tag: string) returns (result: Parsed)
      ensures result == Q.GetInt(params, tag)
    {
      var str := GetString(tag);
      if str != "" {
        return Atoi(str);
      }
      return Parsed(0, false);
    }

    method Set(tag: string, value: string)
      modifies this
      ensures params == Q.Set(old(params), tag, value)
    {
      hide Q.Set;
      for i := 0 to |params|
        invariant params == old(params)
        invariant Q.Set(params, tag, value) == params[..i] + Q.Set(params[i..], tag, value)
      {
        SetRound(params, i, tag, value);
        if params[i].tag == tag {
          params := params[i := Q.Param(params[i].tag, value)];
          return;
        }
      }
      SetEnd(params, tag, value);
      Add(tag, value);
    }

    method Add(tag: string, value: string)
      modifies this
      ensures params == Q.Add(old(params), tag, value)
    {
      params := params + [Q.Param(tag, value)];
    }

    /** Rewrites the file in place, line by line from its start; `ok` stands for a nil error. */
    method Write(disk: Disk) returns (ok: bool)
      modifies file
      ensures ok == disk.Serves(|params|)
      ensures file.content == Rewritten(params, disk, old(file.content))
    {
      if !disk.seek {
        return false;
      }
      file.Seek(0);
      var bytes := 0;
      for i := 0 to |params|
        invariant disk.Writes(i)
        invariant bytes == file.pos == |Q.Print(params[..i])|
        invariant file.content == Overlaid(params, i, old(file.content))
      {
        if disk.failAt == Some(i) {
          return false;
        }
        OverlayNext(params, i, old(file.content));
        var line := params[i].tag + ":" + params[i].value + "\n";
        file.WriteString(line);
        bytes := bytes + |line|;
      }
      assert params[..|params|] == params;
      if !disk.truncate {
        return false;
      }
      file.Truncate(bytes);
      return disk.sync;
    }
  }

  /** Opens, locks and parses a queue file; it is accepted exactly when its text parses. */
  method OpenQfile(file: SpoolFile, lock: bool) returns (r: Result<Qfile, Q.OpenError>)
    ensures file.content == old(file.content)
    ensures !lock ==> r == Err(Q.LockFailed)
    ensures lock ==> match Q.Parse(file.content, 1)
                     case Err(e) => r == Err(e)
                     case Ok(ps) => r.Ok? && fresh(r.value) && r.value.file == file && r.value.params == ps
  {
    if !lock {
      return Err(Q.LockFailed);
    }
    hide IndexOf;
    hide Trim;
    hide Q.DropCR;
    hide Q.Parse;
    hide Q.Prepend;
    var rest := file.content;
    var line := 1;
    var params := [];
    Q.PrependNone(Q.Parse(rest, line));
    while rest != ""
      invariant Q.Parse(file.content, 1) == Q.Prepend(params, Q.Parse(rest, line))
      decreases |rest|
    {
      TakeLine(params, rest, line);
      var end := IndexOf(rest, '\n');
      if end >= Q.MAX_SCAN_TOKEN {
        return Err(Q.LineTooLong);
      }
      var text := Q.DropCR(rest[..end]);
      var colon := IndexOf(text, ':');
      if colon == |text| {
        return Err(Q.BadLine(line));
      }
      var p := Q.Param(Trim(text[..colon]), Trim(text[colon + 1..]));
      var next := if end == |rest| then "" else rest[end + 1..];
      params := params + [p];
      rest := next;
      line := line + 1;
    }
    PrependDone(params, line);
    var q := new Qfile(file, params);
    return Ok(q);
  }

  lemma Regroup(ps: seq<Q.Param>, p: Q.Param, r: Result<seq<Q.Param>, Q.OpenError>)
    ensures Q.Prepend(ps, Q.Prepend([p], r)) == Q.Prepend(ps + [p], r)
  {
    if r.Ok? {
      ConcatAssoc(ps, [p], r.value);
    }
  }

  lemma PrependDone(ps: seq<Q.Param>, line: nat)
    ensures Q.Prepend(ps, Q.Parse("", line)) == Ok(ps)
  {
    assert ps + [] == ps;
  }

  /** One round of the reading loop, after the parameters ps have been read. */
  lemma TakeLine(ps: seq<Q.Param>, rest: string, line: nat)
    requires rest != ""
    ensures var end := IndexOf(rest, '\n');
            Q.Prepend(ps, Q.Parse(rest, line)) ==
            if end >= Q.MAX_SCAN_TOKEN then Err(Q.LineTooLong)
            else
              match Q.ParseLine(Q.DropCR(rest[..end]))
              case None => Err(Q.BadLine(line))
              case Some(p) =>
                Q.Prepend(ps + [p], Q.Parse(if end == |rest| then "" else rest[end + 1..], line + 1))
  {
    hide IndexOf;
    hide Q.ParseLine;
    hide Q.DropCR;
    var end := IndexOf(rest, '\n');
    if end < Q.MAX_SCAN_TOKEN {
      match Q.ParseLine(Q.DropCR(rest[..end]))
      case None =>
      case Some(p) =>
        var next := if end == |rest| then "" else rest[end + 1..];
        assert Q.Parse(rest, line) == Q.Prepend([p], Q.Parse(next, line + 1)) by {
          assert [p] + [] == [p];
        }
        hide Q.Parse;
        Regroup(ps, p, Q.Parse(next, line + 1));
    }
  }
}
