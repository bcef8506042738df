/** The text of a HylaFAX queue file and the list of parameters it stands for. */
module QueueFormat {
  import opened Wrappers
  import opened Text
  import opened Decimal

  datatype Param = Param(tag: string, value: string)

  datatype OpenError = LockFailed | BadLine(line: nat) | LineTooLong

  /** bufio.MaxScanTokenSize: a scanner gives up on a line that fills its buffer. */
  const MAX_SCAN_TOKEN: nat := 65536

  // ---- Text to parameters ----

  /** bufio.ScanLines takes one carriage return off the end of a line. */
  function DropCR(raw: string): string {
    if raw != "" && raw[|raw| - 1] == '\r' then raw[..|raw| - 1] else raw
  }

  /** One line: split at the first colon, both halves trimmed. */
  function ParseLine(line: string): Option<Param> {
    var i := IndexOf(line, ':');
    if i == |line| then None else Some(Param(Trim(line[..i]), Trim(line[i + 1..])))
  }

  /** The rest of a line-by-line reading that starts at the given line number. */
  function Parse(text: string, line: nat): Result<seq<Param>, OpenError> {
    if text == "" then Ok([])
    else
      var i := IndexOf(text, '\n');
      if i >= MAX_SCAN_TOKEN then Err(LineTooLong)
      else
        match ParseLine(DropCR(text[..i]))
        case None => Err(BadLine(line))
        case Some(p) =>
          if i == |text| then Ok([p]) else Prepend([p], Parse(text[i + 1..], line + 1))
  }

  function Prepend(ps: seq<Param>, r: Result<seq<Param>, OpenError>): Result<seq<Param>, OpenError> {
    match r
    case Ok(qs) => Ok(ps + qs)
    case Err(e) => Err(e)
  }

  // ---- Parameters to text ----

  function PrintParam(p: Param): string {
    p.tag + ":" + p.value + "\n"
  }

  function Print(ps: seq<Param>): string {
    if ps == [] then "" else PrintParam(ps[0]) + Print(ps[1..])
  }

  lemma {:induction false} PrintConcat(ps: seq<Param>, qs: seq<Param>)
    ensures Print(ps + qs) == Print(ps) + Print(qs)
  {
    if ps == [] {
      assert ps + qs == qs;
    } else {
      hide PrintParam;
      PrintConcat(ps[1..], qs);
      assert (ps + qs)[1..] == ps[1..] + qs;
      ConcatAssoc(PrintParam(ps[0]), Print(ps[1..]), Print(qs));
    }
  }

  // ---- Round trip ----

  /** A value that survives being written after "tag:" and read back. */
  predicate CleanValue(tag: string, value: string) {
    Trimmed(value) && '\n' !in value && |tag| + 1 + |value| < MAX_SCAN_TOKEN
  }

  predicate CleanParam(p: Param) {
    Trimmed(p.tag) && ':' !in p.tag && '\n' !in p.tag && CleanValue(p.tag, p.value)
  }

  predicate Clean(ps: seq<Param>) {
    forall p | p in ps :: CleanParam(p)
  }

  lemma DropCRKeeps(raw: string)
    ensures |DropCR(raw)| <= |raw|
    ensures '\n' !in raw ==> '\n' !in DropCR(raw)
    ensures ':' !in raw ==> ':' !in DropCR(raw)
  {
  }

  lemma ParseLineIsClean(line: string)
    requires '\n' !in line && |line| < MAX_SCAN_TOKEN
    ensures ParseLine(line).Some? ==> CleanParam(ParseLine(line).value)
  {
    hide IndexOf;
    hide Trim;
    hide Trimmed;
    var i := IndexOf(line, ':');
    if i < |line| {
      IndexOfIsFirst(line, ':');
      TrimIsTrimmed(line[..i]);
      TrimIsTrimmed(line[i + 1..]);
    }
  }

  lemma CleanPrepend(p: Param, qs: seq<Param>)
    requires CleanParam(p) && Clean(qs)
    ensures Clean([p] + qs)
  {
    hide CleanParam;
  }

  lemma CleanOne(p: Param)
    requires CleanParam(p)
    ensures Clean([p]) && Clean([])
  {
    hide CleanParam;
  }

  /** Every parameter that a queue file yields is clean. */
  lemma {:induction false} ParseIsClean(text: string, line: nat)
    ensures Parse(text, line).Ok? ==> Clean(Parse(text, line).value)
    decreases |text|
  {
    hide IndexOf;
    hide ParseLine;
    hide CleanParam;
    if text == "" {
      return;
    }
    hide Clean;
    var i := IndexOf(text, '\n');
    if i < MAX_SCAN_TOKEN {
      var raw := DropCR(text[..i]);
      IndexOfIsFirst(text, '\n');
      DropCRKeeps(text[..i]);
      ParseLineIsClean(raw);
      if ParseLine(raw).Some? {
        CleanOne(ParseLine(raw).value);
        if i < |text| {
          ParseIsClean(text[i + 1..], line + 1);
          if Parse(text[i + 1..], line + 1).Ok? {
            CleanPrepend(ParseLine(raw).value, Parse(text[i + 1..], line + 1).value);
          }
        }
      }
    }
  }

  /** A line is refused exactly if it has no colon; otherwise tag and value are what stands before and after
      the first one, less the white space around them. */
  lemma LineIsTagAndValue(line: string) returns (before: string, mid: string, mid': string, after: string)
    ensures ParseLine(line).None? <==> ':' !in line
    ensures ParseLine(line).Some? ==>
              var p := ParseLine(line).value;
              && line == (before + p.tag + mid) + ":" + (mid' + p.value + after) && ':' !in before + p.tag + mid
              && AllSpace(before) && AllSpace(mid) && AllSpace(mid') && AllSpace(after)
              && Trimmed(p.tag) && Trimmed(p.value)
  {
    hide IndexOf;
    hide Trim;
    hide Trimmed;
    hide AllSpace;
    var i := IndexOf(line, ':');
    IndexOfIsFirst(line, ':');
    IndexOfAbsent(line, ':');
    before, mid, mid', after := "", "", "", "";
    if i < |line| {
      before, mid := TrimDropsSpace(line[..i]);
      mid', after := TrimDropsSpace(line[i + 1..]);
      TrimIsTrimmed(line[..i]);
      TrimIsTrimmed(line[i + 1..]);
      assert line == line[..i] + ":" + line[i + 1..];
    }
  }

  /** How the reading takes one line off a text that goes on after it. */
  lemma ParseStep(first: string, rest: string, line: nat)
    requires '\n' !in first && |first| < MAX_SCAN_TOKEN
    ensures Parse(first + ['\n'] + rest, line) ==
            match ParseLine(DropCR(first))
            case None => Err(BadLine(line))
            case Some(p) => Prepend([p], Parse(rest, line + 1))
  {
    hide IndexOf;
    hide ParseLine;
    hide DropCR;
    IndexOfConcat(first, '\n', rest);
  }

  lemma ParseLineOfJoined(tag: string, value: string)
    requires ':' !in tag
    ensures ParseLine(tag + ":" + value) == Some(Param(Trim(tag), Trim(value)))
  {
    hide IndexOf;
    hide Trim;
    IndexOfConcat(tag, ':', value);
    assert tag + [':'] + value == tag + ":" + value;
  }

  lemma NoCRAfterTrimmed(tag: string, value: string)
    requires Trimmed(value)
    ensures DropCR(tag + ":" + value) == tag + ":" + value
  {
    var line := tag + ":" + value;
    assert line[|line| - 1] == if value == "" then ':' else value[|value| - 1];
  }

  lemma ParseLineOfPrinted(p: Param)
    requires CleanParam(p)
    ensures ParseLine(DropCR(p.tag + ":" + p.value)) == Some(p)
  {
    hide Trim;
    hide Trimmed;
    hide ParseLine;
    hide DropCR;
    NoCRAfterTrimmed(p.tag, p.value);
    ParseLineOfJoined(p.tag, p.value);
    TrimIsTrimmed(p.tag);
    TrimIsTrimmed(p.value);
  }

  lemma PrintedLine(p: Param)
    requires CleanParam(p)
    ensures '\n' !in p.tag + ":" + p.value && |p.tag + ":" + p.value| < MAX_SCAN_TOKEN
  {
    hide Trimmed;
  }

  /** Reading one printed clean parameter. */
  lemma ParsePrintedParam(p: Param, rest: string, line: nat)
    requires CleanParam(p)
    ensures Parse(PrintParam(p) + rest, line) == Prepend([p], Parse(rest, line + 1))
  {
    hide Parse;
    hide ParseLine;
    hide DropCR;
    hide CleanParam;
    var first := p.tag + ":" + p.value;
    PrintedLine(p);
    ParseLineOfPrinted(p);
    ParseStep(first, rest, line);
    assert PrintParam(p) + rest == first + ['\n'] + rest;
  }

  lemma LastLine(text: string, line: nat)
    requires text != "" && '\n' !in text
    ensures Parse(text + ['\n'], line) == Parse(text, line)
  {
    hide ParseLine;
    hide DropCR;
    hide IndexOf;
    IndexOfAbsent(text, '\n');
    assert text[..|text|] == text && text + ['\n'] + "" == text + ['\n'];
    IndexOfConcat(text, '\n', "");
    if |text| < MAX_SCAN_TOKEN {
      ParseStep(text, "", line);
      forall p: Param ensures [p] + [] == [p] {}
    }
  }

  /** The newline after the last line may be missing. */
  lemma {:induction false} FinalNewlineIsOptional(text: string, line: nat)
    requires text != "" && text[|text| - 1] != '\n'
    ensures Parse(text + ['\n'], line) == Parse(text, line)
    decreases |text|
  {
    hide ParseLine;
    hide DropCR;
    hide IndexOf;
    var i := IndexOf(text, '\n');
    IndexOfIsFirst(text, '\n');
    IndexOfAbsent(text, '\n');
    var first := text[..i];
    if i == |text| {
      LastLine(text, line);
    } else {
      var rest := text[i + 1..];
      assert rest != "" && rest[|rest| - 1] == text[|text| - 1];
      FinalNewlineIsOptional(rest, line + 1);
      assert text + ['\n'] == first + ['\n'] + (rest + ['\n']);
      IndexOfConcat(first, '\n', rest + ['\n']);
    }
  }

  /** The error names the first bad line: one without a colon by its number, counted from one, and one that
      fills the scanner's buffer as too long. */
  lemma FirstBadLineIsNamed(ps: seq<Param>, bad: string, rest: string)
    requires Clean(ps) && '\n' !in bad
    ensures ':' !in bad && |bad| < 65536 ==>
              Parse(Print(ps) + (bad + ['\n'] + rest), 1) == Err(BadLine(|ps| + 1))
    ensures |bad| >= 65536 ==> Parse(Print(ps) + (bad + ['\n'] + rest), 1) == Err(LineTooLong)
  {
    hide Clean;
    hide Print;
    hide ParseLine;
    hide IndexOf;
    ParsePrintedPrefix(ps, bad + ['\n'] + rest, 1);
    IndexOfConcat(bad, '\n', rest);
    if |bad| < MAX_SCAN_TOKEN {
      DropCRKeeps(bad);
      ParseStep(bad, rest, 1 + |ps|);
      var _, _, _, _ := LineIsTagAndValue(DropCR(bad));
    }
  }

  lemma PrependTwice(p: Param, qs: seq<Param>, r: Result<seq<Param>, OpenError>)
    ensures Prepend([p], Prepend(qs, r)) == Prepend([p] + qs, r)
  {
    if r.Ok? {
      assert [p] + (qs + r.value) == [p] + qs + r.value;
    }
  }

  lemma PrependNone(r: Result<seq<Param>, OpenError>)
    ensures Prepend([], r) == r
  {
    if r.Ok? {
      assert [] + r.value == r.value;
    }
  }

  /** Reading printed clean parameters gives them back, whatever text follows. */
  lemma {:induction false} ParsePrintedPrefix(ps: seq<Param>, rest: string, line: nat)
    requires Clean(ps)
    ensures Parse(Print(ps) + rest, line) == Prepend(ps, Parse(rest, line + |ps|))
  {
    hide Parse;
    hide CleanParam;
    hide PrintParam;
    if ps == [] {
      assert Print(ps) + rest == rest;
      PrependNone(Parse(rest, line));
    } else {
      var p, qs := ps[0], ps[1..];
      assert Print(ps) + rest == PrintParam(p) + (Print(qs) + rest);
      ParsePrintedParam(p, Print(qs) + rest, line);
      ParsePrintedPrefix(qs, rest, line + 1);
      PrependTwice(p, qs, Parse(rest, line + |ps|));
      assert ps == [p] + qs;
    }
  }

  /** Printing and reading again returns the same list exactly when every parameter is clean. */
  lemma PrintParseRoundTrip(ps: seq<Param>)
    ensures Parse(Print(ps), 1) == Ok(ps) <==> Clean(ps)
  {
    hide Print;
    hide Clean;
    var text := Print(ps);
    ParseIsClean(text, 1);
    if Clean(ps) {
      ParsePrintedPrefix(ps, "", 1);
      assert text + "" == text;
      assert ps + [] == ps;
    }
  }

  /** Whatever text is accepted, rewriting it from the parsed list changes nothing that is read. */
  lemma ReprintAccepted(text: string)
    requires Parse(text, 1).Ok?
    ensures Parse(Print(Parse(text, 1).value), 1) == Parse(text, 1)
  {
    ParseIsClean(text, 1);
    PrintParseRoundTrip(Parse(text, 1).value);
  }

  /** A blank line makes the whole text unreadable, whatever stands around it. */
  lemma {:induction false} BlankLineIsRejected(before: string, after: string, line: nat)
    ensures Parse(before + "\n\n" + after, line).Err?
    decreases |before|
  {
    hide Parse;
    hide ParseLine;
    hide IndexOf;
    IndexOfAbsent(before, '\n');
    var i := IndexOf(before, '\n');
    IndexOfIsFirst(before, '\n');
    var first := before[..i];
    var rest := if i < |before| then before[i + 1..] + "\n\n" + after else "\n" + after;
    assert before + "\n\n" + after == first + ['\n'] + rest;
    if i < |before| {
      BlankLineIsRejected(before[i + 1..], after, line + 1);
    } else {
      BlankFirstLine(after, line + 1);
    }
    ErrorPropagates(first, rest, line);
  }

  lemma BlankFirstLine(after: string, line: nat)
    ensures Parse("\n" + after, line).Err?
  {
    hide Parse;
    ParseStep("", after, line);
    assert "" + ['\n'] + after == "\n" + after;
  }

  lemma ErrorPropagates(first: string, rest: string, line: nat)
    requires '\n' !in first && Parse(rest, line + 1).Err?
    ensures Parse(first + ['\n'] + rest, line).Err?
  {
    hide ParseLine;
    hide IndexOf;
    IndexOfConcat(first, '\n', rest);
    if |first| < MAX_SCAN_TOKEN {
      ParseStep(first, rest, line);
    }
  }

  // ---- Access by tag ----

  function GetAll(ps: seq<Param>, tag: string): seq<string> {
    if ps == [] then []
    else (if ps[0].tag == tag then [ps[0].value] else []) + GetAll(ps[1..], tag)
  }

  function GetString(ps: seq<Param>, tag: string): string {
    if ps == [] then "" else if ps[0].tag == tag then ps[0].value else GetString(ps[1..], tag)
  }

  /** GetInt: an absent or empty value is an error, as is one that Atoi rejects. */
  function IntOf(value: string): Parsed {
    if value != "" then Atoi(value) else Parsed(0, false)
  }

  function GetInt(ps: seq<Param>, tag: string): Parsed {
    IntOf(GetString(ps, tag))
  }

  function Add(ps: seq<Param>, tag: string, value: string): seq<Param> {
    ps + [Param(tag, value)]
  }

  function Set(ps: seq<Param>, tag: string, value: string): seq<Param> {
    if ps == [] then [Param(tag, value)]
    else if ps[0].tag == tag then [Param(tag, value)] + ps[1..]
    else [ps[0]] + Set(ps[1..], tag, value)
  }

  function Tags(ps: seq<Param>): seq<string> {
    seq(|ps|, i requires 0 <= i < |ps| => ps[i].tag)
  }

  lemma {:induction false} GetAllConcat(ps: seq<Param>, qs: seq<Param>, tag: string)
    ensures GetAll(ps + qs, tag) == GetAll(ps, tag) + GetAll(qs, tag)
  {
    if ps == [] {
      assert ps + qs == qs;
    } else {
      GetAllConcat(ps[1..], qs, tag);
      assert (ps + qs)[1..] == ps[1..] + qs;
      ConcatAssoc(if ps[0].tag == tag then [ps[0].value] else [], GetAll(ps[1..], tag), GetAll(qs, tag));
    }
  }

  lemma {:induction false} GetStringIsFirst(ps: seq<Param>, tag: string)
    ensures GetString(ps, tag) == if GetAll(ps, tag) == [] then "" else GetAll(ps, tag)[0]
  {
    if ps != [] {
      GetStringIsFirst(ps[1..], tag);
    }
  }

  /** Set replaces the first value of its tag, or appends the tag; no other tag notices. */
  lemma {:induction false} GetAllAfterSet(ps: seq<Param>, tag: string, value: string, other: string)
    ensures GetAll(Set(ps, tag, value), other) ==
            if other != tag then GetAll(ps, other)
            else if GetAll(ps, tag) == [] then [value]
            else [value] + GetAll(ps, tag)[1..]
  {
    if ps != [] && ps[0].tag != tag {
      GetAllAfterSet(ps[1..], tag, value, other);
      var after := [ps[0]] + Set(ps[1..], tag, value);
      assert after[1..] == Set(ps[1..], tag, value);
    }
  }

  lemma GetStringAfterSet(ps: seq<Param>, tag: string, value: string, other: string)
    ensures GetString(Set(ps, tag, value), other) == if other == tag then value else GetString(ps, other)
  {
    GetAllAfterSet(ps, tag, value, other);
    GetStringIsFirst(ps, other);
    GetStringIsFirst(Set(ps, tag, value), other);
  }

  /** Set keeps every parameter in its place and puts its value at one of them, or at the end. */
  lemma {:induction false} SetInPlace(ps: seq<Param>, tag: string, value: string) returns (i: nat)
    ensures i < |Set(ps, tag, value)| && i <= |ps|
    ensures Set(ps, tag, value) == ps[..i] + [Param(tag, value)] + if i < |ps| then ps[i + 1..] else []
    ensures i < |ps| ==> ps[i].tag == tag
  {
    if ps == [] || ps[0].tag == tag {
      i := 0;
    } else {
      var j := SetInPlace(ps[1..], tag, value);
      i := j + 1;
      assert ps[..i] == [ps[0]] + ps[1..][..j];
      var post := if i < |ps| then ps[i + 1..] else [];
      assert post == if j < |ps[1..]| then ps[1..][j + 1..] else [];
      ConcatAssoc([ps[0]], ps[1..][..j], [Param(tag, value)]);
      ConcatAssoc([ps[0]], ps[1..][..j] + [Param(tag, value)], post);
    }
  }

  /** Set never reorders parameters: the tags stay where they are, and at most one is appended. */
  lemma SetKeepsTags(ps: seq<Param>, tag: string, value: string)
    ensures Tags(ps) <= Tags(Set(ps, tag, value))
  {
    hide Set;
    var i := SetInPlace(ps, tag, value);
  }

  lemma SetKeepsClean(ps: seq<Param>, tag: string, value: string)
    requires Clean(ps) && CleanParam(Param(tag, value))
    ensures Clean(Set(ps, tag, value))
  {
    var _ := SetInPlace(ps, tag, value);
  }

  lemma PrintSet(ps: seq<Param>, tag: string, value: string) returns (before: string, after: string)
    ensures Print(Set(ps, tag, value)) == before + PrintParam(Param(tag, value)) + after
  {
    hide Set;
    hide PrintParam;
    var i := SetInPlace(ps, tag, value);
    var post := if i < |ps| then ps[i + 1..] else [];
    PrintConcat(ps[..i] + [Param(tag, value)], post);
    PrintConcat(ps[..i], [Param(tag, value)]);
    before, after := Print(ps[..i]), Print(post);
    assert Print([Param(tag, value)]) == PrintParam(Param(tag, value)) + "";
  }

  /** A status that ends in a newline costs the queue file its readability, whatever else it holds. */
  lemma NewlineStatusBreaksFile(ps: seq<Param>, tag: string, text: string)
    ensures Parse(Print(Set(ps, tag, text + "\n")), 1).Err?
  {
    hide Set;
    hide Print;
    hide Parse;
    var before, after := PrintSet(ps, tag, text + "\n");
    var upTo := before + tag + ":" + text;
    assert before + PrintParam(Param(tag, text + "\n")) + after == upTo + "\n\n" + after;
    BlankLineIsRejected(upTo, after, 1);
  }
}
