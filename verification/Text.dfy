/** The parts of Go's text handling that the queue file, the dialstring and the
    transfer log rely on: trimming, first index, splitting and joining. */
module Text {

  /** The characters that Go's unicode.IsSpace accepts. */
  predicate IsSpace(c: char) {
    || '\t' <= c <= '\r' || c == ' '
    || c == '\U{0085}' || c == '\U{00A0}' || c == '\U{1680}'
    || '\U{2000}' <= c <= '\U{200A}'
    || c == '\U{2028}' || c == '\U{2029}' || c == '\U{202F}' || c == '\U{205F}' || c == '\U{3000}'
  }

  function TrimLeft(s: string): string {
    if s != "" && IsSpace(s[0]) then TrimLeft(s[1..]) else s
  }

  function TrimRight(s: string): string {
    if s != "" && IsSpace(s[|s| - 1]) then TrimRight(s[..|s| - 1]) else s
  }

  /** strings.TrimSpace. */
  function Trim(s: string): string {
    TrimRight(TrimLeft(s))
  }

  predicate Trimmed(s: string) {
    s != "" ==> !IsSpace(s[0]) && !IsSpace(s[|s| - 1])
  }

  /** Trimming on the left leaves the part of the text from its first non-space on. */
  lemma {:induction false} TrimLeftIsSuffix(s: string)
    ensures var r := TrimLeft(s);
            |r| <= |s| && r == s[|s| - |r|..] && (r != "" ==> !IsSpace(r[0]))
  {
    if s != "" && IsSpace(s[0]) {
      TrimLeftIsSuffix(s[1..]);
    }
  }

  lemma {:induction false} TrimRightIsPrefix(s: string)
    ensures TrimRight(s) <= s
    ensures var r := TrimRight(s); r != "" ==> !IsSpace(r[|r| - 1])
  {
    if s != "" && IsSpace(s[|s| - 1]) {
      TrimRightIsPrefix(s[..|s| - 1]);
    }
  }

  lemma TrimmedStays(s: string)
    requires Trimmed(s)
    ensures Trim(s) == s
  {
    hide IsSpace;
  }

  lemma TrimIsPiece(s: string)
    ensures |Trim(s)| <= |s|
    ensures forall c | c in Trim(s) :: c in s
  {
    hide TrimLeft;
    hide TrimRight;
    hide IsSpace;
    var l := TrimLeft(s);
    var r := TrimRight(l);
    TrimLeftIsSuffix(s);
    TrimRightIsPrefix(l);
    assert forall i | 0 <= i < |r| :: r[i] == l[i] == s[|s| - |l| + i];
  }

  lemma TrimHasNoMargin(s: string)
    ensures Trimmed(Trim(s))
  {
    hide TrimLeft;
    hide TrimRight;
    hide IsSpace;
    var l := TrimLeft(s);
    var r := TrimRight(l);
    TrimLeftIsSuffix(s);
    TrimRightIsPrefix(l);
    assert r != "" ==> r[0] == l[0];
  }

  /** Trimming yields a trimmed piece of its argument and leaves trimmed text alone. */
  lemma TrimIsTrimmed(s: string)
    ensures Trimmed(Trim(s))
    ensures Trimmed(s) ==> Trim(s) == s
    ensures |Trim(s)| <= |s|
    ensures forall c | c in Trim(s) :: c in s
  {
    hide Trim;
    hide Trimmed;
    TrimHasNoMargin(s);
    TrimIsPiece(s);
    if Trimmed(s) {
      TrimmedStays(s);
    }
  }

  predicate AllSpace(s: string) {
    forall i | 0 <= i < |s| :: IsSpace(s[i])
  }

  lemma {:induction false} TrimLeftDropsSpace(s: string) returns (margin: string)
    ensures s == margin + TrimLeft(s) && AllSpace(margin)
  {
    if s != "" && IsSpace(s[0]) {
      var rest := TrimLeftDropsSpace(s[1..]);
      hide IsSpace;
      margin := [s[0]] + rest;
      ConcatAssoc([s[0]], rest, TrimLeft(s));
    } else {
      margin := "";
      assert "" + s == s;
    }
  }

  lemma {:induction false} TrimRightDropsSpace(s: string) returns (margin: string)
    ensures s == TrimRight(s) + margin && AllSpace(margin)
  {
    if s != "" && IsSpace(s[|s| - 1]) {
      var rest := TrimRightDropsSpace(s[..|s| - 1]);
      hide IsSpace;
      margin := rest + [s[|s| - 1]];
      ConcatAssoc(TrimRight(s), rest, [s[|s| - 1]]);
    } else {
      margin := "";
      assert s + "" == s;
    }
  }

  /** Trimming takes off white space and nothing else. */
  lemma TrimDropsSpace(s: string) returns (left: string, right: string)
    ensures s == left + Trim(s) + right && AllSpace(left) && AllSpace(right)
  {
    hide TrimLeft;
    hide TrimRight;
    hide AllSpace;
    left := TrimLeftDropsSpace(s);
    right := TrimRightDropsSpace(TrimLeft(s));
    ConcatAssoc(left, Trim(s), right);
  }

  lemma ConcatAssoc<T>(a: seq<T>, b: seq<T>, c: seq<T>)
    ensures a + (b + c) == a + b + c
  {
  }

  /** The first index of c in s, or |s|. */
  function IndexOf(s: string, c: char): (i: nat)
    ensures i <= |s|
    ensures i < |s| ==> s[i] == c
  {
    if s == "" || s[0] == c then 0 else 1 + IndexOf(s[1..], c)
  }

  lemma {:induction false} IndexOfIsFirst(s: string, c: char)
    ensures c !in s[..IndexOf(s, c)]
  {
    if s != "" && s[0] != c {
      IndexOfIsFirst(s[1..], c);
      var i := IndexOf(s, c);
      assert s[..i] == [s[0]] + s[1..][..i - 1];
    }
  }

  /** What IndexOf finds in a concatenation whose first part is free of c. */
  lemma IndexOfConcat(a: string, c: char, b: string)
    requires c !in a
    ensures IndexOf(a + [c] + b, c) == |a|
    ensures (a + [c] + b)[..|a|] == a && (a + [c] + b)[|a| + 1..] == b
  {
    hide IndexOf;
    var s := a + [c] + b;
    IndexOfIsFirst(s, c);
    assert s[|a|] == c;
    assert forall i | 0 <= i < |a| :: s[i] == a[i] && a[i] in a;
    forall i | |a| < i <= |s| ensures c in s[..i] {
      assert s[..i][|a|] == c;
    }
  }

  lemma IndexOfAbsent(s: string, c: char)
    ensures IndexOf(s, c) == |s| <==> c !in s
  {
    hide IndexOf;
    IndexOfIsFirst(s, c);
    assert s[..|s|] == s;
  }

  /** strings.Split at a one-character separator. */
  function Split(s: string, c: char): (parts: seq<string>)
    ensures |parts| > 0
  {
    var i := IndexOf(s, c);
    if i == |s| then [s] else [s[..i]] + Split(s[i + 1..], c)
  }

  /** The parts with the separator between neighbours. */
  function Join(parts: seq<string>, c: char): string {
    if parts == [] then "" else if |parts| == 1 then parts[0]
    else parts[0] + [c] + Join(parts[1..], c)
  }

  lemma SplitStep(a: string, c: char, b: string)
    requires c !in a
    ensures Split(a, c) == [a]
    ensures Split(a + [c] + b, c) == [a] + Split(b, c)
  {
    hide IndexOf;
    IndexOfAbsent(a, c);
    IndexOfConcat(a, c, b);
  }

  lemma {:induction false} SplitJoin(parts: seq<string>, c: char)
    requires parts != []
    requires forall p | p in parts :: c !in p
    ensures Split(Join(parts, c), c) == parts
  {
    hide Split;
    if |parts| == 1 {
      SplitStep(parts[0], c, "");
    } else {
      SplitJoin(parts[1..], c);
      SplitStep(parts[0], c, Join(parts[1..], c));
      assert parts == [parts[0]] + parts[1..];
    }
  }

  /** Writing a separator before every part but the first appends to the join. */
  lemma {:induction false} JoinSnoc(parts: seq<string>, last: string, c: char)
    ensures Join(parts + [last], c) == if parts == [] then last else Join(parts, c) + [c] + last
  {
    if |parts| > 1 {
      JoinSnoc(parts[1..], last, c);
      assert (parts + [last])[1..] == parts[1..] + [last];
    } else if |parts| == 1 {
      assert (parts + [last])[1..] == [last];
    }
  }
}
