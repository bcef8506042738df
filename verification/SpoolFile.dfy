/** A file in the HylaFAX spool, as an open descriptor sees it: contents and a position. */
module SpoolFile {

  /** Contents after writing s at pos; a gap before pos reads as NUL. */
  function Overwrite(content: string, pos: nat, s: string): (r: string)
    ensures |r| == if pos + |s| > |content| then pos + |s| else |content|
    ensures r[pos..pos + |s|] == s
    ensures forall i | 0 <= i < |content| && !(pos <= i < pos + |s|) :: r[i] == content[i]
  {
    var base := Resize(content, if pos > |content| then pos else |content|);
    base[..pos] + s + if pos + |s| <= |base| then base[pos + |s|..] else ""
  }

  /** Contents after Truncate(size). */
  function Resize(content: string, size: nat): (r: string)
    ensures |r| == size
    ensures forall i | 0 <= i < size :: r[i] == if i < |content| then content[i] else '\0'
  {
    if size <= |content| then content[..size] else content + seq(size - |content|, _ => '\0')
  }

  class SpoolFile {
    var content: string
    var pos: nat

    constructor (content: string)
      ensures this.content == content && pos == 0
    {
      this.content, pos := content, 0;
    }

    method Seek(pos: nat)
      modifies this`pos
      ensures this.pos == pos
    {
      this.pos := pos;
    }

    method WriteString(s: string)
      modifies this
      ensures content == Overwrite(old(content), old(pos), s)
      ensures pos == old(pos) + |s|
    {
      content := Overwrite(content, pos, s);
      pos := pos + |s|;
    }

    method Truncate(size: nat)
      modifies this`content
      ensures content == Resize(old(content), size)
    {
      content := Resize(content, size);
    }
  }
}
