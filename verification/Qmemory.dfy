/** The in-memory queue file as a table of values, and how far it can stand in for the one on disk. */
module QueueTable {
  import Q = QueueFormat

  type Table = map<string, seq<string>>

  function GetAll(m: Table, tag: string): seq<string> {
    if tag in m then m[tag] else []
  }

  function GetString(m: Table, tag: string): string
    requires tag in m ==> m[tag] != []
  {
    if tag in m then m[tag][0] else ""
  }

  function Set(m: Table, tag: string, value: string): Table {
    m[tag := [value]]
  }

  function Add(m: Table, tag: string, value: string): Table {
    m[tag := GetAll(m, tag) + [value]]
  }

  // ---- Simulation ----

  /** Both hold the same values for every tag, and no stored list is empty. */
  ghost predicate Agree(ps: seq<Q.Param>, m: Table) {
    && (forall tag :: Q.GetAll(ps, tag) == GetAll(m, tag))
    && (forall tag | tag in m :: m[tag] != [])
  }

  /** Agreement makes every read the same. */
  lemma AgreeOnReads(ps: seq<Q.Param>, m: Table, tag: string)
    requires Agree(ps, m)
    ensures GetString(m, tag) == Q.GetString(ps, tag)
    ensures Q.IntOf(GetString(m, tag)) == Q.GetInt(ps, tag)
  {
    Q.GetStringIsFirst(ps, tag);
    assert GetAll(m, tag) == Q.GetAll(ps, tag);
  }

  lemma AddKeepsAgreement(ps: seq<Q.Param>, m: Table, tag: string, value: string)
    requires Agree(ps, m)
    ensures Agree(Q.Add(ps, tag, value), Add(m, tag, value))
  {
    forall other ensures Q.GetAll(Q.Add(ps, tag, value), other) == GetAll(Add(m, tag, value), other) {
      Q.GetAllConcat(ps, [Q.Param(tag, value)], other);
      assert Q.GetAll(ps, other) == GetAll(m, other);
    }
  }

  /** Setting a tag keeps the two in agreement exactly when it occurs at most once: the file
      replaces the first of several values where the table replaces them all. */
  lemma SetKeepsAgreement(ps: seq<Q.Param>, m: Table, tag: string, value: string)
    requires Agree(ps, m)
    ensures Agree(Q.Set(ps, tag, value), Set(m, tag, value)) <==> |Q.GetAll(ps, tag)| <= 1
  {
    hide Q.Set;
    hide Q.GetAll;
    var ps', m' := Q.Set(ps, tag, value), Set(m, tag, value);
    Q.GetAllAfterSet(ps, tag, value, tag);
    if |Q.GetAll(ps, tag)| <= 1 {
      forall other ensures Q.GetAll(ps', other) == GetAll(m', other) {
        Q.GetAllAfterSet(ps, tag, value, other);
        assert Q.GetAll(ps, other) == GetAll(m, other);
      }
    } else {
      assert |Q.GetAll(ps', tag)| > 1 && |GetAll(m', tag)| == 1;
    }
  }
}

/** The object that keeps such a table and edits it in place. */
module MemoryQueue {
  import opened Decimal
  import Q = QueueFormat
  import T = QueueTable

  class Qmemory {
    var params: T.Table

    constructor (parameters: T.Table)
      ensures params == parameters
    {
      params := parameters;
    }

    method Write() returns (ok: bool)
      ensures ok
    {
      ok := true;
    }

    method GetAll(tag: string) returns (result: seq<string>)
      ensures result == T.GetAll(params, tag)
    {
      if tag !in params {
        return [];
      }
      return params[tag];
    }

    /** An empty stored list would make the source index out of range. */
    method GetString(tag: string) returns (result: string)
      requires tag in params ==> params[tag] != []
      ensures result == T.GetString(params, tag)
    {
      if tag !in params {
        return "";
      }
      return params[tag][0];
    }

    method GetInt(tag: string) returns (result: Parsed)
      requires tag in params ==> params[tag] != []
      ensures result == Q.IntOf(T.GetString(params, tag))
    {
      var v := GetString(tag);
      if v == "" {
        return Parsed(0, false);
      }
      return Atoi(v);
    }

    /** The tag's only value is the new one from now on, and every other tag reads as before. Any file
        that agreed with the table and is set in the same way agrees still iff the tag was not repeated. */
    method Set(tag: string, value: string)
      modifies this
      ensures T.GetAll(params, tag) == [value]
      ensures forall other | other != tag :: T.GetAll(params, other) == T.GetAll(old(params), other)
      ensures params.Keys == old(params.Keys) + {tag}
      ensures forall ps | T.Agree(ps, old(params)) ::
                T.Agree(Q.Set(ps, tag, value), params) <==> |Q.GetAll(ps, tag)| <= 1
    {
      params := params[tag := [value]];
      forall ps | T.Agree(ps, old(params))
        ensures T.Agree(Q.Set(ps, tag, value), params) <==> |Q.GetAll(ps, tag)| <= 1
      {
        T.SetKeepsAgreement(ps, old(params), tag, value);
      }
    }

    /** The tag has one value more, after the others, and every other tag reads as before. Any file that
        agreed with the table and is added to in the same way agrees still. */
    method Add(tag: string, value: string)
      modifies this
      ensures T.GetAll(params, tag) == T.GetAll(old(params), tag) + [value]
      ensures forall other | other != tag :: T.GetAll(params, other) == T.GetAll(old(params), other)
      ensures params.Keys == old(params.Keys) + {tag}
      ensures forall ps | T.Agree(ps, old(params)) :: T.Agree(Q.Add(ps, tag, value), params)
    {
      var existing := if tag in params then params[tag] else [];
      params := params[tag := existing + [value]];
      forall ps | T.Agree(ps, old(params)) ensures T.Agree(Q.Add(ps, tag, value), params) {
        T.AddKeepsAgreement(ps, old(params), tag, value);
      }
    }
  }
}
