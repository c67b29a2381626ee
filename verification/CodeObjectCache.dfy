/** The cache of code objects, a sorted array searched by bisection, refines a finite map. */
module CodeObjectCaches {
  import opened Options

  type CodeObject = int

  datatype Entry = Entry(codeLine: int, codeObject: CodeObject)

  const CHUNK: nat := 64

  ghost predicate StrictlySorted(s: seq<Entry>) {
    forall i, j :: 0 <= i < j < |s| ==> s[i].codeLine < s[j].codeLine
  }

  /** `s` lists exactly the pairs of `m`. */
  ghost predicate Lists(s: seq<Entry>, m: map<int, CodeObject>) {
    && (forall i :: 0 <= i < |s| ==> s[i].codeLine in m && m[s[i].codeLine] == s[i].codeObject)
    && (forall line :: line in m ==> Has(s, line))
  }

  ghost predicate Has(s: seq<Entry>, line: int) {
    exists i :: 0 <= i < |s| && s[i].codeLine == line
  }

  ghost predicate LowerBound(s: seq<Entry>, line: int, pos: nat) {
    && pos <= |s|
    && (forall i :: 0 <= i < pos ==> s[i].codeLine < line)
    && (forall i :: pos <= i < |s| ==> line <= s[i].codeLine)
  }

  /** On a sorted table there is one lower bound, and it decides membership. */
  lemma LowerBoundDecides(s: seq<Entry>, m: map<int, CodeObject>, line: int, pos: nat)
    requires StrictlySorted(s) && Lists(s, m) && LowerBound(s, line, pos)
    ensures line in m <==> pos < |s| && s[pos].codeLine == line
    ensures forall other: nat :: LowerBound(s, line, other) ==> other == pos
  {
    if line in m {
      var i :| 0 <= i < |s| && s[i].codeLine == line;
      assert pos <= i;
      assert s[pos].codeLine <= line;
    }
    forall other: nat | LowerBound(s, line, other) ensures other == pos {
      var atOther := if other < |s| then s[other].codeLine else line;
      var atPos := if pos < |s| then s[pos].codeLine else line;
      assert line <= atOther && line <= atPos;
    }
  }

  lemma InsertedLists(s: seq<Entry>, m: map<int, CodeObject>, pos: nat, e: Entry)
    requires StrictlySorted(s) && Lists(s, m) && LowerBound(s, e.codeLine, pos) && e.codeLine !in m
    ensures StrictlySorted(s[..pos] + [e] + s[pos..])
    ensures Lists(s[..pos] + [e] + s[pos..], m[e.codeLine := e.codeObject])
  {
    var t := s[..pos] + [e] + s[pos..];
    forall line | line in m[e.codeLine := e.codeObject] ensures Has(t, line) {
      if line == e.codeLine {
        assert t[pos].codeLine == line;
      } else {
        var i :| 0 <= i < |s| && s[i].codeLine == line;
        assert t[if i < pos then i else i + 1].codeLine == line;
      }
    }
    LowerBoundDecides(s, m, e.codeLine, pos);
  }

  lemma ReplacedLists(s: seq<Entry>, m: map<int, CodeObject>, pos: nat, e: Entry)
    requires StrictlySorted(s) && Lists(s, m) && pos < |s| && s[pos].codeLine == e.codeLine
    ensures StrictlySorted(s[pos := e]) && Lists(s[pos := e], m[e.codeLine := e.codeObject])
  {
    var t := s[pos := e];
    forall line | line in m[e.codeLine := e.codeObject] ensures Has(t, line) {
      var i :| 0 <= i < |s| && s[i].codeLine == line;
      assert t[i].codeLine == line;
    }
  }

  /** The bisection returns the lower bound; it reads the last entry first, so the table must not be empty. */
  method Bisect(entries: array<Entry>, count: nat, codeLine: int) returns (pos: nat)
    requires 0 < count <= entries.Length && StrictlySorted(entries[..count])
    ensures LowerBound(entries[..count], codeLine, pos)
  {
    var start, mid, end := 0, 0, count - 1;
    if codeLine > entries[end].codeLine {
      return count;
    }
    while start < end
      invariant 0 <= start <= end < count && 0 <= mid < count
      invariant codeLine <= entries[end].codeLine
      invariant forall i :: 0 <= i < start ==> entries[i].codeLine < codeLine
      invariant start == end ==> mid == end || mid + 1 == start
    {
      mid := start + (end - start) / 2;
      if codeLine < entries[mid].codeLine {
        end := mid;
      } else if codeLine > entries[mid].codeLine {
        forall i | 0 <= i <= mid ensures entries[i].codeLine < codeLine {
          assert entries[..count][i].codeLine <= entries[..count][mid].codeLine;
        }
        start := mid + 1;
      } else {
        AtIsLowerBound(entries[..count], codeLine, mid);
        return mid;
      }
    }
    if codeLine <= entries[mid].codeLine {
      BetweenIsLowerBound(entries[..count], codeLine, mid);
      pos := mid;
    } else {
      BetweenIsLowerBound(entries[..count], codeLine, mid + 1);
      pos := mid + 1;
    }
  }

  lemma AtIsLowerBound(s: seq<Entry>, line: int, pos: nat)
    requires StrictlySorted(s) && pos < |s| && s[pos].codeLine == line
    ensures LowerBound(s, line, pos)
  {
  }

  lemma BetweenIsLowerBound(s: seq<Entry>, line: int, pos: nat)
    requires StrictlySorted(s) && pos < |s| && line <= s[pos].codeLine
    requires pos > 0 ==> s[pos - 1].codeLine < line
    ensures LowerBound(s, line, pos)
  {
    forall i | 0 <= i < pos ensures s[i].codeLine < line {
      assert s[i].codeLine <= s[pos - 1].codeLine;
    }
    forall i | pos <= i < |s| ensures line <= s[i].codeLine {
      assert s[pos].codeLine <= s[i].codeLine;
    }
  }

  class CodeObjectCache {
    var count: nat
    var maxCount: nat
    var entries: array?<Entry>
    ghost var contents: map<int, CodeObject>

    ghost predicate Valid()
      reads this, entries
    {
      && 0 !in contents
      && (entries == null ==> count == 0 && maxCount == 0 && contents == map[])
      && (entries != null ==>
            && 0 < count <= maxCount == entries.Length
            && StrictlySorted(entries[..count]) && Lists(entries[..count], contents))
    }

    constructor ()
      ensures Valid() && contents == map[]
    {
      count, maxCount, entries, contents := 0, 0, null, map[];
    }

    method Find(codeLine: int) returns (found: Option<CodeObject>)
      requires Valid()
      ensures found == if codeLine in contents then Some(contents[codeLine]) else None
    {
      if codeLine == 0 || entries == null {
        return None;
      }
      var pos := Bisect(entries, count, codeLine);
      LowerBoundDecides(entries[..count], contents, codeLine, pos);
      if pos >= count || entries[pos].codeLine != codeLine {
        return None;
      }
      found := Some(entries[pos].codeObject);
    }

    /** When an insertion takes effect: never for line 0, and not when needed memory is missing. */
    ghost predicate Accepts(codeLine: int, memory: bool)
      reads this
    {
      codeLine != 0 && (codeLine in contents || count < maxCount || memory)
    }

    method Insert(codeLine: int, codeObject: CodeObject, memory: bool)
      requires Valid()
      modifies this, entries
      ensures Valid()
      ensures contents ==
        if old(Accepts(codeLine, memory)) then old(contents)[codeLine := codeObject] else old(contents)
      ensures maxCount == if old(count == maxCount) && memory && codeLine != 0 && codeLine !in old(contents)
                          then old(maxCount) + CHUNK else old(maxCount)
    {
      var e := Entry(codeLine, codeObject);
      if codeLine == 0 {
        return;
      }
      if entries == null {
        if memory {
          InsertFirst(e);
        }
        return;
      }
      var pos := Bisect(entries, count, codeLine);
      LowerBoundDecides(entries[..count], contents, codeLine, pos);
      hide StrictlySorted, Lists, LowerBound;
      if pos < count && entries[pos].codeLine == codeLine {
        Replace(pos, e);
        return;
      }
      if count == maxCount {
        if !memory {
          return;
        }
        Grow(e);
      }
      InsertNew(pos, e);
    }

    method InsertFirst(e: Entry)
      requires Valid() && entries == null && e.codeLine != 0
      modifies this
      ensures Valid() && fresh(entries) && contents == map[e.codeLine := e.codeObject] && maxCount == CHUNK
    {
      entries := new Entry[CHUNK](_ => e);
      maxCount, count := CHUNK, 1;
      contents := map[e.codeLine := e.codeObject];
      assert entries[..count] == [e];
      assert [e][0].codeLine == e.codeLine;
    }

    method Replace(pos: nat, e: Entry)
      requires Valid() && pos < count && entries[pos].codeLine == e.codeLine && e.codeLine in contents
      modifies entries, `contents
      ensures Valid() && contents == old(contents)[e.codeLine := e.codeObject]
    {
      ReplacedLists(entries[..count], contents, pos, e);
      entries[pos] := e;
      contents := contents[e.codeLine := e.codeObject];
      assert entries[..count] == old(entries[..count])[pos := e];
      hide StrictlySorted, Lists;
    }

    method InsertNew(pos: nat, e: Entry)
      requires Valid() && entries != null && count < maxCount
      requires LowerBound(entries[..count], e.codeLine, pos) && e.codeLine !in contents && e.codeLine != 0
      modifies entries, `count, `contents
      ensures Valid() && contents == old(contents)[e.codeLine := e.codeObject]
    {
      ghost var before := entries[..count];
      InsertedLists(before, contents, pos, e);
      ShiftIn(pos, e);
      contents := contents[e.codeLine := e.codeObject];
      hide StrictlySorted, Lists, LowerBound;
    }

    /** The reallocation keeps the entries. */
    method Grow(filler: Entry)
      requires entries != null && count <= maxCount == entries.Length
      modifies this`entries, this`maxCount
      ensures entries != null && fresh(entries) && maxCount == old(maxCount) + CHUNK == entries.Length
      ensures entries[..count] == old(entries[..count])
    {
      var previous := entries;
      var bigger := new Entry[maxCount + CHUNK](_ => filler);
      forall i | 0 <= i < previous.Length {
        bigger[i] := previous[i];
      }
      entries, maxCount := bigger, maxCount + CHUNK;
    }

    /** Move the tail up by one place, from the end, and write the new entry into the gap. */
    method ShiftIn(pos: nat, e: Entry)
      requires entries != null && pos <= count < entries.Length
      modifies entries, `count
      ensures count == old(count) + 1
      ensures entries[..count] == old(entries[..count])[..pos] + [e] + old(entries[..count])[pos..]
    {
      ghost var before := entries[..count];
      var i, last := count, count;
      while i > pos
        invariant pos <= i <= last == count == |before|
        invariant forall k :: 0 <= k <= i && k < last ==> entries[k] == before[k]
        invariant forall k :: i < k <= last ==> entries[k] == before[k - 1]
        modifies entries
      {
        entries[i] := entries[i - 1];
        i := i - 1;
      }
      entries[pos] := e;
      count := count + 1;
      ShiftedIs(before, entries[..count], pos, e);
    }
  }

  lemma ShiftedIs(before: seq<Entry>, after: seq<Entry>, pos: nat, e: Entry)
    requires pos <= |before| && |after| == |before| + 1 && after[pos] == e
    requires forall k :: 0 <= k < pos ==> after[k] == before[k]
    requires forall k :: pos < k < |after| ==> after[k] == before[k - 1]
    ensures after == before[..pos] + [e] + before[pos..]
  {
  }
}
