/** The compressed B-tree: a cursor that decompresses the chunks of an ordinary B-tree,
    merges sorted streams into them and walks them. */
module CompressedBtree {
  import opened ByteStrings
  import opened IntCodec
  import opened PairCodec
  import opened SortedPairs
  import opened BtreeSteps
  import opened BtreeSearch

  class Cursor {
    const ord: Order
    const ovflsize: nat

    // The underlying B-tree, and the run that each chunk stands for.
    var chunks: seq<Chunk>
    ghost var runs: seq<Run>

    // The decompression window: two slots, pointers into them, and byte offsets
    // into the chunk being read. Offset 0 is the source's null pointer.
    var key1: Pair
    var key2: Pair
    var current: Dbt
    var prev: Dbt
    var compressed: Bytes
    var compcursor: nat
    var prevcursor: nat
    var prev2cursor: nat
    ghost var run: Run
    ghost var at: nat

    // The chunk the underlying cursor is on, and whether the entry that this
    // cursor was on has been deleted under it.
    var dbpos: nat
    var deleted: bool

    // The chunk being written by a merge, its input slots, the place among the
    // stored runs where it belongs, and the first entry of the chunk being read
    // that is still to be merged.
    var ikey1: Pair
    var ikey2: Pair
    var pdest: Pair
    var destkey: Item
    var destbuf: Bytes
    var prevDest: Dbt
    ghost var pending: seq<Pair>
    ghost var lo: nat
    ghost var from: nat

    constructor (ord: Order, ovflsize: nat)
      ensures this.ord == ord && this.ovflsize == ovflsize
      ensures Valid() && Contents() == [] && Positioned() && Where() == Fresh
    {
      this.ord, this.ovflsize := ord, ovflsize;
      var nil := Pair([], []);
      chunks, runs := [], [];
      key1, key2, ikey1, ikey2, pdest := nil, nil, nil, nil, nil;
      current, prev, prevDest := Null, Null, Null;
      compressed, compcursor, prevcursor, prev2cursor := [], 0, 0, 0;
      run, at := [nil], 0;
      destkey, destbuf, pending, lo, from := [], [], [], 0, 0;
      dbpos, deleted := 0, false;
    }

    /** The pair in one of the window's slots, or in one of the input slots. */
    function Slot(p: Dbt): Pair
      reads this`key1, this`key2
    {
      if p == Key1 then key1 else key2
    }

    function Input(p: Dbt): Pair
      reads this`ikey1, this`ikey2
    {
      if p == Ikey1 then ikey1 else ikey2
    }

    function Deref(p: Dbt): Pair
      reads this`key1, this`key2, this`ikey1, this`ikey2, this`pdest
    {
      match p
      case Key1 => key1
      case Key2 => key2
      case Ikey1 => ikey1
      case Ikey2 => ikey2
      case _ => pdest
    }

    ghost predicate Stored()
      reads this`chunks, this`runs
    {
      StoredAs(chunks, runs, ovflsize)
    }

    ghost function Contents(): seq<Pair>
      reads this`runs
    {
      Flatten(runs)
    }

    ghost predicate Valid()
      reads this`chunks, this`runs
    {
      Stored() && Sorted(ord, Contents())
    }

    // ---------- decompression ----------

    /** The window shows `run[at]`, and `run[at - 1]` when the previous slot is live. */
    ghost predicate Window()
      reads this`run, this`at, this`compressed, this`current, this`prev, this`compcursor, this`prevcursor,
        this`prev2cursor, this`key1, this`key2
    {
      && at < |run| && compressed == EncodeRun(run)
      && (current == Key1 || current == Key2) && Slot(current) == run[at]
      && compcursor == EndOf(run, at) && prevcursor == StartOf(run, at)
      && (prev == Null || (
           && at > 0 && prev == OtherKey(current)
           && Slot(prev) == run[at - 1] && prev2cursor == StartOf(run, at - 1)))
    }

    method StartDecompress() returns (ret: Status)
      requires compressed == EncodeRun(run) && key1.key == run[0].key
      modifies this`key1, this`current, this`prev, this`compcursor, this`prevcursor, this`prev2cursor, this`at
      ensures ret == Ok && Window() && at == 0 && prev == Null && current == Key1
    {
      hide Rank, Encode, Marshal, Unmarshal;
      EncodeRunSplit(run, 1);
      assert run[..1] == [run[0]];
      assert EncodeRun(run[..1]) == Marshal(run[0].data);
      UnmarshalMarshal(run[0].data, EncodeFrom(run, 1));

      prev, current := Null, Key1;
      prevcursor, prev2cursor := 0, 0;
      at := 0;
      var r := Unmarshal(compressed);
      if r.Invalid? { return Corrupt; }
      key1 := Pair(key1.key, r.pair.data);
      compcursor := r.used;
      return Ok;
    }

    /** A window that has moved one entry on. */
    lemma {:induction false} MovedOn()
      requires 0 < at < |run| && compressed == EncodeRun(run)
      requires (current == Key1 || current == Key2) && prev == OtherKey(current)
      requires Slot(current) == run[at] && Slot(prev) == run[at - 1]
      requires compcursor == EndOf(run, at) && prevcursor == EndOf(run, at - 1) && prev2cursor == StartOf(run, at - 1)
      ensures Window()
    {
      hide EncodeRun, EndOf;
    }

    method NextDecompress() returns (ret: Status)
      requires Window()
      modifies this`key1, this`key2, this`current, this`prev, this`compcursor, this`prevcursor, this`prev2cursor,
        this`at
      ensures ret == if old(at) + 1 < |run| then Ok else NotFound
      ensures ret == Ok ==> Window() && at == old(at) + 1 && prev == old(current)
      ensures ret == NotFound ==> at == old(at) && unchanged(this)
      ensures old(current) == Key1 ==> key1 == old(key1)
      ensures old(current) == Key2 ==> key2 == old(key2)
    {
      hide Rank, Encode, EncodeRun, EncodeFrom, Decode, EndOf, StartOf;
      EntryAt(run, at);
      if compcursor >= |compressed| {
        return NotFound;
      }
      NextEntry(run, at);
      assert current == Key1 || current == Key2;
      assert Slot(current) == run[at] && compressed == EncodeRun(run);
      assert compcursor == EndOf(run, at) && prevcursor == StartOf(run, at);
      hide Window;
      prev := current;
      prev2cursor := prevcursor;
      prevcursor := compcursor;
      current := OtherKey(current);
      var r := Decode(Deref(prev), compressed[compcursor..]);
      if r.Invalid? { return Corrupt; }
      if current == Key1 { key1 := r.pair; } else { key2 := r.pair; }
      compcursor := compcursor + r.used;
      at := at + 1;
      MovedOn();
      return Ok;
    }

    // ---------- walking ----------

    /** A positioned cursor shows an entry of the chunk the underlying cursor is on. */
    ghost predicate Positioned()
      reads this`run, this`at, this`compressed, this`current, this`prev, this`compcursor, this`prevcursor,
        this`prev2cursor, this`key1, this`key2, this`runs, this`dbpos
    {
      if current == Null then prev == Null else Window() && dbpos < |runs| && run == runs[dbpos]
    }

    /** Where the cursor stands in the flattened contents. */
    ghost function Where(): Place
      reads this`runs, this`dbpos, this`at, this`current, this`deleted
    {
      if current == Null || dbpos > |runs| then (if deleted then Gap(|Flatten(runs)|) else Fresh)
      else
        var i := |Flatten(runs[..dbpos])| + at;
        if deleted then Gap(i) else On(i)
    }

    /** Reads the chunk at `k` into the window's buffers, if there is one. */
    method FetchChunk(k: int) returns (ret: Status)
      requires Stored()
      modifies this`dbpos, this`key1, this`compressed, this`run
      ensures ret == if 0 <= k < |runs| then Ok else NotFound
      ensures ret == NotFound ==> unchanged(this)
      ensures ret == Ok ==> dbpos == k && run == runs[k] && compressed == EncodeRun(run) && key1.key == run[0].key
    {
      hide EncodeRun, Encode;
      if k < 0 || k >= |chunks| { return NotFound; }
      dbpos := k;
      key1 := Pair(chunks[k].key, key1.data);
      compressed := chunks[k].buf;
      run := runs[k];
      return Ok;
    }

    method Reset()
      modifies this`current, this`prev, this`compcursor, this`prevcursor, this`prev2cursor, this`deleted
      ensures current == Null && prev == Null && !deleted
    {
      prev, current := Null, Null;
      compcursor, prevcursor, prev2cursor, deleted := 0, 0, 0, false;
    }

    /** The cursor stands on entry `i`, and the current slot reads it. */
    ghost predicate Reads(i: nat)
      reads this`run, this`at, this`compressed, this`current, this`prev, this`compcursor, this`prevcursor,
        this`prev2cursor, this`key1, this`key2, this`runs, this`dbpos, this`deleted
    {
      Positioned() && Where() == On(i) && i < |Contents()| && Slot(current) == Contents()[i]
    }

    /** A window on the chunk that the underlying cursor is on reads an entry of the
        contents. */
    lemma {:induction false} WindowReads()
      requires Window() && dbpos < |runs| && run == runs[dbpos] && !deleted
      ensures current != Null && Positioned() && Where() == On(|Flatten(runs[..dbpos])| + at) && Reads(Where().i)
    {
      hide EncodeRun, Flatten, EndOf, StartOf;
      PlaceInRuns(runs, dbpos, at);
    }

    /** Goes to the first entry of the chunk at `k`; past the last chunk, to nowhere. */
    method FirstOfNext(k: nat) returns (ret: Status)
      requires Stored() && !deleted && k <= |runs|
      modifies this`dbpos, this`deleted, this`compressed, this`run, this`at, this`key1, this`key2, this`current,
        this`prev, this`compcursor, this`prevcursor, this`prev2cursor
      ensures ret == if k < |runs| then Ok else NotFound
      ensures Positioned() && Where() == (if k < |runs| then On(|Flatten(runs[..k])|) else Fresh)
      ensures Where().On? ==> Reads(Where().i)
    {
      hide EncodeRun, Encode, Flatten, StoredAs, EndOf, StartOf, Window, Reads;
      ret := FetchChunk(k);
      if ret == NotFound {
        Reset();
        return;
      }
      ret := StartDecompress();
      WindowReads();
    }

    /** Goes to the next entry of the chunk; at its end, nothing happens. */
    method NextInChunk() returns (ret: Status)
      requires Positioned() && current != Null && !deleted
      modifies this`key1, this`key2, this`current, this`prev, this`compcursor, this`prevcursor, this`prev2cursor,
        this`at
      ensures ret == if old(at) + 1 < |run| then Ok else NotFound
      ensures ret == NotFound ==> unchanged(this)
      ensures Positioned()
      ensures ret == Ok ==> Where().On? && old(Where()).On? && Where().i == old(Where()).i + 1 && Reads(Where().i)
      ensures ret == Ok ==> Where().i < |Contents()|
    {
      hide EncodeRun, Encode, Flatten, StoredAs, EndOf, StartOf, Window;
      ret := NextDecompress();
      if ret == Ok { WindowReads(); }
    }

    /** Forgets that the entry the cursor was on is gone: the window is on the one after. */
    method Undelete()
      requires Positioned() && current != Null && deleted
      modifies this`deleted
      ensures Positioned() && old(Where()).Gap? && Where() == On(old(Where()).i) && Reads(Where().i)
    {
      hide EncodeRun, Flatten, EndOf, StartOf, Window, Reads;
      deleted := false;
      WindowReads();
    }

    /** DB_NEXT and DB_FIRST. */
    method GetNext() returns (ret: Status)
      requires Stored() && Positioned()
      modifies this`dbpos, this`deleted, this`compressed, this`run, this`at, this`key1, this`key2, this`current,
        this`prev, this`compcursor, this`prevcursor, this`prev2cursor
      ensures Positioned() && (Where(), ret) == NextPlace(|Contents()|, old(Where()))
      ensures Where().On? ==> Reads(Where().i)
    {
      hide EncodeRun, Encode, Flatten, StoredAs, EndOf, StartOf, Window, Reads;
      if current == Null {
        FlattenSize(runs);
      } else {
        Shows();
        PlaceInRuns(runs, dbpos, at);
      }
      if deleted {
        if current == Null { return NotFound; }
        Undelete();
        return Ok;
      }
      var k := 0;
      if current != Null {
        ret := NextInChunk();
        if ret != NotFound { return; }
        k := dbpos + 1;
      }
      if k < |runs| { PlaceInRuns(runs, k, 0); }
      ret := FirstOfNext(k);
    }

    /** Steps back to the stored previous entry. */
    method TakeStored()
      requires Window() && prev != Null
      modifies this`at, this`current, this`prev, this`compcursor, this`prevcursor, this`prev2cursor
      ensures Window() && at == old(at) - 1 && current != Null
    {
      hide EncodeRun, Encode, EndOf;
      current := prev;
      compcursor := prevcursor;
      prev := Null;
      prevcursor := prev2cursor;
      prev2cursor := 0;
      at := at - 1;
    }

    /** Decompresses the chunk from its start until the byte position `tofind` has
        been reached; `a` is the entry that ends there. */
    method DecompressTo(tofind: Target, ghost a: nat) returns (ret: Status)
      requires compressed == EncodeRun(run) && key1.key == run[0].key
      requires a < |run| && (if tofind.End? then a == |run| - 1 else tofind.offset == EndOf(run, a))
      modifies this`at, this`key1, this`key2, this`current, this`prev, this`compcursor, this`prevcursor,
        this`prev2cursor
      ensures ret == Ok && Window() && at == a
    {
      hide EncodeRun, Encode, EndOf, StartOf;
      ret := StartDecompress();
      while ret == Ok && (tofind.End? || tofind.offset > compcursor)
        invariant Window() && at <= a && (ret == Ok || (ret == NotFound && at == a))
        decreases ret == Ok, a - at
      {
        if at < a { EndMonotone(run, at, a); }
        ret := NextDecompress();
      }
      if at < a { EndMonotone(run, at, a); }
      if ret == NotFound { ret := Ok; }
    }

    /** Where the entry before the current one is to be found: the chunk to read, and
        where to stop decompressing it. */
    method PrevTarget() returns (k: int, tofind: Target, ghost a: nat)
      requires Stored() && Positioned() && prev == Null && !deleted
      ensures if 0 <= k < |runs| then
          && a < |runs[k]| && (if tofind.End? then a == |runs[k]| - 1 else tofind.offset == EndOf(runs[k], a))
          && PrevPlace(|Contents()|, Where()) == (On(|Flatten(runs[..k])| + a), Ok)
        else PrevPlace(|Contents()|, Where()) == (Where(), NotFound)
    {
      hide EncodeRun, Encode, Flatten, ChunkOf, Fits, EndOf;
      k, tofind, a := |chunks| - 1, End, 0;
      if current == Null {
        FlattenSize(runs);
        if k >= 0 { a := |runs[k]| - 1; }
      } else {
        PlaceInRuns(runs, dbpos, at);
        if prevcursor == 0 {
          k := dbpos - 1;
          if k >= 0 { a := |runs[k]| - 1; }
        } else {
          k, tofind, a := dbpos, Offset(prevcursor), at - 1;
        }
      }
    }

    /** Goes to the entry before, decompressing its chunk from the start. */
    method SearchBack() returns (ret: Status)
      requires Stored() && Positioned() && !deleted && prev == Null
      modifies this`dbpos, this`compressed, this`run, this`at, this`key1, this`key2, this`current,
        this`prev, this`compcursor, this`prevcursor, this`prev2cursor
      ensures Positioned() && (Where(), ret) == PrevPlace(|Contents()|, old(Where()))
      ensures old(Where()).On? || Where().On? ==> Where().On? && Reads(Where().i)
    {
      hide EncodeRun, Encode, Flatten, StoredAs, EndOf, StartOf, Window, PrevPlace, Reads;
      if current != Null {
        Shows();
        WindowReads();
      }
      var k, tofind, a := PrevTarget();
      ret := FetchChunk(k);
      if ret != Ok { return; }
      ret := DecompressTo(tofind, a);
      WindowReads();
    }

    /** Goes to the stored previous entry. */
    method StoredBack()
      requires Positioned() && !deleted && prev != Null
      modifies this`at, this`current, this`prev, this`compcursor, this`prevcursor, this`prev2cursor
      ensures Positioned() && old(Where()).On? && Where().On? && Where().i + 1 == old(Where()).i && Reads(Where().i)
    {
      hide EncodeRun, Flatten, EndOf, StartOf, Reads;
      TakeStored();
      hide Window;
      WindowReads();
    }

    /** Moves back one entry, from an entry or from nowhere. */
    method MoveBack() returns (ret: Status)
      requires Stored() && Positioned() && !deleted
      modifies this`dbpos, this`compressed, this`run, this`at, this`key1, this`key2, this`current,
        this`prev, this`compcursor, this`prevcursor, this`prev2cursor
      ensures Positioned() && (Where(), ret) == PrevPlace(|Contents()|, old(Where()))
      ensures Where().On? ==> Reads(Where().i)
    {
      hide EncodeRun, Encode, Flatten, StoredAs, EndOf, StartOf, Window, Reads;
      if prev != Null {
        Shows();
        PlaceInRuns(runs, dbpos, at);
        StoredBack();
        return Ok;
      }
      ret := SearchBack();
    }

    /** DB_PREV and DB_LAST. */
    method GetPrev() returns (ret: Status)
      requires Stored() && Positioned()
      modifies this`dbpos, this`deleted, this`compressed, this`run, this`at, this`key1, this`key2, this`current,
        this`prev, this`compcursor, this`prevcursor, this`prev2cursor
      ensures Positioned() && (Where(), ret) == PrevPlace(|Contents()|, old(Where()))
      ensures Where().On? ==> Reads(Where().i)
    {
      hide EncodeRun, Encode, Flatten, StoredAs, EndOf, StartOf, Window, Reads;
      FlattenSize(runs);
      if current != Null {
        Shows();
        PlaceInRuns(runs, dbpos, at);
      }
      deleted := false;
      ret := MoveBack();
    }

    /** Any sequence of steps moves the cursor as the same steps move an index. */
    method Walk(steps: seq<Step>) returns (rets: seq<Status>)
      requires Stored() && Positioned()
      modifies this`dbpos, this`deleted, this`compressed, this`run, this`at, this`key1, this`key2, this`current,
        this`prev, this`compcursor, this`prevcursor, this`prev2cursor
      ensures Positioned() && (Where(), rets) == WalkPlaces(|Contents()|, old(Where()), steps)
      ensures Where().On? && steps != [] ==> Reads(Where().i)
    {
      hide EncodeRun, Encode, Flatten, StoredAs, EndOf, StartOf, Window, Where, Positioned, Reads, NextPlace,
        PrevPlace;
      rets := [];
      for i := 0 to |steps|
        invariant Positioned() && (Where(), rets) == WalkPlaces(|Contents()|, old(Where()), steps[..i])
        invariant Where().On? && i > 0 ==> Reads(Where().i)
      {
        var ret;
        if steps[i] == Next { ret := GetNext(); } else { ret := GetPrev(); }
        rets := rets + [ret];
        assert steps[..i + 1][..i] == steps[..i];
      }
      assert steps[..|steps|] == steps;
    }

    // ---------- looking up ----------

    /** Reads the chunk where the search for a key or a pair has to start. */
    method SeekFor(s: Sought) returns (ret: Status)
      requires Stored()
      modifies this`dbpos, this`key1, this`compressed, this`run
      ensures ret == if runs == [] then NotFound else Ok
      ensures ret == Ok ==>
        && dbpos == StartsAt(s, Firsts(chunks)) && dbpos < |runs| && run == runs[dbpos]
        && compressed == EncodeRun(run) && key1.key == run[0].key
    {
      hide EncodeRun, Encode, CompareKey, FirstOf, Fits;
      var j := LandsOn(s, Firsts(chunks));
      ret := FetchChunk(j);
      if ret == Ok && ByKey(s) && CompareKey(s, key1.key) == 0 {
        FirstOfChunk(runs[j]);
        ret := FetchChunk(j - 1);
        if ret == NotFound { ret := FetchChunk(0); }
      } else if ret == Ok {
        FirstOfChunk(runs[j]);
      } else {
        ret := FetchChunk(0);
      }
    }

    /** Goes to the next entry, of this chunk or of the next one. */
    method SearchNext(ghost i: nat) returns (ret: Status)
      requires Stored() && Where() == On(i) && Reads(i)
      modifies this`dbpos, this`key1, this`key2, this`current, this`prev, this`compressed, this`compcursor,
        this`prevcursor, this`prev2cursor, this`run, this`at
      ensures ret == if i + 1 < |Contents()| then Ok else NotFound
      ensures ret == Ok ==> Where() == On(i + 1) && Reads(i + 1)
    {
      hide EncodeRun, Encode, Flatten, StoredAs, EndOf, StartOf, Window, Positioned, Where, Reads, StartsRun;
      InRun(i);
      ret := NextInChunk();
      if ret == NotFound { ret := NextChunk(i + 1); }
    }

    /** The chunk at `k`, or the end, starts at entry `i` of the contents. */
    ghost predicate StartsRun(k: nat, i: nat)
      reads this`runs
    {
      k <= |runs| && i == |Flatten(runs[..k])| && (if k < |runs| then i < |Contents()| else i == |Contents()|)
    }

    lemma {:induction false} InRun(i: nat)
      requires Where() == On(i) && Reads(i)
      ensures Positioned() && current != Null && !deleted && dbpos < |runs| && at < |run|
      ensures at + 1 == |run| ==> StartsRun(dbpos + 1, i + 1)
    {
      hide Flatten, EncodeRun;
      PlaceInRuns(runs, dbpos, at);
      if dbpos + 1 < |runs| { PlaceInRuns(runs, dbpos + 1, 0); }
    }

    /** Goes to the first entry of the next chunk. */
    method NextChunk(ghost i: nat) returns (ret: Status)
      requires Stored() && !deleted && dbpos < |runs| && StartsRun(dbpos + 1, i)
      modifies this`dbpos, this`key1, this`current, this`prev, this`compressed, this`compcursor, this`prevcursor,
        this`prev2cursor, this`run, this`at
      ensures ret == if i < |Contents()| then Ok else NotFound
      ensures ret == Ok ==> Where() == On(i) && Reads(i)
    {
      hide EncodeRun, Encode, Flatten, StoredAs, EndOf, StartOf, Window, Reads;
      ret := FetchChunk(dbpos + 1);
      if ret == Ok {
        ret := StartDecompress();
        WindowReads();
      }
    }

    /** No entry before the one that the cursor stands on, or none at all once there are
        no more, is what is looked for. */
    ghost predicate Searched(s: Sought, ret: Status)
      reads this`run, this`at, this`compressed, this`current, this`prev, this`compcursor, this`prevcursor,
        this`prev2cursor, this`key1, this`key2, this`runs, this`dbpos, this`deleted
    {
      && (ret == Ok || ret == NotFound)
      && (ret == Ok ==> Where().On? && Reads(Where().i) && Where().i < |Contents()|)
      && forall i :: 0 <= i < (if ret == Ok then Where().i else |Contents()|) ==> CompareBoth(s, Contents()[i]) < 0
    }

    /** Goes to where the search starts. */
    method SearchStart(s: Sought) returns (ret: Status)
      requires Valid() && Agrees(ord, s)
      modifies this`dbpos, this`deleted, this`key1, this`key2, this`current, this`prev, this`compressed,
        this`compcursor, this`prevcursor, this`prev2cursor, this`run, this`at
      ensures Searched(s, ret) && (ret == Ok || ret == NotFound)
    {
      hide EncodeRun, Encode, Flatten, StoredAs, EndOf, StartOf, Window, CompareBoth, CompareKey, Sorted, Agrees,
        StartsAt;
      deleted := false;
      FlattenSize(runs);
      ret := SeekFor(s);
      if ret != Ok { return; }
      StartSkips(ord, chunks, runs, ovflsize, s);
      ret := StartDecompress();
      WindowReads();
    }

    lemma {:induction false} SearchedFurther(s: Sought, i: nat)
      requires i < |Contents()| && CompareBoth(s, Contents()[i]) < 0
      requires forall k :: 0 <= k < i ==> CompareBoth(s, Contents()[k]) < 0
      ensures i + 1 == |Contents()| ==> Searched(s, NotFound)
      ensures Where() == On(i + 1) && Reads(i + 1) ==> Searched(s, Ok)
    {
      hide Flatten, Window, Where, CompareBoth;
    }

    lemma {:induction false} SearchedAt(s: Sought)
      requires Searched(s, Ok)
      ensures Where().On? && Reads(Where().i) && Where().i < |Contents()| && Slot(current) == Contents()[Where().i]
      ensures forall k :: 0 <= k < Where().i ==> CompareBoth(s, Contents()[k]) < 0
    {
      hide Flatten, Window, CompareBoth, Where;
    }

    lemma {:induction false} SearchEnds(m: GetMethod, s: Sought, ret: Status)
      requires Searched(s, ret) && (ret == Ok ==> CompareBoth(s, Slot(current)) >= 0)
      ensures LookUp(m, s, Contents()) == if ret == Ok && Accepts(m, s, Slot(current)) then Where() else Fresh
      ensures ret == Ok ==> Where().On? && Reads(Where().i)
    {
      hide Flatten, Window, CompareBoth, Where, Accepts;
      LowerBoundUnique(s, Contents(), if ret == Ok then Where().i else |Contents()|);
    }

    /** The seek, and the linear search from there. */
    method Search(m: GetMethod, s: Sought) returns (ret: Status)
      requires Valid() && Agrees(ord, s)
      modifies this`dbpos, this`deleted, this`key1, this`key2, this`current, this`prev, this`compressed,
        this`compcursor, this`prevcursor, this`prev2cursor, this`run, this`at
      ensures ret == if LookUp(m, s, Contents()).On? then Ok else NotFound
      ensures ret == Ok ==> Where() == LookUp(m, s, Contents()) && Reads(Where().i)
    {
      hide Flatten, StoredAs, Searched, Where, Positioned, Reads, CompareBoth, Accepts, LookUp, Sorted, Agrees;
      ret := SearchStart(s);
      while ret == Ok && CompareBoth(s, Slot(current)) < 0
        invariant Stored() && Searched(s, ret) && (ret == Ok || ret == NotFound)
        decreases ret == Ok, |Contents()| - if Where().On? then Where().i else 0
      {
        SearchedAt(s);
        ghost var i := Where().i;
        ret := SearchNext(i);
        SearchedFurther(s, i);
      }
      SearchEnds(m, s, ret);
      if ret == Ok && !Accepts(m, s, Slot(current)) { ret := NotFound; }
    }

    /** Looks up a key or a pair: DB_SET, DB_SET_RANGE, DB_GET_BOTH and
        DB_GET_BOTH_RANGE. The cursor is left on the first entry asked for, if there is
        one. */
    method GetSet(m: GetMethod, s: Sought) returns (ret: Status)
      requires Valid() && Agrees(ord, Seeking(m, s))
      modifies this`dbpos, this`deleted, this`key1, this`key2, this`current, this`prev, this`compressed,
        this`compcursor, this`prevcursor, this`prev2cursor, this`run, this`at
      ensures ret == Ok || ret == NotFound
      ensures ret == Ok ==> Where().On? && Where().i < |Contents()| && Reads(Where().i)
      ensures m.Set? ==>
        var t, key := Contents(), s.keyCmp;
        && (ret == Ok <==> exists i :: 0 <= i < |t| && key(t[i].key) == 0)
        && (ret == Ok ==> key(t[Where().i].key) == 0 && forall i :: 0 <= i < Where().i ==> key(t[i].key) != 0)
      ensures m.SetRange? ==>
        var t, key := Contents(), s.keyCmp;
        && (ret == Ok <==> exists i :: 0 <= i < |t| && key(t[i].key) >= 0)
        && (ret == Ok ==> key(t[Where().i].key) >= 0 && forall i :: 0 <= i < Where().i ==> key(t[i].key) < 0)
      ensures m.GetBoth? ==>
        var t, key, data := Contents(), s.keyCmp, s.dataCmp;
        && (ret == Ok <==> exists i :: 0 <= i < |t| && key(t[i].key) == 0
                                       && if s.dupsort then data(t[i].data) == 0 else t[i].data == s.data)
        && (ret == Ok ==> var e := t[Where().i];
                          key(e.key) == 0 && if s.dupsort then data(e.data) == 0 else e.data == s.data)
      ensures m.GetBothRange? ==>
        var t, key, data := Contents(), s.keyCmp, s.dataCmp;
        && (ret == Ok <==> exists i :: 0 <= i < |t| && key(t[i].key) == 0 && (s.dupsort ==> data(t[i].data) >= 0))
        && (ret == Ok ==> var e := t[Where().i];
              && key(e.key) == 0 && (s.dupsort ==> data(e.data) >= 0)
              && forall i :: 0 <= i < Where().i ==>
                   !(key(t[i].key) == 0 && (s.dupsort ==> data(t[i].data) >= 0)))
    {
      hide Flatten, StoredAs, Where, Positioned, Reads, CompareBoth, Accepts, LookUp, Sorted, Agrees;
      ret := Search(m, Seeking(m, s));
      match m
      case Set => SetFinds(ord, s, Contents());
      case SetRange => SetRangeFinds(ord, s, Contents());
      case GetBoth => GetBothFinds(ord, s, Contents());
      case GetBothRange => GetBothRangeFinds(ord, s, Contents());
    }

    // ---------- writing a chunk ----------

    /** The chunk being written holds `pending`, and the pointer to the last pair
        stored still reads that pair. */
    ghost predicate Dest()
      reads this`pending, this`prevDest, this`destkey, this`destbuf, this`key1, this`key2, this`ikey1, this`ikey2,
        this`pdest
    {
      && (pending == [] <==> prevDest == Null)
      && (pending != [] ==>
           && destkey == pending[0].key && destbuf == EncodeRun(pending)
           && Deref(prevDest) == pending[|pending| - 1]
           && Fits(pending, ovflsize))
    }

    /** Everything stored before the place where the merge is working. */
    ghost function Done(): seq<Pair>
      reads this`lo, this`runs, this`pending
    {
      if lo <= |runs| then Flatten(runs[..lo]) + pending else []
    }

    /** Everything stored after it. */
    ghost function Ahead(): seq<Pair>
      reads this`lo, this`runs
    {
      if lo <= |runs| then Flatten(runs[lo..]) else []
    }

    method Store(src: Dbt) returns (ret: Status)
      requires Dest() && src != Null
      modifies this`destkey, this`destbuf, this`prevDest, this`pending
      ensures Dest() && (ret == Ok || ret == BufferSmall)
      ensures ret == Ok ==> pending == old(pending) + [Deref(src)] && prevDest == src
      ensures ret == BufferSmall ==> unchanged(this) && pending != []
      ensures ret == BufferSmall ==> |EncodeRun(pending + [Deref(src)])| > ovflsize
    {
      hide Rank, Encode, Marshal, EncodeRun;
      ghost var d := pending + [Deref(src)];
      EncodeRunStep(pending, Deref(src));
      if prevDest == Null {
        destkey := Deref(src).key;
        destbuf := Marshal(Deref(src).data);
      } else if ovflsize > |destbuf| {
        var w := Compress(Deref(prevDest), Deref(src), ovflsize - |destbuf|);
        if w.NoRoom? { return BufferSmall; }
        destbuf := destbuf + w.bytes;
      } else {
        return BufferSmall;
      }
      prevDest := src;
      pending := d;
      return Ok;
    }

    /** Puts the finished chunk into the B-tree; `x` is what is still to be merged. */
    method Flush(ghost x: seq<Pair>)
      requires Stored() && Dest() && pending != [] && lo <= |runs|
      requires Sorted(ord, Done() + x + Ahead())
      modifies this`chunks, this`runs, this`lo, this`destbuf, this`prevDest, this`pending
      ensures Stored() && Dest() && pending == [] && lo <= |runs|
      ensures Done() == old(Done()) && runs[lo..] == old(runs[lo..])
    {
      hide Rank, EncodeRun, Flatten, PutChunk, Position, FirstOf, Firsts, Sorted, StoredAs, Fits, Window;
      PlaceOf(ord, chunks, runs, ovflsize, lo, pending, x);
      chunks := PutChunk(ord, chunks, Chunk(destkey, destbuf));
      RunInserted(runs, lo, pending);
      runs := runs[..lo] + [pending] + runs[lo..];
      lo := lo + 1;
      prevDest, destbuf, pending := Null, [], [];
    }

    /** Stores one pair, starting a new chunk when the current one is full. */
    method StorePair(src: Dbt, ghost x: seq<Pair>)
      requires Stored() && Dest() && lo <= |runs| && src != Null
      requires Sorted(ord, Done() + x + Ahead())
      modifies this`chunks, this`runs, this`lo, this`destkey, this`destbuf, this`prevDest, this`pending
      ensures Stored() && Dest() && lo <= |runs| && prevDest == src && pending != []
      ensures Done() == old(Done()) + [Deref(src)] && runs[lo..] == old(runs[lo..])
    {
      hide Rank, EncodeRun, Flatten, Sorted;
      ghost var done := Done();
      var ret := Store(src);
      while ret == BufferSmall
        invariant Stored() && Dest() && lo <= |runs| && runs[lo..] == old(runs[lo..])
        invariant ret == Ok ==> prevDest == src && pending != [] && Done() == done + [Deref(src)]
        invariant ret != Ok ==> ret == BufferSmall && pending != [] && Done() == done
        decreases if ret == Ok then 0 else 1 + |pending|
      {
        Flush(x);
        ret := Store(src);
      }
    }

    // ---------- merging a sorted stream ----------

    /** Moves to the chunk that may hold `e`, takes it out of the B-tree and starts
        decompressing it. False when every chunk starts after `e`. */
    method OpenChunk(e: Pair) returns (found: bool, next: Next)
      requires Valid() && Dest() && pending == []
      modifies this`chunks, this`runs, this`lo, this`run, this`compressed, this`from,
        this`key1, this`current, this`prev, this`compcursor, this`prevcursor, this`prev2cursor, this`at
      ensures Opened(found, e, old(Contents())) && IsNext(next, Ahead())
      ensures !found ==> runs == old(runs) && chunks == old(chunks)
    {
      hide Rank, EncodeRun, FirstOf, Firsts, SeekLte, Flatten, StoredAs, Sorted, Above, Below, Fits, IsNext, Opened,
        Dest, Between;
      var j := SeekLte(ord, Firsts(chunks), e, |chunks|);
      SeekSplits(ord, chunks, runs, ovflsize, e, j);
      found := j >= 0;
      if found {
        LoadChunk(j, e);
      } else {
        LoadNone(e);
      }
      next := ReadNext(if found then j else 0);
    }

    /** A merge is about to start at `e`, in a chunk that starts at or before it when
        there is one; `all` is what the tree holds, that chunk included. */
    ghost predicate Opened(found: bool, e: Pair, all: seq<Pair>)
      reads this`chunks, this`lo, this`runs, this`pending, this`run, this`from, this`prevDest, this`destkey,
        this`destbuf, this`key1, this`key2, this`ikey1, this`ikey2, this`pdest, this`at, this`compressed,
        this`current, this`prev, this`compcursor, this`prevcursor, this`prev2cursor
    {
      && Merging() && Aligned(found) && All() == all && Between(ord, Done(), e, Ahead())
      && (found ==> from == 0 && Fits(run, ovflsize) && Rank(ord, run[0]) <= Rank(ord, e))
    }

    /** Nothing to decompress: every stored chunk is still ahead. */
    ghost method LoadNone(e: Pair)
      requires Valid() && Dest() && pending == [] && Above(ord, Flatten(runs[0..]), e)
      modifies this`lo, this`from
      ensures lo == 0 && Opened(false, e, Contents())
    {
      hide EncodeRun, Rank, Above, StoredAs, Sorted;
      lo, from := 0, |run|;
      assert runs[0..] == runs && runs[..0] == [];
      assert Done() == [] && All() == Contents();
    }

    /** Takes chunk `j` out of the B-tree and decompresses its first entry. */
    method LoadChunk(j: nat, ghost e: Pair)
      requires Valid() && j < |chunks| && Dest() && pending == []
      requires SplitAt(ord, runs, j, e)
      modifies this`chunks, this`runs, this`lo, this`run, this`compressed, this`from,
        this`key1, this`current, this`prev, this`compcursor, this`prevcursor, this`prev2cursor, this`at
      ensures lo == j <= |runs| && Stored() && Opened(true, e, old(Contents()))
    {
      hide Rank, EncodeRun, Unmarshal, Encode, FirstOf, Fits, Flatten, Sorted, Above, Below, Window, StoredAs;
      ghost var was := runs;
      RunRemoved(chunks, runs, ovflsize, j);
      key1 := Pair(chunks[j].key, key1.data);
      compressed, run, lo, from := chunks[j].buf, runs[j], j, 0;
      chunks, runs := chunks[..j] + chunks[j + 1..], runs[..j] + runs[j + 1..];
      var ret := StartDecompress();
      Reassembled(Flatten(was[..j]), Left(), Ahead());
    }

    /** Reads the first entry of the chunk the B-tree cursor moved to, if there is one. */
    method ReadNext(k: nat) returns (next: Next)
      requires Stored() && lo == k <= |runs|
      ensures IsNext(next, Ahead())
    {
      hide FirstOf, EncodeRun;
      if k == |chunks| { return NoNext; }
      FirstOfChunk(runs[lo]);
      return NextAt(FirstOf(chunks[k]));
    }

    /** Reads stream entries into slot `into` until one differs from the pair in the
        other input slot; `more` is false at the end of the stream. */
    method ReadDistinct(stream: seq<Pair>, start: nat, into: Dbt) returns (pos: nat, more: bool)
      requires start <= |stream| && (into == Ikey1 || into == Ikey2)
      modifies this`ikey1, this`ikey2
      ensures Deref(OtherInput(into)) == old(Deref(OtherInput(into)))
      ensures start <= pos <= |stream|
      ensures var rest := SkipEqual(ord, Deref(OtherInput(into)), stream[start..]);
        && (more <==> rest != [])
        && (more ==> pos > start && rest == stream[pos - 1..] && Deref(into) == rest[0])
    {
      pos, more := start, true;
      while true
        invariant start <= pos <= |stream|
        invariant Deref(OtherInput(into)) == old(Deref(OtherInput(into)))
        invariant SkipEqual(ord, Deref(OtherInput(into)), stream[pos..])
               == SkipEqual(ord, Deref(OtherInput(into)), stream[start..])
        decreases |stream| - pos
      {
        if pos == |stream| {
          more := false;
          break;
        }
        assert stream[pos..][1..] == stream[pos + 1..];
        if into == Ikey1 { ikey1 := stream[pos]; } else { ikey2 := stream[pos]; }
        pos := pos + 1;
        if Rank(ord, Deref(into)) != Rank(ord, Deref(OtherInput(into))) {
          break;
        }
      }
    }

    /** What the chunk being read still has to give. */
    ghost function Left(): seq<Pair>
      reads this`run, this`from
    {
      if from <= |run| then run[from..] else []
    }

    /** The contents a merge would leave if it stopped reading its stream now. */
    ghost function All(): seq<Pair>
      reads this`lo, this`runs, this`pending, this`run, this`from
    {
      Done() + Left() + Ahead()
    }

    ghost predicate Merging()
      reads this`chunks, this`lo, this`runs, this`pending, this`run, this`from, this`prevDest, this`destkey,
        this`destbuf, this`key1, this`key2, this`ikey1, this`ikey2, this`pdest
    {
      Stored() && Dest() && from <= |run| && lo <= |runs| && Sorted(ord, All())
    }

    /** Between two steps the window shows the next entry to be merged. */
    ghost predicate Aligned(moreCompressed: bool)
      reads this`run, this`at, this`compressed, this`current, this`prev, this`compcursor, this`prevcursor,
        this`prev2cursor, this`key1, this`key2, this`from
    {
      if moreCompressed then Window() && at == from else from == |run|
    }

    /** Moves on to the next entry of the chunk being read. */
    method Advance() returns (more: bool)
      requires Window() && at + 1 == from && Dest() && prevDest != OtherKey(current)
      modifies this`key1, this`key2, this`current, this`prev, this`compcursor, this`prevcursor, this`prev2cursor,
        this`at
      ensures Dest() && Aligned(more)
    {
      hide Rank, EncodeRun, Encode;
      var ret := NextDecompress();
      more := ret == Ok;
    }

    /** The input slot in use holds the next pair of the stream; `rest` is what the
        stream has still to give, that pair included. */
    ghost predicate InputAt(m: Locals, stream: seq<Pair>, rest: seq<Pair>)
      reads this`ikey1, this`ikey2
    {
      && (m.ikey == Ikey1 || m.ikey == Ikey2)
      && m.moreStream == (rest != []) && Ascending(ord, rest)
      && (m.moreStream ==> 1 <= m.pos <= |stream| && rest == stream[m.pos - 1..] && Input(m.ikey) == rest[0])
    }

    /** Reads the stream's next pair into the other input slot; the last pair stored was
        the one before it. */
    method NextInput(stream: seq<Pair>, m: Locals, ghost rest: seq<Pair>, ghost l: seq<Pair>) returns (m': Locals)
      requires IsNext(m.next, Ahead()) && Sorted(ord, Ahead()) && Dest() && prevDest == m.ikey
      requires InputAt(m, stream, rest) && rest != [] && Below(ord, l, rest[0])
      modifies this`ikey1, this`ikey2
      ensures Dest() && m'.ikey == OtherInput(m.ikey)
      ensures InputAt(m', stream, SkipEqual(ord, rest[0], rest[1..]))
      ensures m'.moreCompressed == m.moreCompressed && m'.next == m.next && m'.ret == m.ret
      ensures var rest' := SkipEqual(ord, rest[0], rest[1..]);
        m'.iSmallEnough ==> rest' != [] && Between(ord, l + [rest[0]], rest'[0], Ahead())
    {
      hide Rank, EncodeRun, Flatten, SkipEqual, Sorted, Below, Above, Ascending, Fits, Between, Ahead;
      ghost var rest' := SkipEqual(ord, rest[0], rest[1..]);
      NextRest(ord, stream, m.pos, rest);
      var ikey := OtherInput(m.ikey);
      var iSmallEnough := true;
      var pos, moreStream := ReadDistinct(stream, m.pos, ikey);
      if !moreStream {
        iSmallEnough := false;
      }
      if moreStream && m.next.NextAt? && Rank(ord, Deref(ikey)) >= Rank(ord, m.next.first) {
        iSmallEnough := false;
      }
      if iSmallEnough { NextBetween(ord, l, rest[0], rest'[0], Ahead()); }
      m' := m.(ikey := ikey, pos := pos, moreStream := moreStream, iSmallEnough := iSmallEnough);
    }

    /** Stores the input pair and reads the next one into the other slot. */
    method TakeInput(stream: seq<Pair>, m: Locals, ghost rest: seq<Pair>) returns (m': Locals)
      requires Merging() && IsNext(m.next, Ahead())
      requires InputAt(m, stream, rest) && rest != [] && prevDest != m.ikey && Below(ord, Done(), rest[0])
      modifies this`chunks, this`runs, this`lo, this`destkey, this`destbuf, this`prevDest, this`pending,
        this`ikey1, this`ikey2
      ensures Stored() && Dest() && lo <= |runs| && Ahead() == old(Ahead())
      ensures prevDest == m.ikey && m'.ikey == OtherInput(m.ikey)
      ensures Done() == old(Done()) + [rest[0]]
      ensures InputAt(m', stream, SkipEqual(ord, rest[0], rest[1..]))
      ensures m'.moreCompressed == m.moreCompressed && m'.next == m.next && m'.ret == m.ret
      ensures var rest' := SkipEqual(ord, rest[0], rest[1..]);
        m'.iSmallEnough ==> rest' != [] && Between(ord, Done(), rest'[0], Ahead())
    {
      hide Rank, EncodeRun, Flatten, SkipEqual, Sorted, Below, Above, Ascending, StoredAs, Fits, Between, IsNext, Dest;
      ghost var l := Done();
      SortedTail(ord, Done() + Left(), Ahead());
      assert Deref(m.ikey) == rest[0] && m.ikey != Null;
      StorePair(m.ikey, Left());
      m' := NextInput(stream, m, rest, l);
    }

    /** What every step of the insert merge keeps. */
    ghost predicate Inserting(m: Locals, stream: seq<Pair>, rest: seq<Pair>, goal: Fed, unique: bool)
      reads this`chunks, this`lo, this`runs, this`pending, this`run, this`from, this`prevDest, this`destkey,
        this`destbuf, this`key1, this`key2, this`ikey1, this`ikey2, this`pdest
    {
      && Merging() && IsNext(m.next, Ahead()) && InputAt(m, stream, rest) && prevDest != m.ikey
      && Meets(ord, goal, m.ret, All(), rest, unique)
      && (m.iSmallEnough ==> rest != [] && m.ret == Ok && Between(ord, Done(), rest[0], Ahead()))
    }

    /** What has to hold of the parts for a step of the insert merge to end well. */
    lemma {:induction false} InsertingIs(m: Locals, stream: seq<Pair>, rest: seq<Pair>, goal: Fed, unique: bool,
                                         l: seq<Pair>, left: seq<Pair>, t: seq<Pair>)
      requires Stored() && Dest() && from <= |run| && lo <= |runs| && Sorted(ord, l + left + t)
      requires Done() == l && Left() == left && Ahead() == t
      requires IsNext(m.next, t) && InputAt(m, stream, rest) && prevDest != m.ikey
      requires Meets(ord, goal, m.ret, l + left + t, rest, unique)
      requires m.iSmallEnough ==> rest != [] && m.ret == Ok && Between(ord, l, rest[0], t)
      ensures Inserting(m, stream, rest, goal, unique)
    {
      hide Rank, EncodeRun, Flatten, Sorted, Dest, StoredAs, Between, Meets, InsertAll, IsNext, InputAt;
    }

    /** Stores the chunk entry under the cursor. */
    method PassOn()
      requires Stored() && Dest() && lo <= |runs| && Sorted(ord, All()) && Window() && at == from
      modifies this`chunks, this`runs, this`lo, this`destkey, this`destbuf, this`prevDest, this`pending, this`from
      ensures Stored() && Dest() && lo <= |runs| && prevDest == current
      ensures from == old(from) + 1 <= |run| && Done() == old(Done()) + [run[at]] && runs[lo..] == old(runs[lo..])
    {
      hide Rank, EncodeRun, EndOf, StartOf, Flatten, Sorted, StoredAs, Fits;
      StorePair(current, Left());
      from := from + 1;
    }

    /** What the window shows. */
    lemma {:induction false} Shows()
      requires Window()
      ensures at < |run| && (current == Key1 || current == Key2) && Deref(current) == run[at]
    {
      hide EncodeRun, EndOf, StartOf;
    }

    /** Passes the chunk entry under the cursor on; `stop` when it compares equal to
        an input pair that may not replace it. */
    method InsertKeep(stream: seq<Pair>, unique: bool, m: Locals, stop: bool,
                      ghost rest: seq<Pair>, ghost goal: Fed)
      returns (m': Locals, ghost rest': seq<Pair>)
      requires Inserting(m, stream, rest, goal, unique) && Aligned(true)
      requires m.iSmallEnough && !stop ==> Rank(ord, Deref(current)) < Rank(ord, Deref(m.ikey))
      requires stop ==> unique && m.iSmallEnough && Rank(ord, Deref(current)) == Rank(ord, Deref(m.ikey))
      modifies this`chunks, this`runs, this`lo, this`destkey, this`destbuf, this`prevDest, this`pending, this`from
      ensures Inserting(m', stream, rest', goal, unique) && m'.moreCompressed == m.moreCompressed
      ensures from == old(from) + 1 && prevDest != OtherKey(current)
      ensures rest' == (if stop then [] else rest) && m'.iSmallEnough == (m.iSmallEnough && !stop)
    {
      hide Rank, Encode, EncodeRun, EncodeFrom, EndOf, StartOf, ChunkOf, Flatten, Sorted, Below, Above, Ascending,
        StoredAs, Fits, InsertAll, Meets, Dest, IsNext, Window;
      Shows();
      ghost var done, ahead, x := Done(), Ahead(), run[at];
      KeepStep(ord, goal, m.ret, done, run, at, ahead, rest, unique, stop);
      AscendingNothing(ord);
      if m.iSmallEnough { BelowAppend(ord, done, x, rest[0]); }
      PassOn();
      m', rest' := m, rest;
      if stop {
        m' := m.(ret := KeyExist, moreStream := false, iSmallEnough := false);
        rest' := [];
      }
      hide Inserting, Merging, All;
      InsertingIs(m', stream, rest', goal, unique, done + [x], run[from..], ahead);
    }

    /** Puts the input pair in, over the chunk entry under the cursor or before it. */
    method InsertTake(stream: seq<Pair>, unique: bool, m: Locals, over: bool,
                      ghost rest: seq<Pair>, ghost goal: Fed)
      returns (m': Locals, ghost rest': seq<Pair>)
      requires Inserting(m, stream, rest, goal, unique) && m.iSmallEnough && Aligned(m.moreCompressed)
      requires over ==> m.moreCompressed && !unique && Rank(ord, Deref(current)) == Rank(ord, Deref(m.ikey))
      requires !over && m.moreCompressed ==> Rank(ord, Deref(m.ikey)) < Rank(ord, Deref(current))
      modifies this`chunks, this`runs, this`lo, this`destkey, this`destbuf, this`prevDest, this`pending, this`from,
        this`ikey1, this`ikey2
      ensures Inserting(m', stream, rest', goal, unique) && m'.moreCompressed == m.moreCompressed
      ensures from == old(from) + (if over then 1 else 0) && prevDest == m.ikey
      ensures over ==> prevDest != OtherKey(current)
      ensures |rest'| < |rest|
    {
      hide Rank, EncodeRun, Encode, EncodeFrom, EndOf, StartOf, ChunkOf, Flatten, Sorted, Below, Above, Ascending,
        StoredAs, Fits, SkipEqual, InsertAll, Meets, IsNext, Dest, Window;
      if m.moreCompressed { Shows(); }
      ghost var l, left, ahead := Done(), Left(), Ahead();
      TakeStep(ord, goal, l, left, ahead, rest, unique, over);
      rest' := SkipEqual(ord, rest[0], rest[1..]);
      ghost var left' := if over then left[1..] else left;
      assert from < |run| ==> run[from..][1..] == run[from + 1..];
      assert Merging() && over ==> from < |run|;
      hide Inserting;
      m' := TakeInput(stream, m, rest);
      if over {
        from := from + 1;
      }
      assert Left() == left';
      InsertingIs(m', stream, rest', goal, unique, l + [rest[0]], left', ahead);
    }

    /** Moves the window to the next entry to be merged. */
    method InsertAdvance(stream: seq<Pair>, unique: bool, m: Locals, ghost rest: seq<Pair>, ghost goal: Fed)
      returns (m': Locals)
      requires Inserting(m, stream, rest, goal, unique) && Window() && at + 1 == from
      requires prevDest != OtherKey(current)
      modifies this`key1, this`key2, this`current, this`prev, this`compcursor, this`prevcursor, this`prev2cursor,
        this`at
      ensures Inserting(m', stream, rest, goal, unique) && Aligned(m'.moreCompressed)
      ensures m'.iSmallEnough == m.iSmallEnough
    {
      hide Rank, EncodeRun, Encode, EncodeFrom, EndOf, StartOf, Flatten, Sorted, StoredAs, Meets, Between, IsNext,
        Ascending, Window;
      var more := Advance();
      m' := m.(moreCompressed := more);
    }

    /** One turn of the inner loop of the insert merge. */
    method InsertStep(stream: seq<Pair>, unique: bool, m: Locals, ghost rest: seq<Pair>, ghost goal: Fed)
      returns (m': Locals, ghost rest': seq<Pair>)
      requires Inserting(m, stream, rest, goal, unique) && Aligned(m.moreCompressed)
      requires m.moreCompressed || m.iSmallEnough
      modifies this
      ensures Inserting(m', stream, rest', goal, unique) && Aligned(m'.moreCompressed)
      ensures |rest'| - from < |rest| - old(from) && run == old(run)
      ensures |rest'| <= |rest| && (m.iSmallEnough && !m'.iSmallEnough ==> |rest'| < |rest|)
      ensures m'.moreStream == (rest' != []) && from <= |run|
    {
      hide Window, OtherKey, Left, Meets, IsNext, Between, StoredAs, Sorted, All, Dest;
      var cmp := if !m.moreCompressed then 1 else if !m.iSmallEnough then -1
                 else Compare(ord, Deref(current), Deref(m.ikey));
      var stop := cmp == 0 && unique && m.ret == Ok;
      if cmp < 0 || stop {
        m', rest' := InsertKeep(stream, unique, m, stop, rest, goal);
      } else {
        m', rest' := InsertTake(stream, unique, m, cmp == 0, rest, goal);
      }
      if cmp <= 0 {
        m' := InsertAdvance(stream, unique, m', rest', goal);
      }
    }

    /** Writes out the last chunk of an outer step. */
    method Finish()
      requires Merging() && Aligned(false)
      modifies this`chunks, this`runs, this`lo, this`destbuf, this`prevDest, this`pending
      ensures Valid() && Dest() && pending == [] && Contents() == old(All())
    {
      hide Rank, EncodeRun, Encode, Flatten;
      assert Left() == [];
      if prevDest != Null {
        Flush([]);
      }
      assert Done() == Flatten(runs[..lo]);
      FlattenSplit(runs, lo);
    }

    /** Opens the chunk where the input pair belongs. */
    method BeginInsert(stream: seq<Pair>, unique: bool, m: Locals, ghost rest: seq<Pair>, ghost goal: Fed)
      returns (m': Locals)
      requires Valid() && Dest() && pending == [] && InputAt(m, stream, rest) && rest != []
      requires Meets(ord, goal, m.ret, Contents(), rest, unique)
      modifies this
      ensures Inserting(m', stream, rest, goal, unique) && Aligned(m'.moreCompressed) && m'.iSmallEnough
      ensures m'.moreStream == (rest != []) && from <= |run|
    {
      hide Rank, EncodeRun, Encode, EncodeFrom, EndOf, StartOf, ChunkOf, Flatten, Sorted, Below, Above, StoredAs,
        Fits,
        InsertAll;
      var found, next := OpenChunk(Deref(m.ikey));
      m' := m.(moreCompressed := found, iSmallEnough := true, next := next);
    }

    /** Between two chunks nothing is half done. */
    ghost predicate Resting(m: Locals, stream: seq<Pair>, rest: seq<Pair>, goal: Fed, unique: bool)
      reads this`chunks, this`runs, this`pending, this`prevDest, this`destkey, this`destbuf, this`key1, this`key2,
        this`ikey1, this`ikey2, this`pdest
    {
      && Valid() && Dest() && pending == [] && InputAt(m, stream, rest)
      && Meets(ord, goal, m.ret, Contents(), rest, unique)
    }

    /** Merges the input pairs that belong before the next chunk into the chunk they
        belong in: one turn of the outer loop. */
    method InsertChunk(stream: seq<Pair>, unique: bool, m: Locals, ghost rest: seq<Pair>, ghost goal: Fed)
      returns (m': Locals, ghost rest': seq<Pair>)
      requires Resting(m, stream, rest, goal, unique) && rest != []
      modifies this
      ensures Resting(m', stream, rest', goal, unique) && |rest'| < |rest| && m'.moreStream == (rest' != [])
    {
      hide Rank, EncodeRun, Encode, Flatten, Sorted, Below, Above, Ascending, StoredAs, Fits, InsertAll, Between,
        Window,
        Merging, InputAt, Aligned, Valid, Dest, Meets, IsNext;
      rest' := rest;
      m' := BeginInsert(stream, unique, m, rest, goal);
      while m'.moreCompressed || m'.iSmallEnough
        invariant Inserting(m', stream, rest', goal, unique) && Aligned(m'.moreCompressed)
        invariant |rest'| <= |rest| && (!m'.iSmallEnough ==> |rest'| < |rest|)
        invariant from <= |run| && m'.moreStream == (rest' != [])
        decreases |rest'| + |run| - from
      {
        m', rest' := InsertStep(stream, unique, m', rest', goal);
      }
      Finish();
    }

    /** Starts a merge: nothing written yet, and the first pair read. */
    method FirstInput(stream: seq<Pair>, unique: bool) returns (m: Locals)
      requires Valid() && stream != [] && Ascending(ord, stream)
      modifies this`prevDest, this`destbuf, this`pending, this`ikey1
      ensures Resting(m, stream, stream, InsertAll(ord, Contents(), stream, unique), unique) && m.moreStream
    {
      hide Rank, EncodeRun, Encode, Flatten, Sorted, Ascending, StoredAs, Fits, InsertAll;
      prevDest, destbuf, pending := Null, [], [];
      ikey1 := stream[0];
      m := Locals(Ikey1, 1, true, false, true, NoNext, Ok);
    }

    /** With the stream used up the contents are what was aimed at. */
    lemma {:induction false} InsertDone(stream: seq<Pair>, unique: bool, m: Locals, goal: Fed)
      requires Resting(m, stream, [], goal, unique)
      ensures Valid() && goal == Fed(Contents(), m.ret == KeyExist) && (m.ret == Ok || m.ret == KeyExist)
    {
      hide Rank, EncodeRun, Encode, Flatten, Sorted, Ascending, StoredAs, Fits, InsertAll;
      InsertNothing(ord, Contents(), unique);
    }

    /** Merges a sorted stream into the tree. With `unique` set, a pair that is already
        held ends the run. */
    method MergeInsert(stream: seq<Pair>, unique: bool) returns (ret: Status)
      requires Valid() && Ascending(ord, stream)
      modifies this
      ensures Valid()
      ensures var r := InsertAll(ord, old(Contents()), stream, unique);
        Contents() == r.pairs && ret == if r.stopped then KeyExist else Ok
    {
      hide *;
      if stream == [] {
        InsertNothing(ord, Contents(), unique);
        return Ok;
      }
      var m := FirstInput(stream, unique);
      ghost var goal := InsertAll(ord, Contents(), stream, unique);
      ghost var rest := stream;
      while m.moreStream
        invariant Resting(m, stream, rest, goal, unique) && m.moreStream == (rest != [])
        decreases |rest|
      {
        m, rest := InsertChunk(stream, unique, m, rest, goal);
      }
      InsertDone(stream, unique, m, goal);
      return m.ret;
    }

    // ---------- deleting a sorted stream ----------

    /** What every step of the delete merge keeps. The chunk being written is a part
        of the one being read, which is why it always fits. */
    ghost predicate Deleting(m: Locals, stream: seq<Pair>, rest: seq<Pair>, goal: Fed)
      reads this`chunks, this`lo, this`runs, this`pending, this`run, this`from, this`prevDest, this`destkey,
        this`destbuf, this`key1, this`key2, this`ikey1, this`ikey2, this`pdest
    {
      && Merging() && IsNext(m.next, Ahead()) && InputAt(m, stream, rest) && m.ikey == Ikey1
      && (prevDest == Null || prevDest == Pdest)
      && Fits(run, ovflsize) && Subsequence(pending, run[..from])
      && MeetsDelete(ord, goal, m.ret, All(), rest)
      && (m.iSmallEnough ==> rest != [] && m.ret == Ok && Between(ord, Done(), rest[0], Ahead()))
    }

    /** What has to hold of the parts for a step of the delete merge to end well. */
    lemma {:induction false} DeletingIs(m: Locals, stream: seq<Pair>, rest: seq<Pair>, goal: Fed,
                                        l: seq<Pair>, left: seq<Pair>, t: seq<Pair>)
      requires Stored() && Dest() && from <= |run| && lo <= |runs| && Sorted(ord, l + left + t)
      requires Done() == l && Left() == left && Ahead() == t
      requires IsNext(m.next, t) && InputAt(m, stream, rest) && m.ikey == Ikey1
      requires prevDest == Null || prevDest == Pdest
      requires Fits(run, ovflsize) && Subsequence(pending, run[..from])
      requires MeetsDelete(ord, goal, m.ret, l + left + t, rest)
      requires m.iSmallEnough ==> rest != [] && m.ret == Ok && Between(ord, l, rest[0], t)
      ensures Deleting(m, stream, rest, goal)
    {
      hide Rank, EncodeRun, Flatten, Sorted, Dest, StoredAs, Between, MeetsDelete, IsNext, InputAt, Fits, Subsequence;
    }

    /** Stores the chunk entry under the cursor, into a private copy because the
        window moves on before the next store. There is no second try: it must fit. */
    method StoreKept() returns (ret: Status)
      requires Dest() && Window() && (prevDest == Null || prevDest == Pdest) && lo <= |runs|
      requires Fits(run, ovflsize) && Subsequence(pending, run[..at])
      modifies this`destkey, this`destbuf, this`prevDest, this`pending, this`pdest
      ensures ret == Ok && Dest() && prevDest == Pdest
      ensures Done() == old(Done()) + [run[at]] && Subsequence(pending, run[..at + 1])
    {
      hide Rank, EncodeRun, Encode, Flatten, Subsequence, StartOf, EndOf;
      AppendAssociates(Flatten(runs[..lo]), pending, run[at]);
      KeptFits(pending, run, at, ovflsize);
      ret := Store(current);
      if ret == Ok {
        pdest := Deref(current);
        prevDest := Pdest;
      }
    }

    /** Keeps the chunk entry under the cursor. */
    method DeleteKeep(stream: seq<Pair>, m: Locals, ghost rest: seq<Pair>, ghost goal: Fed)
      returns (m': Locals)
      requires Deleting(m, stream, rest, goal) && Aligned(true)
      requires m.iSmallEnough ==> Rank(ord, Deref(current)) < Rank(ord, Deref(m.ikey))
      modifies this`destkey, this`destbuf, this`prevDest, this`pending, this`pdest, this`from
      ensures Deleting(m', stream, rest, goal) && from == old(from) + 1
      ensures m'.iSmallEnough == m.iSmallEnough && m'.moreCompressed == m.moreCompressed
    {
      hide Rank, EncodeRun, Encode, EncodeFrom, EndOf, StartOf, ChunkOf, Flatten, Sorted, Below, Above, Ascending,
        StoredAs, Fits, RemoveAll, MeetsDelete, Subsequence, IsNext, Dest, Window;
      Shows();
      ghost var done, ahead, x := Done(), Ahead(), run[at];
      DeleteKept(ord, goal, m.ret, done, run, at, ahead, rest);
      if m.iSmallEnough { BelowAppend(ord, done, x, rest[0]); }
      var s := StoreKept();
      from := from + 1;
      m' := m.(ret := if s == Ok then m.ret else s);
      hide Deleting, Merging, All;
      DeletingIs(m', stream, rest, goal, done + [x], run[from..], ahead);
    }

    /** Drops the chunk entry that the input pair names. */
    method DeleteHit(stream: seq<Pair>, m: Locals, ghost rest: seq<Pair>, ghost goal: Fed)
      returns (m': Locals, ghost rest': seq<Pair>)
      requires Deleting(m, stream, rest, goal) && m.iSmallEnough && Aligned(true)
      requires Rank(ord, Deref(current)) == Rank(ord, Deref(m.ikey))
      modifies this`ikey1, this`from
      ensures Deleting(m', stream, rest', goal) && m'.moreCompressed == m.moreCompressed
      ensures |rest'| < |rest| && from == old(from) + 1
    {
      hide Rank, EncodeRun, Encode, EncodeFrom, EndOf, StartOf, ChunkOf, Flatten, Sorted, Below, Above, Ascending,
        StoredAs, Fits, RemoveAll, MeetsDelete, Subsequence;
      SortedTail(ord, Done() + Left(), Ahead());
      DeleteFound(ord, goal, Done(), Left(), Ahead(), rest);
      SubsequenceGrows(pending, run, at);
      m', rest' := NextDelete(stream, m, rest, true);
      from := from + 1;
    }

    /** Gives up when the input pair is not held. */
    method DeleteMiss(stream: seq<Pair>, m: Locals, ghost rest: seq<Pair>, ghost goal: Fed)
      returns (m': Locals, ghost rest': seq<Pair>)
      requires Deleting(m, stream, rest, goal) && m.iSmallEnough && Aligned(m.moreCompressed)
      requires m.moreCompressed ==> Rank(ord, Deref(m.ikey)) < Rank(ord, Deref(current))
      modifies this`ikey1
      ensures Deleting(m', stream, rest', goal) && m'.moreCompressed == m.moreCompressed
      ensures |rest'| < |rest|
    {
      hide Rank, EncodeRun, Encode, EncodeFrom, EndOf, StartOf, ChunkOf, Flatten, Sorted, Below, Above, Ascending,
        StoredAs, Fits, RemoveAll, MeetsDelete, Subsequence;
      SortedTail(ord, Done() + Left(), Ahead());
      DeleteMissing(ord, goal, Done(), Left(), Ahead(), rest);
      m', rest' := NextDelete(stream, m, rest, false);
    }

    /** Moves the window to the next entry to be merged. */
    method DeleteAdvance(stream: seq<Pair>, m: Locals, ghost rest: seq<Pair>, ghost goal: Fed) returns (m': Locals)
      requires Deleting(m, stream, rest, goal) && Window() && at + 1 == from
      modifies this`key1, this`key2, this`current, this`prev, this`compcursor, this`prevcursor, this`prev2cursor,
        this`at
      ensures Deleting(m', stream, rest, goal) && Aligned(m'.moreCompressed)
      ensures m'.iSmallEnough == m.iSmallEnough
    {
      hide Rank, EncodeRun, Encode, EncodeFrom, EndOf, StartOf, Flatten, Sorted, StoredAs, MeetsDelete, Between,
        IsNext,
        Ascending, Window, Fits, Subsequence;
      var more := Advance();
      m' := m.(moreCompressed := more);
    }

    /** One turn of the inner loop of the delete merge. */
    method DeleteStep(stream: seq<Pair>, m: Locals, ghost rest: seq<Pair>, ghost goal: Fed)
      returns (m': Locals, ghost rest': seq<Pair>)
      requires Deleting(m, stream, rest, goal) && Aligned(m.moreCompressed)
      requires m.moreCompressed || m.iSmallEnough
      modifies this
      ensures Deleting(m', stream, rest', goal) && Aligned(m'.moreCompressed)
      ensures |rest'| - from < |rest| - old(from) && run == old(run)
      ensures |rest'| <= |rest| && (m.iSmallEnough && !m'.iSmallEnough ==> |rest'| < |rest|)
      ensures m'.moreStream == (rest' != []) && from <= |run|
    {
      hide Window, Left, Fits, Subsequence, MeetsDelete, IsNext, Between, StoredAs, Sorted, All, Dest;
      var cmp := if !m.moreCompressed then 1 else if !m.iSmallEnough then -1
                 else Compare(ord, Deref(current), Deref(m.ikey));
      rest' := rest;
      if cmp < 0 {
        m' := DeleteKeep(stream, m, rest, goal);
      } else if cmp == 0 {
        m', rest' := DeleteHit(stream, m, rest, goal);
      } else {
        m', rest' := DeleteMiss(stream, m, rest, goal);
      }
      if cmp <= 0 {
        m' := DeleteAdvance(stream, m', rest', goal);
      }
    }

    /** Reads the stream's next pair after a hit, or gives up after a miss. */
    method NextDelete(stream: seq<Pair>, m: Locals, ghost rest: seq<Pair>, hit: bool)
      returns (m': Locals, ghost rest': seq<Pair>)
      requires lo <= |runs| && IsNext(m.next, Ahead()) && Sorted(ord, Ahead())
      requires InputAt(m, stream, rest) && rest != [] && m.ikey == Ikey1 && Below(ord, Done(), rest[0])
      requires Dest() && prevDest != Ikey1
      modifies this`ikey1
      ensures Dest() && InputAt(m', stream, rest')
      ensures rest' == if hit then rest[1..] else []
      ensures m'.moreCompressed == m.moreCompressed && m'.next == m.next && m'.ikey == m.ikey
      ensures m'.ret == if hit then m.ret else NotFound
      ensures m'.iSmallEnough ==> rest' != [] && hit && Between(ord, Done(), rest'[0], Ahead())
    {
      hide Sorted, Flatten, EncodeRun;
      AscendingTail(ord, rest, Done());
      var pos, moreStream, iSmallEnough, ret := m.pos, m.moreStream, true, m.ret;
      rest' := rest[1..];
      assert rest[1..] == stream[pos..];
      if !hit {
        ret := NotFound;
        moreStream, iSmallEnough := false, false;
        rest' := [];
      }
      if pos == |stream| {
        moreStream, iSmallEnough := false, false;
      } else {
        ikey1 := stream[pos];
        pos := pos + 1;
      }
      if moreStream && m.next.NextAt? && Rank(ord, ikey1) >= Rank(ord, m.next.first) {
        iSmallEnough := false;
      }
      if iSmallEnough { AboveHead(ord, Ahead(), rest'[0]); }
      m' := m.(pos := pos, moreStream := moreStream, iSmallEnough := iSmallEnough, ret := ret);
    }

    /** Opens the chunk that may hold the input pair. */
    method BeginDelete(stream: seq<Pair>, m: Locals, ghost rest: seq<Pair>, ghost goal: Fed)
      returns (found: bool, m': Locals)
      requires Valid() && Dest() && pending == [] && InputAt(m, stream, rest) && m.ikey == Ikey1 && rest != []
      requires MeetsDelete(ord, goal, m.ret, Contents(), rest)
      modifies this
      ensures found ==> Deleting(m', stream, rest, goal) && Aligned(m'.moreCompressed) && m'.iSmallEnough
      ensures found ==> m'.moreStream == (rest != []) && from <= |run|
      ensures !found ==> Valid() && goal == Fed(Contents(), true)
    {
      hide Rank, EncodeRun, Encode, EncodeFrom, EndOf, StartOf, ChunkOf, Flatten, Sorted, Below, Above, StoredAs,
        Fits,
        RemoveAll, Subsequence, Window;
      var next;
      found, next := OpenChunk(Deref(m.ikey));
      m' := m.(moreCompressed := found, iSmallEnough := true, next := next);
      if found {
        SubsequenceNothing(run[..from]);
      } else {
        MissingAll(ord, Contents(), Done(), Left(), Ahead(), rest);
      }
    }

    /** Between two chunks nothing is half done. */
    ghost predicate DeleteResting(m: Locals, stream: seq<Pair>, rest: seq<Pair>, goal: Fed)
      reads this`chunks, this`runs, this`pending, this`prevDest, this`destkey, this`destbuf, this`key1, this`key2,
        this`ikey1, this`ikey2, this`pdest
    {
      && Valid() && Dest() && pending == [] && InputAt(m, stream, rest) && m.ikey == Ikey1
      && MeetsDelete(ord, goal, m.ret, Contents(), rest)
    }

    /** Deletes the input pairs that belong before the next chunk: one turn of the
        outer loop. */
    method DeleteChunk(stream: seq<Pair>, m: Locals, ghost rest: seq<Pair>, ghost goal: Fed)
      returns (found: bool, m': Locals, ghost rest': seq<Pair>)
      requires DeleteResting(m, stream, rest, goal) && rest != []
      modifies this
      ensures found ==> DeleteResting(m', stream, rest', goal) && |rest'| < |rest| && m'.moreStream == (rest' != [])
      ensures !found ==> Valid() && goal == Fed(Contents(), true)
    {
      hide Rank, EncodeRun, Encode, Flatten, Sorted, Below, Above, Ascending, StoredAs, Fits, RemoveAll, Between,
        Window,
        Merging, InputAt, Aligned, Subsequence, Valid, Dest, MeetsDelete, IsNext;
      rest' := rest;
      found, m' := BeginDelete(stream, m, rest, goal);
      if !found {
        return;
      }
      while m'.moreCompressed || m'.iSmallEnough
        invariant Deleting(m', stream, rest', goal) && Aligned(m'.moreCompressed)
        invariant |rest'| <= |rest| && (!m'.iSmallEnough ==> |rest'| < |rest|)
        invariant from <= |run| && m'.moreStream == (rest' != [])
        decreases |rest'| + |run| - from
      {
        m', rest' := DeleteStep(stream, m', rest', goal);
      }
      Finish();
    }

    method FirstDelete(stream: seq<Pair>) returns (m: Locals)
      requires Valid() && stream != [] && Ascending(ord, stream)
      modifies this`prevDest, this`destbuf, this`pending, this`ikey1
      ensures DeleteResting(m, stream, stream, RemoveAll(ord, Contents(), stream)) && m.moreStream
    {
      hide Rank, EncodeRun, Encode, Flatten, Sorted, Ascending, StoredAs, Fits, RemoveAll;
      prevDest, destbuf, pending := Null, [], [];
      ikey1 := stream[0];
      m := Locals(Ikey1, 1, true, false, true, NoNext, Ok);
    }

    lemma {:induction false} DeleteDone(stream: seq<Pair>, m: Locals, goal: Fed)
      requires DeleteResting(m, stream, [], goal)
      ensures Valid() && goal == Fed(Contents(), m.ret == NotFound) && (m.ret == Ok || m.ret == NotFound)
    {
      hide Rank, EncodeRun, Encode, Flatten, Sorted, Ascending, StoredAs, Fits, RemoveAll;
      RemoveNothing(ord, Contents());
    }

    /** Deletes a sorted stream from the tree, up to the first pair that is not held. */
    method MergeDelete(stream: seq<Pair>) returns (ret: Status)
      requires Valid() && Ascending(ord, stream)
      modifies this
      ensures Valid()
      ensures var r := RemoveAll(ord, old(Contents()), stream);
        Contents() == r.pairs && ret == if r.stopped then NotFound else Ok
    {
      hide *;
      if stream == [] {
        RemoveNothing(ord, Contents());
        return Ok;
      }
      var m := FirstDelete(stream);
      ghost var goal := RemoveAll(ord, Contents(), stream);
      ghost var rest := stream;
      while m.moreStream
        invariant DeleteResting(m, stream, rest, goal) && m.moreStream == (rest != [])
        decreases |rest|
      {
        var found;
        found, m, rest := DeleteChunk(stream, m, rest, goal);
        if !found {
          return NotFound;
        }
      }
      DeleteDone(stream, m, goal);
      return m.ret;
    }
  }
}
