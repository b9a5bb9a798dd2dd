/** The size-rotating log sink: writes, the callback that ends a rotation, and
    the replay of what arrived meanwhile
    (apps/minds/electron/log-rotation.js:104-194). */
module RotatingLog {
  import opened Options

  type Bytes = seq<bv8>

  type Name = string

  /** A file is the list of chunks written to it; text already there at the start is its first chunk. */
  type File = seq<Bytes>

  /** What a run does to the sink: a write, or the old stream having closed,
      with the name the rename gave the file (None when the rename failed). */
  datatype Event = Write(chunk: Bytes) | StreamEnded(renamedTo: Option<Name>)

  datatype State = State(
    archive: map<Name, File>, order: seq<Name>, current: File,
    size: nat, isRotating: bool, pending: seq<Bytes>)

  function WriteChunk(s: State, max: nat, chunk: Bytes): State
  {
    if s.isRotating then s.(pending := s.pending + [chunk])
    else if s.size >= max then s.(pending := s.pending + [chunk], isRotating := true)
    else s.(current := s.current + [chunk], size := s.size + |chunk|)
  }

  function WriteAll(s: State, max: nat, chunks: seq<Bytes>): State
  {
    if chunks == [] then s else WriteChunk(WriteAll(s, max, chunks[..|chunks| - 1]), max, chunks[|chunks| - 1])
  }

  function Without(order: seq<Name>, name: Name): (rest: seq<Name>)
    ensures name !in order ==> rest == order
    ensures forall n :: n in rest <==> n in order && n != name
  {
    if order == [] then []
    else
      var last := order[|order| - 1];
      Without(order[..|order| - 1], name) + if last == name then [] else [last]
  }

  /** The rename, when it succeeds, puts the whole file aside under its new
      name, in place of any file that had it. */
  function Renamed(s: State, name: Option<Name>): State
  {
    if name.None? then s
    else
      s.(archive := s.archive[name.value := s.current],
         order := Without(s.order, name.value) + [name.value], current := [])
  }

  /** A reopened stream, its size counted from zero, and the buffered chunks written again in order. */
  function Ended(s: State, max: nat, name: Option<Name>): State
  {
    WriteAll(Renamed(s, name).(size := 0, isRotating := false, pending := []), max, s.pending)
  }

  function Step(s: State, max: nat, e: Event): State
  {
    match e
    case Write(chunk) => WriteChunk(s, max, chunk)
    case StreamEnded(name) => Ended(s, max, name)
  }

  /** The sink itself. `archive`, `order` and `current` stand for the files on disk. */
  class Sink {
    const max: nat
    var archive: map<Name, File>
    var order: seq<Name>
    var current: File
    var size: nat
    var isRotating: bool
    var pending: seq<Bytes>

    function View(): State
      reads this
    {
      State(archive, order, current, size, isRotating, pending)
    }

    /** Opens the file in append mode, counting what it already holds. */
    constructor (existing: Bytes, max: nat)
      requires max > 0
      ensures View() == Opened(existing) && this.max == max
    {
      this.max := max;
      archive, order, isRotating, pending := map[], [], false, [];
      current := if existing == [] then [] else [existing];
      size := |existing|;
    }

    method Write(chunk: Bytes)
      modifies this
      ensures View() == Step(old(View()), max, Event.Write(chunk))
    {
      if isRotating {
        pending := pending + [chunk];
        return;
      }
      if size >= max {
        pending := pending + [chunk];
        isRotating := true;
        return;
      }
      current := current + [chunk];
      size := size + |chunk|;
    }

    /** The callback the ended stream runs. */
    method OnStreamEnded(renamedTo: Option<Name>)
      modifies this
      ensures View() == Step(old(View()), max, StreamEnded(renamedTo))
    {
      if renamedTo.Some? {
        archive := archive[renamedTo.value := current];
        order := Without(order, renamedTo.value) + [renamedTo.value];
        current := [];
      }
      size := 0;
      isRotating := false;
      var buffered := pending;
      pending := [];
      ghost var start := View();
      for i := 0 to |buffered|
        invariant View() == WriteAll(start, max, buffered[..i])
      {
        Write(buffered[i]);
        assert buffered[..i + 1][..i] == buffered[..i];
      }
      assert buffered[..|buffered|] == buffered;
    }
  }

  function Opened(existing: Bytes): State
  {
    State(map[], [], if existing == [] then [] else [existing], |existing|, false, [])
  }

  // Whole runs

  function Run(s: State, max: nat, events: seq<Event>): State
  {
    if events == [] then s else Step(Run(s, max, events[..|events| - 1]), max, events[|events| - 1])
  }

  function Written(events: seq<Event>): seq<Bytes>
  {
    if events == [] then []
    else
      var last := events[|events| - 1];
      Written(events[..|events| - 1]) + if last.Write? then [last.chunk] else []
  }

  /** A callback can only end a rotation that is under way. */
  predicate IsEnabled(s: State, e: Event)
  {
    e.StreamEnded? ==> s.isRotating
  }

  /** And here it gives its file a name no earlier one has. */
  predicate CanHappen(s: State, e: Event)
  {
    IsEnabled(s, e) && (e.StreamEnded? && e.renamedTo.Some? ==> e.renamedTo.value !in s.archive)
  }

  predicate IsRun(s: State, max: nat, events: seq<Event>)
  {
    events != [] ==>
      IsRun(s, max, events[..|events| - 1]) && CanHappen(Run(s, max, events[..|events| - 1]), events[|events| - 1])
  }

  function Contents(archive: map<Name, File>, order: seq<Name>): seq<Bytes>
  {
    if order == [] then []
    else
      var last := order[|order| - 1];
      Contents(archive, order[..|order| - 1]) + if last in archive then archive[last] else []
  }

  /** Everything the sink still has, oldest first: rotated files, current file, buffered chunks. */
  function Everything(s: State): seq<Bytes>
  {
    Contents(s.archive, s.order) + s.current + s.pending
  }

  function Total(file: seq<Bytes>): nat
  {
    if file == [] then 0 else Total(file[..|file| - 1]) + |file[|file| - 1]|
  }

  /** A file that reached the limit only with its last chunk. */
  predicate RotatedInTime(file: File, max: nat)
  {
    file != [] && Total(file) >= max && Total(file[..|file| - 1]) < max
  }

  predicate Consistent(s: State, max: nat)
  {
    && max > 0
    && (forall n <- s.order :: n in s.archive)
    && (s.isRotating <==> s.pending != [])
    && (s.isRotating ==> s.size >= max)
  }

  /** Additionally, while every rename succeeds, the size counted is the file's own. */
  predicate Measured(s: State, max: nat)
  {
    && s.size == Total(s.current)
    && (s.current != [] ==> Total(s.current[..|s.current| - 1]) < max)
    && (forall n <- s.archive :: RotatedInTime(s.archive[n], max))
  }

  lemma {:induction false} WriteAllConserves(s: State, max: nat, chunks: seq<Bytes>)
    requires Consistent(s, max)
    ensures var t := WriteAll(s, max, chunks);
      && Consistent(t, max) && t.archive == s.archive && t.order == s.order
      && Everything(t) == Everything(s) + chunks
      && (Measured(s, max) ==> Measured(t, max))
  {
    if chunks == [] {
      assert Everything(s) + chunks == Everything(s);
    } else {
      var init, last := chunks[..|chunks| - 1], chunks[|chunks| - 1];
      WriteAllConserves(s, max, init);
      var t := WriteAll(s, max, init);
      WriteConserves(t, max, last);
      Snoc(Everything(s), chunks);
    }
  }

  lemma Snoc(before: seq<Bytes>, chunks: seq<Bytes>)
    requires chunks != []
    ensures before + chunks[..|chunks| - 1] + [chunks[|chunks| - 1]] == before + chunks
  {
  }

  lemma WriteConserves(s: State, max: nat, chunk: Bytes)
    requires Consistent(s, max)
    ensures var t := WriteChunk(s, max, chunk);
      && Consistent(t, max) && t.archive == s.archive && t.order == s.order
      && Everything(t) == Everything(s) + [chunk]
      && (Measured(s, max) ==> Measured(t, max))
  {
    WriteAppends(Contents(s.archive, s.order), s.current, s.pending, chunk);
    if Measured(s, max) { WriteMeasured(s, max, chunk); }
  }

  lemma WriteAppends(before: seq<Bytes>, current: seq<Bytes>, pending: seq<Bytes>, chunk: Bytes)
    ensures before + current + (pending + [chunk]) == before + current + pending + [chunk]
    ensures pending == [] ==> before + (current + [chunk]) + pending == before + current + pending + [chunk]
  {
  }

  lemma WriteMeasured(s: State, max: nat, chunk: Bytes)
    requires Measured(s, max)
    ensures Measured(WriteChunk(s, max, chunk), max)
  {
    var t := WriteChunk(s, max, chunk);
    if t.current != s.current {
      assert t.current[..|t.current| - 1] == s.current;
    }
  }

  lemma {:induction false} ContentsOfUntouched(archive: map<Name, File>, order: seq<Name>, name: Name, file: File)
    requires name !in order
    ensures Contents(archive[name := file], order) == Contents(archive, order)
  {
    if order != [] {
      ContentsOfUntouched(archive, order[..|order| - 1], name, file);
    }
  }

  lemma RenameConserves(s: State, name: Option<Name>)
    requires forall n <- s.order :: n in s.archive
    requires name.Some? ==> name.value !in s.archive
    ensures Everything(Renamed(s, name)) == Everything(s)
  {
    if name.Some? {
      var t := Renamed(s, name);
      ContentsOfUntouched(s.archive, s.order, name.value, s.current);
      assert t.order[..|t.order| - 1] == s.order;
      assert Contents(t.archive, t.order) == Contents(s.archive, s.order) + s.current;
      assert Contents(t.archive, t.order) + [] == Contents(t.archive, t.order);
    }
  }

  function Reopened(s: State, name: Option<Name>): State
  {
    Renamed(s, name).(size := 0, isRotating := false, pending := [])
  }

  lemma ReopenedMeasured(s: State, max: nat, name: Option<Name>)
    requires Consistent(s, max) && CanHappen(s, StreamEnded(name)) && Measured(s, max) && name.Some?
    ensures Measured(Reopened(s, name), max)
  {
    assert s.current != [];
  }

  lemma ReopenedKeeps(s: State, max: nat, name: Option<Name>)
    requires Consistent(s, max) && CanHappen(s, StreamEnded(name))
    ensures Consistent(Reopened(s, name), max)
    ensures Everything(Reopened(s, name)) + s.pending == Everything(s)
  {
    RenameConserves(s, name);
    var t := Renamed(s, name);
    Swap(Contents(t.archive, t.order), t.current, t.pending);
  }

  lemma EndedConserves(s: State, max: nat, name: Option<Name>)
    requires Consistent(s, max) && CanHappen(s, StreamEnded(name))
    ensures var t := Ended(s, max, name);
      Consistent(t, max) && Everything(t) == Everything(s)
  {
    ReopenedKeeps(s, max, name);
    WriteAllConserves(Reopened(s, name), max, s.pending);
  }

  lemma EndedMeasured(s: State, max: nat, name: Option<Name>)
    requires Consistent(s, max) && CanHappen(s, StreamEnded(name)) && Measured(s, max) && name.Some?
    ensures Measured(Ended(s, max, name), max)
  {
    ReopenedMeasured(s, max, name);
    WriteAllConserves(Reopened(s, name), max, s.pending);
  }

  /** Nothing is lost, duplicated or reordered: over any run, rotated files in
      order, then the current file, then the buffer, are what was there at the
      start followed by all writes in order, whatever renames fail and however
      often a replay triggers the next rotation. */
  lemma {:induction false} RunConserves(s: State, max: nat, events: seq<Event>)
    requires Consistent(s, max) && IsRun(s, max, events)
    ensures Consistent(Run(s, max, events), max)
    ensures Everything(Run(s, max, events)) == Everything(s) + Written(events)
  {
    if events == [] {
      assert Everything(s) + Written(events) == Everything(s);
    } else {
      var init, last := events[..|events| - 1], events[|events| - 1];
      RunConserves(s, max, init);
      var t := Run(s, max, init);
      match last
      case Write(chunk) =>
        WriteConserves(t, max, chunk);
        assert Everything(s) + Written(init) + [chunk] == Everything(s) + Written(events);
      case StreamEnded(name) =>
        EndedConserves(t, max, name);
        assert Written(events) == Written(init);
    }
  }

  /** While renames succeed, every rotated file has reached the limit, and only with its last chunk. */
  lemma {:induction false} RunRotatesInTime(existing: Bytes, max: nat, events: seq<Event>)
    requires max > 0 && IsRun(Opened(existing), max, events)
    requires forall e <- events :: e.StreamEnded? ==> e.renamedTo.Some?
    ensures Measured(Run(Opened(existing), max, events), max)
  {
    var s := Opened(existing);
    if events == [] {
      assert existing != [] ==> [existing][..0] == [];
    } else {
      var init, last := events[..|events| - 1], events[|events| - 1];
      RunRotatesInTime(existing, max, init);
      RunConserves(s, max, init);
      var t := Run(s, max, init);
      match last
      case Write(chunk) => WriteConserves(t, max, chunk);
      case StreamEnded(name) =>
        EndedConserves(t, max, name);
        EndedMeasured(t, max, name);
    }
  }

  /** Every ended rotation makes progress: the buffer gets shorter, so a burst
      drains after at most as many rotations as it has chunks. */
  lemma EndedMakesProgress(s: State, max: nat, name: Option<Name>)
    requires Consistent(s, max) && s.isRotating
    ensures |Ended(s, max, name).pending| < |s.pending|
  {
    var reopened := Renamed(s, name).(size := 0, isRotating := false, pending := []);
    ReplayKeepsFirst(reopened, max, s.pending);
  }

  lemma {:induction false} ReplayKeepsFirst(s: State, max: nat, chunks: seq<Bytes>)
    requires max > 0 && !s.isRotating && s.size == 0 && s.pending == []
    ensures |WriteAll(s, max, chunks).pending| <= if chunks == [] then 0 else |chunks| - 1
  {
    if chunks != [] {
      ReplayKeepsFirst(s, max, chunks[..|chunks| - 1]);
    }
  }

  // Names given twice

  /** A run whatever names its rotations get. */
  predicate IsAnyRun(s: State, max: nat, events: seq<Event>)
  {
    events != [] ==>
      IsAnyRun(s, max, events[..|events| - 1]) && IsEnabled(Run(s, max, events[..|events| - 1]), events[|events| - 1])
  }

  predicate NamedAs(e: Event, name: Name)
  {
    e == StreamEnded(Some(name))
  }

  /** No two rotations got one name. */
  ghost predicate NamesDistinct(events: seq<Event>)
  {
    forall i, j, name :: 0 <= i < j < |events| && NamedAs(events[i], name) ==> !NamedAs(events[j], name)
  }

  predicate Distinct(order: seq<Name>)
  {
    forall i, j :: 0 <= i < j < |order| ==> order[i] != order[j]
  }

  /** The rotated files are those listed, each once, and none of them is empty; nor is a file being rotated. */
  ghost predicate Filed(s: State, max: nat)
  {
    && max > 0
    && Distinct(s.order)
    && (forall n :: n in s.order <==> n in s.archive)
    && (forall n <- s.archive :: s.archive[n] != [])
    && s.size <= Total(s.current)
    && (s.isRotating ==> s.size >= max)
  }

  lemma DistinctAppend(order: seq<Name>, name: Name)
    requires Distinct(order) && name !in order
    ensures Distinct(order + [name])
  {
    assert forall i :: 0 <= i < |order| ==> order[i] in order;
  }

  lemma {:induction false} WithoutDistinct(order: seq<Name>, name: Name)
    requires Distinct(order)
    ensures Distinct(Without(order, name))
  {
    if order != [] {
      var init, last := order[..|order| - 1], order[|order| - 1];
      WithoutDistinct(init, name);
      assert last !in init;
      DistinctAppend(Without(init, name), last);
    }
  }

  /** Taking one file out of the list takes out exactly its chunks. */
  lemma {:induction false} ContentsWithout(archive: map<Name, File>, order: seq<Name>, name: Name, file: File)
    requires Distinct(order) && name in order && name in archive
    ensures |Contents(archive[name := file], Without(order, name))| == |Contents(archive, order)| - |archive[name]|
    ensures archive[name] == [] ==> Contents(archive[name := file], Without(order, name)) == Contents(archive, order)
  {
    var init, last := order[..|order| - 1], order[|order| - 1];
    if last == name {
      assert name !in init;
      ContentsOfUntouched(archive, init, name, file);
      assert Without(order, name) == init;
    } else {
      assert order == init + [last];
      ContentsWithout(archive, init, name, file);
      var rest := Without(init, name);
      assert Without(order, name) == rest + [last];
      assert (rest + [last])[..|rest|] == rest;
    }
  }

  lemma ContentsSnoc(archive: map<Name, File>, order: seq<Name>, name: Name)
    requires name in archive
    ensures Contents(archive, order + [name]) == Contents(archive, order) + archive[name]
  {
    assert (order + [name])[..|order|] == order;
  }

  /** A rename under a name already given loses the file that had it: it
      conserves everything exactly when the name is new, or that file is empty. */
  lemma RenameConservesExactly(s: State, name: Name)
    requires Distinct(s.order) && forall n <- s.order :: n in s.archive
    ensures Everything(Renamed(s, Some(name))) == Everything(s) <==> name !in s.order || s.archive[name] == []
    ensures |Everything(Renamed(s, Some(name)))| ==
      |Everything(s)| - (if name in s.order then |s.archive[name]| else 0)
  {
    var t := Renamed(s, Some(name));
    ContentsSnoc(t.archive, Without(s.order, name), name);
    if name in s.order {
      ContentsWithout(s.archive, s.order, name, s.current);
    } else {
      ContentsOfUntouched(s.archive, s.order, name, s.current);
    }
    Swap(Contents(t.archive, Without(s.order, name)), s.current, s.pending);
  }

  /** There is one file of each name on disk: a second one like the first still replaces it. */
  lemma SameContentLosesToo(s: State, name: Name)
    requires Distinct(s.order) && forall n <- s.order :: n in s.archive
    requires name in s.order && s.archive[name] == s.current != []
    ensures |Everything(Renamed(s, Some(name)))| < |Everything(s)|
  {
    RenameConservesExactly(s, name);
  }

  lemma Swap(before: seq<Bytes>, current: seq<Bytes>, pending: seq<Bytes>)
    ensures before + current + [] + pending == before + current + pending
  {
  }

  lemma TotalPositive(file: seq<Bytes>)
    ensures Total(file) > 0 ==> file != []
  {
  }

  lemma WriteFiled(s: State, max: nat, chunk: Bytes)
    requires Filed(s, max)
    ensures Filed(WriteChunk(s, max, chunk), max)
  {
    assert (s.current + [chunk])[..|s.current|] == s.current;
  }

  lemma {:induction false} WriteAllFiled(s: State, max: nat, chunks: seq<Bytes>)
    requires Filed(s, max)
    ensures var t := WriteAll(s, max, chunks);
      && Filed(t, max) && t.archive == s.archive && t.order == s.order
      && |Everything(t)| == |Everything(s)| + |chunks|
  {
    if chunks != [] {
      WriteAllFiled(s, max, chunks[..|chunks| - 1]);
      WriteFiled(WriteAll(s, max, chunks[..|chunks| - 1]), max, chunks[|chunks| - 1]);
    }
  }

  lemma ReopenedFiled(s: State, max: nat, name: Option<Name>)
    requires Filed(s, max) && s.isRotating
    ensures Filed(Reopened(s, name), max)
  {
    TotalPositive(s.current);
    if name.Some? {
      WithoutDistinct(s.order, name.value);
      DistinctAppend(Without(s.order, name.value), name.value);
    }
  }

  /** How many chunks a callback leaves: all of them, unless its name was taken. */
  lemma EndedCounts(s: State, max: nat, name: Option<Name>)
    requires Filed(s, max) && s.isRotating
    ensures var t := Ended(s, max, name);
      && Filed(t, max)
      && (forall n :: n in t.archive <==> n in s.archive || name == Some(n))
      && (if name.Some? && name.value in s.archive then |Everything(t)| < |Everything(s)|
          else |Everything(t)| == |Everything(s)|)
  {
    var reopened := Reopened(s, name);
    ReopenedFiled(s, max, name);
    WriteAllFiled(reopened, max, s.pending);
    if name.Some? {
      RenameConservesExactly(s, name.value);
    }
    assert |Everything(reopened)| + |s.pending| == |Everything(Renamed(s, name))|;
  }

  lemma DistinctSnoc(events: seq<Event>, e: Event)
    ensures NamesDistinct(events + [e]) <==>
      NamesDistinct(events) &&
      (e.StreamEnded? && e.renamedTo.Some? ==> forall i :: 0 <= i < |events| ==> events[i] != e)
  {
    var all := events + [e];
    assert forall i :: 0 <= i < |events| ==> all[i] == events[i];
    if NamesDistinct(all) && e.StreamEnded? && e.renamedTo.Some? {
      assert NamedAs(all[|events|], e.renamedTo.value);
      forall i | 0 <= i < |events| ensures events[i] != e {
        assert NamedAs(all[i], e.renamedTo.value) <==> events[i] == e;
      }
    }
    if !NamesDistinct(all) {
      var i, j, name :| 0 <= i < j < |all| && NamedAs(all[i], name) && NamedAs(all[j], name);
      assert j < |events| ==> NamedAs(events[i], name) && NamedAs(events[j], name);
    }
    if !NamesDistinct(events) {
      var i, j, name :| 0 <= i < j < |events| && NamedAs(events[i], name) && NamedAs(events[j], name);
      assert NamedAs(all[i], name) && NamedAs(all[j], name);
    }
  }

  /** What a run has kept of `all` chunks, and under which names. */
  ghost predicate Counts(s: State, max: nat, events: seq<Event>, all: nat)
  {
    && Filed(s, max)
    && (forall n :: n in s.archive <==> StreamEnded(Some(n)) in events)
    && |Everything(s)| <= all
    && (|Everything(s)| == all <==> NamesDistinct(events))
  }

  lemma WriteCounts(s: State, max: nat, events: seq<Event>, all: nat, chunk: Bytes)
    requires Counts(s, max, events, all)
    ensures Counts(WriteChunk(s, max, chunk), max, events + [Write(chunk)], all + 1)
  {
    DistinctSnoc(events, Write(chunk));
    WriteAllFiled(s, max, [chunk]);
    assert [chunk][..0] == [] && WriteAll(s, max, []) == s;
    assert WriteAll(s, max, [chunk]) == WriteChunk(s, max, chunk);
  }

  lemma EndedKeepsCount(s: State, max: nat, events: seq<Event>, all: nat, name: Option<Name>)
    requires Counts(s, max, events, all) && s.isRotating
    ensures Counts(Ended(s, max, name), max, events + [StreamEnded(name)], all)
  {
    DistinctSnoc(events, StreamEnded(name));
    EndedCounts(s, max, name);
    assert name.Some? ==> (name.value in s.archive <==> StreamEnded(name) in events);
  }

  lemma OpenedCounts(existing: Bytes, max: nat)
    requires max > 0
    ensures Counts(Opened(existing), max, [], |Everything(Opened(existing))|)
  {
    assert [existing][..0] == [];
    assert Total([existing]) == Total([]) + |existing|;
  }

  /** Chunks are only ever lost, and are lost exactly when a name is given again. */
  lemma {:induction false} AnyRunCounts(s0: State, max: nat, events: seq<Event>)
    requires IsAnyRun(s0, max, events) && Counts(s0, max, [], |Everything(s0)|)
    ensures Counts(Run(s0, max, events), max, events, |Everything(s0)| + |Written(events)|)
  {
    if events != [] {
      var init, e := events[..|events| - 1], events[|events| - 1];
      AnyRunCounts(s0, max, init);
      assert events == init + [e];
      RunSnoc(s0, max, init, e);
      match e
      case Write(chunk) => WriteCounts(Run(s0, max, init), max, init, |Everything(s0)| + |Written(init)|, chunk);
      case StreamEnded(name) => EndedKeepsCount(Run(s0, max, init), max, init, |Everything(s0)| + |Written(init)|, name);
    }
  }

  /** With distinct names each callback's name is new. */
  lemma {:induction false} DistinctIsRun(s0: State, max: nat, events: seq<Event>)
    requires IsAnyRun(s0, max, events) && Counts(s0, max, [], |Everything(s0)|) && NamesDistinct(events)
    ensures IsRun(s0, max, events)
  {
    if events != [] {
      var init, e := events[..|events| - 1], events[|events| - 1];
      assert events == init + [e];
      DistinctSnoc(init, e);
      DistinctIsRun(s0, max, init);
      AnyRunCounts(s0, max, init);
    }
  }

  /** Over any run, failed renames and all, everything is conserved exactly when
      no two rotations got one name. */
  lemma ConservesExactly(existing: Bytes, max: nat, events: seq<Event>)
    requires max > 0 && IsAnyRun(Opened(existing), max, events)
    ensures Everything(Run(Opened(existing), max, events)) == Everything(Opened(existing)) + Written(events)
      <==> NamesDistinct(events)
  {
    OpenedCounts(existing, max);
    AnyRunCounts(Opened(existing), max, events);
    if NamesDistinct(events) {
      DistinctIsRun(Opened(existing), max, events);
      RunConserves(Opened(existing), max, events);
    }
  }

  lemma RunSnoc(s: State, max: nat, events: seq<Event>, e: Event)
    ensures Run(s, max, events + [e]) == Step(Run(s, max, events), max, e)
    ensures IsAnyRun(s, max, events + [e]) <==> IsAnyRun(s, max, events) && IsEnabled(Run(s, max, events), e)
    ensures Written(events + [e]) == Written(events) + if e.Write? then [e.chunk] else []
  {
    assert (events + [e])[..|events|] == events;
  }

  /** Two chunks fill a file and start its rotation, which gets a name. */
  function OneMore(name: Name, chunk: Bytes): seq<Event>
  {
    [Write(chunk), StreamEnded(Some(name))]
  }

  /** A sink opened on an empty file, and two rotations under one name. */
  function TwoRotations(name: Name, first: Bytes, second: Bytes, third: Bytes): seq<Event>
  {
    [] + [Write(first)] + OneMore(name, second) + OneMore(name, third)
  }

  /** A chunk that finds the file full, and the callback. */
  lemma OneMoreRuns(s0: State, max: nat, events: seq<Event>, name: Name, chunk: Bytes)
    requires IsAnyRun(s0, max, events) && max > 0
    requires var s := Run(s0, max, events);
      !s.isRotating && s.pending == [] && s.size >= max && (s.order == [] || s.order == [name])
    ensures var s := Run(s0, max, events); var all := events + OneMore(name, chunk);
      && IsAnyRun(s0, max, all)
      && Run(s0, max, all) == State(s.archive[name := s.current], [name], [chunk], |chunk|, false, [])
      && Written(all) == Written(events) + [chunk]
  {
    var s := Run(s0, max, events);
    RunSnoc(s0, max, events, Write(chunk));
    RunSnoc(s0, max, events + [Write(chunk)], StreamEnded(Some(name)));
    assert events + OneMore(name, chunk) == events + [Write(chunk)] + [StreamEnded(Some(name))];
    OneRotation(s.archive, s.order, name, s.(pending := [chunk], isRotating := true), max);
  }

  lemma TwoMoreRun(s0: State, max: nat, events: seq<Event>, name: Name, first: Bytes, second: Bytes, third: Bytes)
    requires max > 0 && max <= |first| && max <= |second| && IsAnyRun(s0, max, events)
    requires Run(s0, max, events) == State(map[], [], [first], |first|, false, [])
    ensures var all := events + OneMore(name, second) + OneMore(name, third);
      && IsAnyRun(s0, max, all)
      && Run(s0, max, all) == State(map[name := [second]], [name], [third], |third|, false, [])
      && Written(all) == Written(events) + [second] + [third]
  {
    OneMoreRuns(s0, max, events, name, second);
    OneMoreRuns(s0, max, events + OneMore(name, second), name, third);
    assert map[name := [first]][name := [second]] == map[name := [second]];
  }

  lemma FirstRun(max: nat, first: Bytes)
    requires 0 < max
    ensures var events := [] + [Write(first)];
      && IsAnyRun(Opened([]), max, events)
      && Run(Opened([]), max, events) == State(map[], [], [first], |first|, false, [])
      && Written(events) == [first]
  {
    RunSnoc(Opened([]), max, [], Write(first));
    assert Run(Opened([]), max, []) == Opened([]) && Written([]) == [];
    assert [] + [first] == [first];
  }

  lemma EverythingOfOne(s: State, name: Name)
    requires s.order == [name] && name in s.archive && s.pending == []
    ensures Everything(s) == s.archive[name] + s.current
  {
    assert [] + [name] == [name] && Contents(s.archive, []) == [];
    ContentsSnoc(s.archive, [], name);
    assert [] + s.archive[name] + s.current + [] == s.archive[name] + s.current;
  }

  /** Such a run exists, and the first file is lost. */
  lemma SameNameLosesFile(max: nat, name: Name, first: Bytes, second: Bytes, third: Bytes)
    requires 0 < max <= |first| && max <= |second|
    ensures var events := TwoRotations(name, first, second, third);
      && IsAnyRun(Opened([]), max, events)
      && Everything(Run(Opened([]), max, events)) == [second] + [third]
      && Everything(Opened([])) == [] && Written(events) == [first] + [second] + [third]
  {
    FirstRun(max, first);
    TwoMoreRun(Opened([]), max, [] + [Write(first)], name, first, second, third);
    EverythingOfOne(State(map[name := [second]], [name], [third], |third|, false, []), name);
  }

  /** The callback with one chunk buffered: it is the first of the new file. */
  lemma OneRotation(archive: map<Name, File>, order: seq<Name>, name: Name, s: State, max: nat)
    requires max > 0 && s.archive == archive && s.order == order && |s.pending| == 1
    requires order == [] || order == [name]
    ensures Ended(s, max, Some(name)) ==
      State(archive[name := s.current], [name], s.pending, |s.pending[0]|, false, [])
  {
    assert [name][..0] == [] && Without([name], name) == [] + [] && [] + [name] == [name];
    var reopened := Reopened(s, Some(name));
    assert reopened.order == [name];
    assert s.pending == [s.pending[0]] && s.pending[..0] == [];
    assert WriteAll(reopened, max, s.pending[..0]) == reopened;
    assert Ended(s, max, Some(name)) == WriteAll(reopened, max, s.pending);
    assert WriteAll(reopened, max, s.pending) == WriteChunk(reopened, max, s.pending[0]);
    assert [] + [s.pending[0]] == s.pending;
  }

  lemma {:induction false} TotalOfJoined(a: seq<Bytes>, b: seq<Bytes>)
    ensures Total(a + b) == Total(a) + Total(b)
  {
    if b == [] {
      assert a + b == a;
    } else {
      TotalOfJoined(a, b[..|b| - 1]);
      assert (a + b)[..|a + b| - 1] == a + b[..|b| - 1];
    }
  }

  /** Some of the chunks reach the file, first ones first, and their bytes are what the size grows by. */
  lemma {:induction false} ReplayCounts(s: State, max: nat, chunks: seq<Bytes>) returns (n: nat)
    requires !s.isRotating
    ensures n <= |chunks|
    ensures var t := WriteAll(s, max, chunks);
      && t.current == s.current + chunks[..n] && t.size == s.size + Total(chunks[..n])
      && t.pending == s.pending + chunks[n..]
      && (t.isRotating <==> n < |chunks|) && (n < |chunks| ==> t.size >= max)
      && (0 < n ==> s.size + Total(chunks[..n - 1]) < max)
  {
    if chunks == [] {
      n := 0;
      assert s.current + chunks[..0] == s.current && s.pending + chunks[0..] == s.pending;
    } else {
      var init, last := chunks[..|chunks| - 1], chunks[|chunks| - 1];
      var m := ReplayCounts(s, max, init);
      var t := WriteAll(s, max, init);
      assert init[..m] == chunks[..m] && s.pending + init[m..] + [last] == s.pending + chunks[m..];
      if t.isRotating || t.size >= max {
        n := m;
        assert 0 < m ==> init[..m - 1] == chunks[..m - 1];
      } else {
        n := m + 1;
        assert m == |init| && chunks[..n] == init + [last] && init[..m] == init;
        assert s.current + init + [last] == s.current + chunks[..n];
        TotalOfJoined(init, [last]);
        assert [last][..0] == [] && Total([last]) == |last|;
        assert s.pending + init[m..] == s.pending && chunks[n..] == [];
        assert chunks[..n - 1] == init;
      }
    }
  }

  /** After any callback the limit is counted afresh, from the first replayed
      chunk on, also when the rename failed and the file goes on growing: only
      the chunks replayed count, and the next rotation starts at the first one
      that finds the limit reached by them. */
  lemma CountsAfresh(s: State, max: nat, name: Option<Name>) returns (n: nat)
    requires Consistent(s, max) && s.isRotating
    ensures 0 < n <= |s.pending|
    ensures var t := Ended(s, max, name);
      && t.current == (if name.None? then s.current else []) + s.pending[..n]
      && t.size == Total(s.pending[..n]) && Total(s.pending[..n - 1]) < max
      && t.pending == s.pending[n..] && (t.isRotating <==> n < |s.pending|)
      && (n < |s.pending| ==> t.size >= max)
  {
    n := ReplayCounts(Reopened(s, name), max, s.pending);
    EndedMakesProgress(s, max, name);
  }
}
