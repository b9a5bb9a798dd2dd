/** Splicing generated config tables into README files and checking they are
    current (scripts/make_cli_docs.py:865-937). */
module ConfigTable {
  import opened Text

  type Path = string

  /** The pair of marker comments a table is spliced between. */
  datatype Markers = Markers(begin: string, end: string)

  const MARKERS := Markers("<!-- BEGIN" + " GENERATED CONFIG TABLE" + " (scripts/make_cli_docs.py) -->",
                           "<!-- END" + " GENERATED CONFIG TABLE -->")

  datatype Splice = Spliced(text: string) | MissingMarkers | WrongOrder

  function SpliceTable(m: Markers, readme: string, table: string): Splice
  {
    var begin := Find(readme, m.begin, 0);
    var end := Find(readme, m.end, 0);
    if begin == -1 || end == -1 then MissingMarkers
    else if end < begin then WrongOrder
    else Spliced(readme[..begin + |m.begin|] + "\n" + table + "\n" + readme[end..])
  }

  // The markers

  /** One line, whose only `<` is its first character. */
  predicate OpensOnlyAtStart(marker: string)
  {
    marker != "" && marker[0] == '<' && '<' !in marker[1..] && '\n' !in marker
  }

  predicate WellFormed(m: Markers)
  {
    && OpensOnlyAtStart(m.begin) && OpensOnlyAtStart(m.end)
    && |m.end| <= |m.begin| && !(m.end <= m.begin)
  }

  lemma Extended(word: string, rest: string)
    requires OpensOnlyAtStart(word) && '<' !in rest && '\n' !in rest
    ensures OpensOnlyAtStart(word + rest)
  {
    assert (word + rest)[1..] == word[1..] + rest;
  }

  lemma NotAPrefix(a: string, b: string, i: nat)
    requires i < |a| && i < |b| && a[i] != b[i]
    ensures !(a <= b)
  {
  }

  lemma BeginOpens()
    ensures OpensOnlyAtStart(MARKERS.begin)
  {
    var begin := "<!-- BEGIN";
    assert begin[1..] == "!-- BEGIN";
    Extended(begin, " GENERATED CONFIG TABLE");
    Extended(begin + " GENERATED CONFIG TABLE", " (scripts/make_cli_docs.py) -->");
  }

  lemma EndOpens()
    ensures OpensOnlyAtStart(MARKERS.end)
  {
    var end := "<!-- END";
    assert end[1..] == "!-- END";
    Extended(end, " GENERATED CONFIG TABLE -->");
  }

  lemma MarkersWellFormed()
    ensures WellFormed(MARKERS)
  {
    BeginOpens();
    EndOpens();
    var begin, end := "<!-- BEGIN", "<!-- END";
    assert begin[5] == 'B' && end[5] == 'E';
    NotAPrefix(MARKERS.end, MARKERS.begin, 5);
  }

  /** A marker cannot start inside an occurrence of another. */
  lemma NoOverlap(s: string, first: string, second: string, i: int, j: int)
    requires OpensOnlyAtStart(second)
    requires OccursAt(s, first, i) && OccursAt(s, second, j) && i < j
    ensures i + |first| <= j || '<' in first[1..]
  {
    assert s[j] == s[j..j + |second|][0] == '<';
    if j < i + |first| {
      assert s[j] == s[i..i + |first|][j - i] == first[1..][j - i - 1];
    }
  }

  /** An occurrence of a one-line marker lies wholly on one side of a line break. */
  lemma OneSideOfBreak(a: string, b: string, marker: string, i: int)
    requires OccursAt(a + "\n" + b, marker, i)
    ensures OccursAt(a, marker, i) || OccursAt(b, marker, i - |a| - 1) || '\n' in marker
  {
    var s := a + "\n" + b;
    if i + |marker| <= |a| {
      assert s[i..i + |marker|] == a[i..i + |marker|];
    } else if i > |a| {
      assert s[i..i + |marker|] == b[i - |a| - 1..i - |a| - 1 + |marker|];
    } else {
      assert s[|a|] == s[i..i + |marker|][|a| - i];
    }
  }

  lemma OccursInPrefix(a: string, b: string, marker: string, i: int)
    ensures OccursAt(a, marker, i) <==> i + |marker| <= |a| && OccursAt(a + b, marker, i)
  {
    if 0 <= i && i + |marker| <= |a| {
      assert (a + b)[i..i + |marker|] == a[i..i + |marker|];
    }
  }

  lemma OccursInSuffix(a: string, b: string, marker: string, i: int)
    requires OccursAt(b, marker, i)
    ensures OccursAt(a + b, marker, |a| + i)
  {
    assert (a + b)[|a| + i..|a| + i + |marker|] == b[i..i + |marker|];
  }

  /** The text up to and including its first BEGIN marker, with no END marker in it. */
  ghost predicate IsHead(m: Markers, head: string)
  {
    && |m.begin| <= |head| && OccursAt(head, m.begin, |head| - |m.begin|)
    && (forall i :: 0 <= i < |head| - |m.begin| ==> !OccursAt(head, m.begin, i))
    && !Occurs(head, m.end)
  }

  lemma FirstBegin(m: Markers, head: string, rest: string)
    requires IsHead(m, head)
    ensures Find(head + rest, m.begin, 0) == |head| - |m.begin|
  {
    OccursInPrefix(head, rest, m.begin, |head| - |m.begin|);
    forall i | 0 <= i < |head| - |m.begin| ensures !OccursAt(head + rest, m.begin, i) {
      OccursInPrefix(head, rest, m.begin, i);
    }
  }

  lemma NotBeforeTail(m: Markers, head: string, inner: string, tail: string, i: nat)
    requires OpensOnlyAtStart(m.end) && !Occurs(head, m.end) && !Occurs(inner, m.end)
    requires i < |head| + |inner| + 2
    ensures !OccursAt(head + "\n" + (inner + "\n" + tail), m.end, i)
  {
    if OccursAt(head + "\n" + (inner + "\n" + tail), m.end, i) {
      OneSideOfBreak(head, inner + "\n" + tail, m.end, i);
      OneSideOfBreak(inner, tail, m.end, i - |head| - 1);
    }
  }

  lemma EndOccurs(m: Markers, head: string, inner: string, tail: string)
    requires OccursAt(tail, m.end, 0)
    ensures OccursAt(head + "\n" + (inner + "\n" + tail), m.end, |head| + |inner| + 2)
  {
    var s, k := head + "\n" + (inner + "\n" + tail), |head| + |inner| + 2;
    assert s[k..k + |m.end|] == tail[0..|m.end|];
  }

  lemma FirstEnd(m: Markers, head: string, inner: string, tail: string)
    requires OpensOnlyAtStart(m.end)
    requires !Occurs(head, m.end) && !Occurs(inner, m.end) && OccursAt(tail, m.end, 0)
    ensures Find(head + "\n" + (inner + "\n" + tail), m.end, 0) == |head| + |inner| + 2
  {
    EndOccurs(m, head, inner, tail);
    var r := Find(head + "\n" + (inner + "\n" + tail), m.end, 0);
    if r < |head| + |inner| + 2 {
      NotBeforeTail(m, head, inner, tail, r);
    }
  }

  predicate Accepts(m: Markers, readme: string)
  {
    var begin, end := Find(readme, m.begin, 0), Find(readme, m.end, 0);
    begin != -1 && begin <= end
  }

  /** What a splice keeps before the table. */
  function HeadText(m: Markers, readme: string): string
    requires Accepts(m, readme)
  {
    readme[..Find(readme, m.begin, 0) + |m.begin|]
  }

  /** What a splice keeps after the table. */
  function TailText(m: Markers, readme: string): string
    requires Accepts(m, readme)
  {
    readme[Find(readme, m.end, 0)..]
  }

  lemma AcceptedHasFrame(m: Markers, readme: string)
    requires WellFormed(m) && Accepts(m, readme)
    ensures IsHead(m, HeadText(m, readme)) && OccursAt(TailText(m, readme), m.end, 0)
  {
    MarkersApart(m, readme);
    HeadHasBegin(m, readme);
    HeadHasNoEnd(m, readme);
    var end := Find(readme, m.end, 0);
    assert readme[end..][0..|m.end|] == readme[end..end + |m.end|];
  }

  lemma MarkersApart(m: Markers, readme: string)
    requires WellFormed(m) && Accepts(m, readme)
    ensures |HeadText(m, readme)| <= Find(readme, m.end, 0)
  {
    var begin, end := Find(readme, m.begin, 0), Find(readme, m.end, 0);
    if begin == end { SamePlace(m, readme, begin); } else { NoOverlap(readme, m.begin, m.end, begin, end); }
  }

  lemma HeadHasBegin(m: Markers, readme: string)
    requires Accepts(m, readme)
    ensures var head := HeadText(m, readme);
      && |m.begin| <= |head| && OccursAt(head, m.begin, |head| - |m.begin|)
      && (forall i :: 0 <= i < |head| - |m.begin| ==> !OccursAt(head, m.begin, i))
  {
    var head := HeadText(m, readme);
    var rest := readme[|head|..];
    assert readme == head + rest;
    forall i ensures OccursAt(head, m.begin, i) <==> i + |m.begin| <= |head| && OccursAt(readme, m.begin, i) {
      OccursInPrefix(head, rest, m.begin, i);
    }
  }

  lemma HeadHasNoEnd(m: Markers, readme: string)
    requires Accepts(m, readme) && m.end != "" && |HeadText(m, readme)| <= Find(readme, m.end, 0)
    ensures !Occurs(HeadText(m, readme), m.end)
  {
    var head := HeadText(m, readme);
    var rest := readme[|head|..];
    assert readme == head + rest;
    forall i ensures !OccursAt(head, m.end, i) {
      OccursInPrefix(head, rest, m.end, i);
    }
  }

  lemma SamePlace(m: Markers, s: string, i: nat)
    requires OccursAt(s, m.begin, i) && OccursAt(s, m.end, i) && |m.end| <= |m.begin|
    ensures m.end <= m.begin
  {
    assert s[i..i + |m.end|] == s[i..i + |m.begin|][..|m.end|];
  }

  lemma Regroup(head: string, inner: string, tail: string)
    ensures head + "\n" + inner + "\n" + tail == head + "\n" + (inner + "\n" + tail)
    ensures head + "\n" + (inner + "\n" + tail) == head + ("\n" + (inner + "\n" + tail))
  {
  }

  /** Splicing into text framed by the markers replaces exactly what lies
      between them, when no END marker hides in it. */
  lemma SpliceFramed(m: Markers, head: string, inner: string, tail: string, table: string)
    requires WellFormed(m) && IsHead(m, head) && OccursAt(tail, m.end, 0) && !Occurs(inner, m.end)
    ensures SpliceTable(m, head + "\n" + inner + "\n" + tail, table) == Spliced(head + "\n" + table + "\n" + tail)
  {
    Regroup(head, inner, tail);
    FirstBegin(m, head, "\n" + (inner + "\n" + tail));
    FirstEnd(m, head, inner, tail);
    Slices(head, inner, tail);
  }

  lemma Slices(head: string, inner: string, tail: string)
    ensures var s := head + "\n" + (inner + "\n" + tail);
      s[..|head|] == head && s[|head| + |inner| + 2..] == tail
  {
  }

  /** When the table being replaced hides an END marker, part of it stays behind. */
  lemma SpliceOverHiddenMarker(m: Markers, head: string, inner: string, tail: string, table: string)
    requires WellFormed(m) && IsHead(m, head) && Occurs(inner, m.end)
    ensures SpliceTable(m, head + "\n" + inner + "\n" + tail, table) != Spliced(head + "\n" + table + "\n" + tail)
  {
    Regroup(head, inner, tail);
    FirstBegin(m, head, "\n" + (inner + "\n" + tail));
    var s := head + "\n" + (inner + "\n" + tail);
    HiddenEnd(m, head, inner, tail);
    var end := Find(s, m.end, 0);
    var spliced := SpliceTable(m, s, table);
    if spliced.Spliced? {
      assert |spliced.text| == |head| + 2 + |table| + (|s| - end);
      assert |head + "\n" + table + "\n" + tail| == |head| + 2 + |table| + |tail|;
    }
  }

  lemma HiddenEnd(m: Markers, head: string, inner: string, tail: string)
    requires Occurs(inner, m.end)
    ensures 0 <= Find(head + "\n" + (inner + "\n" + tail), m.end, 0) <= |head| + 1 + |inner|
  {
    var k :| OccursAt(inner, m.end, k);
    OccursInPrefix(inner, "\n" + tail, m.end, k);
    assert inner + ("\n" + tail) == inner + "\n" + tail;
    OccursInSuffix(head + "\n", inner + "\n" + tail, m.end, k);
  }

  /** A splice that is accepted frames the table by what surrounds the markers. */
  lemma SpliceIsFramed(m: Markers, readme: string, table: string)
    requires Accepts(m, readme)
    ensures SpliceTable(m, readme, table) ==
      Spliced(HeadText(m, readme) + "\n" + table + "\n" + TailText(m, readme))
  {
  }

  /** Where a table without an END marker was spliced in, a later one replaces it. */
  lemma CleanTableForgotten(m: Markers, readme: string, first: string, second: string)
    requires WellFormed(m) && Accepts(m, readme) && !Occurs(first, m.end)
    ensures SpliceTable(m, SpliceTable(m, readme, first).text, second) == SpliceTable(m, readme, second)
  {
    AcceptedHasFrame(m, readme);
    SpliceIsFramed(m, readme, first);
    SpliceIsFramed(m, readme, second);
    SpliceFramed(m, HeadText(m, readme), first, TailText(m, readme), second);
  }

  /** Where the table hides an END marker, even an empty one leaves part of it. */
  lemma HidingTableStays(m: Markers, readme: string, first: string)
    requires WellFormed(m) && Accepts(m, readme) && Occurs(first, m.end)
    ensures SpliceTable(m, SpliceTable(m, readme, first).text, "") != SpliceTable(m, readme, "")
  {
    AcceptedHasFrame(m, readme);
    SpliceIsFramed(m, readme, first);
    SpliceIsFramed(m, readme, "");
    SpliceOverHiddenMarker(m, HeadText(m, readme), first, TailText(m, readme), "");
  }

  /** Re-splicing forgets the earlier table exactly when that table contains
      no END marker: then, whatever table comes next, splice after splice is
      the last splice alone. */
  lemma ResplicingForgets(m: Markers, readme: string, first: string)
    requires WellFormed(m) && SpliceTable(m, readme, first).Spliced?
    ensures (forall second :: SpliceTable(m, SpliceTable(m, readme, first).text, second) == SpliceTable(m, readme, second))
      <==> !Occurs(first, m.end)
  {
    if Occurs(first, m.end) {
      HidingTableStays(m, readme, first);
    } else {
      forall second
        ensures SpliceTable(m, SpliceTable(m, readme, first).text, second) == SpliceTable(m, readme, second)
      {
        CleanTableForgotten(m, readme, first, second);
      }
    }
  }

  // The generator and its check

  datatype Table = Table(readme: Path, markdown: string)

  type Files = map<Path, string>

  /** Every README with a table, mapped to the content it should have; None when a splice is refused. */
  datatype Generated = Generated(content: map<Path, string>) | Refused

  function Collect(m: Markers, files: Files, tables: seq<Table>): Generated
    requires forall t <- tables :: t.readme in files
  {
    if tables == [] then Generated(map[])
    else
      var last := tables[|tables| - 1];
      match Collect(m, files, tables[..|tables| - 1])
      case Refused => Refused
      case Generated(content) =>
        match SpliceTable(m, files[last.readme], last.markdown)
        case Spliced(text) => Generated(content[last.readme := text])
        case _ => Refused
  }

  /** The generated files whose content on disk differs. */
  method FindStaleFiles(files: Files, generated: map<Path, string>) returns (stale: set<Path>)
    ensures stale == set p | p in generated && !(p in files && files[p] == generated[p])
  {
    stale := {};
    var remaining := generated.Keys;
    while remaining != {}
      invariant remaining <= generated.Keys
      invariant stale == set p | p in generated && p !in remaining && !(p in files && files[p] == generated[p])
      decreases |remaining|
    {
      var p :| p in remaining;
      if !(p in files && files[p] == generated[p]) { stale := stale + {p}; }
      remaining := remaining - {p};
    }
  }

  /** The default run: every stale file is overwritten with its expected content. */
  function WriteStale(files: Files, generated: map<Path, string>): Files
  {
    files + generated
  }

  ghost predicate IsStale(files: Files, generated: map<Path, string>, p: Path)
  {
    p in generated && !(p in files && files[p] == generated[p])
  }

  /** A collected file is some table's splice into what is on disk. */
  ghost predicate IsSpliceOf(m: Markers, files: Files, tables: seq<Table>, p: Path, text: string)
    requires forall t <- tables :: t.readme in files
  {
    exists t :: t in tables && t.readme == p && Spliced(text) == SpliceTable(m, files[p], t.markdown)
  }

  lemma {:induction false} CollectIs(m: Markers, files: Files, tables: seq<Table>)
    requires forall t <- tables :: t.readme in files
    requires Collect(m, files, tables).Generated?
    ensures forall p :: p in Collect(m, files, tables).content ==>
      IsSpliceOf(m, files, tables, p, Collect(m, files, tables).content[p])
  {
    if tables != [] {
      var init, last := tables[..|tables| - 1], tables[|tables| - 1];
      CollectIs(m, files, init);
      var content := Collect(m, files, tables).content;
      forall p | p in content ensures IsSpliceOf(m, files, tables, p, content[p]) {
        if p == last.readme {
          assert last in tables;
        } else {
          assert IsSpliceOf(m, files, init, p, content[p]);
        }
      }
    }
  }

  /** Splicing the same tables into files already spliced once gives the same content. */
  lemma {:induction false} CollectAgain(m: Markers, files: Files, written: Files, tables: seq<Table>)
    requires WellFormed(m)
    requires forall t <- tables :: t.readme in files && t.readme in written && !Occurs(t.markdown, m.end)
    requires forall t <- tables :: exists earlier ::
      !Occurs(earlier, m.end) && Spliced(written[t.readme]) == SpliceTable(m, files[t.readme], earlier)
    ensures Collect(m, files, tables) == Collect(m, written, tables)
  {
    if tables != [] {
      var init, last := tables[..|tables| - 1], tables[|tables| - 1];
      assert forall t <- init :: t in tables;
      CollectAgain(m, files, written, init);
      assert last in tables;
      var earlier :| !Occurs(earlier, m.end) && Spliced(written[last.readme]) == SpliceTable(m, files[last.readme], earlier);
      ResplicingForgets(m, files[last.readme], earlier);
    }
  }

  /** Right after a write, `--check` finds nothing stale. */
  lemma NothingStaleAfterWrite(m: Markers, files: Files, tables: seq<Table>)
    requires WellFormed(m)
    requires forall t <- tables :: t.readme in files && !Occurs(t.markdown, m.end)
    requires Collect(m, files, tables).Generated?
    ensures var written := WriteStale(files, Collect(m, files, tables).content);
      && (forall t <- tables :: t.readme in written)
      && Collect(m, written, tables).Generated?
      && forall p :: !IsStale(written, Collect(m, written, tables).content, p)
  {
    var content := Collect(m, files, tables).content;
    var written := WriteStale(files, content);
    CollectIs(m, files, tables);
    CollectKeys(m, files, tables);
    forall t <- tables
      ensures exists earlier :: !Occurs(earlier, m.end) && Spliced(written[t.readme]) == SpliceTable(m, files[t.readme], earlier)
    {
      assert IsSpliceOf(m, files, tables, t.readme, content[t.readme]);
    }
    CollectAgain(m, files, written, tables);
  }

  lemma {:induction false} CollectKeys(m: Markers, files: Files, tables: seq<Table>)
    requires forall t <- tables :: t.readme in files
    requires Collect(m, files, tables).Generated?
    ensures forall t <- tables :: t.readme in Collect(m, files, tables).content
  {
    if tables != [] {
      var init, last := tables[..|tables| - 1], tables[|tables| - 1];
      CollectKeys(m, files, init);
      assert tables == init + [last];
    }
  }

  // Which files are accepted

  /** The first occurrence of `marker` is at `i`. */
  ghost predicate IsFirst(text: string, marker: string, i: nat)
  {
    OccursAt(text, marker, i) && forall j :: 0 <= j < i ==> !OccursAt(text, marker, j)
  }

  /** A file without one of the markers is refused, and so is one whose first
      END marker comes before its first BEGIN marker. Any other keeps everything
      up to and including its first BEGIN marker and everything from its first
      END marker on, with the table between. */
  lemma SpliceMeaning(m: Markers, readme: string, table: string, b: nat, e: nat)
    ensures SpliceTable(m, readme, table) == MissingMarkers <==> !Occurs(readme, m.begin) || !Occurs(readme, m.end)
    ensures IsFirst(readme, m.begin, b) && IsFirst(readme, m.end, e) ==>
      SpliceTable(m, readme, table) ==
        if e < b then WrongOrder else Spliced(readme[..b + |m.begin|] + "\n" + table + "\n" + readme[e..])
  {
    if IsFirst(readme, m.begin, b) && IsFirst(readme, m.end, e) {
      assert Occurs(readme, m.begin) && Occurs(readme, m.end);
      assert Find(readme, m.begin, 0) == b && Find(readme, m.end, 0) == e;
    }
  }
}
