/** Reassembling output chunks into whole lines
    (apps/minds/electron/log-timestamp.js:41-60). */
module LineSplitter {
  import opened Options
  import opened Text

  /** The lines `text` completes: every piece but the last of a split on newlines. */
  function Lines(text: string): seq<string>
  {
    var parts := SplitOn(text, "\n");
    parts[..|parts| - 1]
  }

  /** What follows the last newline. */
  function Rest(text: string): string
  {
    var parts := SplitOn(text, "\n");
    parts[|parts| - 1]
  }

  /** The text a list of lines stands for, each ended by its newline. */
  function Unlines(lines: seq<string>): string
  {
    if lines == [] then "" else lines[0] + "\n" + Unlines(lines[1..])
  }

  ghost predicate OneLineEach(lines: seq<string>)
  {
    forall i :: 0 <= i < |lines| ==> '\n' !in lines[i]
  }

  function Concat(chunks: seq<string>): string
  {
    if chunks == [] then "" else chunks[0] + Concat(chunks[1..])
  }

  /** A line splitter: the partial line held back so far. */
  class Splitter {
    var buffer: string

    constructor ()
      ensures buffer == ""
    {
      buffer := "";
    }

    /** Hands back the lines this chunk completes and holds back the partial one. */
    method Push(text: string) returns (lines: seq<string>)
      modifies this
      ensures Unlines(lines) + buffer == old(buffer) + text
      ensures OneLineEach(lines) && '\n' !in buffer
      ensures lines == Lines(old(buffer) + text) && buffer == Rest(old(buffer) + text)
    {
      LinesRejoin(buffer + text);
      buffer := buffer + text;
      var parts := SplitOn(buffer, "\n");
      buffer := parts[|parts| - 1];
      lines := parts[..|parts| - 1];
    }

    /** Surfaces the partial line, once. */
    method Flush() returns (remainder: Option<string>)
      modifies this
      ensures buffer == ""
      ensures remainder == if old(buffer) == "" then None else Some(old(buffer))
    {
      if buffer == "" { return None; }
      remainder := Some(buffer);
      buffer := "";
    }
  }

  lemma NoOccurrenceNoBreak(s: string)
    requires !Occurs(s, "\n")
    ensures '\n' !in s
  {
    forall i | 0 <= i < |s| ensures s[i] != '\n' {
      assert !OccursAt(s, "\n", i);
      assert s[i..i + 1] == [s[i]];
    }
  }

  lemma {:induction false} JoinIsUnlines(parts: seq<string>)
    requires parts != []
    ensures Join(parts, "\n") == Unlines(parts[..|parts| - 1]) + parts[|parts| - 1]
  {
    if |parts| > 1 {
      JoinIsUnlines(parts[1..]);
      assert parts[..|parts| - 1][1..] == parts[1..][..|parts| - 2];
    }
  }

  /** Lines and rest rejoin to the text, and hold no newline themselves. */
  lemma LinesRejoin(text: string)
    ensures Unlines(Lines(text)) + Rest(text) == text
    ensures OneLineEach(Lines(text)) && '\n' !in Rest(text)
  {
    var parts := SplitOn(text, "\n");
    SplitOnJoins(text, "\n");
    JoinIsUnlines(parts);
    forall i | 0 <= i < |parts| ensures '\n' !in parts[i] { NoOccurrenceNoBreak(parts[i]); }
  }

  lemma {:induction false} FirstBreak(a: string, x: string, b: string, y: string)
    requires '\n' !in a && '\n' !in b && a + "\n" + x == b + "\n" + y
    ensures a == b && x == y
  {
    var s := a + "\n" + x;
    assert s[|a|] == '\n' && s[|b|] == '\n';
    assert forall i :: 0 <= i < |a| ==> s[i] == a[i];
    assert forall i :: 0 <= i < |b| ==> s[i] == b[i];
    assert |a| == |b|;
    assert a == s[..|a|] == b && x == s[|a| + 1..] == y;
  }

  lemma BreakShowsLines(lines: seq<string>, rest: string)
    requires '\n' !in rest
    ensures '\n' in Unlines(lines) + rest <==> lines != []
  {
    if lines == [] {
      assert Unlines(lines) + rest == rest;
    } else {
      assert (Unlines(lines) + rest)[|lines[0]|] == '\n';
    }
  }

  /** A text has only one division into newline-free lines and rest. */
  lemma {:induction false} OneDivision(ls: seq<string>, r: string, ms: seq<string>, q: string)
    requires OneLineEach(ls) && OneLineEach(ms) && '\n' !in r && '\n' !in q
    requires Unlines(ls) + r == Unlines(ms) + q
    ensures ls == ms && r == q
  {
    BreakShowsLines(ls, r);
    BreakShowsLines(ms, q);
    if ls == [] {
      assert Unlines(ls) + r == r && Unlines(ms) + q == q;
    } else {
      assert Unlines(ls) + r == ls[0] + "\n" + (Unlines(ls[1..]) + r);
      assert Unlines(ms) + q == ms[0] + "\n" + (Unlines(ms[1..]) + q);
      FirstBreak(ls[0], Unlines(ls[1..]) + r, ms[0], Unlines(ms[1..]) + q);
      OneDivision(ls[1..], r, ms[1..], q);
      assert ls == [ls[0]] + ls[1..] && ms == [ms[0]] + ms[1..];
    }
  }

  // Whole runs

  /** All lines handed back over a run of pushes, and what is left in the buffer. */
  function RunLines(buffer: string, chunks: seq<string>): seq<string>
    decreases |chunks|
  {
    if chunks == [] then []
    else Lines(buffer + chunks[0]) + RunLines(Rest(buffer + chunks[0]), chunks[1..])
  }

  function RunRest(buffer: string, chunks: seq<string>): string
    decreases |chunks|
  {
    if chunks == [] then buffer else RunRest(Rest(buffer + chunks[0]), chunks[1..])
  }

  lemma {:induction false} UnlinesSplits(a: seq<string>, b: seq<string>)
    ensures Unlines(a + b) == Unlines(a) + Unlines(b)
  {
    if a == [] {
      assert a + b == b;
    } else {
      UnlinesSplits(a[1..], b);
      assert (a + b)[1..] == a[1..] + b;
    }
  }

  /** Over any run the lines handed back and the held-back rest are exactly the text pushed. */
  lemma {:induction false} RunRejoins(buffer: string, chunks: seq<string>)
    requires '\n' !in buffer
    ensures Unlines(RunLines(buffer, chunks)) + RunRest(buffer, chunks) == buffer + Concat(chunks)
    ensures OneLineEach(RunLines(buffer, chunks)) && '\n' !in RunRest(buffer, chunks)
    decreases |chunks|
  {
    if chunks == [] {
      assert buffer + Concat(chunks) == buffer;
    } else {
      var text := buffer + chunks[0];
      var later, rest := RunLines(Rest(text), chunks[1..]), RunRest(Rest(text), chunks[1..]);
      LinesRejoin(text);
      RunRejoins(Rest(text), chunks[1..]);
      UnlinesSplits(Lines(text), later);
      Carry(buffer, chunks[0], Concat(chunks[1..]), Unlines(Lines(text)), Rest(text), Unlines(later), rest);
    }
  }

  lemma Carry(buffer: string, chunk: string, more: string, lines: string, held: string, later: string, rest: string)
    requires lines + held == buffer + chunk && later + rest == held + more
    ensures lines + later + rest == buffer + (chunk + more)
  {
    assert lines + later + rest == lines + (later + rest) == lines + held + more;
    assert buffer + chunk + more == buffer + (chunk + more);
  }

  /** The chunking does not matter: the same text, cut up in any two ways,
      yields the same lines and the same remainder to flush. */
  lemma ChunkingIrrelevant(chunks: seq<string>, others: seq<string>)
    requires Concat(chunks) == Concat(others)
    ensures RunLines("", chunks) == RunLines("", others) && RunRest("", chunks) == RunRest("", others)
  {
    RunRejoins("", chunks);
    RunRejoins("", others);
    OneDivision(RunLines("", chunks), RunRest("", chunks), RunLines("", others), RunRest("", others));
  }

  // Stamped records

  /** One log record: a stamp, the line as captured, one newline. */
  function FormatTimestampedLine(line: string, stamp: string): string
  {
    stamp + " " + line + "\n"
  }

  /** A stamp and a line can be told apart again when the stamp has no blank in it. */
  lemma RecordReadsBack(line: string, stamp: string, line': string, stamp': string)
    requires ' ' !in stamp && ' ' !in stamp'
    requires FormatTimestampedLine(line, stamp) == FormatTimestampedLine(line', stamp')
    ensures line == line' && stamp == stamp'
  {
    var s := FormatTimestampedLine(line, stamp);
    assert s[|stamp|] == ' ' && s[|stamp'|] == ' ';
    assert forall i :: 0 <= i < |stamp| ==> s[i] == stamp[i];
    assert forall i :: 0 <= i < |stamp'| ==> s[i] == stamp'[i];
    assert |stamp| == |stamp'|;
    assert stamp == s[..|stamp|] == stamp';
    assert line == s[|stamp| + 1..|s| - 1] == line';
  }
}
