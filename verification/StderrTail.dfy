/** The bounded ring of a dying backend's last stderr lines
    (apps/minds/electron/backend-exit-diagnostics.js:36-54). */
module StderrTail {

  const MAX_LINES := 20
  const MAX_CHARS := 4096

  function TotalChars(lines: seq<string>): nat
  {
    if lines == [] then 0 else |lines[0]| + TotalChars(lines[1..])
  }

  predicate Fits(lines: seq<string>)
  {
    |lines| <= MAX_LINES && TotalChars(lines) <= MAX_CHARS
  }

  /** `tail` is what follows the first `k` lines, and no longer end of `all` fits. */
  ghost predicate IsLongestFit(tail: seq<string>, all: seq<string>)
  {
    && |tail| <= |all| && tail == all[|all| - |tail|..] && Fits(tail)
    && forall k :: 0 <= k < |all| - |tail| ==> !Fits(all[k..])
  }

  // Which lines are kept, and as what

  /** White space and line terminators, as `trim` strips them. */
  predicate IsBlank(c: char)
  {
    || '\t' <= c <= '\r' || c == ' ' || c == '\U{00A0}' || c == '\U{1680}' || '\U{2000}' <= c <= '\U{200A}'
    || c == '\U{2028}' || c == '\U{2029}' || c == '\U{202F}' || c == '\U{205F}' || c == '\U{3000}' || c == '\U{FEFF}'
  }

  function TrimEnd(s: string): (r: string)
    ensures r <= s && (r != "" ==> !IsBlank(r[|r| - 1]))
    ensures forall i :: |r| <= i < |s| ==> IsBlank(s[i])
  {
    if s == "" || !IsBlank(s[|s| - 1]) then s else TrimEnd(s[..|s| - 1])
  }

  /** How a line is judged and cleaned: whether it carries a credential, and
      what replacing the home directory makes of it. */
  datatype Rules = Rules(isSecret: string -> bool, scrub: string -> string)

  predicate Accepts(rules: Rules, line: string)
  {
    TrimEnd(line) != "" && !rules.isSecret(TrimEnd(line))
  }

  /** The last `MAX_CHARS` characters of the trimmed, scrubbed line. */
  function Stored(rules: Rules, line: string): (r: string)
    ensures |r| <= MAX_CHARS
  {
    var s := rules.scrub(TrimEnd(line));
    if |s| <= MAX_CHARS then s else s[|s| - MAX_CHARS..]
  }

  /** Every line of `lines` that is kept, as it is stored, in order. */
  function StoredAll(rules: Rules, lines: seq<string>): seq<string>
  {
    if lines == [] then []
    else
      var init, last := StoredAll(rules, lines[..|lines| - 1]), lines[|lines| - 1];
      if Accepts(rules, last) then init + [Stored(rules, last)] else init
  }

  function Init<T>(s: seq<T>): seq<T>
    requires s != []
  {
    s[..|s| - 1]
  }

  lemma StoredAllAppend(rules: Rules, lines: seq<string>, line: string)
    ensures StoredAll(rules, lines + [line]) ==
      if Accepts(rules, line) then StoredAll(rules, lines) + [Stored(rules, line)] else StoredAll(rules, lines)
  {
    assert (lines + [line])[..|lines|] == lines;
  }

  /** The longest end of `all` within both bounds. */
  function TailOf(all: seq<string>): (tail: seq<string>)
    ensures IsLongestFit(tail, all)
  {
    if Fits(all) then all
    else
      assert all != [];
      var tail := TailOf(all[1..]);
      assert tail == all[1..][|all| - 1 - |tail|..] == all[|all| - |tail|..];
      assert forall k :: 0 < k < |all| ==> all[k..] == all[1..][k - 1..];
      tail
  }

  class Tail {
    const rules: Rules
    var lines: seq<string>
    var totalChars: int
    /** Every line ever pushed. */
    ghost var pushed: seq<string>

    ghost predicate Valid()
      reads this
    {
      totalChars == TotalChars(lines) && IsLongestFit(lines, StoredAll(rules, pushed))
    }

    constructor (rules: Rules)
      ensures Valid() && pushed == [] && this.rules == rules
    {
      this.rules := rules;
      lines, totalChars, pushed := [], 0, [];
    }

    method Push(line: string)
      requires Valid()
      modifies this
      ensures Valid() && pushed == old(pushed) + [line]
    {
      StoredAllAppend(rules, pushed, line);
      pushed := pushed + [line];
      var trimmed := TrimEnd(line);
      if trimmed != "" && !rules.isSecret(trimmed) {
        Keep(Stored(rules, line), StoredAll(rules, pushed));
      }
    }

    /** Appends one stored line, then drops the oldest until both bounds hold. */
    method Keep(scrubbed: string, ghost all: seq<string>)
      requires |scrubbed| <= MAX_CHARS && totalChars == TotalChars(lines)
      requires all != [] && all[|all| - 1] == scrubbed && IsLongestFit(lines, Init(all))
      modifies `lines, `totalChars
      ensures totalChars == TotalChars(lines) && IsLongestFit(lines, all)
    {
      PushedOne(lines, Init(all), scrubbed);
      assert all == Init(all) + [scrubbed];
      lines := lines + [scrubbed];
      totalChars := totalChars + |scrubbed|;
      Evict(all);
    }

    /** Drops the oldest lines until both bounds hold. */
    method Evict(ghost all: seq<string>)
      requires lines != [] && EndsAt(lines, all) && totalChars == TotalChars(lines)
      modifies `lines, `totalChars
      ensures totalChars == TotalChars(lines) && IsLongestFit(lines, all)
    {
      while |lines| > MAX_LINES || totalChars > MAX_CHARS
        invariant lines != [] && EndsAt(lines, all)
        invariant totalChars == TotalChars(lines)
        decreases |lines|
      {
        EvictedOne(lines, all);
        totalChars := totalChars - |lines[0]|;
        lines := lines[1..];
      }
    }

    /** The lines a startup error carries: never none once one was kept. */
    method Lines() returns (copy: seq<string>)
      requires Valid()
      ensures copy == TailOf(StoredAll(rules, pushed))
      ensures |copy| <= 20 && TotalChars(copy) <= 4096
      ensures copy == [] <==> forall line <- pushed :: !Accepts(rules, line)
    {
      copy := lines;
      ghost var all := StoredAll(rules, pushed);
      LongestFitUnique(lines, TailOf(all), all);
      StoredNone(rules, pushed);
      LastLineKept(lines, all);
    }
  }

  lemma {:induction false} TotalCharsAppend(lines: seq<string>, line: string)
    ensures TotalChars(lines + [line]) == TotalChars(lines) + |line|
  {
    if lines == [] {
      assert lines + [line] == [line] && TotalChars([line][1..]) == 0;
    } else {
      TotalCharsAppend(lines[1..], line);
      assert (lines + [line])[1..] == lines[1..] + [line];
    }
  }

  /** `tail` is an end of `all`, no longer end fits, and one line of it alone does. */
  ghost predicate EndsAt(tail: seq<string>, all: seq<string>)
  {
    && |tail| <= |all| && tail == all[|all| - |tail|..]
    && (forall k :: 0 <= k < |all| - |tail| ==> !Fits(all[k..]))
    && (tail != [] ==> |tail[|tail| - 1]| <= MAX_CHARS)
  }

  /** An end that did not fit does not fit with one more line either. */
  lemma PushedOne(tail: seq<string>, all: seq<string>, line: string)
    requires IsLongestFit(tail, all) && |line| <= MAX_CHARS
    ensures EndsAt(tail + [line], all + [line])
    ensures TotalChars(tail + [line]) == TotalChars(tail) + |line|
  {
    TotalCharsAppend(tail, line);
    forall k | 0 <= k < |all| - |tail| ensures !Fits((all + [line])[k..]) {
      assert (all + [line])[k..] == all[k..] + [line];
      TotalCharsAppend(all[k..], line);
      assert !Fits(all[k..]);
    }
  }

  /** A single stored line always fits, so eviction stops before the ring is empty. */
  lemma EvictedOne(tail: seq<string>, all: seq<string>)
    requires EndsAt(tail, all) && tail != [] && !Fits(tail)
    ensures |tail| > 1 && EndsAt(tail[1..], all)
    ensures TotalChars(tail[1..]) == TotalChars(tail) - |tail[0]|
  {
    OneLineFits(tail);
    assert tail[1..] == all[|all| - |tail[1..]|..];
    forall k | 0 <= k < |all| - |tail[1..]| ensures !Fits(all[k..]) {
      assert k < |all| - |tail| || all[k..] == tail;
    }
  }

  lemma OneLineFits(lines: seq<string>)
    requires lines != []
    ensures |lines| == 1 ==> TotalChars(lines) == |lines[0]|
  {
    if |lines| == 1 { assert lines[1..] == []; }
  }

  lemma NoLongerFit(tail: seq<string>, other: seq<string>, all: seq<string>)
    requires IsLongestFit(tail, all) && |other| <= |all| && other == all[|all| - |other|..] && Fits(other)
    ensures |other| <= |tail|
  {
    assert Fits(all[|all| - |other|..]);
  }

  lemma LongestFitUnique(a: seq<string>, b: seq<string>, all: seq<string>)
    requires IsLongestFit(a, all) && IsLongestFit(b, all)
    ensures a == b
  {
    NoLongerFit(a, b, all);
    NoLongerFit(b, a, all);
  }

  lemma LastLineKept(tail: seq<string>, all: seq<string>)
    requires IsLongestFit(tail, all)
    requires forall s <- all :: |s| <= MAX_CHARS
    ensures tail == [] <==> all == []
  {
    if all != [] {
      var last := all[|all| - 1..];
      assert last == [all[|all| - 1]];
      OneLineFits(last);
      NoLongerFit(tail, last, all);
    }
  }

  lemma {:induction false} StoredNone(rules: Rules, lines: seq<string>)
    ensures StoredAll(rules, lines) == [] <==> forall line <- lines :: !Accepts(rules, line)
    ensures forall s <- StoredAll(rules, lines) :: |s| <= MAX_CHARS
  {
    if lines != [] {
      var init, last := lines[..|lines| - 1], lines[|lines| - 1];
      StoredNone(rules, init);
      assert lines == init + [last];
    }
  }

  lemma {:induction false} StoredAllJoined(rules: Rules, a: seq<string>, b: seq<string>)
    ensures StoredAll(rules, a + b) == StoredAll(rules, a) + StoredAll(rules, b)
  {
    if b == [] {
      assert a + b == a;
    } else {
      StoredAllJoined(rules, a, b[..|b| - 1]);
      assert (a + b)[..|a + b| - 1] == a + b[..|b| - 1];
    }
  }

  /** Line by line: a line is passed over exactly when it is nothing but blanks
      or carries a credential; any other is kept once, as the last 4096
      characters of what replacing the home directory makes of it without its
      trailing blanks. */
  lemma KeptLineByLine(rules: Rules, a: seq<string>, line: string, b: seq<string>)
    ensures var kept := StoredAll(rules, a + [line] + b);
      if (forall c <- line :: IsBlank(c)) || rules.isSecret(TrimEnd(line)) then
        kept == StoredAll(rules, a) + StoredAll(rules, b)
      else
        var clean := rules.scrub(TrimEnd(line));
        exists end: string ::
          && kept == StoredAll(rules, a) + [end] + StoredAll(rules, b)
          && |end| == (if |clean| <= 4096 then |clean| else 4096) && end == clean[|clean| - |end|..]
  {
    StoredAllJoined(rules, a + [line], b);
    StoredAllJoined(rules, a, [line]);
    BlankTrimsAway(line);
    assert StoredAll(rules, [line][..0]) == [];
    if !(forall c <- line :: IsBlank(c)) && !rules.isSecret(TrimEnd(line)) {
      var end := Stored(rules, line);
      assert StoredAll(rules, [line]) == [end];
      assert StoredAll(rules, a + [line] + b) == StoredAll(rules, a) + [end] + StoredAll(rules, b);
    }
  }

  lemma BlankTrimsAway(line: string)
    ensures TrimEnd(line) == "" <==> forall c <- line :: IsBlank(c)
  {
    if TrimEnd(line) != "" {
      var last := TrimEnd(line)[|TrimEnd(line)| - 1];
      assert last in line;
    }
  }
}
