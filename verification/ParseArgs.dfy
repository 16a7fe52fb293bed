/** The command line tokenizer: strtok over the line, in place, into a growing argument buffer. */
module ParseArgs {

  const ARGS_BUF_SIZE := 16
  const NUL := '\0'
  const NULL := -1  // the null pointer among token pointers, which are indices into the line

  predicate IsDelim(c: char) { c == ' ' || c == '\t' || c == '\n' || c == '\r' }

  /** A token as a slice of the line. */
  datatype Span = Span(start: nat, end: nat)

  /** The first position at or after `i` that holds no delimiter. */
  function SkipDelims(s: string, i: nat): (j: nat)
    requires i <= |s|
    ensures i <= j <= |s| && (j < |s| ==> !IsDelim(s[j]))
    ensures forall k :: i <= k < j ==> IsDelim(s[k])
    decreases |s| - i
  {
    if i < |s| && IsDelim(s[i]) then SkipDelims(s, i + 1) else i
  }

  /** The first position at or after `i` that holds a delimiter. */
  function TokenEnd(s: string, i: nat): (j: nat)
    requires i <= |s|
    ensures i <= j <= |s| && (j < |s| ==> IsDelim(s[j]))
    ensures forall k :: i <= k < j ==> !IsDelim(s[k])
    decreases |s| - i
  {
    if i < |s| && !IsDelim(s[i]) then TokenEnd(s, i + 1) else i
  }

  /** The tokens of `s` from position `i` on. */
  function Tokens(s: string, i: nat): seq<Span>
    requires i <= |s|
    decreases |s| - i
  {
    var start := SkipDelims(s, i);
    if start == |s| then [] else [Span(start, TokenEnd(s, start))] + Tokens(s, TokenEnd(s, start))
  }

  /* ---- what a tokenization is ---- */

  /** A maximal non-empty run without delimiters. */
  predicate IsRun(s: string, t: Span) {
    && t.start < t.end <= |s|
    && (forall k :: t.start <= k < t.end ==> !IsDelim(s[k]))
    && (t.start == 0 || IsDelim(s[t.start - 1]))
    && (t.end == |s| || IsDelim(s[t.end]))
  }

  predicate Covers(t: Span, k: nat) { t.start <= k < t.end }

  /** Exactly the maximal runs, in order: every character outside the delimiters lies in one of them. */
  ghost predicate IsTokenization(s: string, ts: seq<Span>, from: nat) {
    && (forall n :: 0 <= n < |ts| ==> IsRun(s, ts[n]) && from <= ts[n].start)
    && (forall m, n :: 0 <= m < n < |ts| ==> ts[m].end < ts[n].start)
    && (forall k :: from <= k < |s| && !IsDelim(s[k]) ==> exists n :: 0 <= n < |ts| && Covers(ts[n], k))
  }

  /** A tokenizer may start where no run is cut. */
  predicate AtBoundary(s: string, i: nat) { i <= |s| && (i == 0 || i == |s| || IsDelim(s[i]) || IsDelim(s[i - 1])) }

  lemma {:induction false} Prepend(s: string, t: Span, rest: seq<Span>, from: nat)
    requires IsRun(s, t) && from <= t.start && (forall k :: from <= k < t.start ==> IsDelim(s[k]))
    requires IsTokenization(s, rest, t.end)
    ensures IsTokenization(s, [t] + rest, from)
  {
    var ts := [t] + rest;
    forall n | 0 <= n < |rest| ensures t.end < rest[n].start {
      assert IsRun(s, rest[n]) && t.end <= rest[n].start;
    }
    forall k | from <= k < |s| && !IsDelim(s[k]) ensures exists n :: 0 <= n < |ts| && Covers(ts[n], k) {
      if k < t.end {
        assert Covers(ts[0], k);
      } else {
        var n :| 0 <= n < |rest| && Covers(rest[n], k);
        assert Covers(ts[n + 1], k);
      }
    }
  }

  /** The recursive tokens are a tokenization. */
  lemma {:induction false} TokensAreRuns(s: string, i: nat)
    requires AtBoundary(s, i)
    ensures IsTokenization(s, Tokens(s, i), i)
    decreases |s| - i
  {
    var start := SkipDelims(s, i);
    if start < |s| {
      var t := Span(start, TokenEnd(s, start));
      assert TokenEnd(s, start) == TokenEnd(s, start + 1);
      assert start > i ==> IsDelim(s[start - 1]);
      assert IsRun(s, t);
      TokensAreRuns(s, t.end);
      hide IsTokenization;
      Prepend(s, t, Tokens(s, t.end), i);
    }
  }

  lemma {:induction false} RunsMeet(s: string, t: Span, u: Span, k: nat)
    requires IsRun(s, t) && IsRun(s, u) && Covers(t, k) && Covers(u, k)
    ensures t == u
  {
  }

  /** Earlier in one tokenization means earlier in the other. */
  lemma {:induction false} FirstRun(s: string, ts: seq<Span>, us: seq<Span>, from: nat)
    requires IsTokenization(s, ts, from) && IsTokenization(s, us, from) && |ts| > 0
    ensures |us| > 0 && us[0] == ts[0]
  {
    var k := ts[0].start;
    assert IsRun(s, ts[0]) && !IsDelim(s[k]);
    var n :| 0 <= n < |us| && Covers(us[n], k);
    RunsMeet(s, ts[0], us[n], k);
    if n > 0 {
      assert IsRun(s, us[0]) && !IsDelim(s[us[0].start]);
      var m :| 0 <= m < |ts| && Covers(ts[m], us[0].start);
      RunsMeet(s, us[0], ts[m], us[0].start);
      assert us[0].end < us[n].start;
    }
  }

  lemma {:induction false} DropFirst(s: string, ts: seq<Span>, from: nat)
    requires IsTokenization(s, ts, from) && |ts| > 0
    ensures IsTokenization(s, ts[1..], ts[0].end)
  {
    var rest, first := ts[1..], ts[0];
    assert IsRun(s, first);
    forall n | 0 <= n < |rest| ensures IsRun(s, rest[n]) && first.end <= rest[n].start {
      assert rest[n] == ts[n + 1] && ts[0].end < ts[n + 1].start;
    }
    forall k | first.end <= k < |s| && !IsDelim(s[k]) ensures exists n :: 0 <= n < |rest| && Covers(rest[n], k) {
      var n :| 0 <= n < |ts| && Covers(ts[n], k);
      assert Covers(rest[n - 1], k);
    }
  }

  /** There is only one tokenization of a line. */
  lemma {:induction false} TokenizationUnique(s: string, ts: seq<Span>, us: seq<Span>, from: nat)
    requires IsTokenization(s, ts, from) && IsTokenization(s, us, from)
    ensures ts == us
    decreases |ts|
  {
    hide IsTokenization;
    if |ts| > 0 {
      FirstRun(s, ts, us, from);
      DropFirst(s, ts, from);
      DropFirst(s, us, from);
      TokenizationUnique(s, ts[1..], us[1..], ts[0].end);
      assert ts == [ts[0]] + ts[1..] && us == [us[0]] + us[1..];
    } else if |us| > 0 {
      FirstRun(s, us, ts, from);
    }
  }

  /** parse_args's tokens are the one list of all maximal delimiter-free runs in order. */
  lemma {:induction false} TokensExactly(s: string, ts: seq<Span>)
    ensures IsTokenization(s, ts, 0) <==> ts == Tokens(s, 0)
  {
    TokensAreRuns(s, 0);
    if IsTokenization(s, ts, 0) {
      TokenizationUnique(s, ts, Tokens(s, 0), 0);
    }
  }

  /** The command pointer is NULL exactly for a line of delimiters only. */
  lemma {:induction false} NoCommandExactly(s: string)
    ensures Tokens(s, 0) == [] <==> forall k :: 0 <= k < |s| ==> IsDelim(s[k])
  {
    TokensAreRuns(s, 0);
  }

  lemma {:induction false} InToken(s: string, ts: seq<Span>, n: nat, k: int)
    requires IsTokenization(s, ts, 0) && n < |ts| && ts[n].start <= k < ts[n].end
    ensures 0 <= k < |s| && s[k] != ' ' && s[k] != '\t' && s[k] != '\n' && s[k] != '\r'
  {
    assert IsRun(s, ts[n]) && !IsDelim(s[k]);
  }

  lemma {:induction false} CoveredByOne(s: string, ts: seq<Span>, k: nat)
    requires IsTokenization(s, ts, 0) && k < |s| && s[k] != ' ' && s[k] != '\t' && s[k] != '\n' && s[k] != '\r'
    ensures exists n :: 0 <= n < |ts| && Covers(ts[n], k)
  {
    assert !IsDelim(s[k]);
  }

  /** The same with the four delimiters written out: no token holds one, and every other character is in a token. */
  lemma {:induction false} TokensByDelimiters(s: string, ts: seq<Span>)
    requires ts == Tokens(s, 0)
    ensures forall n: nat, k: nat :: n < |ts| && ts[n].start <= k < ts[n].end ==>
              k < |s| && s[k] != ' ' && s[k] != '\t' && s[k] != '\n' && s[k] != '\r'
    ensures forall k: nat :: k < |s| && s[k] != ' ' && s[k] != '\t' && s[k] != '\n' && s[k] != '\r' ==>
              exists n :: 0 <= n < |ts| && Covers(ts[n], k)
  {
    TokensAreRuns(s, 0);
    hide IsTokenization;
    forall n: nat, k: nat | n < |ts| && ts[n].start <= k < ts[n].end
      ensures k < |s| && s[k] != ' ' && s[k] != '\t' && s[k] != '\n' && s[k] != '\r'
    {
      InToken(s, ts, n, k);
    }
    forall k: nat | k < |s| && s[k] != ' ' && s[k] != '\t' && s[k] != '\n' && s[k] != '\r'
      ensures exists n :: 0 <= n < |ts| && Covers(ts[n], k)
    {
      CoveredByOne(s, ts, k);
    }
  }

  /* ---- nothing but delimiters is dropped ---- */

  function NonDelims(s: string): string {
    if s == "" then "" else (if IsDelim(s[0]) then "" else [s[0]]) + NonDelims(s[1..])
  }

  function Joined(s: string, ts: seq<Span>): string
    requires forall n :: 0 <= n < |ts| ==> ts[n].start <= ts[n].end <= |s|
  {
    if ts == [] then "" else s[ts[0].start..ts[0].end] + Joined(s, ts[1..])
  }

  lemma {:induction false} NonDelimsConcat(a: string, b: string)
    ensures NonDelims(a + b) == NonDelims(a) + NonDelims(b)
  {
    if a == "" {
      assert a + b == b;
    } else {
      assert (a + b)[1..] == a[1..] + b;
      NonDelimsConcat(a[1..], b);
    }
  }

  lemma {:induction false} NonDelimsOfDelims(a: string)
    requires forall k :: 0 <= k < |a| ==> IsDelim(a[k])
    ensures NonDelims(a) == ""
  {
    if a != "" {
      NonDelimsOfDelims(a[1..]);
    }
  }

  lemma {:induction false} NonDelimsOfToken(a: string)
    requires forall k :: 0 <= k < |a| ==> !IsDelim(a[k])
    ensures NonDelims(a) == a
  {
    if a != "" {
      NonDelimsOfToken(a[1..]);
      assert a == [a[0]] + a[1..];
    }
  }

  lemma {:induction false} NonDelimsParts(s: string, i: nat, start: nat, end: nat)
    requires i <= start <= end <= |s|
    requires forall k :: i <= k < start ==> IsDelim(s[k])
    requires forall k :: start <= k < end ==> !IsDelim(s[k])
    ensures NonDelims(s[i..]) == s[start..end] + NonDelims(s[end..])
  {
    hide NonDelims;
    NonDelimsOfDelims(s[i..start]);
    NonDelimsOfToken(s[start..end]);
    NonDelimsConcat(s[i..start], s[start..]);
    NonDelimsConcat(s[start..end], s[end..]);
    assert s[i..] == s[i..start] + s[start..] && s[start..] == s[start..end] + s[end..];
  }

  lemma {:induction false} JoinedCons(s: string, t: Span, rest: seq<Span>)
    requires t.start <= t.end <= |s|
    requires forall n :: 0 <= n < |rest| ==> rest[n].start <= rest[n].end <= |s|
    ensures Joined(s, [t] + rest) == s[t.start..t.end] + Joined(s, rest)
  {
    assert ([t] + rest)[1..] == rest;
  }

  /** The tokens, joined, are the line without its delimiters. */
  lemma {:induction false} TokensJoin(s: string, i: nat)
    requires i <= |s|
    ensures forall n :: 0 <= n < |Tokens(s, i)| ==> Tokens(s, i)[n].start <= Tokens(s, i)[n].end <= |s|
    ensures Joined(s, Tokens(s, i)) == NonDelims(s[i..])
    decreases |s| - i
  {
    hide NonDelims, SkipDelims, TokenEnd;
    var start := SkipDelims(s, i);
    if start == |s| {
      NonDelimsParts(s, i, start, start);
      assert s[start..] == "";
      NonDelimsOfToken("");
    } else {
      var end := TokenEnd(s, start);
      TokenNotEmpty(s, start);
      NonDelimsParts(s, i, start, end);
      TokensJoin(s, end);
      JoinedCons(s, Span(start, end), Tokens(s, end));
    }
  }

  lemma {:induction false} TokenNotEmpty(s: string, i: nat)
    requires i < |s| && !IsDelim(s[i])
    ensures TokenEnd(s, i) > i
  {
  }

  /* ---- the code ---- */

  /** A C string at the start of a buffer. */
  ghost predicate HoldsLine(buf: seq<char>, s: string) {
    |s| < |buf| && buf[..|s|] == s && buf[|s|] == NUL
  }

  /** The buffer with a NUL written after each token. */
  ghost predicate Cut(buf: seq<char>, s: string, ts: seq<Span>) {
    && |s| < |buf| && buf[|s|] == NUL
    && forall n :: 0 <= n < |ts| ==>
         && ts[n].start < ts[n].end <= |s|
         && buf[ts[n].start..ts[n].end] == s[ts[n].start..ts[n].end] && buf[ts[n].end] == NUL
  }

  /** The line after cutting the tokens `ts`: they and those still ahead of `save` are all tokens of `s`. */
  ghost predicate Progress(buf: seq<char>, s: string, ts: seq<Span>, save: nat) {
    && save <= |s| && Cut(buf, s, ts) && buf[save..|s|] == s[save..]
    && Tokens(s, 0) == ts + Tokens(s, save)
    && (save < |s| ==> forall n :: 0 <= n < |ts| ==> ts[n].end < save)
  }

  lemma {:induction false} StartProgress(buf: seq<char>, s: string)
    requires HoldsLine(buf, s)
    ensures Progress(buf, s, [], 0)
  {
    assert [] + Tokens(s, 0) == Tokens(s, 0);
  }

  /** The search after a token may start at its end or, as strtok does, one past it. */
  lemma {:induction false} TokensFrom(s: string, from: nat)
    requires from <= |s| && SkipDelims(s, from) < |s|
    ensures var start, end := SkipDelims(s, from), TokenEnd(s, SkipDelims(s, from));
            Tokens(s, from) == [Span(start, end)] + Tokens(s, if end < |s| then end + 1 else end)
  {
    var end := TokenEnd(s, SkipDelims(s, from));
    assert end < |s| ==> SkipDelims(s, end) == SkipDelims(s, end + 1);
  }

  lemma {:induction false} TailAgrees(buf: seq<char>, s: string, from: nat, end: nat, save: nat)
    requires from <= end <= save <= |s| < |buf| && buf[from..|s|] == s[from..] && (end < save || save == |s|)
    ensures buf[end := NUL][save..|s|] == s[save..]
    ensures from <= |s| ==> buf[from..end] == s[from..end]
  {
    forall k | from <= k < |s| ensures buf[k] == s[k] {
      assert buf[from..|s|][k - from] == s[from..][k - from];
    }
  }

  lemma {:induction false} CutMore(buf: seq<char>, s: string, ts: seq<Span>, t: Span)
    requires Cut(buf, s, ts) && t.start < t.end <= |s| && buf[t.start..t.end] == s[t.start..t.end]
    requires forall n :: 0 <= n < |ts| ==> ts[n].end < t.end
    ensures Cut(buf[t.end := NUL], s, ts + [t])
  {
    var buf' := buf[t.end := NUL];
    forall n | 0 <= n < |ts| ensures buf'[ts[n].start..ts[n].end] == s[ts[n].start..ts[n].end] {
      assert buf'[ts[n].start..ts[n].end] == buf[ts[n].start..ts[n].end];
    }
    assert buf'[t.start..t.end] == buf[t.start..t.end];
  }

  lemma {:induction false} SliceWithin(buf: seq<char>, s: string, from: nat, start: nat, end: nat)
    requires from <= start <= end <= |s| <= |buf| && buf[from..end] == s[from..end]
    ensures buf[start..end] == s[start..end]
  {
    assert buf[start..end] == buf[from..end][start - from..];
    assert s[start..end] == s[from..end][start - from..];
  }

  /** Cutting one more token. */
  lemma {:induction false} CutNext(buf: seq<char>, s: string, ts: seq<Span>, from: nat)
    requires Progress(buf, s, ts, from) && SkipDelims(s, from) < |s|
    ensures var start, end := SkipDelims(s, from), TokenEnd(s, SkipDelims(s, from));
            Progress(buf[end := NUL], s, ts + [Span(start, end)], if end < |s| then end + 1 else end)
  {
    hide Tokens, Cut;
    var start, end := SkipDelims(s, from), TokenEnd(s, SkipDelims(s, from));
    var save := if end < |s| then end + 1 else end;
    TokenNotEmpty(s, start);
    TokensFrom(s, from);
    assert ts + ([Span(start, end)] + Tokens(s, save)) == ts + [Span(start, end)] + Tokens(s, save);
    assert |s| < |buf| by { CutLength(buf, s, ts); }
    TailAgrees(buf, s, from, end, save);
    SliceWithin(buf, s, from, start, end);
    CutMore(buf, s, ts, Span(start, end));
  }

  lemma {:induction false} CutLength(buf: seq<char>, s: string, ts: seq<Span>)
    requires Cut(buf, s, ts)
    ensures |s| < |buf|
  {
  }

  lemma {:induction false} ProgressCut(buf: seq<char>, s: string, ts: seq<Span>, save: nat)
    requires Progress(buf, s, ts, save)
    ensures Cut(buf, s, ts)
  {
  }

  /** No token left. */
  lemma {:induction false} CutDone(buf: seq<char>, s: string, ts: seq<Span>, from: nat)
    requires Progress(buf, s, ts, from) && SkipDelims(s, from) == |s|
    ensures Progress(buf, s, ts, |s|) && ts == Tokens(s, 0)
  {
    assert ts + [] == ts;
  }

  /** The pointers to tokens: where each starts in the line. */
  function Starts(ts: seq<Span>): seq<int> { seq(|ts|, n requires 0 <= n < |ts| => ts[n].start) }

  lemma NoStarts()
    ensures Starts([]) == []
  {
  }

  lemma {:induction false} StartsLength(ts: seq<Span>)
    ensures |Starts(ts)| == |ts|
  {
  }

  class Tokenizer {
    var save: nat  // strtok's saved position

    constructor () { save := 0; }

    /** strtok from position `from`: the start of the next token, or NULL; the delimiter that ends the token
        is overwritten and the position after it saved. */
    method StrTok(line: array<char>, from: nat, ghost s: string) returns (token: int)
      requires from <= |s| < line.Length && line[from..|s|] == s[from..] && line[|s|] == NUL && NUL !in s
      modifies this, line
      ensures var start, end := SkipDelims(s, from), TokenEnd(s, SkipDelims(s, from));
              if start == |s| then token == NULL && save == |s| && line[..] == old(line[..])
              else token == start
                   && save == (if end < |s| then end + 1 else end)
                   && line[..] == old(line[..])[end := NUL]
    {
      var i := from;
      while line[i] != NUL && IsDelim(line[i])
        invariant from <= i <= |s| && SkipDelims(s, from) == SkipDelims(s, i)
        invariant line[..] == old(line[..])
        decreases |s| - i
      {
        assert line[i] == line[from..|s|][i - from] == s[from..][i - from];
        i := i + 1;
      }
      assert i < |s| ==> line[i] == line[from..|s|][i - from] == s[from..][i - from] == s[i];
      if line[i] == NUL {
        save := i;
        return NULL;
      }
      token := i;
      while line[i] != NUL && !IsDelim(line[i])
        invariant token <= i <= |s| && TokenEnd(s, token) == TokenEnd(s, i)
        invariant line[..] == old(line[..])
        decreases |s| - i
      {
        assert line[i] == line[from..|s|][i - from] == s[from..][i - from];
        i := i + 1;
      }
      assert i < |s| ==> line[i] == line[from..|s|][i - from] == s[from..][i - from] == s[i];
      if line[i] == NUL {
        save := i;
      } else {
        line[i] := NUL;
        save := i + 1;
      }
    }

    /** strtok again, keeping track of the tokens cut so far. */
    method NextToken(line: array<char>, from: nat, ghost s: string, ghost ts: seq<Span>)
      returns (token: int, ghost ts': seq<Span>)
      requires Progress(line[..], s, ts, from) && NUL !in s
      modifies this, line
      ensures Progress(line[..], s, ts', save)
      ensures token == NULL ==> ts' == ts == Tokens(s, 0)
      ensures token != NULL ==> Starts(ts') == Starts(ts) + [token] && |ts| < |Tokens(s, 0)|
    {
      var start := SkipDelims(s, from);
      if start == |s| {
        CutDone(line[..], s, ts, from);
        ts' := ts;
      } else {
        CutNext(line[..], s, ts, from);
        ts' := ts + [Span(start, TokenEnd(s, start))];
        assert Starts(ts') == Starts(ts) + [start];
      }
      token := StrTok(line, from, s);
    }

    /** realloc to a larger buffer. */
    method Realloc(buf: array<int>, size: nat) returns (grown: array<int>)
      requires size >= buf.Length
      ensures fresh(grown) && grown.Length == size && grown[..buf.Length] == buf[..]
    {
      grown := new int[size];
      forall n | 0 <= n < buf.Length {
        grown[n] := buf[n];
      }
    }

    /** One pointer stored, and the buffer grown as soon as it is full. */
    method Store(buf: array<int>, bufSize: nat, position: nat, token: int) returns (buf': array<int>, size: nat)
      requires position < buf.Length == bufSize
      modifies buf
      ensures buf' == buf || fresh(buf')
      ensures buf'.Length == size == if position + 1 >= bufSize then bufSize + 16 else bufSize
      ensures buf'[..position] == old(buf[..position]) && buf'[position] == token
    {
      buf', size := buf, bufSize;
      buf[position] := token;
      if position + 1 >= size {
        size := size + ARGS_BUF_SIZE;
        buf' := Realloc(buf, size);
        assert buf'[..buf.Length][..position] == buf[..][..position];
        assert buf'[position] == buf'[..buf.Length][position];
      }
    }

    /** parse_args: the pointers of all tokens in order, then NULL, in a buffer that grew by 16 as needed. */
    method ParseLine(line: array<char>, ghost s: string) returns (buf: array<int>)
      requires HoldsLine(line[..], s) && NUL !in s
      modifies this, line
      ensures var ts := Tokens(s, 0);
              && buf.Length % 16 == 0 && |ts| < buf.Length <= |ts| + 16
              && buf[..|ts|] == Starts(ts) && buf[|ts|] == NULL
              && Cut(line[..], s, ts)
    {
      hide Progress, Tokens, Cut, HoldsLine, Starts;
      var bufSize, position := ARGS_BUF_SIZE, 0;
      buf := new int[bufSize];
      StartProgress(line[..], s);
      ghost var ts: seq<Span> := [];
      var token;
      assert Starts([]) == [] by { NoStarts(); }
      token, ts := NextToken(line, 0, s, ts);
      while token != NULL
        invariant fresh(buf) && buf.Length == bufSize && bufSize % ARGS_BUF_SIZE == 0
        invariant position < bufSize <= position + ARGS_BUF_SIZE
        invariant Progress(line[..], s, ts, save)
        invariant Starts(ts) == if token == NULL then buf[..position] else buf[..position] + [token]
        invariant token == NULL ==> ts == Tokens(s, 0)
        invariant token != NULL ==> position < |Tokens(s, 0)|
        decreases |Tokens(s, 0)| - position
      {
        buf, bufSize := Store(buf, bufSize, position, token);
        position := position + 1;
        StartsLength(ts);
        token, ts := NextToken(line, save, s, ts);
      }
      ProgressCut(line[..], s, ts, save);
      StartsLength(ts);
      buf[position] := NULL;
    }
  }
}
