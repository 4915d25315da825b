/**
 * Cutting repeated Tenable version blocks out of a description (compactionUtils.js,
 * `analyzeRepeatedTenableDescriptionBlocks`).
 *
 * The header line and the trailing separator are modelled character by character, since the
 * intervals depend on how they interlock. What makes a window a block, and a block's key, stays
 * with a `Probe`.
 */
module TenableCutter {
  import opened Options

  predicate IsBlank(c: char) { c == ' ' || c == '\t' }

  predicate IsNewline(c: char) { c == '\r' || c == '\n' }

  /** `[ \t]*` at `p`. */
  function SkipBlanks(t: string, p: nat): (q: nat)
    requires p <= |t|
    ensures p <= q <= |t| && (forall i :: p <= i < q ==> IsBlank(t[i])) && (q < |t| ==> !IsBlank(t[q]))
    decreases |t| - p
  {
    if p < |t| && IsBlank(t[p]) then SkipBlanks(t, p + 1) else p
  }

  /** `[ \t]*(?:>[ \t]*)?` at `p`. */
  function SkipQuote(t: string, p: nat): (q: nat)
    requires p <= |t|
    ensures p <= q <= |t|
  {
    var q := SkipBlanks(t, p);
    if q < |t| && t[q] == '>' then SkipBlanks(t, q + 1) else q
  }

  const HEADER := "Installed version"

  /** An "Installed version:" header, quoted or not, begins at line start `s`. */
  predicate HeaderAt(t: string, s: nat) {
    s < |t| && (s == 0 || IsNewline(t[s - 1])) && HeaderTextAt(t, SkipQuote(t, s))
  }

  predicate HeaderTextAt(t: string, q: nat)
    requires q <= |t|
  {
    HEADER <= t[q..] && ColonAt(t, SkipBlanks(t, q + |HEADER|))
  }

  predicate ColonAt(t: string, p: nat) { p < |t| && t[p] == ':' }

  predicate AllBlank(s: string) { forall c <- s :: IsBlank(c) }

  /** `[ \t]*(?:>[ \t]*)?` as a language. */
  ghost predicate IsLead(lead: string) {
    AllBlank(lead) || exists a, b :: AllBlank(a) && AllBlank(b) && lead == a + ">" + b
  }

  lemma BlanksAreSkipped(t: string, p: nat, blanks: string, rest: string)
    requires p <= |t| && t[p..] == blanks + rest && AllBlank(blanks) && (rest != "" ==> !IsBlank(rest[0]))
    ensures SkipBlanks(t, p) == p + |blanks|
  {
    assert forall i :: 0 <= i < |t| - p ==> t[p + i] == (blanks + rest)[i];
    assert forall i :: 0 <= i < |blanks| ==> IsBlank(blanks[i]);
    assert rest != "" ==> t[p + |blanks|] == rest[0];
  }

  lemma LeadIsSkipped(t: string, p: nat, lead: string, rest: string)
    requires p <= |t| && t[p..] == lead + rest && IsLead(lead)
    requires rest != "" ==> !IsBlank(rest[0]) && rest[0] != '>'
    ensures SkipQuote(t, p) == p + |lead|
  {
    if AllBlank(lead) {
      BlanksAreSkipped(t, p, lead, rest);
      assert rest != "" ==> t[p + |lead|] == (lead + rest)[|lead|] == rest[0];
    } else {
      var a, b :| AllBlank(a) && AllBlank(b) && lead == a + ">" + b;
      assert a + ">" + b + rest == a + (">" + b + rest);
      BlanksAreSkipped(t, p, a, ">" + b + rest);
      assert t[p + |a|] == (lead + rest)[|a|] == '>';
      assert t[p + |a| + 1..] == t[p..][|a| + 1..] == b + rest;
      BlanksAreSkipped(t, p + |a| + 1, b, rest);
    }
  }

  lemma SkippedIsLead(t: string, p: nat)
    requires p <= |t|
    ensures IsLead(t[p..SkipQuote(t, p)])
  {
    var q := SkipBlanks(t, p);
    assert AllBlank(t[p..q]);
    if q < |t| && t[q] == '>' {
      var e := SkipBlanks(t, q + 1);
      assert AllBlank(t[q + 1..e]) && t[p..e] == t[p..q] + ">" + t[q + 1..e];
    }
  }

  /** `lead`, the words, `gap` and a colon stand at `s`. */
  ghost predicate ReadsHeader(t: string, s: nat, lead: string, gap: string, rest: string) {
    s <= |t| && IsLead(lead) && AllBlank(gap) && t[s..] == lead + HEADER + gap + ":" + rest
  }

  lemma HeaderStarts()
    ensures HEADER != "" && !IsBlank(HEADER[0]) && HEADER[0] != '>'
  {
  }

  lemma Dropped(t: string, p: nat, a: string, b: string)
    requires p <= |t| && t[p..] == a + b
    ensures p + |a| <= |t| && t[p + |a|..] == b
  {
    assert t[p + |a|..] == t[p..][|a|..];
  }

  /** A header begins at a line start, where blanks, perhaps a quote mark, the words, blanks and a colon follow. */
  lemma HeaderAtExactly(t: string, s: nat)
    ensures HeaderAt(t, s) <==>
      (s == 0 || (s <= |t| && IsNewline(t[s - 1]))) && exists lead, gap, rest :: ReadsHeader(t, s, lead, gap, rest)
  {
    hide ReadsHeader, HeaderTextAt, IsNewline, SkipQuote;
    if HeaderAt(t, s) {
      HeaderReads(t, s);
    }
    if lead, gap, rest :| ReadsHeader(t, s, lead, gap, rest) {
      HeaderIsRead(t, s, lead, gap, rest);
    }
  }

  lemma HeaderReads(t: string, s: nat)
    requires s < |t| && HeaderTextAt(t, SkipQuote(t, s))
    ensures exists lead, gap, rest :: ReadsHeader(t, s, lead, gap, rest)
  {
    hide IsLead, SkipQuote, HEADER, AllBlank;
    var q := SkipQuote(t, s);
    var p := q + |HEADER|;
    var e := SkipBlanks(t, p);
    SkippedIsLead(t, s);
    SkippedIsBlank(t, p);
    var lead, gap, rest := t[s..q], t[p..e], t[e + 1..];
    Glued(t, s, q, p, e, HEADER);
    assert ReadsHeader(t, s, lead, gap, rest);
  }

  lemma SkippedIsBlank(t: string, p: nat)
    requires p <= |t|
    ensures AllBlank(t[p..SkipBlanks(t, p)])
  {
  }

  lemma Glued(t: string, s: nat, q: nat, p: nat, e: nat, header: string)
    requires s <= q <= p <= e < |t| && t[e] == ':' && p == q + |header| && header <= t[q..]
    ensures t[s..] == t[s..q] + header + t[p..e] + ":" + t[e + 1..]
  {
    assert t[q..p] == header;
  }

  lemma Unglued(t: string, s: nat, lead: string, header: string, gap: string, rest: string)
    requires s <= |t| && t[s..] == lead + header + gap + ":" + rest
    ensures var p := s + |lead| + |header|;
      && p + |gap| < |t| && t[s..] == lead + (header + (gap + (":" + rest)))
      && t[s + |lead|..] == header + (gap + (":" + rest)) && header <= t[s + |lead|..]
      && t[p..] == gap + (":" + rest) && t[p + |gap|] == ':'
  {
    var colon := ":" + rest;
    assert lead + header + gap + ":" + rest == lead + (header + (gap + colon));
    Dropped(t, s, lead, header + (gap + colon));
    Dropped(t, s + |lead|, header, gap + colon);
    Dropped(t, s + |lead| + |header|, gap, colon);
    assert t[s + |lead| + |header| + |gap|] == t[s + |lead| + |header| + |gap|..][0];
  }

  lemma HeaderIsRead(t: string, s: nat, lead: string, gap: string, rest: string)
    requires ReadsHeader(t, s, lead, gap, rest)
    ensures s < |t| && HeaderTextAt(t, SkipQuote(t, s))
  {
    hide IsLead, AllBlank, SkipQuote, SkipBlanks, HEADER, IsBlank;
    Unglued(t, s, lead, HEADER, gap, rest);
    HeaderStarts();
    LeadIsSkipped(t, s, lead, HEADER + (gap + (":" + rest)));
    ColonIsNoBlank();
    BlanksAreSkipped(t, s + |lead| + |HEADER|, gap, ":" + rest);
  }

  lemma ColonIsNoBlank()
    ensures !IsBlank(':')
  {
  }

  /** The header positions from `s` on: what `matchAll` finds, one per header line. */
  function Starts(t: string, s: nat): seq<nat>
    requires s <= |t|
    decreases |t| - s
  {
    if s == |t| then []
    else if HeaderAt(t, s) then [s] + Starts(t, s + 1)
    else Starts(t, s + 1)
  }

  ghost predicate IsLayout(t: string, starts: seq<nat>) {
    && (forall i :: 0 <= i < |starts| ==> starts[i] < |t| && HeaderAt(t, starts[i]))
    && (forall i, j :: 0 <= i < j < |starts| ==> starts[i] < starts[j])
  }

  /** They are all the headers, in order. */
  lemma {:induction false} StartsAreTheHeaders(t: string, s: nat)
    requires s <= |t|
    ensures IsLayout(t, Starts(t, s)) && (forall p <- Starts(t, s) :: s <= p)
    ensures forall p :: s <= p < |t| && HeaderAt(t, p) ==> p in Starts(t, s)
    decreases |t| - s
  {
    hide HeaderAt;
    if s < |t| {
      StartsAreTheHeaders(t, s + 1);
      var rest := Starts(t, s + 1);
      if HeaderAt(t, s) {
        var starts := [s] + rest;
        assert Starts(t, s) == starts;
        forall i | 0 <= i < |starts| ensures starts[i] < |t| && HeaderAt(t, starts[i]) && s <= starts[i] {
          if i > 0 { assert starts[i] == rest[i - 1] && rest[i - 1] in rest; }
        }
        forall i, j | 0 <= i < j < |starts| ensures starts[i] < starts[j] {
          assert starts[j] == rest[j - 1] && rest[j - 1] in rest;
          if i > 0 { assert starts[i] == rest[i - 1]; }
        }
      }
    }
  }

  /** End of the newline `\r\n|\n|\r` at `p`, `p` itself for none. */
  function NewlineEnd(t: string, p: nat): (e: nat)
    requires p <= |t|
    ensures p <= e <= |t|
  {
    if p < |t| && t[p] == '\r' then (if p + 1 < |t| && t[p + 1] == '\n' then p + 2 else p + 1)
    else if p < |t| && t[p] == '\n' then p + 1
    else p
  }

  /** One blank or merely quoted line, its newline included. */
  function BlankLineEnd(t: string, p: nat): (e: nat)
    requires p <= |t|
    ensures p <= e <= |t|
  {
    var q := SkipQuote(t, p);
    if NewlineEnd(t, q) > q then NewlineEnd(t, q) else p
  }

  /** `extendTenableBlockThroughTrailingSeparator` */
  function SeparatorEnd(t: string, p: nat): (e: nat)
    requires p <= |t|
    ensures p <= e <= |t|
    decreases |t| - p
  {
    var e := BlankLineEnd(t, p);
    if e > p then SeparatorEnd(t, e) else p
  }

  predicate IsLineBreak(s: string) { s == "\r\n" || s == "\r" || s == "\n" }

  /** A line that is blank, or holds a quote mark only, ends at `e`. */
  ghost predicate IsEmptyLine(line: string) {
    exists lead, end :: IsLead(lead) && IsLineBreak(end) && line == lead + end
  }

  lemma SwallowedIsLine(t: string, p: nat)
    requires p <= |t| && BlankLineEnd(t, p) > p
    ensures IsEmptyLine(t[p..BlankLineEnd(t, p)])
  {
    var q := SkipQuote(t, p);
    var e := NewlineEnd(t, q);
    SkippedIsLead(t, p);
    assert t[p..e] == t[p..q] + t[q..e] && IsLineBreak(t[q..e]);
  }

  lemma LineIsSwallowed(t: string, p: nat, e: nat)
    requires p <= e <= |t| && IsEmptyLine(t[p..e])
    ensures BlankLineEnd(t, p) > p
  {
    var lead, end :| IsLead(lead) && IsLineBreak(end) && t[p..e] == lead + end;
    assert t[p..] == t[p..e] + t[e..] && lead + end + t[e..] == lead + (end + t[e..]);
    assert (end + t[e..])[0] == end[0];
    LeadIsSkipped(t, p, lead, end + t[e..]);
    assert t[p + |lead|] == (lead + end)[|lead|] == end[0];
  }

  ghost predicate AreEmptyLines(s: string)
    decreases |s|
  {
    s == "" || exists i :: 0 < i <= |s| && IsEmptyLine(s[..i]) && AreEmptyLines(s[i..])
  }

  /** The separator is empty lines, bare or quoted, and all of them: none follows. */
  lemma {:induction false} SeparatorIsEmptyLines(t: string, p: nat)
    requires p <= |t|
    ensures AreEmptyLines(t[p..SeparatorEnd(t, p)])
    ensures forall e :: SeparatorEnd(t, p) <= e <= |t| ==> !IsEmptyLine(t[SeparatorEnd(t, p)..e])
    decreases |t| - p
  {
    hide IsEmptyLine;
    var e := BlankLineEnd(t, p);
    if e > p {
      SwallowedIsLine(t, p);
      SeparatorIsEmptyLines(t, e);
      var s := t[p..SeparatorEnd(t, p)];
      assert s[..e - p] == t[p..e] && s[e - p..] == t[e..SeparatorEnd(t, p)];
    } else {
      forall f | p <= f <= |t| ensures !IsEmptyLine(t[p..f]) {
        if IsEmptyLine(t[p..f]) {
          LineIsSwallowed(t, p, f);
        }
      }
    }
  }

  lemma BlankLineStopsBeforeHeader(t: string, p: nat, s: nat)
    requires p <= s && HeaderAt(t, s)
    ensures BlankLineEnd(t, p) <= s
  {
    hide ColonAt;
    var q := SkipQuote(t, s);
    assert t[q] == 'I' by { assert t[q] == t[q..][0] == HEADER[0]; }
  }

  /** The separator after a block never runs into the next header. */
  lemma {:induction false} SeparatorStopsBeforeHeader(t: string, p: nat, s: nat)
    requires p <= s && HeaderAt(t, s)
    ensures SeparatorEnd(t, p) <= s
    decreases |t| - p
  {
    BlankLineStopsBeforeHeader(t, p, s);
    if BlankLineEnd(t, p) > p {
      SeparatorStopsBeforeHeader(t, BlankLineEnd(t, p), s);
    }
  }

  // ----- blocks -----

  /** `disclaimerEnd`: where the disclaimer ends within a window; `complete`: the block has its fixed
      version and CVE headers; `key`: its normalised text. */
  datatype Probe = Probe(disclaimerEnd: string -> Option<nat>, complete: string -> bool, key: string -> string)
  {
    ghost predicate StaysInWindow() {
      forall w :: disclaimerEnd(w).Some? ==> disclaimerEnd(w).value <= |w|
    }
  }

  datatype Block = Block(start: nat, end: nat, key: string)

  function WindowEnd(t: string, starts: seq<nat>, i: nat): nat {
    if i + 1 < |starts| then starts[i + 1] else |t|
  }

  function BlockAt(t: string, probe: Probe, starts: seq<nat>, i: nat): Option<Block>
    requires i < |starts| && starts[i] <= WindowEnd(t, starts, i) <= |t|
  {
    var start := starts[i];
    var end := probe.disclaimerEnd(t[start..WindowEnd(t, starts, i)]);
    if end.None? || start + end.value > |t| || !probe.complete(t[start..start + end.value]) then None
    else Some(Block(start, start + end.value, probe.key(t[start..start + end.value])))
  }

  /** The blocks detected among the first `n` headers. */
  ghost function Blocks(t: string, probe: Probe, starts: seq<nat>, n: nat): seq<Block>
    requires IsLayout(t, starts) && n <= |starts|
  {
    if n == 0 then []
    else
      Blocks(t, probe, starts, n - 1) +
      match BlockAt(t, probe, starts, n - 1) case Some(b) => [b] case None => []
  }

  /** A disclaimer ends `b` within the window from the `i`-th header to the next, and the text up to there has
      the other headers of a block. */
  ghost predicate IsBlockAt(t: string, probe: Probe, starts: seq<nat>, i: int, b: Block)
    requires IsLayout(t, starts)
  {
    && 0 <= i < |starts| && b.start == starts[i] && b.start <= b.end <= |t|
    && probe.disclaimerEnd(t[starts[i]..if i + 1 < |starts| then starts[i + 1] else |t|]) == Some(b.end - b.start)
    && probe.complete(t[b.start..b.end]) && b.key == probe.key(t[b.start..b.end])
  }

  lemma {:induction false} BlocksAre(t: string, probe: Probe, starts: seq<nat>, n: nat, b: Block)
    requires IsLayout(t, starts) && n <= |starts|
    ensures b in Blocks(t, probe, starts, n) <==> exists i :: 0 <= i < n && IsBlockAt(t, probe, starts, i, b)
  {
    hide HeaderAt;
    if n > 0 {
      BlocksAre(t, probe, starts, n - 1, b);
      assert BlockAt(t, probe, starts, n - 1) == Some(b) <==> IsBlockAt(t, probe, starts, n - 1, b);
    }
  }

  /** The blocks detected in a text are exactly those its headers begin. */
  lemma BlocksAreDetected(t: string, probe: Probe, b: Block)
    ensures IsLayout(t, Starts(t, 0))
    ensures b in Blocks(t, probe, Starts(t, 0), |Starts(t, 0)|) <==>
      exists i :: IsBlockAt(t, probe, Starts(t, 0), i, b)
  {
    hide HeaderAt;
    StartsAreTheHeaders(t, 0);
    BlocksAre(t, probe, Starts(t, 0), |Starts(t, 0)|, b);
  }

  function Keys(blocks: seq<Block>): set<string> { set b | b in blocks :: b.key }

  /** The blocks whose key came up before, and the others. */
  function Repeats(blocks: seq<Block>): seq<Block> {
    if blocks == [] then []
    else
      var (before, last) := (blocks[..|blocks| - 1], blocks[|blocks| - 1]);
      Repeats(before) + if last.key in Keys(before) then [last] else []
  }

  function Firsts(blocks: seq<Block>): seq<Block> {
    if blocks == [] then []
    else
      var (before, last) := (blocks[..|blocks| - 1], blocks[|blocks| - 1]);
      Firsts(before) + if last.key in Keys(before) then [] else [last]
  }

  lemma KeysOfSnoc(blocks: seq<Block>, b: Block)
    ensures Keys(blocks + [b]) == Keys(blocks) + {b.key}
  {
  }

  lemma {:induction false} FirstsAndRepeats(blocks: seq<Block>)
    ensures |Firsts(blocks)| + |Repeats(blocks)| == |blocks|
    ensures |Firsts(blocks)| == |Keys(blocks)| && Keys(Firsts(blocks)) == Keys(blocks)
  {
    if blocks != [] {
      var (before, last) := (blocks[..|blocks| - 1], blocks[|blocks| - 1]);
      FirstsAndRepeats(before);
      assert blocks == before + [last];
      KeysOfSnoc(before, last);
      if last.key in Keys(before) {
        assert Keys(before) + {last.key} == Keys(before);
      } else {
        KeysOfSnoc(Firsts(before), last);
      }
    }
  }

  /** A block is a first one when its key is new at its place, and a repeat otherwise. */
  lemma {:induction false} FirstOfItsKeyStays(blocks: seq<Block>, i: nat)
    requires i < |blocks|
    ensures (blocks[i].key !in Keys(blocks[..i])) ==> blocks[i] in Firsts(blocks)
    ensures (blocks[i].key in Keys(blocks[..i])) ==> blocks[i] in Repeats(blocks)
    decreases |blocks|
  {
    var (before, last) := (blocks[..|blocks| - 1], blocks[|blocks| - 1]);
    if i < |before| {
      assert before[..i] == blocks[..i] && before[i] == blocks[i];
      FirstOfItsKeyStays(before, i);
    }
  }

  // ----- ranges and what they leave -----

  type Range = (nat, nat)

  function Ranges(t: string, blocks: seq<Block>): seq<Range>
    requires forall b <- blocks :: b.end <= |t|
  {
    if blocks == [] then []
    else
      var last := blocks[|blocks| - 1];
      assert last in blocks;
      Ranges(t, blocks[..|blocks| - 1]) + [(last.start, SeparatorEnd(t, last.end))]
  }

  predicate Covered(ranges: seq<Range>, i: nat) { exists r <- ranges :: r.0 <= i < r.1 }

  /** The characters below `n` that no range covers, in order. */
  function Kept(t: string, ranges: seq<Range>, n: nat): string
    requires n <= |t|
  {
    if n == 0 then ""
    else Kept(t, ranges, n - 1) + if Covered(ranges, n - 1) then "" else [t[n - 1]]
  }

  /** In order, disjoint, and ending at or before `limit`. */
  ghost predicate InOrder(ranges: seq<Range>, limit: nat) {
    && (forall i :: 0 <= i < |ranges| ==> ranges[i].0 <= ranges[i].1 <= limit)
    && (forall i, j :: 0 <= i < j < |ranges| ==> ranges[i].1 <= ranges[j].0)
  }

  lemma {:induction false} KeptBelowNewRange(t: string, ranges: seq<Range>, r: Range, n: nat)
    requires n <= |t| && n <= r.0
    ensures Kept(t, ranges + [r], n) == Kept(t, ranges, n)
  {
    if n > 0 {
      KeptBelowNewRange(t, ranges, r, n - 1);
      CoveredBySnoc(ranges, r, n - 1);
    }
  }

  lemma CoveredBySnoc(ranges: seq<Range>, r: Range, i: nat)
    ensures Covered(ranges + [r], i) <==> Covered(ranges, i) || r.0 <= i < r.1
  {
    if Covered(ranges, i) {
      var q :| q in ranges && q.0 <= i < q.1;
      assert q in ranges + [r];
    } else if r.0 <= i < r.1 {
      assert r in ranges + [r];
    }
  }

  lemma {:induction false} KeptPastRanges(t: string, ranges: seq<Range>, from: nat, n: nat)
    requires InOrder(ranges, from) && from <= n <= |t|
    ensures Kept(t, ranges, n) == Kept(t, ranges, from) + t[from..n]
    decreases n
  {
    if n == from {
      assert t[from..n] == "";
    } else {
      KeptPastRanges(t, ranges, from, n - 1);
      assert !Covered(ranges, n - 1);
      assert t[from..n] == t[from..n - 1] + [t[n - 1]];
    }
  }

  lemma {:induction false} NothingKeptInRange(t: string, ranges: seq<Range>, r: Range, n: nat)
    requires r in ranges && r.0 <= n <= r.1 && n <= |t|
    ensures Kept(t, ranges, n) == Kept(t, ranges, r.0)
    decreases n
  {
    if n > r.0 {
      NothingKeptInRange(t, ranges, r, n - 1);
      assert Covered(ranges, n - 1);
    }
  }

  /** Cutting one more range behind the cursor. */
  lemma CutOneMore(t: string, ranges: seq<Range>, cursor: nat, r: Range)
    requires InOrder(ranges, cursor) && cursor <= r.0 <= r.1 <= |t|
    ensures Kept(t, ranges + [r], r.1) == Kept(t, ranges, cursor) + t[cursor..r.0]
    ensures InOrder(ranges + [r], r.1)
  {
    NothingKeptInRange(t, ranges + [r], r, r.1);
    KeptBelowNewRange(t, ranges, r, r.0);
    KeptPastRanges(t, ranges, cursor, r.0);
  }

  // ----- the loop of the source -----

  datatype Analysis = Analysis(text: string, detected: nat, removed: nat, retained: int)

  ghost function Cuts(t: string, probe: Probe, starts: seq<nat>, n: nat): seq<Range>
    requires IsLayout(t, starts) && n <= |starts|
  {
    BlocksEndInside(t, probe, starts, n);
    Ranges(t, Repeats(Blocks(t, probe, starts, n)))
  }

  lemma {:induction false} RepeatsAreBlocks(blocks: seq<Block>)
    ensures forall b <- Repeats(blocks) :: b in blocks
  {
    if blocks != [] {
      RepeatsAreBlocks(blocks[..|blocks| - 1]);
      assert blocks == blocks[..|blocks| - 1] + [blocks[|blocks| - 1]];
    }
  }

  lemma BlockEndsInside(t: string, probe: Probe, starts: seq<nat>, i: nat)
    requires IsLayout(t, starts) && i < |starts|
    ensures BlockAt(t, probe, starts, i).Some? ==>
      var b := BlockAt(t, probe, starts, i).value; b.start == starts[i] <= b.end <= |t|
  {
    hide HeaderAt;
  }

  /** A block ends before the next header. */
  lemma BlockEndsInWindow(t: string, probe: Probe, starts: seq<nat>, i: nat)
    requires IsLayout(t, starts) && i + 1 < |starts| && probe.StaysInWindow()
    ensures BlockAt(t, probe, starts, i).Some? ==> BlockAt(t, probe, starts, i).value.end <= starts[i + 1]
  {
    hide HeaderAt;
    var w := t[starts[i]..starts[i + 1]];
    assert probe.disclaimerEnd(w).Some? ==> probe.disclaimerEnd(w).value <= |w|;
  }

  lemma {:induction false} BlocksEndInside(t: string, probe: Probe, starts: seq<nat>, n: nat)
    requires IsLayout(t, starts) && n <= |starts|
    ensures forall b <- Blocks(t, probe, starts, n) :: b.end <= |t|
    ensures forall b <- Repeats(Blocks(t, probe, starts, n)) :: b.end <= |t|
  {
    hide HeaderAt, Repeats, BlockAt;
    RepeatsAreBlocks(Blocks(t, probe, starts, n));
    if n > 0 {
      BlockEndsInside(t, probe, starts, n - 1);
      BlocksEndInside(t, probe, starts, n - 1);
    }
  }

  /** The loop's state after the first `n` headers. */
  ghost predicate Reached(t: string, probe: Probe, starts: seq<nat>, n: nat,
                          seen: set<string>, detected: nat, removed: nat, cursor: nat, output: string)
  {
    && IsLayout(t, starts) && n <= |starts| && cursor <= |t|
    && var blocks := Blocks(t, probe, starts, n);
       var cuts := Cuts(t, probe, starts, n);
    (&& seen == Keys(blocks) && detected == |blocks| && removed == |Repeats(blocks)| == |cuts|
     && (n < |starts| ==> cursor <= starts[n])
     && InOrder(cuts, cursor) && output == Kept(t, cuts, cursor))
  }

  lemma NoBlock(t: string, probe: Probe, starts: seq<nat>, n: nat,
                seen: set<string>, detected: nat, removed: nat, cursor: nat, output: string)
    requires Reached(t, probe, starts, n, seen, detected, removed, cursor, output)
    requires n < |starts| && BlockAt(t, probe, starts, n).None?
    ensures Reached(t, probe, starts, n + 1, seen, detected, removed, cursor, output)
  {
    assert Blocks(t, probe, starts, n + 1) == Blocks(t, probe, starts, n);
  }

  lemma NewBlock(t: string, probe: Probe, starts: seq<nat>, n: nat, b: Block,
                 seen: set<string>, detected: nat, removed: nat, cursor: nat, output: string)
    requires Reached(t, probe, starts, n, seen, detected, removed, cursor, output)
    requires n < |starts| && BlockAt(t, probe, starts, n) == Some(b) && b.key !in seen
    ensures Reached(t, probe, starts, n + 1, seen + {b.key}, detected + 1, removed, cursor, output)
  {
    var before := Blocks(t, probe, starts, n);
    assert (before + [b])[..|before|] == before;
    KeysOfSnoc(before, b);
    assert Repeats(before + [b]) == Repeats(before);
  }

  lemma RepeatedBlock(t: string, probe: Probe, starts: seq<nat>, n: nat, b: Block,
                      seen: set<string>, detected: nat, removed: nat, cursor: nat, output: string)
    requires probe.StaysInWindow() && Reached(t, probe, starts, n, seen, detected, removed, cursor, output)
    requires n < |starts| && BlockAt(t, probe, starts, n) == Some(b) && b.key in seen
    ensures b.end <= |t|
    ensures Reached(t, probe, starts, n + 1, seen, detected + 1, removed + 1,
                    SeparatorEnd(t, b.end), output + t[cursor..b.start])
  {
    hide HeaderAt, BlockAt, SeparatorEnd, Kept, InOrder, Cuts, Blocks, Repeats, Keys;
    BlockEndsInside(t, probe, starts, n);
    OneMoreRepeat(t, probe, starts, n, b);
    if n + 1 < |starts| {
      BlockEndsInWindow(t, probe, starts, n);
      SeparatorStopsBeforeHeader(t, b.end, starts[n + 1]);
    }
    CutOneMore(t, Cuts(t, probe, starts, n), cursor, (b.start, SeparatorEnd(t, b.end)));
  }

  lemma OneMoreRepeat(t: string, probe: Probe, starts: seq<nat>, n: nat, b: Block)
    requires IsLayout(t, starts) && n < |starts| && BlockAt(t, probe, starts, n) == Some(b)
    requires b.key in Keys(Blocks(t, probe, starts, n))
    ensures b.end <= |t| && |Blocks(t, probe, starts, n + 1)| == |Blocks(t, probe, starts, n)| + 1
    ensures Keys(Blocks(t, probe, starts, n + 1)) == Keys(Blocks(t, probe, starts, n))
    ensures |Repeats(Blocks(t, probe, starts, n + 1))| == |Repeats(Blocks(t, probe, starts, n))| + 1
    ensures Cuts(t, probe, starts, n + 1) == Cuts(t, probe, starts, n) + [(b.start, SeparatorEnd(t, b.end))]
  {
    hide HeaderAt, BlockAt, SeparatorEnd, Repeats, Ranges, Keys;
    var before := Blocks(t, probe, starts, n);
    BlockEndsInside(t, probe, starts, n);
    assert Blocks(t, probe, starts, n + 1) == before + [b];
    RepeatsOfSnoc(before, b);
    KeysOfSnoc(before, b);
    assert Keys(before) + {b.key} == Keys(before);
    BlocksEndInside(t, probe, starts, n + 1);
    RangesOfSnoc(t, Repeats(before), b);
  }

  lemma RepeatsOfSnoc(blocks: seq<Block>, b: Block)
    ensures Repeats(blocks + [b]) == Repeats(blocks) + if b.key in Keys(blocks) then [b] else []
  {
    assert (blocks + [b])[..|blocks|] == blocks;
  }

  lemma RangesOfSnoc(t: string, blocks: seq<Block>, b: Block)
    requires forall c <- blocks + [b] :: c.end <= |t|
    ensures (forall c <- blocks :: c.end <= |t|) && b.end <= |t|
    ensures Ranges(t, blocks + [b]) == Ranges(t, blocks) + [(b.start, SeparatorEnd(t, b.end))]
  {
    assert b in blocks + [b];
    forall c | c in blocks ensures c.end <= |t| {
      assert c in blocks + [b];
    }
    assert (blocks + [b])[..|blocks|] == blocks;
  }

  /** What stays is exactly the complement of the removed ranges, which are disjoint and in order;
      the counts are those of the detected blocks, the repeated ones and the distinct keys. */
  method Analyze(t: string, probe: Probe) returns (a: Analysis)
    requires probe.StaysInWindow()
    ensures IsLayout(t, Starts(t, 0))
    ensures var blocks := Blocks(t, probe, Starts(t, 0), |Starts(t, 0)|);
      a.detected == |blocks| && a.removed == |Repeats(blocks)| && a.retained == |Keys(blocks)|
    ensures var cuts := Cuts(t, probe, Starts(t, 0), |Starts(t, 0)|);
      InOrder(cuts, |t|) && |cuts| == a.removed && a.text == Kept(t, cuts, |t|)
  {
    hide HeaderAt, Starts, SeparatorEnd, Repeats, Blocks, Cuts, Kept, BlockAt;
    StartsAreTheHeaders(t, 0);
    var starts := Starts(t, 0);
    var seen: set<string> := {};
    var cursor: nat, detected: nat, removed: nat, output := 0, 0, 0, "";
    NothingReached(t, probe, starts);
    for i := 0 to |starts|
      invariant Reached(t, probe, starts, i, seen, detected, removed, cursor, output)
    {
      var block := BlockAt(t, probe, starts, i);
      if block.None? {
        NoBlock(t, probe, starts, i, seen, detected, removed, cursor, output);
      } else {
        var b := block.value;
        detected := detected + 1;
        if b.key !in seen {
          NewBlock(t, probe, starts, i, b, seen, detected - 1, removed, cursor, output);
          seen := seen + {b.key};
        } else {
          RepeatedBlock(t, probe, starts, i, b, seen, detected - 1, removed, cursor, output);
          BlockEndsInside(t, probe, starts, i);
          output := output + t[cursor..b.start];
          cursor := SeparatorEnd(t, b.end);
          removed := removed + 1;
        }
      }
    }
    KeptPastRanges(t, Cuts(t, probe, starts, |starts|), cursor, |t|);
    output := output + t[cursor..];
    FirstsAndRepeats(Blocks(t, probe, starts, |starts|));
    a := Analysis(output, detected, removed, detected - removed);
  }

  lemma NothingReached(t: string, probe: Probe, starts: seq<nat>)
    requires IsLayout(t, starts)
    ensures Reached(t, probe, starts, 0, {}, 0, 0, 0, "")
  {
  }

  // ----- first blocks survive -----

  ghost predicate AllBelow(t: string, probe: Probe, starts: seq<nat>, n: nat, limit: nat)
    requires IsLayout(t, starts) && n <= |starts|
  {
    && (forall b <- Blocks(t, probe, starts, n) :: b.end <= limit)
    && (forall r <- Cuts(t, probe, starts, n) :: r.1 <= limit)
  }

  /** No cut so far touches a first block so far. */
  ghost predicate CutsMissFirsts(t: string, probe: Probe, starts: seq<nat>, n: nat)
    requires IsLayout(t, starts) && n <= |starts|
  {
    forall b <- Firsts(Blocks(t, probe, starts, n)), r <- Cuts(t, probe, starts, n) :: r.1 <= b.start || b.end <= r.0
  }

  lemma {:induction false} FirstsAreBlocks(blocks: seq<Block>)
    ensures forall b <- Firsts(blocks) :: b in blocks
  {
    if blocks != [] {
      FirstsAreBlocks(blocks[..|blocks| - 1]);
      assert blocks == blocks[..|blocks| - 1] + [blocks[|blocks| - 1]];
    }
  }

  lemma FirstsOfSnoc(blocks: seq<Block>, b: Block)
    ensures Firsts(blocks + [b]) == if b.key in Keys(blocks) then Firsts(blocks) else Firsts(blocks) + [b]
  {
    assert (blocks + [b])[..|blocks|] == blocks;
  }

  lemma {:induction false} CutsMiss(t: string, probe: Probe, starts: seq<nat>, n: nat)
    requires IsLayout(t, starts) && n <= |starts| && probe.StaysInWindow()
    ensures CutsMissFirsts(t, probe, starts, n)
    ensures AllBelow(t, probe, starts, n, if n < |starts| then starts[n] else |t|)
  {
    hide HeaderAt, BlockAt, SeparatorEnd, Firsts, Repeats, Keys, Ranges, Probe.StaysInWindow, CutsMissFirsts, AllBelow;
    if n == 0 {
      NothingToMiss(t, probe, starts);
    } else {
      CutsMiss(t, probe, starts, n - 1);
      match BlockAt(t, probe, starts, n - 1)
      case None => NoBlockMisses(t, probe, starts, n - 1);
      case Some(b) => OneMoreBlockMisses(t, probe, starts, n - 1, b);
    }
  }

  lemma NothingToMiss(t: string, probe: Probe, starts: seq<nat>)
    requires IsLayout(t, starts)
    ensures CutsMissFirsts(t, probe, starts, 0) && forall limit :: AllBelow(t, probe, starts, 0, limit)
  {
  }

  lemma LimitGrows(t: string, probe: Probe, starts: seq<nat>, n: nat)
    requires IsLayout(t, starts) && n < |starts|
    ensures starts[n] <= if n + 1 < |starts| then starts[n + 1] else |t|
  {
  }

  lemma NoBlockMisses(t: string, probe: Probe, starts: seq<nat>, n: nat)
    requires IsLayout(t, starts) && n < |starts| && BlockAt(t, probe, starts, n).None?
    requires CutsMissFirsts(t, probe, starts, n) && AllBelow(t, probe, starts, n, starts[n])
    ensures CutsMissFirsts(t, probe, starts, n + 1)
    ensures AllBelow(t, probe, starts, n + 1, if n + 1 < |starts| then starts[n + 1] else |t|)
  {
    hide HeaderAt, BlockAt, SeparatorEnd, Firsts, Repeats, Keys, Ranges, IsLayout;
    assert Blocks(t, probe, starts, n + 1) == Blocks(t, probe, starts, n) + [] == Blocks(t, probe, starts, n);
    assert Cuts(t, probe, starts, n + 1) == Cuts(t, probe, starts, n);
    LimitGrows(t, probe, starts, n);
  }

  lemma OneMoreBlockMisses(t: string, probe: Probe, starts: seq<nat>, n: nat, b: Block)
    requires IsLayout(t, starts) && n < |starts| && probe.StaysInWindow() && BlockAt(t, probe, starts, n) == Some(b)
    requires CutsMissFirsts(t, probe, starts, n) && AllBelow(t, probe, starts, n, starts[n])
    ensures CutsMissFirsts(t, probe, starts, n + 1)
    ensures AllBelow(t, probe, starts, n + 1, if n + 1 < |starts| then starts[n + 1] else |t|)
  {
    hide HeaderAt, BlockAt, SeparatorEnd, Firsts, Repeats, Keys, Ranges, IsLayout, Probe.StaysInWindow;
    var before := Blocks(t, probe, starts, n);
    assert Blocks(t, probe, starts, n + 1) == before + [b];
    BlockEndsInside(t, probe, starts, n);
    LimitGrows(t, probe, starts, n);
    SeparatorEndsBelow(t, probe, starts, n, b);
    FirstsAreBlocks(before);
    FirstsOfSnoc(before, b);
    if b.key in Keys(before) {
      OneMoreRepeat(t, probe, starts, n, b);
    } else {
      FreshBlockCutsNothing(t, probe, starts, n, b);
    }
  }

  lemma SeparatorEndsBelow(t: string, probe: Probe, starts: seq<nat>, n: nat, b: Block)
    requires IsLayout(t, starts) && n < |starts| && probe.StaysInWindow() && BlockAt(t, probe, starts, n) == Some(b)
    ensures b.end <= |t| && b.end <= SeparatorEnd(t, b.end)
    ensures SeparatorEnd(t, b.end) <= if n + 1 < |starts| then starts[n + 1] else |t|
  {
    hide HeaderAt, BlockAt, SeparatorEnd;
    BlockEndsInside(t, probe, starts, n);
    if n + 1 < |starts| {
      BlockEndsInWindow(t, probe, starts, n);
      SeparatorStopsBeforeHeader(t, b.end, starts[n + 1]);
    }
  }

  lemma FreshBlockCutsNothing(t: string, probe: Probe, starts: seq<nat>, n: nat, b: Block)
    requires IsLayout(t, starts) && n < |starts| && BlockAt(t, probe, starts, n) == Some(b)
    requires b.key !in Keys(Blocks(t, probe, starts, n))
    ensures Cuts(t, probe, starts, n + 1) == Cuts(t, probe, starts, n)
  {
    hide HeaderAt, BlockAt, SeparatorEnd, Keys;
    var before := Blocks(t, probe, starts, n);
    assert Blocks(t, probe, starts, n + 1) == before + [b] && (before + [b])[..|before|] == before;
    assert Repeats(before + [b]) == Repeats(before) + [] == Repeats(before);
  }

  lemma {:induction false} UncoveredStays(t: string, ranges: seq<Range>, from: nat, n: nat)
    requires from <= n <= |t| && forall i :: from <= i < n ==> !Covered(ranges, i)
    ensures Kept(t, ranges, n) == Kept(t, ranges, from) + t[from..n]
  {
    if from < n {
      UncoveredStays(t, ranges, from, n - 1);
      assert t[from..n] == t[from..n - 1] + [t[n - 1]];
    }
  }

  lemma {:induction false} KeptGrows(t: string, ranges: seq<Range>, m: nat, n: nat)
    requires m <= n <= |t|
    ensures Kept(t, ranges, m) <= Kept(t, ranges, n)
  {
    if m < n {
      KeptGrows(t, ranges, m, n - 1);
    }
  }

  /** The first block of each key survives: no cut touches it, and it stands whole in the output. */
  lemma FirstBlockSurvives(t: string, probe: Probe, b: Block) returns (before: string, behind: string)
    requires probe.StaysInWindow() && IsLayout(t, Starts(t, 0))
    requires b in Firsts(Blocks(t, probe, Starts(t, 0), |Starts(t, 0)|))
    ensures b.start <= b.end <= |t|
    ensures var cuts := Cuts(t, probe, Starts(t, 0), |Starts(t, 0)|);
      && (forall i :: b.start <= i < b.end ==> !Covered(cuts, i))
      && Kept(t, cuts, |t|) == before + t[b.start..b.end] + behind
  {
    hide HeaderAt, Starts, SeparatorEnd, Blocks, Cuts, Kept, Firsts, IsLayout;
    var starts := Starts(t, 0);
    var cuts := Cuts(t, probe, starts, |starts|);
    CutsMiss(t, probe, starts, |starts|);
    FirstsAreBlocks(Blocks(t, probe, starts, |starts|));
    BlocksStartInside(t, probe, starts, |starts|);
    assert forall r <- cuts :: r.1 <= b.start || b.end <= r.0;
    UncoveredStays(t, cuts, b.start, b.end);
    KeptGrows(t, cuts, b.end, |t|);
    before := Kept(t, cuts, b.start);
    behind := Kept(t, cuts, |t|)[|Kept(t, cuts, b.end)|..];
  }

  lemma {:induction false} BlocksStartInside(t: string, probe: Probe, starts: seq<nat>, n: nat)
    requires IsLayout(t, starts) && n <= |starts|
    ensures forall b <- Blocks(t, probe, starts, n) :: b.start <= b.end <= |t|
  {
    hide HeaderAt, BlockAt;
    if n > 0 {
      BlockEndsInside(t, probe, starts, n - 1);
      BlocksStartInside(t, probe, starts, n - 1);
    }
  }
}
