/**
 * The server-sent-events tokenizer of page-hook.js (`parseSSEtoJSON`): a
 * simplified reading of the event-stream format of the WHATWG HTML Living
 * Standard (sections 9.2.5 and 9.2.6). Blocks are separated by runs of two or
 * more LFs; within a block only `event:` and `data:` lines count, a later line
 * of either kind overwrites an earlier one (several `data:` lines are not
 * joined), and there are no `id:`, `retry:` or comment lines.
 */
module Sse {
  import opened Wrappers
  import opened Strings
  import opened Js

  /** One parsed event: its `event:` label and its `data:` payload, each present or absent. */
  datatype SseEvent = SseEvent(event: Option<string>, data: Option<Value>)

  /** `item.data`, `undefined` when the event had no `data:` line. */
  function DataOf(item: SseEvent): Value {
    if item.data.Some? then item.data.value else Undefined
  }

  predicate IsDelta(item: SseEvent) {
    item.event == Some("delta")
  }

  /** `JSON.parse`: the value a text denotes, or None where `JSON.parse` throws. */
  type JsonParser = string -> Option<Value>

  /** `s.split("\n")`. */
  function SplitLines(s: string): (r: seq<string>)
    ensures |r| >= 1
    ensures forall k :: 0 <= k < |r| ==> Free(r[k], '\n')
    ensures Join("\n", r) == s
  {
    if s == "" then [""]
    else
      var rest := SplitLines(s[1..]);
      if s[0] == '\n' then
        [""] + rest
      else
        assert Join("\n", [[s[0]] + rest[0]] + rest[1..]) == [s[0]] + Join("\n", rest) by {
          if |rest| > 1 {
            assert rest == [rest[0]] + rest[1..];
          }
        }
        [[s[0]] + rest[0]] + rest[1..]
  }

  /** What is left of `s` after its leading LFs. */
  function DropNewlines(s: string): (r: string)
    ensures |r| <= |s|
    ensures r == "" || r[0] != '\n'
  {
    if s != "" && s[0] == '\n' then DropNewlines(s[1..]) else s
  }

  /** `s.split(/\n\n+/)`: every maximal run of two or more LFs separates two blocks. */
  function SplitBlocks(s: string): (r: seq<string>)
    ensures |r| >= 1
    ensures r[0] == "" || (s != "" && r[0][0] == s[0])
    decreases |s|
  {
    if s == "" then [""]
    else if |s| >= 2 && s[0] == '\n' && s[1] == '\n' then [""] + SplitBlocks(DropNewlines(s))
    else
      var rest := SplitBlocks(s[1..]);
      [[s[0]] + rest[0]] + rest[1..]
  }

  /** No two consecutive LFs. */
  predicate NoBlankLine(b: string) {
    forall i :: 0 <= i < |b| - 1 ==> !(b[i] == '\n' && b[i + 1] == '\n')
  }

  /** No block holds a blank line. */
  predicate BlocksNoBlank(r: seq<string>) {
    forall k :: 0 <= k < |r| ==> NoBlankLine(r[k])
  }

  /** Every block after the first is empty or starts with something other than an LF. */
  predicate BlocksStartClean(r: seq<string>) {
    forall k :: 1 <= k < |r| ==> r[k] == "" || r[k][0] != '\n'
  }

  /** Every block before the last is empty or ends with something other than an LF. */
  predicate BlocksEndClean(r: seq<string>) {
    forall k :: 0 <= k < |r| - 1 ==> r[k] == "" || r[k][|r[k]| - 1] != '\n'
  }

  /** Only the first and the last block can be empty. */
  predicate BlocksInnerNonEmpty(r: seq<string>) {
    forall k :: 0 < k < |r| - 1 ==> r[k] != ""
  }

  /**
   * The blocks are what the separators leave: none holds a blank line, every
   * block after the first starts with something other than an LF, every
   * block before the last ends with something other than an LF, and no block
   * between two separators is empty, so each separator is a whole run of LFs.
   */
  lemma {:induction false} SplitBlocksBlocks(s: string)
    ensures BlocksNoBlank(SplitBlocks(s))
    ensures BlocksStartClean(SplitBlocks(s))
    ensures BlocksEndClean(SplitBlocks(s))
    ensures BlocksInnerNonEmpty(SplitBlocks(s))
    decreases |s|
  {
    var r := SplitBlocks(s);
    if s == "" {
      assert r == [""];
    } else if |s| >= 2 && s[0] == '\n' && s[1] == '\n' {
      var d := DropNewlines(s);
      SplitBlocksBlocks(d);
      var rest := SplitBlocks(d);
      assert r == [""] + rest;
      SplitBlocksCleanStart(d);
      forall k | 1 <= k < |r|
        ensures NoBlankLine(r[k]) && (r[k] == "" || r[k][0] != '\n')
        ensures k < |r| - 1 ==> r[k] == "" || r[k][|r[k]| - 1] != '\n'
        ensures k < |r| - 1 ==> r[k] != ""
      {
        assert r[k] == rest[k - 1];
        assert NoBlankLine(rest[k - 1]);
      }
      assert NoBlankLine(r[0]);
    } else {
      SplitBlocksBlocks(s[1..]);
      var rest := SplitBlocks(s[1..]);
      var b := [s[0]] + rest[0];
      assert r == [b] + rest[1..];
      assert NoBlankLine(rest[0]);
      FirstBlockNoBlankLine(s[0], s[1..]);
      forall k | 1 <= k < |r|
        ensures NoBlankLine(r[k]) && (r[k] == "" || r[k][0] != '\n')
        ensures k < |r| - 1 ==> r[k] == "" || r[k][|r[k]| - 1] != '\n'
        ensures k < |r| - 1 ==> r[k] != ""
      {
        assert r[k] == rest[k];
        assert NoBlankLine(rest[k]);
      }
      if |r| > 1 {
        if rest[0] == "" {
          SplitBlocksEmptyFirst(s[1..]);
          assert b == [s[0]] && s[0] != '\n';
        } else {
          assert b[|b| - 1] == rest[0][|rest[0]| - 1];
        }
      }
    }
  }

  /** A character that does not start a blank line, in front of a first block without one, starts none. */
  lemma FirstBlockNoBlankLine(c: char, t: string)
    requires !(c == '\n' && t != "" && t[0] == '\n')
    requires NoBlankLine(SplitBlocks(t)[0])
    ensures NoBlankLine([c] + SplitBlocks(t)[0])
  {
    var f := SplitBlocks(t)[0];
    var b := [c] + f;
    forall i | 0 <= i < |b| - 1 ensures !(b[i] == '\n' && b[i + 1] == '\n') {
      if i == 0 {
        assert f != "" && b[1] == f[0] == t[0];
      } else {
        assert b[i] == f[i - 1] && b[i + 1] == f[i];
      }
    }
  }

  /** A text that does not start with an LF has a non-empty first block whenever it has two blocks. */
  lemma SplitBlocksCleanStart(t: string)
    requires t == "" || t[0] != '\n'
    ensures |SplitBlocks(t)| >= 2 ==> SplitBlocks(t)[0] != ""
  {
  }

  /** The first block is empty and followed by others only when the text starts with a blank line. */
  lemma SplitBlocksEmptyFirst(t: string)
    requires |SplitBlocks(t)| >= 2 && SplitBlocks(t)[0] == ""
    ensures |t| >= 2 && t[0] == '\n' && t[1] == '\n'
  {
  }

  /** A run of two or more LFs: what separates two blocks. */
  predicate LfRun(g: string) {
    |g| >= 2 && forall i :: 0 <= i < |g| ==> g[i] == '\n'
  }

  /** The blocks with the separators put back between them. */
  function Interleave(blocks: seq<string>, gaps: seq<string>): string
    requires |blocks| == |gaps| + 1
    decreases |gaps|
  {
    if gaps == [] then blocks[0] else blocks[0] + gaps[0] + Interleave(blocks[1..], gaps[1..])
  }

  /** What `DropNewlines` drops is a run of LFs in front of what it keeps. */
  lemma {:induction false} DropNewlinesSuffix(s: string)
    ensures var d := DropNewlines(s);
      s == s[..|s| - |d|] + d && forall i :: 0 <= i < |s| - |d| ==> s[i] == '\n'
  {
    if s != "" && s[0] == '\n' {
      DropNewlinesSuffix(s[1..]);
      var d := DropNewlines(s);
      assert s[..|s| - |d|] == [s[0]] + s[1..][..|s| - 1 - |d|];
    }
  }

  /** A text that starts with a blank line loses at least those two LFs. */
  lemma DropNewlinesDropsRun(s: string)
    requires |s| >= 2 && s[0] == '\n' && s[1] == '\n'
    ensures |DropNewlines(s)| <= |s| - 2
  {
    assert DropNewlines(s) == DropNewlines(s[1..]);
    assert s[1..][1..] == s[2..];
  }

  /** Putting the separators back between the blocks gives the text back: nothing but LF runs is removed. */
  lemma {:induction false} SplitBlocksRebuild(s: string) returns (gaps: seq<string>)
    ensures |gaps| == |SplitBlocks(s)| - 1
    ensures forall k :: 0 <= k < |gaps| ==> LfRun(gaps[k])
    ensures Interleave(SplitBlocks(s), gaps) == s
    decreases |s|
  {
    if s == "" {
      gaps := [];
    } else if |s| >= 2 && s[0] == '\n' && s[1] == '\n' {
      var d := DropNewlines(s);
      var rest := SplitBlocksRebuild(d);
      DropNewlinesSuffix(s);
      DropNewlinesDropsRun(s);
      var g := s[..|s| - |d|];
      gaps := [g] + rest;
      RebuildAfterRun(s, g, rest);
    } else {
      gaps := SplitBlocksRebuild(s[1..]);
      var rest := SplitBlocks(s[1..]);
      assert SplitBlocks(s) == [[s[0]] + rest[0]] + rest[1..];
      InterleaveCons(s[0], rest, gaps);
      assert s == [s[0]] + s[1..];
    }
  }

  lemma RebuildAfterRun(s: string, g: string, rest: seq<string>)
    requires |s| >= 2 && s[0] == '\n' && s[1] == '\n'
    requires g == s[..|s| - |DropNewlines(s)|] && s == g + DropNewlines(s)
    requires |rest| == |SplitBlocks(DropNewlines(s))| - 1
    requires Interleave(SplitBlocks(DropNewlines(s)), rest) == DropNewlines(s)
    ensures |[g] + rest| == |SplitBlocks(s)| - 1
    ensures Interleave(SplitBlocks(s), [g] + rest) == s
  {
    SplitBlocksRun(s);
    InterleaveEmptyFirst(SplitBlocks(DropNewlines(s)), rest, g);
  }

  /** An empty first block puts the first separator at the very start. */
  lemma InterleaveEmptyFirst(blocks: seq<string>, gaps: seq<string>, g: string)
    requires |blocks| == |gaps| + 1
    ensures Interleave([""] + blocks, [g] + gaps) == g + Interleave(blocks, gaps)
  {
    var bs, gs := [""] + blocks, [g] + gaps;
    assert bs[0] == "" && bs[1..] == blocks;
    assert gs[0] == g && gs[1..] == gaps;
    assert "" + g == g;
  }

  /** A character in front of the first block is a character in front of the whole text. */
  lemma InterleaveCons(c: char, blocks: seq<string>, gaps: seq<string>)
    requires |blocks| == |gaps| + 1
    ensures Interleave([[c] + blocks[0]] + blocks[1..], gaps) == [c] + Interleave(blocks, gaps)
  {
    var bs := [[c] + blocks[0]] + blocks[1..];
    if gaps != [] {
      assert bs[1..] == blocks[1..];
      var tail := Interleave(blocks[1..], gaps[1..]);
      assert ([c] + blocks[0]) + gaps[0] + tail == [c] + (blocks[0] + gaps[0] + tail);
    }
  }

  datatype Field = EventField | DataField

  /** A line that `^(event|data):\s*(.*)$` matches: the key and the captured value. */
  datatype LineMatch = LineMatch(field: Field, value: string)

  function FieldPrefix(f: Field): string {
    match f
    case EventField => "event:"
    case DataField => "data:"
  }

  predicate NoLineTerminator(s: string) {
    forall i :: 0 <= i < |s| ==> !IsLineTerminator(s[i])
  }

  /**
   * `line.match(/^(event|data):\s*(.*)$/)`. The greedy `\s*` takes all the
   * white space after the colon, and `.` matches no line terminator, so the
   * line matches exactly when what follows that white space has none; a CR
   * anywhere after the first non-blank character of the value defeats it.
   */
  function MatchLine(line: string): (r: Option<LineMatch>)
    ensures r.Some? ==>
      var p := FieldPrefix(r.value.field);
      && p <= line
      && r.value.value == TrimStart(line[|p|..])
      && NoLineTerminator(r.value.value)
    ensures forall f: Field :: FieldPrefix(f) <= line && NoLineTerminator(TrimStart(line[|FieldPrefix(f)|..])) ==>
      r == Some(LineMatch(f, TrimStart(line[|FieldPrefix(f)|..])))
  {
    assert FieldPrefix(DataField) <= line ==> line[0] == 'd';
    assert FieldPrefix(EventField) <= line ==> line[0] == 'e';
    var f :=
      if FieldPrefix(EventField) <= line then Some(EventField)
      else if FieldPrefix(DataField) <= line then Some(DataField)
      else None;
    if f.None? then None
    else
      var v := TrimStart(line[|FieldPrefix(f.value)|..]);
      if NoLineTerminator(v) then Some(LineMatch(f.value, v)) else None
  }

  /** The payload a `data:` value becomes: its JSON value, or the raw text when it is not JSON. */
  function Decode(text: string, parseJson: JsonParser): (r: Value)
    ensures parseJson(text).Some? ==> r == parseJson(text).value
    ensures parseJson(text).None? ==> r == Str(text)
  {
    match parseJson(text)
    case Some(j) => j
    case None => Str(text)
  }

  /** The effect of one line on the event object being built. */
  function ApplyLine(e: SseEvent, line: string, parseJson: JsonParser): SseEvent {
    match MatchLine(line)
    case None => e
    case Some(LineMatch(EventField, v)) => e.(event := Some(v))
    case Some(LineMatch(DataField, v)) => e.(data := Some(Decode(v, parseJson)))
  }

  /** The event object after all the lines of a block, in order. */
  function BlockFields(lines: seq<string>, parseJson: JsonParser): SseEvent {
    if lines == [] then SseEvent(None, None)
    else ApplyLine(BlockFields(lines[..|lines| - 1], parseJson), lines[|lines| - 1], parseJson)
  }

  /** The event one block yields, if it has at least one field. */
  function BlockEvent(block: string, parseJson: JsonParser): Option<SseEvent> {
    var e := BlockFields(SplitLines(Trim(block)), parseJson);
    if e.event.Some? || e.data.Some? then Some(e) else None
  }

  /** What one block contributes to the output: its event, or nothing. */
  function EventsOfBlock(block: string, parseJson: JsonParser): seq<SseEvent> {
    match BlockEvent(block, parseJson)
    case Some(e) => [e]
    case None => []
  }

  /** The events of a list of blocks, block by block. */
  function EventsOfBlocks(blocks: seq<string>, parseJson: JsonParser): seq<SseEvent> {
    if blocks == [] then []
    else EventsOfBlocks(blocks[..|blocks| - 1], parseJson) + EventsOfBlock(blocks[|blocks| - 1], parseJson)
  }

  /** What `parseSSEtoJSON(sseText)` returns. */
  function ParseSse(sseText: string, parseJson: JsonParser): seq<SseEvent> {
    EventsOfBlocks(SplitBlocks(Trim(sseText)), parseJson)
  }

  /** The callback `parseSSEtoJSON` runs on one block: one pass over its lines. */
  method ParseBlock(block: string, parseJson: JsonParser) returns (eventObj: SseEvent)
    ensures eventObj == BlockFields(SplitLines(Trim(block)), parseJson)
  {
    var lines := SplitLines(Trim(block));
    eventObj := SseEvent(None, None);
    var l := 0;
    while l < |lines|
      invariant 0 <= l <= |lines|
      invariant eventObj == BlockFields(lines[..l], parseJson)
    {
      ghost var before := eventObj;
      var m := MatchLine(lines[l]);
      if m.Some? {
        if m.value.field == EventField {
          eventObj := eventObj.(event := Some(m.value.value));
        } else {
          var parsed := parseJson(m.value.value);
          eventObj := eventObj.(data := Some(if parsed.Some? then parsed.value else Str(m.value.value)));
        }
      }
      assert eventObj == ApplyLine(before, lines[l], parseJson);
      BlockFieldsSnoc(lines, l, parseJson);
      l := l + 1;
    }
    assert lines[..l] == lines;
  }

  /** `parseSSEtoJSON`: one pass over the blocks, pushing the event of each block that has a field. */
  method ParseSSEtoJSON(sseText: string, parseJson: JsonParser) returns (parsedEvents: seq<SseEvent>)
    ensures parsedEvents == ParseSse(sseText, parseJson)
  {
    var events := SplitBlocks(Trim(sseText));
    parsedEvents := [];
    var b := 0;
    while b < |events|
      invariant 0 <= b <= |events|
      invariant parsedEvents == EventsOfBlocks(events[..b], parseJson)
    {
      var eventObj := ParseBlock(events[b], parseJson);
      EventsOfOneBlock(events[b], parseJson);
      EventsOfBlocksSnoc(events, b, parseJson);
      if eventObj.event.Some? || eventObj.data.Some? {
        parsedEvents := parsedEvents + [eventObj];
      }
      b := b + 1;
    }
    assert events[..b] == events;
  }

  /** The event object after one more line is the previous one with that line applied. */
  lemma BlockFieldsSnoc(lines: seq<string>, l: nat, parseJson: JsonParser)
    requires l < |lines|
    ensures BlockFields(lines[..l + 1], parseJson) == ApplyLine(BlockFields(lines[..l], parseJson), lines[l], parseJson)
  {
    assert lines[..l + 1][..l] == lines[..l] && lines[..l + 1][l] == lines[l];
  }

  /** What one block contributes, in terms of its event object. */
  lemma EventsOfOneBlock(block: string, parseJson: JsonParser)
    ensures var e := BlockFields(SplitLines(Trim(block)), parseJson);
      EventsOfBlock(block, parseJson) == if e.event.Some? || e.data.Some? then [e] else []
  {
  }

  /** The events of one more block are those before it followed by its own. */
  lemma EventsOfBlocksSnoc(blocks: seq<string>, b: nat, parseJson: JsonParser)
    requires b < |blocks|
    ensures EventsOfBlocks(blocks[..b + 1], parseJson) == EventsOfBlocks(blocks[..b], parseJson) + EventsOfBlock(blocks[b], parseJson)
  {
    assert blocks[..b + 1][..b] == blocks[..b] && blocks[..b + 1][b] == blocks[b];
  }

  // ---------------------------------------------------------------------
  // Properties of the tokenizer

  predicate HasField(e: SseEvent) {
    e.event.Some? || e.data.Some?
  }

  /** Every event of the output has an `event` or a `data` field. */
  lemma {:induction false} EventsOfBlocksHaveFields(blocks: seq<string>, parseJson: JsonParser)
    ensures forall e :: e in EventsOfBlocks(blocks, parseJson) ==> HasField(e)
  {
    if blocks != [] {
      var init := blocks[..|blocks| - 1];
      EventsOfBlocksHaveFields(init, parseJson);
      var last := BlockEvent(blocks[|blocks| - 1], parseJson);
      assert last.Some? ==> HasField(last.value);
      assert EventsOfBlocks(blocks, parseJson) ==
        EventsOfBlocks(init, parseJson) + (if last.Some? then [last.value] else []);
    }
  }

  lemma EveryEventHasField(sseText: string, parseJson: JsonParser)
    ensures forall e :: e in ParseSse(sseText, parseJson) ==> HasField(e)
  {
    EventsOfBlocksHaveFields(SplitBlocks(Trim(sseText)), parseJson);
  }

  /** None of the lines is an `event:` or a `data:` line. */
  predicate NoFieldLine(lines: seq<string>) {
    forall j :: 0 <= j < |lines| ==> MatchLine(lines[j]).None?
  }

  lemma NoFieldLineSnoc(init: seq<string>, last: string)
    ensures NoFieldLine(init + [last]) <==> NoFieldLine(init) && MatchLine(last).None?
  {
    var lines := init + [last];
    assert lines[|init|] == last;
    assert forall j :: 0 <= j < |init| ==> lines[j] == init[j];
  }

  /** The lines leave the event object empty exactly when none of them is an `event:` or `data:` line. */
  lemma {:induction false} BlockFieldsEmpty(lines: seq<string>, parseJson: JsonParser)
    ensures !HasField(BlockFields(lines, parseJson)) <==> NoFieldLine(lines)
  {
    if lines != [] {
      var init := lines[..|lines| - 1];
      var last := lines[|lines| - 1];
      BlockFieldsEmpty(init, parseJson);
      assert lines == init + [last];
      NoFieldLineSnoc(init, last);
      var e := BlockFields(init, parseJson);
      assert BlockFields(lines, parseJson) == ApplyLine(e, last, parseJson);
      assert HasField(ApplyLine(e, last, parseJson)) <==> HasField(e) || MatchLine(last).Some?;
    }
  }

  /** A block without any `event:` or `data:` line produces nothing. */
  lemma BlockWithoutFieldLines(block: string, parseJson: JsonParser)
    ensures BlockEvent(block, parseJson).None? <==> NoFieldLine(SplitLines(Trim(block)))
  {
    BlockFieldsEmpty(SplitLines(Trim(block)), parseJson);
  }

  /** Input made of white space only gives no events. */
  lemma WhiteSpaceOnlyInput(sseText: string, parseJson: JsonParser)
    requires forall i :: 0 <= i < |sseText| ==> IsWhiteSpace(sseText[i])
    ensures ParseSse(sseText, parseJson) == []
  {
    TrimAllWhiteSpace(sseText);
    assert SplitBlocks("") == [""];
    assert EventsOfBlocks([""], parseJson) == EventsOfBlocks([], parseJson) + [];
  }

  predicate IsFieldLine(line: string, f: Field) {
    MatchLine(line).Some? && MatchLine(line).value.field == f
  }

  /**
   * The `event` field is the value of the last `event:` line of the block
   * (`k`), or absent when there is none (`k` is -1).
   */
  lemma {:induction false} LastEventLineWins(lines: seq<string>, parseJson: JsonParser, k: int)
    requires -1 <= k < |lines|
    requires k >= 0 ==> IsFieldLine(lines[k], EventField)
    requires forall j :: k < j < |lines| ==> !IsFieldLine(lines[j], EventField)
    ensures BlockFields(lines, parseJson).event == if k < 0 then None else Some(MatchLine(lines[k]).value.value)
  {
    if lines != [] {
      var n := |lines| - 1;
      var init := lines[..n];
      assert BlockFields(lines, parseJson) == ApplyLine(BlockFields(init, parseJson), lines[n], parseJson);
      if k < n {
        forall j | k < j < n ensures !IsFieldLine(init[j], EventField) {
          assert init[j] == lines[j];
        }
        LastEventLineWins(init, parseJson, k);
        assert k >= 0 ==> init[k] == lines[k];
        assert ApplyLine(BlockFields(init, parseJson), lines[n], parseJson).event == BlockFields(init, parseJson).event;
      }
    }
  }

  /**
   * The `data` field is the decoded value of the last `data:` line of the
   * block (`k`), or absent when there is none (`k` is -1): several `data:`
   * lines are not joined.
   */
  lemma {:induction false} LastDataLineWins(lines: seq<string>, parseJson: JsonParser, k: int)
    requires -1 <= k < |lines|
    requires k >= 0 ==> IsFieldLine(lines[k], DataField)
    requires forall j :: k < j < |lines| ==> !IsFieldLine(lines[j], DataField)
    ensures BlockFields(lines, parseJson).data ==
      if k < 0 then None else Some(Decode(MatchLine(lines[k]).value.value, parseJson))
  {
    if lines != [] {
      var n := |lines| - 1;
      var init := lines[..n];
      assert BlockFields(lines, parseJson) == ApplyLine(BlockFields(init, parseJson), lines[n], parseJson);
      if k < n {
        forall j | k < j < n ensures !IsFieldLine(init[j], DataField) {
          assert init[j] == lines[j];
        }
        LastDataLineWins(init, parseJson, k);
        assert k >= 0 ==> init[k] == lines[k];
        assert ApplyLine(BlockFields(init, parseJson), lines[n], parseJson).data == BlockFields(init, parseJson).data;
      }
    }
  }

  lemma {:induction false} DropNewlinesAppend(a: string, t: string, i: nat)
    requires i < |a| && a[i] != '\n'
    ensures DropNewlines(a + t) == DropNewlines(a) + t
  {
    if a[0] == '\n' {
      assert (a + t)[1..] == a[1..] + t;
      DropNewlinesAppend(a[1..], t, i - 1);
    }
  }

  lemma {:induction false} DropNewlinesKeepsLast(a: string, i: nat)
    requires i < |a| && a[i] != '\n'
    ensures DropNewlines(a) != "" && DropNewlines(a)[|DropNewlines(a)| - 1] == a[|a| - 1]
  {
    if a[0] == '\n' {
      DropNewlinesKeepsLast(a[1..], i - 1);
    }
  }

  /** Splitting `a`, a blank line, `b` gives the blocks of `a` followed by those of `b`. */
  lemma {:induction false} SplitBlocksAppend(a: string, b: string)
    requires a != "" && a[|a| - 1] != '\n'
    requires b == "" || b[0] != '\n'
    ensures SplitBlocks(a + "\n\n" + b) == SplitBlocks(a) + SplitBlocks(b)
    decreases |a|, 1
  {
    if |a| >= 2 && a[0] == '\n' && a[1] == '\n' {
      SplitBlocksAppendRun(a, b);
    } else if |a| == 1 {
      assert a + "\n\n" + b == [a[0]] + ("\n\n" + b);
      SplitBlocksAppendSingle(a[0], b);
      SplitBlocksCons(a[0], "");
      assert a == [a[0]] + "" && [a[0]] + "" == [a[0]];
    } else {
      SplitBlocksAppendChar(a, b);
    }
  }

  lemma {:induction false} SplitBlocksAppendRun(a: string, b: string)
    requires |a| >= 2 && a[0] == '\n' && a[1] == '\n' && a[|a| - 1] != '\n'
    requires b == "" || b[0] != '\n'
    ensures SplitBlocks(a + "\n\n" + b) == SplitBlocks(a) + SplitBlocks(b)
    decreases |a|, 0
  {
    var s := a + ("\n\n" + b);
    assert a + "\n\n" + b == s;
    SplitBlocksRun(s);
    SplitBlocksRun(a);
    DropNewlinesAppend(a, "\n\n" + b, |a| - 1);
    DropNewlinesKeepsLast(a, |a| - 1);
    var d := DropNewlines(a);
    assert d + "\n\n" + b == d + ("\n\n" + b);
    SplitBlocksAppend(d, b);
    assert [""] + (SplitBlocks(d) + SplitBlocks(b)) == ([""] + SplitBlocks(d)) + SplitBlocks(b);
  }

  /** A text that starts with a blank line: one empty block, then the blocks after the LFs. */
  lemma SplitBlocksRun(s: string)
    requires |s| >= 2 && s[0] == '\n' && s[1] == '\n'
    ensures SplitBlocks(s) == [""] + SplitBlocks(DropNewlines(s))
  {
  }

  /** A one-character block, a blank line, then `b`. */
  lemma SplitBlocksAppendSingle(c: char, b: string)
    requires c != '\n'
    requires b == "" || b[0] != '\n'
    ensures SplitBlocks([c] + ("\n\n" + b)) == [[c]] + SplitBlocks(b)
  {
    var g := SplitBlocks("\n\n" + b);
    SplitBlocksCons(c, "\n\n" + b);
    SplitBlocksGap(b);
    assert g[0] == "" && g[1..] == SplitBlocks(b);
    assert [c] + g[0] == [c];
  }

  /** A blank line in front of a block adds one empty block. */
  lemma SplitBlocksGap(b: string)
    requires b == "" || b[0] != '\n'
    ensures SplitBlocks("\n\n" + b) == [""] + SplitBlocks(b)
  {
    var gap, nb := "\n\n" + b, "\n" + b;
    assert gap[0] == '\n' && gap[1] == '\n' && gap[1..] == nb;
    assert nb[0] == '\n' && nb[1..] == b;
    assert DropNewlines(nb) == DropNewlines(b) == b;
  }

  lemma {:induction false} SplitBlocksAppendChar(a: string, b: string)
    requires |a| >= 2 && !(a[0] == '\n' && a[1] == '\n') && a[|a| - 1] != '\n'
    requires b == "" || b[0] != '\n'
    ensures SplitBlocks(a + "\n\n" + b) == SplitBlocks(a) + SplitBlocks(b)
    decreases |a|, 0
  {
    var tail := a[1..];
    assert a == [a[0]] + tail;
    assert a + "\n\n" + b == [a[0]] + (tail + "\n\n" + b);
    SplitBlocksCons(a[0], tail + "\n\n" + b);
    SplitBlocksCons(a[0], tail);
    SplitBlocksAppend(tail, b);
    GlueFirst([a[0]], SplitBlocks(tail), SplitBlocks(b));
  }

  /** A text that does not start a blank line: its first character joins the first block of the rest. */
  lemma SplitBlocksCons(c: char, t: string)
    requires !(c == '\n' && t != "" && t[0] == '\n')
    ensures SplitBlocks([c] + t) == [[c] + SplitBlocks(t)[0]] + SplitBlocks(t)[1..]
  {
    var s := [c] + t;
    assert s[0] == c && s[1..] == t;
  }

  lemma GlueFirst(x: string, sa: seq<string>, sb: seq<string>)
    requires sa != []
    ensures [x + (sa + sb)[0]] + (sa + sb)[1..] == ([x + sa[0]] + sa[1..]) + sb
  {
    assert (sa + sb)[0] == sa[0];
    assert (sa + sb)[1..] == sa[1..] + sb;
  }

  /** The events of two lists of blocks in sequence are the events of the first, then of the second. */
  lemma {:induction false} EventsOfBlocksAppend(x: seq<string>, y: seq<string>, parseJson: JsonParser)
    ensures EventsOfBlocks(x + y, parseJson) == EventsOfBlocks(x, parseJson) + EventsOfBlocks(y, parseJson)
    decreases |y|
  {
    if y == [] {
      assert x + y == x;
    } else {
      var y0 := y[..|y| - 1];
      var tail := EventsOfBlock(y[|y| - 1], parseJson);
      assert (x + y)[..|x + y| - 1] == x + y0;
      assert (x + y)[|x + y| - 1] == y[|y| - 1];
      assert EventsOfBlocks(x + y, parseJson) == EventsOfBlocks(x + y0, parseJson) + tail;
      assert EventsOfBlocks(y, parseJson) == EventsOfBlocks(y0, parseJson) + tail;
      EventsOfBlocksAppend(x, y0, parseJson);
      assert EventsOfBlocks(x, parseJson) + EventsOfBlocks(y0, parseJson) + tail
        == EventsOfBlocks(x, parseJson) + (EventsOfBlocks(y0, parseJson) + tail);
    }
  }

  /**
   * Output order follows block order: the events of two trimmed, non-empty
   * texts joined by a blank line are the events of the first followed by the
   * events of the second.
   */
  lemma BlocksInOrder(a: string, b: string, parseJson: JsonParser)
    requires a != "" && Trim(a) == a
    requires b != "" && Trim(b) == b
    ensures ParseSse(a + "\n\n" + b, parseJson) == ParseSse(a, parseJson) + ParseSse(b, parseJson)
  {
    assert TrimStart(a) == a && TrimEnd(a) == a;
    assert TrimStart(b) == b && TrimEnd(b) == b;
    var s := a + "\n\n" + b;
    assert s[0] == a[0] && s[|s| - 1] == b[|b| - 1];
    TrimOfTrimmed(s);
    SplitBlocksAppend(a, b);
    EventsOfBlocksAppend(SplitBlocks(a), SplitBlocks(b), parseJson);
  }

  /** A text without a blank line is a single block. */
  lemma {:induction false} SplitBlocksNoBlank(s: string)
    requires NoBlankLine(s)
    ensures SplitBlocks(s) == [s]
    decreases |s|
  {
    if s != "" {
      assert NoBlankLine(s[1..]) by {
        forall i | 0 <= i < |s[1..]| - 1 ensures !(s[1..][i] == '\n' && s[1..][i + 1] == '\n') {
          assert s[1..][i] == s[i + 1] && s[1..][i + 1] == s[i + 2];
        }
      }
      SplitBlocksNoBlank(s[1..]);
      assert [s[0]] + s[1..] == s;
    }
  }

  /** A line without an LF splits into itself. */
  lemma {:induction false} SplitLinesFree(a: string)
    requires Free(a, '\n')
    ensures SplitLines(a) == [a]
  {
    if a != "" {
      SplitLinesFree(a[1..]);
      assert [a[0]] + a[1..] == a;
    }
  }

  /** A first line without an LF, then an LF, splits off as the first line. */
  lemma {:induction false} SplitLinesCons(a: string, b: string)
    requires Free(a, '\n')
    ensures SplitLines(a + "\n" + b) == [a] + SplitLines(b)
  {
    var x := a + "\n" + b;
    if a == "" {
      assert x[0] == '\n' && x[1..] == b;
    } else {
      assert x[0] == a[0] != '\n';
      assert x[1..] == a[1..] + "\n" + b;
      SplitLinesCons(a[1..], b);
      var rest := SplitLines(x[1..]);
      assert rest == [a[1..]] + SplitLines(b);
      assert SplitLines(x) == [[x[0]] + rest[0]] + rest[1..];
      assert rest[0] == a[1..] && rest[1..] == SplitLines(b);
      assert [a[0]] + a[1..] == a;
    }
  }

  /** The `event: delta` line of a stream. */
  lemma MatchDeltaLine()
    ensures MatchLine("event: delta") == Some(LineMatch(EventField, "delta"))
  {
    var l := "event: delta";
    assert l[|FieldPrefix(EventField)|..] == " delta";
    assert TrimStart(" delta") == TrimStart("delta") == "delta";
  }

  lemma MatchDataLine()
    ensures MatchLine("data: x") == Some(LineMatch(DataField, "x"))
  {
    var l := "data: x";
    assert l[|FieldPrefix(DataField)|..] == " x";
    assert TrimStart(" x") == TrimStart("x") == "x";
  }

  /** A text of two lines, neither blank nor padded at the outer ends, is one block of those two lines. */
  lemma TwoLineText(a: string, b: string)
    requires Free(a, '\n') && Free(b, '\n')
    requires a != "" && !IsWhiteSpace(a[0]) && b != "" && !IsWhiteSpace(b[|b| - 1])
    ensures SplitBlocks(Trim(a + "\n" + b)) == [a + "\n" + b]
    ensures SplitLines(Trim(a + "\n" + b)) == [a, b]
  {
    var s := a + "\n" + b;
    TrimOfTrimmed(s);
    forall i | 0 <= i < |s| - 1 ensures !(s[i] == '\n' && s[i + 1] == '\n') {
      if i < |a| {
        assert s[i] == a[i];
      } else {
        assert s[i + 1] == b[i - |a|];
      }
    }
    SplitBlocksNoBlank(s);
    SplitLinesCons(a, b);
    SplitLinesFree(b);
  }

  /** Such a two-line text gives the event its two lines build, if they set a field. */
  lemma ParseSseTwoLines(a: string, b: string, parseJson: JsonParser)
    requires Free(a, '\n') && Free(b, '\n')
    requires a != "" && !IsWhiteSpace(a[0]) && b != "" && !IsWhiteSpace(b[|b| - 1])
    ensures var e := ApplyLine(ApplyLine(SseEvent(None, None), a, parseJson), b, parseJson);
      ParseSse(a + "\n" + b, parseJson) == if HasField(e) then [e] else []
  {
    var s := a + "\n" + b;
    TwoLineText(a, b);
    var lines := [a, b];
    var e0 := SseEvent(None, None);
    assert BlockFields([a], parseJson) == ApplyLine(e0, a, parseJson) by {
      assert [a][..0] == [];
    }
    assert BlockFields(lines, parseJson) == ApplyLine(BlockFields([a], parseJson), b, parseJson) by {
      assert lines[..1] == [a];
    }
    EventsOfOneBlock(s, parseJson);
    assert ParseSse(s, parseJson) == EventsOfBlocks([s], parseJson);
    assert EventsOfBlocks([s], parseJson) == EventsOfBlock(s, parseJson) by {
      assert [s][..0] == [];
    }
  }

  /**
   * A two-line block, an `event:` line and then a `data:` line, gives one
   * event with the label after the colon and the decoded payload.
   */
  lemma ParseSseDeltaEvent(parseJson: JsonParser)
    ensures ParseSse("event: delta" + "\n" + "data: x", parseJson) == [SseEvent(Some("delta"), Some(Decode("x", parseJson)))]
  {
    DeltaLinesEvent(parseJson);
    DeltaLinesShape();
    ParseSseTwoLines("event: delta", "data: x", parseJson);
  }

  /** The two lines of that stream, one after the other, set both fields. */
  lemma DeltaLinesEvent(parseJson: JsonParser)
    ensures ApplyLine(ApplyLine(SseEvent(None, None), "event: delta", parseJson), "data: x", parseJson)
      == SseEvent(Some("delta"), Some(Decode("x", parseJson)))
  {
    MatchDeltaLine();
    MatchDataLine();
  }

  /** Neither line holds an LF; the text starts and ends with a character other than white space. */
  lemma DeltaLinesShape()
    ensures Free("event: delta", '\n') && Free("data: x", '\n')
    ensures !IsWhiteSpace("event: delta"[0]) && !IsWhiteSpace("data: x"[|"data: x"| - 1])
  {
  }
}
