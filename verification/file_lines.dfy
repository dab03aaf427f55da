/** The line arithmetic of the find and read tools (internal/tools/fs/find.go, read.go). */
module FileLines {
  import opened Basics
  import opened Text

  datatype Place = Place(number: nat, content: string)

  /** The line around a match, numbered from 0. */
  function LineAt(data: string, idx: nat): Place
    requires idx <= |data|
  {
    LineBehind(data, data[..idx])
  }

  function LineBehind(data: string, before: string): Place
    requires |before| <= |data|
  {
    var start := StartOfLast(before);
    Place(Count(before), data[start..EndOfLine(data, start)])
  }

  /** Where the last line starts. */
  function StartOfLast(before: string): (start: nat)
    ensures start <= |before|
  {
    match LastIndex(before) case None => 0 case Some(i) => i + 1
  }

  function EndOfLine(data: string, start: nat): (end: nat)
    requires start <= |data|
    ensures start <= end <= |data|
  {
    match Index(data[start..]) case None => |data| case Some(i) => i + start
  }

  function Max(a: int, b: int): int { if a < b then b else a }

  function Min(a: int, b: int): int { if a < b then a else b }

  datatype Range = Range(first: nat, last: nat)

  /** The range of lines that is read out, of a text with that many. */
  function Clamp(total: nat, from: Option<int>, to: Option<int>): (r: Range)
    requires total > 0
    ensures 1 <= r.first <= r.last <= total
  {
    var start := if from.Some? then from.value else 1;
    var end := if to.Some? then to.value else total;
    var first := Max(1, Min(start, total));
    Range(first, Max(first, Min(end, total)))
  }

  function Extract(lines: seq<string>, from: Option<int>, to: Option<int>): string
    requires lines != []
  {
    var r := Clamp(|lines|, from, to);
    Join(lines[r.first - 1..r.last])
  }

  /** Lines from..to, numbered from 1; both bounds are optional and any integer is accepted. */
  function ExtractLines(data: string, from: Option<int>, to: Option<int>): string
  {
    Extract(Split(data), from, to)
  }

  /** Where line n of the data starts. */
  function Offset(lines: seq<string>, n: nat): nat
    requires n <= |lines|
  {
    if n == 0 then 0 else |lines[0]| + 1 + Offset(lines[1..], n - 1)
  }

  /** The place is a line of the text, and the index lies in it. */
  predicate InItsLine(lines: seq<string>, at: Place, idx: nat)
  {
    && at.number < |lines|
    && at.content == lines[at.number]
    && Offset(lines, at.number) <= idx <= Offset(lines, at.number) + |at.content|
  }

  /** The two tools agree: the place found for any index is that line of the split text, and the index
      lies in it. */
  lemma LineAtIsSplit(data: string, idx: nat)
    requires idx <= |data|
    ensures InItsLine(Split(data), LineAt(data, idx), idx)
  {
    CutInTwo(data, idx);
    BehindIsSplit(data, data[..idx], data[idx..]);
  }

  lemma CutInTwo(data: string, idx: nat)
    requires idx <= |data|
    ensures data == data[..idx] + data[idx..] && |data[..idx]| == idx
  {
  }

  lemma {:induction false} BehindIsSplit(data: string, before: string, after: string)
    requires data == before + after
    ensures InItsLine(Split(data), LineBehind(data, before), |before|)
    decreases |before|
  {
    match Index(before) {
      case None =>
        BehindInFirst(data, before, after);
      case Some(i) =>
        var line, inRest := before[..i], before[i + 1..];
        CutAt(before, i);
        BehindIsSplit(inRest + after, inRest, after);
        BehindInRest(data, before, line, inRest, after);
    }
  }

  lemma BehindInFirst(data: string, before: string, after: string)
    requires data == before + after && '\n' !in before
    ensures InItsLine(Split(data), LineBehind(data, before), |before|)
  {
    CountZero(before);
    assert LastIndex(before) == None;
    assert data[0..] == data;
    assert forall j :: 0 <= j < |before| ==> data[j] == before[j];
  }

  lemma BehindInRest(data: string, before: string, line: string, inRest: string, after: string)
    requires data == before + after && before == line + "\n" + inRest && '\n' !in line
    requires InItsLine(Split(inRest + after), LineBehind(inRest + after, inRest), |inRest|)
    ensures InItsLine(Split(data), LineBehind(data, before), |before|)
  {
    var rest := inRest + after;
    Regroup(line, inRest, after);
    LineInRest(data, line, rest, before, inRest);
    SplitOfLine(data, line, rest);
    InLaterLine(line, Split(rest), LineBehind(rest, inRest), |inRest|);
  }

  lemma Regroup(line: string, inRest: string, after: string)
    ensures line + "\n" + inRest + after == line + "\n" + (inRest + after)
  {
  }

  lemma InLaterLine(line: string, lines: seq<string>, at: Place, idx: nat)
    requires InItsLine(lines, at, idx)
    ensures InItsLine([line] + lines, Place(at.number + 1, at.content), |line| + 1 + idx)
  {
    assert ([line] + lines)[1..] == lines;
  }

  /** Behind the first newline, only the number changes. */
  lemma LineInRest(data: string, line: string, rest: string, before: string, inRest: string)
    requires data == line + "\n" + rest && before == line + "\n" + inRest && |inRest| <= |rest|
    requires '\n' !in line
    ensures LineBehind(data, before) == Place(LineBehind(rest, inRest).number + 1, LineBehind(rest, inRest).content)
  {
    CountInRest(line, inRest);
    StartInRest(line, inRest);
    EndInRest(data, line, rest, StartOfLast(inRest));
  }

  lemma CountInRest(line: string, rest: string)
    requires '\n' !in line
    ensures Count(line + "\n" + rest) == Count(rest) + 1
  {
    IndexAfterLine(line, rest);
    CountAfterIndex(line + "\n" + rest, |line|);
  }

  lemma StartInRest(line: string, rest: string)
    ensures StartOfLast(line + "\n" + rest) == |line| + 1 + StartOfLast(rest)
  {
    var s := line + "\n" + rest;
    assert s[|line|] == '\n';
    assert s[|line| + 1..] == rest;
    forall j | |line| < j < |s| ensures s[j] == rest[j - |line| - 1] {
    }
    OneLastIndex(s, |line| + StartOfLast(rest));
  }

  lemma EndInRest(data: string, line: string, rest: string, start: nat)
    requires data == line + "\n" + rest && start <= |rest|
    ensures EndOfLine(data, |line| + 1 + start) == |line| + 1 + EndOfLine(rest, start)
    ensures data[|line| + 1 + start..|line| + 1 + EndOfLine(rest, start)] == rest[start..EndOfLine(rest, start)]
  {
    assert data[|line| + 1 + start..] == rest[start..];
  }

  /** The line a match is reported with is the one the read tool returns for it. */
  lemma FindAgreesWithRead(data: string, idx: nat)
    requires idx <= |data|
    ensures var at := LineAt(data, idx);
            && '\n' !in at.content
            && at.content == ExtractLines(data, Some(at.number + 1), Some(at.number + 1))
  {
    LineAtIsSplit(data, idx);
    SplitIsLines(data);
    OneLine(Split(data), LineAt(data, idx).number);
  }

  lemma OneLine(lines: seq<string>, n: nat)
    requires n < |lines|
    ensures Join(lines[n..n + 1]) == lines[n]
    ensures Clamp(|lines|, Some(n + 1), Some(n + 1)) == Range(n + 1, n + 1)
  {
    assert lines[n..n + 1] == [lines[n]];
  }

  /** What is read out are the lines of the clamped range, whatever integers were asked for. */
  lemma ExtractedLines(data: string, from: Option<int>, to: Option<int>)
    ensures var r := Clamp(|Split(data)|, from, to);
            Split(ExtractLines(data, from, to)) == Split(data)[r.first - 1..r.last]
  {
    SplitIsLines(data);
    var r := Clamp(|Split(data)|, from, to);
    SplitOfSomeLines(Split(data), r.first - 1, r.last);
  }

  /** Bounds beyond the text are moved to its ends, and an empty range gives its first line: a line is
      read out exactly if it is asked for, or if it is the one the whole range was moved to. */
  lemma ClampedRange(total: nat, from: Option<int>, to: Option<int>, n: nat)
    requires 1 <= n <= total
    ensures var r := Clamp(total, from, to);
            var asked := (from.Some? ==> from.value <= n) && (to.Some? ==> n <= to.value);
            r.first <= n <= r.last <==>
              || asked
              || (from.Some? && from.value >= total && n == total)
              || (to.Some? && n == r.first && to.value < r.first)
  {
  }

  /** The whole range is the data. */
  lemma WholeRange(data: string)
    ensures ExtractLines(data, None, None) == data
    ensures ExtractLines(data, Some(1), Some(|Split(data)|)) == data
  {
    SplitIsLines(data);
    assert Split(data)[0..|Split(data)|] == Split(data);
  }

  /** Neighbouring ranges join without loss. */
  lemma RangesRejoin(data: string, a: int, b: int, c: int)
    requires 1 <= a <= b < c <= |Split(data)|
    ensures ExtractLines(data, Some(a), Some(b)) + "\n" + ExtractLines(data, Some(b + 1), Some(c))
            == ExtractLines(data, Some(a), Some(c))
  {
    RejoinExtracts(Split(data), a, b, c);
  }

  lemma RejoinExtracts(lines: seq<string>, a: int, b: int, c: int)
    requires 1 <= a <= b < c <= |lines|
    ensures Extract(lines, Some(a), Some(b)) + "\n" + Extract(lines, Some(b + 1), Some(c))
            == Extract(lines, Some(a), Some(c))
  {
    ExtractsRange(lines, a, b);
    ExtractsRange(lines, b + 1, c);
    ExtractsRange(lines, a, c);
    RejoinLines(lines, a - 1, b, c);
  }

  lemma ExtractsRange(lines: seq<string>, a: int, b: int)
    requires 1 <= a <= b <= |lines|
    ensures Extract(lines, Some(a), Some(b)) == Join(lines[a - 1..b])
  {
  }

  lemma RejoinLines(lines: seq<string>, a: nat, b: nat, c: nat)
    requires a < b < c <= |lines|
    ensures Join(lines[a..b]) + "\n" + Join(lines[b..c]) == Join(lines[a..c])
  {
    JoinConcat(lines[a..b], lines[b..c]);
    assert lines[a..b] + lines[b..c] == lines[a..c];
  }
}
