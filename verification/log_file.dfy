/** The trimmed log file (internal/logging/file.go). */
module LogFiles {
  import opened Basics
  import opened Text

  /** Drop lines from the front until at most n newlines are left. */
  function LastLines(data: string, n: nat): string
    decreases |data|
  {
    match Index(data)
    case Some(i) => if Count(data) <= n then data else LastLines(data[i + 1..], n)
    case None => data
  }

  datatype Outcome = Done | Panic

  class LogFile {
    var content: string

    /** The file as it is found; opening creates an empty one. */
    constructor (found: string)
      ensures content == found
    {
      content := found;
    }

    /** Opened for appending. */
    method Write(p: string)
      modifies this
      ensures content == old(content) + p
    {
      content := content + p;
    }

    /** Overwrite from an offset, as a seek and a write do. */
    method WriteAt(offset: nat, p: string)
      requires offset <= |content|
      modifies this
      ensures content == old(content)[..offset] + p +
                         (if offset + |p| <= |old(content)| then old(content)[offset + |p|..] else "")
    {
      content := content[..offset] + p + (if offset + |p| <= |content| then content[offset + |p|..] else "");
    }

    method Truncate(size: nat)
      requires size <= |content|
      modifies this
      ensures content == old(content)[..size]
    {
      content := content[..size];
    }

    /** Keep the last lines. A negative number makes the program panic before it writes: there are not
        enough lines to skip, or the skipped width passes the end of the data. */
    method Trim(maxLines: int) returns (outcome: Outcome)
      modifies this
      ensures outcome == Done <==> maxLines >= 0
      ensures content == if maxLines >= 0 then LastLines(old(content), maxLines) else old(content)
    {
      var data := content;
      var linesCount := Count(data);
      if linesCount < maxLines {
        FewLinesStay(data, maxLines);
        return Done;
      }
      var truncation := linesCount - maxLines;
      var lines := SplitN(data, truncation + 1);
      WhereToCut(data, maxLines);
      if truncation > |lines| {
        outcome := Panic;
        return;
      }
      var idx := 0;
      for k := 0 to truncation
        invariant idx == Width(lines[..k]) && content == data
      {
        WidthSnoc(lines[..k], lines[k]);
        assert lines[..k + 1] == lines[..k] + [lines[k]];
        idx := idx + |lines[k]| + 1;
      }
      if idx > |data| {
        outcome := Panic;
        return;
      }
      WriteAt(0, data[idx..]);
      Truncate(|data| - idx);
      outcome := Done;
    }
  }

  /** The lines with their newlines. */
  function Width(lines: seq<string>): nat
  {
    if lines == [] then 0 else |lines[0]| + 1 + Width(lines[1..])
  }

  lemma {:induction false} WidthSnoc(lines: seq<string>, line: string)
    ensures Width(lines + [line]) == Width(lines) + |line| + 1
  {
    if lines != [] {
      WidthSnoc(lines[1..], line);
      assert (lines + [line])[1..] == lines[1..] + [line];
    }
  }

  lemma {:induction false} SplitWidth(data: string, n: nat)
    requires n > 0
    ensures Width(SplitN(data, n)) == |data| + 1
    ensures |SplitN(data, n)| <= Count(data) + 1
    decreases n
  {
    match Index(data) {
      case None =>
      case Some(i) =>
        CountAfterIndex(data, i);
        if n > 1 {
          SplitWidth(data[i + 1..], n - 1);
          assert SplitN(data, n)[1..] == SplitN(data[i + 1..], n - 1);
        }
    }
  }

  lemma WhereToCut(data: string, maxLines: int)
    requires maxLines <= Count(data)
    ensures var t := Count(data) - maxLines;
            var lines := SplitN(data, t + 1);
            if maxLines < 0 then t > |lines| || (t == |lines| && Width(lines[..t]) > |data|)
            else t < |lines| && Width(lines[..t]) <= |data| && data[Width(lines[..t])..] == LastLines(data, maxLines)
  {
    var t := Count(data) - maxLines;
    if maxLines < 0 {
      SplitWidth(data, t + 1);
      assert SplitN(data, t + 1)[..|SplitN(data, t + 1)|] == SplitN(data, t + 1);
    } else {
      SkipLines(data, t + 1, t);
    }
  }

  /** Where the line after the first k lines starts. */
  function Skip(data: string, k: nat): nat
    decreases k
  {
    match Index(data)
    case Some(i) => if k == 0 then 0 else i + 1 + Skip(data[i + 1..], k - 1)
    case None => 0
  }

  /** The width of the first k lines is the place where the next one starts, and behind it are the lines
      that trimming keeps. */
  lemma SkipLines(data: string, n: nat, k: nat)
    requires k < n && k <= Count(data)
    ensures k < |SplitN(data, n)|
    ensures Width(SplitN(data, n)[..k]) <= |data|
    ensures data[Width(SplitN(data, n)[..k])..] == LastLines(data, Count(data) - k)
  {
    SkipWidth(data, n, k);
    SkipKeeps(data, k);
  }

  lemma {:induction false} SkipWidth(data: string, n: nat, k: nat)
    requires k < n && k <= Count(data)
    ensures k < |SplitN(data, n)| && Width(SplitN(data, n)[..k]) == Skip(data, k)
    decreases k
  {
    CountZero(data);
    if k > 0 {
      var i := Index(data).value;
      CountAfterIndex(data, i);
      SkipWidth(data[i + 1..], n - 1, k - 1);
      SkipOne(data, n, k, i);
    } else {
      assert SplitN(data, n)[..0] == [];
    }
  }

  lemma {:induction false} SkipKeeps(data: string, k: nat)
    requires k <= Count(data)
    ensures Skip(data, k) <= |data| && data[Skip(data, k)..] == LastLines(data, Count(data) - k)
    decreases k
  {
    CountZero(data);
    if k > 0 {
      var i := Index(data).value;
      CountAfterIndex(data, i);
      SkipKeeps(data[i + 1..], k - 1);
      SkipFurther(data, i + 1, Skip(data[i + 1..], k - 1), LastLines(data[i + 1..], Count(data) - k));
      DropOne(data, Count(data) - k, i);
    } else {
      assert data[0..] == data;
    }
  }

  lemma SkipOne(data: string, n: nat, k: nat, i: nat)
    requires Index(data) == Some(i) && 0 < k < n && k <= |SplitN(data[i + 1..], n - 1)|
    ensures k <= |SplitN(data, n)|
    ensures Width(SplitN(data, n)[..k]) == i + 1 + Width(SplitN(data[i + 1..], n - 1)[..k - 1])
  {
    assert SplitN(data, n)[..k][1..] == SplitN(data[i + 1..], n - 1)[..k - 1];
  }

  lemma SkipFurther(data: string, a: nat, b: nat, last: string)
    requires a <= |data| && b <= |data[a..]| && data[a..][b..] == last
    ensures data[a + b..] == last
  {
  }

  lemma DropOne(data: string, n: nat, i: nat)
    requires Index(data) == Some(i) && n < Count(data)
    ensures LastLines(data, n) == LastLines(data[i + 1..], n)
  {
  }

  lemma FewLinesStay(data: string, n: nat)
    requires Count(data) <= n
    ensures LastLines(data, n) == data
  {
  }

  // ----- what trimming means ------------------------------------------------------------------

  /** A line starts at p. */
  predicate LineStart(data: string, p: nat)
    requires p <= |data|
  {
    p == 0 || data[p - 1] == '\n'
  }

  /** A line starts at p, and n newlines are behind it. */
  predicate StartsLast(data: string, n: nat, p: nat)
    requires p <= |data|
  {
    LineStart(data, p) && Count(data[p..]) == n
  }

  /** Trimming leaves a suffix, and where it starts is the one place of the data that starts a line with
      n newlines from there on. */
  lemma {:induction false} TrimIsTheLineStart(data: string, n: nat, p: nat)
    requires n < Count(data) && p <= |data|
    ensures StartsLast(data, n, p) <==> |LastLines(data, n)| + p == |data|
    ensures |LastLines(data, n)| + p == |data| ==> LastLines(data, n) == data[p..]
    decreases |data|
  {
    CountZero(data);
    var i := Index(data).value;
    var rest := data[i + 1..];
    CountAfterIndex(data, i);
    DropOne(data, n, i);
    TrimShortens(rest, n);
    if p <= i {
      NotInFirst(data, n, i, p);
    } else {
      InRest(data, rest, n, i, p);
      if n < Count(rest) {
        TrimIsTheLineStart(rest, n, p - i - 1);
      } else {
        AllOfRest(rest, p - i - 1);
      }
    }
  }

  /** Up to the first newline only the whole data starts a line. */
  lemma NotInFirst(data: string, n: nat, i: nat, p: nat)
    requires Index(data) == Some(i) && p <= i && n < Count(data)
    ensures !StartsLast(data, n, p)
  {
    if p == 0 {
      assert data[0..] == data;
    } else {
      assert data[p - 1] != '\n';
    }
  }

  lemma InRest(data: string, rest: string, n: nat, i: nat, p: nat)
    requires i < p <= |data| && data[i] == '\n' && rest == data[i + 1..]
    ensures data[p..] == rest[p - i - 1..]
    ensures StartsLast(data, n, p) <==> StartsLast(rest, n, p - i - 1)
  {
  }

  /** All newlines are behind the start alone. */
  lemma AllOfRest(rest: string, p: nat)
    requires p <= |rest|
    ensures StartsLast(rest, Count(rest), p) <==> p == 0
    ensures p == 0 ==> rest[p..] == rest
    ensures LastLines(rest, Count(rest)) == rest
  {
    assert rest[0..] == rest;
    FewLinesStay(rest, Count(rest));
    if p > 0 && LineStart(rest, p) {
      NewlinesBefore(rest, p);
    }
  }

  lemma {:induction false} TrimShortens(data: string, n: nat)
    ensures |LastLines(data, n)| <= |data|
    ensures Count(LastLines(data, n)) <= n
    decreases |data|
  {
    CountZero(data);
    match Index(data) {
      case None =>
      case Some(i) => TrimShortens(data[i + 1..], n);
    }
  }

  lemma NewlinesBefore(data: string, p: nat)
    requires 0 < p <= |data| && LineStart(data, p)
    ensures Count(data[p..]) < Count(data)
  {
    assert data == data[..p] + data[p..];
    CountConcat(data[..p], data[p..]);
    CountZero(data[..p]);
    assert data[..p][p - 1] == data[p - 1];
  }

  /** Trimming twice is trimming to the smaller number; in particular trimming is idempotent. */
  lemma {:induction false} TrimTwice(data: string, m: nat, n: nat)
    ensures LastLines(LastLines(data, m), n) == LastLines(data, if m < n then m else n)
    decreases |data|
  {
    TrimShortens(data, m);
    match Index(data) {
      case None =>
      case Some(i) =>
        if n < m < Count(data) {
          TrimTwice(data[i + 1..], m, n);
        } else if m <= n {
          FewLinesStay(LastLines(data, m), n);
        }
    }
  }

  /** Trimming before a write loses nothing that the next trim would have kept. */
  lemma {:induction false} TrimEarly(a: string, b: string, n: nat)
    ensures LastLines(LastLines(a, n) + b, n) == LastLines(a + b, n)
    decreases |a|
  {
    CountZero(a);
    if n < Count(a) {
      var i := Index(a).value;
      DropOne(a, n, i);
      TrimEarly(a[i + 1..], b, n);
      DropBefore(a, b, n, i);
    } else {
      FewLinesStay(a, n);
    }
  }

  lemma DropBefore(a: string, b: string, n: nat, i: nat)
    requires Index(a) == Some(i) && n < Count(a)
    ensures LastLines(a + b, n) == LastLines(a[i + 1..] + b, n)
  {
    CountConcat(a, b);
    OneIndex(a + b, i);
    DropOne(a + b, n, i);
    assert (a + b)[i + 1..] == a[i + 1..] + b;
  }

  datatype Use = Written(p: string) | Trimmed

  /** The file after writes and trims to n lines. */
  function After(uses: seq<Use>, n: nat): string
  {
    if uses == [] then "" else
    match Last(uses)
    case Written(p) => After(Front(uses), n) + p
    case Trimmed => LastLines(After(Front(uses), n), n)
  }

  function AllWritten(uses: seq<Use>): string
  {
    if uses == [] then "" else
    AllWritten(Front(uses)) + (match Last(uses) case Written(p) => p case Trimmed => "")
  }

  /** However often and whenever the file is trimmed, after the next trim it is the end of everything
      ever written. */
  lemma {:induction false} TrimmedHistory(uses: seq<Use>, n: nat)
    ensures LastLines(After(uses, n), n) == LastLines(AllWritten(uses), n)
  {
    if uses != [] {
      var front := Front(uses);
      TrimmedHistory(front, n);
      match Last(uses) {
        case Written(p) =>
          TrimEarly(After(front, n), p, n);
          TrimEarly(AllWritten(front), p, n);
        case Trimmed =>
          TrimTwice(After(front, n), n, n);
          assert AllWritten(uses) == AllWritten(front);
      }
    }
  }
}
